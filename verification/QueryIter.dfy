/**
 * Who releases a C iterator (flecs_ecs/src/core/query_iter.rs, and the consuming operations of
 * utility/traits/query_api.rs).
 *
 * A `QueryIter` or `ChainedIter` is responsible for its iterator until a consuming operation
 * takes it over, or `page`, `worker` or `iterable` passes it on. A chained C iterator owns
 * nothing itself: finishing it finishes the one it was made from. The operation releases the
 * iterator by exhausting it or with `ecs_iter_fini`, and does not always do so once.
 */
module QueryIter {
  import opened Wrappers
  import opened Sequences

  type Id = nat

  /** One C iterator with resources, made from a query. */
  type Root = nat

  // ----- Consuming operations ------------------------------------------------------------

  /**
   * `Loop`: `each`, `each_entity`, `each_iter`, `find`, `find_entity`, `count` and `to_json`.
   * `First`: `is_true`, `try_first_entity` and `try_first_only`. `Run`: `run` and its variants,
   * whose callback asks for at most `calls` results, until there are none, and then may call `fini`.
   */
  datatype Consumer = Loop | First | TryFirst | Run(calls: nat, fini: bool)

  /** The entity counts of the results an iterator yields; a result without `$this` has none. */
  type Results = seq<nat>

  /** How often an operation releases the iterator it took. */
  function Releases(c: Consumer, results: Results): nat {
    match c
    case Loop => 1
    case First => 1
    case TryFirst => if results != [] && results[0] == 0 then 0 else 1
    case Run(calls, fini) => (if calls > |results| then 1 else 0) + (if fini then 1 else 0)
  }

  /** A C iterator over `results`. */
  class CIterator {
    const results: Results
    var position: nat
    var count: nat
    var releases: nat

    constructor (results: Results)
      ensures this.results == results && Fresh() && releases == 0
    {
      this.results, position, count, releases := results, 0, 0, 0;
    }

    predicate Fresh()
      reads this
    {
      position == 0
    }

    /** `ecs_iter_next`: the last call releases the iterator. */
    method Next() returns (more: bool)
      requires position <= |results|
      modifies this
      ensures more <==> old(position) < |results|
      ensures more ==> position == old(position) + 1 && count == results[old(position)] && releases == old(releases)
      ensures !more ==> position == old(position) && releases == old(releases) + 1
    {
      if position < |results| {
        count, position := results[position], position + 1;
        return true;
      }
      releases := releases + 1;
      return false;
    }

    /** `ecs_iter_fini` */
    method Fini()
      modifies this
      ensures releases == old(releases) + 1 && position == old(position) && count == old(count)
    {
      releases := releases + 1;
    }

    /** `count`; the other loops differ in what they do with a result. */
    method Count() returns (result: nat)
      requires Fresh()
      modifies this
      ensures result == Sum(results)
      ensures releases == old(releases) + Releases(Loop, results)
    {
      result := 0;
      var more := Next();
      while more
        invariant position <= |results| && (more ==> 0 < position && count == results[position - 1])
        invariant more ==> result + Sum(results[position - 1..]) == Sum(results) && releases == old(releases)
        invariant !more ==> result == Sum(results) && releases == old(releases) + 1
        decreases |results| - position, more
      {
        assert results[position - 1..][0] == count && results[position - 1..][1..] == results[position..];
        result := result + count;
        more := Next();
      }
    }

    /**
     * `to_json`: without results to serialize, or after result number `bad`, which cannot be
     * serialized, the iterator is finished; otherwise it is exhausted.
     */
    method ToJson(skip: bool, bad: nat) returns (complete: bool)
      requires Fresh()
      modifies this
      ensures complete <==> skip || bad >= |results|
      ensures releases == old(releases) + Releases(Loop, results)
    {
      if skip {
        Fini();
        return true;
      }
      var more := Next();
      while more
        invariant position <= |results| && (more ==> 0 < position <= bad + 1 && releases == old(releases))
        invariant !more ==> position == |results| <= bad && releases == old(releases) + 1
        decreases |results| - position, more
      {
        if position - 1 == bad {
          Fini();
          return false;
        }
        more := Next();
      }
      return true;
    }

    method IsTrue() returns (result: bool)
      requires Fresh()
      modifies this
      ensures result <==> results != []
      ensures releases == old(releases) + Releases(First, results)
    {
      result := Next();
      if result { Fini(); }
    }

    /** Whether there is an entity to return. */
    method TryFirstEntity() returns (found: bool)
      requires Fresh()
      modifies this
      ensures found <==> results != [] && results[0] > 0
      ensures releases == old(releases) + Releases(First, results)
    {
      var more := Next();
      if more {
        found := count > 0;
        Fini();
      } else {
        found := false;
      }
    }

    /** Whether the first result has exactly one entity. */
    method TryFirstOnly() returns (found: bool)
      requires Fresh()
      modifies this
      ensures found <==> results != [] && results[0] == 1
      ensures releases == old(releases) + Releases(First, results)
    {
      var more := Next();
      if more {
        found := count == 1;
        Fini();
      } else {
        found := false;
      }
    }

    /** Whether the callback is called: the guard also fails on a result without entities. */
    method TryFirst() returns (found: bool)
      requires Fresh()
      modifies this
      ensures found <==> results != [] && results[0] > 0
      ensures releases == old(releases) + Releases(Consumer.TryFirst, results)
    {
      var more := Next();
      if more && count > 0 {
        Fini();
        return true;
      }
      return false;
    }

    /** A callback of `run` that asks for `calls` results and may finish the iterator. */
    method RunCallback(calls: nat, fini: bool)
      requires Fresh()
      modifies this
      ensures releases == old(releases) + Releases(Run(calls, fini), results)
    {
      var asked, more := 0, true;
      while asked < calls && more
        invariant asked <= calls && position <= |results|
        invariant more ==> position == asked && releases == old(releases)
        invariant !more ==> asked == |results| + 1 && releases == old(releases) + 1
        decreases calls - asked
      {
        more := Next();
        asked := asked + 1;
      }
      if fini { Fini(); }
    }
  }

  // ----- The step system -----------------------------------------------------------------

  datatype Holder =
    | Iter(root: Root, chained: bool, consumed: bool)
    | Operation(root: Root, consumer: Consumer)
  {
    /** Must release the iterator, or pass it on. */
    predicate Responsible() {
      Iter? ==> !consumed
    }
  }

  /**
   * What became of an iterator. `Unwound` is a callback that panicked: one given to `run` may have
   * asked for `asked` results and called `fini` by then.
   */
  datatype Ending =
    | Dropped
    | Completed(consumer: Consumer, results: Results)
    | Unwound(asked: nat, fini: bool, results: Results)

  function Given(e: Ending): nat {
    match e
    case Dropped => 1
    case Completed(c, results) => Releases(c, results)
    case Unwound(asked, fini, results) => Releases(Run(asked, fini), results)
  }

  /** Live wrappers and running operations, and how each C iterator was released. */
  datatype State = State(holders: map<Id, Holder>, released: map<Root, nat>, ended: map<Root, Ending>)

  const START := State(map[], map[], map[])

  datatype Step =
    | Create(id: Id, root: Root)                  // a query's `iterable` or `iter_stage`
    | Configure(id: Id)                           // `set_var`, `set_group` and the like
    | Chain(id: Id, to: Id)                       // `page` and `worker`, which take the `QueryIter`
    | Rewrap(id: Id, to: Id)                      // `iterable` on an iterator
    | Consume(id: Id, op: Id, consumer: Consumer)
    | Finish(op: Id, results: Results)            // the operation returns
    | Unwind(op: Id, asked: nat, fini: bool, results: Results)   // its callback panics
    | Drop(id: Id)

  /** `take_iter` and `retrieve_iter` panic on a consumed wrapper. */
  predicate CanTake(s: State, id: Id) {
    id in s.holders && s.holders[id].Iter? && !s.holders[id].consumed
  }

  function Without(s: State, id: Id): State {
    s.(holders := s.holders - {id})
  }

  /** The holder `id` is gone, and its iterator ended as `e` says. */
  function Ended(s: State, id: Id, e: Ending): State
    requires id in s.holders
  {
    var root := s.holders[id].root;
    var before := if root in s.released then s.released[root] else 0;
    Without(s, id).(released := s.released[root := before + Given(e)], ended := s.ended[root := e])
  }

  /** Marks `id` as consumed and hands its iterator to `next`. */
  function HandOver(s: State, id: Id, to: Id, next: Holder): State
    requires id in s.holders && s.holders[id].Iter?
  {
    s.(holders := s.holders[id := s.holders[id].(consumed := true)][to := next])
  }

  function Next(s: State, step: Step): Option<State> {
    match step
    case Create(id, root) =>
      if id in s.holders || root in s.released then None
      else Some(s.(holders := s.holders[id := Iter(root, false, false)], released := s.released[root := 0]))
    case Configure(id) =>
      if id in s.holders && s.holders[id].Iter? && !s.holders[id].chained then Some(s) else None
    case Chain(id, to) =>
      if CanTake(s, id) && !s.holders[id].chained && to !in s.holders then
        // the taken `QueryIter` is dropped at the end of the call, already marked
        Some(AfterDrop(HandOver(s, id, to, Iter(s.holders[id].root, true, false)), id))
      else None
    case Rewrap(id, to) =>
      if CanTake(s, id) && to !in s.holders then
        Some(HandOver(s, id, to, Iter(s.holders[id].root, false, false)))
      else None
    case Consume(id, op, consumer) =>
      if CanTake(s, id) && op !in s.holders then
        Some(HandOver(s, id, op, Operation(s.holders[id].root, consumer)))
      else None
    case Finish(op, results) =>
      if op in s.holders && s.holders[op].Operation? then
        Some(Ended(s, op, Completed(s.holders[op].consumer, results)))
      else None
    case Unwind(op, asked, fini, results) =>
      if op in s.holders && s.holders[op].Operation? && CanUnwind(s.holders[op].consumer, asked, fini, results) then
        Some(Ended(s, op, Unwound(asked, fini, results)))
      else None
    case Drop(id) =>
      if id in s.holders && s.holders[id].Iter? then Some(AfterDrop(s, id)) else None
  }

  /** Other callbacks than that of `run` cannot release the iterator before they panic. */
  predicate CanUnwind(c: Consumer, asked: nat, fini: bool, results: Results) {
    c.Run? || (asked <= |results| && !fini)
  }

  function AfterDrop(s: State, id: Id): State
    requires id in s.holders && s.holders[id].Iter?
  {
    if s.holders[id].consumed then Without(s, id) else Ended(s, id, Dropped)
  }

  function RunSteps(s: State, steps: seq<Step>): Option<State>
    decreases |steps|
  {
    if steps == [] then Some(s)
    else
      var n :- Next(s, steps[0]);
      RunSteps(n, steps[1..])
  }

  ghost predicate Reachable(s: State) {
    exists steps :: RunSteps(START, steps) == Some(s)
  }

  // ----- Released exactly once, when exactly ---------------------------------------------

  function Owners(s: State, root: Root): set<Id> {
    set id | id in s.holders && s.holders[id].root == root && s.holders[id].Responsible()
  }

  /** Either one holder is still responsible, or the iterator ended and was released accordingly. */
  ghost predicate Settled(s: State, root: Root)
    requires root in s.released
  {
    if root in s.ended then Owners(s, root) == {} && s.released[root] == Given(s.ended[root])
    else |Owners(s, root)| == 1 && s.released[root] == 0
  }

  ghost predicate Inv(s: State) {
    && (forall id <- s.holders :: s.holders[id].root in s.released)
    && (forall root <- s.ended :: root in s.released)
    && (forall root <- s.released :: Settled(s, root))
  }

  lemma {:induction false} OnlyOwner(s: State, id: Id)
    requires Inv(s) && id in s.holders && s.holders[id].Responsible()
    ensures Owners(s, s.holders[id].root) == {id} && s.holders[id].root !in s.ended
    ensures s.released[s.holders[id].root] == 0
  {
    var root := s.holders[id].root;
    assert Settled(s, root);
    assert id in Owners(s, root);
    assert |Owners(s, root) - {id}| == 0;
  }

  lemma {:induction false} HandOverKeepsInv(s: State, id: Id, to: Id, next: Holder)
    requires Inv(s) && CanTake(s, id) && to !in s.holders && next.Responsible() && next.root == s.holders[id].root
    ensures Inv(HandOver(s, id, to, next))
  {
    var t := HandOver(s, id, to, next);
    OnlyOwner(s, id);
    forall root <- t.released ensures Settled(t, root) {
      if root == next.root {
        assert forall x <- Owners(t, root) :: x == to || x in Owners(s, root);
        assert Owners(t, root) == {to};
      } else {
        assert Settled(s, root) && Owners(t, root) == Owners(s, root);
      }
    }
  }

  lemma {:induction false} EndKeepsInv(s: State, id: Id, e: Ending)
    requires Inv(s) && id in s.holders && s.holders[id].Responsible()
    ensures Inv(Ended(s, id, e))
  {
    var t := Ended(s, id, e);
    OnlyOwner(s, id);
    forall root <- t.released ensures Settled(t, root) {
      if root == s.holders[id].root {
        assert forall x <- Owners(t, root) :: x in Owners(s, root) - {id};
        assert Owners(t, root) == {};
      } else {
        assert Settled(s, root) && Owners(t, root) == Owners(s, root);
      }
    }
  }

  lemma {:induction false} DropKeepsInv(s: State, id: Id)
    requires Inv(s) && id in s.holders && s.holders[id].Iter?
    ensures Inv(AfterDrop(s, id))
  {
    if s.holders[id].consumed {
      var t := AfterDrop(s, id);
      forall root <- t.released ensures Settled(t, root) {
        assert Settled(s, root) && Owners(t, root) == Owners(s, root);
      }
    } else {
      EndKeepsInv(s, id, Dropped);
    }
  }

  lemma {:induction false} CreateKeepsInv(s: State, t: State, id: Id, root: Root)
    requires Inv(s) && Next(s, Create(id, root)) == Some(t)
    ensures Inv(t)
  {
    forall r <- t.released ensures Settled(t, r) {
      if r == root {
        assert Owners(t, r) == {id};
      } else {
        assert Settled(s, r) && Owners(t, r) == Owners(s, r);
      }
    }
  }

  lemma {:induction false} StepKeepsInv(s: State, step: Step, t: State)
    requires Inv(s) && Next(s, step) == Some(t)
    ensures Inv(t)
  {
    match step
    case Create(id, root) => CreateKeepsInv(s, t, id, root);
    case Configure(_) =>
    case Chain(id, to) =>
      HandOverKeepsInv(s, id, to, Iter(s.holders[id].root, true, false));
      DropKeepsInv(HandOver(s, id, to, Iter(s.holders[id].root, true, false)), id);
    case Rewrap(id, to) => HandOverKeepsInv(s, id, to, Iter(s.holders[id].root, false, false));
    case Consume(id, op, consumer) => HandOverKeepsInv(s, id, op, Operation(s.holders[id].root, consumer));
    case Finish(op, results) => EndKeepsInv(s, op, Completed(s.holders[op].consumer, results));
    case Unwind(op, asked, fini, results) => EndKeepsInv(s, op, Unwound(asked, fini, results));
    case Drop(id) => DropKeepsInv(s, id);
  }

  lemma {:induction false} RunKeepsInv(s: State, steps: seq<Step>)
    requires Inv(s) && RunSteps(s, steps).Some?
    ensures Inv(RunSteps(s, steps).value)
    decreases |steps|
  {
    if steps != [] {
      StepKeepsInv(s, steps[0], Next(s, steps[0]).value);
      RunKeepsInv(Next(s, steps[0]).value, steps[1..]);
    }
  }

  lemma {:induction false} ReachableInv(s: State)
    requires Reachable(s)
    ensures Inv(s)
  {
    var steps :| RunSteps(START, steps) == Some(s);
    RunKeepsInv(START, steps);
  }

  /** A callback of `run` both exhausts and finishes the iterator. */
  predicate Twice(e: Ending) {
    match e
    case Completed(Run(calls, fini), results) => fini && calls > |results|
    case Unwound(asked, fini, results) => fini && asked > |results|
    case _ => false
  }

  /**
   * The iterator is neither exhausted nor finished: a callback panicked before it did either,
   * `run`'s callback stopped early without `fini`, or `try_first` met a result without entities.
   */
  predicate Leaks(e: Ending) {
    match e
    case Completed(Run(calls, fini), results) => !fini && calls <= |results|
    case Completed(TryFirst, results) => results != [] && results[0] == 0
    case Unwound(asked, fini, results) => !fini && asked <= |results|
    case _ => false
  }

  /**
   * In every run, an iterator that has ended was released exactly once if and only if it did not
   * leak and was not released twice; one that has not ended is unreleased and has exactly one
   * holder. When nothing is held any more, every iterator has ended.
   */
  lemma {:induction false} ReleasedExactlyOnceIff(s: State, root: Root)
    requires Reachable(s) && root in s.released
    ensures s.released[root] == 1 <==> root in s.ended && !Leaks(s.ended[root]) && !Twice(s.ended[root])
    ensures s.released[root] == 0 <==> root !in s.ended || Leaks(s.ended[root])
    ensures s.released[root] > 1 <==> root in s.ended && Twice(s.ended[root])
    ensures root !in s.ended <==> exists id :: Owners(s, root) == {id}
    ensures s.holders == map[] ==> root in s.ended
  {
    ReachableInv(s);
    assert Settled(s, root);
    if root !in s.ended {
      var id :| id in Owners(s, root);
      OnlyOwner(s, id);
    } else {
      assert forall id :: id !in Owners(s, root);
    }
  }

  /** Only an iterator that has not ended is passed on, consumed, finished or released by a drop. */
  lemma {:induction false} UsedBeforeRelease(s: State, step: Step, t: State)
    requires Reachable(s) && Next(s, step) == Some(t)
    ensures step.Chain? || step.Rewrap? || step.Consume? ==> Pending(s, s.holders[step.id].root)
    ensures step.Finish? || step.Unwind? ==> Pending(s, s.holders[step.op].root)
    ensures step.Drop? ==> (s.holders[step.id].consumed <==> t.released == s.released)
    ensures step.Drop? && t.released != s.released ==> Pending(s, s.holders[step.id].root)
  {
    ReachableInv(s);
    if step.Chain? || step.Rewrap? || step.Consume? { OnlyOwner(s, step.id); }
    if step.Finish? || step.Unwind? { OnlyOwner(s, step.op); }
    if step.Drop? && !s.holders[step.id].consumed { OnlyOwner(s, step.id); }
  }

  predicate Pending(s: State, root: Root) {
    root in s.released && s.released[root] == 0 && root !in s.ended
  }

  lemma {:induction false} StepReachable(s: State, step: Step, t: State)
    requires Reachable(s) && Next(s, step) == Some(t)
    ensures Reachable(t)
  {
    var steps :| RunSteps(START, steps) == Some(s);
    RunStepsLast(START, steps, step);
  }

  lemma {:induction false} RunStepsLast(s: State, steps: seq<Step>, step: Step)
    requires RunSteps(s, steps).Some?
    ensures RunSteps(s, steps + [step]) == Next(RunSteps(s, steps).value, step)
    decreases |steps|
  {
    if steps == [] {
      assert [step][1..] == [];
      assert [] + [step] == [step];
    } else {
      assert (steps + [step])[0] == steps[0] && (steps + [step])[1..] == steps[1..] + [step];
      RunStepsLast(Next(s, steps[0]).value, steps[1..], step);
    }
  }

  lemma {:induction false} OneConsumer(consumer: Consumer) returns (s: State)
    ensures Reachable(s)
    ensures s == State(map[0 := Iter(0, false, true), 1 := Operation(0, consumer)], map[0 := 0], map[])
  {
    assert RunSteps(START, []) == Some(START);
    var a := Next(START, Create(0, 0)).value;
    s := Next(a, Consume(0, 1, consumer)).value;
    StepReachable(START, Create(0, 0), a);
    StepReachable(a, Consume(0, 1, consumer), s);
  }

  /** An operation on a query's own iterator, from start to end. */
  lemma {:induction false} WholeOperation(consumer: Consumer, results: Results) returns (s: State)
    ensures Reachable(s) && s.holders == map[]
    ensures s.ended == map[0 := Completed(consumer, results)] && s.released == map[0 := Releases(consumer, results)]
  {
    var a := OneConsumer(consumer);
    var b := Next(a, Finish(1, results)).value;
    assert b == State(map[0 := Iter(0, false, true)], map[0 := Releases(consumer, results)],
      map[0 := Completed(consumer, results)]);
    s := Next(b, Drop(0)).value;
    StepReachable(a, Finish(1, results), b);
    StepReachable(b, Drop(0), s);
  }

  /** `try_first` on a query whose sources are all fixed: nothing is held, nothing was released. */
  lemma {:induction false} TryFirstLeaks() returns (s: State)
    ensures Reachable(s) && s.holders == map[]
    ensures s.ended == map[0 := Completed(TryFirst, [0])] && s.released == map[0 := 0]
  {
    s := WholeOperation(TryFirst, [0]);
  }

  // ----- The wrappers as objects ---------------------------------------------------------

  /** `QueryIter`, or `ChainedIter` over the iterator it was made from. */
  class Wrapper {
    const root: Root
    const chained: bool
    const it: CIterator
    var consumed: bool

    ghost function AsHolder(): Holder
      reads this
    {
      Iter(root, chained, consumed)
    }

    constructor (root: Root, chained: bool, it: CIterator)
      ensures AsHolder() == Iter(root, chained, false) && this.it == it
    {
      this.root, this.chained, this.it, consumed := root, chained, it, false;
    }

    /** `take_iter`, and `retrieve_iter` of a chained iterator; `None` is the panic. */
    method TakeIter() returns (r: Option<Root>)
      modifies this
      ensures r == if old(AsHolder()).Responsible() then Some(root) else None
      ensures consumed
    {
      if consumed { return None; }
      consumed := true;
      return Some(root);
    }

    /** `new_page` and `new_worker`, which then drop the wrapper they were given. */
    method IntoChained() returns (r: Option<Wrapper>)
      modifies this, it
      ensures r.Some? <==> old(AsHolder()).Responsible()
      ensures r.Some? ==> fresh(r.value) && r.value.AsHolder() == Iter(root, true, false) && r.value.it == it
      ensures consumed && it.releases == old(it.releases)
    {
      var taken := TakeIter();
      Drop();
      if taken.None? { return None; }
      var chain := new Wrapper(taken.value, true, it);
      return Some(chain);
    }

    /** Releases the iterator exactly if nothing else is responsible for it. */
    method Drop()
      modifies it
      ensures it.releases == old(it.releases) + if AsHolder().Responsible() then Given(Dropped) else 0
    {
      if !consumed { it.Fini(); }
    }
  }
}
