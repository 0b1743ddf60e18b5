/**
 * Lifetime protocol of `Query` and `QueryHandle` (flecs_ecs/src/core/query.rs, world_ctx.rs and
 * the drop of `World` in world/world.rs), for queries that are not bound to an entity.
 *
 * A query header has a reference count, the world context has a count over all queries, a
 * panicking flag and a mutex-guarded flag saying that teardown has begun. Each atomic access is
 * one step. `Query` values stay on the owning thread; handles are cloned and dropped anywhere.
 */
module QueryHandle {
  import opened Wrappers

  type QueryId = nat
  type ObjId = nat

  datatype Kind = QueryValue | HandleValue

  /** `Gone` objects have been dropped; one whose drop returned early keeps its two marks. */
  datatype Stage = Building | Live | Dropping | Gone

  /** A Rust value: does it hold a header reference, is it included in the world's count. */
  datatype Obj = Obj(query: QueryId, kind: Kind, stage: Stage, claimed: bool, counted: bool)

  /** What a thread still has to do; handle operations hold the `world_dead` mutex. */
  datatype Task =
    | Idle
    | Counting(id: ObjId, locked: bool)
    | Releasing(id: ObjId, locked: bool)
    | Finalizing(id: ObjId, locked: bool)
    | Uncounting(id: ObjId)
  {
    predicate HoldsLock() {
      match this
      case Idle => false
      case Uncounting(_) => true
      case _ => locked
    }
  }

  /** Alive; teardown begun; `ecs_fini` has freed the headers; context leaked or freed. */
  datatype Phase = Alive | Dead | Reclaimed | Leaked | Freed

  datatype Actor = Owner | Other

  /** `owner` is the owning thread's task and `other` that of the thread holding the mutex. */
  datatype State = State(
    objs: map<ObjId, Obj>,
    refs: map<QueryId, nat>,
    finalized: set<QueryId>,
    count: int,
    flag: bool,
    unwound: bool,
    phase: Phase,
    owner: Task,
    other: Task)
  {
    predicate LockFree() {
      other.Idle? && !owner.HoldsLock()
    }

    function TaskOf(actor: Actor): Task {
      if actor == Owner then owner else other
    }

    function WithTask(actor: Actor, task: Task): State {
      if actor == Owner then this.(owner := task) else this.(other := task)
    }

    predicate IsLive(id: ObjId) {
      id in objs && objs[id].stage == Live
    }

    predicate LiveOf(id: ObjId, kind: Kind) {
      IsLive(id) && objs[id].kind == kind
    }
  }

  const START := State(map[], map[], {}, 0, false, false, Alive, Idle, Idle)

  datatype Step =
    | Init(id: ObjId, q: QueryId)                        // `ecs_query_init`
    | ClaimQuery(src: ObjId, id: ObjId, kind: Kind)      // `Query::clone` and `Query::handle`
    | ClaimHandle(src: ObjId, id: ObjId, actor: Actor)   // `QueryHandle::clone`
    | Count(actor: Actor)
    | DropQuery(id: ObjId, unwinding: bool)
    | DropHandle(id: ObjId, actor: Actor, unwinding: bool)
    | Release(actor: Actor)
    | Finalize
    | Uncount(actor: Actor)
    | Use(src: ObjId, actor: Actor)                      // `retrieve_iter`, `world`, `entity`, `iter_stage`, ...
    | RaiseFlag                                          // `Query::destruct` of another query
    | MarkDead
    | Reclaim
    | CheckCount

  /** A new object that holds a reference to `q`, still to be counted. */
  function Claimed(s: State, id: ObjId, q: QueryId, kind: Kind, refs: nat, actor: Actor, locked: bool): State {
    s.(objs := s.objs[id := Obj(q, kind, Building, true, false)], refs := s.refs[q := refs])
     .WithTask(actor, Counting(id, locked))
  }

  function SetObj(s: State, id: ObjId, o: Obj): State {
    s.(objs := s.objs[id := o])
  }

  /** A drop that returns early. */
  function Abandoned(s: State, id: ObjId, unwinding: bool): State
    requires id in s.objs
  {
    SetObj(s, id, s.objs[id].(stage := Gone)).(unwound := s.unwound || unwinding)
  }

  /** A handle drop that took the lock and goes on. */
  function HandleDropping(s: State, id: ObjId, actor: Actor): State
    requires id in s.objs
  {
    SetObj(s, id, s.objs[id].(stage := Dropping)).WithTask(actor, Releasing(id, true))
  }

  /** Owning-thread user code runs while the world lives, in `ecs_fini`'s hooks, and after `World`'s drop. */
  predicate OwnerMayAct(s: State) {
    s.owner.Idle? && s.phase != Reclaimed
  }

  predicate WorldExists(s: State) {
    s.phase == Alive || s.phase == Dead
  }

  function Next(s: State, step: Step): Option<State> {
    match step
    case Init(id, q) =>
      if OwnerMayAct(s) && WorldExists(s) && id !in s.objs && q !in s.refs then
        Some(Claimed(s, id, q, QueryValue, 1, Owner, false))
      else None
    case ClaimQuery(src, id, kind) =>
      if OwnerMayAct(s) && s.LiveOf(src, QueryValue) && id !in s.objs && s.objs[src].query in s.refs then
        Some(Claimed(s, id, s.objs[src].query, kind, s.refs[s.objs[src].query] + 1, Owner, false))
      else None
    case ClaimHandle(src, id, actor) =>
      if (actor == Owner ==> OwnerMayAct(s)) && s.phase == Alive && s.LockFree() &&
         s.LiveOf(src, HandleValue) && id !in s.objs && s.objs[src].query in s.refs then
        Some(Claimed(s, id, s.objs[src].query, HandleValue, s.refs[s.objs[src].query] + 1, actor, true))
      else None
    case Count(actor) =>
      var task := s.TaskOf(actor);
      if task.Counting? && task.id in s.objs then
        var o := s.objs[task.id].(stage := Live, counted := true);
        Some(SetObj(s, task.id, o).(count := s.count + 1).WithTask(actor, Idle))
      else None
    case DropQuery(id, unwinding) =>
      if !OwnerMayAct(s) || !s.LiveOf(id, QueryValue) then None
      else if s.flag || unwinding then Some(Abandoned(s, id, unwinding))
      else
        var o := s.objs[id].(stage := Dropping, counted := false);
        Some(SetObj(s, id, o).(count := s.count - 1, owner := Releasing(id, false)))
    case DropHandle(id, actor, unwinding) =>
      if (actor == Owner && !OwnerMayAct(s)) || !s.LockFree() || !s.LiveOf(id, HandleValue) then None
      else if s.flag || unwinding || (s.phase != Alive && actor == Other) then Some(Abandoned(s, id, unwinding))
      else Some(HandleDropping(s, id, actor))
    case Release(actor) =>
      var task := s.TaskOf(actor);
      if task.Releasing? && task.id in s.objs && s.objs[task.id].query in s.refs &&
        s.refs[s.objs[task.id].query] > 0 then
        var q := s.objs[task.id].query;
        var n := s.refs[q] - 1;
        var last := n == 0 && actor == Owner;
        var o := s.objs[task.id].(claimed := false, stage := if last || task.locked then Dropping else Gone);
        var rest :=
          if last then Finalizing(task.id, task.locked) else if task.locked then Uncounting(task.id) else Idle;
        Some(SetObj(s, task.id, o).(refs := s.refs[q := n]).WithTask(actor, rest))
      else None
    case Finalize =>
      if s.owner.Finalizing? && s.owner.id in s.objs then
        var id, locked := s.owner.id, s.owner.locked;
        var o := s.objs[id].(stage := if locked then Dropping else Gone);
        Some(SetObj(s, id, o).(finalized := s.finalized + {o.query}, owner := if locked then Uncounting(id) else Idle))
      else None
    case Uncount(actor) =>
      var task := s.TaskOf(actor);
      if task.Uncounting? && task.id in s.objs then
        var o := s.objs[task.id].(stage := Gone, counted := false);
        Some(SetObj(s, task.id, o).(count := s.count - 1).WithTask(actor, Idle))
      else None
    case Use(src, actor) =>
      if s.IsLive(src) && (actor == Owner ==> OwnerMayAct(s)) &&
        (s.objs[src].kind == QueryValue ==> actor == Owner) then Some(s)
      else None
    case RaiseFlag =>
      if OwnerMayAct(s) && WorldExists(s) then Some(s.(flag := true)) else None
    case MarkDead =>
      if s.phase == Alive && s.owner.Idle? && s.LockFree() then Some(s.(phase := Dead)) else None
    case Reclaim =>
      if s.phase == Dead && s.owner.Idle? then Some(s.(phase := Reclaimed)) else None
    case CheckCount =>
      if s.phase != Reclaimed then None
      else if s.count != 0 && !s.flag then Some(s.(flag := true, phase := Leaked))
      else Some(s.(phase := Freed))
  }

  /** Runs steps in order; `None` when one is not enabled. */
  function Run(s: State, steps: seq<Step>): Option<State>
    decreases |steps|
  {
    if steps == [] then Some(s)
    else
      var n :- Next(s, steps[0]);
      Run(n, steps[1..])
  }

  ghost predicate Reachable(s: State) {
    exists steps :: Run(START, steps) == Some(s)
  }

  // ----- What the counters count ---------------------------------------------------------

  function Counted(objs: map<ObjId, Obj>): set<ObjId> {
    set id | id in objs && objs[id].counted
  }

  function Holders(objs: map<ObjId, Obj>, q: QueryId): set<ObjId> {
    set id | id in objs && objs[id].claimed && objs[id].query == q
  }

  /** Stage and marks of an object that no task is working on. */
  predicate Settled(o: Obj) {
    match o.stage
    case Live => o.claimed && o.counted
    case Gone => o.claimed == o.counted
    case _ => false
  }

  /** Stage and marks of the object a task works on. */
  predicate Fits(s: State, task: Task)
    requires !task.Idle?
  {
    task.id in s.objs &&
    var o := s.objs[task.id];
    match task
    case Counting(_, _) => o.stage == Building && o.claimed && !o.counted
    case Releasing(_, locked) => o.stage == Dropping && o.claimed && o.counted == locked
    case Finalizing(_, locked) =>
      && o.stage == Dropping && !o.claimed && o.counted == locked
      && o.query in s.refs && s.refs[o.query] == 0 && o.query !in s.finalized
    case Uncounting(_) => o.stage == Dropping && !o.claimed && o.counted
  }

  predicate Busy(s: State, id: ObjId) {
    (!s.owner.Idle? && s.owner.id == id) || (!s.other.Idle? && s.other.id == id)
  }

  /** Both counters count the objects that hold them. */
  ghost predicate Accounts(s: State) {
    && s.count == |Counted(s.objs)|
    && (forall q <- s.refs :: s.refs[q] == |Holders(s.objs, q)|)
    && (forall id <- s.objs :: s.objs[id].query in s.refs)
  }

  /** Marks agree with stages and tasks, and a finalized query has no holder left. */
  predicate Consistent(s: State) {
    && (forall id <- s.objs :: Busy(s, id) || Settled(s.objs[id]))
    && (forall q <- s.finalized :: q in s.refs && s.refs[q] == 0)
    && Tasks(s)
    && Phases(s)
  }

  ghost predicate Inv(s: State) {
    Accounts(s) && Consistent(s)
  }

  predicate Tasks(s: State) {
    && (!s.owner.Idle? ==> Fits(s, s.owner))
    && (!s.other.Idle? ==> Fits(s, s.other) && s.other.HoldsLock() && !s.other.Finalizing?)
    && (!s.other.Idle? ==> !s.owner.HoldsLock() && (!s.owner.Idle? ==> s.owner.id != s.other.id))
  }

  predicate Phases(s: State) {
    && (s.phase != Alive ==> s.other.Idle?)
    && (s.phase == Reclaimed ==> s.owner.Idle?)
    && (s.phase == Leaked ==> s.flag)
    && (s.phase == Freed && !s.flag ==> s.count == 0 && s.owner.Idle?)
    && (s.phase in {Leaked, Freed} ==> s.owner.Idle? || s.owner.Counting?)
    && (s.phase == Alive && !s.flag && !s.unwound ==>
          forall id <- s.objs :: s.objs[id].stage == Gone ==> !s.objs[id].counted)
  }

  // ----- The invariant holds of every run ------------------------------------------------

  function Bit(b: bool): int {
    if b then 1 else 0
  }

  predicate WasCounted(s: State, id: ObjId) {
    id in s.objs && s.objs[id].counted
  }

  predicate WasClaimed(s: State, id: ObjId) {
    id in s.objs && s.objs[id].claimed
  }

  lemma {:induction false} CountedUpdate(objs: map<ObjId, Obj>, id: ObjId, o: Obj)
    ensures |Counted(objs[id := o])| == |Counted(objs)| + Bit(o.counted) - Bit(id in objs && objs[id].counted)
  {
    var a, b := Counted(objs), Counted(objs[id := o]);
    assert b == if o.counted then a + {id} else a - {id};
  }

  lemma {:induction false} HoldersUpdate(objs: map<ObjId, Obj>, id: ObjId, o: Obj, q: QueryId)
    requires id in objs ==> objs[id].query == o.query
    ensures |Holders(objs[id := o], q)| ==
      |Holders(objs, q)| + if q == o.query then Bit(o.claimed) - Bit(id in objs && objs[id].claimed) else 0
  {
    var a, b := Holders(objs, q), Holders(objs[id := o], q);
    assert b == if o.claimed && o.query == q then a + {id} else a - {id};
  }

  lemma {:induction false} AccountsUpdate(s: State, t: State, id: ObjId, o: Obj)
    requires Accounts(s) && t.objs == s.objs[id := o]
    requires id in s.objs ==> s.objs[id].query == o.query
    requires t.refs.Keys == s.refs.Keys + {o.query}
    requires forall q <- s.refs :: q != o.query ==> t.refs[q] == s.refs[q]
    requires t.refs[o.query] ==
      (if o.query in s.refs then s.refs[o.query] else 0) + Bit(o.claimed) - Bit(WasClaimed(s, id))
    requires t.count == s.count + Bit(o.counted) - Bit(WasCounted(s, id))
    ensures Accounts(t)
  {
    CountedUpdate(s.objs, id, o);
    forall q <- t.refs ensures t.refs[q] == |Holders(t.objs, q)| {
      HoldersUpdate(s.objs, id, o, q);
      if q !in s.refs { assert Holders(s.objs, q) == {}; }
    }
  }

  /** What the count of holders says about a claimed object's query. */
  predicate Held(s: State, id: ObjId) {
    id in s.objs && s.objs[id].query in s.refs && s.refs[s.objs[id].query] > 0 && s.objs[id].query !in s.finalized
  }

  lemma {:induction false} ClaimedIsHeld(s: State, id: ObjId)
    requires Inv(s) && WasClaimed(s, id)
    ensures Held(s, id)
  {
    assert id in Holders(s.objs, s.objs[id].query);
  }

  lemma {:induction false} ClaimIsConsistent(
    s: State, id: ObjId, q: QueryId, kind: Kind, refs: nat, actor: Actor, locked: bool)
    requires Consistent(s) && id !in s.objs && q !in s.finalized && (q in s.refs ==> s.refs[q] > 0)
    requires s.phase == Freed ==> s.flag
    requires s.TaskOf(actor).Idle? && (actor == Other ==> s.phase == Alive && locked)
    requires locked ==> s.LockFree()
    requires actor == Owner ==> OwnerMayAct(s)
    ensures Consistent(Claimed(s, id, q, kind, refs, actor, locked))
  {
  }

  lemma {:induction false} ClaimAccounts(
    s: State, id: ObjId, q: QueryId, kind: Kind, refs: nat, actor: Actor, locked: bool)
    requires Accounts(s) && id !in s.objs && refs == (if q in s.refs then s.refs[q] else 0) + 1
    ensures Accounts(Claimed(s, id, q, kind, refs, actor, locked))
  {
    AccountsUpdate(s, Claimed(s, id, q, kind, refs, actor, locked), id, Obj(q, kind, Building, true, false));
  }

  lemma {:induction false} DropQueryAccounts(s: State, t: State, id: ObjId, unwinding: bool)
    requires Accounts(s) && Next(s, DropQuery(id, unwinding)) == Some(t) && s.objs[id].claimed && s.objs[id].counted
    ensures Accounts(t)
  {
    AccountsUpdate(s, t, id, t.objs[id]);
  }

  lemma {:induction false} AbandonKeepsInv(s: State, id: ObjId, unwinding: bool)
    requires Inv(s) && s.IsLive(id) && (s.flag || unwinding || s.phase != Alive)
    ensures Inv(Abandoned(s, id, unwinding))
  {
    LiveIsSettled(s, id);
    var t := Abandoned(s, id, unwinding);
    AccountsUpdate(s, t, id, t.objs[id]);
  }

  lemma {:induction false} HandleDroppingKeepsInv(s: State, id: ObjId, actor: Actor)
    requires Inv(s) && s.IsLive(id) && s.LockFree() && s.TaskOf(actor).Idle? && !s.flag
    requires s.phase != Freed && (actor == Owner ==> s.phase != Reclaimed) && (actor == Other ==> s.phase == Alive)
    ensures Inv(HandleDropping(s, id, actor))
  {
    LiveIsSettled(s, id);
    HandleDroppingIsConsistent(s, id, actor);
    var t := HandleDropping(s, id, actor);
    AccountsUpdate(s, t, id, t.objs[id]);
  }

  lemma {:induction false} HandleDroppingIsConsistent(s: State, id: ObjId, actor: Actor)
    requires Consistent(s) && s.IsLive(id) && s.LockFree() && s.TaskOf(actor).Idle? && !s.flag
    requires s.phase != Freed && (actor == Owner ==> s.phase != Reclaimed) && (actor == Other ==> s.phase == Alive)
    ensures Consistent(HandleDropping(s, id, actor))
  {
  }

  lemma {:induction false} CountAccounts(s: State, t: State, actor: Actor)
    requires Accounts(s) && Tasks(s) && Next(s, Count(actor)) == Some(t)
    ensures Accounts(t)
  {
    AccountsUpdate(s, t, s.TaskOf(actor).id, t.objs[s.TaskOf(actor).id]);
  }

  lemma {:induction false} ReleaseAccounts(s: State, t: State, actor: Actor)
    requires Accounts(s) && Tasks(s) && Next(s, Release(actor)) == Some(t)
    ensures Accounts(t)
  {
    AccountsUpdate(s, t, s.TaskOf(actor).id, t.objs[s.TaskOf(actor).id]);
  }

  lemma {:induction false} FinalizeAccounts(s: State, t: State)
    requires Accounts(s) && Tasks(s) && Next(s, Finalize) == Some(t)
    ensures Accounts(t)
  {
    AccountsUpdate(s, t, s.owner.id, t.objs[s.owner.id]);
  }

  lemma {:induction false} UncountAccounts(s: State, t: State, actor: Actor)
    requires Accounts(s) && Tasks(s) && Next(s, Uncount(actor)) == Some(t)
    ensures Accounts(t)
  {
    AccountsUpdate(s, t, s.TaskOf(actor).id, t.objs[s.TaskOf(actor).id]);
  }

  lemma {:induction false} DropQueryIsConsistent(s: State, t: State, id: ObjId, unwinding: bool)
    requires Consistent(s) && (s.phase == Freed ==> s.flag) && Next(s, DropQuery(id, unwinding)) == Some(t)
    ensures Consistent(t)
  {
  }

  lemma {:induction false} CountIsConsistent(s: State, t: State, actor: Actor)
    requires Consistent(s) && Next(s, Count(actor)) == Some(t)
    ensures Consistent(t)
  {
  }

  lemma {:induction false} ReleaseIsConsistent(s: State, t: State, actor: Actor)
    requires Consistent(s) && Next(s, Release(actor)) == Some(t) && Held(s, s.TaskOf(actor).id)
    ensures Consistent(t)
  {
  }

  lemma {:induction false} FinalizeIsConsistent(s: State, t: State)
    requires Consistent(s) && Next(s, Finalize) == Some(t)
    ensures Consistent(t)
  {
  }

  lemma {:induction false} UncountIsConsistent(s: State, t: State, actor: Actor)
    requires Consistent(s) && Next(s, Uncount(actor)) == Some(t)
    ensures Consistent(t)
  {
  }

  lemma {:induction false} StepKeepsInv(s: State, step: Step, t: State)
    requires Inv(s) && Next(s, step) == Some(t)
    ensures Inv(t)
  {
    match step
    case Init(id, q) => InitKeepsInv(s, t, id, q);
    case ClaimQuery(src, id, kind) => ClaimQueryKeepsInv(s, t, src, id, kind);
    case ClaimHandle(src, id, actor) => ClaimHandleKeepsInv(s, t, src, id, actor);
    case DropQuery(id, unwinding) => DropQueryKeepsInv(s, t, id, unwinding);
    case DropHandle(id, actor, unwinding) => DropHandleKeepsInv(s, t, id, actor, unwinding);
    case Count(actor) => CountKeepsInv(s, t, actor);
    case Release(actor) => ReleaseKeepsInv(s, t, actor);
    case Finalize => FinalizeKeepsInv(s, t);
    case Uncount(actor) => UncountKeepsInv(s, t, actor);
    case _ => PhaseStepKeepsInv(s, step, t);
  }

  lemma {:induction false} DropQueryKeepsInv(s: State, t: State, id: ObjId, unwinding: bool)
    requires Inv(s) && Next(s, DropQuery(id, unwinding)) == Some(t)
    ensures Inv(t)
  {
    if s.flag || unwinding {
      AbandonKeepsInv(s, id, unwinding);
    } else {
      LiveIsSettled(s, id);
      LiveNeedsFlag(s, id);
      DropQueryAccounts(s, t, id, unwinding);
      DropQueryIsConsistent(s, t, id, unwinding);
    }
  }

  lemma {:induction false} DropHandleKeepsInv(s: State, t: State, id: ObjId, actor: Actor, unwinding: bool)
    requires Inv(s) && Next(s, DropHandle(id, actor, unwinding)) == Some(t)
    ensures Inv(t)
  {
    LiveNeedsFlag(s, id);
    if s.flag || unwinding || (s.phase != Alive && actor == Other) {
      AbandonKeepsInv(s, id, unwinding);
    } else {
      HandleDroppingKeepsInv(s, id, actor);
    }
  }

  lemma {:induction false} CountKeepsInv(s: State, t: State, actor: Actor)
    requires Inv(s) && Next(s, Count(actor)) == Some(t)
    ensures Inv(t)
  {
    CountAccounts(s, t, actor);
    CountIsConsistent(s, t, actor);
  }

  lemma {:induction false} ReleaseKeepsInv(s: State, t: State, actor: Actor)
    requires Inv(s) && Next(s, Release(actor)) == Some(t)
    ensures Inv(t)
  {
    ClaimedIsHeld(s, s.TaskOf(actor).id);
    ReleaseAccounts(s, t, actor);
    ReleaseIsConsistent(s, t, actor);
  }

  lemma {:induction false} FinalizeKeepsInv(s: State, t: State)
    requires Inv(s) && Next(s, Finalize) == Some(t)
    ensures Inv(t)
  {
    FinalizeAccounts(s, t);
    FinalizeIsConsistent(s, t);
  }

  lemma {:induction false} UncountKeepsInv(s: State, t: State, actor: Actor)
    requires Inv(s) && Next(s, Uncount(actor)) == Some(t)
    ensures Inv(t)
  {
    UncountAccounts(s, t, actor);
    UncountIsConsistent(s, t, actor);
  }

  /** Once the context is freed with the flag down, nothing is live. */
  lemma {:induction false} LiveNeedsFlag(s: State, id: ObjId)
    requires Inv(s) && s.IsLive(id)
    ensures s.phase == Freed ==> s.flag
  {
    LiveIsSettled(s, id);
    assert id in Counted(s.objs);
  }

  lemma {:induction false} PhaseStepKeepsInv(s: State, step: Step, t: State)
    requires Inv(s) && Next(s, step) == Some(t)
    requires step.RaiseFlag? || step.MarkDead? || step.Reclaim? || step.CheckCount? || step.Use?
    ensures Inv(t)
  {
    assert t.objs == s.objs && t.refs == s.refs && t.count == s.count;
  }

  lemma {:induction false} InitKeepsInv(s: State, t: State, id: ObjId, q: QueryId)
    requires Inv(s) && Next(s, Init(id, q)) == Some(t)
    ensures Inv(t)
  {
    ClaimIsConsistent(s, id, q, QueryValue, 1, Owner, false);
    ClaimAccounts(s, id, q, QueryValue, 1, Owner, false);
  }

  lemma {:induction false} ClaimQueryKeepsInv(s: State, t: State, src: ObjId, id: ObjId, kind: Kind)
    requires Inv(s) && Next(s, ClaimQuery(src, id, kind)) == Some(t)
    ensures Inv(t)
  {
    CloneKeepsInv(s, src, id, kind, Owner, false);
  }

  lemma {:induction false} ClaimHandleKeepsInv(s: State, t: State, src: ObjId, id: ObjId, actor: Actor)
    requires Inv(s) && Next(s, ClaimHandle(src, id, actor)) == Some(t)
    ensures Inv(t)
  {
    CloneKeepsInv(s, src, id, HandleValue, actor, true);
  }

  lemma {:induction false} CloneKeepsInv(s: State, src: ObjId, id: ObjId, kind: Kind, actor: Actor, locked: bool)
    requires Inv(s) && s.IsLive(src) && id !in s.objs
    requires s.TaskOf(actor).Idle? && (actor == Other ==> s.phase == Alive && locked)
    requires locked ==> s.LockFree()
    requires actor == Owner ==> OwnerMayAct(s)
    ensures Held(s, src)
    ensures Inv(Claimed(s, id, s.objs[src].query, kind, s.refs[s.objs[src].query] + 1, actor, locked))
  {
    LiveIsSettled(s, src);
    LiveNeedsFlag(s, src);
    ClaimedIsHeld(s, src);
    var q := s.objs[src].query;
    ClaimIsConsistent(s, id, q, kind, s.refs[q] + 1, actor, locked);
    ClaimAccounts(s, id, q, kind, s.refs[q] + 1, actor, locked);
  }

  lemma {:induction false} LiveIsSettled(s: State, id: ObjId)
    requires Consistent(s) && s.IsLive(id)
    ensures s.objs[id].claimed && s.objs[id].counted && !Busy(s, id)
  {
  }

  lemma {:induction false} RunKeepsInv(s: State, steps: seq<Step>)
    requires Inv(s) && Run(s, steps).Some?
    ensures Inv(Run(s, steps).value)
    decreases |steps|
  {
    if steps != [] {
      var n := Next(s, steps[0]).value;
      StepKeepsInv(s, steps[0], n);
      RunKeepsInv(n, steps[1..]);
    }
  }

  lemma {:induction false} ReachableInv(s: State)
    requires Reachable(s)
    ensures Inv(s)
  {
    var steps :| Run(START, steps) == Some(s);
    assert Counted(START.objs) == {};
    RunKeepsInv(START, steps);
  }

  // ----- What the counters mean ----------------------------------------------------------

  function LiveIds(s: State): set<ObjId> {
    set id | id in s.objs && s.objs[id].stage == Live
  }

  /** Objects whose drop returned early without giving up their counts. */
  function AbandonedIds(s: State): set<ObjId> {
    set id | id in s.objs && s.objs[id].stage == Gone && s.objs[id].counted
  }

  function OfQuery(s: State, ids: set<ObjId>, q: QueryId): set<ObjId> {
    set id | id in ids && id in s.objs && s.objs[id].query == q
  }

  /**
   * Between operations the world's count and every header's count are the live `Query` and
   * `QueryHandle` values plus the abandoned ones; before teardown, while nothing panics, there
   * are no abandoned ones.
   */
  lemma {:induction false} CountersCountValues(s: State)
    requires Reachable(s) && s.owner.Idle? && s.other.Idle?
    ensures s.count == |LiveIds(s)| + |AbandonedIds(s)|
    ensures forall q <- s.refs :: s.refs[q] == |OfQuery(s, LiveIds(s), q)| + |OfQuery(s, AbandonedIds(s), q)|
    ensures s.phase == Alive && !s.flag && !s.unwound ==> AbandonedIds(s) == {}
  {
    IdleMeansSettled(s);
    CountedSplits(s);
    forall q <- s.refs ensures s.refs[q] == |OfQuery(s, LiveIds(s), q)| + |OfQuery(s, AbandonedIds(s), q)| {
      HoldersSplit(s, q);
    }
  }

  predicate AllSettled(s: State) {
    forall id <- s.objs :: Settled(s.objs[id])
  }

  lemma {:induction false} IdleMeansSettled(s: State)
    requires Reachable(s) && s.owner.Idle? && s.other.Idle?
    ensures AllSettled(s) && Accounts(s)
    ensures s.phase == Alive && !s.flag && !s.unwound ==> AbandonedIds(s) == {}
  {
    ReachableInv(s);
  }

  lemma {:induction false} CountedSplits(s: State)
    requires AllSettled(s)
    ensures Counted(s.objs) == LiveIds(s) + AbandonedIds(s)
    ensures |Counted(s.objs)| == |LiveIds(s)| + |AbandonedIds(s)|
  {
    assert LiveIds(s) * AbandonedIds(s) == {};
  }

  lemma {:induction false} HoldersSplit(s: State, q: QueryId)
    requires AllSettled(s)
    ensures |Holders(s.objs, q)| == |OfQuery(s, LiveIds(s), q)| + |OfQuery(s, AbandonedIds(s), q)|
  {
    var a, b := OfQuery(s, LiveIds(s), q), OfQuery(s, AbandonedIds(s), q);
    assert Holders(s.objs, q) == a + b;
    assert a * b == {};
  }

  lemma {:induction false} SubsetSize(a: set<ObjId>, b: set<ObjId>)
    requires a <= b
    ensures |a| <= |b|
  {
    assert b == a + (b - a);
  }

  /** At every moment, also inside an operation and during teardown, no live value is uncounted. */
  lemma {:induction false} CountCoversLiveValues(s: State)
    requires Reachable(s)
    ensures s.count >= |LiveIds(s)|
    ensures forall id <- LiveIds(s) :: s.objs[id].query in s.refs && s.refs[s.objs[id].query] > 0
  {
    ReachableInv(s);
    forall id <- LiveIds(s) ensures Held(s, id) && s.objs[id].counted {
      LiveIsSettled(s, id);
      ClaimedIsHeld(s, id);
    }
    SubsetSize(LiveIds(s), Counted(s.objs));
  }

  // ----- Safety of headers and context ---------------------------------------------------

  /** The query whose header a step creates, reads, claims, releases or frees. */
  function Touched(s: State, step: Step): Option<QueryId> {
    match step
    case Init(_, q) => Some(q)
    case ClaimQuery(src, _, _) => QueryOf(s, src)
    case ClaimHandle(src, _, _) => QueryOf(s, src)
    case Use(src, _) => QueryOf(s, src)
    case DropQuery(id, unwinding) => if GivesUp(s, Owner, QueryValue, unwinding) then None else QueryOf(s, id)
    case DropHandle(id, actor, unwinding) => if GivesUp(s, actor, HandleValue, unwinding) then None else QueryOf(s, id)
    case Release(actor) => if s.TaskOf(actor).Idle? then None else QueryOf(s, s.TaskOf(actor).id)
    case Finalize => if s.owner.Idle? then None else QueryOf(s, s.owner.id)
    case _ => None
  }

  function QueryOf(s: State, id: ObjId): Option<QueryId> {
    if id in s.objs then Some(s.objs[id].query) else None
  }

  /** A drop returns before it reads the header. */
  predicate GivesUp(s: State, actor: Actor, kind: Kind, unwinding: bool) {
    s.flag || unwinding || (kind == HandleValue && s.phase != Alive && actor == Other)
  }

  /** Steps that read or write the world's context. */
  predicate ReadsContext(step: Step) {
    match step
    case Init(_, _) => true
    case ClaimQuery(_, _, _) => true
    case ClaimHandle(_, _, _) => true
    case Count(_) => true
    case DropQuery(_, _) => true
    case DropHandle(_, _, _) => true
    case Uncount(_) => true
    case RaiseFlag => true
    case _ => false
  }

  predicate OffThread(step: Step) {
    match step
    case ClaimHandle(_, _, actor) => actor == Other
    case Count(actor) => actor == Other
    case Release(actor) => actor == Other
    case Uncount(actor) => actor == Other
    case _ => false
  }

  predicate HeadersFreed(s: State) {
    s.phase in {Reclaimed, Leaked, Freed}
  }

  /** A finalized header is not touched again; finalization happens at zero, on the owning thread. */
  lemma {:induction false} FinalizedIsUntouched(s: State, step: Step, t: State)
    requires Reachable(s) && Next(s, step) == Some(t)
    ensures Touched(s, step).Some? ==> Touched(s, step).value !in s.finalized
    ensures t.finalized == s.finalized || (step.Finalize? && t.finalized == s.finalized + {Touched(s, step).value})
    ensures step.Finalize? ==>
      Touched(s, step).Some? && Touched(s, step).value in s.refs && s.refs[Touched(s, step).value] == 0
  {
    if Touched(s, step).Some? { TouchedIsNotFinalized(s, step); }
    if step.Finalize? { FinalizingAtZero(s); }
  }

  lemma {:induction false} FinalizingAtZero(s: State)
    requires Reachable(s) && s.owner.Finalizing?
    ensures s.owner.id in s.objs && s.objs[s.owner.id].query in s.refs && s.refs[s.objs[s.owner.id].query] == 0
    ensures s.objs[s.owner.id].query !in s.finalized
  {
    ReachableInv(s);
  }

  lemma {:induction false} TouchedIsNotFinalized(s: State, step: Step)
    requires Reachable(s) && Next(s, step).Some? && Touched(s, step).Some?
    ensures Touched(s, step).value !in s.finalized
  {
    ReachableInv(s);
    match step
    case ClaimQuery(src, _, _) => LiveIsNotFinalized(s, src);
    case ClaimHandle(src, _, _) => LiveIsNotFinalized(s, src);
    case Use(src, _) => LiveIsNotFinalized(s, src);
    case DropQuery(id, _) => LiveIsNotFinalized(s, id);
    case DropHandle(id, _, _) => LiveIsNotFinalized(s, id);
    case Release(actor) => ClaimedIsHeld(s, s.TaskOf(actor).id);
    case Finalize => FinalizingAtZero(s);
    case Init(_, q) => assert q !in s.refs;
  }

  lemma {:induction false} LiveIsNotFinalized(s: State, id: ObjId)
    requires Inv(s) && s.IsLive(id)
    ensures s.objs[id].query !in s.finalized
  {
    LiveIsSettled(s, id);
    ClaimedIsHeld(s, id);
  }

  /** Work of other threads happens before teardown begins, so no header it touches is freed. */
  lemma {:induction false} OffThreadWorkPrecedesTeardown(s: State, step: Step, t: State)
    requires Reachable(s) && Next(s, step) == Some(t) && OffThread(step)
    ensures s.phase == Alive && t.phase == Alive
  {
    ReachableInv(s);
  }

  /** Steps that begin an operation on a live value. */
  predicate OnValue(step: Step) {
    step.ClaimQuery? || step.ClaimHandle? || step.Use? || step.DropQuery? || step.DropHandle?
  }

  /**
   * After the headers are freed, a step reaches one if and only if it is an operation on a value
   * other than a drop or `QueryHandle::clone`, which refuses.
   */
  lemma {:induction false} FreedHeaderReachedIff(s: State, step: Step, t: State)
    requires Reachable(s) && Next(s, step) == Some(t) && HeadersFreed(s)
    ensures Touched(s, step).Some? <==> OnValue(step) && !step.DropQuery? && !step.DropHandle? && !step.ClaimHandle?
  {
    ReachableInv(s);
    if step.DropQuery? { LiveNeedsFlag(s, step.id); }
    if step.DropHandle? { LiveNeedsFlag(s, step.id); }
  }

  /**
   * In every phase, freed headers or not, a live value can be used, and a query cloned by an idle
   * owner; only a handle refuses to be cloned once the headers are freed.
   */
  lemma {:induction false} FreedHeaderCanBeReached(s: State, src: ObjId, id: ObjId, actor: Actor)
    requires Reachable(s) && s.IsLive(src) && id !in s.objs
    ensures (actor == Owner ==> OwnerMayAct(s)) && (s.objs[src].kind == QueryValue ==> actor == Owner) ==>
      Next(s, Use(src, actor)).Some? && Touched(s, Use(src, actor)) == QueryOf(s, src)
    ensures OwnerMayAct(s) && s.objs[src].kind == QueryValue ==> Next(s, ClaimQuery(src, id, QueryValue)).Some?
    ensures HeadersFreed(s) ==> Next(s, ClaimHandle(src, id, actor)).None?
  {
    ReachableInv(s);
    LiveIsSettled(s, src);
    ClaimedIsHeld(s, src);
  }

  /** Once the context is freed, a step that reaches it or a header is a step on a value the raised flag let survive. */
  lemma {:induction false} FreedContextNeedsFlag(s: State, step: Step, t: State)
    requires Reachable(s) && Next(s, step) == Some(t) && s.phase == Freed
    requires ReadsContext(step) || Touched(s, step).Some?
    ensures s.flag
  {
    ReachableInv(s);
    match step
    case ClaimQuery(src, _, _) => LiveNeedsFlag(s, src);
    case Use(src, _) => LiveNeedsFlag(s, src);
    case DropQuery(id, _) => LiveNeedsFlag(s, id);
    case DropHandle(id, _, _) => LiveNeedsFlag(s, id);
    case _ =>
  }

  /** Teardown frees the context under a live value exactly when the flag is up by then. */
  lemma {:induction false} FreedUnderLiveIff(s: State, t: State)
    requires Reachable(s) && Next(s, CheckCount) == Some(t)
    ensures t.phase == Freed && LiveIds(t) != {} <==> s.flag && LiveIds(s) != {}
  {
    TeardownReports(s, t);
    assert LiveIds(t) == LiveIds(s);
  }

  /** The world reports lingering queries exactly when some value was never fully dropped. */
  lemma {:induction false} TeardownReports(s: State, t: State)
    requires Reachable(s) && Next(s, CheckCount) == Some(t)
    ensures t.phase == Leaked <==> !s.flag && LiveIds(s) + AbandonedIds(s) != {}
    ensures t.phase == Freed <==> s.flag || LiveIds(s) + AbandonedIds(s) == {}
  {
    ReclaimedIsIdle(s);
    IdleMeansSettled(s);
    CountedSplits(s);
  }

  lemma {:induction false} ReclaimedIsIdle(s: State)
    requires Reachable(s) && s.phase == Reclaimed
    ensures s.owner.Idle? && s.other.Idle?
  {
    ReachableInv(s);
  }

  /** The context is freed under a live value only if the panicking flag was raised first. */
  lemma {:induction false} ContextOutlivesValues(s: State)
    requires Reachable(s) && s.phase == Freed && !s.flag
    ensures LiveIds(s) == {} && s.owner.Idle? && s.other.Idle?
  {
    ReachableInv(s);
    assert LiveIds(s) <= Counted(s.objs);
  }

  /** No operation gets stuck, so the mutex is always released again. */
  lemma {:induction false} TasksFinish(s: State, actor: Actor)
    requires Reachable(s) && !s.TaskOf(actor).Idle?
    ensures
      var task := s.TaskOf(actor);
      match task
      case Counting(_, _) => Next(s, Count(actor)).Some?
      case Releasing(_, _) => Next(s, Release(actor)).Some?
      case Finalizing(_, _) => actor == Owner && Next(s, Finalize).Some?
      case Uncounting(_) => Next(s, Uncount(actor)).Some?
  {
    TaskFits(s, actor);
    if s.TaskOf(actor).Releasing? { ClaimedIsHeld(s, s.TaskOf(actor).id); }
  }

  lemma {:induction false} TaskFits(s: State, actor: Actor)
    requires Reachable(s) && !s.TaskOf(actor).Idle?
    ensures Fits(s, s.TaskOf(actor)) && (s.TaskOf(actor).Finalizing? ==> actor == Owner)
    ensures Inv(s)
  {
    ReachableInv(s);
  }

  // ----- Whole runs ----------------------------------------------------------------------

  lemma {:induction false} RunSplit(s: State, steps: seq<Step>, i: nat)
    requires i < |steps| && Run(s, steps).Some?
    ensures Run(s, steps[..i]).Some? && Next(Run(s, steps[..i]).value, steps[i]).Some?
    ensures Run(Next(Run(s, steps[..i]).value, steps[i]).value, steps[i + 1..]) == Run(s, steps)
    decreases i
  {
    if i == 0 {
      assert steps[..0] == [];
    } else {
      var n := Next(s, steps[0]).value;
      RunSplit(n, steps[1..], i - 1);
      assert steps[..i][0] == steps[0] && steps[..i][1..] == steps[1..][..i - 1];
      assert steps[1..][i..] == steps[i + 1..];
    }
  }

  lemma {:induction false} FinalizedStays(s: State, steps: seq<Step>)
    requires Reachable(s) && Run(s, steps).Some?
    ensures s.finalized <= Run(s, steps).value.finalized
    decreases |steps|
  {
    if steps != [] {
      var n := Next(s, steps[0]).value;
      FinalizedIsUntouched(s, steps[0], n);
      ReachableNext(s, steps[0], n);
      FinalizedStays(n, steps[1..]);
    }
  }

  lemma {:induction false} RunAppend(s: State, a: seq<Step>, b: seq<Step>)
    requires Run(s, a).Some?
    ensures Run(s, a + b) == Run(Run(s, a).value, b)
    decreases |a|
  {
    if a == [] {
      assert a + b == b;
    } else {
      assert (a + b)[0] == a[0] && (a + b)[1..] == a[1..] + b;
      RunAppend(Next(s, a[0]).value, a[1..], b);
    }
  }

  lemma {:induction false} ReachableNext(s: State, step: Step, t: State)
    requires Reachable(s) && Next(s, step) == Some(t)
    ensures Reachable(t)
  {
    var steps :| Run(START, steps) == Some(s);
    RunAppend(START, steps, [step]);
    assert [step][1..] == [];
    assert Run(s, [step]) == Some(t);
    assert Run(START, steps + [step]) == Some(t);
  }

  /**
   * In every run, once `ecs_query_fini` has run for a query, no later step creates, claims,
   * releases or finalizes that query.
   */
  lemma {:induction false} FinalizedOnceAndLast(steps: seq<Step>, i: nat, j: nat)
    requires Run(START, steps).Some? && i < j < |steps| && steps[i] == Finalize
    ensures Run(START, steps[..i]).Some? && Run(START, steps[..j]).Some?
    ensures Touched(Run(START, steps[..j]).value, steps[j]).None? ||
            Touched(Run(START, steps[..j]).value, steps[j]) != Touched(Run(START, steps[..i]).value, Finalize)
  {
    RunSplit(START, steps, i);
    RunSplit(START, steps, j);
    var a, b := Run(START, steps[..i]).value, Run(START, steps[..j]).value;
    var n, m := Next(a, Finalize).value, Next(b, steps[j]).value;
    FinalizedIsUntouched(a, Finalize, n);
    FinalizedIsUntouched(b, steps[j], m);
    ReachableNext(a, Finalize, n);
    RunSplit(START, steps[..j], i);
    assert steps[..j][..i] == steps[..i];
    FinalizedStays(n, steps[..j][i + 1..]);
  }

  // ----- A header that nothing holds any more ---------------------------------------------

  predicate Unheld(s: State, q: QueryId) {
    q in s.refs && s.refs[q] == 0
  }

  /** Nothing holds the header, it is not finalized, and its owner is not about to finalize it. */
  predicate Stranded(s: State, q: QueryId) {
    && Unheld(s, q) && q !in s.finalized
    && !(s.owner.Finalizing? && s.owner.id in s.objs && s.objs[s.owner.id].query == q)
  }

  /** Another thread releases the last reference to the header. */
  predicate Strands(s: State, step: Step, q: QueryId) {
    && step == Release(Other) && !s.other.Idle? && s.other.id in s.objs
    && s.objs[s.other.id].query == q && q in s.refs && s.refs[q] == 1
  }

  predicate StrandedIn(s: State, steps: seq<Step>, q: QueryId)
    decreases |steps|
  {
    steps != [] && (Strands(s, steps[0], q) ||
      (Next(s, steps[0]).Some? && StrandedIn(Next(s, steps[0]).value, steps[1..], q)))
  }

  /** The owner's release of the last reference leaves the owner finalizing that query. */
  lemma {:induction false} LastReleaseFinalizes(s: State, t: State)
    requires Reachable(s) && Next(s, Release(Owner)) == Some(t)
    ensures s.owner.Releasing? && s.owner.id in s.objs && s.objs[s.owner.id].query in s.refs
    ensures
      var q := s.objs[s.owner.id].query;
      && t.refs == s.refs[q := s.refs[q] - 1]
      && (t.owner.Finalizing? <==> s.refs[q] == 1)
      && (t.owner.Finalizing? ==> t.owner.id == s.owner.id && t.objs[t.owner.id].query == q && q !in t.finalized)
      && (t.owner.Finalizing? ==> Next(t, Finalize).Some? && Next(t, Finalize).value.finalized == s.finalized + {q})
  {
    ReachableInv(s);
    ClaimedIsHeld(s, s.owner.id);
  }

  lemma {:induction false} ReleaseStrands(s: State, t: State, actor: Actor, q: QueryId)
    requires Inv(s) && Next(s, Release(actor)) == Some(t)
    ensures Stranded(t, q) <==> Stranded(s, q) || Strands(s, Release(actor), q)
  {
    ClaimedIsHeld(s, s.TaskOf(actor).id);
  }

  lemma {:induction false} LiveIsHeld(s: State, id: ObjId)
    requires Inv(s) && s.IsLive(id)
    ensures Held(s, id) && s.objs[id].claimed && s.objs[id].counted && !Busy(s, id)
  {
    LiveIsSettled(s, id);
    ClaimedIsHeld(s, id);
  }

  lemma {:induction false} CloneStrandsNothing(s: State, step: Step, t: State, q: QueryId)
    requires Next(s, step) == Some(t) && (step.ClaimQuery? || step.ClaimHandle?) && Held(s, step.src)
    ensures Stranded(t, q) <==> Stranded(s, q)
  {
  }

  lemma {:induction false} CountStrandsNothing(s: State, step: Step, t: State, q: QueryId)
    requires Next(s, step) == Some(t) && (step.Count? || step.Uncount?)
    ensures Stranded(t, q) <==> Stranded(s, q)
  {
  }

  lemma {:induction false} DropStrandsNothing(s: State, step: Step, t: State, q: QueryId)
    requires Next(s, step) == Some(t) && (step.DropQuery? || step.DropHandle?)
    ensures Stranded(t, q) <==> Stranded(s, q)
  {
  }

  lemma {:induction false} FinalizeStrandsNothing(s: State, t: State, q: QueryId)
    requires Next(s, Finalize) == Some(t)
    ensures Stranded(t, q) <==> Stranded(s, q)
  {
  }

  lemma {:induction false} StepStrands(s: State, step: Step, t: State, q: QueryId)
    requires Inv(s) && Next(s, step) == Some(t)
    ensures Stranded(t, q) <==> Stranded(s, q) || Strands(s, step, q)
  {
    match step
    case Release(actor) => ReleaseStrands(s, t, actor, q);
    case ClaimQuery(src, _, _) =>
      LiveIsHeld(s, src);
      CloneStrandsNothing(s, step, t, q);
    case ClaimHandle(src, _, _) =>
      LiveIsHeld(s, src);
      CloneStrandsNothing(s, step, t, q);
    case Count(_) => CountStrandsNothing(s, step, t, q);
    case Uncount(_) => CountStrandsNothing(s, step, t, q);
    case DropQuery(_, _) => DropStrandsNothing(s, step, t, q);
    case DropHandle(_, _, _) => DropStrandsNothing(s, step, t, q);
    case Finalize => FinalizeStrandsNothing(s, t, q);
    case _ =>
  }

  lemma {:induction false} RunStrands(s: State, steps: seq<Step>, q: QueryId)
    requires Inv(s) && Run(s, steps).Some?
    ensures Stranded(Run(s, steps).value, q) <==> Stranded(s, q) || StrandedIn(s, steps, q)
    decreases |steps|
  {
    if steps != [] {
      var n := Next(s, steps[0]).value;
      StepKeepsInv(s, steps[0], n);
      StepStrands(s, steps[0], n, q);
      RunStrands(n, steps[1..], q);
    }
  }

  /**
   * After every run that leaves the owner idle, the finalized queries are exactly those without a
   * reference, except for those whose last reference another thread released.
   */
  lemma {:induction false} FinalizedIff(steps: seq<Step>, q: QueryId)
    requires Run(START, steps).Some? && Run(START, steps).value.owner.Idle?
    ensures
      var s := Run(START, steps).value;
      q in s.finalized <==> Unheld(s, q) && !StrandedIn(START, steps, q)
  {
    var s := Run(START, steps).value;
    assert Counted(START.objs) == {};
    RunKeepsInv(START, steps);
    RunStrands(START, steps, q);
  }

  lemma {:induction false} NoneStranded(s: State, steps: seq<Step>, q: QueryId)
    requires forall i :: 0 <= i < |steps| ==> steps[i] != Release(Other)
    ensures !StrandedIn(s, steps, q)
    decreases |steps|
  {
    if steps != [] && Next(s, steps[0]).Some? { NoneStranded(Next(s, steps[0]).value, steps[1..], q); }
  }

  /** If only the owner releases, every query without a reference is finalized. */
  lemma {:induction false} OwnerFinalizesAll(steps: seq<Step>, q: QueryId)
    requires Run(START, steps).Some? && Run(START, steps).value.owner.Idle?
    requires forall i :: 0 <= i < |steps| ==> steps[i] != Release(Other)
    ensures q in Run(START, steps).value.finalized <==>
      q in Run(START, steps).value.refs && Run(START, steps).value.refs[q] == 0
  {
    FinalizedIff(steps, q);
    NoneStranded(START, steps, q);
  }

  // ----- Whole operations ----------------------------------------------------------------

  /** A drop up to the point where the reference is released. */
  lemma {:induction false} DropReleases(s: State, id: ObjId, kind: Kind, actor: Actor) returns (t: State)
    requires s.LiveOf(id, kind) && Held(s, id) && s.objs[id].counted && !s.flag && s.TaskOf(actor).Idle?
    requires if actor == Owner then OwnerMayAct(s) else s.phase == Alive && kind == HandleValue
    requires kind == HandleValue ==> s.LockFree()
    ensures Run(s, [DropStep(id, kind, actor), Release(actor)]) == Some(t)
    ensures
      var q, handle := s.objs[id].query, kind == HandleValue;
      var last := s.refs[q] == 1 && actor == Owner;
      && t == s.(
           objs := s.objs[id := Obj(q, kind, if last || handle then Dropping else Gone, false, handle)],
           refs := s.refs[q := s.refs[q] - 1],
           count := if handle then s.count else s.count - 1)
         .WithTask(actor, if last then Finalizing(id, handle) else if handle then Uncounting(id) else Idle)
  {
    var d := Next(s, DropStep(id, kind, actor)).value;
    t := Next(d, Release(actor)).value;
    RunTwo(s, DropStep(id, kind, actor), Release(actor));
    assert t.objs == s.objs[id := t.objs[id]];
  }

  lemma {:induction false} LiveValueIsHeld(s: State, id: ObjId)
    requires Reachable(s) && s.IsLive(id)
    ensures Held(s, id) && s.objs[id].counted
  {
    ReachableInv(s);
    LiveIsHeld(s, id);
  }

  /** The step a drop begins with. */
  function DropStep(id: ObjId, kind: Kind, actor: Actor): Step {
    if kind == QueryValue then DropQuery(id, false) else DropHandle(id, actor, false)
  }

  /** What a drop does after it released its reference. */
  function DropTail(kind: Kind, actor: Actor, last: bool): seq<Step> {
    (if last then [Finalize] else []) + (if kind == HandleValue then [Uncount(actor)] else [])
  }

  lemma {:induction false} RunNone(s: State)
    ensures Run(s, []) == Some(s)
  {
  }

  lemma {:induction false} RunSingle(s: State, a: Step)
    ensures Run(s, [a]) == Next(s, a)
  {
    assert [a][1..] == [];
    if Next(s, a).Some? { RunNone(Next(s, a).value); }
  }

  lemma {:induction false} RunTwo(s: State, a: Step, b: Step)
    requires Next(s, a).Some?
    ensures Run(s, [a, b]) == Next(Next(s, a).value, b)
  {
    assert [a, b][1..] == [b];
    RunSingle(Next(s, a).value, b);
  }

  /** The owner finalizes, and a handle gives up its count. */
  lemma {:induction false} DropEnds(s: State, id: ObjId, kind: Kind, actor: Actor, last: bool, o: Obj)
    requires id in s.objs && s.objs[id] == o && (last ==> actor == Owner)
    requires o == Obj(o.query, kind, if last || kind == HandleValue then Dropping else Gone, false, kind == HandleValue)
    requires s.TaskOf(actor) ==
      if last then Finalizing(id, kind == HandleValue) else if kind == HandleValue then Uncounting(id) else Idle
    ensures Run(s, DropTail(kind, actor, last)) == Some(s.(
      objs := s.objs[id := Obj(o.query, kind, Gone, false, false)],
      finalized := if last then s.finalized + {o.query} else s.finalized,
      count := if kind == HandleValue then s.count - 1 else s.count)
      .WithTask(actor, Idle))
  {
    var f := if last then [Finalize] else [];
    var u := if kind == HandleValue then [Uncount(actor)] else [];
    RunNone(s);
    RunSingle(s, Finalize);
    RunAppend(s, f, u);
    var n := Run(s, f).value;
    RunNone(n);
    RunSingle(n, Uncount(actor));
    assert s.objs[id := Obj(o.query, kind, Gone, false, false)] ==
      n.objs[id := Obj(o.query, kind, Gone, false, false)];
    assert s.objs[id := s.objs[id]] == s.objs;
  }

  lemma {:induction false} SetObjTwice(s: State, t: State, id: ObjId, o: Obj)
    requires id in t.objs && t.objs == s.objs[id := t.objs[id]]
    ensures t.objs[id := o] == s.objs[id := o]
  {
  }

  /**
   * A drop that runs to its end while nothing panics gives up one reference and one count, and
   * finalizes the query exactly if that was the last reference and the owner gave it up.
   */
  lemma {:induction false} DropCompletes(s: State, id: ObjId, kind: Kind, actor: Actor)
    requires Reachable(s) && s.LiveOf(id, kind) && !s.flag && s.TaskOf(actor).Idle?
    requires if actor == Owner then OwnerMayAct(s) else s.phase == Alive && kind == HandleValue
    requires kind == HandleValue ==> s.LockFree()
    ensures
      var q := s.objs[id].query;
      && q in s.refs && s.refs[q] > 0
      && var last := s.refs[q] == 1 && actor == Owner;
         Run(s, [DropStep(id, kind, actor), Release(actor)] + DropTail(kind, actor, last)) == Some(s.(
           objs := s.objs[id := Obj(q, kind, Gone, false, false)],
           refs := s.refs[q := s.refs[q] - 1],
           finalized := if last then s.finalized + {q} else s.finalized,
           count := s.count - 1))
  {
    LiveValueIsHeld(s, id);
    var q := s.objs[id].query;
    var last := s.refs[q] == 1 && actor == Owner;
    var t := DropReleases(s, id, kind, actor);
    RunAppend(s, [DropStep(id, kind, actor), Release(actor)], DropTail(kind, actor, last));
    DropEnds(t, id, kind, actor, last, t.objs[id]);
    SetObjTwice(s, t, id, Obj(q, kind, Gone, false, false));
  }

  /**
   * A drop gives up nothing exactly if the flag is up, the thread unwinds, or a handle is dropped
   * off the owning thread once teardown has begun; the value then keeps its reference and count.
   */
  lemma {:induction false} DropGivesUpIff(s: State, step: Step, t: State)
    requires Reachable(s) && Next(s, step) == Some(t) && (step.DropQuery? || step.DropHandle?)
    ensures t.objs[step.id].stage == Gone <==>
      s.flag || step.unwinding || (step.DropHandle? && step.actor == Other && s.phase != Alive)
    ensures t.objs[step.id].stage == Gone ==>
      && t.objs == s.objs[step.id := s.objs[step.id].(stage := Gone)]
      && t.refs == s.refs && t.count == s.count && t.finalized == s.finalized
      && t.owner == s.owner && t.other == s.other
      && t.objs[step.id].claimed && t.objs[step.id].counted
    ensures t.objs[step.id].stage != Gone ==>
      t.TaskOf(if step.DropQuery? then Owner else step.actor) == Releasing(step.id, step.DropHandle?)
  {
    LiveValueIsHeld(s, step.id);
    LiveIsClaimed(s, step.id);
  }

  lemma {:induction false} LiveIsClaimed(s: State, id: ObjId)
    requires Reachable(s) && s.IsLive(id)
    ensures s.objs[id].claimed
  {
    ReachableInv(s);
    LiveIsSettled(s, id);
  }

  /** The step `clone` or `handle` begins with. */
  function CloneStep(src: ObjId, id: ObjId, from: Kind, kind: Kind, actor: Actor): Step {
    if from == QueryValue then ClaimQuery(src, id, kind) else ClaimHandle(src, id, actor)
  }

  lemma {:induction false} CloneClaims(s: State, src: ObjId, id: ObjId, from: Kind, kind: Kind, actor: Actor)
    requires s.LiveOf(src, from) && Held(s, src) && id !in s.objs && s.TaskOf(actor).Idle?
    requires from == QueryValue ==> actor == Owner && OwnerMayAct(s)
    requires from == HandleValue ==> kind == HandleValue && s.phase == Alive && s.LockFree()
    ensures
      var q := s.objs[src].query;
      Next(s, CloneStep(src, id, from, kind, actor)) ==
        Some(Claimed(s, id, q, kind, s.refs[q] + 1, actor, from == HandleValue))
  {
  }

  lemma {:induction false} ClaimedIsCounted(s: State, t: State, id: ObjId, actor: Actor)
    requires t.TaskOf(actor).Counting? && t.TaskOf(actor).id == id && id in t.objs
    requires t.objs == s.objs[id := t.objs[id]]
    ensures Next(t, Count(actor)) == Some(t.(
      objs := s.objs[id := t.objs[id].(stage := Live, counted := true)], count := t.count + 1).WithTask(actor, Idle))
  {
    SetObjTwice(s, t, id, t.objs[id].(stage := Live, counted := true));
  }

  /** A clone, or a handle made from a query, takes one reference and one count. */
  lemma {:induction false} CloneCompletes(s: State, src: ObjId, id: ObjId, from: Kind, kind: Kind, actor: Actor)
    requires Reachable(s) && s.LiveOf(src, from) && id !in s.objs && s.TaskOf(actor).Idle?
    requires from == QueryValue ==> actor == Owner && OwnerMayAct(s)
    requires from == HandleValue ==> kind == HandleValue && s.phase == Alive && s.LockFree()
    ensures
      var q := s.objs[src].query;
      && q in s.refs && q !in s.finalized
      && Run(s, [CloneStep(src, id, from, kind, actor), Count(actor)]) == Some(s.(
           objs := s.objs[id := Obj(q, kind, Live, true, true)],
           refs := s.refs[q := s.refs[q] + 1],
           count := s.count + 1))
  {
    LiveValueIsHeld(s, src);
    CloneClaims(s, src, id, from, kind, actor);
    RunTwo(s, CloneStep(src, id, from, kind, actor), Count(actor));
    ClaimedIsCounted(s, Next(s, CloneStep(src, id, from, kind, actor)).value, id, actor);
  }

  /** Building a query while its world exists gives one value with one reference and one count. */
  lemma {:induction false} CreateCompletes(s: State, id: ObjId, q: QueryId)
    requires s.owner.Idle? && (s.phase == Alive || s.phase == Dead) && id !in s.objs && q !in s.refs
    ensures Run(s, [Init(id, q), Count(Owner)]) == Some(s.(
      objs := s.objs[id := Obj(q, QueryValue, Live, true, true)], refs := s.refs[q := 1], count := s.count + 1))
  {
    RunTwo(s, Init(id, q), Count(Owner));
    ClaimedIsCounted(s, Next(s, Init(id, q)).value, id, Owner);
  }

  // ----- Teardown is never blocked --------------------------------------------------------

  /** The next step of an operation, and how many are left. */
  function TaskStep(task: Task, actor: Actor): Step
    requires !task.Idle?
  {
    match task
    case Counting(_, _) => Count(actor)
    case Releasing(_, _) => Release(actor)
    case Finalizing(_, _) => Finalize
    case Uncounting(_) => Uncount(actor)
  }

  function StepsLeft(task: Task): nat {
    match task
    case Idle => 0
    case Counting(_, _) => 1
    case Uncounting(_) => 1
    case Finalizing(_, _) => 2
    case Releasing(_, _) => 3
  }

  lemma {:induction false} TaskAdvances(s: State, actor: Actor, t: State)
    requires !s.TaskOf(actor).Idle? && Next(s, TaskStep(s.TaskOf(actor), actor)) == Some(t)
    requires s.TaskOf(actor).Finalizing? ==> actor == Owner
    ensures StepsLeft(t.TaskOf(actor)) < StepsLeft(s.TaskOf(actor)) && t.phase == s.phase
    ensures if actor == Owner then t.other == s.other else t.owner == s.owner
  {
  }

  /** An operation in progress can run to its end while the others wait. */
  lemma {:induction false} FinishTask(s: State, actor: Actor) returns (t: State)
    requires Reachable(s)
    ensures Reachable(t) && t.TaskOf(actor).Idle? && t.phase == s.phase
    ensures if actor == Owner then t.other == s.other else t.owner == s.owner
    decreases StepsLeft(s.TaskOf(actor))
  {
    if s.TaskOf(actor).Idle? {
      t := s;
    } else {
      TasksFinish(s, actor);
      var step := TaskStep(s.TaskOf(actor), actor);
      var n := Next(s, step).value;
      ReachableNext(s, step, n);
      TaskAdvances(s, actor, n);
      t := FinishTask(n, actor);
    }
  }

  /** From every reachable state the world can be torn down: operations finish, and nothing waits forever. */
  lemma {:induction false} TeardownIsPossible(s: State) returns (t: State)
    requires Reachable(s)
    ensures Reachable(t) && (t.phase == Leaked || t.phase == Freed)
  {
    t := FinishTask(s, Other);
    t := FinishTask(t, Owner);
    t := TearDownFrom(t);
  }

  lemma {:induction false} TearDownFrom(s: State) returns (t: State)
    requires Reachable(s) && s.owner.Idle? && s.other.Idle?
    ensures Reachable(t) && (t.phase == Leaked || t.phase == Freed)
  {
    if s.phase == Alive {
      t := TearDown(s);
    } else if s.phase == Dead {
      t := s.(phase := Reclaimed);
      ReachableNext(s, Reclaim, t);
      t := CheckedFrom(t);
    } else if s.phase == Reclaimed {
      t := CheckedFrom(s);
    } else {
      t := s;
    }
  }

  lemma {:induction false} CheckedFrom(s: State) returns (t: State)
    requires Reachable(s) && s.phase == Reclaimed
    ensures Reachable(t) && (t.phase == Leaked || t.phase == Freed)
  {
    t := if s.count != 0 && !s.flag then s.(flag := true, phase := Leaked) else s.(phase := Freed);
    ReachableNext(s, CheckCount, t);
  }

  // ----- Two runs the protocol does not exclude -------------------------------------------

  lemma {:induction false} OneQuery() returns (s: State)
    ensures Reachable(s)
    ensures s == State(
      map[0 := Obj(0, QueryValue, Live, true, true)], map[0 := 1], {}, 1, false, false, Alive, Idle, Idle)
  {
    var a := Next(START, Init(0, 0)).value;
    s := Next(a, Count(Owner)).value;
    assert Run(START, []) == Some(START);
    ReachableNext(START, Init(0, 0), a);
    ReachableNext(a, Count(Owner), s);
  }

  /** Teardown with no task in progress. */
  lemma {:induction false} TearDown(s: State) returns (t: State)
    requires Reachable(s) && s.phase == Alive && s.owner.Idle? && s.other.Idle?
    ensures Reachable(t)
    ensures t == if s.count != 0 && !s.flag then s.(flag := true, phase := Leaked) else s.(phase := Freed)
  {
    var a := Next(s, MarkDead).value;
    var b := Next(a, Reclaim).value;
    t := Next(b, CheckCount).value;
    ReachableNext(s, MarkDead, a);
    ReachableNext(a, Reclaim, b);
    ReachableNext(b, CheckCount, t);
  }

  lemma {:induction false} LeakedUnderQuery(s: State) returns (t: State)
    requires Reachable(s) && s.phase == Alive && s.owner.Idle? && s.other.Idle? && !s.flag && s.count != 0
    requires s.LiveOf(0, QueryValue) && s.objs[0].query in s.refs && 1 !in s.objs
    ensures Reachable(t) && HeadersFreed(t)
    ensures Next(t, ClaimQuery(0, 1, QueryValue)).Some? && Next(t, Use(0, Owner)).Some?
  {
    t := TearDown(s);
  }

  /** A query cloned or iterated after its world is gone reaches a freed header. */
  lemma {:induction false} UseAfterTeardown() returns (s: State)
    ensures Reachable(s) && HeadersFreed(s)
    ensures Next(s, ClaimQuery(0, 1, QueryValue)).Some? && Next(s, Use(0, Owner)).Some?
  {
    s := OneQuery();
    s := LeakedUnderQuery(s);
  }

  lemma {:induction false} QueryWithHandle() returns (s: State)
    ensures Reachable(s)
    ensures s == State(
      map[0 := Obj(0, QueryValue, Live, true, true), 1 := Obj(0, HandleValue, Live, true, true)],
      map[0 := 2], {}, 2, false, false, Alive, Idle, Idle)
  {
    var a := OneQuery();
    var b := Next(a, ClaimQuery(0, 1, HandleValue)).value;
    s := Next(b, Count(Owner)).value;
    ReachableNext(a, ClaimQuery(0, 1, HandleValue), b);
    ReachableNext(b, Count(Owner), s);
  }

  lemma {:induction false} FlagRaised(s: State) returns (t: State)
    requires Reachable(s) && s.phase == Alive && s.owner.Idle?
    ensures Reachable(t) && t == s.(flag := true)
  {
    t := s.(flag := true);
    ReachableNext(s, RaiseFlag, t);
  }

  lemma {:induction false} FreedIfFlagged(s: State) returns (t: State)
    requires Reachable(s) && s.phase == Alive && s.owner.Idle? && s.other.Idle? && s.LiveOf(1, HandleValue)
    ensures Reachable(t) && t.phase == Freed && t.LiveOf(1, HandleValue)
    ensures Next(t, DropHandle(1, Other, false)).Some?
  {
    t := FlagRaised(s);
    t := TearDown(t);
  }

  /** With the flag raised first, the context is freed under a live handle, whose drop then reads it. */
  lemma {:induction false} FreedUnderHandle() returns (s: State)
    ensures Reachable(s) && s.phase == Freed && s.LiveOf(1, HandleValue)
    ensures Next(s, DropHandle(1, Other, false)).Some?
  {
    s := QueryWithHandle();
    s := FreedIfFlagged(s);
  }
}
