/**
 * Read/write locks on table columns and sparse components (flecs_ecs/src/core/safety_map.rs).
 *
 * Each target has one signed counter: n > 0 for n readers, -1 for a writer, 0 when free.
 * A failed `begin` has already moved the counter; only the try-locks move it back.
 */
module SafetyMap {
  import opened Wrappers
  import opened TupleAlias
  import opened QueryTuple

  datatype Target = Column(table: nat, column: int) | Sparse(id: Id)

  /** One lock a pass takes or gives back. */
  datatype LockOp = LockOp(target: Target, readonly: bool)

  type Counters = map<Target, int>

  function Level(c: Counters, t: Target): int {
    if t in c then c[t] else 0
  }

  function Moved(c: Counters, t: Target, delta: int): (r: Counters)
    ensures forall u :: Level(r, u) == Level(c, u) + if u == t then delta else 0
  {
    c[t := Level(c, t) + delta]
  }

  // ----- Specification of a pass --------------------------------------------------------

  /** Taking one lock; `None` is the panic. */
  function Take(c: Counters, op: LockOp): Option<Counters> {
    if op.readonly then
      (if Level(c, op.target) + 1 <= 0 then None else Some(Moved(c, op.target, 1)))
    else
      (if Level(c, op.target) - 1 != -1 then None else Some(Moved(c, op.target, -1)))
  }

  function Release(c: Counters, op: LockOp): Counters {
    Moved(c, op.target, if op.readonly then -1 else 1)
  }

  function TakeAll(c: Counters, ops: seq<LockOp>): Option<Counters> {
    if ops == [] then Some(c)
    else
      var before := TakeAll(c, ops[..|ops| - 1]);
      if before.None? then None else Take(before.value, ops[|ops| - 1])
  }

  function ReleaseAll(c: Counters, ops: seq<LockOp>): Counters {
    if ops == [] then c else Release(ReleaseAll(c, ops[..|ops| - 1]), ops[|ops| - 1])
  }

  function RunPass(c: Counters, ops: seq<LockOp>, increment: bool): Option<Counters> {
    if increment then TakeAll(c, ops) else Some(ReleaseAll(c, ops))
  }

  function Reads(ops: multiset<LockOp>, t: Target): nat {
    ops[LockOp(t, true)]
  }

  function Writes(ops: multiset<LockOp>, t: Target): nat {
    ops[LockOp(t, false)]
  }

  /** When a target at `level` can take `r` more reads and `w` more writes in one pass. */
  predicate Grantable(level: int, r: nat, w: nat) {
    || (r == 0 && w == 0)
    || (w == 0 && level >= 0)
    || (w == 1 && r == 0 && level == 0)
  }

  lemma {:induction false} LastOp(ops: seq<LockOp>)
    requires ops != []
    ensures multiset(ops) == multiset(ops[..|ops| - 1]) + multiset{ops[|ops| - 1]}
  {
    assert ops == ops[..|ops| - 1] + [ops[|ops| - 1]];
  }

  lemma {:induction false} TakeAllLevels(c: Counters, ops: seq<LockOp>)
    requires TakeAll(c, ops).Some?
    ensures forall t ::
      Level(TakeAll(c, ops).value, t) == Level(c, t) + Reads(multiset(ops), t) - Writes(multiset(ops), t)
  {
    if ops != [] {
      LastOp(ops);
      TakeAllLevels(c, ops[..|ops| - 1]);
    }
  }

  lemma {:induction false} ReleaseAllLevels(c: Counters, ops: seq<LockOp>)
    ensures forall t :: Level(ReleaseAll(c, ops), t) == Level(c, t) - Reads(multiset(ops), t) + Writes(multiset(ops), t)
  {
    if ops != [] {
      LastOp(ops);
      ReleaseAllLevels(c, ops[..|ops| - 1]);
    }
  }

  ghost predicate AllGrantable(c: Counters, ops: multiset<LockOp>) {
    forall t :: Grantable(Level(c, t), Reads(ops, t), Writes(ops, t))
  }

  /**
   * From any lock state, a pass completes without a panic exactly when each target it touches
   * has only reads and no writer, or a single write and is free.
   */
  lemma {:induction false} PassSucceedsIff(c: Counters, ops: seq<LockOp>)
    ensures TakeAll(c, ops).Some? <==> AllGrantable(c, multiset(ops))
  {
    if ops != [] {
      var init, op := ops[..|ops| - 1], ops[|ops| - 1];
      LastOp(ops);
      PassSucceedsIff(c, init);
      var t := op.target;
      var level, r, w := Level(c, t), Reads(multiset(init), t), Writes(multiset(init), t);
      assert forall u | u != t :: Reads(multiset(ops), u) == Reads(multiset(init), u)
                                  && Writes(multiset(ops), u) == Writes(multiset(init), u);
      if AllGrantable(c, multiset(init)) {
        TakeAllLevels(c, init);
        assert Grantable(level, r, w);
      } else {
        var u :| !Grantable(Level(c, u), Reads(multiset(init), u), Writes(multiset(init), u));
        assert !Grantable(Level(c, u), Reads(multiset(ops), u), Writes(multiset(ops), u));
      }
    }
  }

  /** Only which locks are taken matters, not the order the segments are walked in. */
  lemma {:induction false} OrderIrrelevant(c: Counters, ops: seq<LockOp>, other: seq<LockOp>)
    requires multiset(ops) == multiset(other)
    ensures TakeAll(c, ops).Some? <==> TakeAll(c, other).Some?
    ensures TakeAll(c, ops).Some? ==>
              forall t :: Level(TakeAll(c, ops).value, t) == Level(TakeAll(c, other).value, t)
  {
    PassSucceedsIff(c, ops);
    PassSucceedsIff(c, other);
    if TakeAll(c, ops).Some? {
      TakeAllLevels(c, ops);
      TakeAllLevels(c, other);
    }
  }

  /** The matching release pass undoes a successful pass on every counter. */
  lemma {:induction false} ReleaseUndoesPass(c: Counters, ops: seq<LockOp>)
    requires TakeAll(c, ops).Some?
    ensures forall t :: Level(ReleaseAll(TakeAll(c, ops).value, ops), t) == Level(c, t)
  {
    TakeAllLevels(c, ops);
    ReleaseAllLevels(TakeAll(c, ops).value, ops);
  }

  // ----- Runs ----------------------------------------------------------------------------

  /** What a client does to the locks; a panicking pass ends the run. */
  datatype Event = Pass(ops: seq<LockOp>) | GiveBack(ops: seq<LockOp>) | TryLock(op: LockOp)

  /** The counters, with the locks that are outstanding. */
  datatype Session = Session(counters: Counters, held: multiset<LockOp>)

  function TryTake(c: Counters, op: LockOp): (Counters, bool) {
    if Take(c, op).Some? then (Take(c, op).value, true) else (c, false)
  }

  function After(s: Session, e: Event): Option<Session> {
    match e
    case Pass(ops) =>
      var c := TakeAll(s.counters, ops);
      if c.None? then None else Some(Session(c.value, s.held + multiset(ops)))
    case GiveBack(ops) =>
      if multiset(ops) <= s.held then Some(Session(ReleaseAll(s.counters, ops), s.held - multiset(ops))) else None
    case TryLock(op) =>
      var (c, got) := TryTake(s.counters, op);
      Some(Session(c, if got then s.held + multiset{op} else s.held))
  }

  function Run(s: Session, events: seq<Event>): Option<Session> {
    if events == [] then Some(s)
    else
      var before := Run(s, events[..|events| - 1]);
      if before.None? then None else After(before.value, events[|events| - 1])
  }

  /** Readers and writers exclude each other, and the counter says how many there are. */
  ghost predicate Exclusive(s: Session) {
    forall t ::
      && Level(s.counters, t) == Reads(s.held, t) - Writes(s.held, t)
      && (Writes(s.held, t) == 0 || (Writes(s.held, t) == 1 && Reads(s.held, t) == 0))
  }

  lemma {:induction false} PassKeepsExclusive(s: Session, ops: seq<LockOp>)
    requires Exclusive(s) && TakeAll(s.counters, ops).Some?
    ensures Exclusive(Session(TakeAll(s.counters, ops).value, s.held + multiset(ops)))
  {
    TakeAllLevels(s.counters, ops);
    PassSucceedsIff(s.counters, ops);
    var held := s.held + multiset(ops);
    forall t
      ensures Reads(held, t) == Reads(s.held, t) + Reads(multiset(ops), t)
      ensures Writes(held, t) == Writes(s.held, t) + Writes(multiset(ops), t)
      ensures Writes(held, t) == 0 || (Writes(held, t) == 1 && Reads(held, t) == 0)
    {
      assert Grantable(Level(s.counters, t), Reads(multiset(ops), t), Writes(multiset(ops), t));
    }
  }

  lemma {:induction false} StepKeepsExclusive(s: Session, e: Event)
    requires Exclusive(s) && After(s, e).Some?
    ensures Exclusive(After(s, e).value)
  {
    match e
    case Pass(ops) => PassKeepsExclusive(s, ops);
    case GiveBack(ops) =>
      ReleaseAllLevels(s.counters, ops);
      assert forall t :: Reads(s.held - multiset(ops), t) == Reads(s.held, t) - Reads(multiset(ops), t);
      assert forall t :: Writes(s.held - multiset(ops), t) == Writes(s.held, t) - Writes(multiset(ops), t);
    case TryLock(op) =>
      if Take(s.counters, op).Some? {
        assert [op][..0] == [];
        assert TakeAll(s.counters, [op]) == Take(s.counters, op);
        PassKeepsExclusive(s, [op]);
        assert multiset([op]) == multiset{op};
      }
  }

  /** Every run from free locks keeps readers and writers apart and the counters truthful. */
  lemma {:induction false} RunsKeepExclusive(events: seq<Event>)
    requires Run(Session(map[], multiset{}), events).Some?
    ensures Exclusive(Run(Session(map[], multiset{}), events).value)
  {
    if events != [] {
      RunsKeepExclusive(events[..|events| - 1]);
      StepKeepsExclusive(Run(Session(map[], multiset{}), events[..|events| - 1]).value, events[|events| - 1]);
    }
  }

  // ----- Locks asked for one by one -------------------------------------------------------

  /** The locks asked for among the first `n` asks, in order. */
  function Flat(asks: seq<Option<LockOp>>, n: nat): seq<LockOp>
    requires n <= |asks|
  {
    if n == 0 then [] else Flat(asks, n - 1) + if asks[n - 1].Some? then [asks[n - 1].value] else []
  }

  /** Who among the first `n` asks for `op`. */
  ghost function Askers(asks: seq<Option<LockOp>>, n: nat, op: LockOp): set<nat>
    requires n <= |asks|
  {
    set i: nat | i < n && asks[i] == Some(op)
  }

  lemma {:induction false} FlatCounts(asks: seq<Option<LockOp>>, n: nat, op: LockOp)
    requires n <= |asks|
    ensures multiset(Flat(asks, n))[op] == |Askers(asks, n, op)|
  {
    if n > 0 {
      var init := Flat(asks, n - 1);
      FlatCounts(asks, n - 1, op);
      AskersStep(asks, n, op);
      if asks[n - 1].Some? {
        assert Flat(asks, n)[..|init|] == init;
        LastOp(Flat(asks, n));
      } else {
        assert Flat(asks, n) == init;
      }
    }
  }

  lemma {:induction false} AskersStep(asks: seq<Option<LockOp>>, n: nat, op: LockOp)
    requires 0 < n <= |asks|
    ensures |Askers(asks, n, op)| == |Askers(asks, n - 1, op)| + if asks[n - 1] == Some(op) then 1 else 0
  {
    var before := Askers(asks, n - 1, op);
    assert Askers(asks, n, op) == if asks[n - 1] == Some(op) then before + {n - 1} else before;
  }

  /**
   * Whoever writes finds its target free, whoever reads finds it without a writer, and two that
   * ask for one target both read.
   */
  ghost predicate CanLock(c: Counters, asks: seq<Option<LockOp>>) {
    && (forall i | 0 <= i < |asks| && asks[i].Some? ::
          if asks[i].value.readonly then Level(c, asks[i].value.target) >= 0
          else Level(c, asks[i].value.target) == 0)
    && (forall i, j | 0 <= i < j < |asks| && SameTarget(asks, i, j) ::
          asks[i].value.readonly && asks[j].value.readonly)
  }

  predicate SameTarget(asks: seq<Option<LockOp>>, i: nat, j: nat)
    requires i < |asks| && j < |asks|
  {
    asks[i].Some? && asks[j].Some? && asks[i].value.target == asks[j].value.target
  }

  lemma {:induction false} TwoOf<T>(s: set<T>, a: T, b: T)
    requires a in s && b in s && a != b
    ensures |s| >= 2
  {
    assert |s - {a}| == |s| - 1 && b in s - {a};
  }

  lemma {:induction false} OneOf<T>(s: set<T>)
    ensures |s| > 0 <==> exists x :: x in s
    ensures |s| > 1 <==> exists x, y :: x in s && y in s && x != y
  {
    if |s| > 0 {
      var x :| x in s;
      if |s| > 1 {
        assert |s - {x}| > 0;
        var y :| y in s - {x};
      }
    }
    if x, y :| x in s && y in s && x != y { TwoOf(s, x, y); }
  }

  /** What the targets of all asks together need. */
  lemma {:induction false} GrantableAt(c: Counters, asks: seq<Option<LockOp>>, t: Target)
    requires CanLock(c, asks)
    ensures Grantable(Level(c, t), |Askers(asks, |asks|, LockOp(t, true))|, |Askers(asks, |asks|, LockOp(t, false))|)
  {
    var r, w := Askers(asks, |asks|, LockOp(t, true)), Askers(asks, |asks|, LockOp(t, false));
    OneOf(r);
    OneOf(w);
    if i :| i in w {
      if j :| j in r { assert SameTarget(asks, i, j) && SameTarget(asks, j, i); }
      if j, k :| j in w && k in w && j != k { assert SameTarget(asks, j, k) && SameTarget(asks, k, j); }
    }
  }

  lemma {:induction false} GrantedPair(c: Counters, asks: seq<Option<LockOp>>, i: nat, j: nat)
    requires i < j < |asks| && SameTarget(asks, i, j)
    requires var t := asks[i].value.target;
      Grantable(Level(c, t), |Askers(asks, |asks|, LockOp(t, true))|, |Askers(asks, |asks|, LockOp(t, false))|)
    ensures asks[i].value.readonly && asks[j].value.readonly
  {
    var t := asks[i].value.target;
    var r, w := Askers(asks, |asks|, LockOp(t, true)), Askers(asks, |asks|, LockOp(t, false));
    assert i in r || i in w;
    assert j in r || j in w;
    if i in w && j in w { TwoOf(w, i, j); }
  }

  lemma {:induction false} GrantedAsk(c: Counters, asks: seq<Option<LockOp>>, i: nat)
    requires i < |asks| && asks[i].Some?
    requires var t := asks[i].value.target;
      Grantable(Level(c, t), |Askers(asks, |asks|, LockOp(t, true))|, |Askers(asks, |asks|, LockOp(t, false))|)
    ensures if asks[i].value.readonly then Level(c, asks[i].value.target) >= 0 else Level(c, asks[i].value.target) == 0
  {
    var t := asks[i].value.target;
    assert i in Askers(asks, |asks|, asks[i].value);
    assert asks[i].value == LockOp(t, asks[i].value.readonly);
  }

  lemma {:induction false} AllGrantableIff(c: Counters, asks: seq<Option<LockOp>>)
    ensures AllGrantable(c, multiset(Flat(asks, |asks|))) <==> CanLock(c, asks)
  {
    var ops := multiset(Flat(asks, |asks|));
    forall t
      ensures Reads(ops, t) == |Askers(asks, |asks|, LockOp(t, true))|
      ensures Writes(ops, t) == |Askers(asks, |asks|, LockOp(t, false))|
    {
      FlatCounts(asks, |asks|, LockOp(t, true));
      FlatCounts(asks, |asks|, LockOp(t, false));
    }
    if CanLock(c, asks) {
      forall t ensures Grantable(Level(c, t), Reads(ops, t), Writes(ops, t)) { GrantableAt(c, asks, t); }
    }
    if AllGrantable(c, ops) {
      forall i | 0 <= i < |asks| && asks[i].Some?
        ensures if asks[i].value.readonly then Level(c, asks[i].value.target) >= 0
                else Level(c, asks[i].value.target) == 0
      {
        assert Grantable(Level(c, asks[i].value.target), Reads(ops, asks[i].value.target),
          Writes(ops, asks[i].value.target));
        GrantedAsk(c, asks, i);
      }
      forall i, j | 0 <= i < j < |asks| && SameTarget(asks, i, j)
        ensures asks[i].value.readonly && asks[j].value.readonly
      {
        assert Grantable(Level(c, asks[i].value.target), Reads(ops, asks[i].value.target),
          Writes(ops, asks[i].value.target));
        GrantedPair(c, asks, i, j);
      }
    }
  }

  /** Every level moves up by its readers and down by its writers. */
  lemma {:induction false} AskedLevels(c: Counters, asks: seq<Option<LockOp>>, ops: seq<LockOp>, t: Target)
    requires TakeAll(c, ops).Some? && multiset(ops) == multiset(Flat(asks, |asks|))
    ensures Level(TakeAll(c, ops).value, t) ==
      Level(c, t) + |Askers(asks, |asks|, LockOp(t, true))| - |Askers(asks, |asks|, LockOp(t, false))|
  {
    TakeAllLevels(c, ops);
    FlatCounts(asks, |asks|, LockOp(t, true));
    FlatCounts(asks, |asks|, LockOp(t, false));
  }


  // ----- The walk over a populated tuple -------------------------------------------------

  /** The lock a record stands for, if any: a set component id marks a row term. */
  function OpOf(info: TableColumnSafety, readonly: bool, anySparse: bool): seq<LockOp> {
    if anySparse && info.componentId != Zero then [LockOp(Sparse(info.componentId), readonly)]
    else if info.table == 0 then []
    else [LockOp(Column(info.table, info.column), readonly)]
  }

  /** Locks of slots `lo..hi`, in slot order. */
  function Walk(recs: seq<TableColumnSafety>, lo: nat, hi: nat, readonly: bool, anySparse: bool): seq<LockOp>
    requires hi <= |recs|
  {
    if lo >= hi then []
    else Walk(recs, lo, hi - 1, readonly, anySparse) + OpOf(recs[hi - 1], readonly, anySparse)
  }

  /** The compile-time segment sizes. */
  datatype Counts = Counts(immut: nat, mut: nat, optImmut: nat, optMut: nat) {
    function EndMut(): nat { immut + mut }
    function EndOptImmut(): nat { immut + mut + optImmut }
    function Total(): nat { immut + mut + optImmut + optMut }
  }

  function PassOps(recs: seq<TableColumnSafety>, n: Counts, anySparse: bool): seq<LockOp>
    requires n.Total() <= |recs|
  {
    Walk(recs, 0, n.immut, true, anySparse) +
    Walk(recs, n.immut, n.EndMut(), false, anySparse) +
    Walk(recs, n.EndMut(), n.EndOptImmut(), true, anySparse) +
    Walk(recs, n.EndOptImmut(), n.Total(), false, anySparse)
  }

  lemma {:induction false} RunPassAppend(c: Counters, a: seq<LockOp>, b: seq<LockOp>, increment: bool)
    ensures RunPass(c, a + b, increment) ==
            var mid := RunPass(c, a, increment);
            if mid.None? then None else RunPass(mid.value, b, increment)
  {
    if b == [] {
      assert a + b == a;
    } else {
      var ab := a + b;
      assert ab[..|ab| - 1] == a + b[..|b| - 1];
      RunPassAppend(c, a, b[..|b| - 1], increment);
    }
  }

  lemma {:induction false} RunPassSingle(c: Counters, op: LockOp, increment: bool)
    ensures RunPass(c, [op], increment) == if increment then Take(c, op) else Some(Release(c, op))
  {
    assert [op][..|[op]| - 1] == [];
    assert TakeAll(c, [op][..|[op]| - 1]) == Some(c);
    assert ReleaseAll(c, [op][..|[op]| - 1]) == c;
  }

  class LockTable {
    var counters: Counters

    constructor ()
      ensures counters == map[]
    {
      counters := map[];
    }

    /** The C primitives: move the counter, and say whether that was a conflict. */
    method ReadBegin(t: Target) returns (blocked: bool)
      modifies this
      ensures counters == Moved(old(counters), t, 1) && blocked == (Level(counters, t) <= 0)
    {
      counters := Moved(counters, t, 1);
      blocked := Level(counters, t) <= 0;
    }

    method ReadEnd(t: Target)
      modifies this
      ensures counters == Moved(old(counters), t, -1)
    {
      counters := Moved(counters, t, -1);
    }

    method WriteBegin(t: Target) returns (blocked: bool)
      modifies this
      ensures counters == Moved(old(counters), t, -1) && blocked == (Level(counters, t) != -1)
    {
      counters := Moved(counters, t, -1);
      blocked := Level(counters, t) != -1;
    }

    method WriteEnd(t: Target)
      modifies this
      ensures counters == Moved(old(counters), t, 1)
    {
      counters := Moved(counters, t, 1);
    }

    /** The try-locks: a failed attempt is rolled back, so it leaves every level as it was. */
    method TryLock(t: Target, readonly: bool) returns (locked: bool)
      modifies this
      ensures locked <==> !TryTake(old(counters), LockOp(t, readonly)).1
      ensures forall u :: Level(counters, u) == Level(TryTake(old(counters), LockOp(t, readonly)).0, u)
      ensures !locked <==> if readonly then Level(old(counters), t) >= 0 else Level(old(counters), t) == 0
      ensures forall u | u != t :: Level(counters, u) == Level(old(counters), u)
      ensures Level(counters, t) == Level(old(counters), t) + if locked then 0 else if readonly then 1 else -1
    {
      if readonly {
        locked := ReadBegin(t);
        if locked { ReadEnd(t); }
      } else {
        locked := WriteBegin(t);
        if locked { WriteEnd(t); }
      }
    }

    /** Takes or gives back one lock of a pass; `ok` is false on the panic. */
    method Lock(t: Target, readonly: bool, increment: bool) returns (ok: bool)
      modifies this
      ensures ok <==> RunPass(old(counters), [LockOp(t, readonly)], increment).Some?
      ensures ok ==> Some(counters) == RunPass(old(counters), [LockOp(t, readonly)], increment)
    {
      RunPassSingle(counters, LockOp(t, readonly), increment);
      ok := true;
      if readonly {
        if increment {
          var blocked := ReadBegin(t);
          ok := !blocked;
        } else {
          ReadEnd(t);
        }
      } else if increment {
        var blocked := WriteBegin(t);
        ok := !blocked;
      } else {
        WriteEnd(t);
      }
    }

    /** One of the four loops: slots `lo..hi`, all read or all write. */
    method LockSegment(
      recs: seq<TableColumnSafety>, lo: nat, hi: nat, readonly: bool, increment: bool, anySparse: bool)
      returns (ok: bool)
      requires lo <= hi <= |recs|
      modifies this
      ensures ok <==> RunPass(old(counters), Walk(recs, lo, hi, readonly, anySparse), increment).Some?
      ensures ok ==> Some(counters) == RunPass(old(counters), Walk(recs, lo, hi, readonly, anySparse), increment)
    {
      for i := lo to hi
        invariant Some(counters) == RunPass(old(counters), Walk(recs, lo, i, readonly, anySparse), increment)
      {
        var info := recs[i];
        ghost var done := Walk(recs, lo, i, readonly, anySparse);
        RunPassAppend(old(counters), done, OpOf(info, readonly, anySparse), increment);
        if anySparse && info.componentId != Zero {
          ok := Lock(Sparse(info.componentId), readonly, increment);
          if !ok {
            WalkPrefix(recs, lo, i + 1, hi, readonly, anySparse, old(counters), increment);
            return;
          }
          continue;
        }
        if info.table == 0 {
          continue;
        }
        ok := Lock(Column(info.table, info.column), readonly, increment);
        if !ok {
          WalkPrefix(recs, lo, i + 1, hi, readonly, anySparse, old(counters), increment);
          return;
        }
      }
      ok := true;
    }

    /** A whole pass over the records of a tuple. */
    method DoReadWriteLocks(recs: seq<TableColumnSafety>, n: Counts, increment: bool, anySparse: bool)
      returns (ok: bool)
      requires n.Total() <= |recs|
      modifies this
      ensures ok <==> RunPass(old(counters), PassOps(recs, n, anySparse), increment).Some?
      ensures ok ==> Some(counters) == RunPass(old(counters), PassOps(recs, n, anySparse), increment)
    {
      ghost var a := Walk(recs, 0, n.immut, true, anySparse);
      ghost var b := Walk(recs, n.immut, n.EndMut(), false, anySparse);
      ghost var c := Walk(recs, n.EndMut(), n.EndOptImmut(), true, anySparse);
      ghost var d := Walk(recs, n.EndOptImmut(), n.Total(), false, anySparse);
      RunPassAppend(counters, a, b, increment);
      RunPassAppend(counters, a + b, c, increment);
      RunPassAppend(counters, a + b + c, d, increment);
      ok := LockSegment(recs, 0, n.immut, true, increment, anySparse);
      if !ok { return; }
      ok := LockSegment(recs, n.immut, n.EndMut(), false, increment, anySparse);
      if !ok { return; }
      ok := LockSegment(recs, n.EndMut(), n.EndOptImmut(), true, increment, anySparse);
      if !ok { return; }
      ok := LockSegment(recs, n.EndOptImmut(), n.Total(), false, increment, anySparse);
    }
  }

  /** A walk that panics within its first slots panics. */
  lemma {:induction false} WalkPrefix(
    recs: seq<TableColumnSafety>, lo: nat, mid: nat, hi: nat, readonly: bool, anySparse: bool,
    c: Counters, increment: bool)
    requires lo <= mid <= hi <= |recs|
    requires RunPass(c, Walk(recs, lo, mid, readonly, anySparse), increment).None?
    ensures RunPass(c, Walk(recs, lo, hi, readonly, anySparse), increment).None?
  {
    if mid < hi {
      WalkPrefix(recs, lo, mid, hi - 1, readonly, anySparse, c, increment);
      RunPassAppend(c, Walk(recs, lo, hi - 1, readonly, anySparse), OpOf(recs[hi - 1], readonly, anySparse), increment);
    }
  }

  // ----- Locks of a tuple ------------------------------------------------------------------

  /** The lock term `i` asks for, read off the iterator alone. */
  function TermOps(terms: seq<Term>, it: Iter, rows: bool, anySparse: bool, i: nat): seq<LockOp>
    requires it.Covers(|terms|) && i < |terms|
  {
    OpOf(RecordOf(it, rows, i), terms[i].Immutable(), anySparse)
  }

  /** The locks of all terms, in term order. */
  function TupleOps(terms: seq<Term>, it: Iter, rows: bool, anySparse: bool, n: nat): seq<LockOp>
    requires it.Covers(|terms|) && n <= |terms|
  {
    if n == 0 then [] else TupleOps(terms, it, rows, anySparse, n - 1) + TermOps(terms, it, rows, anySparse, n - 1)
  }

  function CountsOf(terms: seq<Term>): Counts {
    Counts(CountOf(terms, Immut), CountOf(terms, Mut), CountOf(terms, OptImmut), CountOf(terms, OptMut))
  }

  /** The locks of the first `n` terms that are of kind `k`. */
  function KindOps(terms: seq<Term>, it: Iter, rows: bool, anySparse: bool, k: Kind, n: nat): seq<LockOp>
    requires it.Covers(|terms|) && n <= |terms|
  {
    if n == 0 then []
    else
      KindOps(terms, it, rows, anySparse, k, n - 1) +
      if terms[n - 1].Kind() == k then TermOps(terms, it, rows, anySparse, n - 1) else []
  }

  /** From slot `base` on, the records of the terms of kind `k` follow one another in term order. */
  predicate InOrder(recs: seq<TableColumnSafety>, terms: seq<Term>, it: Iter, rows: bool, k: Kind, base: nat, n: nat)
    requires it.Covers(|terms|) && n <= |terms|
  {
    && base + Count(terms, k, n) <= |recs|
    && forall i {:trigger RecordOf(it, rows, i)} |
         0 <= i < n && terms[i].Kind() == k && base + Count(terms, k, i) < |recs| ::
         recs[base + Count(terms, k, i)] == RecordOf(it, rows, i)
  }

  lemma {:induction false} InOrderStep(
    recs: seq<TableColumnSafety>, terms: seq<Term>, it: Iter, rows: bool, k: Kind, base: nat, n: nat)
    requires it.Covers(|terms|) && 0 < n <= |terms| && InOrder(recs, terms, it, rows, k, base, n)
    ensures InOrder(recs, terms, it, rows, k, base, n - 1)
    ensures terms[n - 1].Kind() != k ==> Count(terms, k, n) == Count(terms, k, n - 1)
    ensures terms[n - 1].Kind() == k ==>
      Count(terms, k, n) == Count(terms, k, n - 1) + 1 &&
        recs[base + Count(terms, k, n - 1)] == RecordOf(it, rows, n - 1)
  {
    assert RecordOf(it, rows, n - 1) == RecordOf(it, rows, n - 1);
  }

  lemma {:induction false} KindOpsStep(terms: seq<Term>, it: Iter, rows: bool, anySparse: bool, k: Kind, n: nat)
    requires it.Covers(|terms|) && 0 < n <= |terms|
    ensures KindOps(terms, it, rows, anySparse, k, n) ==
      KindOps(terms, it, rows, anySparse, k, n - 1) +
      if terms[n - 1].Kind() != k then []
      else OpOf(RecordOf(it, rows, n - 1), k == Immut || k == OptImmut, anySparse)
  {
    if terms[n - 1].Kind() != k {
      assert KindOps(terms, it, rows, anySparse, k, n - 1) + [] == KindOps(terms, it, rows, anySparse, k, n - 1);
    }
  }

  lemma {:induction false} WalkInOrder(
    recs: seq<TableColumnSafety>, terms: seq<Term>, it: Iter, rows: bool, anySparse: bool, k: Kind, base: nat, n: nat)
    requires it.Covers(|terms|) && n <= |terms| && InOrder(recs, terms, it, rows, k, base, n)
    ensures Walk(recs, base, base + Count(terms, k, n), k == Immut || k == OptImmut, anySparse)
            == KindOps(terms, it, rows, anySparse, k, n)
  {
    if n > 0 {
      InOrderStep(recs, terms, it, rows, k, base, n);
      KindOpsStep(terms, it, rows, anySparse, k, n);
      WalkInOrder(recs, terms, it, rows, anySparse, k, base, n - 1);
      if terms[n - 1].Kind() == k {
        WalkStep(recs, base, base + Count(terms, k, n - 1), k == Immut || k == OptImmut, anySparse);
      }
    }
  }

  lemma {:induction false} ScatteredIsInOrder(
    recs: seq<TableColumnSafety>, terms: seq<Term>, it: Iter, rows: bool, k: Kind)
    requires it.Covers(|terms|) && Scattered(recs, terms, it, rows, |terms|)
    ensures InOrder(recs, terms, it, rows, k, Base(terms, k), |terms|)
  {
    SegmentFits(terms, k, |terms|);
    forall i | 0 <= i < |terms| && terms[i].Kind() == k && Base(terms, k) + Count(terms, k, i) < |recs|
      ensures recs[Base(terms, k) + Count(terms, k, i)] == RecordOf(it, rows, i)
    {
      assert Slot(terms, i) == Base(terms, k) + Count(terms, k, i);
    }
  }

  lemma {:induction false} WalkStep(recs: seq<TableColumnSafety>, lo: nat, hi: nat, readonly: bool, anySparse: bool)
    requires lo <= hi < |recs|
    ensures Walk(recs, lo, hi + 1, readonly, anySparse) ==
      Walk(recs, lo, hi, readonly, anySparse) + OpOf(recs[hi], readonly, anySparse)
  {
  }

  function Hits(ops: seq<LockOp>, op: LockOp): nat {
    if ops == [] then 0 else Hits(ops[..|ops| - 1], op) + if ops[|ops| - 1] == op then 1 else 0
  }

  lemma {:induction false} HitsAppend(a: seq<LockOp>, b: seq<LockOp>, op: LockOp)
    ensures Hits(a + b, op) == Hits(a, op) + Hits(b, op)
  {
    if b == [] {
      assert a + b == a;
    } else {
      HitsAppend(a, b[..|b| - 1], op);
      assert (a + b)[..|a + b| - 1] == a + b[..|b| - 1];
    }
  }

  lemma {:induction false} HitsCount(ops: seq<LockOp>, op: LockOp)
    ensures multiset(ops)[op] == Hits(ops, op)
  {
    if ops != [] {
      LastOp(ops);
      HitsCount(ops[..|ops| - 1], op);
    }
  }

  lemma {:induction false} KindHits(
    terms: seq<Term>, it: Iter, rows: bool, anySparse: bool, k: Kind, n: nat, op: LockOp)
    requires it.Covers(|terms|) && 0 < n <= |terms|
    ensures Hits(KindOps(terms, it, rows, anySparse, k, n), op) ==
            Hits(KindOps(terms, it, rows, anySparse, k, n - 1), op) +
            if terms[n - 1].Kind() == k then Hits(TermOps(terms, it, rows, anySparse, n - 1), op) else 0
  {
    var prefix := KindOps(terms, it, rows, anySparse, k, n - 1);
    if terms[n - 1].Kind() == k {
      HitsAppend(prefix, TermOps(terms, it, rows, anySparse, n - 1), op);
    } else {
      assert prefix + [] == prefix;
    }
  }

  /** Occurrences of `op` among the first `n` terms, kind by kind. */
  function KindsHits(terms: seq<Term>, it: Iter, rows: bool, anySparse: bool, n: nat, op: LockOp): nat
    requires it.Covers(|terms|) && n <= |terms|
  {
    Hits(KindOps(terms, it, rows, anySparse, Immut, n), op) +
    Hits(KindOps(terms, it, rows, anySparse, Mut, n), op) +
    Hits(KindOps(terms, it, rows, anySparse, OptImmut, n), op) +
    Hits(KindOps(terms, it, rows, anySparse, OptMut, n), op)
  }

  /** Only the kind of the last term gains its locks. */
  lemma {:induction false} KindsHitsStep(terms: seq<Term>, it: Iter, rows: bool, anySparse: bool, n: nat, op: LockOp)
    requires it.Covers(|terms|) && 0 < n <= |terms|
    ensures KindsHits(terms, it, rows, anySparse, n, op) ==
            KindsHits(terms, it, rows, anySparse, n - 1, op) + Hits(TermOps(terms, it, rows, anySparse, n - 1), op)
  {
    KindHits(terms, it, rows, anySparse, Immut, n, op);
    KindHits(terms, it, rows, anySparse, Mut, n, op);
    KindHits(terms, it, rows, anySparse, OptImmut, n, op);
    KindHits(terms, it, rows, anySparse, OptMut, n, op);
  }

  lemma {:induction false} KindsHoldTupleOps(
    terms: seq<Term>, it: Iter, rows: bool, anySparse: bool, n: nat, op: LockOp)
    requires it.Covers(|terms|) && n <= |terms|
    ensures Hits(TupleOps(terms, it, rows, anySparse, n), op) == KindsHits(terms, it, rows, anySparse, n, op)
  {
    if n > 0 {
      KindsHoldTupleOps(terms, it, rows, anySparse, n - 1, op);
      HitsAppend(TupleOps(terms, it, rows, anySparse, n - 1), TermOps(terms, it, rows, anySparse, n - 1), op);
      KindsHitsStep(terms, it, rows, anySparse, n, op);
    }
  }

  lemma {:induction false} PassIsKinds(
    recs: seq<TableColumnSafety>, terms: seq<Term>, it: Iter, rows: bool, anySparse: bool)
    requires it.Covers(|terms|) && Scattered(recs, terms, it, rows, |terms|)
    ensures CountsOf(terms).Total() == |recs|
    ensures PassOps(recs, CountsOf(terms), anySparse) ==
            KindOps(terms, it, rows, anySparse, Immut, |terms|) +
            KindOps(terms, it, rows, anySparse, Mut, |terms|) +
            KindOps(terms, it, rows, anySparse, OptImmut, |terms|) +
            KindOps(terms, it, rows, anySparse, OptMut, |terms|)
  {
    CountsAddUp(terms, |terms|);
    var n := CountsOf(terms);
    SegmentOps(recs, terms, it, rows, anySparse, Immut, 0, n.immut);
    SegmentOps(recs, terms, it, rows, anySparse, Mut, n.immut, n.EndMut());
    SegmentOps(recs, terms, it, rows, anySparse, OptImmut, n.EndMut(), n.EndOptImmut());
    SegmentOps(recs, terms, it, rows, anySparse, OptMut, n.EndOptImmut(), n.Total());
  }

  lemma {:induction false} SegmentOps(
    recs: seq<TableColumnSafety>, terms: seq<Term>, it: Iter, rows: bool, anySparse: bool, k: Kind, lo: nat, hi: nat)
    requires it.Covers(|terms|) && Scattered(recs, terms, it, rows, |terms|)
    requires lo == Base(terms, k) && hi == lo + CountOf(terms, k)
    ensures hi <= |recs|
    ensures Walk(recs, lo, hi, k == Immut || k == OptImmut, anySparse) ==
      KindOps(terms, it, rows, anySparse, k, |terms|)
  {
    ScatteredIsInOrder(recs, terms, it, rows, k);
    WalkInOrder(recs, terms, it, rows, anySparse, k, lo, |terms|);
  }

  /** The pass over scattered records takes exactly the locks of the set terms, each in its mode. */
  lemma {:induction false} ScatterAndWalkAgree(
    recs: seq<TableColumnSafety>, terms: seq<Term>, it: Iter, rows: bool, anySparse: bool)
    requires it.Covers(|terms|) && Scattered(recs, terms, it, rows, |terms|)
    ensures CountsOf(terms).Total() == |recs|
    ensures multiset(PassOps(recs, CountsOf(terms), anySparse)) ==
            multiset(TupleOps(terms, it, rows, anySparse, |terms|))
  {
    PassIsKinds(recs, terms, it, rows, anySparse);
    var pass, tuple := PassOps(recs, CountsOf(terms), anySparse), TupleOps(terms, it, rows, anySparse, |terms|);
    forall op ensures Hits(pass, op) == Hits(tuple, op) {
      PassHits(recs, terms, it, rows, anySparse, op);
      KindsHoldTupleOps(terms, it, rows, anySparse, |terms|, op);
    }
    SameHits(pass, tuple);
  }

  lemma {:induction false} PassHits(
    recs: seq<TableColumnSafety>, terms: seq<Term>, it: Iter, rows: bool, anySparse: bool, op: LockOp)
    requires it.Covers(|terms|) && Scattered(recs, terms, it, rows, |terms|) && CountsOf(terms).Total() <= |recs|
    ensures Hits(PassOps(recs, CountsOf(terms), anySparse), op) == KindsHits(terms, it, rows, anySparse, |terms|, op)
  {
    PassIsKinds(recs, terms, it, rows, anySparse);
    FourHits(
      KindOps(terms, it, rows, anySparse, Immut, |terms|), KindOps(terms, it, rows, anySparse, Mut, |terms|),
      KindOps(terms, it, rows, anySparse, OptImmut, |terms|), KindOps(terms, it, rows, anySparse, OptMut, |terms|), op);
  }

  lemma {:induction false} FourHits(a: seq<LockOp>, b: seq<LockOp>, c: seq<LockOp>, d: seq<LockOp>, op: LockOp)
    ensures Hits(a + b + c + d, op) == Hits(a, op) + Hits(b, op) + Hits(c, op) + Hits(d, op)
  {
    HitsAppend(a + b + c, d, op);
    HitsAppend(a + b, c, op);
    HitsAppend(a, b, op);
  }

  lemma {:induction false} SameHits(a: seq<LockOp>, b: seq<LockOp>)
    requires forall op :: Hits(a, op) == Hits(b, op)
    ensures multiset(a) == multiset(b)
  {
    forall op ensures multiset(a)[op] == multiset(b)[op] {
      HitsCount(a, op);
      HitsCount(b, op);
    }
  }

  /**
   * End to end: with the records left by population, a locking pass panics unless every target
   * the tuple touches is read by all of its terms and has no writer, or is written by a single
   * term and is free.
   */
  lemma {:induction false} TuplePassSucceedsIff(
    c: Counters, recs: seq<TableColumnSafety>, terms: seq<Term>, it: Iter, rows: bool, anySparse: bool)
    requires it.Covers(|terms|) && Scattered(recs, terms, it, rows, |terms|)
    requires CountsOf(terms).Total() <= |recs|
    ensures RunPass(c, PassOps(recs, CountsOf(terms), anySparse), true).Some? <==>
            AllGrantable(c, multiset(TupleOps(terms, it, rows, anySparse, |terms|)))
  {
    ScatterAndWalkAgree(recs, terms, it, rows, anySparse);
    PassSucceedsIff(c, PassOps(recs, CountsOf(terms), anySparse));
  }

  // ----- The verdict, from the iterator alone ---------------------------------------------

  /** A row term of a pass over tables with sparse terms is locked by its component. */
  predicate LockedById(it: Iter, rows: bool, anySparse: bool, i: nat)
    requires i < |it.rowFields|
  {
    anySparse && rows && it.rowFields[i]
  }

  /** Any other term is locked by its column, if it has one. */
  predicate LockedByColumn(it: Iter, rows: bool, anySparse: bool, i: nat)
    requires i < |it.rowFields| == |it.columns|
  {
    !(anySparse && rows && it.rowFields[i]) && it.columns[i].0 != 0
  }

  /** Two terms are stored in one place. */
  predicate ShareStorage(it: Iter, rows: bool, anySparse: bool, i: nat, j: nat)
    requires i < |it.rowFields| && j < |it.rowFields| && |it.rowFields| == |it.columns| == |it.ids|
  {
    || (LockedById(it, rows, anySparse, i) && LockedById(it, rows, anySparse, j) && it.ids[i] == it.ids[j])
    || (LockedByColumn(it, rows, anySparse, i) && LockedByColumn(it, rows, anySparse, j) &&
        it.columns[i] == it.columns[j])
  }

  /** The terms stored where term `i` is. */
  ghost function Sharers(it: Iter, rows: bool, anySparse: bool, i: nat): set<nat>
    requires i < |it.rowFields| == |it.columns| == |it.ids|
  {
    set j: nat | j < |it.rowFields| && ShareStorage(it, rows, anySparse, i, j)
  }

  /** What term `i` is locked by, and how. */
  function Ask(terms: seq<Term>, it: Iter, rows: bool, anySparse: bool, i: nat): Option<LockOp>
    requires it.Covers(|terms|) && i < |terms|
  {
    if LockedById(it, rows, anySparse, i) then Some(LockOp(Sparse(it.ids[i]), !terms[i].key.isMut))
    else if LockedByColumn(it, rows, anySparse, i) then
      Some(LockOp(Column(it.columns[i].0, it.columns[i].1), !terms[i].key.isMut))
    else None
  }

  function AsksOf(terms: seq<Term>, it: Iter, rows: bool, anySparse: bool): (asks: seq<Option<LockOp>>)
    requires it.Covers(|terms|)
    ensures |asks| == |terms|
  {
    seq(|terms|, i requires 0 <= i < |terms| => Ask(terms, it, rows, anySparse, i))
  }

  lemma {:induction false} TermAsks(terms: seq<Term>, it: Iter, rows: bool, anySparse: bool, i: nat)
    requires it.Covers(|terms|) && i < |terms|
    ensures var ask := Ask(terms, it, rows, anySparse, i);
      TermOps(terms, it, rows, anySparse, i) == if ask.Some? then [ask.value] else []
  {
    assert it.rowFields[i] ==> it.ids[i] != Zero;
  }

  lemma {:induction false} TupleAsks(terms: seq<Term>, it: Iter, rows: bool, anySparse: bool, n: nat)
    requires it.Covers(|terms|) && n <= |terms|
    ensures TupleOps(terms, it, rows, anySparse, n) == Flat(AsksOf(terms, it, rows, anySparse), n)
  {
    if n > 0 {
      TupleAsks(terms, it, rows, anySparse, n - 1);
      TermAsks(terms, it, rows, anySparse, n - 1);
    }
  }

  lemma {:induction false} ShareIsSameTarget(
    terms: seq<Term>, it: Iter, rows: bool, anySparse: bool, i: nat, j: nat)
    requires it.Covers(|terms|) && i < |terms| && j < |terms|
    ensures SameTarget(AsksOf(terms, it, rows, anySparse), i, j) <==> ShareStorage(it, rows, anySparse, i, j)
  {
    assert it.columns[i] == (it.columns[i].0, it.columns[i].1);
    assert it.columns[j] == (it.columns[j].0, it.columns[j].1);
  }

  /** Level at which a term can take its lock. */
  predicate Open(level: int, isMut: bool) {
    if isMut then level == 0 else level >= 0
  }

  lemma {:induction false} OpenIs(
    c: Counters, terms: seq<Term>, it: Iter, rows: bool, anySparse: bool, asks: seq<Option<LockOp>>, i: nat)
    requires it.Covers(|terms|) && i < |terms| && asks == AsksOf(terms, it, rows, anySparse)
    ensures
      (asks[i].Some? ==>
        if asks[i].value.readonly then Level(c, asks[i].value.target) >= 0 else Level(c, asks[i].value.target) == 0)
      <==>
        && (LockedById(it, rows, anySparse, i) ==> Open(Level(c, Sparse(it.ids[i])), terms[i].key.isMut))
        && (LockedByColumn(it, rows, anySparse, i) ==>
              Open(Level(c, Column(it.columns[i].0, it.columns[i].1)), terms[i].key.isMut))
  {
  }

  lemma {:induction false} SharedIs(
    terms: seq<Term>, it: Iter, rows: bool, anySparse: bool, asks: seq<Option<LockOp>>, i: nat, j: nat)
    requires it.Covers(|terms|) && i < |terms| && j < |terms| && asks == AsksOf(terms, it, rows, anySparse)
    ensures SameTarget(asks, i, j) <==> ShareStorage(it, rows, anySparse, i, j)
    ensures asks[i].Some? ==> asks[i].value.readonly == !terms[i].key.isMut
    ensures asks[j].Some? ==> asks[j].value.readonly == !terms[j].key.isMut
  {
    ShareIsSameTarget(terms, it, rows, anySparse, i, j);
  }

  lemma {:induction false} CanLockIff(
    c: Counters, terms: seq<Term>, it: Iter, rows: bool, anySparse: bool, asks: seq<Option<LockOp>>)
    requires it.Covers(|terms|) && asks == AsksOf(terms, it, rows, anySparse)
    ensures CanLock(c, asks) <==>
      && (forall i | 0 <= i < |terms| :: LockedById(it, rows, anySparse, i) ==>
            Open(Level(c, Sparse(it.ids[i])), terms[i].key.isMut))
      && (forall i | 0 <= i < |terms| :: LockedByColumn(it, rows, anySparse, i) ==>
            Open(Level(c, Column(it.columns[i].0, it.columns[i].1)), terms[i].key.isMut))
      && (forall i, j | 0 <= i < j < |terms| && ShareStorage(it, rows, anySparse, i, j) ::
            !terms[i].key.isMut && !terms[j].key.isMut)
  {
    forall i | 0 <= i < |terms| { OpenIs(c, terms, it, rows, anySparse, asks, i); }
    forall i, j | 0 <= i < |terms| && 0 <= j < |terms| { SharedIs(terms, it, rows, anySparse, asks, i, j); }
  }

  /**
   * The verdict of a pass, from any lock state: it succeeds if and only if every mutable term
   * finds its storage free, every immutable one finds no writer there, and no two terms with a
   * mutable side share storage.
   */
  lemma {:induction false} TuplePassIff(
    c: Counters, recs: seq<TableColumnSafety>, terms: seq<Term>, it: Iter, rows: bool, anySparse: bool)
    requires it.Covers(|terms|) && Scattered(recs, terms, it, rows, |terms|)
    requires CountsOf(terms).Total() <= |recs|
    ensures RunPass(c, PassOps(recs, CountsOf(terms), anySparse), true).Some? <==>
      && (forall i | 0 <= i < |terms| && LockedById(it, rows, anySparse, i) ::
            Open(Level(c, Sparse(it.ids[i])), terms[i].key.isMut))
      && (forall i | 0 <= i < |terms| && LockedByColumn(it, rows, anySparse, i) ::
            Open(Level(c, Column(it.columns[i].0, it.columns[i].1)), terms[i].key.isMut))
      && (forall i, j | 0 <= i < j < |terms| && ShareStorage(it, rows, anySparse, i, j) ::
            !terms[i].key.isMut && !terms[j].key.isMut)
  {
    TuplePassSucceedsIff(c, recs, terms, it, rows, anySparse);
    TupleAsks(terms, it, rows, anySparse, |terms|);
    AllGrantableIff(c, AsksOf(terms, it, rows, anySparse));
    CanLockIff(c, terms, it, rows, anySparse, AsksOf(terms, it, rows, anySparse));
  }

  /** From free locks, a pass succeeds if and only if no storage is shared with a mutable side. */
  lemma {:induction false} FreePassIff(
    c: Counters, recs: seq<TableColumnSafety>, terms: seq<Term>, it: Iter, rows: bool, anySparse: bool)
    requires it.Covers(|terms|) && Scattered(recs, terms, it, rows, |terms|)
    requires CountsOf(terms).Total() <= |recs| && forall t :: Level(c, t) == 0
    ensures RunPass(c, PassOps(recs, CountsOf(terms), anySparse), true).Some? <==>
      forall i, j | 0 <= i < j < |terms| && ShareStorage(it, rows, anySparse, i, j) ::
        !terms[i].key.isMut && !terms[j].key.isMut
  {
    TuplePassIff(c, recs, terms, it, rows, anySparse);
  }

  /** Where the level of a term's storage ends after a pass from free locks. */
  lemma {:induction false} LevelAfterPass(
    c: Counters, recs: seq<TableColumnSafety>, terms: seq<Term>, it: Iter, rows: bool, anySparse: bool, i: nat)
    requires it.Covers(|terms|) && Scattered(recs, terms, it, rows, |terms|) && i < |terms|
    requires CountsOf(terms).Total() <= |recs| && forall t :: Level(c, t) == 0
    requires RunPass(c, PassOps(recs, CountsOf(terms), anySparse), true).Some?
    ensures
      var after := RunPass(c, PassOps(recs, CountsOf(terms), anySparse), true).value;
      var level := if terms[i].key.isMut then -1 else |Sharers(it, rows, anySparse, i)|;
      && (LockedById(it, rows, anySparse, i) ==> Level(after, Sparse(it.ids[i])) == level)
      && (LockedByColumn(it, rows, anySparse, i) ==> Level(after, Column(it.columns[i].0, it.columns[i].1)) == level)
  {
    var asks := AsksOf(terms, it, rows, anySparse);
    FreePassIff(c, recs, terms, it, rows, anySparse);
    ScatterAndWalkAgree(recs, terms, it, rows, anySparse);
    TupleAsks(terms, it, rows, anySparse, |terms|);
    if asks[i].Some? {
      var t := asks[i].value.target;
      AskedLevels(c, asks, PassOps(recs, CountsOf(terms), anySparse), t);
      SharersAsk(terms, it, rows, anySparse, i);
    }
  }

  /** The terms that share storage with `i` are those that ask for its target. */
  lemma {:induction false} SharersAsk(terms: seq<Term>, it: Iter, rows: bool, anySparse: bool, i: nat)
    requires it.Covers(|terms|) && i < |terms| && Ask(terms, it, rows, anySparse, i).Some?
    requires forall k, j | 0 <= k < j < |terms| && ShareStorage(it, rows, anySparse, k, j) ::
      !terms[k].key.isMut && !terms[j].key.isMut
    ensures
      var asks, t := AsksOf(terms, it, rows, anySparse), Ask(terms, it, rows, anySparse, i).value.target;
      var readers, writers := Askers(asks, |asks|, LockOp(t, true)), Askers(asks, |asks|, LockOp(t, false));
      if terms[i].key.isMut then readers == {} && writers == {i}
      else readers == Sharers(it, rows, anySparse, i) && writers == {}
  {
    var asks, t := AsksOf(terms, it, rows, anySparse), Ask(terms, it, rows, anySparse, i).value.target;
    forall j | 0 <= j < |terms|
      ensures asks[j] == Ask(terms, it, rows, anySparse, j)
      ensures SameTarget(asks, i, j) <==> ShareStorage(it, rows, anySparse, i, j)
      ensures ShareStorage(it, rows, anySparse, i, j) <==> ShareStorage(it, rows, anySparse, j, i)
    {
      ShareIsSameTarget(terms, it, rows, anySparse, i, j);
    }
    assert forall j: nat, readonly | j < |terms| && asks[j] == Some(LockOp(t, readonly)) ::
      SameTarget(asks, i, j) && readonly == !terms[j].key.isMut;
  }

  /** A pass leaves the level of every other place alone. */
  lemma {:induction false} OtherLevelsKept(
    c: Counters, recs: seq<TableColumnSafety>, terms: seq<Term>, it: Iter, rows: bool, anySparse: bool, t: Target)
    requires it.Covers(|terms|) && Scattered(recs, terms, it, rows, |terms|)
    requires CountsOf(terms).Total() <= |recs|
    requires RunPass(c, PassOps(recs, CountsOf(terms), anySparse), true).Some?
    requires forall i | 0 <= i < |terms| && LockedById(it, rows, anySparse, i) :: t != Sparse(it.ids[i])
    requires forall i | 0 <= i < |terms| && LockedByColumn(it, rows, anySparse, i) ::
      t != Column(it.columns[i].0, it.columns[i].1)
    ensures Level(RunPass(c, PassOps(recs, CountsOf(terms), anySparse), true).value, t) == Level(c, t)
  {
    var asks := AsksOf(terms, it, rows, anySparse);
    ScatterAndWalkAgree(recs, terms, it, rows, anySparse);
    TupleAsks(terms, it, rows, anySparse, |terms|);
    AskedLevels(c, asks, PassOps(recs, CountsOf(terms), anySparse), t);
    NoAskers(terms, it, rows, anySparse, asks, LockOp(t, true));
    NoAskers(terms, it, rows, anySparse, asks, LockOp(t, false));
  }

  lemma {:induction false} NoAskers(
    terms: seq<Term>, it: Iter, rows: bool, anySparse: bool, asks: seq<Option<LockOp>>, op: LockOp)
    requires it.Covers(|terms|) && asks == AsksOf(terms, it, rows, anySparse)
    requires forall i | 0 <= i < |terms| && LockedById(it, rows, anySparse, i) :: op.target != Sparse(it.ids[i])
    requires forall i | 0 <= i < |terms| && LockedByColumn(it, rows, anySparse, i) ::
      op.target != Column(it.columns[i].0, it.columns[i].1)
    ensures Askers(asks, |asks|, op) == {}
  {
    forall i: nat | i < |terms| ensures asks[i] != Some(op) {}
  }
}
