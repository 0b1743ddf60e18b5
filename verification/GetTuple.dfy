/**
 * Component access through `get` (flecs_ecs/src/core/get_tuple.rs and the locking around the
 * callback in utility/safety.rs).
 */
module GetTuple {
  import opened Wrappers
  import opened TupleAlias
  import opened SafetyMap

  /** One element of the requested tuple; `typed` says whether a pair's id holds data of the cast type. */
  datatype Want = Want(key: Key, optional: bool, typed: bool) {
    /** A pair needs a concrete first element and data of the requested type. */
    predicate Supported() {
      key.isPair ==> !Key.IsDynamic(key.first) && typed
    }
  }

  /** Storage the entity has for an element: a non-null pointer and what guards it. */
  datatype Found = Found(ptr: nat, target: Target)

  type Storage = seq<Option<Found>>

  function Keys(wants: seq<Want>): seq<Key> {
    seq(|wants|, k requires 0 <= k < |wants| => wants[k].key)
  }

  /** Lookups return non-null pointers. */
  predicate NonNull(found: Storage) {
    forall k :: 0 <= k < |found| && found[k].Some? ==> found[k].value.ptr != 0
  }

  /** An immutable element reads its storage, a mutable one writes it. */
  function LocksAt(want: Want, f: Option<Found>): seq<LockOp> {
    if f.Some? then [LockOp(f.value.target, !want.key.isMut)] else []
  }

  /** The locks of the elements that were found, in tuple order. */
  function LocksOf(wants: seq<Want>, found: Storage, n: nat): seq<LockOp>
    requires n <= |wants| == |found|
  {
    if n == 0 then [] else LocksOf(wants, found, n - 1) + LocksAt(wants[n - 1], found[n - 1])
  }

  // ----- The locks, element by element ----------------------------------------------------

  function AsksOf(wants: seq<Want>, found: Storage): (asks: seq<Option<LockOp>>)
    requires |wants| == |found|
    ensures |asks| == |wants|
  {
    seq(|wants|, k requires 0 <= k < |wants| =>
      if found[k].Some? then Some(LockOp(found[k].value.target, !wants[k].key.isMut)) else None)
  }

  lemma {:induction false} LocksAreAsked(wants: seq<Want>, found: Storage, n: nat)
    requires n <= |wants| == |found|
    ensures LocksOf(wants, found, n) == Flat(AsksOf(wants, found), n)
  {
    if n > 0 { LocksAreAsked(wants, found, n - 1); }
  }

  lemma {:induction false} AskIs(wants: seq<Want>, found: Storage, asks: seq<Option<LockOp>>, k: nat)
    requires |wants| == |found| && asks == AsksOf(wants, found) && k < |wants|
    ensures asks[k].Some? <==> found[k].Some?
    ensures found[k].Some? ==> asks[k].value.target == found[k].value.target
    ensures found[k].Some? ==> asks[k].value.readonly == !wants[k].key.isMut
  {
  }

  lemma {:induction false} CanLockIff(c: Counters, wants: seq<Want>, found: Storage, asks: seq<Option<LockOp>>)
    requires |wants| == |found| && asks == AsksOf(wants, found)
    ensures CanLock(c, asks) <==>
      && (forall k | 0 <= k < |wants| && found[k].Some? && wants[k].key.isMut ::
            Level(c, found[k].value.target) == 0)
      && (forall k | 0 <= k < |wants| && found[k].Some? && !wants[k].key.isMut ::
            Level(c, found[k].value.target) >= 0)
      && (forall i, j | 0 <= i < j < |wants| && FoundTogether(found, i, j) ::
            !wants[i].key.isMut && !wants[j].key.isMut)
  {
    forall k | 0 <= k < |wants| { AskIs(wants, found, asks, k); }
    forall i, j | 0 <= i < |wants| && 0 <= j < |wants|
      ensures SameTarget(asks, i, j) <==> FoundTogether(found, i, j)
    {
    }
  }

  /** Two elements were found in one place. */
  predicate FoundTogether(found: Storage, i: nat, j: nat)
    requires i < |found| && j < |found|
  {
    found[i].Some? && found[j].Some? && found[i].value.target == found[j].value.target
  }

  /**
   * From any lock state, the locks of a tuple are granted if and only if every mutable element
   * that was found is free, every immutable one has no writer, and two in one place are immutable.
   */
  lemma {:induction false} LocksGrantedIff(c: Counters, wants: seq<Want>, found: Storage)
    requires |wants| == |found|
    ensures RunPass(c, LocksOf(wants, found, |wants|), true).Some? <==>
      && (forall k | 0 <= k < |wants| && found[k].Some? && wants[k].key.isMut ::
            Level(c, found[k].value.target) == 0)
      && (forall k | 0 <= k < |wants| && found[k].Some? && !wants[k].key.isMut ::
            Level(c, found[k].value.target) >= 0)
      && (forall i, j | 0 <= i < j < |wants| && FoundTogether(found, i, j) ::
            !wants[i].key.isMut && !wants[j].key.isMut)
  {
    LocksAreAsked(wants, found, |wants|);
    AllGrantableIff(c, AsksOf(wants, found));
    PassSucceedsIff(c, LocksOf(wants, found, |wants|));
    CanLockIff(c, wants, found, AsksOf(wants, found));
  }

  /** What the locks of a tuple leave at the place of an element that was found. */
  lemma {:induction false} LevelWhileLocked(c: Counters, wants: seq<Want>, found: Storage, k: nat)
    requires k < |wants| == |found| && found[k].Some?
    requires RunPass(c, LocksOf(wants, found, |wants|), true).Some?
    ensures
      var level := Level(RunPass(c, LocksOf(wants, found, |wants|), true).value, found[k].value.target);
      if wants[k].key.isMut then level == -1
      else level == Level(c, found[k].value.target) + |Together(found, k)|
  {
    var asks := AsksOf(wants, found);
    LocksAreAsked(wants, found, |wants|);
    LocksGrantedIff(c, wants, found);
    AskedLevels(c, asks, LocksOf(wants, found, |wants|), found[k].value.target);
    TogetherAsk(wants, found, asks, k);
  }

  lemma {:induction false} TogetherAsk(wants: seq<Want>, found: Storage, asks: seq<Option<LockOp>>, k: nat)
    requires k < |wants| == |found| && found[k].Some? && asks == AsksOf(wants, found)
    requires forall i, j | 0 <= i < j < |wants| && FoundTogether(found, i, j) ::
      !wants[i].key.isMut && !wants[j].key.isMut
    ensures
      var t := found[k].value.target;
      var readers, writers := Askers(asks, |asks|, LockOp(t, true)), Askers(asks, |asks|, LockOp(t, false));
      if wants[k].key.isMut then readers == {} && writers == {k}
      else readers == Together(found, k) && writers == {}
  {
    forall i | 0 <= i < |wants|
      ensures FoundTogether(found, i, k) <==> FoundTogether(found, k, i)
      ensures asks[i].Some? && asks[i].value.target == found[k].value.target <==> FoundTogether(found, k, i)
      ensures found[i].Some? ==> asks[i].value.readonly == !wants[i].key.isMut
    {
      AskIs(wants, found, asks, i);
    }
  }

  /** The elements found where element `k` was. */
  ghost function Together(found: Storage, k: nat): set<nat>
    requires k < |found| && found[k].Some?
  {
    set i: nat | i < |found| && found[i].Some? && found[i].value.target == found[k].value.target
  }

  class ComponentsData {
    const components: array<nat>
    const safety: array<LockOp>
    var hasAll: bool

    ghost predicate Valid() {
      components.Length == safety.Length
    }

    constructor (size: nat)
      ensures Valid() && fresh(components) && fresh(safety) && components.Length == size
    {
      components := new nat[size](_ => 0);
      safety := new LockOp[size](_ => LockOp(Column(0, 0), true));
      hasAll := true;
    }

    /** Element `k` was filled from `found`, with its lock; an element that was not found is null. */
    ghost predicate Filled(wants: seq<Want>, found: Storage, k: nat)
      requires Valid() && k < components.Length == |wants| == |found|
      reads components, safety
    {
      if found[k].Some? then
        components[k] == found[k].value.ptr && safety[k] == LockOp(found[k].value.target, !wants[k].key.isMut)
      else components[k] == 0
    }

    /** `populate_array_ptrs`; `false` is a panic. */
    method PopulateArrayPtrs(wants: seq<Want>, found: Storage, shouldPanic: bool) returns (ok: bool)
      requires Valid() && components.Length == |wants| == |found|
      modifies this, components, safety
      ensures ok <==>
        && !StaticConflict(Keys(wants))
        && (forall k :: 0 <= k < |wants| && wants[k].key.isPair ==> wants[k].key.first.Concrete? && wants[k].typed)
        && (shouldPanic ==> forall k :: 0 <= k < |wants| ==> wants[k].optional || found[k].Some?)
      ensures ok ==> (hasAll <==> forall k :: 0 <= k < |wants| ==> wants[k].optional || found[k].Some?)
      ensures ok ==> forall k :: 0 <= k < |wants| ==> Filled(wants, found, k)
    {
      hasAll := true;
      var conflict := StaticAliasConflict(Keys(wants));
      if conflict.Some? { return false; }
      var index := 0;
      while index < |wants|
        invariant index <= |wants|
        invariant forall k :: 0 <= k < index ==> components[k] == if found[k].Some? then found[k].value.ptr else 0
        invariant forall k :: 0 <= k < index && found[k].Some? ==>
          safety[k] == LockOp(found[k].value.target, !wants[k].key.isMut)
        invariant hasAll <==> forall k :: 0 <= k < index ==> wants[k].optional || found[k].Some?
        invariant shouldPanic ==> hasAll
        invariant forall k :: 0 <= k < index ==> wants[k].Supported()
      {
        if !wants[index].Supported() { return false; }
        match found[index] {
          case None =>
            components[index] := 0;
            if !wants[index].optional {
              if shouldPanic { return false; }
              hasAll := false;
            }
          case Some(f) =>
            components[index] := f.ptr;
            safety[index] := LockOp(f.target, !wants[index].key.isMut);
        }
        index := index + 1;
      }
      return true;
    }

    /** Takes or gives back the lock of one element, after those of `before`. */
    method LockOne(
      locks: LockTable, index: nat, increment: bool, ghost c: Counters, ghost before: seq<LockOp>)
      returns (ok: bool)
      requires Valid() && index < safety.Length && RunPass(c, before, increment) == Some(locks.counters)
      modifies locks
      ensures ok <==> RunPass(c, before + [safety[index]], increment).Some?
      ensures ok ==> RunPass(c, before + [safety[index]], increment) == Some(locks.counters)
    {
      RunPassAppend(c, before, [safety[index]], increment);
      ok := locks.Lock(safety[index].target, safety[index].readonly, increment);
    }

    /** One of the two loops around the callback: takes or gives back every element's lock. */
    method LockPass(locks: LockTable, increment: bool, ghost wants: seq<Want>, ghost found: Storage) returns (ok: bool)
      requires Valid() && components.Length == |wants| == |found| && NonNull(found)
      requires forall k :: 0 <= k < |wants| ==> Filled(wants, found, k)
      modifies locks
      ensures ok <==> RunPass(old(locks.counters), LocksOf(wants, found, |wants|), increment).Some?
      ensures ok ==> Some(locks.counters) == RunPass(old(locks.counters), LocksOf(wants, found, |wants|), increment)
    {
      ghost var c, before := locks.counters, [];
      var index := 0;
      while index < safety.Length
        invariant index <= safety.Length && before == LocksOf(wants, found, index)
        invariant RunPass(c, before, increment) == Some(locks.counters)
      {
        assert Filled(wants, found, index);
        ghost var next := before + LocksAt(wants[index], found[index]);
        if components[index] != 0 {
          ok := LockOne(locks, index, increment, c, before);
          assert next == before + [safety[index]];
          if !ok {
            LocksPrefix(c, wants, found, index + 1, |wants|, increment);
            return;
          }
        } else {
          assert next == before;
        }
        index, before := index + 1, next;
      }
      return true;
    }

    /**
     * `rw_locking` around a callback that leaves the locks as it found them: either it panics
     * before the callback, or the locks end as they were.
     */
    method RwLocking(locks: LockTable, ghost wants: seq<Want>, ghost found: Storage) returns (ok: bool)
      requires Valid() && components.Length == |wants| == |found| && NonNull(found)
      requires forall k :: 0 <= k < |wants| ==> Filled(wants, found, k)
      modifies locks
      ensures ok <==> AllGrantable(old(locks.counters), multiset(LocksOf(wants, found, |wants|)))
      ensures ok <==>
        && (forall k | 0 <= k < |wants| && found[k].Some? && wants[k].key.isMut ::
              Level(old(locks.counters), found[k].value.target) == 0)
        && (forall k | 0 <= k < |wants| && found[k].Some? && !wants[k].key.isMut ::
              Level(old(locks.counters), found[k].value.target) >= 0)
        && (forall i, j | 0 <= i < j < |wants| && FoundTogether(found, i, j) ::
              !wants[i].key.isMut && !wants[j].key.isMut)
      ensures ok ==> forall t :: Level(locks.counters, t) == Level(old(locks.counters), t)
    {
      ghost var ops := LocksOf(wants, found, |wants|);
      PassSucceedsIff(locks.counters, ops);
      LocksGrantedIff(locks.counters, wants, found);
      ok := LockPass(locks, true, wants, found);
      if !ok { return; }
      ReleaseUndoesPass(old(locks.counters), ops);
      var released := LockPass(locks, false, wants, found);
    }
  }

  /** A pass that panics within `a` panics. */
  lemma {:induction false} PassPrefix(c: Counters, a: seq<LockOp>, b: seq<LockOp>, increment: bool)
    requires RunPass(c, a, increment).None?
    ensures RunPass(c, a + b, increment).None?
  {
    RunPassAppend(c, a, b, increment);
  }

  lemma {:induction false} LocksSplit(wants: seq<Want>, found: Storage, n: nat, m: nat) returns (rest: seq<LockOp>)
    requires n <= m <= |wants| == |found|
    ensures LocksOf(wants, found, m) == LocksOf(wants, found, n) + rest
    decreases m
  {
    rest := [];
    if n < m {
      rest := LocksSplit(wants, found, n, m - 1);
      rest := rest + LocksAt(wants[m - 1], found[m - 1]);
    }
  }

  /** A pass that panics within its first elements panics. */
  lemma {:induction false} LocksPrefix(
    c: Counters, wants: seq<Want>, found: Storage, n: nat, m: nat, increment: bool)
    requires n <= m <= |wants| == |found|
    requires RunPass(c, LocksOf(wants, found, n), increment).None?
    ensures RunPass(c, LocksOf(wants, found, m), increment).None?
  {
    var rest := LocksSplit(wants, found, n, m);
    PassPrefix(c, LocksOf(wants, found, n), rest, increment);
  }

  // ----- No two references alias mutably -------------------------------------------------

  predicate SamePointer(found: Storage, i: nat, j: nat)
    requires i < |found| && j < |found|
  {
    found[i].Some? && found[j].Some? && found[i].value.ptr == found[j].value.ptr
  }

  /** Elements with the same storage are guarded by the same lock. */
  predicate OneLockPerPointer(found: Storage) {
    forall i, j :: 0 <= i < |found| && 0 <= j < |found| && SamePointer(found, i, j) ==>
      found[i].value.target == found[j].value.target
  }

  /** Two elements with the same pointer are both immutable. */
  predicate AliasFree(wants: seq<Want>, found: Storage)
    requires |wants| == |found|
  {
    forall i, j :: 0 <= i < j < |wants| && SamePointer(found, i, j) ==> !wants[i].key.isMut && !wants[j].key.isMut
  }

  /** The lock of a found element follows those of the elements before it. */
  lemma {:induction false} LockAt(wants: seq<Want>, found: Storage, n: nat, i: nat)
    requires i < n <= |wants| == |found| && found[i].Some?
    ensures |LocksOf(wants, found, i)| < |LocksOf(wants, found, n)|
    ensures LocksOf(wants, found, n)[|LocksOf(wants, found, i)|] ==
      LockOp(found[i].value.target, !wants[i].key.isMut)
  {
    if i < n - 1 { LockAt(wants, found, n - 1, i); }
  }

  lemma {:induction false} TwoOps(ops: seq<LockOp>, p: nat, q: nat)
    requires p < q < |ops|
    ensures multiset(ops) >= multiset{ops[p]} + multiset{ops[q]}
  {
    assert ops == ops[..q] + ([ops[q]] + ops[q + 1..]);
    assert ops[p] in ops[..q];
  }

  /** If the locks are granted, no mutable reference of the tuple aliases another, wildcards or not. */
  lemma {:induction false} GrantedLocksMeanNoAlias(c: Counters, wants: seq<Want>, found: Storage)
    requires |wants| == |found| && OneLockPerPointer(found)
    requires AllGrantable(c, multiset(LocksOf(wants, found, |wants|)))
    ensures AliasFree(wants, found)
  {
    var ops := multiset(LocksOf(wants, found, |wants|));
    forall i, j | 0 <= i < j < |wants| && SamePointer(found, i, j)
      ensures !wants[i].key.isMut && !wants[j].key.isMut
    {
      var t := found[i].value.target;
      LockAt(wants, found, |wants|, i);
      LockAt(wants, found, |wants|, j);
      LockAt(wants, found, j, i);
      TwoOps(LocksOf(wants, found, |wants|), |LocksOf(wants, found, i)|, |LocksOf(wants, found, j)|);
      assert found[j].value.target == t;
      assert Grantable(Level(c, t), Reads(ops, t), Writes(ops, t));
    }
  }

  /** What an element resolves to, and that distinct ids of an entity are stored apart. */
  ghost predicate Resolution(wants: seq<Want>, found: Storage, ids: seq<Id>) {
    && |wants| == |found| == |ids|
    && (forall k :: 0 <= k < |wants| ==> Resolves(wants[k].key, ids[k]))
    && forall i, j :: 0 <= i < |found| && 0 <= j < |found| && SamePointer(found, i, j) ==> ids[i] == ids[j]
  }

  /** Whatever the elements resolve to, no mutable reference of the tuple aliases another. */
  ghost predicate AlwaysAliasFree(wants: seq<Want>) {
    forall found: Storage, ids: seq<Id> {:trigger Resolution(wants, found, ids)} ::
      Resolution(wants, found, ids) ==> AliasFree(wants, found)
  }

  lemma {:induction false} NoCheckMeansNoAlias(wants: seq<Want>, found: Storage, ids: seq<Id>)
    requires Resolution(wants, found, ids) && !CheckNeeded(Keys(wants))
    ensures AliasFree(wants, found)
  {
    forall i, j | 0 <= i < j < |wants| && SamePointer(found, i, j)
      ensures !wants[i].key.isMut && !wants[j].key.isMut
    {
      CouldAliasExact(wants[i].key, wants[j].key);
      assert Resolves(wants[i].key, ids[i]) && Resolves(wants[j].key, ids[i]);
      assert !AliasPair(Keys(wants), i, j);
    }
  }

  /** Ids for all elements, the same one for two that can share it. */
  lemma {:induction false} IdsFor(wants: seq<Want>, i: nat, j: nat, shared: Id) returns (ids: seq<Id>)
    requires i < j < |wants| && Resolves(wants[i].key, shared) && Resolves(wants[j].key, shared)
    ensures |ids| == |wants| && ids[i] == ids[j] == shared
    ensures forall k :: 0 <= k < |wants| ==> Resolves(wants[k].key, ids[k])
  {
    ids := [];
    while |ids| < |wants|
      invariant |ids| <= |wants|
      invariant forall k :: 0 <= k < |ids| ==> Resolves(wants[k].key, ids[k])
      invariant (i < |ids| ==> ids[i] == shared) && (j < |ids| ==> ids[j] == shared)
    {
      if |ids| == i || |ids| == j {
        ids := ids + [shared];
      } else {
        var id := SomeId(wants[|ids|].key);
        ids := ids + [id];
      }
    }
  }

  /** A tuple the analysis would check has a storage in which it aliases. */
  lemma {:induction false} CheckFindsAlias(wants: seq<Want>) returns (found: Storage, ids: seq<Id>)
    requires CheckNeeded(Keys(wants))
    ensures Resolution(wants, found, ids) && OneLockPerPointer(found) && !AliasFree(wants, found)
  {
    var i, j :| 0 <= i < j < |wants| && AliasPair(Keys(wants), i, j);
    CouldAliasExact(wants[i].key, wants[j].key);
    var shared :| Resolves(wants[i].key, shared) && Resolves(wants[j].key, shared);
    ids := IdsFor(wants, i, j, shared);
    found := seq(|wants|, k => if k == i || k == j then Some(Found(1, Column(1, 0))) else None);
    assert SamePointer(found, i, j);
  }

  /** The static check alone rules mutable aliasing out exactly for tuples that need no run-time check. */
  lemma {:induction false} StaticCheckSufficesIff(wants: seq<Want>)
    requires !StaticConflict(Keys(wants))
    ensures AlwaysAliasFree(wants) <==> !CheckNeeded(Keys(wants))
  {
    if CheckNeeded(Keys(wants)) {
      var found, ids := CheckFindsAlias(wants);
    } else {
      forall found: Storage, ids: seq<Id> | Resolution(wants, found, ids) ensures AliasFree(wants, found) {
        NoCheckMeansNoAlias(wants, found, ids);
      }
    }
  }

  /** Without wildcards it always does. */
  lemma {:induction false} StaticCheckSuffices(wants: seq<Want>)
    requires !StaticConflict(Keys(wants))
    requires forall k :: 0 <= k < |wants| ==> wants[k].key.WellFormed() && wants[k].key.WildcardFree()
    ensures AlwaysAliasFree(wants)
  {
    AnalysesAgreeWithoutWildcards(Keys(wants));
    StaticCheckSufficesIff(wants);
  }

  /** With a wildcard it may not: the locks are what catches this tuple. */
  lemma {:induction false} StaticCheckMissesWildcards() returns (wants: seq<Want>)
    ensures (forall k :: 0 <= k < |wants| ==> wants[k].Supported()) && !StaticConflict(Keys(wants))
    ensures !AlwaysAliasFree(wants)
  {
    wants := [
      Want(Key(Concrete(1), Wildcard, true, true), false, true),
      Want(Key(Concrete(1), Concrete(2), true, false), false, true)];
    forall i | 0 <= i < 2 ensures !ConflictAt(Keys(wants), i) {
      forall j | 0 <= j < i ensures !ConflictPair(Keys(wants), j, i) {}
    }
    assert AliasPair(Keys(wants), 0, 1);
    StaticCheckSufficesIff(wants);
  }
}
