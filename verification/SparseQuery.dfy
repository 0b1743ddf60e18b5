/**
 * Direct iteration of sparse component storages (flecs_ecs/src/core/sparse_query.rs), over the
 * sparse sets of flecs_ecs_sys/src/flecs.c.
 *
 * The loop leads with the smallest storage and probes the others; the specification is the
 * plain intersection of all storages.
 */
module SparseQuery {
  import opened TupleAlias

  type Entity = nat
  /** Address of a component value; 0 is null. */
  type Ptr = nat

  /** What a storage holds: its live entities in dense order, and where each value is. */
  datatype Store = Store(ids: seq<Entity>, slots: map<Entity, Ptr>) {
    ghost predicate WellFormed() {
      && (forall i, j | 0 <= i < j < |ids| :: ids[i] != ids[j])
      && (forall e | e in ids :: e in slots && slots[e] != 0)
    }
  }

  /** A sparse set. Dense slot 0 is reserved, so sparse entry 0 means "not paired". */
  class SparseSet {
    var dense: seq<Entity>
    var count: nat
    var sparse: map<Entity, nat>
    var slots: map<Entity, Ptr>

    ghost predicate Valid()
      reads this
    {
      && 1 <= count <= |dense|
      && (forall d | 1 <= d < |dense| :: dense[d] in sparse && sparse[dense[d]] == d)
      && (forall e | e in sparse && sparse[e] != 0 :: sparse[e] < |dense| && dense[sparse[e]] == e)
      && (forall d | 1 <= d < |dense| :: dense[d] in slots && slots[dense[d]] != 0)
    }

    function Ids(): seq<Entity>
      requires 1 <= count <= |dense|
      reads this
    {
      dense[1..count]
    }

    ghost function View(): (s: Store)
      requires Valid()
      reads this
      ensures s.WellFormed()
    {
      assert forall i | 0 <= i < |Ids()| :: Ids()[i] == dense[i + 1] && sparse[dense[i + 1]] == i + 1;
      Store(Ids(), slots)
    }

    /** Unchecked access is defined only for live entities. */
    method GetWithCheck(e: Entity, checked: bool) returns (p: Ptr)
      requires Valid()
      requires !checked ==> e in Ids()
      ensures p == if e in Ids() then slots[e] else 0
    {
      if checked {
        if e !in sparse {
          assert e !in Ids();
          return 0;
        }
        var d := sparse[e];
        if d == 0 || d >= count {
          assert e !in Ids();
          return 0;
        }
        assert Ids()[d - 1] == e;
      }
      return slots[e];
    }
  }

  // ----- Specification -------------------------------------------------------------------

  /** One callback invocation. */
  datatype Call = Call(entity: Entity, ptrs: seq<Ptr>)

  ghost predicate WellFormed(stores: seq<Store>) {
    forall f | 0 <= f < |stores| :: stores[f].WellFormed()
  }

  ghost predicate InAll(stores: seq<Store>, e: Entity) {
    forall f | 0 <= f < |stores| :: e in stores[f].ids
  }

  ghost predicate Matches(stores: seq<Store>, queryable: set<Entity>, e: Entity) {
    InAll(stores, e) && e in queryable
  }

  ghost function CallFor(stores: seq<Store>, e: Entity): Call
    requires WellFormed(stores) && InAll(stores, e)
  {
    Call(e, seq(|stores|, f requires 0 <= f < |stores| => stores[f].slots[e]))
  }

  /** The calls for the matching entities among `ids`, in the order of `ids`. */
  ghost function Calls(stores: seq<Store>, queryable: set<Entity>, ids: seq<Entity>): seq<Call>
    requires WellFormed(stores)
  {
    if ids == [] then []
    else
      Calls(stores, queryable, ids[..|ids| - 1]) +
      if Matches(stores, queryable, ids[|ids| - 1]) then [CallFor(stores, ids[|ids| - 1])] else []
  }

  /** The first of the smallest storages. */
  ghost predicate IsLead(stores: seq<Store>, lead: nat) {
    && lead < |stores|
    && (forall f | 0 <= f < |stores| :: |stores[lead].ids| <= |stores[f].ids|)
    && (forall f | 0 <= f < lead :: |stores[lead].ids| < |stores[f].ids|)
  }

  /** Exactly the entities of the intersection are reported, each once, with its own values. */
  ghost predicate IsJoin(stores: seq<Store>, queryable: set<Entity>, calls: seq<Call>)
    requires WellFormed(stores)
  {
    && (forall i | 0 <= i < |calls| ::
          Matches(stores, queryable, calls[i].entity) && calls[i] == CallFor(stores, calls[i].entity))
    && (forall e | Matches(stores, queryable, e) :: exists i | 0 <= i < |calls| :: calls[i].entity == e)
    && (forall i, j | 0 <= i < j < |calls| :: calls[i].entity != calls[j].entity)
  }

  lemma {:induction false} CallsOf(stores: seq<Store>, queryable: set<Entity>, ids: seq<Entity>)
    requires WellFormed(stores)
    requires forall i, j | 0 <= i < j < |ids| :: ids[i] != ids[j]
    ensures var calls := Calls(stores, queryable, ids);
            && (forall c | c in calls ::
                  c.entity in ids && Matches(stores, queryable, c.entity) && c == CallFor(stores, c.entity))
            && (forall e | e in ids && Matches(stores, queryable, e) :: CallFor(stores, e) in calls)
            && (forall i, j | 0 <= i < j < |calls| :: calls[i].entity != calls[j].entity)
  {
    if ids != [] {
      var init, last := ids[..|ids| - 1], ids[|ids| - 1];
      CallsOf(stores, queryable, init);
      assert ids == init + [last];
      assert last !in init;
    }
  }

  /** A join, storage by storage. */
  lemma {:induction false} JoinIs(stores: seq<Store>, queryable: set<Entity>, calls: seq<Call>)
    requires WellFormed(stores)
    ensures IsJoin(stores, queryable, calls) <==>
      && (forall i | 0 <= i < |calls| ::
            calls[i].entity in queryable && |calls[i].ptrs| == |stores|)
      && (forall i, f | 0 <= i < |calls| && 0 <= f < |stores| ::
            calls[i].entity in stores[f].ids && calls[i].ptrs[f] == stores[f].slots[calls[i].entity])
      && (forall e | e in queryable && (forall f | 0 <= f < |stores| :: e in stores[f].ids) ::
            exists i | 0 <= i < |calls| :: calls[i].entity == e)
      && (forall i, j | 0 <= i < j < |calls| :: calls[i].entity != calls[j].entity)
  {
    forall i | 0 <= i < |calls|
      ensures Matches(stores, queryable, calls[i].entity) && calls[i] == CallFor(stores, calls[i].entity) <==>
        && calls[i].entity in queryable && |calls[i].ptrs| == |stores|
        && forall f | 0 <= f < |stores| ::
             calls[i].entity in stores[f].ids && calls[i].ptrs[f] == stores[f].slots[calls[i].entity]
    {
      CallIs(stores, queryable, calls[i]);
    }
    forall e
      ensures Matches(stores, queryable, e) <==>
        e in queryable && forall f | 0 <= f < |stores| :: e in stores[f].ids
    {
    }
  }

  lemma {:induction false} CallIs(stores: seq<Store>, queryable: set<Entity>, call: Call)
    requires WellFormed(stores)
    ensures Matches(stores, queryable, call.entity) && call == CallFor(stores, call.entity) <==>
      && call.entity in queryable && |call.ptrs| == |stores|
      && forall f | 0 <= f < |stores| :: call.entity in stores[f].ids && call.ptrs[f] == stores[f].slots[call.entity]
  {
    if InAll(stores, call.entity) {
      assert call == CallFor(stores, call.entity) <==> call.ptrs == CallFor(stores, call.entity).ptrs;
    }
  }

  /** The calls follow the order of `ids`. */
  lemma {:induction false} CallsInOrder(
    stores: seq<Store>, queryable: set<Entity>, ids: seq<Entity>, i: nat, j: nat) returns (p: nat, q: nat)
    requires WellFormed(stores) && i < j < |Calls(stores, queryable, ids)|
    ensures p < q < |ids|
    ensures ids[p] == Calls(stores, queryable, ids)[i].entity && ids[q] == Calls(stores, queryable, ids)[j].entity
  {
    var init := ids[..|ids| - 1];
    if j < |Calls(stores, queryable, init)| {
      p, q := CallsInOrder(stores, queryable, init, i, j);
      assert ids[p] == init[p] && ids[q] == init[q];
    } else {
      p := CallAt(stores, queryable, init, i);
      q := |ids| - 1;
      assert ids[p] == init[p];
    }
  }

  lemma {:induction false} CallAt(stores: seq<Store>, queryable: set<Entity>, ids: seq<Entity>, i: nat)
    returns (p: nat)
    requires WellFormed(stores) && i < |Calls(stores, queryable, ids)|
    ensures p < |ids| && ids[p] == Calls(stores, queryable, ids)[i].entity
  {
    var init := ids[..|ids| - 1];
    if i < |Calls(stores, queryable, init)| {
      p := CallAt(stores, queryable, init, i);
      assert ids[p] == init[p];
    } else {
      p := |ids| - 1;
    }
  }

  /** Whichever storage leads, the calls are those of the intersection. */
  lemma {:induction false} AnyLeadJoins(stores: seq<Store>, queryable: set<Entity>, lead: nat)
    requires WellFormed(stores) && lead < |stores|
    ensures IsJoin(stores, queryable, Calls(stores, queryable, stores[lead].ids))
  {
    CallsOf(stores, queryable, stores[lead].ids);
    var calls := Calls(stores, queryable, stores[lead].ids);
    forall e | Matches(stores, queryable, e)
      ensures exists i | 0 <= i < |calls| :: calls[i].entity == e
    {
      assert CallFor(stores, e) in calls;
    }
  }

  ghost function Entities(calls: seq<Call>): set<Entity> {
    set c | c in calls :: c.entity
  }

  lemma {:induction false} DistinctCallsCount(calls: seq<Call>)
    requires forall i, j | 0 <= i < j < |calls| :: calls[i].entity != calls[j].entity
    ensures |Entities(calls)| == |calls|
  {
    if calls != [] {
      var init, last := calls[..|calls| - 1], calls[|calls| - 1];
      DistinctCallsCount(init);
      assert calls == init + [last];
      assert Entities(calls) == Entities(init) + {last.entity};
      assert last.entity !in Entities(init);
    }
  }

  /** Joins of the same storages, listed in any order, report the same entities equally often. */
  lemma {:induction false} TermOrderIrrelevant(
    stores: seq<Store>, other: seq<Store>, queryable: set<Entity>, calls: seq<Call>, otherCalls: seq<Call>)
    requires WellFormed(stores) && multiset(stores) == multiset(other)
    requires IsJoin(stores, queryable, calls)
    requires WellFormed(other) && IsJoin(other, queryable, otherCalls)
    ensures Entities(calls) == Entities(otherCalls)
    ensures |calls| == |otherCalls|
  {
    forall e ensures Matches(stores, queryable, e) <==> Matches(other, queryable, e) {
      forall f | 0 <= f < |stores| ensures stores[f] in other {
        assert stores[f] in multiset(other);
      }
      forall f | 0 <= f < |other| ensures other[f] in stores {
        assert other[f] in multiset(stores);
      }
    }
    JoinEntities(stores, queryable, calls);
    JoinEntities(other, queryable, otherCalls);
    DistinctCallsCount(calls);
    DistinctCallsCount(otherCalls);
    assert Entities(calls) == Entities(otherCalls);
  }

  lemma {:induction false} JoinEntities(stores: seq<Store>, queryable: set<Entity>, calls: seq<Call>)
    requires WellFormed(stores) && IsJoin(stores, queryable, calls)
    ensures forall e :: e in Entities(calls) <==> Matches(stores, queryable, e)
  {
    forall e | Matches(stores, queryable, e) ensures e in Entities(calls) {
      var i :| 0 <= i < |calls| && calls[i].entity == e;
      assert calls[i] in calls;
    }
  }

  /** A join has as many calls as the intersection has entities. */
  lemma {:induction false} JoinSize(stores: seq<Store>, queryable: set<Entity>, calls: seq<Call>)
    requires WellFormed(stores) && stores != [] && IsJoin(stores, queryable, calls)
    ensures |calls| ==
      |set e | e in stores[0].ids && e in queryable && (forall f | 0 <= f < |stores| :: e in stores[f].ids)|
  {
    JoinEntities(stores, queryable, calls);
    DistinctCallsCount(calls);
    assert Entities(calls) ==
      set e | e in stores[0].ids && e in queryable && (forall f | 0 <= f < |stores| :: e in stores[f].ids);
  }

  // ----- Aliasing ------------------------------------------------------------------------

  /**
   * How storages belong to the terms of a tuple: a component's storage is looked up by its own
   * id, wildcards not resolved, and different components keep their values apart.
   */
  ghost predicate Stored(keys: seq<Key>, stores: seq<Store>) {
    && |keys| == |stores| && WellFormed(stores)
    && (forall i, j | 0 <= i < |keys| && 0 <= j < |keys| && keys[i].SameId(keys[j]) :: stores[i] == stores[j])
    && (forall i, j, e, f | 0 <= i < |keys| && 0 <= j < |keys| && !keys[i].SameId(keys[j]) ::
          e in stores[i].ids && f in stores[j].ids ==> stores[i].slots[e] != stores[j].slots[f])
  }

  /** A call hands out one place twice only through shared references. */
  ghost predicate CallAliasFree(keys: seq<Key>, call: Call) {
    |keys| == |call.ptrs| &&
    forall i, j | 0 <= i < j < |keys| && call.ptrs[i] == call.ptrs[j] :: !keys[i].isMut && !keys[j].isMut
  }

  /** No join over storages of these components ever aliases. */
  ghost predicate AlwaysAliasFree(keys: seq<Key>) {
    forall stores: seq<Store>, e: Entity {:trigger Stored(keys, stores), InAll(stores, e)} ::
      Stored(keys, stores) && InAll(stores, e) ==> CallAliasFree(keys, CallFor(stores, e))
  }

  lemma {:induction false} NoConflictNoAlias(keys: seq<Key>, stores: seq<Store>, e: Entity)
    requires Stored(keys, stores) && InAll(stores, e) && !StaticConflict(keys)
    ensures CallAliasFree(keys, CallFor(stores, e))
  {
    var call := CallFor(stores, e);
    forall i, j | 0 <= i < j < |keys| && call.ptrs[i] == call.ptrs[j] ensures !keys[i].isMut && !keys[j].isMut {
      assert e in stores[i].ids && e in stores[j].ids;
      assert keys[i].SameId(keys[j]);
      assert !ConflictAt(keys, j);
      assert !ConflictPair(keys, i, j);
    }
  }

  /** Position of the first key with the id of key `i`. */
  function FirstSame(keys: seq<Key>, i: nat, from: nat): (k: nat)
    requires from <= i < |keys|
    ensures from <= k <= i && keys[k].SameId(keys[i])
    ensures forall l | from <= l < k :: !keys[l].SameId(keys[i])
    decreases i - from
  {
    if keys[from].SameId(keys[i]) then from else FirstSame(keys, i, from + 1)
  }

  /** Storages of one entity, one place for each component. */
  lemma {:induction false} OneEntity(keys: seq<Key>) returns (stores: seq<Store>)
    ensures Stored(keys, stores) && InAll(stores, 0)
  {
    stores := seq(|keys|, i requires 0 <= i < |keys| => Store([0], map[0 := FirstSame(keys, i, 0) + 1]));
    forall i, j | 0 <= i < |keys| && 0 <= j < |keys|
      ensures keys[i].SameId(keys[j]) <==> FirstSame(keys, i, 0) == FirstSame(keys, j, 0)
    {
    }
  }

  /**
   * The join compares no pointers and takes no locks: it never hands out one place mutably twice
   * if and only if no component is named twice with a mutable side.
   */
  lemma {:induction false} AliasFreeIff(keys: seq<Key>)
    ensures AlwaysAliasFree(keys) <==> !StaticConflict(keys)
  {
    if StaticConflict(keys) {
      var i :| 0 <= i < |keys| && ConflictAt(keys, i);
      var j :| 0 <= j < i && ConflictPair(keys, j, i);
      var stores := OneEntity(keys);
      var call := CallFor(stores, 0);
      assert stores[j] == stores[i];
      assert call.ptrs[j] == call.ptrs[i];
      assert !CallAliasFree(keys, call);
    } else {
      forall stores: seq<Store>, e: Entity | Stored(keys, stores) && InAll(stores, e)
        ensures CallAliasFree(keys, CallFor(stores, e))
      {
        NoConflictNoAlias(keys, stores, e);
      }
    }
  }

  /** Every reported call of such a tuple is alias-free. */
  lemma {:induction false} JoinIsAliasFree(
    keys: seq<Key>, stores: seq<Store>, queryable: set<Entity>, calls: seq<Call>)
    requires Stored(keys, stores) && IsJoin(stores, queryable, calls) && !StaticConflict(keys)
    ensures forall i | 0 <= i < |calls| :: CallAliasFree(keys, calls[i])
  {
    forall i | 0 <= i < |calls| ensures CallAliasFree(keys, calls[i]) {
      NoConflictNoAlias(keys, stores, calls[i].entity);
    }
  }

  // ----- The loops -----------------------------------------------------------------------

  ghost predicate AllValid(sets: seq<SparseSet>)
    reads sets
  {
    forall f | 0 <= f < |sets| :: sets[f].Valid()
  }

  ghost function Views(sets: seq<SparseSet>): (stores: seq<Store>)
    requires AllValid(sets)
    reads sets
    ensures |stores| == |sets| && WellFormed(stores)
    ensures forall f | 0 <= f < |sets| :: stores[f] == sets[f].View()
  {
    seq(|sets|, f requires 0 <= f < |sets| reads sets requires sets[f].Valid() => sets[f].View())
  }

  const MAX_TERMS := 32

  method ChooseLead(sets: seq<SparseSet>) returns (lead: nat)
    requires |sets| > 0 && AllValid(sets)
    ensures IsLead(Views(sets), lead)
    ensures lead < |sets| && forall f | 0 <= f < |sets| :: sets[lead].count <= sets[f].count
    ensures forall f | 0 <= f < lead :: sets[lead].count < sets[f].count
  {
    lead := 0;
    for f := 1 to |sets|
      invariant lead < f
      invariant forall g | 0 <= g < f :: sets[lead].count <= sets[g].count
      invariant forall g | 0 <= g < lead :: sets[lead].count < sets[g].count
    {
      if sets[f].count < sets[lead].count {
        lead := f;
      }
    }
  }

  /** Fetches the values of `e` into `ptrs`, stopping at the first storage without one. */
  method Probe(sets: seq<SparseSet>, lead: nat, e: Entity, ptrs: array<Ptr>) returns (found: bool)
    requires lead < |sets| <= ptrs.Length && AllValid(sets)
    requires e in sets[lead].Ids()
    modifies ptrs
    ensures found <==> InAll(Views(sets), e)
    ensures found ==> ptrs[..|sets|] == CallFor(Views(sets), e).ptrs
  {
    var n := |sets|;
    for f := 0 to n
      invariant forall g | 0 <= g < f :: e in sets[g].Ids() && ptrs[g] == sets[g].slots[e]
    {
      var ptr := sets[f].GetWithCheck(e, f != lead);
      if ptr == 0 {
        assert sets[f].View().WellFormed();
        assert e !in Views(sets)[f].ids;
        return false;
      }
      ptrs[f] := ptr;
    }
    assert InAll(Views(sets), e);
    return true;
  }

  lemma {:induction false} CallsStep(stores: seq<Store>, queryable: set<Entity>, ids: seq<Entity>, i: nat)
    requires WellFormed(stores) && i < |ids|
    ensures Calls(stores, queryable, ids[..i + 1]) ==
      Calls(stores, queryable, ids[..i]) + if Matches(stores, queryable, ids[i]) then [CallFor(stores, ids[i])] else []
  {
    assert ids[..i + 1][..i] == ids[..i];
  }

  /** Walks the dense array of the leading storage; `ptrs` is reused from entity to entity. */
  method EachLed(sets: seq<SparseSet>, lead: nat, queryable: set<Entity>) returns (calls: seq<Call>)
    requires lead < |sets| <= MAX_TERMS && AllValid(sets)
    ensures calls == Calls(Views(sets), queryable, Views(sets)[lead].ids)
  {
    ghost var stores := Views(sets);
    var entities := sets[lead].Ids();
    var ptrs := new Ptr[MAX_TERMS](_ => 0);
    calls := [];
    for i := 0 to |entities|
      invariant Views(sets) == stores
      invariant calls == Calls(stores, queryable, entities[..i])
    {
      var e := entities[i];
      var found := Probe(sets, lead, e, ptrs);
      CallsStep(stores, queryable, entities, i);
      if !found {
        continue;
      }
      if e !in queryable {
        continue;
      }
      calls := calls + [Call(e, ptrs[..|sets|])];
    }
    assert entities[..|entities|] == entities;
  }

  /**
   * The body of `each`: the callback trace for storages in tuple order, null where a component
   * has none. `queryable` is the set of entities whose table is not filtered out by its flags.
   */
  method EachImpl(storages: seq<SparseSet?>, queryable: set<Entity>) returns (calls: seq<Call>)
    requires 0 < |storages| <= MAX_TERMS
    requires forall s | s in storages && s != null :: s.Valid()
    ensures null in storages ==> calls == []
    ensures null !in storages ==>
              var sets: seq<SparseSet> := storages;
              && IsJoin(Views(sets), queryable, calls)
              && (forall i | 0 <= i < |calls| ::
                    calls[i].entity in queryable && |calls[i].ptrs| == |sets|)
              && (forall i, f | 0 <= i < |calls| && 0 <= f < |sets| ::
                    calls[i].entity in Views(sets)[f].ids &&
                    calls[i].ptrs[f] == Views(sets)[f].slots[calls[i].entity])
              && exists lead | 0 <= lead < |sets| ::
                   IsLead(Views(sets), lead) && calls == Calls(Views(sets), queryable, Views(sets)[lead].ids)
  {
    calls := [];
    var sets: seq<SparseSet> := [];
    for f := 0 to |storages|
      invariant |sets| == f && null !in storages[..f]
      invariant forall g | 0 <= g < f :: sets[g] == storages[g]
    {
      if storages[f] == null {
        return;
      }
      sets := sets + [storages[f]];
    }
    assert sets == storages;
    assert AllValid(sets);
    var lead := ChooseLead(sets);
    calls := EachLed(sets, lead, queryable);
    AnyLeadJoins(Views(sets), queryable, lead);
    JoinIs(Views(sets), queryable, calls);
  }

  /** The number of calls is the size of the intersection. */
  method Count(storages: seq<SparseSet?>, queryable: set<Entity>) returns (result: nat)
    requires 0 < |storages| <= MAX_TERMS
    requires forall s | s in storages && s != null :: s.Valid()
    ensures null in storages ==> result == 0
    ensures null !in storages ==>
              var sets: seq<SparseSet> := storages;
              var stores := Views(sets);
              result ==
                |set e | e in stores[0].ids && e in queryable && (forall f | 0 <= f < |stores| :: e in stores[f].ids)|
  {
    var calls := EachImpl(storages, queryable);
    result := |calls|;
    if null !in storages {
      var sets: seq<SparseSet> := storages;
      JoinSize(Views(sets), queryable, calls);
    }
  }
}
