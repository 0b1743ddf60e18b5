/**
 * Aliasing analysis of tuple terms (flecs_ecs/src/core/tuple_alias.rs).
 *
 * A key names the component ids a term can resolve to.  `Resolves` gives that set
 * independently of the code: a concrete part stands for one entity, a wildcard part for
 * every entity, and a wildcard that is not part of a pair for every id there is.
 */
module TupleAlias {
  import opened Wrappers

  /** A Rust `TypeId`; only the two wildcard types matter to the analysis. */
  datatype TypeId = Wildcard | Any | Concrete(entity: nat)

  /** A runtime component id; `Zero` is the raw id 0, which no component has. */
  datatype Id = Zero | Plain(entity: nat) | PairOf(relation: nat, target: nat)

  datatype Key = Key(first: TypeId, second: TypeId, isPair: bool, isMut: bool) {
    static predicate IsDynamic(id: TypeId) {
      id == Wildcard || id == Any
    }

    predicate SameId(other: Key) {
      isPair == other.isPair && first == other.first && second == other.second
    }

    predicate CouldAlias(other: Key) {
      var selfAny := !isPair && IsDynamic(first);
      var otherAny := !other.isPair && IsDynamic(other.first);
      if selfAny || otherAny then true
      else if isPair != other.isPair then false
      else
        var firstOverlap := first == other.first || IsDynamic(first) || IsDynamic(other.first);
        if !isPair then firstOverlap
        else
          var secondOverlap := second == other.second || IsDynamic(second) || IsDynamic(other.second);
          firstOverlap && secondOverlap
    }

    /** What the trait guarantees: outside pairs, `First` and `Second` are the same type. */
    predicate WellFormed() {
      !isPair ==> second == first
    }

    predicate WildcardFree() {
      !IsDynamic(first) && !IsDynamic(second)
    }
  }

  ghost predicate Covers(t: TypeId, entity: nat) {
    t == Wildcard || t == Any || t == Concrete(entity)
  }

  /** The ids a term with key `k` can match. */
  ghost predicate Resolves(k: Key, id: Id) {
    if k.isPair then
      id.PairOf? && Covers(k.first, id.relation) && Covers(k.second, id.target)
    else if k.first == Wildcard || k.first == Any then
      id != Zero
    else
      id == Plain(k.first.entity)
  }

  ghost predicate MayShareId(a: Key, b: Key) {
    exists id :: Resolves(a, id) && Resolves(b, id)
  }

  lemma {:induction false} CommonEntity(a: TypeId, b: TypeId) returns (e: nat)
    requires a == b || Key.IsDynamic(a) || Key.IsDynamic(b)
    ensures Covers(a, e) && Covers(b, e)
  {
    e := if a.Concrete? then a.entity else if b.Concrete? then b.entity else 0;
  }

  lemma {:induction false} SomeId(k: Key) returns (id: Id)
    ensures Resolves(k, id)
  {
    var e := CommonEntity(k.first, k.first);
    var f := CommonEntity(k.second, k.second);
    id := if k.isPair then PairOf(e, f) else Plain(e);
  }

  /** The type-level test is exact: no false alarm and no missed overlap. */
  lemma {:induction false} CouldAliasExact(a: Key, b: Key)
    ensures a.CouldAlias(b) <==> MayShareId(a, b)
  {
    if a.CouldAlias(b) {
      if !a.isPair && Key.IsDynamic(a.first) {
        var id := SomeId(b);
        assert Resolves(a, id) && Resolves(b, id);
      } else if !b.isPair && Key.IsDynamic(b.first) {
        var id := SomeId(a);
        assert Resolves(a, id) && Resolves(b, id);
      } else if a.isPair {
        var e := CommonEntity(a.first, b.first);
        var f := CommonEntity(a.second, b.second);
        assert Resolves(a, PairOf(e, f)) && Resolves(b, PairOf(e, f));
      } else {
        assert Resolves(a, Plain(a.first.entity)) && Resolves(b, Plain(a.first.entity));
      }
    }
  }

  ghost predicate ConflictPair(keys: seq<Key>, j: nat, i: nat)
    requires j < |keys| && i < |keys|
  {
    && keys[j].isPair == keys[i].isPair
    && keys[j].first == keys[i].first
    && keys[j].second == keys[i].second
    && (keys[i].isMut || keys[j].isMut)
  }

  ghost predicate ConflictAt(keys: seq<Key>, i: nat)
    requires i < |keys|
  {
    exists j | 0 <= j < i :: ConflictPair(keys, j, i)
  }

  ghost predicate AliasPair(keys: seq<Key>, j: nat, i: nat)
    requires j < |keys| && i < |keys|
  {
    (keys[i].isMut || keys[j].isMut) && keys[j].CouldAlias(keys[i])
  }

  ghost predicate StaticConflict(keys: seq<Key>) {
    exists i | 0 <= i < |keys| :: ConflictAt(keys, i)
  }

  ghost predicate CheckNeeded(keys: seq<Key>) {
    exists j, i | 0 <= j < i < |keys| :: AliasPair(keys, j, i)
  }

  method StaticAliasConflict(keys: seq<Key>) returns (r: Option<nat>)
    ensures r.Some? ==> r.value < |keys| && ConflictAt(keys, r.value)
    ensures r.Some? ==> forall i | 0 <= i < r.value :: !ConflictAt(keys, i)
    ensures r.None? <==> !StaticConflict(keys)
  {
    var i := 1;
    while i < |keys|
      invariant 1 <= i
      invariant forall k | 0 <= k < i && k < |keys| :: !ConflictAt(keys, k)
    {
      var j := 0;
      while j < i
        invariant 0 <= j <= i
        invariant forall k | 0 <= k < j :: !ConflictPair(keys, k, i)
      {
        if keys[j].SameId(keys[i]) && (keys[i].isMut || keys[j].isMut) {
          assert ConflictPair(keys, j, i);
          assert ConflictAt(keys, i);
          return Some(i);
        }
        j := j + 1;
      }
      i := i + 1;
    }
    return None;
  }

  method NeedsRuntimeAliasCheck(keys: seq<Key>) returns (needed: bool)
    ensures needed <==> CheckNeeded(keys)
  {
    var i := 1;
    while i < |keys|
      invariant 1 <= i
      invariant forall j, k | 0 <= j < k < i && k < |keys| :: !AliasPair(keys, j, k)
    {
      var j := 0;
      while j < i
        invariant 0 <= j <= i
        invariant forall k | 0 <= k < j :: !AliasPair(keys, k, i)
      {
        if (keys[i].isMut || keys[j].isMut) && keys[j].CouldAlias(keys[i]) {
          assert AliasPair(keys, j, i);
          return true;
        }
        j := j + 1;
      }
      i := i + 1;
    }
    return false;
  }

  /** The run-time check is needed exactly when two terms, one of them mutable, may resolve to one id. */
  lemma {:induction false} CheckNeededIffIdsMayMeet(keys: seq<Key>)
    ensures CheckNeeded(keys) <==>
            exists j, i | 0 <= j < i < |keys| ::
              (keys[i].isMut || keys[j].isMut) && MayShareId(keys[j], keys[i])
  {
    forall j, i | 0 <= j < i < |keys|
      ensures AliasPair(keys, j, i) <==> (keys[i].isMut || keys[j].isMut) && MayShareId(keys[j], keys[i])
    {
      CouldAliasExact(keys[j], keys[i]);
    }
    if CheckNeeded(keys) {
      var j, i :| 0 <= j < i < |keys| && AliasPair(keys, j, i);
      assert MayShareId(keys[j], keys[i]);
    }
    if j, i :| 0 <= j < i < |keys| && (keys[i].isMut || keys[j].isMut) && MayShareId(keys[j], keys[i]) {
      assert AliasPair(keys, j, i);
    }
  }

  /** A conflict found statically is one the run-time check would have to look for. */
  lemma {:induction false} ConflictImpliesCheck(keys: seq<Key>)
    ensures StaticConflict(keys) ==> CheckNeeded(keys)
  {
    if StaticConflict(keys) {
      var i :| 0 <= i < |keys| && ConflictAt(keys, i);
      var j :| 0 <= j < i && ConflictPair(keys, j, i);
      assert AliasPair(keys, j, i);
    }
  }

  /** Without wildcards the two analyses agree, so the static one decides the matter. */
  lemma {:induction false} AnalysesAgreeWithoutWildcards(keys: seq<Key>)
    requires forall k | k in keys :: k.WellFormed() && k.WildcardFree()
    ensures StaticConflict(keys) <==> CheckNeeded(keys)
  {
    ConflictImpliesCheck(keys);
    if CheckNeeded(keys) {
      var j, i :| 0 <= j < i < |keys| && AliasPair(keys, j, i);
      assert keys[i] in keys && keys[j] in keys;
      assert ConflictPair(keys, j, i);
      assert ConflictAt(keys, i);
    }
  }
}
