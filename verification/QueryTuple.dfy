/**
 * Per-table population of a query tuple (flecs_ecs/src/core/query_tuple.rs).
 *
 * One pass over the terms fetches each field pointer, rejects aliasing mutable access, and
 * scatters every term's lock target into an array of four segments with running counters.
 * The alias check is skipped when the keys alone show that it cannot fail.
 */
module QueryTuple {
  import opened TupleAlias

  /** One tuple element: `&T`, `&mut T`, `Option<&T>` or `Option<&mut T>`. */
  datatype Term = Term(key: Key, optional: bool) {
    predicate Immutable() { !key.isMut }

    function Kind(): Kind {
      if Immutable() then (if optional then OptImmut else Immut)
      else (if optional then OptMut else Mut)
    }
  }

  datatype Kind = Immut | Mut | OptImmut | OptMut

  /** Where the lock of a term lives; a set component id marks a row term, table 0 is null. */
  datatype TableColumnSafety = TableColumnSafety(componentId: Id, table: nat, column: int)

  const NO_RECORD := TableColumnSafety(Zero, 0, -1)

  /** What one step of the C iterator says about each field. Pointer 0 is null. */
  datatype Iter = Iter(
    refOrUpFields: bool,
    rowFields: seq<bool>,
    ids: seq<Id>,
    sources: seq<nat>,
    ptrs: seq<nat>,
    columns: seq<(nat, int)>)
  {
    predicate Covers(n: nat) {
      && |rowFields| == |ids| == |sources| == |ptrs| == |columns| == n
      && forall i | 0 <= i < n && rowFields[i] :: ids[i] != Zero
    }
  }

  function Keys(terms: seq<Term>): (keys: seq<Key>)
    ensures |keys| == |terms|
    ensures forall i | 0 <= i < |terms| :: keys[i] == terms[i].key
  {
    seq(|terms|, i requires 0 <= i < |terms| => terms[i].key)
  }

  // ----- Aliasing ---------------------------------------------------------------------

  predicate RowTerm(it: Iter, rows: bool, i: nat)
    requires i < |it.rowFields|
  {
    rows && it.rowFields[i]
  }

  /** Two terms hand out the same data and at least one of them hands it out mutably. */
  predicate Clash(terms: seq<Term>, it: Iter, rows: bool, j: nat, i: nat)
    requires it.Covers(|terms|) && i < |terms| && j < |terms|
  {
    && !(terms[i].Immutable() && terms[j].Immutable())
    && if RowTerm(it, rows, j) then
         RowTerm(it, rows, i) && it.ids[j] == it.ids[i] && it.sources[j] == it.sources[i]
       else
         !RowTerm(it, rows, i) && it.ptrs[i] != 0 && it.ptrs[j] == it.ptrs[i]
  }

  ghost predicate ClashWith(terms: seq<Term>, it: Iter, rows: bool, i: nat)
    requires it.Covers(|terms|) && i < |terms|
  {
    exists j | 0 <= j < i :: Clash(terms, it, rows, j, i)
  }

  ghost predicate ClashBefore(terms: seq<Term>, it: Iter, rows: bool, n: nat)
    requires it.Covers(|terms|) && n <= |terms|
  {
    exists i | 0 <= i < n :: ClashWith(terms, it, rows, i)
  }

  /** No clash: columns behind one pointer, and rows of one component and source, are all shared. */
  lemma {:induction false} NoClashIff(terms: seq<Term>, it: Iter, rows: bool)
    requires it.Covers(|terms|)
    ensures !ClashBefore(terms, it, rows, |terms|) <==>
      && (forall j, i | 0 <= j < i < |terms| && !(rows && it.rowFields[j]) && !(rows && it.rowFields[i])
                        && it.ptrs[j] == it.ptrs[i] != 0 ::
            !terms[j].key.isMut && !terms[i].key.isMut)
      && (forall j, i | 0 <= j < i < |terms| && rows && it.rowFields[j] && it.rowFields[i]
                        && it.ids[j] == it.ids[i] && it.sources[j] == it.sources[i] ::
            !terms[j].key.isMut && !terms[i].key.isMut)
  {
    forall j, i | 0 <= j < i < |terms|
      ensures Clash(terms, it, rows, j, i) <==>
        && (terms[j].key.isMut || terms[i].key.isMut)
        && if rows && (it.rowFields[i] || it.rowFields[j]) then
             it.rowFields[j] && it.rowFields[i] && it.ids[j] == it.ids[i] && it.sources[j] == it.sources[i]
           else it.ptrs[j] == it.ptrs[i] != 0
    {
    }
    if i :| 0 <= i < |terms| && ClashWith(terms, it, rows, i) {
      var j :| 0 <= j < i && Clash(terms, it, rows, j, i);
    } else {
      forall j, i | 0 <= j < i < |terms| ensures !Clash(terms, it, rows, j, i) {
        assert !ClashWith(terms, it, rows, i);
      }
    }
  }

  /**
   * How keys and storage are related at run time: a term that yields data resolved to an id
   * its key stands for, and different ids are stored in different places.
   */
  ghost predicate Resolution(terms: seq<Term>, it: Iter, rows: bool)
    requires it.Covers(|terms|)
  {
    && (forall i | 0 <= i < |terms| && (RowTerm(it, rows, i) || it.ptrs[i] != 0) ::
          Resolves(terms[i].key, it.ids[i]))
    && (forall i, j | 0 <= j < i < |terms| && !RowTerm(it, rows, i) && !RowTerm(it, rows, j)
                      && it.ptrs[i] != 0 && it.ptrs[j] == it.ptrs[i] ::
          it.ids[j] == it.ids[i])
  }

  /** When the keys say that no check is needed, no two terms of any matched table clash. */
  lemma {:induction false} SkippingIsSound(terms: seq<Term>, it: Iter, rows: bool)
    requires it.Covers(|terms|) && Resolution(terms, it, rows)
    requires !CheckNeeded(Keys(terms))
    ensures !ClashBefore(terms, it, rows, |terms|)
  {
    if i :| 0 <= i < |terms| && ClashWith(terms, it, rows, i) {
      var j :| 0 <= j < i && Clash(terms, it, rows, j, i);
      assert it.ids[j] == it.ids[i];
      assert Resolves(terms[j].key, it.ids[i]) && Resolves(terms[i].key, it.ids[i]);
      CouldAliasExact(terms[j].key, terms[i].key);
      assert AliasPair(Keys(terms), j, i);
    }
  }

  // ----- Scatter ----------------------------------------------------------------------

  function RecordOf(it: Iter, rows: bool, i: nat): TableColumnSafety
    requires |it.rowFields| == |it.ids| == |it.columns| && i < |it.ids|
  {
    TableColumnSafety(if RowTerm(it, rows, i) then it.ids[i] else Zero, it.columns[i].0, it.columns[i].1)
  }

  function Count(terms: seq<Term>, k: Kind, n: nat): nat
    requires n <= |terms|
  {
    if n == 0 then 0
    else Count(terms, k, n - 1) + if terms[n - 1].Kind() == k then 1 else 0
  }

  function CountOf(terms: seq<Term>, k: Kind): nat {
    Count(terms, k, |terms|)
  }

  /** First slot of each segment, as the compile-time constants add up. */
  function Base(terms: seq<Term>, k: Kind): nat {
    match k
    case Immut => 0
    case Mut => CountOf(terms, Immut)
    case OptImmut => CountOf(terms, Immut) + CountOf(terms, Mut)
    case OptMut => CountOf(terms, Immut) + CountOf(terms, Mut) + CountOf(terms, OptImmut)
  }

  /** The slot term `i` is written to. */
  function Slot(terms: seq<Term>, i: nat): nat
    requires i < |terms|
  {
    Base(terms, terms[i].Kind()) + Count(terms, terms[i].Kind(), i)
  }

  lemma {:induction false} CountMonotonic(terms: seq<Term>, k: Kind, m: nat, n: nat)
    requires m <= n <= |terms|
    ensures Count(terms, k, m) <= Count(terms, k, n)
  {
    if m < n { CountMonotonic(terms, k, m, n - 1); }
  }

  lemma {:induction false} CountsAddUp(terms: seq<Term>, n: nat)
    requires n <= |terms|
    ensures Count(terms, Immut, n) + Count(terms, Mut, n) + Count(terms, OptImmut, n) + Count(terms, OptMut, n) == n
  {
    if n > 0 { CountsAddUp(terms, n - 1); }
  }

  /** A term's slot lies inside the segment of its kind, hence inside the array. */
  lemma {:induction false} SlotInSegment(terms: seq<Term>, i: nat)
    requires i < |terms|
    ensures var k := terms[i].Kind();
            Base(terms, k) <= Slot(terms, i) < Base(terms, k) + CountOf(terms, k) <= |terms|
  {
    CountMonotonic(terms, terms[i].Kind(), i + 1, |terms|);
    CountsAddUp(terms, |terms|);
  }

  /** No two terms share a slot; with `SlotInSegment`, the scatter is a permutation. */
  lemma {:induction false} SlotsDistinct(terms: seq<Term>, i: nat, j: nat)
    requires i < j < |terms|
    ensures Slot(terms, i) != Slot(terms, j)
  {
    SlotInSegment(terms, i);
    SlotInSegment(terms, j);
    CountMonotonic(terms, terms[i].Kind(), i + 1, j);
  }

  /** Terms before `n` have written their slot, the slots of the others are untouched. */
  ghost predicate Scattered(recs: seq<TableColumnSafety>, terms: seq<Term>, it: Iter, rows: bool, n: nat)
    requires it.Covers(|terms|) && n <= |terms|
  {
    && |recs| == |terms|
    && forall i {:trigger Slot(terms, i)} | 0 <= i < |terms| ::
         Slot(terms, i) < |recs| && recs[Slot(terms, i)] == if i < n then RecordOf(it, rows, i) else NO_RECORD
  }

  lemma {:induction false} NothingScattered(recs: seq<TableColumnSafety>, terms: seq<Term>, it: Iter, rows: bool)
    requires it.Covers(|terms|) && |recs| == |terms|
    requires forall s | 0 <= s < |recs| :: recs[s] == NO_RECORD
    ensures Scattered(recs, terms, it, rows, 0)
  {
    forall i | 0 <= i < |terms| ensures Slot(terms, i) < |recs| {
      SlotInSegment(terms, i);
    }
  }

  lemma {:induction false} ScatterStep(recs: seq<TableColumnSafety>, terms: seq<Term>, it: Iter, rows: bool, n: nat)
    requires it.Covers(|terms|) && n < |terms| && Scattered(recs, terms, it, rows, n)
    ensures Scattered(recs[Slot(terms, n) := RecordOf(it, rows, n)], terms, it, rows, n + 1)
  {
    forall i | 0 <= i < |terms| && i != n ensures Slot(terms, i) != Slot(terms, n) {
      if i < n { SlotsDistinct(terms, i, n); } else { SlotsDistinct(terms, n, i); }
    }
  }

  lemma {:induction false} SegmentFits(terms: seq<Term>, k: Kind, n: nat)
    requires n <= |terms|
    ensures Base(terms, k) + Count(terms, k, n) <= |terms|
  {
    CountsAddUp(terms, |terms|);
    CountMonotonic(terms, k, n, |terms|);
  }

  /** The four running write positions. */
  datatype Cursors = Cursors(immut: nat, mut: nat, optImmut: nat, optMut: nat) {
    function At(k: Kind): nat {
      match k
      case Immut => immut
      case Mut => mut
      case OptImmut => optImmut
      case OptMut => optMut
    }

    function Advance(k: Kind): (c: Cursors)
      ensures forall l: Kind :: c.At(l) == At(l) + if l == k then 1 else 0
    {
      match k
      case Immut => this.(immut := immut + 1)
      case Mut => this.(mut := mut + 1)
      case OptImmut => this.(optImmut := optImmut + 1)
      case OptMut => this.(optMut := optMut + 1)
    }
  }

  /** Each segment's cursor starts at the segment's first slot. */
  function FirstCursors(terms: seq<Term>): Cursors {
    Cursors(Base(terms, Immut), Base(terms, Mut), Base(terms, OptImmut), Base(terms, OptMut))
  }

  ghost predicate CursorsAt(c: Cursors, terms: seq<Term>, n: nat)
    requires n <= |terms|
  {
    forall k: Kind {:trigger c.At(k)} :: c.At(k) == Base(terms, k) + Count(terms, k, n)
  }

  // ----- The populate loops -----------------------------------------------------------

  datatype IsAnyArray = IsAnyArray(aRef: bool, aRow: bool)

  /** The pass's own notes about the first `n` terms: mutability, and id and source of row terms. */
  datatype Notes = Notes(mutFlags: seq<bool>, rowIds: seq<Id>, rowSrcs: seq<nat>) {
    ghost predicate Valid(n: nat) {
      |mutFlags| == |rowIds| == |rowSrcs| == n
    }

    ghost predicate Track(terms: seq<Term>, it: Iter, rows: bool, n: nat)
      requires it.Covers(|terms|) && n <= |terms|
    {
      && Valid(|terms|)
      && forall i | 0 <= i < n ::
           && mutFlags[i] == !terms[i].Immutable()
           && if RowTerm(it, rows, i) then rowIds[i] == it.ids[i] && rowSrcs[i] == it.sources[i]
              else rowIds[i] == Zero
    }
  }

  function BlankNotes(n: nat): Notes {
    Notes(seq(n, _ => false), seq(n, _ => Zero), seq(n, _ => 0))
  }

  /** The comparison made against term `j` when a row term is added. */
  predicate RowMatch(notes: Notes, j: nat, id: Id, source: nat, immutable: bool)
    requires notes.Valid(|notes.mutFlags|) && j < |notes.mutFlags|
  {
    notes.rowIds[j] == id && notes.rowSrcs[j] == source && !(immutable && !notes.mutFlags[j])
  }

  /** The comparison made against term `j` when a column term is added. */
  predicate ColumnMatch(components: seq<nat>, notes: Notes, j: nat, ptr: nat, immutable: bool)
    requires j < |components| == |notes.mutFlags|
  {
    components[j] == ptr && !(immutable && !notes.mutFlags[j])
  }

  lemma {:induction false} RowMatchIsClash(terms: seq<Term>, it: Iter, notes: Notes, i: nat)
    requires it.Covers(|terms|) && i < |terms| && notes.Track(terms, it, true, i) && RowTerm(it, true, i)
    ensures (exists j | 0 <= j < i :: RowMatch(notes, j, it.ids[i], it.sources[i], terms[i].Immutable()))
            <==> ClashWith(terms, it, true, i)
  {
    forall j | 0 <= j < i
      ensures RowMatch(notes, j, it.ids[i], it.sources[i], terms[i].Immutable()) <==> Clash(terms, it, true, j, i)
    {
    }
    if j :| 0 <= j < i && RowMatch(notes, j, it.ids[i], it.sources[i], terms[i].Immutable()) {
      assert Clash(terms, it, true, j, i);
    }
  }

  lemma {:induction false} ColumnMatchIsClash(
    terms: seq<Term>, it: Iter, rows: bool, components: seq<nat>, notes: Notes, i: nat)
    requires it.Covers(|terms|) && i < |terms| == |components| && notes.Track(terms, it, rows, i)
    requires !RowTerm(it, rows, i)
    requires forall j | 0 <= j < i :: components[j] == if RowTerm(it, rows, j) then 0 else it.ptrs[j]
    ensures ClashWith(terms, it, rows, i) <==>
      && it.ptrs[i] != 0
      && exists j | 0 <= j < i :: ColumnMatch(components, notes, j, it.ptrs[i], terms[i].Immutable())
  {
    forall j | 0 <= j < i
      ensures it.ptrs[i] != 0 && ColumnMatch(components, notes, j, it.ptrs[i], terms[i].Immutable())
              <==> Clash(terms, it, rows, j, i)
    {
    }
    if j :| 0 <= j < i && it.ptrs[i] != 0 && ColumnMatch(components, notes, j, it.ptrs[i], terms[i].Immutable()) {
      assert Clash(terms, it, rows, j, i);
    }
  }

  ghost predicate AnyRow(it: Iter, n: nat)
    requires n <= |it.rowFields|
  {
    exists i | 0 <= i < n :: it.rowFields[i]
  }

  ghost predicate AnyRef(it: Iter, n: nat)
    requires n <= |it.rowFields| == |it.sources|
  {
    exists i | 0 <= i < n :: it.rowFields[i] || it.sources[i] != 0
  }

  lemma {:induction false} AnyStep(it: Iter, n: nat)
    requires n < |it.rowFields| == |it.sources|
    ensures AnyRow(it, n + 1) <==> AnyRow(it, n) || it.rowFields[n]
    ensures AnyRef(it, n + 1) <==> AnyRef(it, n) || it.rowFields[n] || it.sources[n] != 0
  {
  }

  lemma {:induction false} ClashStep(terms: seq<Term>, it: Iter, rows: bool, n: nat)
    requires it.Covers(|terms|) && n < |terms|
    ensures ClashBefore(terms, it, rows, n + 1) <==> ClashBefore(terms, it, rows, n) || ClashWith(terms, it, rows, n)
  {
  }

  class ComponentsData {
    const components: array<nat>
    const isRef: array<bool>
    const isRow: array<bool>
    const indexes: array<int>
    const records: array<TableColumnSafety>

    ghost predicate Valid(n: nat) {
      && components.Length == isRef.Length == isRow.Length == indexes.Length == records.Length == n
      && isRef != isRow
    }

    /** Everything null or false, as before population. */
    ghost predicate Blank()
      reads components, isRef, isRow, indexes, records
    {
      && (forall i | 0 <= i < components.Length :: components[i] == 0)
      && (forall i | 0 <= i < isRef.Length :: !isRef[i])
      && (forall i | 0 <= i < isRow.Length :: !isRow[i])
      && (forall i | 0 <= i < indexes.Length :: indexes[i] == 0)
      && (forall i | 0 <= i < records.Length :: records[i] == NO_RECORD)
    }

    /** The first `n` terms are stored the way callbacks read them back. */
    ghost predicate Holds(it: Iter, rows: bool, n: nat)
      requires it.Covers(components.Length) && Valid(components.Length) && n <= components.Length
      reads components, isRef, isRow, indexes
    {
      forall i | 0 <= i < n ::
        && components[i] == (if rows && it.rowFields[i] then 0 else it.ptrs[i])
        && isRow[i] == (rows && it.rowFields[i])
        && isRef[i] == (rows && (it.rowFields[i] || it.sources[i] != 0))
        && indexes[i] == (if rows && it.rowFields[i] then i else 0)
    }

    constructor (n: nat)
      ensures Valid(n) && Blank()
      ensures fresh(components) && fresh(isRef) && fresh(isRow) && fresh(indexes) && fresh(records)
    {
      components := new nat[n](_ => 0);
      isRef := new bool[n](_ => false);
      isRow := new bool[n](_ => false);
      indexes := new int[n](_ => 0);
      records := new TableColumnSafety[n](_ => NO_RECORD);
    }

    /** Whether an earlier row term already hands out the component `id` of `source`. */
    static method RowAliases(notes: Notes, index: nat, id: Id, source: nat, immutable: bool) returns (clash: bool)
      requires notes.Valid(|notes.mutFlags|) && index <= |notes.mutFlags|
      ensures clash <==> exists j | 0 <= j < index :: RowMatch(notes, j, id, source, immutable)
    {
      var j := 0;
      while j < index
        invariant 0 <= j <= index
        invariant forall k | 0 <= k < j :: !RowMatch(notes, k, id, source, immutable)
      {
        if !(notes.rowIds[j] != id || notes.rowSrcs[j] != source || (immutable && !notes.mutFlags[j])) {
          assert RowMatch(notes, j, id, source, immutable);
          return true;
        }
        j := j + 1;
      }
      return false;
    }

    /** Whether an earlier term already hands out the column behind `ptr`. */
    method ColumnAliases(notes: Notes, index: nat, ptr: nat, immutable: bool) returns (clash: bool)
      requires index <= components.Length == |notes.mutFlags|
      ensures clash <==> exists j | 0 <= j < index :: ColumnMatch(components[..], notes, j, ptr, immutable)
    {
      var j := 0;
      while j < index
        invariant 0 <= j <= index
        invariant forall k | 0 <= k < j :: !ColumnMatch(components[..], notes, k, ptr, immutable)
      {
        if !(components[j] != ptr || (immutable && !notes.mutFlags[j])) {
          assert ColumnMatch(components[..], notes, j, ptr, immutable);
          return true;
        }
        j := j + 1;
      }
      return false;
    }

    /** Scatter of one term: write its lock target at the cursor of its kind and advance that cursor. */
    method StoreTarget(terms: seq<Term>, it: Iter, rows: bool, index: nat, cursors: Cursors)
      returns (advanced: Cursors)
      requires it.Covers(|terms|) && index < |terms| && CursorsAt(cursors, terms, index)
      requires Scattered(records[..], terms, it, rows, index)
      modifies records
      ensures Scattered(records[..], terms, it, rows, index + 1)
      ensures CursorsAt(advanced, terms, index + 1)
    {
      var slot := cursors.At(terms[index].Kind());
      ScatterStep(records[..], terms, it, rows, index);
      records[slot] := records[slot].(table := it.columns[index].0, column := it.columns[index].1);
      if rows && it.rowFields[index] {
        records[slot] := records[slot].(componentId := it.ids[index]);
      }
      assert records[..] == old(records[..])[slot := RecordOf(it, rows, index)];
      advanced := cursors.Advance(terms[index].Kind());
    }

    /** Pointer and flags of one column term, and its alias check. */
    method StoreColumn(terms: seq<Term>, it: Iter, rows: bool, notes: Notes, index: nat, check: bool)
      returns (ok: bool)
      requires Valid(|terms|) && it.Covers(|terms|) && index < |terms|
      requires !RowTerm(it, rows, index) && |notes.mutFlags| == |terms|
      requires check ==> notes.Track(terms, it, rows, index)
      requires forall j | 0 <= j < index :: components[j] == if RowTerm(it, rows, j) then 0 else it.ptrs[j]
      modifies components
      ensures components[..] == old(components[..])[index := it.ptrs[index]]
      ensures ok <==> !(check && ClashWith(terms, it, rows, index))
    {
      components[index] := it.ptrs[index];
      assert components[..] == old(components[..])[index := it.ptrs[index]];
      ok := true;
      if check {
        ColumnMatchIsClash(terms, it, rows, components[..], notes, index);
      }
      if check && it.ptrs[index] != 0 {
        var clash := ColumnAliases(notes, index, it.ptrs[index], terms[index].Immutable());
        ok := !clash;
      }
    }

    /** Flags of one row term, its entry in the notes, and its alias check. */
    method StoreRow(terms: seq<Term>, it: Iter, notes: Notes, index: nat, check: bool)
      returns (ok: bool, noted: Notes)
      requires Valid(|terms|) && it.Covers(|terms|) && index < |terms| && RowTerm(it, true, index)
      requires notes.Valid(|terms|) && notes.mutFlags[index] == !terms[index].Immutable()
      requires check ==> notes.Track(terms, it, true, index)
      modifies isRef, isRow, indexes
      ensures isRef[..] == old(isRef[..])[index := true]
      ensures isRow[..] == old(isRow[..])[index := true]
      ensures indexes[..] == old(indexes[..])[index := index]
      ensures noted.Valid(|terms|) && (check ==> noted.Track(terms, it, true, index + 1))
      ensures forall i | index < i < |terms| :: noted.rowIds[i] == notes.rowIds[i]
      ensures ok <==> !(check && ClashWith(terms, it, true, index))
    {
      isRef[index] := true;
      isRow[index] := true;
      indexes[index] := index;
      noted := notes;
      ok := true;
      if check {
        noted := noted.(
          rowIds := noted.rowIds[index := it.ids[index]],
          rowSrcs := noted.rowSrcs[index := it.sources[index]]);
        RowMatchIsClash(terms, it, noted, index);
        var clash := RowAliases(noted, index, it.ids[index], it.sources[index], terms[index].Immutable());
        ok := !clash;
      }
    }

    /** Loop invariant of both populate passes: terms before `n` are done, the others blank. */
    ghost predicate Populated(terms: seq<Term>, it: Iter, rows: bool, cursors: Cursors, n: nat)
      requires Valid(|terms|) && it.Covers(|terms|) && n <= |terms|
      reads components, isRef, isRow, indexes, records
    {
      && CursorsAt(cursors, terms, n)
      && Scattered(records[..], terms, it, rows, n)
      && Holds(it, rows, n)
      && forall i | n <= i < |terms| :: components[i] == 0 && !isRef[i] && !isRow[i] && indexes[i] == 0
    }

    lemma {:induction false} BlankIsPopulated(terms: seq<Term>, it: Iter, rows: bool)
      requires Valid(|terms|) && Blank() && it.Covers(|terms|)
      ensures Populated(terms, it, rows, FirstCursors(terms), 0)
    {
      NothingScattered(records[..], terms, it, rows);
    }

    /** All that a pass knows before term `n`; `check` says whether it compares. */
    ghost predicate Going(
      terms: seq<Term>, it: Iter, rows: bool, notes: Notes, cursors: Cursors, n: nat, check: bool)
      requires Valid(|terms|) && it.Covers(|terms|) && n <= |terms|
      reads components, isRef, isRow, indexes, records
    {
      && notes.Valid(|terms|)
      && Populated(terms, it, rows, cursors, n)
      && (check ==> notes.Track(terms, it, rows, n) && !ClashBefore(terms, it, rows, n))
      && forall i | n <= i < |terms| :: notes.rowIds[i] == Zero
    }

    lemma {:induction false} StartGoing(terms: seq<Term>, it: Iter, rows: bool, check: bool)
      requires Valid(|terms|) && Blank() && it.Covers(|terms|)
      ensures Going(terms, it, rows, BlankNotes(|terms|), FirstCursors(terms), 0, check)
    {
      BlankIsPopulated(terms, it, rows);
    }

    /** Tables with reference or up-traversal fields: row fields are kept for later lookup. */
    method PopulateArrayPtrs(terms: seq<Term>, it: Iter) returns (ok: bool, any: IsAnyArray)
      requires Valid(|terms|) && Blank() && it.Covers(|terms|)
      modifies components, isRef, isRow, indexes, records
      ensures ok <==> !(CheckNeeded(Keys(terms)) && ClashBefore(terms, it, true, |terms|))
      ensures ok ==> Holds(it, true, |terms|) && Scattered(records[..], terms, it, true, |terms|)
      ensures ok ==> any == IsAnyArray(AnyRef(it, |terms|), AnyRow(it, |terms|))
    {
      var check := NeedsRuntimeAliasCheck(Keys(terms));
      any := IsAnyArray(false, false);
      var notes, cursors := BlankNotes(|terms|), FirstCursors(terms);
      StartGoing(terms, it, true, check);
      var index := 0;
      while index < |terms|
        invariant 0 <= index <= |terms|
        invariant Going(terms, it, true, notes, cursors, index, check)
        invariant any == IsAnyArray(AnyRef(it, index), AnyRow(it, index))
      {
        ok, notes, cursors := PopulateNext(terms, it, notes, cursors, index, check);
        if !ok {
          return;
        }
        AnyStep(it, index);
        any := IsAnyArray(any.aRef || isRef[index], any.aRow || isRow[index]);
        index := index + 1;
      }
      ok := true;
    }

    /** One term of the pass, or the panic on its clash with an earlier one. */
    method PopulateNext(terms: seq<Term>, it: Iter, notes: Notes, cursors: Cursors, index: nat, check: bool)
      returns (ok: bool, noted: Notes, advanced: Cursors)
      requires Valid(|terms|) && it.Covers(|terms|) && index < |terms|
      requires Going(terms, it, true, notes, cursors, index, check)
      modifies components, isRef, isRow, indexes, records
      ensures ok ==> Going(terms, it, true, noted, advanced, index + 1, check)
      ensures ok ==> isRow[index] == it.rowFields[index]
      ensures ok ==> isRef[index] == (it.rowFields[index] || it.sources[index] != 0)
      ensures !ok ==> check && ClashBefore(terms, it, true, |terms|)
    {
      ClashStep(terms, it, true, index);
      ok, noted, advanced := PopulateTerm(terms, it, notes, cursors, index, check);
    }

    /** One unrolled step of the pass. */
    method PopulateTerm(terms: seq<Term>, it: Iter, notes: Notes, cursors: Cursors, index: nat, check: bool)
      returns (ok: bool, noted: Notes, advanced: Cursors)
      requires Valid(|terms|) && it.Covers(|terms|) && index < |terms| && notes.Valid(|terms|)
      requires Populated(terms, it, true, cursors, index)
      requires check ==> notes.Track(terms, it, true, index)
      requires forall i | index <= i < |terms| :: notes.rowIds[i] == Zero
      modifies components, isRef, isRow, indexes, records
      ensures ok <==> !(check && ClashWith(terms, it, true, index))
      ensures ok ==> Populated(terms, it, true, advanced, index + 1)
      ensures ok ==> isRow[index] == it.rowFields[index]
      ensures ok ==> isRef[index] == (it.rowFields[index] || it.sources[index] != 0)
      ensures noted.Valid(|terms|) && (check ==> noted.Track(terms, it, true, index + 1))
      ensures forall i | index < i < |terms| :: noted.rowIds[i] == Zero
    {
      advanced := StoreTarget(terms, it, true, index, cursors);
      noted := notes.(mutFlags := notes.mutFlags[index := !terms[index].Immutable()]);
      if it.rowFields[index] {
        ok, noted := StoreRow(terms, it, noted, index, check);
      } else {
        ok := StoreColumn(terms, it, true, noted, index, check);
        isRef[index] := it.sources[index] != 0;
      }
    }

    /** Tables without such fields: every term is a column, and the reference flags stay false. */
    method PopulateSelfArrayPtrs(terms: seq<Term>, it: Iter) returns (ok: bool)
      requires Valid(|terms|) && Blank() && it.Covers(|terms|)
      modifies components, records
      ensures ok <==> !(CheckNeeded(Keys(terms)) && ClashBefore(terms, it, false, |terms|))
      ensures ok ==> Holds(it, false, |terms|) && Scattered(records[..], terms, it, false, |terms|)
    {
      var check := NeedsRuntimeAliasCheck(Keys(terms));
      var notes, cursors := BlankNotes(|terms|), FirstCursors(terms);
      StartGoing(terms, it, false, check);
      var index := 0;
      while index < |terms|
        invariant 0 <= index <= |terms|
        invariant Going(terms, it, false, notes, cursors, index, check)
        invariant notes.Track(terms, it, false, index)
      {
        ok, notes, cursors := PopulateSelfNext(terms, it, notes, cursors, index, check);
        if !ok {
          return;
        }
        index := index + 1;
      }
      ok := true;
    }

    /** One term of that pass, or the panic on its clash with an earlier one. */
    method PopulateSelfNext(terms: seq<Term>, it: Iter, notes: Notes, cursors: Cursors, index: nat, check: bool)
      returns (ok: bool, noted: Notes, advanced: Cursors)
      requires Valid(|terms|) && it.Covers(|terms|) && index < |terms|
      requires Going(terms, it, false, notes, cursors, index, check) && notes.Track(terms, it, false, index)
      modifies components, records
      ensures ok ==> Going(terms, it, false, noted, advanced, index + 1, check)
      ensures noted.Track(terms, it, false, index + 1)
      ensures !ok ==> check && ClashBefore(terms, it, false, |terms|)
    {
      ClashStep(terms, it, false, index);
      ok, noted, advanced := PopulateSelfTerm(terms, it, notes, cursors, index, check);
    }

    /** One unrolled step of that pass. */
    method PopulateSelfTerm(terms: seq<Term>, it: Iter, notes: Notes, cursors: Cursors, index: nat, check: bool)
      returns (ok: bool, noted: Notes, advanced: Cursors)
      requires Valid(|terms|) && it.Covers(|terms|) && index < |terms|
      requires Populated(terms, it, false, cursors, index)
      requires notes.Track(terms, it, false, index)
      requires forall i | index <= i < |terms| :: notes.rowIds[i] == Zero
      modifies components, records
      ensures ok <==> !(check && ClashWith(terms, it, false, index))
      ensures ok ==> Populated(terms, it, false, advanced, index + 1)
      ensures noted.Track(terms, it, false, index + 1)
      ensures forall i | index < i < |terms| :: noted.rowIds[i] == Zero
    {
      noted := notes.(mutFlags := notes.mutFlags[index := !terms[index].Immutable()]);
      ok := StoreColumn(terms, it, false, noted, index, check);
      advanced := StoreTarget(terms, it, false, index, cursors);
    }

    /** What the callbacks rely on: shared data is handed out only through shared references. */
    ghost predicate AliasFree(terms: seq<Term>, it: Iter)
      requires Valid(|terms|) && it.Covers(|terms|)
      reads components, isRow
    {
      && (forall j, i | 0 <= j < i < |terms| && components[i] != 0 && components[j] == components[i] ::
            terms[j].Immutable() && terms[i].Immutable())
      && (forall j, i | 0 <= j < i < |terms| && isRow[j] && isRow[i]
                        && it.ids[j] == it.ids[i] && it.sources[j] == it.sources[i] ::
            terms[j].Immutable() && terms[i].Immutable())
    }

    lemma {:induction false} NoClashIsAliasFree(terms: seq<Term>, it: Iter, rows: bool)
      requires Valid(|terms|) && it.Covers(|terms|)
      requires Holds(it, rows, |terms|) && !ClashBefore(terms, it, rows, |terms|)
      ensures AliasFree(terms, it)
    {
      forall j, i | 0 <= j < i < |terms|
        ensures !Clash(terms, it, rows, j, i)
        ensures components[i] != 0 && components[j] == components[i] ==> terms[j].Immutable() && terms[i].Immutable()
        ensures isRow[j] && isRow[i] && it.ids[j] == it.ids[i] && it.sources[j] == it.sources[i] ==>
                  terms[j].Immutable() && terms[i].Immutable()
      {
        assert !ClashWith(terms, it, rows, i);
        assert isRow[i] == RowTerm(it, rows, i) && isRow[j] == RowTerm(it, rows, j);
      }
    }

    /**
     * Populates the arrays for one matched table; `ok` is false when the pass panics.
     * Under `Resolution` the verdict is that of the full pairwise comparison, checked or skipped.
     */
    static method New(terms: seq<Term>, it: Iter) returns (data: ComponentsData, ok: bool, any: IsAnyArray)
      requires it.Covers(|terms|)
      ensures fresh(data) && data.Valid(|terms|)
      ensures ok <==> (CheckNeeded(Keys(terms)) ==>
        && (forall j, i | 0 <= j < i < |terms| && it.ptrs[j] == it.ptrs[i] != 0
                          && !(it.refOrUpFields && it.rowFields[j]) && !(it.refOrUpFields && it.rowFields[i]) ::
              !terms[j].key.isMut && !terms[i].key.isMut)
        && (forall j, i | 0 <= j < i < |terms| && it.refOrUpFields && it.rowFields[j] && it.rowFields[i]
                          && it.ids[j] == it.ids[i] && it.sources[j] == it.sources[i] ::
              !terms[j].key.isMut && !terms[i].key.isMut))
      ensures Resolution(terms, it, it.refOrUpFields) ==>
                (ok <==> !ClashBefore(terms, it, it.refOrUpFields, |terms|))
      ensures Resolution(terms, it, it.refOrUpFields) && ok ==> data.AliasFree(terms, it)
      ensures CheckNeeded(Keys(terms)) && ok ==> data.AliasFree(terms, it)
      ensures ok ==> data.Holds(it, it.refOrUpFields, |terms|)
      ensures ok ==> Scattered(data.records[..], terms, it, it.refOrUpFields, |terms|)
      ensures ok ==> any == if it.refOrUpFields then IsAnyArray(AnyRef(it, |terms|), AnyRow(it, |terms|))
                            else IsAnyArray(false, false)
    {
      data := new ComponentsData(|terms|);
      NoClashIff(terms, it, it.refOrUpFields);
      if it.refOrUpFields {
        ok, any := data.PopulateArrayPtrs(terms, it);
      } else {
        ok := data.PopulateSelfArrayPtrs(terms, it);
        any := IsAnyArray(false, false);
      }
      if Resolution(terms, it, it.refOrUpFields) {
        FastFormRefinesFullCheck(terms, it, it.refOrUpFields);
      }
      if ok && !ClashBefore(terms, it, it.refOrUpFields, |terms|) {
        data.NoClashIsAliasFree(terms, it, it.refOrUpFields);
      }
    }
  }

  /** The verdict of the pass that may skip its comparisons equals that of comparing every pair. */
  lemma {:induction false} FastFormRefinesFullCheck(terms: seq<Term>, it: Iter, rows: bool)
    requires it.Covers(|terms|) && Resolution(terms, it, rows)
    ensures CheckNeeded(Keys(terms)) && ClashBefore(terms, it, rows, |terms|)
            <==> ClashBefore(terms, it, rows, |terms|)
  {
    if !CheckNeeded(Keys(terms)) {
      SkippingIsSound(terms, it, rows);
    }
  }
}
