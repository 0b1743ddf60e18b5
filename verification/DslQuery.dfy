/** Correctness of a whole query: populate for the iterator type, then the emitted calls. */
module DslQuery {
  import opened Wrappers
  import opened TermBuilder
  import opened DslSyntax
  import opened Sequences
  import opened DslBuilder
  import opened DslMeaning
  import opened DslEffects
  import opened DslProgress
  import opened DslCorrect
  import opened DslScopes
  import opened DslSound

  // ----- Iterator terms ------------------------------------------------------------------

  /** What `populate` makes of an element of the iterator type. */
  function Asked(ty: IterType): Slot {
    var s := NO_SLOT.(oper := if ty.optional then OpOptional else OpAnd, inout := if ty.mutable then IoInOut else IoIn);
    match ty.target
    case WithEntity(e) => s.(first := Ref(e, {}, None))
    case WithPair(rel, target) => s.(id := PairId(rel, target))
    case WithText(rel, text) => s.(first := Ref(rel, {}, None), second := ArgRef(Text(text)))
  }

  lemma {:induction false} ElementTypeIs(t: Term)
    requires IsIterTerm(t)
    ensures IsElement(ExpandTermType(t).value, t)
  {
  }

  /** What it leaves for an iterator term. */
  function Populated(t: Term): Slot
    requires IsIterTerm(t)
  {
    Asked(ExpandTermType(t).value)
  }

  lemma {:induction false} RunPopulate(m: Machine, generic: nat, slots: seq<Slot>, ty: IterType)
    requires Holds(m, generic, slots) && !ty.target.WithText?
    ensures var r := PopulateOne(m, ty);
      && (r.Some? <==> |slots| < TERM_COUNT_MAX)
      && (r.Some? ==> Holds(r.value, generic, slots + [Asked(ty)]) && r.value.mode == m.mode)
  {
    if |slots| < TERM_COUNT_MAX {
      OpenedHolds(m, generic, slots, NO_SLOT, m.mode);
      OpenedHolds(m, generic, slots, Asked(ty), m.mode);
      var s := Asked(ty).(oper := OpAnd);
      OpenedAt(m, NO_SLOT, m.mode, s.(inout := IoDefault), m.mode);
      OpenedAt(m, s.(inout := IoDefault), m.mode, s, m.mode);
      OpenedAt(m, s, m.mode, Asked(ty), m.mode);
    }
  }

  function AskedAll(types: seq<IterType>): (slots: seq<Slot>)
    ensures |slots| == |types|
  {
    seq(|types|, k requires 0 <= k < |types| => Asked(types[k]))
  }

  lemma {:induction false} PopulateCorrect(m: Machine, generic: nat, slots: seq<Slot>, types: seq<IterType>)
    requires Holds(m, generic, slots) && forall k :: 0 <= k < |types| ==> !types[k].target.WithText?
    ensures var r := Populate(m, types);
      && (r.Some? <==> |slots| + |types| <= TERM_COUNT_MAX)
      && (r.Some? ==> Holds(r.value, generic, slots + AskedAll(types)) && r.value.mode == m.mode)
    decreases |types|
  {
    if types == [] {
      assert slots + AskedAll(types) == slots;
    } else {
      RunPopulate(m, generic, slots, types[0]);
      var n := PopulateOne(m, types[0]);
      if n.Some? {
        PopulateCorrect(n.value, generic, slots + [Asked(types[0])], types[1..]);
        assert slots + [Asked(types[0])] + AskedAll(types[1..]) == slots + AskedAll(types);
      }
    }
  }

  predicate BothTraversed(t: Term) {
    t.ty.Pair? && t.ty.first.HasTrav() && t.ty.second.HasTrav()
  }

  /** On an iterator term, selecting the second element after the first panics. */
  lemma {:induction false} BothTraversedPanics(m: Machine, t: Term)
    requires BothTraversed(t) && IsIterTerm(t)
    requires m.current < m.generic && m.current < |m.terms| == TERM_COUNT_MAX && m.mode == OnSrc
    ensures m.Run(ExpandType(t, true)).None?
  {
    RunAgrees(m, ExpandType(t, true));
    PassIterType(ControlOf(m), t);
  }

  function IterTypeSlot(t: Term): Slot
    requires IsIterTerm(t)
  {
    match t.ty
    case Pair(f, s) => Populated(t).(first := WithTrav(NO_REF, f), second := WithTrav(NO_REF, s))
    case Component(id) => Traversed(Populated(t), OnSrc, id)
    case _ => Populated(t)
  }

  lemma {:induction false} RunIterType(m: Machine, t: Term)
    requires m.current < |m.terms| && m.mode == OnSrc
    requires IsIterTerm(t) && IterGoes(t)
    requires m.Here() == Populated(t) && Sound(ExpandType(t, true))
    ensures Leaves(m, ExpandType(t, true), TypeMode(t, OnSrc), IterTypeSlot(t))
  {
    match t.ty
    case Pair(f, e) =>
      assert ExpandType(t, true) == ExpandTravOn(OnFirst, f) + ExpandTravOn(OnSecond, e);
      RunElementTravs(m, f, e);
    case Component(id) =>
      assert ExpandType(t, true) == ExpandTrav(id);
      RunTrav(m, id);
  }

  /** A slot that is the meaning of an iterator term except perhaps for its source. */
  predicate MeansButSource(s: Slot, t: Term)
    requires IsIterTerm(t)
  {
    s.(src := IterMeaning(t).src) == IterMeaning(t)
  }

  lemma {:induction false} IterRestedMeans(t: Term)
    requires IsIterTerm(t)
    ensures Rested(IterTypeSlot(t), t, true) == IterMeaning(t) <==> KeepsFlags(t)
    ensures MeansButSource(Rested(IterTypeSlot(t), t, true), t)
  {
    match t.ty
    case Pair(_, _) =>
      NoTrav(SourceRef(t));
      if t.source.ident.Some? {
        AssignedFresh(ValueOf(t.source.ident.value));
        ValueOfIsIdentRef(t.source.ident.value);
      }
    case Component(_) => SourceMeans(t);
  }

  lemma {:induction false} UpdateHolds(m: Machine, generic: nat, slots: seq<Slot>, i: nat, s: Slot, mode: Mode)
    requires Holds(m, generic, slots) && i < |slots|
    ensures
      var n := m.(current := i, mode := OnSrc);
      n.Here() == slots[i] && Holds(At(n, mode, s), generic, slots[i := s])
  {
    assert Padded(slots)[i := s] == Padded(slots[i := s]);
  }

  lemma {:induction false} RunIterOps(n: Machine, t: Term)
    requires n.current < |n.terms| && n.mode == OnSrc && IsIterTerm(t) && n.Here() == Populated(t)
    requires IterGoes(t) && Sound(IterOps(t))
    ensures Leaves(n, IterOps(t),
      if SelectsSource(t) then OnSrc else TypeMode(t, OnSrc), Rested(IterTypeSlot(t), t, true))
  {
    SoundAppend(ExpandType(t, true), ExpandRest(t, true));
    RunIterType(n, t);
    var mode, s := TypeMode(t, OnSrc), IterTypeSlot(t);
    AtAt(n, mode, s, mode, s);
    RunRest(At(n, mode, s), t, true);
    Then(n, ExpandType(t, true), mode, s,
      ExpandRest(t, true), if SelectsSource(t) then OnSrc else mode, Rested(s, t, true));
  }

  /** The calls of an iterator term go through exactly if they are sound and the builder accepts it. */
  lemma {:induction false} IterTermGoes(m: Machine, generic: nat, slots: seq<Slot>, i: nat, t: Term)
    requires Holds(m, generic, slots) && i < generic <= |slots| && IsIterTerm(t)
    ensures m.Run(ExpandLeaf(t, i, true)).Some? <==> IterTermSound(t) && IterGoes(t)
  {
    HoldsIsStanding(m, generic, slots);
    RunAgrees(m, ExpandLeaf(t, i, true));
    IterTermAdvances(ControlOf(m), t, i);
    IterTermSoundIff(t, i);
  }

  /** Calls of an iterator term touch its own slot alone, which becomes its meaning exactly if flags survive. */
  lemma {:induction false} IterTermYields(m: Machine, generic: nat, slots: seq<Slot>, i: nat, t: Term) returns (s: Slot)
    requires Holds(m, generic, slots) && i < generic <= |slots|
    requires IsIterTerm(t) && slots[i] == Populated(t) && m.Run(ExpandLeaf(t, i, true)).Some?
    ensures Holds(m.Run(ExpandLeaf(t, i, true)).value, generic, slots[i := s])
    ensures m.Run(ExpandLeaf(t, i, true)).value.mode == IterModeAfter(t, m.mode)
    ensures (s == IterMeaning(t) <==> KeepsFlags(t)) && MeansButSource(s, t)
  {
    var calls, ops := ExpandLeaf(t, i, true), IterOps(t);
    RunNeedsSound(m, calls);
    IterTermGoes(m, generic, slots, i, t);
    assert Sound(ops) by { SoundAppend([TermAt(i)], ops); }
    var n := m.(current := i, mode := OnSrc);
    s := Rested(IterTypeSlot(t), t, true);
    var mode := if SelectsSource(t) then OnSrc else TypeMode(t, OnSrc);
    UpdateHolds(m, generic, slots, i, s, mode);
    RunIterOps(n, t);
    IterRestedMeans(t);
    SilentOrAt(m, generic, slots, i, t, s, mode);
  }

  /** A term that emits no calls keeps the slot it was populated with. */
  lemma {:induction false} SilentOrAt(m: Machine, generic: nat, slots: seq<Slot>, i: nat, t: Term, s: Slot, mode: Mode)
    requires Holds(m, generic, slots) && i < generic <= |slots| && IsIterTerm(t)
    requires Leaves(m.(current := i, mode := OnSrc), IterOps(t), mode, s)
    ensures IterOps(t) == [] ==> m.Run(ExpandLeaf(t, i, true)) == Some(m) && slots[i := s] == slots
    ensures IterOps(t) != [] ==> m.Run(ExpandLeaf(t, i, true)) == Some(At(m.(current := i, mode := OnSrc), mode, s))
  {
    var n := m.(current := i, mode := OnSrc);
    if IterOps(t) == [] {
      UpdateHolds(m, generic, slots, i, slots[i], OnSrc);
      AtAt(n, mode, s, mode, s);
      assert slots[i] == s;
    }
  }

  // ----- The whole query -----------------------------------------------------------------

  lemma {:induction false} IterTypesHaveNoText(ts: seq<Term>)
    ensures forall k :: 0 <= k < Arity(ts) ==> !IterTypes(ts)[k].target.WithText?
  {
    forall k | 0 <= k < Arity(ts) ensures !IterTypes(ts)[k].target.WithText? { IterTypeHasNoText(ts[k]); }
  }

  lemma {:induction false} IterTypeHasNoText(t: Term)
    requires IsIterTerm(t)
    ensures !ExpandTermType(t).value.target.WithText?
  {
  }

  lemma {:induction false} PopulateQuery(ts: seq<Term>)
    ensures var r := Populate(Fresh(Arity(ts)), IterTypes(ts));
      && (r.Some? <==> Arity(ts) <= TERM_COUNT_MAX)
      && (r.Some? ==> Holds(r.value, Arity(ts), AskedAll(IterTypes(ts))) && r.value.mode == OnSrc)
  {
    var n := Arity(ts);
    assert Holds(Fresh(n), n, []) by { assert Fresh(n).terms == Padded([]); }
    IterTypesHaveNoText(ts);
    PopulateCorrect(Fresh(n), n, [], IterTypes(ts));
    assert [] + AskedAll(IterTypes(ts)) == AskedAll(IterTypes(ts));
  }

  /**
   * Progress, for every query: it is built without a panic if and only if it compiles, names
   * something everywhere, has at most 32 terms, and every term can be added in the reference mode
   * the terms before it leave behind.
   */
  lemma {:induction false} BuiltIff(ts: seq<Term>)
    ensures Build(ts).Some? <==> QuerySound(ts) && QueryLength(ts) <= TERM_COUNT_MAX && QueryGoes(ts)
  {
    PopulateQuery(ts);
    var m := Populate(Fresh(Arity(ts)), IterTypes(ts));
    if m.Some? {
      RunAgrees(m.value, Expand(ts));
      ExpandAdvances(ControlOf(m.value), ts);
      QuerySoundIff(ts);
    }
  }

  /** Iterator terms from `i` on still have the slots they were populated with. */
  predicate StillPopulated(ts: seq<Term>, slots: seq<Slot>, i: nat)
    requires i <= Arity(ts) == |slots|
  {
    forall k {:trigger slots[k]} :: i <= k < Arity(ts) ==> slots[k] == Populated(ts[k])
  }

  /** From `i` on, an iterator term's slot is its meaning exactly where flags survive. */
  predicate MeansWhereKept(ts: seq<Term>, slots: seq<Slot>, i: nat)
    requires i <= Arity(ts) == |slots|
  {
    forall k {:trigger slots[k]} :: i <= k < Arity(ts) ==>
      (slots[k] == IterMeaning(ts[k]) <==> KeepsFlags(ts[k])) && MeansButSource(slots[k], ts[k])
  }

  lemma {:induction false} PopulatedAt(ts: seq<Term>, slots: seq<Slot>, i: nat)
    requires i < Arity(ts) == |slots| && StillPopulated(ts, slots, i)
    ensures slots[i] == Populated(ts[i])
  {
  }

  lemma {:induction false} PopulatedStep(ts: seq<Term>, slots: seq<Slot>, i: nat, s: Slot)
    requires i < Arity(ts) == |slots| && StillPopulated(ts, slots, i)
    ensures StillPopulated(ts, slots[i := s], i + 1)
  {
    forall k | i + 1 <= k < Arity(ts) ensures slots[i := s][k] == Populated(ts[k]) {
      assert slots[i := s][k] == slots[k];
    }
  }

  /** One more iterator term's slot, in front of those that are final already. */
  lemma {:induction false} FinalStep(ts: seq<Term>, slots: seq<Slot>, i: nat, s: Slot, final: seq<Slot>)
    requires i < Arity(ts) == |slots| == |final|
    requires final[..i + 1] == slots[i := s][..i + 1] && MeansWhereKept(ts, final, i + 1)
    requires (s == IterMeaning(ts[i]) <==> KeepsFlags(ts[i])) && MeansButSource(s, ts[i])
    ensures final[..i] == slots[..i] && MeansWhereKept(ts, final, i)
  {
    assert final[i] == final[..i + 1][i] == s;
    assert final[..i] == final[..i + 1][..i];
  }

  /** The calls of iterator term `i` on an array that still has the slot it was populated with. */
  lemma {:induction false} IterPartYields(m: Machine, slots: seq<Slot>, ts: seq<Term>, i: nat) returns (s: Slot)
    requires i < Arity(ts) == |slots| && Holds(m, Arity(ts), slots) && StillPopulated(ts, slots, i)
    requires m.Run(ExpandLeaf(ts[i], i, true)).Some?
    ensures HoldsAfter(m.Run(ExpandLeaf(ts[i], i, true)), Arity(ts), slots[i := s])
    ensures m.Run(ExpandLeaf(ts[i], i, true)).value.mode == IterModeAfter(ts[i], m.mode)
    ensures (s == IterMeaning(ts[i]) <==> KeepsFlags(ts[i])) && MeansButSource(s, ts[i])
    ensures StillPopulated(ts, slots[i := s], i + 1)
  {
    PopulatedAt(ts, slots, i);
    s := IterTermYields(m, Arity(ts), slots, i, ts[i]);
    PopulatedStep(ts, slots, i, s);
  }

  lemma {:induction false} ItersYield(m: Machine, slots: seq<Slot>, ts: seq<Term>, i: nat) returns (final: seq<Slot>)
    requires i <= Arity(ts) == |slots| && Holds(m, Arity(ts), slots) && StillPopulated(ts, slots, i)
    requires m.Run(Concat(IterParts(ts)[i..])).Some?
    ensures HoldsAfter(m.Run(Concat(IterParts(ts)[i..])), Arity(ts), final)
    ensures m.Run(Concat(IterParts(ts)[i..])).value.mode == IterMode(ts, i, m.mode)
    ensures |final| == Arity(ts) && final[..i] == slots[..i] && MeansWhereKept(ts, final, i)
    decreases Arity(ts) - i
  {
    if i == Arity(ts) {
      final := slots;
    } else {
      IterPart(ts, i);
      RunSplits(m, ExpandLeaf(ts[i], i, true), Concat(IterParts(ts)[i + 1..]));
      var s := IterPartYields(m, slots, ts, i);
      final := ItersYield(m.Run(ExpandLeaf(ts[i], i, true)).value, slots[i := s], ts, i + 1);
      FinalStep(ts, slots, i, s, final);
    }
  }

  lemma {:induction false} ItersMeanIs(ts: seq<Term>, final: seq<Slot>)
    requires |final| == Arity(ts) && MeansWhereKept(ts, final, 0)
    ensures final == IterSlots(ts) <==> ItersMean(ts, 0)
  {
    if final == IterSlots(ts) {
      forall k | 0 <= k < Arity(ts) ensures KeepsFlags(ts[k]) { assert final[k] == IterSlots(ts)[k]; }
    }
  }

  lemma {:induction false} TailParsedFrom(ts: seq<Term>, i: nat)
    requires ParsedAll(ts) && i <= |ts|
    ensures ParsedAll(ts[i..])
  {
    forall k | 0 <= k < |ts| - i ensures Parsed(ts[i..][k]) { assert Parsed(ts[i + k]); }
  }

  /** What a built query's array holds: one slot a term, iterator terms first, then only empty ones. */
  lemma {:induction false} QueryYields(ts: seq<Term>, m: Machine) returns (iters: seq<Slot>, tail: seq<Slot>)
    requires ParsedAll(ts) && Build(ts) == Some(m)
    ensures Holds(m, Arity(ts), iters + tail) && |iters| == Arity(ts) && |iters + tail| == QueryLength(ts)
    ensures MeansWhereKept(ts, iters, 0)
    ensures tail == Concat(TermsSlots(ts[Arity(ts)..])) <==> AllMean(ts[Arity(ts)..], IterMode(ts, 0, OnSrc))
  {
    var n, rest := Arity(ts), ts[Arity(ts)..];
    var m0 := Populate(Fresh(n), IterTypes(ts)).value;
    var head, calls := Concat(IterParts(ts)), Concat(TermsParts(rest, n));
    PopulateQuery(ts);
    RunSplits(m0, head, calls);
    assert IterParts(ts)[0..] == IterParts(ts);
    iters := ItersYield(m0, AskedAll(IterTypes(ts)), ts, 0);
    TailParsedFrom(ts, n);
    tail := TermsYield(m0.Run(head).value, n, iters, rest, n);
  }

  /**
   * Compiler correctness, for every query: it builds exactly the array its terms denote if and
   * only if it is built without a panic and every term means what it says in the mode it finds.
   */
  lemma {:induction false} QueryCorrect(ts: seq<Term>)
    requires ParsedAll(ts)
    ensures HoldsAfter(Build(ts), Arity(ts), QuerySlots(ts)) <==>
      QuerySound(ts) && QueryLength(ts) <= TERM_COUNT_MAX && QueryGoes(ts) && QueryMeans(ts)
  {
    BuiltIff(ts);
    if Build(ts).Some? { BuiltMeansIff(ts, Build(ts).value); }
  }

  lemma {:induction false} BuiltMeansIff(ts: seq<Term>, m: Machine)
    requires ParsedAll(ts) && Build(ts) == Some(m)
    ensures Holds(m, Arity(ts), QuerySlots(ts)) <==> QueryMeans(ts)
  {
    var iters, tail := QueryYields(ts, m);
    ItersMeanIs(ts, iters);
    TermsFillWidths(ts[Arity(ts)..]);
    HoldsOne(m, Arity(ts), iters + tail, QuerySlots(ts));
    SplitEqual(iters, tail, IterSlots(ts), Concat(TermsSlots(ts[Arity(ts)..])));
  }

  /**
   * Accounting, for every query that is built: `next` ends at the number of iterator terms plus
   * the widths of the others, element `k` of the iterator is bound to slot `k`, and the slots
   * from `next` on are untouched.
   */
  lemma {:induction false} QueryWidth(ts: seq<Term>, m: Machine)
    requires ParsedAll(ts) && Build(ts) == Some(m)
    ensures m.next == QueryLength(ts) && |m.terms| == TERM_COUNT_MAX && Arity(ts) <= m.next <= TERM_COUNT_MAX
    ensures forall k :: 0 <= k < Arity(ts) ==> (m.terms[k] == IterMeaning(ts[k]) <==> KeepsFlags(ts[k]))
    ensures forall k :: m.next <= k < TERM_COUNT_MAX ==> m.terms[k] == NO_SLOT
  {
    var iters, tail := QueryYields(ts, m);
    HoldsArray(m, Arity(ts), iters + tail);
    assert forall k :: 0 <= k < Arity(ts) ==> m.terms[k] == iters[k];
  }

  /**
   * What element `k` of the iterator finds in its slot, for every query that is built: the access
   * of its reference, its optionality, and the entity or the pair it names.
   */
  lemma {:induction false} IterElementBound(ts: seq<Term>, m: Machine, k: nat)
    requires ParsedAll(ts) && Build(ts) == Some(m) && k < Arity(ts)
    ensures k < |m.terms|
    ensures ts[k].access == AccessOmitted ==>
      (m.terms[k].inout == IoInOut <==> ts[k].reference == RefMut) &&
      (m.terms[k].inout == IoIn <==> ts[k].reference == RefShared)
    ensures ts[k].access == AccessFilter ==> m.terms[k].inout == IoFilter
    ensures m.terms[k].oper == if ts[k].oper == Optional then OpOptional else OpAnd
    ensures
      match ts[k].ty
      case Component(id) =>
        m.terms[k].id == NoId && id.ident.Some? && m.terms[k].first == IdentRef(id.ident.value)
      case Pair(f, s) =>
        && f.ident.Some? && s.ident.Some?
        && m.terms[k].id.PairId?
        && m.terms[k].id.rel == IdentRef(f.ident.value).id && m.terms[k].id.target == IdentRef(s.ident.value).id
      case _ => false
  {
    var iters, tail := QueryYields(ts, m);
    HoldsArray(m, Arity(ts), iters + tail);
    assert m.terms[k] == iters[k];
    MeaningIs(iters[k], ts[k]);
  }

  lemma {:induction false} MeaningIs(s: Slot, t: Term)
    requires IsIterTerm(t) && MeansButSource(s, t)
    ensures t.access == AccessOmitted ==> s.inout == if t.reference == RefMut then IoInOut else IoIn
    ensures t.access == AccessFilter ==> s.inout == IoFilter
    ensures s.oper == if t.oper == Optional then OpOptional else OpAnd
    ensures
      match t.ty
      case Component(id) => s.id == NoId && s.first == IdentRef(id.ident.value)
      case Pair(f, e) => s.id == PairId(IdentRef(f.ident.value).id, IdentRef(e.ident.value).id)
      case _ => false
  {
  }

  lemma {:induction false} HoldsArray(m: Machine, generic: nat, slots: seq<Slot>)
    requires Holds(m, generic, slots)
    ensures |m.terms| == TERM_COUNT_MAX && m.next == |slots|
    ensures forall k :: 0 <= k < |slots| ==> m.terms[k] == slots[k]
    ensures forall k :: |slots| <= k < TERM_COUNT_MAX ==> m.terms[k] == NO_SLOT
  {
  }

  // ----- A term that fails for what stands before it --------------------------------------

  function Plain(ty: TermType): Term {
    Term(AccessOmitted, RefNone, And, NO_TERM_ID, ty)
  }

  /** A query without iterator terms is a list of terms. */
  lemma {:induction false} AllTail(ts: seq<Term>)
    requires Arity(ts) == 0
    ensures Expand(ts) == Concat(TermsParts(ts, 0)) && QueryLength(ts) == Sum(Widths(ts))
    ensures QueryGoes(ts) <==> AllGo(ts, OnSrc)
    ensures QueryMeans(ts) <==> AllMean(ts, OnSrc)
  {
    assert ts[0..] == ts && IterParts(ts) == [];
  }

  lemma {:induction false} OnePart(t: Term, from: nat)
    ensures Concat(TermsParts([t], from)) == ExpandTerm(t, from, false) && Sum(Widths([t])) == Width(t)
  {
    assert [t][1..] == [];
    HeadPart([t], from);
    HeadWidth([t]);
  }

  lemma {:induction false} AllGoTwo(a: Term, b: Term, mode: Mode)
    ensures AllGo([a], mode) <==> Goes(a, mode)
    ensures AllGo([a, b], mode) <==> Goes(a, mode) && Goes(b, ModeAfter(a, mode))
    ensures AllMean([a], mode) <==> Means(a, mode)
  {
    assert [a, b][1..] == [b] && [a][1..] == [] && [b][1..] == [];
    assert AllGo([b], ModeAfter(a, mode)) <==> Goes(b, ModeAfter(a, mode));
  }

  /** Two terms that are not scopes nor iterator terms. */
  lemma {:induction false} TwoTerms(a: Term, b: Term)
    requires a.reference == b.reference == RefNone && Width(a) == Width(b) == 1
    ensures QuerySound([a, b]) <==> TermSound(a) && TermSound(b)
    ensures QueryLength([a, b]) == 2 && (QueryGoes([a, b]) <==> Goes(a, OnSrc) && Goes(b, ModeAfter(a, OnSrc)))
  {
    assert [a, b][1..] == [b];
    NoReferenceNoArity([a, b]);
    AllTail([a, b]);
    HeadPart([a, b], 0);
    HeadWidth([a, b]);
    OnePart(b, 1);
    AllGoTwo(a, b, OnSrc);
  }

  lemma {:induction false} OneTerm(t: Term)
    requires t.reference == RefNone && Width(t) == 1
    ensures QuerySound([t]) <==> TermSound(t)
    ensures QueryLength([t]) == 1 && (QueryGoes([t]) <==> Goes(t, OnSrc)) && (QueryMeans([t]) <==> Means(t, OnSrc))
  {
    NoReferenceNoArity([t]);
    AllTail([t]);
    OnePart(t, 0);
    AllGoTwo(t, t, OnSrc);
  }

  lemma {:induction false} NoReferenceNoArity(ts: seq<Term>)
    requires ts != [] && ts[0].reference == RefNone
    ensures Arity(ts) == 0
  {
  }

  lemma {:induction false} DescPair() returns (t: Term)
    ensures t.reference == RefNone && Width(t) == 1 && TermSound(t)
    ensures Goes(t, OnSrc) && ModeAfter(t, OnSrc) == OnFirst
  {
    t := Plain(Pair(NO_TERM_ID.(ident := Some(Type(1)), travDesc := true), NO_TERM_ID.(ident := Some(Type(2)))));
  }

  lemma {:induction false} UpComponent() returns (t: Term)
    ensures t.reference == RefNone && Width(t) == 1 && TermSound(t)
    ensures Means(t, OnSrc) && forall mode :: Goes(t, mode) <==> mode == OnSrc
  {
    t := Plain(Component(NO_TERM_ID.(ident := Some(Type(3)), travUp := true)));
  }

  /** `(A desc, B), P(up)`: either term alone is built, the two in this order are not. */
  lemma {:induction false} InnocentTermPanics() returns (a: Term, b: Term)
    ensures QuerySound([a, b]) && QueryLength([a, b]) == 2 && Build([a, b]).None?
    ensures Build([a]).Some? && Build([b]).Some? && QueryMeans([b])
  {
    a := DescPair();
    b := UpComponent();
    TwoTerms(a, b);
    OneTerm(a);
    OneTerm(b);
    BuiltIff([a, b]);
    BuiltIff([a]);
    BuiltIff([b]);
  }

  // ----- Arity ---------------------------------------------------------------------------

  /** No reference on the term nor on any term inside it. */
  predicate Unreferenced(t: Term) {
    t.reference == RefNone && (t.ty.Scope? ==> forall k :: 0 <= k < |t.ty.terms| ==> Unreferenced(t.ty.terms[k]))
  }

  /** No call is a `compile_error!`. */
  predicate Compiles(calls: seq<Call>)
    decreases |calls|
  {
    calls == [] || (calls[0] != CompileError && Compiles(calls[1..]))
  }

  lemma {:induction false} CompilesAppend(a: seq<Call>, b: seq<Call>)
    ensures Compiles(a + b) <==> Compiles(a) && Compiles(b)
    decreases |a|
  {
    if a == [] {
      assert a + b == b;
    } else {
      assert (a + b)[1..] == a[1..] + b;
      CompilesAppend(a[1..], b);
    }
  }

  lemma {:induction false} PartsCompile(parts: seq<seq<Call>>)
    requires Compiles(Concat(parts))
    ensures forall k :: 0 <= k < |parts| ==> Compiles(parts[k])
    decreases |parts|
  {
    if parts != [] {
      CompilesAppend(parts[0], Concat(parts[1..]));
      PartsCompile(parts[1..]);
      assert forall k :: 1 <= k < |parts| ==> parts[k] == parts[1..][k - 1];
    }
  }

  lemma {:induction false} CompiledTermIsUnreferenced(t: Term, index: nat)
    requires Compiles(ExpandTerm(t, index, false))
    ensures Unreferenced(t)
    decreases t, 0
  {
    AccessIsLast(t, index);
    if t.ty.Scope? {
      ScopeContentsCompile(t, index);
      CompiledTermsAreUnreferenced(t.ty.terms, 0);
    }
  }

  lemma {:induction false} CompiledTermsAreUnreferenced(ts: seq<Term>, from: nat)
    requires Compiles(Concat(TermsParts(ts, from)))
    ensures forall k :: 0 <= k < |ts| ==> Unreferenced(ts[k])
    decreases ts, 1
  {
    PartsCompile(TermsParts(ts, from));
    forall k | 0 <= k < |ts| ensures Unreferenced(ts[k]) {
      PartIs(ts, from, k, ts[k], from + k);
      CompiledTermIsUnreferenced(ts[k], from + k);
    }
  }

  lemma {:induction false} ScopeContentsCompile(t: Term, index: nat)
    requires t.ty.Scope? && Compiles(ExpandTerm(t, index, false))
    ensures Compiles(Concat(TermsParts(t.ty.terms, 0)))
  {
    var head, body := [ScopeOpen] + ScopeOper(t), Concat(TermsParts(t.ty.terms, 0));
    ScopeCalls(t, index);
    CompilesAppend(head + body, [ScopeClose] + ExpandAccess(t.access, t.reference, false));
    CompilesAppend(head, body);
  }

  /** Every expansion ends with the access calls, which reject a reference. */
  lemma {:induction false} AccessIsLast(t: Term, index: nat)
    requires Compiles(ExpandTerm(t, index, false))
    ensures t.reference == RefNone
  {
    var access := ExpandAccess(t.access, t.reference, false);
    assert t.reference != RefNone ==> access[0] == CompileError;
    if t.ty.Scope? {
      ScopeCalls(t, index);
      var before := [ScopeOpen] + ScopeOper(t) + Concat(TermsParts(t.ty.terms, 0));
      CompilesAppend(before, [ScopeClose] + access);
      CompilesAppend([ScopeClose], access);
    } else {
      assert ExpandTerm(t, index, false) == ExpandTerm(t, 0, false);
      OperInTheMiddle(t);
      CompilesAppend(BeforeOper(t) + ExpandOperator(t.oper, false), AfterOper(t));
      CompilesAppend(ExpandTravOn(OnSrc, t.source), access);
    }
  }

  lemma {:induction false} IterTermIsReferenced(t: Term)
    requires IsIterTerm(t)
    ensures t.reference != RefNone
  {
  }

  lemma {:induction false} TailIsUnreferenced(ts: seq<Term>, tail: seq<Term>)
    requires Compiles(Concat(TermsParts(tail, Arity(ts)))) && tail == ts[Arity(ts)..]
    ensures forall k :: Arity(ts) <= k < |ts| ==> Unreferenced(ts[k])
  {
    CompiledTermsAreUnreferenced(tail, Arity(ts));
    forall k | Arity(ts) <= k < |ts| ensures Unreferenced(ts[k]) { assert ts[k] == tail[k - Arity(ts)]; }
  }

  /** In a query that compiles, the referenced terms are exactly the iterator's elements. */
  lemma {:induction false} ReferencedIffIteratorElement(ts: seq<Term>)
    requires Compiles(Expand(ts))
    ensures forall k :: 0 <= k < |ts| ==> (ts[k].reference != RefNone <==> k < Arity(ts))
    ensures forall k :: Arity(ts) <= k < |ts| ==> Unreferenced(ts[k])
  {
    CompilesAppend(Concat(IterParts(ts)), Concat(TermsParts(ts[Arity(ts)..], Arity(ts))));
    TailIsUnreferenced(ts, ts[Arity(ts)..]);
    HeadIsReferenced(ts);
  }

  lemma {:induction false} HeadIsReferenced(ts: seq<Term>)
    ensures forall k :: 0 <= k < Arity(ts) ==> ts[k].reference != RefNone
  {
    forall k | 0 <= k < Arity(ts) ensures ts[k].reference != RefNone { IterTermIsReferenced(ts[k]); }
  }

  // ----- A negated operand of `||` --------------------------------------------------------

  lemma {:induction false} NotThenOr(m: Machine)
    ensures m.Run([SetOper(OpNot), SetOper(OpOr)]) == m.Run([SetOper(OpOr)])
  {
    RunAppend(m, [SetOper(OpNot)], [SetOper(OpOr)]);
    RunOne(m, SetOper(OpNot));
    RunOne(m, SetOper(OpOr));
    if m.Step(SetOper(OpNot)).Some? {
      RunOne(m.Step(SetOper(OpNot)).value, SetOper(OpOr));
      AtAt(m, m.mode, m.Here().(oper := OpNot), m.mode, m.Here().(oper := OpOr));
    }
  }

  lemma {:induction false} RunCongruence(m: Machine, a: seq<Call>, x: seq<Call>, y: seq<Call>, b: seq<Call>)
    requires m.Run(a).Some? ==> m.Run(a).value.Run(x) == m.Run(a).value.Run(y)
    ensures m.Run(a + x + b) == m.Run(a + y + b)
  {
    RunAppend(m, a + x, b);
    RunAppend(m, a, x);
    RunAppend(m, a + y, b);
    RunAppend(m, a, y);
  }

  /** The negation of an operand of `||` other than the last does not reach the built query. */
  lemma {:induction false} NegatedOrLosesItsNegation(m: Machine, t: Term)
    requires t.oper == NotOr
    ensures m.Run(ExpandTerm(t, 0, false)) == m.Run(ExpandTerm(t.(oper := Or), 0, false))
  {
    var u := t.(oper := Or);
    var x, y := [SetOper(OpNot), SetOper(OpOr)], [SetOper(OpOr)];
    if t.ty.Scope? {
      var b := Concat(TermsParts(t.ty.terms, 0)) + [ScopeClose] + ExpandAccess(t.access, t.reference, false);
      assert ExpandTerm(t, 0, false) == [ScopeOpen] + x + b;
      assert ExpandTerm(u, 0, false) == [ScopeOpen] + y + b;
      if m.Run([ScopeOpen]).Some? { NotThenOr(m.Run([ScopeOpen]).value); }
      RunCongruence(m, [ScopeOpen], x, y, b);
    } else {
      NegatedOrLeaf(t);
      var a, b := BeforeOper(t), AfterOper(t);
      if m.Run(a).Some? { NotThenOr(m.Run(a).value); }
      RunCongruence(m, a, x, y, b);
    }
  }

  function BeforeOper(t: Term): seq<Call>
    requires !t.ty.Scope?
  {
    [Accessor(t)] + ExpandType(t, false) + (if t.source.ident.Some? then ExpandSource(t.source.ident.value) else [])
  }

  function AfterOper(t: Term): seq<Call> {
    ExpandTravOn(OnSrc, t.source) + ExpandAccess(t.access, t.reference, false)
  }

  lemma {:induction false} OperInTheMiddle(t: Term)
    requires !t.ty.Scope?
    ensures ExpandTerm(t, 0, false) == BeforeOper(t) + ExpandOperator(t.oper, false) + AfterOper(t)
  {
    LeafCalls(t, 0);
    var source := if t.source.ident.Some? then ExpandSource(t.source.ident.value) else [];
    Regroup([Accessor(t)], ExpandType(t, false), source, ExpandOperator(t.oper, false),
      ExpandTravOn(OnSrc, t.source), ExpandAccess(t.access, t.reference, false));
  }

  lemma {:induction false} Regroup(a: seq<Call>, b: seq<Call>, c: seq<Call>, d: seq<Call>, e: seq<Call>, f: seq<Call>)
    ensures a + (b + (c + d + e + f)) == (a + b + c) + d + (e + f)
  {
  }

  lemma {:induction false} NegatedOrLeaf(t: Term)
    requires t.oper == NotOr && !t.ty.Scope?
    ensures ExpandTerm(t, 0, false) == BeforeOper(t) + [SetOper(OpNot), SetOper(OpOr)] + AfterOper(t)
    ensures ExpandTerm(t.(oper := Or), 0, false) == BeforeOper(t) + [SetOper(OpOr)] + AfterOper(t)
  {
    var u := t.(oper := Or);
    OperInTheMiddle(t);
    OperInTheMiddle(u);
    assert BeforeOper(t) == BeforeOper(u) by {
      assert ExpandType(t, false) == ExpandType(u, false) && Accessor(t) == Accessor(u);
    }
  }
}
