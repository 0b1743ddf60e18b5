/** Correctness of lists of terms and of nested scopes. */
module DslScopes {
  import opened Wrappers
  import opened TermBuilder
  import opened DslSyntax
  import opened Sequences
  import opened DslBuilder
  import opened DslMeaning
  import opened DslEffects
  import opened DslProgress
  import opened DslCorrect

  lemma {:induction false} SlotsFillWidth(t: Term)
    ensures |Slots(t)| == Width(t)
    decreases t, 0
  {
    if t.ty.Scope? { TermsFillWidths(t.ty.terms); }
  }

  lemma {:induction false} TermsFillWidths(ts: seq<Term>)
    ensures |Concat(TermsSlots(ts))| == Sum(Widths(ts))
    decreases ts, 1
  {
    forall k | 0 <= k < |ts| ensures |TermsSlots(ts)[k]| == Widths(ts)[k] { SlotsFillWidth(ts[k]); }
    ConcatLength(TermsSlots(ts), Widths(ts));
  }

  // ----- Markers of a scope --------------------------------------------------------------

  /** A marker, as the builder leaves it: "no entity" goes to the selected reference. */
  function MarkerSlot(marker: Entity, mode: Mode): Slot {
    SetRef(NO_SLOT.(first := Ref(marker, {}, None)), mode,
      GetRef(NO_SLOT.(first := Ref(marker, {}, None)), mode).(id := 0, flags := {IsEntity}))
  }

  lemma {:induction false} RunMarker(m: Machine, generic: nat, slots: seq<Slot>, marker: Entity)
    requires Holds(m, generic, slots) && generic <= |slots|
    ensures |slots| == TERM_COUNT_MAX ==> m.Scope(marker).None?
    ensures |slots| < TERM_COUNT_MAX ==> m.Scope(marker) == Some(Opened(m, MarkerSlot(marker, m.mode), m.mode))
  {
    if |slots| < TERM_COUNT_MAX {
      OpenedHolds(m, generic, slots, NO_SLOT, m.mode);
      OpenedAt(m, NO_SLOT, m.mode, NO_SLOT.(first := Ref(marker, {}, None)), m.mode);
      OpenedAt(m, NO_SLOT.(first := Ref(marker, {}, None)), m.mode, MarkerSlot(marker, m.mode), m.mode);
    }
  }

  /** With an element still selected, the marker loses its identity or gains an element. */
  lemma {:induction false} MarkerSurvivesIff(marker: Entity, mode: Mode)
    ensures mode == OnSrc <==>
      MarkerSlot(marker, mode) == NO_SLOT.(first := Ref(marker, {}, None), src := Ref(0, {IsEntity}, None))
    ensures mode == OnFirst ==> MarkerSlot(marker, mode).first.id == 0
  {
    assert {} != {IsEntity};
  }

  /** Opening a scope: the marker and its operator. */
  lemma {:induction false} ScopeStartYields(m: Machine, generic: nat, slots: seq<Slot>, t: Term) returns (s: Slot)
    requires Holds(m, generic, slots) && generic <= |slots| && m.Run([ScopeOpen] + ScopeOper(t)).Some?
    ensures Holds(m.Run([ScopeOpen] + ScopeOper(t)).value, generic, slots + [s])
    ensures m.Run([ScopeOpen] + ScopeOper(t)).value.mode == m.mode
    ensures s == ScopeStart(t) <==> m.mode == OnSrc
  {
    RunAppend(m, [ScopeOpen], ScopeOper(t));
    RunOne(m, ScopeOpen);
    RunMarker(m, generic, slots, SCOPE_OPEN);
    var u := MarkerSlot(SCOPE_OPEN, m.mode);
    MarkerSurvivesIff(SCOPE_OPEN, m.mode);
    OpenedHolds(m, generic, slots, u, m.mode);
    s := if t.oper == And then u else u.(oper := OperOf(t.oper));
    Nothing(Opened(m, u, m.mode));
    RunOper(Opened(m, u, m.mode), t.oper);
    OpenedAt(m, u, m.mode, s, m.mode);
    OpenedHolds(m, generic, slots, s, m.mode);
  }

  /** Closing a scope: the end marker and the scope's access. */
  lemma {:induction false} ScopeEndYields(m: Machine, generic: nat, slots: seq<Slot>, t: Term) returns (s: Slot)
    requires Holds(m, generic, slots) && generic <= |slots|
    requires m.Run([ScopeClose] + ExpandAccess(t.access, t.reference, false)).Some?
    ensures Holds(m.Run([ScopeClose] + ExpandAccess(t.access, t.reference, false)).value, generic, slots + [s])
    ensures m.Run([ScopeClose] + ExpandAccess(t.access, t.reference, false)).value.mode == m.mode
    ensures s == ScopeEnd(t) <==> m.mode == OnSrc
  {
    var acc := ExpandAccess(t.access, t.reference, false);
    RunNeedsSound(m, [ScopeClose] + acc);
    RunAppend(m, [ScopeClose], acc);
    SoundAppend([ScopeClose], acc);
    RunOne(m, ScopeClose);
    RunMarker(m, generic, slots, SCOPE_CLOSE);
    var u := MarkerSlot(SCOPE_CLOSE, m.mode);
    MarkerSurvivesIff(SCOPE_CLOSE, m.mode);
    OpenedHolds(m, generic, slots, u, m.mode);
    s := u.(inout := AccessOf(t.access, IoDefault));
    RunAccess(Opened(m, u, m.mode), t.access, t.reference, false);
    OpenedAt(m, u, m.mode, s, m.mode);
    OpenedHolds(m, generic, slots, s, m.mode);
  }

  // ----- Terms and lists of terms --------------------------------------------------------

  /** The run appended `added` and nothing else, and left mode `mode`. */
  predicate Yields(r: Option<Machine>, generic: nat, slots: seq<Slot>, added: seq<Slot>, mode: Mode) {
    HoldsAfter(r, generic, slots + added) && r.value.mode == mode
  }

  lemma {:induction false} SplitEqual(a: seq<Slot>, b: seq<Slot>, c: seq<Slot>, d: seq<Slot>)
    requires |a| == |c|
    ensures a + b == c + d <==> a == c && b == d
  {
    if a + b == c + d {
      assert a == (a + b)[..|a|] && c == (c + d)[..|a|];
      assert b == (a + b)[|a|..] && d == (c + d)[|a|..];
    }
  }

  lemma {:induction false} RunSplits(m: Machine, a: seq<Call>, b: seq<Call>)
    requires m.Run(a + b).Some?
    ensures m.Run(a).Some? && m.Run(a).value.Run(b) == m.Run(a + b)
  {
    RunAppend(m, a, b);
  }

  lemma {:induction false} YieldsThen(
    m: Machine, generic: nat, slots: seq<Slot>,
    a: seq<Call>, x: seq<Slot>, mode: Mode, b: seq<Call>, y: seq<Slot>, mode': Mode)
    requires Yields(m.Run(a), generic, slots, x, mode)
    requires Yields(m.Run(a).value.Run(b), generic, slots + x, y, mode')
    ensures Yields(m.Run(a + b), generic, slots, x + y, mode')
  {
    RunAppend(m, a, b);
    assert slots + x + y == slots + (x + y);
  }

  /** A term, scope or not, that goes through appends its slots exactly as `Means` says. */
  lemma {:induction false} TermYields(
    m: Machine, generic: nat, slots: seq<Slot>, t: Term, index: nat)
    returns (added: seq<Slot>)
    requires Holds(m, generic, slots) && generic <= |slots|
    requires Parsed(t) && m.Run(ExpandTerm(t, index, false)).Some?
    ensures Yields(m.Run(ExpandTerm(t, index, false)), generic, slots, added, ModeAfter(t, m.mode))
    ensures |added| == Width(t) && (added == Slots(t) <==> Means(t, m.mode))
    decreases t, 0
  {
    match t.ty
    case Scope(ts) =>
      ScopeCalls(t, index);
      added := ScopeYields(m, generic, slots, t);
    case _ =>
      var s := LeafYields(m, generic, slots, t, index);
      added := [s];
      assert [s][0] == s && [Meaning(t)][0] == Meaning(t);
  }

  lemma {:induction false} ScopeYields(m: Machine, generic: nat, slots: seq<Slot>, t: Term) returns (added: seq<Slot>)
    requires Holds(m, generic, slots) && generic <= |slots| && t.ty.Scope? && ParsedAll(t.ty.terms)
    requires m.Run([ScopeOpen] + ScopeOper(t) + Concat(TermsParts(t.ty.terms, 0)) +
      ([ScopeClose] + ExpandAccess(t.access, t.reference, false))).Some?
    ensures Yields(m.Run([ScopeOpen] + ScopeOper(t) + Concat(TermsParts(t.ty.terms, 0)) +
      ([ScopeClose] + ExpandAccess(t.access, t.reference, false))),
      generic, slots, added, ModeAfterAll(t.ty.terms, m.mode))
    ensures |added| == 2 + Sum(Widths(t.ty.terms))
    ensures added == Slots(t) <==>
      m.mode == OnSrc && AllMean(t.ty.terms, m.mode) && ModeAfterAll(t.ty.terms, m.mode) == OnSrc
    decreases t.ty, 2
  {
    var ts := t.ty.terms;
    var head, body := [ScopeOpen] + ScopeOper(t), Concat(TermsParts(ts, 0));
    var tail := [ScopeClose] + ExpandAccess(t.access, t.reference, false);
    RunSplits(m, head + body, tail);
    RunSplits(m, head, body);
    var start := ScopeStartYields(m, generic, slots, t);
    var inner := TermsYield(m.Run(head).value, generic, slots + [start], ts, 0);
    var mode := ModeAfterAll(ts, m.mode);
    YieldsThen(m, generic, slots, head, [start], m.mode, body, inner, mode);
    var end := ScopeEndYields(m.Run(head + body).value, generic, slots + ([start] + inner), t);
    YieldsThen(m, generic, slots, head + body, [start] + inner, mode, tail, [end], mode);
    added := [start] + inner + [end];
    ScopeSlots(t, start, inner, end);
  }

  lemma {:induction false} ScopeSlots(t: Term, start: Slot, inner: seq<Slot>, end: Slot)
    requires t.ty.Scope? && |inner| == Sum(Widths(t.ty.terms))
    ensures [start] + inner + [end] == Slots(t) <==>
      start == ScopeStart(t) && inner == Concat(TermsSlots(t.ty.terms)) && end == ScopeEnd(t)
  {
    var body := Concat(TermsSlots(t.ty.terms));
    TermsFillWidths(t.ty.terms);
    SplitEqual([start] + inner, [end], [ScopeStart(t)] + body, [ScopeEnd(t)]);
    SplitEqual([start], inner, [ScopeStart(t)], body);
    assert [start][0] == start && [end][0] == end;
    assert [ScopeStart(t)][0] == ScopeStart(t) && [ScopeEnd(t)][0] == ScopeEnd(t);
  }

  lemma {:induction false} TermsYield(
    m: Machine, generic: nat, slots: seq<Slot>, ts: seq<Term>, from: nat)
    returns (added: seq<Slot>)
    requires Holds(m, generic, slots) && generic <= |slots|
    requires ParsedAll(ts) && m.Run(Concat(TermsParts(ts, from))).Some?
    ensures Yields(m.Run(Concat(TermsParts(ts, from))), generic, slots, added, ModeAfterAll(ts, m.mode))
    ensures |added| == Sum(Widths(ts)) && (added == Concat(TermsSlots(ts)) <==> AllMean(ts, m.mode))
    decreases ts, 1
  {
    if ts == [] {
      added := [];
      assert slots + [] == slots;
    } else {
      var part, rest := ExpandTerm(ts[0], from, false), Concat(TermsParts(ts[1..], from + 1));
      HeadPart(ts, from);
      HeadWidth(ts);
      HeadSlots(ts);
      RunSplits(m, part, rest);
      TailParsed(ts);
      var mode := ModeAfter(ts[0], m.mode);
      var a := TermYields(m, generic, slots, ts[0], from);
      var b := TermsYield(m.Run(part).value, generic, slots + a, ts[1..], from + 1);
      added := a + b;
      YieldsThen(m, generic, slots, part, a, mode, rest, b, ModeAfterAll(ts[1..], mode));
      SlotsFillWidth(ts[0]);
      SplitEqual(a, b, Slots(ts[0]), Concat(TermsSlots(ts[1..])));
    }
  }

  lemma {:induction false} TailParsed(ts: seq<Term>)
    requires ParsedAll(ts) && ts != []
    ensures Parsed(ts[0]) && ParsedAll(ts[1..])
  {
    assert Parsed(ts[0]);
    forall k | 0 <= k < |ts| - 1 ensures Parsed(ts[1..][k]) { assert Parsed(ts[k + 1]); }
  }

  lemma {:induction false} HeadSlots(ts: seq<Term>)
    requires ts != []
    ensures Concat(TermsSlots(ts)) == Slots(ts[0]) + Concat(TermsSlots(ts[1..]))
  {
    assert TermsSlots(ts)[1..] == TermsSlots(ts[1..]);
  }
}
