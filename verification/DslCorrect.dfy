/** Compiler correctness of one term: what its calls leave in its slot, and when that is its meaning. */
module DslCorrect {
  import opened Wrappers
  import opened TermBuilder
  import opened DslSyntax
  import opened DslBuilder
  import opened DslMeaning
  import opened DslEffects
  import opened DslProgress
  import opened DslSound

  // ----- Calls of one term on its slot ---------------------------------------------------

  lemma {:induction false} RunElement(m: Machine, ident: Ident, part: Mode)
    requires m.current < |m.terms| && m.current >= m.generic && part != OnSrc
    requires GetRef(m.Here(), part) == NO_REF && Sound(ExpandPairComponent(ident, false, part))
    ensures Leaves(m, ExpandPairComponent(ident, false, part), OnSrc, SetRef(m.Here(), part, IdentRef(ident)))
  {
    var arg := ValueOf(ident);
    var c := if part == OnFirst then SetFirst(arg) else SetSecond(arg);
    assert ExpandPairComponent(ident, false, part) == [c];
    RunSetPart(m, part, arg);
    AssignedFresh(arg);
    ValueOfIsIdentRef(ident);
  }

  /** Traversal on the elements of a pair. */
  lemma {:induction false} RunElementTravs(m: Machine, f: TermId, s: TermId)
    requires m.current < |m.terms| && m.mode == OnSrc
    requires !(f.travUp || f.travCascade || s.travUp || s.travCascade)
    requires m.current >= m.generic || !(f.HasTrav() && s.HasTrav())
    requires Sound(ExpandTravOn(OnFirst, f) + ExpandTravOn(OnSecond, s))
    ensures Leaves(m, ExpandTravOn(OnFirst, f) + ExpandTravOn(OnSecond, s), PairMode(f, s, OnSrc),
      m.Here().(first := WithTrav(m.Here().first, f), second := WithTrav(m.Here().second, s)))
  {
    SoundAppend(ExpandTravOn(OnFirst, f), ExpandTravOn(OnSecond, s));
    RunTravOn(m, OnFirst, f);
    var mode := if f.HasTrav() then OnFirst else OnSrc;
    var u := Traversed(m.Here(), OnFirst, f);
    AtAt(m, mode, u, mode, u);
    RunTravOn(At(m, mode, u), OnSecond, s);
    Then(m, ExpandTravOn(OnFirst, f), mode, u, ExpandTravOn(OnSecond, s), PairMode(f, s, OnSrc),
      Traversed(u, OnSecond, s));
  }

  lemma {:induction false} RunPair(m: Machine, f: TermId, s: TermId)
    requires m.current < |m.terms| && m.current >= m.generic
    requires m.Here().first == m.Here().second == NO_REF
    requires !(f.travUp || f.travCascade || s.travUp || s.travCascade)
    requires Sound(ExpandPair(f, s, false))
    ensures f.ident.Some? && s.ident.Some?
    ensures Leaves(m, ExpandPair(f, s, false), PairMode(f, s, OnSrc),
      m.Here().(first := WithTrav(IdentRef(f.ident.value), f), second := WithTrav(IdentRef(s.ident.value), s)))
  {
    assert f.ident.None? || s.ident.None? ==> ExpandPair(f, s, false) == [CompileError];
    var first, second := f.ident.value, s.ident.value;
    var a := ExpandPairComponent(first, false, OnFirst) + ExpandPairComponent(second, false, OnSecond);
    var c := ExpandTravOn(OnFirst, f) + ExpandTravOn(OnSecond, s);
    PairCalls(f, s);
    SoundAppend(a, c);
    RunElements(m, first, second);
    var v := m.Here().(first := IdentRef(first), second := IdentRef(second));
    AtAt(m, OnSrc, v, OnSrc, v);
    RunElementTravs(At(m, OnSrc, v), f, s);
    Then(m, a, OnSrc, v, c, PairMode(f, s, OnSrc), v.(first := WithTrav(v.first, f), second := WithTrav(v.second, s)));
  }

  /** Both elements of a pair, without their traversal. */
  lemma {:induction false} RunElements(m: Machine, first: Ident, second: Ident)
    requires m.current < |m.terms| && m.current >= m.generic && m.Here().first == m.Here().second == NO_REF
    requires Sound(ExpandPairComponent(first, false, OnFirst) + ExpandPairComponent(second, false, OnSecond))
    ensures Leaves(m, ExpandPairComponent(first, false, OnFirst) + ExpandPairComponent(second, false, OnSecond), OnSrc,
      m.Here().(first := IdentRef(first), second := IdentRef(second)))
  {
    var a, b := ExpandPairComponent(first, false, OnFirst), ExpandPairComponent(second, false, OnSecond);
    SoundAppend(a, b);
    RunElement(m, first, OnFirst);
    var u := m.Here().(first := IdentRef(first));
    AtAt(m, OnSrc, u, OnSrc, u);
    RunElement(At(m, OnSrc, u), second, OnSecond);
    Then(m, a, OnSrc, u, b, OnSrc, u.(second := IdentRef(second)));
  }

  /** Source, operator, source traversal and access, over the slot the term's kind left. */
  function Rested(s: Slot, t: Term, iterTerm: bool): Slot {
    var r := if t.source.ident.Some? then Assigned(s.src, ValueOf(t.source.ident.value)) else s.src;
    s.(src := WithTrav(r, t.source),
       trav := TravRel(t.source, s.trav),
       oper := if iterTerm || t.oper == And then s.oper else OperOf(t.oper),
       inout := AccessOf(t.access, s.inout))
  }

  lemma {:induction false} RunRest(m: Machine, t: Term, iterTerm: bool)
    requires m.current < |m.terms| && Sound(ExpandRest(t, iterTerm))
    requires !iterTerm ==> m.current >= m.generic
    ensures Leaves(m, ExpandRest(t, iterTerm),
      if SelectsSource(t) then OnSrc else m.mode, Rested(m.Here(), t, iterTerm))
  {
    var a := if t.source.ident.Some? then ExpandSource(t.source.ident.value) else [];
    var b, c, d := ExpandOperator(t.oper, iterTerm), ExpandTravOn(OnSrc, t.source),
      ExpandAccess(t.access, t.reference, iterTerm);
    SoundAppend(a + b + c, d);
    SoundAppend(a + b, c);
    SoundAppend(a, b);
    Nothing(m);
    var s0 := m.Here();
    var mode := if t.source.ident.Some? then OnSrc else m.mode;
    var s1 := if t.source.ident.Some? then s0.(src := Assigned(s0.src, ValueOf(t.source.ident.value))) else s0;
    if t.source.ident.Some? { RunSource(m, t.source.ident.value); }
    var m1 := At(m, mode, s1);
    AtAt(m, mode, s1, mode, s1);
    Nothing(m1);
    var s2 := if iterTerm || t.oper == And then s1 else s1.(oper := OperOf(t.oper));
    assert iterTerm ==> b == [];
    if !iterTerm { RunOper(m1, t.oper); }
    Then(m, a, mode, s1, b, mode, s2);
    var m2 := At(m, mode, s2);
    AtAt(m, mode, s2, mode, s2);
    RunTravOn(m2, OnSrc, t.source);
    var mode', s3 := if t.source.HasTrav() then OnSrc else mode, Traversed(s2, OnSrc, t.source);
    Then(m, a + b, mode, s2, c, mode', s3);
    var m3 := At(m, mode', s3);
    AtAt(m, mode', s3, mode', s3);
    RunAccess(m3, t.access, t.reference, iterTerm);
    Then(m, a + b + c, mode', s3, d, mode', s3.(inout := AccessOf(t.access, s3.inout)));
  }

  // ----- The array between two terms -----------------------------------------------------

  /** The array holds `slots` and, after them, untouched terms. */
  predicate Holds(m: Machine, generic: nat, slots: seq<Slot>) {
    && m.generic == generic
    && m.next == |slots| <= TERM_COUNT_MAX
    && m.current < TERM_COUNT_MAX
    && m.terms == Padded(slots)
  }

  function Padded(slots: seq<Slot>): seq<Slot>
    requires |slots| <= TERM_COUNT_MAX
  {
    slots + seq(TERM_COUNT_MAX - |slots|, _ => NO_SLOT)
  }

  lemma {:induction false} HoldsIsStanding(m: Machine, generic: nat, slots: seq<Slot>)
    requires Holds(m, generic, slots) && generic <= |slots|
    ensures Standing(ControlOf(m)) && |m.terms| == TERM_COUNT_MAX
  {
  }

  /** The slots are determined by the array. */
  lemma {:induction false} HoldsOne(m: Machine, generic: nat, slots: seq<Slot>, others: seq<Slot>)
    requires Holds(m, generic, slots) && |slots| == |others|
    ensures Holds(m, generic, others) <==> slots == others
  {
    assert slots == m.terms[..|slots|];
    if Holds(m, generic, others) { assert others == m.terms[..|others|]; }
  }

  /** A new term holding `s`. */
  function Opened(m: Machine, s: Slot, mode: Mode): Machine
    requires m.next < |m.terms|
  {
    m.(current := m.next, next := m.next + 1, mode := mode, terms := m.terms[m.next := s])
  }

  lemma {:induction false} OpenedHolds(m: Machine, generic: nat, slots: seq<Slot>, s: Slot, mode: Mode)
    requires Holds(m, generic, slots) && |slots| < TERM_COUNT_MAX
    ensures m.terms[m.next] == NO_SLOT
    ensures Holds(Opened(m, s, mode), generic, slots + [s])
    ensures Opened(m, s, mode).Here() == s
    ensures m.OpenTerm() == Some(Opened(m, NO_SLOT, m.mode))
  {
    assert m.terms[m.next := s] == Padded(slots + [s]);
    assert m.terms[m.next := NO_SLOT] == m.terms;
  }

  lemma {:induction false} OpenedAt(m: Machine, s: Slot, mode: Mode, s': Slot, mode': Mode)
    requires m.next < |m.terms|
    ensures At(Opened(m, s, mode), mode', s') == Opened(m, s', mode')
  {
    assert m.terms[m.next := s][m.next := s'] == m.terms[m.next := s'];
  }

  // ----- One term ------------------------------------------------------------------------

  function OpenSlot(t: Term): Slot
    requires !t.ty.Scope?
  {
    if OwnAccessor(t, false).Some? then Target(t) else NO_SLOT
  }

  function OpenMode(t: Term, mode: Mode): Mode {
    if OpensText(t) then OnSrc else mode
  }

  lemma {:induction false} RunAccessor(m: Machine, generic: nat, slots: seq<Slot>, t: Term)
    requires Holds(m, generic, slots) && generic <= |slots| < TERM_COUNT_MAX
    requires !t.ty.Scope? && Accessor(t) != CompileError && Named(Accessor(t))
    ensures m.Step(Accessor(t)) == Some(Opened(m, OpenSlot(t), OpenMode(t, m.mode)))
  {
    OpenedHolds(m, generic, slots, NO_SLOT, m.mode);
    match Accessor(t)
    case With(WithText(rel, text)) =>
      var s1 := NO_SLOT.(first := Ref(rel, {}, None));
      var s2 := s1.(second := Assigned(NO_REF, Text(text)));
      OpenedAt(m, NO_SLOT, m.mode, s1, m.mode);
      RunSetPart(Opened(m, s1, m.mode), OnSecond, Text(text));
      RunOne(Opened(m, s1, m.mode), SetSecond(Text(text)));
      AssignedFresh(Text(text));
      OpenedAt(m, s1, m.mode, s2, OnSrc);
      OpenedAt(m, s2, OnSrc, s2.(inout := IoIn), OnSrc);
    case With(WithEntity(id)) => OpenedAt(m, NO_SLOT, m.mode, NO_SLOT.(first := Ref(id, {}, None)), m.mode);
    case With(WithPair(r, g)) => OpenedAt(m, NO_SLOT, m.mode, NO_SLOT.(id := PairId(r, g)), m.mode);
    case _ =>
  }

  predicate ElementUp(t: Term) {
    t.ty.Pair? && (Climbs(t.ty.first) || Climbs(t.ty.second))
  }

  /** `up` and `cascade` on an element of a pair panic, whatever the builder's state. */
  lemma {:induction false} ElementUpPanics(m: Machine, t: Term, iterTerm: bool)
    requires ElementUp(t)
    ensures m.Run(ExpandType(t, iterTerm)).None?
  {
    var f, s := t.ty.first, t.ty.second;
    if f.ident.None? || s.ident.None? {
      RunOne(m, CompileError);
    } else {
      var a := ExpandPairComponent(f.ident.value, iterTerm, OnFirst) +
        ExpandPairComponent(s.ident.value, iterTerm, OnSecond);
      var b, c := ExpandTravOn(OnFirst, f), ExpandTravOn(OnSecond, s);
      RunAppend(m, a + b, c);
      RunAppend(m, a, b);
      if m.Run(a).Some? {
        if Climbs(f) { TravOnPanics(m.Run(a).value, OnFirst, f); }
      }
      if m.Run(a + b).Some? && Climbs(s) { TravOnPanics(m.Run(a + b).value, OnSecond, s); }
    }
  }

  lemma {:induction false} TravOnPanics(m: Machine, part: Mode, t: TermId)
    requires part != OnSrc && Climbs(t)
    ensures m.Run(ExpandTravOn(part, t)).None?
  {
    RunAppend(m, [Select(part)], ExpandTrav(t));
    RunOne(m, Select(part));
    if m.Step(Select(part)).Some? { UpOffSourcePanics(m.Step(Select(part)).value, t); }
  }

  /** What the setter of a component that is not a type makes of the reference it writes. */
  function Written(r: Ref, id: Ident): Ref {
    match id
    case Variable(name) => r.(flags := r.flags + {IsVariable}, name := Some(name))
    case Local(Ent(e)) => r.(id := e, flags := {})
    case SelfVar(Ent(e)) => r.(id := e, flags := {})
    case Literal(text) => r.(flags := r.flags + {IsEntity}, name := Some(text))
    case _ => r
  }

  lemma {:induction false} RunComponentSetter(m: Machine, id: Ident)
    requires m.current < |m.terms| && m.current >= m.generic
    requires id.TypeEntity().None? && Sound(ComponentSetter(id))
    ensures Leaves(m, ComponentSetter(id), m.mode, SetRef(m.Here(), m.mode, Written(GetRef(m.Here(), m.mode), id)))
  {
    RunOne(m, ComponentSetter(id)[0]);
  }

  /** A component that is not a type is written, with its traversal, to the selected reference. */
  lemma {:induction false} RunOddComponent(m: Machine, id: TermId)
    requires m.current < |m.terms| && m.current >= m.generic && (m.mode == OnSrc || !Climbs(id))
    requires id.ident.Some? && id.ident.value.TypeEntity().None? && Sound(ExpandComponent(id))
    ensures Leaves(m, ExpandComponent(id), m.mode,
      Traversed(SetRef(m.Here(), m.mode, Written(GetRef(m.Here(), m.mode), id.ident.value)), m.mode, id))
  {
    var a, u := ComponentSetter(id.ident.value),
      SetRef(m.Here(), m.mode, Written(GetRef(m.Here(), m.mode), id.ident.value));
    SoundAppend(a, ExpandTrav(id));
    RunComponentSetter(m, id.ident.value);
    AtAt(m, m.mode, u, m.mode, u);
    RunTrav(At(m, m.mode, u), id);
    Then(m, a, m.mode, u, ExpandTrav(id), m.mode, Traversed(u, m.mode, id));
  }

  lemma {:induction false} RunEqualityLeft(m: Machine, left: Ident)
    requires m.current < |m.terms| && m.Here().src == NO_REF && Sound(ExpandEqualityLeft(left))
    ensures NamesSource(left) ==> Leaves(m, ExpandEqualityLeft(left), OnSrc, m.Here().(src := IdentRef(left)))
    ensures !NamesSource(left) ==> Leaves(m, ExpandEqualityLeft(left), m.mode, m.Here())
  {
    Nothing(m);
    if NamesSource(left) {
      assert ExpandEqualityLeft(left) == [SetSrc(ValueOf(left))];
      RunSetSrc(m, ValueOf(left));
      AssignedFresh(ValueOf(left));
      ValueOfIsIdentRef(left);
    }
  }

  /** Reference mode and slot after the calls of a term's kind, from mode `mode`. */
  function TypeMode(t: Term, mode: Mode): Mode {
    match t.ty
    case Pair(f, s) => PairMode(f, s, OnSrc)
    case Equality(left, _, _) => if NamesSource(left) then OnSrc else mode
    case _ => mode
  }

  function TypeSlot(t: Term, mode: Mode): Slot
    requires !t.ty.Scope?
  {
    match t.ty
    case Pair(_, _) => Target(t)
    case Component(id) =>
      if id.ident.None? || id.ident.value.TypeEntity().Some? then Traversed(Target(t), mode, id)
      else Traversed(SetRef(NO_SLOT, mode, Written(NO_REF, id.ident.value)), mode, id)
    case Equality(left, _, _) => if NamesSource(left) then Target(t).(src := IdentRef(left)) else Target(t)
  }

  lemma {:induction false} RunType(m: Machine, t: Term)
    requires m.current < |m.terms| && m.current >= m.generic
    requires !t.ty.Scope? && Goes(t, m.mode)
    requires m.Here() == OpenSlot(t) && Accessor(t) != CompileError && Sound(ExpandType(t, false))
    ensures Leaves(m, ExpandType(t, false), TypeMode(t, m.mode), TypeSlot(t, m.mode))
  {
    match t.ty
    case Pair(f, e) => RunPair(m, f, e);
    case Component(id) =>
      assert id.ident.None? ==> ExpandComponent(id) == [CompileError];
      if id.ident.value.TypeEntity().Some? {
        assert ExpandComponent(id) == ExpandTrav(id);
        RunTrav(m, id);
      } else {
        RunOddComponent(m, id);
      }
    case Equality(left, _, _) => RunEqualityLeft(m, left);
  }

  // ----- When the slot is the meaning ----------------------------------------------------

  lemma {:induction false} NoTrav(r: Ref)
    ensures WithTrav(r, NO_TERM_ID) == r
  {
  }

  lemma {:induction false} TravFlagsIff(t: TermId)
    ensures TravFlags(t) == {} <==> !t.HasTrav()
    ensures IsVariable !in TravFlags(t) && IsEntity !in TravFlags(t)
  {
    if t.travUp { assert UpFlag in TravFlags(t); }
    if t.travCascade { assert CascadeFlag in TravFlags(t); }
    if t.travDesc { assert DescFlag in TravFlags(t); }
    if t.travSelf { assert SelfFlag in TravFlags(t); }
  }

  /** Exactly the meaning, for every kind of term and every mode. */
  lemma {:induction false} RestedMeans(t: Term, mode: Mode)
    requires !t.ty.Scope? && Parsed(t) && Sound(ExpandType(t, false))
    ensures Rested(TypeSlot(t, mode), t, false) == Meaning(t) <==> Means(t, mode)
  {
    match t.ty
    case Pair(_, _) => RestMeansPair(t);
    case Component(id) =>
      assert id.ident.None? ==> ExpandComponent(id) == [CompileError];
      if id.ident.value.TypeEntity().None? {
        SoundAppend(ComponentSetter(id.ident.value), ExpandTrav(id));
        RestMeansOdd(t, mode);
      }
      else if mode == OnSrc { RestMeansComponent(t); }
      else { RestMeansAside(t, mode); }
    case Equality(_, _, _) => RestMeansEquality(t);
  }

  lemma {:induction false} RestMeansPair(t: Term)
    requires t.ty.Pair?
    ensures Rested(Target(t), t, false) == Meaning(t)
  {
    NoTrav(SourceRef(t));
    if t.source.ident.Some? {
      AssignedFresh(ValueOf(t.source.ident.value));
      ValueOfIsIdentRef(t.source.ident.value);
    }
  }

  lemma {:induction false} RestMeansEquality(t: Term)
    requires t.ty.Equality? && Parsed(t)
    ensures Rested(TypeSlot(t, OnSrc), t, false) == Meaning(t) <==> NamesSource(t.ty.left)
  {
    NoTrav(Target(t).src);
    NoTrav(SourceRef(t));
    assert IdentRef(t.ty.left) != NO_REF;
  }

  /** The source reference once own traversal, source and source traversal are in place. */
  lemma {:induction false} SourceMeans(t: Term)
    requires t.ty.Component?
    ensures
      var own := WithTrav(NO_REF, t.ty.id);
      var r := if t.source.ident.Some? then Assigned(own, ValueOf(t.source.ident.value)) else own;
      WithTrav(r, t.source) == WithTrav(WithTrav(SourceRef(t), t.ty.id), t.source) <==> KeepsFlags(t)
  {
    var own, source := TravFlags(t.ty.id), TravFlags(t.source);
    if t.source.ident.Some? {
      var arg := ValueOf(t.source.ident.value);
      ValueOfIsIdentRef(t.source.ident.value);
      if arg.Ent? {
        assert {} + source == source && {} + own + source == own + source;
        assert own + source == source <==> own <= source;
      } else {
        assert {} + own + ArgRef(arg).flags + source == ArgRef(arg).flags + own + source;
      }
    }
  }

  lemma {:induction false} RestMeansComponent(t: Term)
    requires t.ty.Component? && t.ty.id.ident.Some? && t.ty.id.ident.value.TypeEntity().Some?
    ensures Rested(TypeSlot(t, OnSrc), t, false) == Meaning(t) <==> KeepsFlags(t)
  {
    SourceMeans(t);
  }

  /** Off source, a component's own traversal misses the source. */
  lemma {:induction false} RestMeansAside(t: Term, mode: Mode)
    requires t.ty.Component? && t.ty.id.ident.Some? && t.ty.id.ident.value.TypeEntity().Some? && mode != OnSrc
    ensures Rested(TypeSlot(t, mode), t, false) == Meaning(t) <==> !t.ty.id.HasTrav() && KeepsFlags(t)
  {
    var id := t.ty.id;
    TravFlagsIff(id);
    var r := GetRef(Target(t), mode);
    assert r.flags == {};
    assert GetRef(TypeSlot(t, mode), mode).flags == TravFlags(id) by { assert {} + TravFlags(id) == TravFlags(id); }
    if !id.HasTrav() {
      assert WithTrav(r, id) == r;
      assert TypeSlot(t, mode) == Target(t) == TypeSlot(t, OnSrc);
      RestMeansComponent(t);
    }
  }

  /** A component that is not a type means what it says only where the first reference is selected. */
  lemma {:induction false} RestMeansOdd(t: Term, mode: Mode)
    requires t.ty.Component? && t.ty.id.ident.Some? && t.ty.id.ident.value.TypeEntity().None?
    requires Sound(ComponentSetter(t.ty.id.ident.value))
    ensures Rested(TypeSlot(t, mode), t, false) == Meaning(t) <==> Means(t, mode)
  {
    var id, ident := t.ty.id, t.ty.id.ident.value;
    TravFlagsIff(id);
    assert IdentRef(ident) != NO_REF;
    if mode == OnFirst {
      assert TypeSlot(t, mode).first == WithTrav(Written(NO_REF, ident), id);
      if !id.HasTrav() {
        assert WithTrav(Written(NO_REF, ident), id) == Written(NO_REF, ident);
        WrittenIs(ident);
        assert WithTrav(NO_REF, id) == NO_REF;
        SourceMeans(t);
      }
    }
  }

  lemma {:induction false} WrittenIs(ident: Ident)
    requires ident.TypeEntity().None? && Sound(ComponentSetter(ident))
    ensures Written(NO_REF, ident) == IdentRef(ident) <==> !DollarLiteral(ident)
  {
  }

  /**
   * A term that goes through appends one slot after any built prefix and leaves the rest of the
   * array alone; the slot is the term's meaning exactly as `Means` says.
   */
  lemma {:induction false} LeafYields(m: Machine, generic: nat, slots: seq<Slot>, t: Term, index: nat) returns (s: Slot)
    requires Holds(m, generic, slots) && generic <= |slots|
    requires !t.ty.Scope? && Parsed(t) && m.Run(ExpandLeaf(t, index, false)).Some?
    ensures Holds(m.Run(ExpandLeaf(t, index, false)).value, generic, slots + [s])
    ensures m.Run(ExpandLeaf(t, index, false)).value.mode == ModeAfter(t, m.mode)
    ensures s == Meaning(t) <==> Means(t, m.mode)
  {
    RunNeedsSound(m, ExpandLeaf(t, index, false));
    LeafGoes(m, generic, slots, t, index);
    LeafCalls(t, index);
    SoundAppend([Accessor(t)], Ops(t));
    SoundAppend(ExpandType(t, false), ExpandRest(t, false));
    RunAccessor(m, generic, slots, t);
    var mode0 := OpenMode(t, m.mode);
    var n, mode, u := Opened(m, OpenSlot(t), mode0), TypeMode(t, mode0), TypeSlot(t, mode0);
    OpenedHolds(m, generic, slots, OpenSlot(t), mode0);
    RunType(n, t);
    AtAt(n, mode, u, mode, u);
    RunRest(At(n, mode, u), t, false);
    s := Rested(u, t, false);
    Then(n, ExpandType(t, false), mode, u, ExpandRest(t, false), ModeAfter(t, m.mode), s);
    OpenedAt(m, OpenSlot(t), mode0, s, ModeAfter(t, m.mode));
    OpenedHolds(m, generic, slots, s, ModeAfter(t, m.mode));
    RestedMeans(t, mode0);
  }

  lemma {:induction false} LeafGoes(m: Machine, generic: nat, slots: seq<Slot>, t: Term, index: nat)
    requires Holds(m, generic, slots) && generic <= |slots| && !t.ty.Scope?
    ensures m.Run(ExpandLeaf(t, index, false)).Some? <==>
      TermSound(t) && Goes(t, m.mode) && |slots| < TERM_COUNT_MAX
  {
    HoldsIsStanding(m, generic, slots);
    RunAgrees(m, ExpandLeaf(t, index, false));
    LeafAdvances(ControlOf(m), t, index);
    LeafIs(t, index);
  }

  predicate HoldsAfter(r: Option<Machine>, generic: nat, slots: seq<Slot>) {
    r.Some? && Holds(r.value, generic, slots)
  }

  /** After any built prefix, in any mode, a term appends its meaning exactly on these conditions. */
  lemma {:induction false} LeafCorrect(m: Machine, generic: nat, slots: seq<Slot>, t: Term)
    requires Holds(m, generic, slots) && generic <= |slots| && !t.ty.Scope? && Parsed(t)
    ensures HoldsAfter(m.Run(ExpandLeaf(t, 0, false)), generic, slots + [Meaning(t)]) <==>
      TermSound(t) && |slots| < TERM_COUNT_MAX && Goes(t, m.mode) && Means(t, m.mode)
  {
    LeafGoes(m, generic, slots, t, 0);
    var r := m.Run(ExpandLeaf(t, 0, false));
    if r.Some? {
      var s := LeafYields(m, generic, slots, t, 0);
      HoldsOne(r.value, generic, slots + [s], slots + [Meaning(t)]);
      assert (slots + [s])[|slots|] == s && (slots + [Meaning(t)])[|slots|] == Meaning(t);
    }
  }
}
