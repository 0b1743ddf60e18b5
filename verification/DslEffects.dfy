/** What the emitted calls of one term do to the slot they run on. */
module DslEffects {
  import opened Wrappers
  import opened TermBuilder
  import opened DslSyntax
  import opened DslBuilder
  import opened DslMeaning

  /** The machine with another current slot and reference mode. */
  function At(m: Machine, mode: Mode, s: Slot): Machine
    requires m.current < |m.terms|
  {
    m.(mode := mode, terms := m.terms[m.current := s])
  }

  lemma {:induction false} AtAt(m: Machine, mode: Mode, s: Slot, mode': Mode, s': Slot)
    requires m.current < |m.terms|
    ensures At(m, mode, s).Here() == s
    ensures At(At(m, mode, s), mode', s') == At(m, mode', s')
    ensures At(m, m.mode, m.Here()) == m
  {
    assert m.terms[m.current := s][m.current := s'] == m.terms[m.current := s'];
    assert m.terms[m.current := m.Here()] == m.terms;
  }

  /** The calls stay on the current slot and leave it as `s`, in reference mode `mode`. */
  predicate Leaves(m: Machine, calls: seq<Call>, mode: Mode, s: Slot) {
    m.current < |m.terms| && m.Run(calls) == Some(At(m, mode, s))
  }

  lemma {:induction false} Nothing(m: Machine)
    requires m.current < |m.terms|
    ensures Leaves(m, [], m.mode, m.Here())
  {
    AtAt(m, m.mode, m.Here(), m.mode, m.Here());
  }

  lemma {:induction false} Then(m: Machine, a: seq<Call>, mode: Mode, s: Slot, b: seq<Call>, mode': Mode, s': Slot)
    requires Leaves(m, a, mode, s) && Leaves(At(m, mode, s), b, mode', s')
    ensures Leaves(m, a + b, mode', s')
  {
    RunAppend(m, a, b);
    AtAt(m, mode, s, mode', s');
  }

  function SetRef(s: Slot, mode: Mode, r: Ref): Slot {
    match mode
    case OnSrc => s.(src := r)
    case OnFirst => s.(first := r)
    case OnSecond => s.(second := r)
  }

  function GetRef(s: Slot, mode: Mode): Ref {
    match mode
    case OnSrc => s.src
    case OnFirst => s.first
    case OnSecond => s.second
  }

  function WithFlags(r: Ref, flags: set<Flag>): Ref {
    r.(flags := r.flags + flags)
  }

  // ----- Traversal -----------------------------------------------------------------------

  function RelOf(ident: Option<Ident>, default: nat): nat {
    var rel := ExpandTravIdent(ident);
    if rel.Some? && rel.value.Some? then rel.value.value else default
  }

  lemma {:induction false} RunUp(m: Machine, t: TermId)
    requires m.current < |m.terms| && Sound(ExpandUp(t)) && t.travUp && m.mode == OnSrc
    ensures Leaves(m, ExpandUp(t), OnSrc,
      m.Here().(src := WithFlags(m.Here().src, {UpFlag}), trav := RelOf(t.upIdent, m.Here().trav)))
  {
    var trav := ExpandTravIdent(t.upIdent);
    RunOne(m, Up(trav.value));
    var s := m.Here().(src := WithFlags(m.Here().src, {UpFlag}));
    AtAt(m, OnSrc, s, OnSrc, s.(trav := RelOf(t.upIdent, s.trav)));
  }

  lemma {:induction false} RunCascade(m: Machine, t: TermId)
    requires m.current < |m.terms| && Sound(ExpandCascade(t)) && t.travCascade && m.mode == OnSrc
    ensures Leaves(m, ExpandCascade(t), OnSrc,
      m.Here().(src := WithFlags(m.Here().src, {UpFlag, CascadeFlag}), trav := RelOf(t.cascadeIdent, m.Here().trav)))
  {
    var trav := ExpandTravIdent(t.cascadeIdent);
    RunOne(m, Cascade(trav.value));
    var s := m.Here().(src := WithFlags(m.Here().src, {UpFlag}));
    var u := s.(trav := RelOf(t.cascadeIdent, s.trav));
    var v := u.(src := WithFlags(m.Here().src, {UpFlag, CascadeFlag}));
    assert WithFlags(u.src, {CascadeFlag}) == v.src;
    AtAt(m, OnSrc, s, OnSrc, u);
    AtAt(m, OnSrc, u, OnSrc, v);
  }

  lemma {:induction false} RunFlag(m: Machine, c: Call, f: Flag)
    requires m.current < |m.terms|
    requires (c == Desc && f == DescFlag) || (c == SelfTrav && f == SelfFlag)
    ensures Leaves(m, [c], m.mode, SetRef(m.Here(), m.mode, WithFlags(GetRef(m.Here(), m.mode), {f})))
  {
    RunOne(m, c);
  }

  /** Traversal calls add their flags to the selected reference and may set the relationship. */
  function Traversed(s: Slot, mode: Mode, t: TermId): Slot {
    SetRef(s, mode, WithTrav(GetRef(s, mode), t)).(trav := TravRel(t, s.trav))
  }

  lemma {:induction false} RunTrav(m: Machine, t: TermId)
    requires m.current < |m.terms| && Sound(ExpandTrav(t))
    requires m.mode == OnSrc || !(t.travUp || t.travCascade)
    ensures Leaves(m, ExpandTrav(t), m.mode, Traversed(m.Here(), m.mode, t))
  {
    var up, cascade := ExpandUp(t), ExpandCascade(t);
    var desc: seq<Call>, self: seq<Call> := if t.travDesc then [Desc] else [], if t.travSelf then [SelfTrav] else [];
    SoundAppend(up + cascade + desc, self);
    SoundAppend(up + cascade, desc);
    SoundAppend(up, cascade);
    var s0 := m.Here();
    Nothing(m);
    var s1 := if t.travUp then s0.(src := WithFlags(s0.src, {UpFlag}), trav := RelOf(t.upIdent, s0.trav)) else s0;
    if t.travUp { RunUp(m, t); }
    var m1 := At(m, m.mode, s1);
    AtAt(m, m.mode, s1, m.mode, s1);
    Nothing(m1);
    var s2 :=
      if t.travCascade then
        s1.(src := WithFlags(s1.src, {UpFlag, CascadeFlag}), trav := RelOf(t.cascadeIdent, s1.trav))
      else s1;
    if t.travCascade { RunCascade(m1, t); }
    Then(m, up, m.mode, s1, cascade, m.mode, s2);
    var m2 := At(m, m.mode, s2);
    AtAt(m, m.mode, s2, m.mode, s2);
    Nothing(m2);
    var s3 := if t.travDesc then SetRef(s2, m.mode, WithFlags(GetRef(s2, m.mode), {DescFlag})) else s2;
    if t.travDesc { RunFlag(m2, Desc, DescFlag); }
    Then(m, up + cascade, m.mode, s2, desc, m.mode, s3);
    var m3 := At(m, m.mode, s3);
    AtAt(m, m.mode, s3, m.mode, s3);
    Nothing(m3);
    var s4 := if t.travSelf then SetRef(s3, m.mode, WithFlags(GetRef(s3, m.mode), {SelfFlag})) else s3;
    if t.travSelf { RunFlag(m3, SelfTrav, SelfFlag); }
    Then(m, up + cascade + desc, m.mode, s3, self, m.mode, s4);
    TraversedIs(s0, m.mode, t, s1, s2, s3, s4);
  }

  lemma {:induction false} TraversedIs(s0: Slot, mode: Mode, t: TermId, s1: Slot, s2: Slot, s3: Slot, s4: Slot)
    requires mode == OnSrc || !(t.travUp || t.travCascade)
    requires s1 == if t.travUp then s0.(src := WithFlags(s0.src, {UpFlag}), trav := RelOf(t.upIdent, s0.trav)) else s0
    requires s2 ==
      if t.travCascade then
        s1.(src := WithFlags(s1.src, {UpFlag, CascadeFlag}), trav := RelOf(t.cascadeIdent, s1.trav))
      else s1
    requires s3 == if t.travDesc then SetRef(s2, mode, WithFlags(GetRef(s2, mode), {DescFlag})) else s2
    requires s4 == if t.travSelf then SetRef(s3, mode, WithFlags(GetRef(s3, mode), {SelfFlag})) else s3
    ensures s4 == Traversed(s0, mode, t)
  {
    var r := GetRef(s0, mode);
    assert GetRef(s4, mode).flags == r.flags + TravFlags(t);
    assert GetRef(s4, mode) == WithTrav(r, t);
  }

  /** `up` and `cascade` are refused away from the source. */
  lemma {:induction false} UpOffSourcePanics(m: Machine, t: TermId)
    requires m.mode != OnSrc && (t.travUp || t.travCascade)
    ensures m.Run(ExpandTrav(t)).None?
  {
    assert ExpandTrav(t)[0] == CompileError || ExpandTrav(t)[0].Up? || ExpandTrav(t)[0].Cascade?;
    assert m.Step(ExpandTrav(t)[0]).None?;
  }

  /** Traversal calls behind a selected reference. */
  lemma {:induction false} RunTravOn(m: Machine, part: Mode, t: TermId)
    requires m.current < |m.terms| && Sound(ExpandTravOn(part, t))
    requires part == OnSrc || !t.HasTrav() || (m.AccessValid() && !(t.travUp || t.travCascade))
    ensures Leaves(m, ExpandTravOn(part, t), if t.HasTrav() then part else m.mode, Traversed(m.Here(), part, t))
  {
    if t.HasTrav() {
      SoundAppend([Select(part)], ExpandTrav(t));
      RunOne(m, Select(part));
      AtAt(m, part, m.Here(), part, m.Here());
      assert At(m, part, m.Here()).terms == m.terms;
      RunTrav(m.(mode := part), t);
      Then(m, [Select(part)], part, m.Here(), ExpandTrav(t), part, Traversed(m.Here(), part, t));
    } else {
      Nothing(m);
      assert GetRef(m.Here(), part).flags + {} == GetRef(m.Here(), part).flags;
    }
  }

  // ----- References ----------------------------------------------------------------------

  /** A setter replaces an entity, and adds a name to the reference it is given. */
  function Assigned(r: Ref, arg: Arg): Ref {
    match arg
    case Ent(e) => r.(id := e, flags := {})
    case Text(_) => r.(flags := r.flags + ArgRef(arg).flags, name := ArgRef(arg).name)
  }

  lemma {:induction false} AssignedFresh(arg: Arg)
    ensures Assigned(NO_REF, arg) == ArgRef(arg)
  {
  }

  lemma {:induction false} RunAssign(m: Machine, arg: Arg)
    requires m.current < |m.terms| && (m.mode == OnSrc || m.current >= m.generic)
    ensures m.AssignArg(arg) == Some(At(m, m.mode, SetRef(m.Here(), m.mode, Assigned(GetRef(m.Here(), m.mode), arg))))
  {
  }

  lemma {:induction false} RunSetPart(m: Machine, part: Mode, arg: Arg)
    requires m.current < |m.terms| && m.current >= m.generic && part != OnSrc && arg != Text("")
    ensures Leaves(m, [if part == OnFirst then SetFirst(arg) else SetSecond(arg)], OnSrc,
      SetRef(m.Here(), part, Assigned(GetRef(m.Here(), part), arg)))
  {
    RunOne(m, if part == OnFirst then SetFirst(arg) else SetSecond(arg));
    RunAssign(m.(mode := part), arg);
  }

  lemma {:induction false} RunSetSrc(m: Machine, arg: Arg)
    requires m.current < |m.terms| && arg != Text("")
    ensures Leaves(m, [SetSrc(arg)], OnSrc, m.Here().(src := Assigned(m.Here().src, arg)))
  {
    RunOne(m, SetSrc(arg));
    RunAssign(m.(mode := OnSrc), arg);
  }

  /** The argument an identifier is passed as. */
  function ValueOf(ident: Ident): Arg {
    if ArgOf(ident).Some? then ArgOf(ident).value else Ent(ident.TypeEntity().value)
  }

  lemma {:induction false} ValueOfIsIdentRef(ident: Ident)
    ensures ArgRef(ValueOf(ident)) == IdentRef(ident)
  {
    if ident.Variable? {
      assert ("$" + ident.name)[1..] == ident.name;
    }
  }

  lemma {:induction false} RunSource(m: Machine, ident: Ident)
    requires m.current < |m.terms| && Sound(ExpandSource(ident))
    ensures Leaves(m, ExpandSource(ident), OnSrc, m.Here().(src := Assigned(m.Here().src, ValueOf(ident))))
  {
    assert ExpandSource(ident) == [SetSrc(ValueOf(ident))];
    RunSetSrc(m, ValueOf(ident));
  }

  // ----- Operator and access -------------------------------------------------------------

  lemma {:induction false} RunOper(m: Machine, oper: TermOper)
    requires m.current < |m.terms| && m.current >= m.generic
    ensures oper == And ==> Leaves(m, ExpandOperator(oper, false), m.mode, m.Here())
    ensures oper != And ==> Leaves(m, ExpandOperator(oper, false), m.mode, m.Here().(oper := OperOf(oper)))
  {
    Nothing(m);
    if oper == NotOr {
      RunOne(m, SetOper(OpNot));
      var s, u := m.Here().(oper := OpNot), m.Here().(oper := OpOr);
      AtAt(m, m.mode, s, m.mode, u);
      RunOne(At(m, m.mode, s), SetOper(OpOr));
      Then(m, [SetOper(OpNot)], m.mode, s, [SetOper(OpOr)], m.mode, u);
    } else if oper != And {
      RunOne(m, ExpandOperator(oper, false)[0]);
    }
  }

  lemma {:induction false} RunAccess(m: Machine, access: Access, reference: Reference, iterTerm: bool)
    requires m.current < |m.terms| && Sound(ExpandAccess(access, reference, iterTerm))
    requires !iterTerm ==> m.current >= m.generic
    ensures Leaves(m, ExpandAccess(access, reference, iterTerm), m.mode,
      m.Here().(inout := AccessOf(access, m.Here().inout)))
  {
    Nothing(m);
    var calls := ExpandAccess(access, reference, iterTerm);
    if (if iterTerm then access !in {AccessOmitted, AccessFilter} else reference != RefNone) { assert false; }
    if access != AccessOmitted {
      RunOne(m, calls[0]);
    }
  }
}
