/**
 * Exactly which queries are built without a panic.
 *
 * Whether a call panics depends on the builder's registers alone, so the question is answered on
 * the registers: `Control` is the builder without its terms.
 */
module DslProgress {
  import opened Wrappers
  import opened Sequences
  import opened TermBuilder
  import opened DslSyntax
  import opened DslBuilder
  import opened DslMeaning

  datatype Control = Control(generic: nat, current: nat, next: nat, mode: Mode) {
    predicate AccessValid() {
      current >= generic || mode == OnSrc
    }

    /** Any access to the current term. */
    function Touch(): Option<Control> {
      if current < TERM_COUNT_MAX then Some(this) else None
    }

    function Open(): Option<Control> {
      if current < TERM_COUNT_MAX then Some(this.(current := next, next := next + 1)) else None
    }

    function AssignArg(arg: Arg): Option<Control> {
      match arg
      case Ent(_) => if AccessValid() then Touch() else None
      case Text(text) => if |text| > 0 && text[0] == '$' && !AccessValid() then None else Touch()
    }

    function AssignPart(part: Mode, arg: Arg): Option<Control> {
      if arg == Text("") || !AccessValid() then None
      else
        var c :- this.(mode := part).AssignArg(arg);
        Some(c.(mode := OnSrc))
    }

    function With(target: WithArg): Option<Control> {
      var c :- Open();
      var d :- c.Touch();
      if target.WithText? then d.AssignPart(OnSecond, Text(target.text)) else Some(d)
    }

    function Scope(): Option<Control> {
      var c :- With(WithEntity(SCOPE_OPEN));
      if c.AccessValid() then Some(c) else None
    }

    function Step(c: Call): Option<Control> {
      match c
      case NewTerm => Open()
      case TermAt(i) => if i < TERM_COUNT_MAX then Some(this.(mode := OnSrc, current := i)) else None
      case With(target) => With(target)
      case ScopeOpen => Scope()
      case ScopeClose => Scope()
      case SetId(id) => AssignArg(Ent(id))
      case SetVar(_) => if AccessValid() then Touch() else None
      case SetName(_) => Touch()
      case SetFirst(arg) => AssignPart(OnFirst, arg)
      case SetSecond(arg) => AssignPart(OnSecond, arg)
      case SetSrc(arg) => if arg == Text("") then None else this.(mode := OnSrc).AssignArg(arg)
      case Select(part) => if part == OnSrc || AccessValid() then Some(this.(mode := part)) else None
      case Up(_) => if mode == OnSrc then Touch() else None
      case Cascade(_) => if mode == OnSrc then Touch() else None
      case Desc => Touch()
      case SelfTrav => Touch()
      case SetOper(oper) => if !AccessValid() || (oper == OpOptional && current < generic) then None else Touch()
      case SetInOut(kind) =>
        if (kind in {IoIn, IoOut, IoInOut} && current < generic) || (kind != IoFilter && !AccessValid()) then None
        else Touch()
      case CompileError => None
    }

    function Go(calls: seq<Call>): Option<Control>
      decreases |calls|
    {
      if calls == [] then Some(this)
      else
        var c :- Step(calls[0]);
        c.Go(calls[1..])
    }
  }

  function ControlOf(m: Machine): Control {
    Control(m.generic, m.current, m.next, m.mode)
  }

  /** The builder and its registers agree: both panic, or both go on and still agree. */
  predicate Agree(r: Option<Machine>, c: Option<Control>) {
    && (r.Some? <==> c.Some?)
    && (r.Some? ==> |r.value.terms| == TERM_COUNT_MAX && ControlOf(r.value) == c.value)
  }

  lemma {:induction false} PutAgrees(m: Machine, s: Slot)
    requires |m.terms| == TERM_COUNT_MAX
    ensures Agree(m.Put(s), ControlOf(m).Touch())
  {
  }

  lemma {:induction false} AssignAgrees(m: Machine, arg: Arg)
    requires |m.terms| == TERM_COUNT_MAX
    ensures Agree(m.AssignArg(arg), ControlOf(m).AssignArg(arg))
  {
  }

  lemma {:induction false} PartAgrees(m: Machine, part: Mode, arg: Arg)
    requires |m.terms| == TERM_COUNT_MAX
    ensures Agree(m.AssignPart(part, arg), ControlOf(m).AssignPart(part, arg))
  {
    if arg != Text("") && m.AccessValid() { AssignAgrees(m.(mode := part), arg); }
  }

  lemma {:induction false} WithAgrees(m: Machine, target: WithArg)
    requires |m.terms| == TERM_COUNT_MAX
    ensures Agree(m.WithTarget(target), ControlOf(m).With(target))
  {
    if target.WithText? && m.OpenTerm().Some? {
      var n := m.OpenTerm().value.InitTerm(target.rel);
      if n.Some? {
        PartAgrees(n.value, OnSecond, Text(target.text));
        var o := n.value.AssignPart(OnSecond, Text(target.text));
        if o.Some? { PutAgrees(o.value, o.value.Here().(inout := IoIn)); }
      }
    }
  }

  lemma {:induction false} ScopeAgrees(m: Machine, marker: Entity)
    requires |m.terms| == TERM_COUNT_MAX
    ensures Agree(m.Scope(marker), ControlOf(m).Scope())
  {
    WithAgrees(m, WithEntity(marker));
  }

  lemma {:induction false} StepAgrees(m: Machine, c: Call)
    requires |m.terms| == TERM_COUNT_MAX
    ensures Agree(m.Step(c), ControlOf(m).Step(c))
  {
    match c
    case With(target) => WithAgrees(m, target);
    case ScopeOpen => ScopeAgrees(m, SCOPE_OPEN);
    case ScopeClose => ScopeAgrees(m, SCOPE_CLOSE);
    case SetId(id) => AssignAgrees(m, Ent(id));
    case SetFirst(arg) => PartAgrees(m, OnFirst, arg);
    case SetSecond(arg) => PartAgrees(m, OnSecond, arg);
    case SetSrc(arg) => AssignAgrees(m.(mode := OnSrc), arg);
    case _ =>
  }

  lemma {:induction false} RunAgrees(m: Machine, calls: seq<Call>)
    requires |m.terms| == TERM_COUNT_MAX
    ensures Agree(m.Run(calls), ControlOf(m).Go(calls))
    decreases |calls|
  {
    if calls != [] {
      StepAgrees(m, calls[0]);
      if m.Step(calls[0]).Some? { RunAgrees(m.Step(calls[0]).value, calls[1..]); }
    }
  }

  lemma {:induction false} GoAppend(c: Control, a: seq<Call>, b: seq<Call>)
    ensures c.Go(a + b) == (var d := c.Go(a); if d.None? then None else d.value.Go(b))
    decreases |a|
  {
    if a == [] {
      assert a + b == b;
    } else {
      assert (a + b)[0] == a[0] && (a + b)[1..] == a[1..] + b;
      if c.Step(a[0]).Some? { GoAppend(c.Step(a[0]).value, a[1..], b); }
    }
  }

  lemma {:induction false} GoOne(c: Control, call: Call)
    ensures c.Go([call]) == c.Step(call)
  {
    assert [call][1..] == [];
    if c.Step(call).Some? { assert c.Step(call).value.Go([call][1..]) == c.Step(call); }
  }

  // ----- Calls that stay on the current term ---------------------------------------------

  /** The calls go through exactly if they are sound and `ok`, and end in reference mode `mode`. */
  predicate Passes(c: Control, calls: seq<Call>, ok: bool, mode: Mode) {
    && (c.Go(calls).Some? <==> Sound(calls) && ok)
    && (c.Go(calls).Some? ==> c.Go(calls).value == c.(mode := mode))
  }

  lemma {:induction false} PassesThen(
    c: Control, a: seq<Call>, ok: bool, mode: Mode, b: seq<Call>, ok': bool, mode': Mode)
    requires Passes(c, a, ok, mode) && Passes(c.(mode := mode), b, ok', mode')
    ensures Passes(c, a + b, ok && ok', mode')
  {
    GoAppend(c, a, b);
    SoundAppend(a, b);
  }

  lemma {:induction false} PassOne(c: Control, call: Call, ok: bool, mode: Mode)
    requires call != CompileError && Named(call) ==> (c.Step(call).Some? <==> ok)
    requires call == CompileError || !Named(call) ==> c.Step(call).None?
    requires c.Step(call).Some? ==> c.Step(call).value == c.(mode := mode)
    ensures Passes(c, [call], ok, mode)
  {
    GoOne(c, call);
  }

  lemma {:induction false} PassTrav(c: Control, t: TermId)
    requires c.current < TERM_COUNT_MAX
    ensures Passes(c, ExpandTrav(t), c.mode == OnSrc || !Climbs(t), c.mode)
  {
    var up, cascade := ExpandUp(t), ExpandCascade(t);
    var desc: seq<Call>, self: seq<Call> := if t.travDesc then [Desc] else [], if t.travSelf then [SelfTrav] else [];
    if t.travUp { PassOne(c, up[0], c.mode == OnSrc, c.mode); }
    if t.travCascade { PassOne(c, cascade[0], c.mode == OnSrc, c.mode); }
    if t.travDesc { PassOne(c, Desc, true, c.mode); }
    if t.travSelf { PassOne(c, SelfTrav, true, c.mode); }
    var okUp, okCascade := c.mode == OnSrc || !t.travUp, c.mode == OnSrc || !t.travCascade;
    PassesThen(c, up, okUp, c.mode, cascade, okCascade, c.mode);
    PassesThen(c, up + cascade, okUp && okCascade, c.mode, desc, true, c.mode);
    PassesThen(c, up + cascade + desc, okUp && okCascade, c.mode, self, true, c.mode);
  }

  lemma {:induction false} PassTravOn(c: Control, part: Mode, t: TermId)
    requires c.current < TERM_COUNT_MAX
    ensures Passes(c, ExpandTravOn(part, t), !t.HasTrav() || part == OnSrc || (c.AccessValid() && !Climbs(t)),
      if t.HasTrav() then part else c.mode)
  {
    if t.HasTrav() {
      PassOne(c, Select(part), part == OnSrc || c.AccessValid(), part);
      PassTrav(c.(mode := part), t);
      PassesThen(c, [Select(part)], part == OnSrc || c.AccessValid(), part,
        ExpandTrav(t), part == OnSrc || !Climbs(t), part);
    }
  }

  lemma {:induction false} PassElement(c: Control, ident: Ident, part: Mode)
    requires c.generic <= c.current < TERM_COUNT_MAX && part != OnSrc
    ensures Passes(c, ExpandPairComponent(ident, false, part), true, OnSrc)
  {
    var arg := if ArgOf(ident).Some? then ArgOf(ident).value else Ent(ident.TypeEntity().value);
    var call := if part == OnFirst then SetFirst(arg) else SetSecond(arg);
    assert ExpandPairComponent(ident, false, part) == [call];
    PassOne(c, call, true, OnSrc);
  }

  lemma {:induction false} PassElementTravs(c: Control, f: TermId, s: TermId)
    requires c.current < TERM_COUNT_MAX && c.mode == OnSrc
    ensures Passes(c, ExpandTravOn(OnFirst, f) + ExpandTravOn(OnSecond, s),
      !Climbs(f) && !Climbs(s) && (c.current >= c.generic || !f.HasTrav() || !s.HasTrav()), PairMode(f, s, OnSrc))
  {
    PassTravOn(c, OnFirst, f);
    var mode := if f.HasTrav() then OnFirst else OnSrc;
    var d := c.(mode := mode);
    PassTravOn(d, OnSecond, s);
    PassesThen(c, ExpandTravOn(OnFirst, f), !f.HasTrav() || !Climbs(f), mode,
      ExpandTravOn(OnSecond, s), !s.HasTrav() || (d.AccessValid() && !Climbs(s)), PairMode(f, s, OnSrc));
  }

  lemma {:induction false} PassPair(c: Control, f: TermId, s: TermId)
    requires c.generic <= c.current < TERM_COUNT_MAX
    ensures Passes(c, ExpandPair(f, s, false), !Climbs(f) && !Climbs(s), PairMode(f, s, OnSrc))
  {
    if f.ident.None? || s.ident.None? {
      GoOne(c, CompileError);
    } else {
      var a := ExpandPairComponent(f.ident.value, false, OnFirst) + ExpandPairComponent(s.ident.value, false, OnSecond);
      var b := ExpandTravOn(OnFirst, f) + ExpandTravOn(OnSecond, s);
      PassElements(c, f.ident.value, s.ident.value);
      PassElementTravs(c.(mode := OnSrc), f, s);
      PassesThen(c, a, true, OnSrc, b, !Climbs(f) && !Climbs(s), PairMode(f, s, OnSrc));
      PairCalls(f, s);
    }
  }

  lemma {:induction false} PairCalls(f: TermId, s: TermId)
    requires f.ident.Some? && s.ident.Some?
    ensures ExpandPair(f, s, false) ==
      ExpandPairComponent(f.ident.value, false, OnFirst) + ExpandPairComponent(s.ident.value, false, OnSecond) +
      (ExpandTravOn(OnFirst, f) + ExpandTravOn(OnSecond, s))
  {
  }

  lemma {:induction false} PassElements(c: Control, first: Ident, second: Ident)
    requires c.generic <= c.current < TERM_COUNT_MAX
    ensures Passes(c,
      ExpandPairComponent(first, false, OnFirst) + ExpandPairComponent(second, false, OnSecond), true, OnSrc)
  {
    PassElement(c, first, OnFirst);
    PassElement(c.(mode := OnSrc), second, OnSecond);
    PassesThen(c, ExpandPairComponent(first, false, OnFirst), true, OnSrc,
      ExpandPairComponent(second, false, OnSecond), true, OnSrc);
  }

  lemma {:induction false} PassSource(c: Control, ident: Ident)
    requires c.current < TERM_COUNT_MAX
    ensures Passes(c, ExpandSource(ident), true, OnSrc)
  {
    PassOne(c, ExpandSource(ident)[0], true, OnSrc);
  }

  lemma {:induction false} PassOper(c: Control, oper: TermOper)
    requires c.generic <= c.current < TERM_COUNT_MAX
    ensures Passes(c, ExpandOperator(oper, false), true, c.mode)
  {
    if oper == NotOr {
      PassOne(c, SetOper(OpNot), true, c.mode);
      PassOne(c, SetOper(OpOr), true, c.mode);
      PassesThen(c, [SetOper(OpNot)], true, c.mode, [SetOper(OpOr)], true, c.mode);
    } else if oper != And {
      PassOne(c, ExpandOperator(oper, false)[0], true, c.mode);
    }
  }

  lemma {:induction false} PassAccess(c: Control, access: Access, reference: Reference, iterTerm: bool)
    requires c.current < TERM_COUNT_MAX && (!iterTerm ==> c.current >= c.generic)
    ensures Passes(c, ExpandAccess(access, reference, iterTerm), true, c.mode)
  {
    var calls := ExpandAccess(access, reference, iterTerm);
    if calls != [] {
      if calls[0] == CompileError {
        assert c.Step(calls[0]).None?;
      } else {
        PassOne(c, calls[0], true, c.mode);
      }
    }
  }

  lemma {:induction false} PassRest(c: Control, t: Term, iterTerm: bool)
    requires c.current < TERM_COUNT_MAX && (!iterTerm ==> c.current >= c.generic)
    ensures Passes(c, ExpandRest(t, iterTerm), true, if SelectsSource(t) then OnSrc else c.mode)
  {
    var a := if t.source.ident.Some? then ExpandSource(t.source.ident.value) else [];
    var b, d, e := ExpandOperator(t.oper, iterTerm), ExpandTravOn(OnSrc, t.source),
      ExpandAccess(t.access, t.reference, iterTerm);
    var m1 := if t.source.ident.Some? then OnSrc else c.mode;
    if t.source.ident.Some? { PassSource(c, t.source.ident.value); }
    var c1 := c.(mode := m1);
    if !iterTerm { PassOper(c1, t.oper); } else if b != [] { GoOne(c1, CompileError); }
    PassesThen(c, a, true, m1, b, true, m1);
    var m2 := if t.source.HasTrav() then OnSrc else m1;
    PassTravOn(c1, OnSrc, t.source);
    PassesThen(c, a + b, true, m1, d, true, m2);
    PassAccess(c.(mode := m2), t.access, t.reference, iterTerm);
    PassesThen(c, a + b + d, true, m2, e, true, m2);
  }

  lemma {:induction false} PassComponent(c: Control, id: TermId)
    requires c.current < TERM_COUNT_MAX &&
      (c.current >= c.generic || (id.ident.Some? && id.ident.value.TypeEntity().Some?))
    ensures Passes(c, ExpandComponent(id), c.mode == OnSrc || !Climbs(id), c.mode)
  {
    if id.ident.None? {
      GoOne(c, CompileError);
    } else {
      var a := ComponentSetter(id.ident.value);
      if a != [] { PassOne(c, a[0], true, c.mode); }
      PassTrav(c, id);
      PassesThen(c, a, true, c.mode, ExpandTrav(id), c.mode == OnSrc || !Climbs(id), c.mode);
    }
  }

  lemma {:induction false} PassEqualityLeft(c: Control, left: Ident)
    requires c.current < TERM_COUNT_MAX
    ensures Passes(c, ExpandEqualityLeft(left), true, if NamesSource(left) then OnSrc else c.mode)
  {
    if NamesSource(left) { PassOne(c, ExpandEqualityLeft(left)[0], true, OnSrc); }
  }

  // ----- Terms ---------------------------------------------------------------------------

  /** Between two terms. */
  predicate Standing(c: Control) {
    c.current < TERM_COUNT_MAX && c.generic <= c.next <= TERM_COUNT_MAX
  }

  /** The calls take `width` terms; they go through exactly if they are sound, `ok` and fit. */
  predicate Advances(c: Control, calls: seq<Call>, ok: bool, width: nat, mode: Mode) {
    var r := c.Go(calls);
    && (r.Some? <==> Sound(calls) && ok && c.next + width <= TERM_COUNT_MAX)
    && (r.Some? ==>
          Standing(r.value) && r.value.generic == c.generic && r.value.next == c.next + width && r.value.mode == mode)
  }

  lemma {:induction false} AdvancesThen(
    c: Control, a: seq<Call>, ok: bool, width: nat, mode: Mode, b: seq<Call>, ok': bool, width': nat, mode': Mode)
    requires Advances(c, a, ok, width, mode)
    requires c.Go(a).Some? ==> Advances(c.Go(a).value, b, ok', width', mode')
    ensures Advances(c, a + b, ok && ok', width + width', mode')
  {
    GoAppend(c, a, b);
    SoundAppend(a, b);
  }

  /** What the accessor of a term does to the registers. */
  lemma {:induction false} AccessorGoes(c: Control, t: Term)
    requires Standing(c) && !t.ty.Scope?
    ensures var r := c.Step(Accessor(t));
      && (Accessor(t) == CompileError || !Named(Accessor(t)) ==> r.None?)
      && (r.None? ==> Accessor(t) == CompileError || !Named(Accessor(t)) || c.next == TERM_COUNT_MAX)
      && (r.Some? ==> r.value == Control(c.generic, c.next, c.next + 1, if OpensText(t) then OnSrc else c.mode))
      && (r.Some? && Accessor(t) != NewTerm ==> c.next < TERM_COUNT_MAX)
  {
  }

  lemma {:induction false} PassType(c: Control, t: Term)
    requires c.generic <= c.current < TERM_COUNT_MAX && !t.ty.Scope?
    requires OpensText(t) ==> c.mode == OnSrc
    ensures Passes(c, ExpandType(t, false), Goes(t, c.mode),
      match t.ty
      case Pair(f, s) => PairMode(f, s, OnSrc)
      case Equality(left, _, _) => if NamesSource(left) then OnSrc else c.mode
      case _ => c.mode)
  {
    match t.ty
    case Pair(f, s) => PassPair(c, f, s);
    case Component(id) => PassComponent(c, id);
    case Equality(left, _, _) => PassEqualityLeft(c, left);
  }

  lemma {:induction false} PassOps(c: Control, t: Term, mode: Mode)
    requires c.generic <= c.current < TERM_COUNT_MAX && !t.ty.Scope?
    requires c.mode == if OpensText(t) then OnSrc else mode
    ensures Passes(c, Ops(t), Goes(t, mode), ModeAfter(t, mode))
  {
    PassType(c, t);
    var m1 := match t.ty
      case Pair(f, s) => PairMode(f, s, OnSrc)
      case Equality(left, _, _) => if NamesSource(left) then OnSrc else c.mode
      case _ => c.mode;
    PassRest(c.(mode := m1), t, false);
    PassesThen(c, ExpandType(t, false), Goes(t, mode), m1, ExpandRest(t, false), true, ModeAfter(t, mode));
  }

  /** With the array full, a term without an accessor of its own fails at its first call. */
  lemma {:induction false} FullArray(c: Control, t: Term)
    requires c.current == TERM_COUNT_MAX && !t.ty.Scope? && Accessor(t) == NewTerm
    ensures c.Go(Ops(t)).None?
  {
    assert c.Step(Ops(t)[0]).None?;
  }

  lemma {:induction false} LeafAdvances(c: Control, t: Term, index: nat)
    requires Standing(c) && !t.ty.Scope?
    ensures Advances(c, ExpandLeaf(t, index, false), Goes(t, c.mode), 1, ModeAfter(t, c.mode))
  {
    LeafCalls(t, index);
    GoAppend(c, [Accessor(t)], Ops(t));
    SoundAppend([Accessor(t)], Ops(t));
    GoOne(c, Accessor(t));
    AccessorGoes(c, t);
    var r := c.Step(Accessor(t));
    if r.Some? {
      if c.next == TERM_COUNT_MAX { FullArray(r.value, t); } else { PassOps(r.value, t, c.mode); }
    }
  }

  lemma {:induction false} MarkerAdvances(c: Control, call: Call)
    requires Standing(c) && (call == ScopeOpen || call == ScopeClose)
    ensures Advances(c, [call], true, 1, c.mode)
    ensures c.Go([call]).Some? ==> c.Go([call]).value.current >= c.generic
  {
    GoOne(c, call);
  }

  lemma {:induction false} PassesAdvances(c: Control, calls: seq<Call>, ok: bool, mode: Mode)
    requires Standing(c) && Passes(c, calls, ok, mode)
    ensures Advances(c, calls, ok, 0, mode)
  {
  }

  lemma {:induction false} ScopeStartAdvances(c: Control, t: Term)
    requires Standing(c)
    ensures Advances(c, [ScopeOpen] + ScopeOper(t), true, 1, c.mode)
  {
    MarkerAdvances(c, ScopeOpen);
    if c.Go([ScopeOpen]).Some? {
      var d := c.Go([ScopeOpen]).value;
      PassOper(d, t.oper);
      PassesAdvances(d, ScopeOper(t), true, d.mode);
    }
    AdvancesThen(c, [ScopeOpen], true, 1, c.mode, ScopeOper(t), true, 0, c.mode);
  }

  lemma {:induction false} ScopeEndAdvances(c: Control, t: Term)
    requires Standing(c)
    ensures Advances(c, [ScopeClose] + ExpandAccess(t.access, t.reference, false), true, 1, c.mode)
  {
    var access := ExpandAccess(t.access, t.reference, false);
    MarkerAdvances(c, ScopeClose);
    if c.Go([ScopeClose]).Some? {
      var d := c.Go([ScopeClose]).value;
      PassAccess(d, t.access, t.reference, false);
      PassesAdvances(d, access, true, d.mode);
    }
    AdvancesThen(c, [ScopeClose], true, 1, c.mode, access, true, 0, c.mode);
  }

  /** A term goes through exactly if its calls are sound, it fits and it can be added in this mode. */
  lemma {:induction false} TermAdvances(c: Control, t: Term, index: nat)
    requires Standing(c)
    ensures Advances(c, ExpandTerm(t, index, false), Goes(t, c.mode), Width(t), ModeAfter(t, c.mode))
    decreases t, 0
  {
    match t.ty
    case Scope(ts) =>
      var head, body := [ScopeOpen] + ScopeOper(t), Concat(TermsParts(ts, 0));
      var tail := [ScopeClose] + ExpandAccess(t.access, t.reference, false);
      ScopeCalls(t, index);
      ScopeStartAdvances(c, t);
      if c.Go(head).Some? { TermsAdvance(c.Go(head).value, ts, 0); }
      AdvancesThen(c, head, true, 1, c.mode, body, AllGo(ts, c.mode), Sum(Widths(ts)), ModeAfterAll(ts, c.mode));
      if c.Go(head + body).Some? { ScopeEndAdvances(c.Go(head + body).value, t); }
      AdvancesThen(c, head + body, AllGo(ts, c.mode), 1 + Sum(Widths(ts)), ModeAfterAll(ts, c.mode),
        tail, true, 1, ModeAfterAll(ts, c.mode));
    case _ =>
      LeafAdvances(c, t, index);
  }

  lemma {:induction false} TermsAdvance(c: Control, ts: seq<Term>, from: nat)
    requires Standing(c)
    ensures Advances(c, Concat(TermsParts(ts, from)), AllGo(ts, c.mode), Sum(Widths(ts)), ModeAfterAll(ts, c.mode))
    decreases ts, 1
  {
    if ts != [] {
      var part := ExpandTerm(ts[0], from, false);
      HeadPart(ts, from);
      HeadWidth(ts);
      TermAdvances(c, ts[0], from);
      if c.Go(part).Some? { TermsAdvance(c.Go(part).value, ts[1..], from + 1); }
      var mode := ModeAfter(ts[0], c.mode);
      AdvancesThen(c, part, Goes(ts[0], c.mode), Width(ts[0]), mode,
        Concat(TermsParts(ts[1..], from + 1)), AllGo(ts[1..], mode), Sum(Widths(ts[1..])), ModeAfterAll(ts[1..], mode));
    }
  }

  lemma {:induction false} HeadWidth(ts: seq<Term>)
    requires ts != []
    ensures Sum(Widths(ts)) == Width(ts[0]) + Sum(Widths(ts[1..]))
  {
    assert Widths(ts)[1..] == Widths(ts[1..]);
  }

  // ----- Iterator terms and the whole query ----------------------------------------------

  lemma {:induction false} PassIterType(c: Control, t: Term)
    requires c.current < c.generic && c.current < TERM_COUNT_MAX && c.mode == OnSrc && IsIterTerm(t)
    ensures Passes(c, ExpandType(t, true), IterGoes(t),
      if t.ty.Pair? then PairMode(t.ty.first, t.ty.second, OnSrc) else OnSrc)
  {
    match t.ty
    case Pair(f, s) =>
      assert ExpandType(t, true) == ExpandTravOn(OnFirst, f) + ExpandTravOn(OnSecond, s);
      PassElementTravs(c, f, s);
    case Component(id) => PassComponent(c, id);
  }

  lemma {:induction false} IterTermAdvances(c: Control, t: Term, i: nat)
    requires Standing(c) && i < c.generic <= TERM_COUNT_MAX && IsIterTerm(t)
    ensures Advances(c, ExpandLeaf(t, i, true), IterGoes(t), 0, IterModeAfter(t, c.mode))
  {
    PassIterOps(c.(current := i, mode := OnSrc), t);
    if IterOps(t) != [] {
      assert ExpandLeaf(t, i, true) == [TermAt(i)] + IterOps(t);
      SoundAppend([TermAt(i)], IterOps(t));
      GoAppend(c, [TermAt(i)], IterOps(t));
      GoOne(c, TermAt(i));
    }
  }

  lemma {:induction false} PassIterOps(c: Control, t: Term)
    requires c.current < c.generic && c.current < TERM_COUNT_MAX && c.mode == OnSrc && IsIterTerm(t)
    ensures Passes(c, IterOps(t), IterGoes(t),
      if SelectsSource(t) || t.ty.Component? then OnSrc else PairMode(t.ty.first, t.ty.second, OnSrc))
  {
    var mode := if t.ty.Pair? then PairMode(t.ty.first, t.ty.second, OnSrc) else OnSrc;
    PassIterType(c, t);
    PassRest(c.(mode := mode), t, true);
    PassesThen(c, ExpandType(t, true), IterGoes(t), mode,
      ExpandRest(t, true), true, if SelectsSource(t) then OnSrc else mode);
  }

  lemma {:induction false} ItersAdvance(c: Control, ts: seq<Term>, i: nat)
    requires Standing(c) && c.generic == Arity(ts) <= TERM_COUNT_MAX && i <= Arity(ts)
    ensures Advances(c, Concat(IterParts(ts)[i..]), ItersGo(ts, i), 0, IterMode(ts, i, c.mode))
    decreases Arity(ts) - i
  {
    if i < Arity(ts) {
      var part, rest := ExpandLeaf(ts[i], i, true), IterParts(ts)[i + 1..];
      IterPart(ts, i);
      IterTermAdvances(c, ts[i], i);
      if c.Go(part).Some? { ItersAdvance(c.Go(part).value, ts, i + 1); }
      var mode := IterModeAfter(ts[i], c.mode);
      AdvancesThen(c, part, IterGoes(ts[i]), 0, mode, Concat(rest), ItersGo(ts, i + 1), 0, IterMode(ts, i + 1, mode));
      ItersGoStep(ts, i);
    }
  }

  lemma {:induction false} IterPart(ts: seq<Term>, i: nat)
    requires i < Arity(ts)
    ensures Concat(IterParts(ts)[i..]) == ExpandLeaf(ts[i], i, true) + Concat(IterParts(ts)[i + 1..])
  {
    assert IterParts(ts)[i..][0] == IterParts(ts)[i] && IterParts(ts)[i..][1..] == IterParts(ts)[i + 1..];
  }

  lemma {:induction false} ItersGoStep(ts: seq<Term>, i: nat)
    requires i < Arity(ts)
    ensures ItersGo(ts, i) <==> IterGoes(ts[i]) && ItersGo(ts, i + 1)
  {
  }

  lemma {:induction false} ExpandAdvances(c: Control, ts: seq<Term>)
    requires Standing(c) && c.generic == Arity(ts) <= TERM_COUNT_MAX && c.mode == OnSrc
    ensures c.Go(Expand(ts)).Some? <==>
      Sound(Expand(ts)) && QueryGoes(ts) && c.next + Sum(Widths(ts[Arity(ts)..])) <= TERM_COUNT_MAX
  {
    var n, tail, mode := Arity(ts), ts[Arity(ts)..], IterMode(ts, 0, OnSrc);
    var head, rest := Concat(IterParts(ts)), Concat(TermsParts(tail, n));
    assert IterParts(ts)[0..] == IterParts(ts);
    ItersAdvance(c, ts, 0);
    if c.Go(head).Some? { TermsAdvance(c.Go(head).value, tail, n); }
    AdvancesThen(c, head, ItersGo(ts, 0), 0, mode, rest, AllGo(tail, mode), Sum(Widths(tail)),
      ModeAfterAll(tail, mode));
  }
}
