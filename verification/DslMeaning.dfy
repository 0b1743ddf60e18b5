/**
 * What a query term means, and that running the emitted builder calls produces it.
 *
 * The meaning of a term is read off the parsed term alone: which entity, variable or name each
 * of its three references stands for, how the source is traversed, its operator and its access.
 */
module DslMeaning {
  import opened Wrappers
  import opened TermBuilder
  import opened DslSyntax
  import opened Sequences
  import opened DslBuilder

  // ----- Meaning of a term ---------------------------------------------------------------

  /** A name stands for an entity to look up, or with a leading `$` for a variable. */
  function ArgRef(arg: Arg): Ref {
    match arg
    case Ent(e) => Ref(e, {}, None)
    case Text(text) =>
      if |text| > 0 && text[0] == '$' then Ref(0, {IsVariable}, Some(text[1..]))
      else Ref(0, {IsEntity}, Some(text))
  }

  function IdentRef(ident: Ident): Ref {
    match ident
    case Variable(name) => Ref(0, {IsVariable}, Some(name))
    case SelfVar(value) => ArgRef(value)
    case Local(value) => ArgRef(value)
    case Literal(text) => ArgRef(Text(text))
    case Type(e) => Ref(e, {}, None)
    case EnumType(e, _) => Ref(e, {}, None)
    case SelfType(e) => Ref(e, {}, None)
    case Wildcard => Ref(WILDCARD, {}, None)
    case Any => Ref(ANY, {}, None)
  }

  function TravFlags(t: TermId): set<Flag> {
    (if t.travUp then {UpFlag} else {}) +
    (if t.travCascade then {UpFlag, CascadeFlag} else {}) +
    (if t.travDesc then {DescFlag} else {}) +
    (if t.travSelf then {SelfFlag} else {})
  }

  /** The entity a relationship is given as, if it is. */
  function RelOf(ident: Option<Ident>): Option<Entity> {
    match ident
    case Some(Type(e)) => Some(e)
    case Some(Local(Ent(e))) => Some(e)
    case _ => None
  }

  /** The relationship named by a traversal; a cascade's wins over an up's. */
  function TravRel(t: TermId, default: nat): nat {
    if t.travCascade && RelOf(t.cascadeIdent).Some? then RelOf(t.cascadeIdent).value
    else if t.travUp && RelOf(t.upIdent).Some? then RelOf(t.upIdent).value
    else default
  }

  function WithTrav(r: Ref, t: TermId): Ref {
    r.(flags := r.flags + TravFlags(t))
  }

  function OperOf(oper: TermOper): OperKind {
    match oper
    case Not => OpNot
    case Optional => OpOptional
    case AndFrom => OpAndFrom
    case NotFrom => OpNotFrom
    case OrFrom => OpOrFrom
    case Or => OpOr
    case NotOr => OpOr
    case And => OpAnd
  }

  function AccessOf(access: Access, default: InOutKind): InOutKind {
    match access
    case AccessIn => IoIn
    case AccessOut => IoOut
    case AccessInOut => IoInOut
    case AccessFilter => IoFilter
    case AccessNone => IoNone
    case AccessOmitted => default
  }

  /** Right-hand side of an equality: an entity, or a text to compare with. */
  function RightText(oper: EqualityOper, right: Ident): Option<string> {
    match right
    case Literal(text) => Some(if oper == Match && |text| > 0 && text[0] == '!' then text[1..] else text)
    case Variable(name) => Some("$" + name)
    case Local(Text(text)) => Some(text)
    case _ => None
  }

  /** Id, first and second of a term: the component or pair it asks for. */
  function Target(t: Term): Slot
    requires !t.ty.Scope?
  {
    match t.ty
    case Pair(f, s) =>
      if f.ident.None? || s.ident.None? then NO_SLOT
      else NO_SLOT.(first := WithTrav(IdentRef(f.ident.value), f), second := WithTrav(IdentRef(s.ident.value), s))
    case Component(id) =>
      (match id.ident
       case None => NO_SLOT
       case Some(EnumType(e, v)) => NO_SLOT.(id := PairId(e, v))
       case Some(ident) => NO_SLOT.(first := IdentRef(ident)))
    case Equality(_, oper, right) =>
      var pred := if oper == Match then PRED_MATCH else PRED_EQ;
      match RightText(oper, right)
      case Some(text) => NO_SLOT.(first := Ref(pred, {}, None), second := ArgRef(Text(text)), inout := IoIn)
      case None =>
        match right
        case Type(e) => NO_SLOT.(id := PairId(pred, e))
        case Local(Ent(e)) => NO_SLOT.(id := PairId(pred, e))
        case _ => NO_SLOT
  }

  /** Where a term looks: its source, or the left-hand side of an equality. */
  function SourceRef(t: Term): Ref {
    match t.ty
    case Equality(left, _, _) => IdentRef(left)
    case _ => if t.source.ident.Some? then IdentRef(t.source.ident.value) else NO_REF
  }

  /** Traversal written after a component applies to the term's source. */
  function OwnTrav(t: Term): TermId {
    if t.ty.Component? then t.ty.id else NO_TERM_ID
  }

  /** A term over the slot that holds what it asks for. */
  function Denote(t: Term, target: Slot): Slot {
    target.(
      src := WithTrav(WithTrav(SourceRef(t), OwnTrav(t)), t.source),
      trav := TravRel(t.source, TravRel(OwnTrav(t), 0)),
      oper := OperOf(t.oper),
      inout := AccessOf(t.access, target.inout))
  }

  /** Slot of a term that is not an iterator term. */
  function Meaning(t: Term): Slot
    requires !t.ty.Scope?
  {
    Denote(t, Target(t))
  }

  /** Slot of a term that is an element of the iterator type; its reference is its default access. */
  function IterMeaning(t: Term): Slot
    requires IsIterTerm(t)
  {
    var s := NO_SLOT.(inout := if t.reference == RefMut then IoInOut else IoIn);
    Denote(t,
      match t.ty
      case Pair(f, e) =>
        s.(id := PairId(IdentRef(f.ident.value).id, IdentRef(e.ident.value).id),
           first := WithTrav(NO_REF, f),
           second := WithTrav(NO_REF, e))
      case Component(id) => s.(first := IdentRef(id.ident.value))
      case _ => s)
  }

  /** What a term makes of the iterator type: target, mutability and optionality. */
  predicate IsElement(ty: IterType, t: Term)
    requires IsIterTerm(t)
  {
    && (ty.mutable <==> t.reference == RefMut)
    && (ty.optional <==> t.oper == Optional)
    && match t.ty
       case Pair(f, s) => ty.target == WithPair(IdentRef(f.ident.value).id, IdentRef(s.ident.value).id)
       case Component(id) => ty.target == WithEntity(IdentRef(id.ident.value).id)
       case _ => false
  }

  /** The markers a scope is placed between; the access of a scope goes to its end marker. */
  function ScopeStart(t: Term): Slot {
    NO_SLOT.(first := Ref(SCOPE_OPEN, {}, None), src := Ref(0, {IsEntity}, None), oper := OperOf(t.oper))
  }

  function ScopeEnd(t: Term): Slot {
    NO_SLOT.(
      first := Ref(SCOPE_CLOSE, {}, None), src := Ref(0, {IsEntity}, None), inout := AccessOf(t.access, IoDefault))
  }

  /** All slots of a term: its own, or a scope's contents between its two markers. */
  function Slots(t: Term): seq<Slot>
    decreases t, 0
  {
    match t.ty
    case Scope(ts) => [ScopeStart(t)] + Concat(TermsSlots(ts)) + [ScopeEnd(t)]
    case _ => [Meaning(t)]
  }

  function TermsSlots(ts: seq<Term>): (parts: seq<seq<Slot>>)
    ensures |parts| == |ts|
    decreases ts, 1
  {
    seq(|ts|, k requires 0 <= k < |ts| => Slots(ts[k]))
  }

  /** Slots a term takes: one, or two more than a scope's contents. */
  function Width(t: Term): nat
    decreases t, 0
  {
    match t.ty
    case Scope(ts) => 2 + Sum(Widths(ts))
    case _ => 1
  }

  function Widths(ts: seq<Term>): (widths: seq<nat>)
    ensures |widths| == |ts|
    decreases ts, 1
  {
    seq<nat>(|ts|, k requires 0 <= k < |ts| => Width(ts[k]))
  }

  // ----- The reference mode terms leave behind -------------------------------------------

  /** The term's calls end by selecting the source again. */
  predicate SelectsSource(t: Term) {
    t.source.ident.Some? || t.source.HasTrav()
  }

  /** Traversal on a pair's element selects that element. */
  function PairMode(f: TermId, s: TermId, mode: Mode): Mode {
    if s.HasTrav() then OnSecond else if f.HasTrav() then OnFirst else mode
  }

  /** An equality with a text sets the second reference, and so goes back to the source. */
  predicate OpensText(t: Term) {
    t.ty.Equality? && RightText(t.ty.oper, t.ty.right).Some?
  }

  predicate NamesSource(left: Ident) {
    left.Variable? || left.Local?
  }

  /** The mode a term leaves behind: what is selected stays selected until a later setter. */
  function ModeAfter(t: Term, mode: Mode): Mode
    decreases t, 0
  {
    match t.ty
    case Pair(f, s) => if SelectsSource(t) then OnSrc else PairMode(f, s, OnSrc)
    case Component(_) => if SelectsSource(t) then OnSrc else mode
    case Equality(left, _, _) => if SelectsSource(t) || NamesSource(left) || OpensText(t) then OnSrc else mode
    case Scope(ts) => ModeAfterAll(ts, mode)
  }

  function ModeAfterAll(ts: seq<Term>, mode: Mode): Mode
    decreases ts, 1
  {
    if ts == [] then mode else ModeAfterAll(ts[1..], ModeAfter(ts[0], mode))
  }

  /** The mode after an iterator term; one that emits no calls leaves it alone. */
  function IterModeAfter(t: Term, mode: Mode): Mode
    requires IsIterTerm(t)
  {
    if IterOps(t) == [] then mode
    else if SelectsSource(t) || t.ty.Component? then OnSrc
    else PairMode(t.ty.first, t.ty.second, OnSrc)
  }

  /** The mode when the calls of the iterator terms from `i` on have run. */
  function IterMode(ts: seq<Term>, i: nat, mode: Mode): Mode
    requires i <= Arity(ts)
    decreases Arity(ts) - i
  {
    if i == Arity(ts) then mode else IterMode(ts, i + 1, IterModeAfter(ts[i], mode))
  }

  // ----- Terms the builder accepts -------------------------------------------------------

  predicate Climbs(t: TermId) {
    t.travUp || t.travCascade
  }

  /**
   * A term can be added in reference mode `mode`: no element of a pair climbs, and a component
   * that climbs finds the builder in source mode.
   */
  predicate Goes(t: Term, mode: Mode)
    decreases t, 0
  {
    match t.ty
    case Pair(f, s) => !Climbs(f) && !Climbs(s)
    case Component(id) => Climbs(id) ==> mode == OnSrc
    case Equality(_, _, _) => true
    case Scope(ts) => AllGo(ts, mode)
  }

  predicate AllGo(ts: seq<Term>, mode: Mode)
    decreases ts, 1
  {
    ts == [] || (Goes(ts[0], mode) && AllGo(ts[1..], ModeAfter(ts[0], mode)))
  }

  /** No element of an iterator term's pair climbs, and at most one is traversed. */
  predicate IterGoes(t: Term) {
    t.ty.Pair? ==>
      !Climbs(t.ty.first) && !Climbs(t.ty.second) && !(t.ty.first.HasTrav() && t.ty.second.HasTrav())
  }

  // ----- Terms that build what they mean -------------------------------------------------

  predicate EntityValued(ident: Ident) {
    ArgOf(ident).None? || ArgOf(ident).value.Ent?
  }

  /** A source given as an entity drops the flags of a traversal written on the component. */
  predicate KeepsFlags(t: Term) {
    t.ty.Component? && t.source.ident.Some? && EntityValued(t.source.ident.value) ==>
      TravFlags(OwnTrav(t)) <= TravFlags(t.source)
  }

  /**
   * A term added in mode `mode` builds the slots it means. A component's own traversal and the
   * markers of a scope go to whatever reference is selected; so does a component that is not a
   * type, which therefore reaches the first reference only if that happens to be selected.
   */
  predicate Means(t: Term, mode: Mode)
    decreases t, 0
  {
    match t.ty
    case Pair(_, _) => true
    case Component(id) =>
      && id.ident.Some?
      && KeepsFlags(t)
      && if id.ident.value.TypeEntity().Some? then id.HasTrav() ==> mode == OnSrc
         else mode == OnFirst && !id.HasTrav() && !DollarLiteral(id.ident.value)
    case Equality(left, _, _) => NamesSource(left)
    case Scope(ts) => mode == OnSrc && AllMean(ts, mode) && ModeAfterAll(ts, mode) == OnSrc
  }

  predicate AllMean(ts: seq<Term>, mode: Mode)
    decreases ts, 1
  {
    ts == [] || (Means(ts[0], mode) && AllMean(ts[1..], ModeAfter(ts[0], mode)))
  }

  /** `name` does not treat a leading `$` as a variable. */
  predicate DollarLiteral(ident: Ident) {
    ident.Literal? && |ident.text| > 0 && ident.text[0] == '$'
  }

  // ----- A whole query -------------------------------------------------------------------

  /** Slots of the iterator terms, which come first. */
  function IterSlots(ts: seq<Term>): (slots: seq<Slot>)
    ensures |slots| == Arity(ts)
  {
    seq(Arity(ts), k requires 0 <= k < Arity(ts) => IterMeaning(ts[k]))
  }

  function QuerySlots(ts: seq<Term>): seq<Slot> {
    IterSlots(ts) + Concat(TermsSlots(ts[Arity(ts)..]))
  }

  /** Terms of the array a query takes. */
  function QueryLength(ts: seq<Term>): nat {
    Arity(ts) + Sum(Widths(ts[Arity(ts)..]))
  }

  predicate ItersGo(ts: seq<Term>, i: nat)
    requires i <= Arity(ts)
  {
    forall k :: i <= k < Arity(ts) ==> IterGoes(ts[k])
  }

  /** No term of the query asks for something the builder refuses in the mode it finds. */
  predicate QueryGoes(ts: seq<Term>) {
    ItersGo(ts, 0) && AllGo(ts[Arity(ts)..], IterMode(ts, 0, OnSrc))
  }

  predicate ItersMean(ts: seq<Term>, i: nat)
    requires i <= Arity(ts)
  {
    forall k :: i <= k < Arity(ts) ==> KeepsFlags(ts[k])
  }

  /** Every term of the query builds what it means in the mode it finds. */
  predicate QueryMeans(ts: seq<Term>) {
    ItersMean(ts, 0) && AllMean(ts[Arity(ts)..], IterMode(ts, 0, OnSrc))
  }

  // ----- Well-formed call sequences ------------------------------------------------------

  predicate Named(c: Call) {
    match c
    case SetFirst(arg) => arg != Text("")
    case SetSecond(arg) => arg != Text("")
    case SetSrc(arg) => arg != Text("")
    case With(WithText(_, text)) => text != ""
    case _ => true
  }

  /** Compiles, and no name in it is empty. */
  predicate Sound(calls: seq<Call>)
    decreases |calls|
  {
    calls == [] || (calls[0] != CompileError && Named(calls[0]) && Sound(calls[1..]))
  }

  lemma {:induction false} RunNeedsSound(m: Machine, calls: seq<Call>)
    requires m.Run(calls).Some?
    ensures Sound(calls)
    decreases |calls|
  {
    if calls != [] { RunNeedsSound(m.Step(calls[0]).value, calls[1..]); }
  }

  lemma {:induction false} SoundAppend(a: seq<Call>, b: seq<Call>)
    ensures Sound(a + b) <==> Sound(a) && Sound(b)
    decreases |a|
  {
    if a == [] {
      assert a + b == b;
    } else {
      assert (a + b)[1..] == a[1..] + b;
      SoundAppend(a[1..], b);
    }
  }
}
