/**
 * From terms to builder calls (flecs_ecs_derive/src/dsl/builder.rs, expansion.rs and
 * ident_expander.rs).
 */
module DslBuilder {
  import opened Wrappers
  import opened TermBuilder
  import opened DslSyntax
  import opened Sequences

  /** The relationship of an `up` or `cascade`; anything but an entity does not compile. */
  function ExpandTravIdent(ident: Option<Ident>): Option<Option<Entity>> {
    match ident
    case None => Some(None)
    case Some(Local(Ent(e))) => Some(Some(e))
    case Some(Type(e)) => Some(Some(e))
    case _ => None
  }

  function ExpandUp(t: TermId): seq<Call> {
    if !t.travUp then []
    else
      var trav := ExpandTravIdent(t.upIdent);
      if trav.None? then [CompileError] else [Up(trav.value)]
  }

  function ExpandCascade(t: TermId): seq<Call> {
    if !t.travCascade then []
    else
      var trav := ExpandTravIdent(t.cascadeIdent);
      if trav.None? then [CompileError] else [Cascade(trav.value)]
  }

  function ExpandTrav(t: TermId): seq<Call> {
    ExpandUp(t) + ExpandCascade(t) +
    (if t.travDesc then [Desc] else []) +
    (if t.travSelf then [SelfTrav] else [])
  }

  /** What an identifier passes to a setter; `None` for types. */
  function ArgOf(ident: Ident): Option<Arg> {
    match ident
    case Variable(name) => Some(Text("$" + name))
    case SelfVar(value) => Some(value)
    case Local(value) => Some(value)
    case Literal(text) => Some(Text(text))
    case _ => None
  }

  function ExpandPairComponent(ident: Ident, iterTerm: bool, part: Mode): seq<Call>
    requires part != OnSrc
  {
    match ArgOf(ident)
    case Some(arg) => [if part == OnFirst then SetFirst(arg) else SetSecond(arg)]
    case None =>
      if !iterTerm && ident.TypeEntity().Some? then
        var e := ident.TypeEntity().value;
        [if part == OnFirst then SetFirst(Ent(e)) else SetSecond(Ent(e))]
      else []
  }

  function ExpandSource(ident: Ident): seq<Call> {
    match ArgOf(ident)
    case Some(arg) => [SetSrc(arg)]
    case None => if ident.TypeEntity().Some? then [SetSrc(Ent(ident.TypeEntity().value))] else []
  }

  /** Traversal calls under the reference mode they are meant for. */
  function ExpandTravOn(part: Mode, t: TermId): seq<Call> {
    if t.HasTrav() then [Select(part)] + ExpandTrav(t) else []
  }

  function ExpandPair(first: TermId, second: TermId, iterTerm: bool): seq<Call> {
    if first.ident.None? || second.ident.None? then [CompileError]
    else
      ExpandPairComponent(first.ident.value, iterTerm, OnFirst) +
      ExpandPairComponent(second.ident.value, iterTerm, OnSecond) +
      ExpandTravOn(OnFirst, first) +
      ExpandTravOn(OnSecond, second)
  }

  /** The accessor a component term replaces the default one with. */
  function ComponentAccessor(id: Ident): Option<Call> {
    match id
    case EnumType(e, v) => Some(With(WithPair(e, v)))
    case _ => if id.TypeEntity().Some? then Some(With(WithEntity(id.TypeEntity().value))) else None
  }

  /** Setter of a component that is not a type; it writes through the current reference mode. */
  function ComponentSetter(id: Ident): seq<Call> {
    match id
    case Variable(name) => [SetVar(name)]
    case SelfVar(Ent(e)) => [SetId(e)]
    case Local(Ent(e)) => [SetId(e)]
    case SelfVar(Text(_)) => [CompileError]
    case Local(Text(_)) => [CompileError]
    case Literal(text) => [SetName(text)]
    case _ => []
  }

  function ExpandComponent(id: TermId): seq<Call> {
    if id.ident.None? then [CompileError] else ComponentSetter(id.ident.value) + ExpandTrav(id)
  }

  function EqualityPredicate(oper: EqualityOper): Entity {
    if oper == Match then PRED_MATCH else PRED_EQ
  }

  function EqualityAccessor(oper: EqualityOper, right: Ident): Call {
    var pred := EqualityPredicate(oper);
    match right
    case Type(e) => With(WithPair(pred, e))
    case Literal(text) =>
      With(WithText(pred, if oper == Match && |text| > 0 && text[0] == '!' then text[1..] else text))
    case Variable(name) => With(WithText(pred, "$" + name))
    case Local(Ent(e)) => With(WithPair(pred, e))
    case Local(Text(text)) => With(WithText(pred, text))
    case _ => CompileError
  }

  function ExpandEqualityLeft(left: Ident): seq<Call> {
    match left
    case Variable(name) => [SetSrc(Text("$" + name))]
    case Local(value) => [SetSrc(value)]
    case _ => []
  }

  function ExpandOperator(oper: TermOper, iterTerm: bool): seq<Call> {
    if iterTerm then
      (if oper == And || oper == Optional then [] else [CompileError])
    else
      match oper
      case Not => [SetOper(OpNot)]
      case Or => [SetOper(OpOr)]
      case NotOr => [SetOper(OpNot), SetOper(OpOr)]
      case AndFrom => [SetOper(OpAndFrom)]
      case NotFrom => [SetOper(OpNotFrom)]
      case OrFrom => [SetOper(OpOrFrom)]
      case Optional => [SetOper(OpOptional)]
      case And => []
  }

  function ExpandAccess(access: Access, reference: Reference, iterTerm: bool): seq<Call> {
    if iterTerm then
      (if access == AccessOmitted then [] else if access == AccessFilter then [SetInOut(IoFilter)] else [CompileError])
    else
      (if reference == RefNone then [] else [CompileError]) +
      match access
      case AccessIn => [SetInOut(IoIn)]
      case AccessOut => [SetInOut(IoOut)]
      case AccessInOut => [SetInOut(IoInOut)]
      case AccessFilter => [SetInOut(IoFilter)]
      case AccessNone => [SetInOut(IoNone)]
      case AccessOmitted => []
  }

  /** Calls of the kind of term, before source, operator, traversal and access. */
  function ExpandType(t: Term, iterTerm: bool): seq<Call>
    requires !t.ty.Scope?
  {
    match t.ty
    case Pair(first, second) => ExpandPair(first, second, iterTerm)
    case Component(id) => ExpandComponent(id)
    case Equality(left, _, _) => ExpandEqualityLeft(left)
  }

  /** The accessor that replaces `term()` or `term_at()`, if the term needs one. */
  function OwnAccessor(t: Term, iterTerm: bool): Option<Call>
    requires !t.ty.Scope?
  {
    match t.ty
    case Pair(_, _) => None
    case Component(id) => if iterTerm || id.ident.None? then None else ComponentAccessor(id.ident.value)
    case Equality(_, oper, right) => if iterTerm then None else Some(EqualityAccessor(oper, right))
  }

  function ExpandRest(t: Term, iterTerm: bool): seq<Call> {
    (if t.source.ident.Some? then ExpandSource(t.source.ident.value) else []) +
    ExpandOperator(t.oper, iterTerm) +
    ExpandTravOn(OnSrc, t.source) +
    ExpandAccess(t.access, t.reference, iterTerm)
  }

  /** A term that is not a scope. */
  function ExpandLeaf(t: Term, index: nat, iterTerm: bool): seq<Call>
    requires !t.ty.Scope?
  {
    var ops := ExpandType(t, iterTerm) + ExpandRest(t, iterTerm);
    var own := OwnAccessor(t, iterTerm);
    match own
    case Some(accessor) => [accessor] + ops
    case None => if ops == [] then [] else [if iterTerm then TermAt(index) else NewTerm] + ops
  }

  function ExpandTerm(t: Term, index: nat, iterTerm: bool): seq<Call>
    decreases t, 0
  {
    match t.ty
    case Scope(ts) =>
      [ScopeOpen] +
      (if t.oper == And then [] else ExpandOperator(t.oper, iterTerm)) +
      Concat(TermsParts(ts, 0)) +
      [ScopeClose] +
      ExpandAccess(t.access, t.reference, iterTerm)
    case _ => ExpandLeaf(t, index, iterTerm)
  }

  /** Calls of each of a list of terms that are not iterator terms; the first has index `from`. */
  function TermsParts(ts: seq<Term>, from: nat): (parts: seq<seq<Call>>)
    ensures |parts| == |ts|
    decreases ts, 1
  {
    seq(|ts|, k requires 0 <= k < |ts| => ExpandTerm(ts[k], from + k, false))
  }

  // ----- Parts of an expansion -----------------------------------------------------------

  /** The call that opens a term. */
  function Accessor(t: Term): Call
    requires !t.ty.Scope?
  {
    if OwnAccessor(t, false).Some? then OwnAccessor(t, false).value else NewTerm
  }

  /** The calls on the opened term. */
  function Ops(t: Term): seq<Call>
    requires !t.ty.Scope?
  {
    ExpandType(t, false) + ExpandRest(t, false)
  }

  /** The calls on an iterator term. */
  function IterOps(t: Term): seq<Call>
    requires !t.ty.Scope?
  {
    ExpandType(t, true) + ExpandRest(t, true)
  }

  function ScopeOper(t: Term): seq<Call> {
    if t.oper == And then [] else ExpandOperator(t.oper, false)
  }

  /** A term that is not an iterator term always emits its accessor. */
  lemma {:induction false} LeafCalls(t: Term, index: nat)
    requires !t.ty.Scope?
    ensures ExpandLeaf(t, index, false) == [Accessor(t)] + Ops(t)
  {
    if OwnAccessor(t, false).None? {
      assert ExpandType(t, false) != [];
    }
  }

  lemma {:induction false} ScopeCalls(t: Term, index: nat)
    requires t.ty.Scope?
    ensures ExpandTerm(t, index, false) ==
      [ScopeOpen] + ScopeOper(t) + Concat(TermsParts(t.ty.terms, 0)) +
        ([ScopeClose] + ExpandAccess(t.access, t.reference, false))
  {
  }

  lemma {:induction false} PartIs(ts: seq<Term>, from: nat, k: nat, t: Term, index: nat)
    requires k < |ts| && t == ts[k] && index == from + k
    ensures TermsParts(ts, from)[k] == ExpandTerm(t, index, false)
  {
  }

  /** The calls of a list of terms begin with those of the first. */
  lemma {:induction false} HeadPart(ts: seq<Term>, from: nat)
    requires ts != []
    ensures Concat(TermsParts(ts, from)) == ExpandTerm(ts[0], from, false) + Concat(TermsParts(ts[1..], from + 1))
  {
    assert TermsParts(ts, from)[1..] == TermsParts(ts[1..], from + 1);
  }

  /** One element of the iterator type. */
  datatype IterType = IterType(target: WithArg, mutable: bool, optional: bool)

  /** The element of the iterator type a term contributes, if it does. */
  function ExpandTermType(t: Term): (r: Option<IterType>)
    ensures r.Some? <==> IsIterTerm(t)
  {
    var target: WithArg :- match t.ty
      case Pair(first, second) =>
        var f :- first.ident;
        var s :- second.ident;
        var fe :- f.TypeEntity();
        var se :- s.TypeEntity();
        Some(WithPair(fe, se))
      case Component(id) =>
        var i :- id.ident;
        var e :- i.TypeEntity();
        Some(WithEntity(e))
      case Equality(_, _, _) => None
      case Scope(_) => None;
    if t.reference == RefNone then None
    else if t.oper == Optional then Some(IterType(target, t.reference == RefMut, true))
    else if t.oper == And then Some(IterType(target, t.reference == RefMut, false))
    else None
  }

  predicate NamesType(id: TermId) {
    id.ident.Some? &&
    match id.ident.value
    case Type(_) => true
    case EnumType(_, _) => true
    case SelfType(_) => true
    case Wildcard => true
    case Any => true
    case _ => false
  }

  /** A referenced component or pair of types that is plain or optional. */
  predicate IsIterTerm(t: Term) {
    && t.reference != RefNone
    && (t.oper == And || t.oper == Optional)
    && match t.ty
       case Pair(first, second) => NamesType(first) && NamesType(second)
       case Component(id) => NamesType(id)
       case _ => false
  }

  /** Number of leading terms that become iterator elements. */
  function Arity(ts: seq<Term>): (n: nat)
    ensures n <= |ts|
    ensures forall k :: 0 <= k < n ==> IsIterTerm(ts[k])
    ensures n < |ts| ==> !IsIterTerm(ts[n])
  {
    if ts == [] || !IsIterTerm(ts[0]) then 0 else 1 + Arity(ts[1..])
  }

  /** Calls of the iterator terms, which come first. */
  function IterParts(ts: seq<Term>): (parts: seq<seq<Call>>)
    ensures |parts| == Arity(ts)
  {
    seq(Arity(ts), i requires 0 <= i < Arity(ts) => ExpandTerm(ts[i], i, true))
  }

  /** All builder calls of a query. */
  function Expand(ts: seq<Term>): seq<Call> {
    Concat(IterParts(ts)) + Concat(TermsParts(ts[Arity(ts)..], Arity(ts)))
  }

  // ----- The builder the calls run on ----------------------------------------------------

  /** `populate` for one iterator element. */
  function PopulateOne(m: Machine, ty: IterType): Option<Machine> {
    var n :- m.WithTarget(ty.target);
    var o :- n.Put(n.Here().(inout := if ty.mutable then IoInOut else IoIn));
    if ty.optional then o.Put(o.Here().(oper := OpOptional)) else Some(o)
  }

  function Populate(m: Machine, types: seq<IterType>): Option<Machine>
    decreases |types|
  {
    if types == [] then Some(m)
    else
      var n :- PopulateOne(m, types[0]);
      Populate(n, types[1..])
  }

  /** The iterator type. */
  function IterTypes(ts: seq<Term>): (types: seq<IterType>)
    ensures |types| == Arity(ts)
  {
    seq(Arity(ts), k requires 0 <= k < Arity(ts) => ExpandTermType(ts[k]).value)
  }

  /** A fresh builder for a tuple of `generic` terms. */
  function Fresh(generic: nat): Machine {
    Machine(generic, 0, 0, OnSrc, seq(TERM_COUNT_MAX, _ => NO_SLOT))
  }

  function RunOn(generic: nat, types: seq<IterType>, calls: seq<Call>): Option<Machine> {
    var m :- Populate(Fresh(generic), types);
    m.Run(calls)
  }

  /** Builds the query: populate, then run the emitted calls. */
  function Build(ts: seq<Term>): Option<Machine> {
    RunOn(Arity(ts), IterTypes(ts), Expand(ts))
  }
}
