/** Which terms and queries compile and name something everywhere, decided on the terms alone. */
module DslSound {
  import opened Wrappers
  import opened TermBuilder
  import opened DslSyntax
  import opened Sequences
  import opened DslBuilder
  import opened DslMeaning

  // ----- On the terms --------------------------------------------------------------------

  /** An identifier that evaluates to a text evaluates to a non-empty one. */
  predicate NamesSomething(ident: Ident) {
    match ident
    case SelfVar(Text(text)) => text != ""
    case Local(Text(text)) => text != ""
    case Literal(text) => text != ""
    case _ => true
  }

  /** A relationship is left out, or is a type or a local that holds an entity. */
  predicate RelSound(ident: Option<Ident>) {
    match ident
    case None => true
    case Some(Type(_)) => true
    case Some(Local(Ent(_))) => true
    case _ => false
  }

  predicate TravSound(t: TermId) {
    (t.travUp ==> RelSound(t.upIdent)) && (t.travCascade ==> RelSound(t.cascadeIdent))
  }

  predicate ElementSound(t: TermId) {
    t.ident.Some? && NamesSomething(t.ident.value) && TravSound(t)
  }

  /** A component may be anything but a variable of Rust that holds a text. */
  predicate ComponentSound(id: TermId) {
    && TravSound(id)
    && match id.ident
       case None => false
       case Some(SelfVar(Text(_))) => false
       case Some(Local(Text(_))) => false
       case _ => true
  }

  predicate RightSound(oper: EqualityOper, right: Ident) {
    match right
    case Type(_) => true
    case Variable(_) => true
    case Local(Ent(_)) => true
    case Local(Text(text)) => text != ""
    case Literal(text) => text != "" && (oper == Match ==> text != "!")
    case _ => false
  }

  predicate SourceSound(source: TermId) {
    (source.ident.Some? ==> NamesSomething(source.ident.value)) && TravSound(source)
  }

  /** A term that is not an iterator element. */
  predicate TermSound(t: Term)
    decreases t
  {
    && t.reference == RefNone
    && match t.ty
       case Pair(f, s) => ElementSound(f) && ElementSound(s) && SourceSound(t.source)
       case Component(id) => ComponentSound(id) && SourceSound(t.source)
       case Equality(left, oper, right) =>
         (left.Local? ==> left.value != Text("")) && RightSound(oper, right) && SourceSound(t.source)
       case Scope(ts) => forall k :: 0 <= k < |ts| ==> TermSound(ts[k])
  }

  predicate IterTermSound(t: Term)
    requires IsIterTerm(t)
  {
    && (t.access == AccessOmitted || t.access == AccessFilter)
    && SourceSound(t.source)
    && match t.ty
       case Pair(f, s) => TravSound(f) && TravSound(s)
       case Component(id) => TravSound(id)
       case _ => true
  }

  predicate QuerySound(ts: seq<Term>) {
    && (forall k :: 0 <= k < Arity(ts) ==> IterTermSound(ts[k]))
    && (forall k :: Arity(ts) <= k < |ts| ==> TermSound(ts[k]))
  }

  // ----- On the calls --------------------------------------------------------------------

  lemma {:induction false} SoundOne(c: Call)
    ensures Sound([c]) <==> c != CompileError && Named(c)
  {
    assert [c][1..] == [];
  }

  lemma {:induction false} SoundCons(c: Call, calls: seq<Call>)
    ensures Sound([c] + calls) <==> c != CompileError && Named(c) && Sound(calls)
  {
    assert ([c] + calls)[1..] == calls;
  }

  lemma {:induction false} TravIs(t: TermId)
    ensures Sound(ExpandTrav(t)) <==> TravSound(t)
  {
    var desc := if t.travDesc then [Desc] else [];
    var self := if t.travSelf then [SelfTrav] else [];
    SoundAppend(ExpandUp(t) + ExpandCascade(t) + desc, self);
    SoundAppend(ExpandUp(t) + ExpandCascade(t), desc);
    SoundAppend(ExpandUp(t), ExpandCascade(t));
    SoundOne(Desc);
    SoundOne(SelfTrav);
    RelIs(t.upIdent);
    RelIs(t.cascadeIdent);
    if t.travUp { SoundOne(ExpandUp(t)[0]); }
    if t.travCascade { SoundOne(ExpandCascade(t)[0]); }
  }

  lemma {:induction false} RelIs(ident: Option<Ident>)
    ensures ExpandTravIdent(ident).Some? <==> RelSound(ident)
  {
  }

  lemma {:induction false} TravOnIs(part: Mode, t: TermId)
    ensures Sound(ExpandTravOn(part, t)) <==> TravSound(t)
  {
    if t.HasTrav() {
      SoundCons(Select(part), ExpandTrav(t));
      TravIs(t);
    }
  }

  lemma {:induction false} ElementIs(ident: Ident, part: Mode)
    requires part != OnSrc
    ensures Sound(ExpandPairComponent(ident, false, part)) <==> NamesSomething(ident)
  {
    var calls := ExpandPairComponent(ident, false, part);
    if |calls| == 1 { SoundOne(calls[0]); }
  }

  lemma {:induction false} PairIs(f: TermId, s: TermId)
    ensures Sound(ExpandPair(f, s, false)) <==> ElementSound(f) && ElementSound(s)
  {
    if f.ident.Some? && s.ident.Some? {
      var a := ExpandPairComponent(f.ident.value, false, OnFirst);
      var b := ExpandPairComponent(s.ident.value, false, OnSecond);
      var c, d := ExpandTravOn(OnFirst, f), ExpandTravOn(OnSecond, s);
      SoundAppend(a + b + c, d);
      SoundAppend(a + b, c);
      SoundAppend(a, b);
      ElementIs(f.ident.value, OnFirst);
      ElementIs(s.ident.value, OnSecond);
      TravOnIs(OnFirst, f);
      TravOnIs(OnSecond, s);
    } else {
      SoundOne(CompileError);
    }
  }

  lemma {:induction false} ComponentIs(id: TermId)
    ensures Sound(ExpandComponent(id)) <==> ComponentSound(id)
  {
    if id.ident.Some? {
      var setter := ComponentSetter(id.ident.value);
      SoundAppend(setter, ExpandTrav(id));
      TravIs(id);
      if |setter| == 1 { SoundOne(setter[0]); }
    } else {
      SoundOne(CompileError);
    }
  }

  lemma {:induction false} SourceIs(ident: Ident)
    ensures Sound(ExpandSource(ident)) <==> NamesSomething(ident)
  {
    var calls := ExpandSource(ident);
    if |calls| == 1 { SoundOne(calls[0]); }
  }

  lemma {:induction false} AccessIs(t: Term, iterTerm: bool)
    ensures Sound(ExpandAccess(t.access, t.reference, iterTerm)) <==>
      if iterTerm then t.access == AccessOmitted || t.access == AccessFilter else t.reference == RefNone
  {
    var calls := ExpandAccess(t.access, t.reference, iterTerm);
    if |calls| == 1 { SoundOne(calls[0]); }
  }

  lemma {:induction false} OperIs(oper: TermOper)
    ensures Sound(ExpandOperator(oper, false))
  {
    var calls := ExpandOperator(oper, false);
    if |calls| == 1 { SoundOne(calls[0]); }
    if |calls| == 2 {
      SoundCons(calls[0], [calls[1]]);
      SoundOne(calls[1]);
    }
  }

  lemma {:induction false} RestIs(t: Term, iterTerm: bool)
    requires iterTerm ==> IsIterTerm(t)
    ensures Sound(ExpandRest(t, iterTerm)) <==>
      SourceSound(t.source) &&
      if iterTerm then t.access == AccessOmitted || t.access == AccessFilter else t.reference == RefNone
  {
    var a := if t.source.ident.Some? then ExpandSource(t.source.ident.value) else [];
    var b, c := ExpandOperator(t.oper, iterTerm), ExpandTravOn(OnSrc, t.source);
    SoundAppend(a + b + c, ExpandAccess(t.access, t.reference, iterTerm));
    SoundAppend(a + b, c);
    SoundAppend(a, b);
    if t.source.ident.Some? { SourceIs(t.source.ident.value); }
    if !iterTerm { OperIs(t.oper); }
    TravOnIs(OnSrc, t.source);
    AccessIs(t, iterTerm);
  }

  lemma {:induction false} AccessorIs(t: Term)
    requires !t.ty.Scope?
    ensures Accessor(t) != CompileError && Named(Accessor(t)) <==>
      (t.ty.Equality? ==> RightSound(t.ty.oper, t.ty.right))
  {
  }

  lemma {:induction false} TypeIs(t: Term)
    requires !t.ty.Scope?
    ensures Sound(ExpandType(t, false)) <==>
      match t.ty
      case Pair(f, s) => ElementSound(f) && ElementSound(s)
      case Component(id) => ComponentSound(id)
      case Equality(left, _, _) => left.Local? ==> left.value != Text("")
  {
    match t.ty
    case Pair(f, s) => PairIs(f, s);
    case Component(id) => ComponentIs(id);
    case Equality(left, _, _) =>
      var calls := ExpandEqualityLeft(left);
      if |calls| == 1 { SoundOne(calls[0]); }
  }

  lemma {:induction false} LeafIs(t: Term, index: nat)
    requires !t.ty.Scope?
    ensures Sound(ExpandLeaf(t, index, false)) <==> TermSound(t)
  {
    LeafCalls(t, index);
    SoundCons(Accessor(t), Ops(t));
    SoundAppend(ExpandType(t, false), ExpandRest(t, false));
    AccessorIs(t);
    TypeIs(t);
    RestIs(t, false);
  }

  lemma {:induction false} ScopeIs(t: Term, index: nat)
    requires t.ty.Scope?
    ensures Sound(ExpandTerm(t, index, false)) <==>
      t.reference == RefNone && Sound(Concat(TermsParts(t.ty.terms, 0)))
  {
    var body, access := Concat(TermsParts(t.ty.terms, 0)), ExpandAccess(t.access, t.reference, false);
    ScopeCalls(t, index);
    SoundAppend([ScopeOpen] + ScopeOper(t) + body, [ScopeClose] + access);
    SoundAppend([ScopeOpen] + ScopeOper(t), body);
    SoundAppend([ScopeOpen], ScopeOper(t));
    SoundOne(ScopeOpen);
    SoundCons(ScopeClose, access);
    OperIs(t.oper);
    AccessIs(t, false);
  }

  /** A term's calls compile and name something exactly if the term does. */
  lemma {:induction false} TermSoundIff(t: Term, index: nat)
    ensures Sound(ExpandTerm(t, index, false)) <==> TermSound(t)
    decreases t, 0
  {
    if t.ty.Scope? {
      ScopeIs(t, index);
      TermsSoundIff(t.ty.terms, 0);
    } else {
      LeafIs(t, index);
    }
  }

  lemma {:induction false} TermsSoundIff(ts: seq<Term>, from: nat)
    ensures Sound(Concat(TermsParts(ts, from))) <==> forall k :: 0 <= k < |ts| ==> TermSound(ts[k])
    decreases ts, 1
  {
    if ts != [] {
      HeadPart(ts, from);
      SoundAppend(ExpandTerm(ts[0], from, false), Concat(TermsParts(ts[1..], from + 1)));
      TermSoundIff(ts[0], from);
      TermsSoundIff(ts[1..], from + 1);
      assert forall k :: 1 <= k < |ts| ==> ts[k] == ts[1..][k - 1];
      assert forall k :: 0 <= k < |ts| - 1 ==> ts[1..][k] == ts[k + 1];
    }
  }

  lemma {:induction false} IterTypeIs(t: Term)
    requires IsIterTerm(t)
    ensures Sound(ExpandType(t, true)) <==>
      match t.ty
      case Pair(f, s) => TravSound(f) && TravSound(s)
      case Component(id) => TravSound(id)
      case _ => true
  {
    match t.ty
    case Pair(f, s) =>
      assert ExpandType(t, true) == ExpandTravOn(OnFirst, f) + ExpandTravOn(OnSecond, s);
      SoundAppend(ExpandTravOn(OnFirst, f), ExpandTravOn(OnSecond, s));
      TravOnIs(OnFirst, f);
      TravOnIs(OnSecond, s);
    case Component(id) =>
      assert ExpandType(t, true) == ExpandTrav(id);
      TravIs(id);
  }

  lemma {:induction false} IterTermSoundIff(t: Term, index: nat)
    requires IsIterTerm(t)
    ensures Sound(ExpandTerm(t, index, true)) <==> IterTermSound(t)
  {
    SoundAppend(ExpandType(t, true), ExpandRest(t, true));
    SoundCons(TermAt(index), IterOps(t));
    IterTypeIs(t);
    RestIs(t, true);
  }

  lemma {:induction false} SoundParts(parts: seq<seq<Call>>)
    ensures Sound(Concat(parts)) <==> forall k :: 0 <= k < |parts| ==> Sound(parts[k])
    decreases |parts|
  {
    if parts != [] {
      SoundAppend(parts[0], Concat(parts[1..]));
      SoundParts(parts[1..]);
      assert forall k :: 1 <= k < |parts| ==> parts[k] == parts[1..][k - 1];
    }
  }

  lemma {:induction false} IterPartIs(ts: seq<Term>, k: nat)
    requires k < Arity(ts)
    ensures Sound(IterParts(ts)[k]) <==> IterTermSound(ts[k])
  {
    IterTermSoundIff(ts[k], k);
  }

  lemma {:induction false} ItersSoundIff(ts: seq<Term>)
    ensures Sound(Concat(IterParts(ts))) <==> forall k :: 0 <= k < Arity(ts) ==> IterTermSound(ts[k])
  {
    SoundParts(IterParts(ts));
    forall k | 0 <= k < Arity(ts) ensures Sound(IterParts(ts)[k]) <==> IterTermSound(ts[k]) { IterPartIs(ts, k); }
  }

  lemma {:induction false} TailSoundIff(ts: seq<Term>, n: nat)
    requires n <= |ts|
    ensures Sound(Concat(TermsParts(ts[n..], n))) <==> forall k :: n <= k < |ts| ==> TermSound(ts[k])
  {
    TermsSoundIff(ts[n..], n);
    assert forall k :: n <= k < |ts| ==> ts[k] == ts[n..][k - n];
  }

  /** A query's calls compile and name something exactly if its terms do. */
  lemma {:induction false} QuerySoundIff(ts: seq<Term>)
    ensures Sound(Expand(ts)) <==> QuerySound(ts)
  {
    SoundAppend(Concat(IterParts(ts)), Concat(TermsParts(ts[Arity(ts)..], Arity(ts))));
    ItersSoundIff(ts);
    TailSoundIff(ts, Arity(ts));
  }
}
