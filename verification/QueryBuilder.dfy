/**
 * The builder as the source has it: registers and a term array overwritten in place
 * (flecs_ecs/src/core/query_builder.rs and term.rs), driven by the calls the DSL emits.
 *
 * Every method reports a panic as `false`; what it leaves behind then is not specified.
 */
module QueryBuilder {
  import opened Wrappers
  import opened Sequences
  import opened TermBuilder
  import opened DslSyntax
  import opened DslBuilder
  import opened DslMeaning
  import opened DslCorrect
  import opened DslScopes
  import opened DslQuery
  import opened DslSound

  class Builder {
    const generic: nat
    const terms: array<Slot>
    var current: nat
    var next: nat
    var mode: Mode

    ghost predicate Valid() {
      terms.Length == TERM_COUNT_MAX
    }

    /** The registers and the array as one value. */
    ghost function Now(): (m: Machine)
      reads this, terms
    {
      Machine(generic, current, next, mode, terms[..])
    }

    /** The state is the outcome `r`, where `ok` says whether there was no panic. */
    ghost predicate Became(r: Option<Machine>, ok: bool)
      reads this, terms
    {
      ok == r.Some? && (ok ==> Now() == r.value)
    }

    constructor (generic: nat)
      ensures Valid() && fresh(terms) && this.generic == generic && Now() == Fresh(generic)
    {
      this.generic := generic;
      terms := new Slot[TERM_COUNT_MAX](_ => NO_SLOT);
      current, next, mode := 0, 0, OnSrc;
      new;
      assert terms[..] == Fresh(generic).terms;
    }

    predicate AccessValid()
      reads this
    {
      current >= generic || mode == OnSrc
    }

    /** `current_term_mut`, assigned. */
    method SetTerm(s: Slot) returns (ok: bool)
      requires Valid()
      modifies terms
      ensures Became(old(Now().Put(s)), ok)
    {
      if current >= terms.Length { return false; }
      terms[current] := s;
      assert terms[..] == old(terms[..])[current := s];
      return true;
    }

    /** `term_ref_mut`: the reference the mode selects. */
    method TermRef() returns (r: Option<Ref>)
      requires Valid()
      ensures current < terms.Length ==> r == Some(Now().RefAt())
      ensures current >= terms.Length ==> r.None?
    {
      if current >= terms.Length { return None; }
      match mode
      case OnSrc => return Some(terms[current].src);
      case OnFirst => return Some(terms[current].first);
      case OnSecond => return Some(terms[current].second);
    }

    method SetTermRef(r: Ref) returns (ok: bool)
      requires Valid()
      modifies terms
      ensures Became(old(Now().PutRef(r)), ok)
    {
      if current >= terms.Length { return false; }
      match mode
      case OnSrc => ok := SetTerm(terms[current].(src := r));
      case OnFirst => ok := SetTerm(terms[current].(first := r));
      case OnSecond => ok := SetTerm(terms[current].(second := r));
    }

    method AddFlag(f: Flag) returns (ok: bool)
      requires Valid()
      modifies terms
      ensures Became(old(Now().AddFlag(f)), ok)
    {
      var r := TermRef();
      if r.None? { return false; }
      ok := SetTermRef(r.value.(flags := r.value.flags + {f}));
    }

    method SetId(id: Entity) returns (ok: bool)
      requires Valid()
      modifies terms
      ensures Became(old(Now().AssignId(id)), ok)
    {
      if mode != OnSrc && !AccessValid() { return false; }
      var r := TermRef();
      if r.None? { return false; }
      ok := SetTermRef(r.value.(id := id, flags := {}));
    }

    method SetVar(name: string) returns (ok: bool)
      requires Valid()
      modifies terms
      ensures Became(old(Now().AssignVar(name)), ok)
    {
      var r := TermRef();
      if !AccessValid() || r.None? { return false; }
      ok := SetTermRef(r.value.(flags := r.value.flags + {IsVariable}, name := Some(name)));
    }

    method SetName(name: string) returns (ok: bool)
      requires Valid()
      modifies terms
      ensures Became(old(Now().AssignName(name)), ok)
    {
      var r := TermRef();
      if r.None? { return false; }
      ok := SetTermRef(r.value.(flags := r.value.flags + {IsEntity}, name := Some(name)));
    }

    method SetArg(arg: Arg) returns (ok: bool)
      requires Valid()
      modifies terms
      ensures Became(old(Now().AssignArg(arg)), ok)
    {
      match arg
      case Ent(id) => ok := SetId(id);
      case Text(text) =>
        if |text| > 0 && text[0] == '$' { ok := SetVar(text[1..]); } else { ok := SetName(text); }
    }

    /** `set_first` and `set_second` */
    method SetPart(part: Mode, arg: Arg) returns (ok: bool)
      requires Valid()
      modifies this, terms
      ensures Became(old(Now().AssignPart(part, arg)), ok)
    {
      if !AccessValid() || arg == Text("") { return false; }
      mode := part;
      assert Now() == old(Now().(mode := part));
      ok := SetArg(arg);
      mode := OnSrc;
    }

    method SetSrc(arg: Arg) returns (ok: bool)
      requires Valid()
      modifies this, terms
      ensures Became(old(Now().Step(TermBuilder.SetSrc(arg))), ok)
    {
      if arg == Text("") { return false; }
      mode := OnSrc;
      assert Now() == old(Now().(mode := OnSrc));
      ok := SetArg(arg);
    }

    method OpenTerm() returns (ok: bool)
      requires Valid()
      modifies this
      ensures Became(old(Now().OpenTerm()), ok)
    {
      if current >= TERM_COUNT_MAX { return false; }
      current := next;
      next := next + 1;
      return true;
    }

    method With(target: WithArg) returns (ok: bool)
      requires Valid()
      modifies this, terms
      ensures Became(old(Now().WithTarget(target)), ok)
    {
      ok := OpenTerm();
      if !ok || current >= terms.Length { return false; }
      match target
      case WithEntity(id) =>
        ok := SetTerm(terms[current].(first := terms[current].first.(id := id, flags := {})));
      case WithPair(rel, tgt) =>
        ok := SetTerm(terms[current].(id := PairId(rel, tgt)));
      case WithText(rel, text) =>
        ok := SetTerm(terms[current].(first := terms[current].first.(id := rel, flags := {})));
        ok := SetPart(OnSecond, Text(text));
        if !ok { return false; }
        ok := SetTerm(terms[current].(inout := IoIn));
    }

    method Scope(marker: Entity) returns (ok: bool)
      requires Valid()
      modifies this, terms
      ensures Became(old(Now().Scope(marker)), ok)
    {
      ok := With(WithEntity(marker));
      if !ok { return false; }
      var r := TermRef();
      if !AccessValid() || r.None? { return false; }
      ok := SetTermRef(r.value.(id := 0, flags := {IsEntity}));
    }

    method Traverse(trav: Option<Entity>) returns (ok: bool)
      requires Valid()
      modifies terms
      ensures Became(old(Now().Traverse(trav)), ok)
    {
      if mode != OnSrc { return false; }
      ok := AddFlag(UpFlag);
      if ok && trav.Some? { ok := SetTerm(terms[current].(trav := trav.value)); }
    }

    method SetOper(oper: OperKind) returns (ok: bool)
      requires Valid()
      modifies terms
      ensures Became(old(Now().Step(TermBuilder.SetOper(oper))), ok)
    {
      if oper == OpOptional && current < generic { return false; }
      if !AccessValid() || current >= terms.Length { return false; }
      ok := SetTerm(terms[current].(oper := oper));
    }

    method SetInOut(kind: InOutKind) returns (ok: bool)
      requires Valid()
      modifies terms
      ensures Became(old(Now().Step(TermBuilder.SetInOut(kind))), ok)
    {
      if (kind == IoIn || kind == IoOut || kind == IoInOut) && current < generic { return false; }
      if kind != IoFilter && !AccessValid() { return false; }
      if current >= terms.Length { return false; }
      ok := SetTerm(terms[current].(inout := kind));
    }

    /** Performs one emitted call. */
    method Perform(c: Call) returns (ok: bool)
      requires Valid()
      modifies this, terms
      ensures Became(old(Now().Step(c)), ok)
    {
      match c
      case NewTerm => ok := OpenTerm();
      case TermAt(i) =>
        ok := i < TERM_COUNT_MAX;
        if ok { mode, current := OnSrc, i; }
      case With(target) => ok := With(target);
      case ScopeOpen => ok := Scope(SCOPE_OPEN);
      case ScopeClose => ok := Scope(SCOPE_CLOSE);
      case SetId(id) => ok := SetId(id);
      case SetVar(name) => ok := SetVar(name);
      case SetName(name) => ok := SetName(name);
      case SetFirst(arg) => ok := SetPart(OnFirst, arg);
      case SetSecond(arg) => ok := SetPart(OnSecond, arg);
      case SetSrc(arg) => ok := SetSrc(arg);
      case Select(part) =>
        ok := part == OnSrc || AccessValid();
        if ok { mode := part; }
      case Up(trav) => ok := Traverse(trav);
      case Cascade(trav) =>
        ok := Traverse(trav);
        if ok { ok := AddFlag(CascadeFlag); }
      case Desc => ok := AddFlag(DescFlag);
      case SelfTrav => ok := AddFlag(SelfFlag);
      case SetOper(oper) => ok := SetOper(oper);
      case SetInOut(kind) => ok := SetInOut(kind);
      case CompileError => ok := false;
    }

    method PerformAll(calls: seq<Call>) returns (ok: bool)
      requires Valid()
      modifies this, terms
      ensures Became(old(Now().Run(calls)), ok)
    {
      ok := true;
      var i := 0;
      while i < |calls|
        invariant i <= |calls| && Valid()
        invariant old(Now()).Run(calls) == Now().Run(calls[i..])
      {
        assert calls[i..][0] == calls[i] && calls[i..][1..] == calls[i + 1..];
        ok := Perform(calls[i]);
        if !ok { return; }
        i := i + 1;
      }
    }

    /** `populate` for the elements of the iterator type. */
    method Populate(types: seq<IterType>) returns (ok: bool)
      requires Valid()
      modifies this, terms
      ensures Became(old(DslBuilder.Populate(Now(), types)), ok)
    {
      ok := true;
      var i := 0;
      while i < |types|
        invariant i <= |types| && Valid()
        invariant old(DslBuilder.Populate(Now(), types)) == DslBuilder.Populate(Now(), types[i..])
      {
        assert types[i..][0] == types[i] && types[i..][1..] == types[i + 1..];
        ok := PopulateElement(types[i]);
        if !ok { return; }
        i := i + 1;
      }
    }

    method PopulateElement(ty: IterType) returns (ok: bool)
      requires Valid()
      modifies this, terms
      ensures Became(old(PopulateOne(Now(), ty)), ok)
    {
      ok := With(ty.target);
      if !ok || current >= terms.Length { return false; }
      ok := SetTerm(terms[current].(inout := if ty.mutable then IoInOut else IoIn));
      if ty.optional { ok := SetTerm(terms[current].(oper := OpOptional)); }
    }
  }

  /** Calls of every term, in order. */
  function AllParts(ts: seq<Term>): (parts: seq<seq<Call>>)
    ensures |parts| == |ts|
  {
    IterParts(ts) + TermsParts(ts[Arity(ts)..], Arity(ts))
  }

  lemma {:induction false} IterPartAt(ts: seq<Term>, i: nat)
    requires i < Arity(ts)
    ensures AllParts(ts)[i] == ExpandTerm(ts[i], i, true)
  {
  }

  lemma {:induction false} AppendAt<T>(a: seq<T>, b: seq<T>, i: nat)
    requires |a| <= i < |a| + |b|
    ensures (a + b)[i] == b[i - |a|]
  {
  }

  lemma {:induction false} TailPartAt(ts: seq<Term>, i: nat)
    requires Arity(ts) <= i < |ts|
    ensures AllParts(ts)[i] == ExpandTerm(ts[i], i, false)
  {
    var n := Arity(ts);
    AppendAt(IterParts(ts), TermsParts(ts[n..], n), i);
    PartIs(ts[n..], n, i - n, ts[i], i);
  }

  lemma {:induction false} PartAt(ts: seq<Term>, i: nat)
    requires i < |ts|
    ensures AllParts(ts)[i] == ExpandTerm(ts[i], i, i < Arity(ts))
  {
    if i < Arity(ts) { IterPartAt(ts, i); } else { TailPartAt(ts, i); }
  }

  lemma {:induction false} ConcatNext(parts: seq<seq<Call>>, i: nat)
    requires i < |parts|
    ensures Concat(parts[..i + 1]) == Concat(parts[..i]) + parts[i]
  {
    assert parts[..i + 1] == parts[..i] + [parts[i]];
    ConcatAppend(parts[..i], [parts[i]]);
  }

  lemma {:induction false} ArityIs(ts: seq<Term>, n: nat)
    requires n <= |ts| && forall k :: 0 <= k < n ==> IsIterTerm(ts[k])
    requires n < |ts| ==> !IsIterTerm(ts[n])
    ensures n == Arity(ts)
  {
  }

  /** `build_query_components`: the iterator's elements are the prefix of terms with a type. */
  method BuildQueryComponents(ts: seq<Term>) returns (types: seq<IterType>, calls: seq<Call>)
    ensures types == IterTypes(ts) && calls == Expand(ts)
    ensures |types| == Arity(ts) && forall k :: 0 <= k < Arity(ts) ==> IsElement(types[k], ts[k])
  {
    types := [];
    while |types| < |ts| && ExpandTermType(ts[|types|]).Some?
      invariant |types| <= |ts|
      invariant forall k :: 0 <= k < |types| ==> ExpandTermType(ts[k]) == Some(types[k])
    {
      types := types + [ExpandTermType(ts[|types|]).value];
    }
    ArityIs(ts, |types|);
    assert types == IterTypes(ts);
    forall k | 0 <= k < Arity(ts) ensures IsElement(types[k], ts[k]) { ElementTypeIs(ts[k]); }
    forall i | 0 <= i < |ts| ensures AllParts(ts)[i] == ExpandTerm(ts[i], i, i < |types|) { PartAt(ts, i); }
    calls := ExpandEach(ts, |types|, AllParts(ts));
    ConcatAppend(IterParts(ts), TermsParts(ts[Arity(ts)..], Arity(ts)));
  }

  /** The calls of each term in turn, those before `n` as iterator terms. */
  method ExpandEach(ts: seq<Term>, n: nat, ghost parts: seq<seq<Call>>) returns (calls: seq<Call>)
    requires |parts| == |ts| && forall i :: 0 <= i < |ts| ==> parts[i] == ExpandTerm(ts[i], i, i < n)
    ensures calls == Concat(parts)
  {
    calls := [];
    var i := 0;
    while i < |ts|
      invariant i <= |ts|
      invariant calls == Concat(parts[..i])
    {
      ConcatNext(parts, i);
      calls := calls + ExpandTerm(ts[i], i, i < n);
      i := i + 1;
    }
    assert parts[..i] == parts;
  }

  /** Builds a query from its terms, in place. */
  method BuildQuery(ts: seq<Term>) returns (b: Builder, ok: bool)
    ensures b.Valid() && fresh(b) && fresh(b.terms)
    ensures ok <==> QuerySound(ts) && QueryLength(ts) <= TERM_COUNT_MAX && QueryGoes(ts)
    ensures ok ==> Build(ts) == Some(b.Now())
    ensures ok && ParsedAll(ts) ==> b.next == QueryLength(ts)
    ensures ok && ParsedAll(ts) ==> (Holds(b.Now(), Arity(ts), QuerySlots(ts)) <==> QueryMeans(ts))
  {
    var types, calls := BuildQueryComponents(ts);
    b := new Builder(|types|);
    BuiltIff(ts);
    ok := b.Populate(types);
    if ok { ok := b.PerformAll(calls); }
    if ok && ParsedAll(ts) {
      BuiltMeansIff(ts, b.Now());
      QueryWidth(ts, b.Now());
    }
  }
}
