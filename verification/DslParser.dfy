/**
 * Comma and `||` structure of a query (flecs_ecs_derive/src/dsl/parser.rs).
 *
 * A token stands for a whole term, a separator, or a parenthesised tree that starts with `$`;
 * the content of a term is a number the parser only passes on.
 */
module DslParser {
  import opened Wrappers
  import opened DslSyntax

  /** An operator written before a term, or implied by a negated comparison. */
  type Prefix = o: TermOper | o != Or && o != NotOr witness And

  type Body = nat

  /**
   * `whole` is what the parenthesised tree is when read as one term, if it is one; `equality`
   * says whether it holds a comparison.
   */
  datatype Token =
    | Tok(oper: Prefix, body: Body)
    | Paren(inner: seq<Token>, equality: bool, whole: Option<Body>)
    | Comma
    | Pipe

  datatype Operand = Operand(oper: TermOper, body: Body)

  predicate Joins(t: Operand) {
    t.oper == Or || t.oper == NotOr
  }

  // ----- What the parser accepts and returns ---------------------------------------------

  /** `contains_or_operator` */
  predicate HasOr(ts: seq<Token>) {
    |ts| >= 2 && ((ts[0].Pipe? && ts[1].Pipe?) || HasOr(ts[1..]))
  }

  /** One term, where no group is looked for. */
  function ReadTerm(t: Token): Option<Operand> {
    match t
    case Tok(oper, body) => Some(Operand(oper, body))
    case Paren(_, _, Some(body)) => Some(Operand(And, body))
    case _ => None
  }

  /** A grouped operand that is followed by `||`. */
  function JoinedInGroup(t: Operand): Operand {
    t.(oper := if t.oper == Not then NotOr else Or)
  }

  function JoinLastInGroup(terms: seq<Operand>): seq<Operand>
    requires terms != []
  {
    terms[|terms| - 1 := JoinedInGroup(terms[|terms| - 1])]
  }

  /** The operands of a group, all of which must be joined by `||`. */
  function ReadGroup(ts: seq<Token>): Option<seq<Operand>>
    decreases |ts|, 1
  {
    if ts == [] then None
    else
      var t :- ReadTerm(ts[0]);
      GroupAfter([t], ts[1..])
  }

  /** Reads on in a group after the operands `terms`. */
  function GroupAfter(terms: seq<Operand>, ts: seq<Token>): Option<seq<Operand>>
    requires terms != []
    decreases |ts|, 0
  {
    if ts == [] then Some(terms)
    else if |ts| > 1 && ts[0].Pipe? && ts[1].Pipe? then
      var rest :- ReadGroup(ts[2..]);
      Some(JoinLastInGroup(terms) + rest)
    else None
  }

  /** `parse_term_or_group` */
  function ReadItem(t: Token): Option<seq<Operand>> {
    if t.Paren? && HasOr(t.inner) then ReadGroup(t.inner)
    else if t.Paren? && t.equality then
      (if |t.inner| != 1 then None
       else
         var o :- ReadTerm(t.inner[0]);
         Some([o]))
    else
      var o :- ReadTerm(t);
      Some([o])
  }

  /** A top-level `||` overwrites the operator of the term before it. */
  function MarkLast(terms: seq<Operand>): seq<Operand>
    requires terms != []
  {
    terms[|terms| - 1 := terms[|terms| - 1].(oper := Or)]
  }

  /** The operands of a query; `None` is a syntax error. */
  function Read(ts: seq<Token>): (r: Option<seq<Operand>>)
    ensures r.Some? ==> r.value != []
    decreases |ts|, 1
  {
    if ts == [] then None
    else
      var item :- ReadItem(ts[0]);
      ItemNotEmpty(ts[0]);
      ReadAfter(item, ts[1..])
  }

  /** Reads on after the operands `terms`. */
  function ReadAfter(terms: seq<Operand>, ts: seq<Token>): (r: Option<seq<Operand>>)
    requires terms != []
    ensures r.Some? ==> r.value != []
    decreases |ts|, 0
  {
    if ts == [] then Some(terms)
    else
      match ts[0]
      case Comma =>
        if |ts| == 1 then Some(terms)
        else
          var rest :- Read(ts[1..]);
          Some(terms + rest)
      case Pipe =>
        if |ts| == 1 || !ts[1].Pipe? then None
        else
          var rest :- Read(ts[2..]);
          Some(MarkLast(terms) + rest)
      case _ => None
  }

  lemma {:induction false} ItemNotEmpty(t: Token)
    requires ReadItem(t).Some?
    ensures ReadItem(t).value != []
  {
    if t.Paren? && HasOr(t.inner) { GroupNotEmpty(t.inner); }
  }

  lemma {:induction false} GroupNotEmpty(ts: seq<Token>)
    requires ReadGroup(ts).Some?
    ensures ReadGroup(ts).value != []
  {
  }

  // ----- The parser's loops --------------------------------------------------------------

  /** The loop over the operands of a parenthesised group. */
  method ParseGroup(ts: seq<Token>) returns (r: Option<seq<Operand>>)
    ensures r == ReadGroup(ts)
  {
    if ts == [] { return None; }
    var t := ReadTerm(ts[0]);
    if t.None? { return None; }
    var terms := [t.value];
    var i := 1;
    while i + 1 < |ts| && ts[i].Pipe? && ts[i + 1].Pipe?
      invariant 1 <= i <= |ts| && terms != []
      invariant ReadGroup(ts) == GroupAfter(terms, ts[i..])
      decreases |ts| - i
    {
      assert ts[i..][2..] == ts[i + 2..];
      terms := JoinLastInGroup(terms);
      if i + 2 == |ts| { return None; }
      t := ReadTerm(ts[i + 2]);
      if t.None? { return None; }
      GroupAfterAppend(terms, [t.value], ts[i + 3..]);
      assert ts[i + 2..][1..] == ts[i + 3..];
      terms := terms + [t.value];
      i := i + 3;
    }
    if i < |ts| { return None; }
    return Some(terms);
  }

  lemma {:induction false} GroupAfterAppend(a: seq<Operand>, b: seq<Operand>, ts: seq<Token>)
    requires b != []
    ensures GroupAfter(a + b, ts) == (var r := GroupAfter(b, ts); if r.None? then None else Some(a + r.value))
  {
    if |ts| > 1 && ts[0].Pipe? && ts[1].Pipe? && ReadGroup(ts[2..]).Some? {
      var rest := ReadGroup(ts[2..]).value;
      assert JoinLastInGroup(a + b) + rest == a + (JoinLastInGroup(b) + rest);
    }
  }

  lemma {:induction false} ReadAfterAppend(a: seq<Operand>, b: seq<Operand>, ts: seq<Token>)
    requires b != []
    ensures ReadAfter(a + b, ts) == (var r := ReadAfter(b, ts); if r.None? then None else Some(a + r.value))
  {
    if ts != [] && ts[0].Comma? && |ts| > 1 && Read(ts[1..]).Some? {
      var rest := Read(ts[1..]).value;
      assert a + b + rest == a + (b + rest);
    }
    if |ts| > 1 && ts[0].Pipe? && ts[1].Pipe? && Read(ts[2..]).Some? {
      var rest := Read(ts[2..]).value;
      assert MarkLast(a + b) + rest == a + (MarkLast(b) + rest);
    }
  }

  method ParseTermOrGroup(t: Token) returns (r: Option<seq<Operand>>)
    ensures r == ReadItem(t)
  {
    if t.Paren? {
      if HasOr(t.inner) {
        r := ParseGroup(t.inner);
        return;
      } else if t.equality {
        if |t.inner| != 1 { return None; }
        var o := ReadTerm(t.inner[0]);
        return if o.Some? then Some([o.value]) else None;
      }
    }
    var o := ReadTerm(t);
    return if o.Some? then Some([o.value]) else None;
  }

  /** `Dsl::parse` */
  method Parse(ts: seq<Token>) returns (r: Option<seq<Operand>>)
    ensures r == Read(ts)
    ensures r.Some? ==> Cut(r.value) == Segments(ts) && KeepsOpers(r.value, WrittenAll(ts))
  {
    if Read(ts).Some? {
      CutRecoversGroups(ts);
      AllKeep(ts);
    }
    if ts == [] { return None; }
    var item := ParseTermOrGroup(ts[0]);
    if item.None? { return None; }
    ItemNotEmpty(ts[0]);
    var terms := item.value;
    var i := 1;
    while i < |ts| && (ts[i].Comma? || ts[i].Pipe?)
      invariant 1 <= i <= |ts| && terms != []
      invariant Read(ts) == ReadAfter(terms, ts[i..])
      decreases |ts| - i
    {
      ghost var rest := ts[i..];
      assert rest[1..] == ts[i + 1..];
      if ts[i].Pipe? {
        if i + 1 == |ts| || !ts[i + 1].Pipe? { return None; }
        assert rest[2..] == ts[i + 2..];
        terms := MarkLast(terms);
        i := i + 2;
      } else {
        i := i + 1;
        if i == |ts| { break; }
      }
      if i == |ts| { return None; }
      item := ParseTermOrGroup(ts[i]);
      if item.None? { return None; }
      ItemNotEmpty(ts[i]);
      ReadAfterAppend(terms, item.value, ts[i + 1..]);
      assert ts[i..][1..] == ts[i + 1..];
      terms := terms + item.value;
      i := i + 1;
    }
    if i < |ts| { return None; }
    return Some(terms);
  }

  // ----- Groups separated by commas ------------------------------------------------------

  function Bodies(terms: seq<Operand>): seq<Body> {
    if terms == [] then [] else [terms[0].body] + Bodies(terms[1..])
  }

  /** Puts `xs` in front of the first group. */
  function Prepend(xs: seq<Body>, groups: seq<seq<Body>>): seq<seq<Body>>
    requires groups != []
  {
    [xs + groups[0]] + groups[1..]
  }

  lemma {:induction false} PrependTwice(xs: seq<Body>, ys: seq<Body>, groups: seq<seq<Body>>)
    requires groups != []
    ensures Prepend(xs, Prepend(ys, groups)) == Prepend(xs + ys, groups)
    ensures Prepend([], groups) == groups
  {
    assert xs + (ys + groups[0]) == (xs + ys) + groups[0];
    assert [] + groups[0] == groups[0];
    assert [groups[0]] + groups[1..] == groups;
  }

  /** Cuts a term list after each term that is not joined to the next one. */
  function Cut(terms: seq<Operand>): seq<seq<Body>> {
    if terms == [] then []
    else
      var rest := Cut(terms[1..]);
      if Joins(terms[0]) && rest != [] then Prepend([terms[0].body], rest) else [[terms[0].body]] + rest
  }

  /** What a token contributes, read off the token alone. */
  function Contents(t: Token): seq<Body> {
    match t
    case Tok(_, body) => [body]
    case Paren(inner, equality, whole) =>
      if HasOr(inner) || equality then InnerContents(inner) else if whole.Some? then [whole.value] else []
    case _ => []
  }

  function InnerContents(ts: seq<Token>): seq<Body> {
    if ts == [] then []
    else
      (match ts[0]
       case Tok(_, body) => [body]
       case Paren(_, _, Some(body)) => [body]
       case _ => []) + InnerContents(ts[1..])
  }

  /** The comma-separated groups of the input; a trailing comma does not start one. */
  function Segments(ts: seq<Token>): (groups: seq<seq<Body>>)
    ensures groups != []
  {
    if ts == [] || ts == [Comma] then [[]]
    else if ts[0].Comma? then [[]] + Segments(ts[1..])
    else Prepend(Contents(ts[0]), Segments(ts[1..]))
  }

  predicate AllJoin(terms: seq<Operand>) {
    forall k :: 0 <= k < |terms| ==> Joins(terms[k])
  }

  /** The operands of one group as parsed so far: joined up to the last. */
  predicate Chain(terms: seq<Operand>) {
    terms != [] && AllJoin(terms[..|terms| - 1]) && !Joins(terms[|terms| - 1])
  }

  lemma {:induction false} CutJoined(a: seq<Operand>, b: seq<Operand>)
    requires AllJoin(a) && Cut(b) != []
    ensures Cut(a + b) == Prepend(Bodies(a), Cut(b))
    decreases |a|
  {
    if a == [] {
      assert a + b == b;
      PrependTwice([], [], Cut(b));
    } else {
      assert (a + b)[1..] == a[1..] + b;
      CutJoined(a[1..], b);
      PrependTwice([a[0].body], Bodies(a[1..]), Cut(b));
    }
  }

  lemma {:induction false} BodiesAppend(a: seq<Operand>, b: seq<Operand>)
    ensures Bodies(a + b) == Bodies(a) + Bodies(b)
    decreases |a|
  {
    if a == [] {
      assert a + b == b;
    } else {
      assert (a + b)[1..] == a[1..] + b;
      BodiesAppend(a[1..], b);
    }
  }

  lemma {:induction false} CutChain(a: seq<Operand>, b: seq<Operand>)
    requires Chain(a)
    ensures Cut(a + b) == [Bodies(a)] + Cut(b)
  {
    var n := |a| - 1;
    assert a + b == a[..n] + ([a[n]] + b);
    assert ([a[n]] + b)[1..] == b;
    CutJoined(a[..n], [a[n]] + b);
    BodiesAppend(a[..n], [a[n]]);
    assert a == a[..n] + [a[n]];
    assert Bodies([a[n]]) == [a[n].body];
    assert Cut([a[n]] + b) == [[a[n].body]] + Cut(b);
  }

  lemma {:induction false} MarkedBodies(a: seq<Operand>, o: TermOper)
    requires Chain(a)
    ensures var n := |a| - 1; Bodies(a[n := a[n].(oper := o)]) == Bodies(a)
  {
    var n := |a| - 1;
    BodiesAppend(a[..n], [a[n]]);
    BodiesAppend(a[..n], [a[n].(oper := o)]);
    assert a == a[..n] + [a[n]];
    assert a[n := a[n].(oper := o)] == a[..n] + [a[n].(oper := o)];
  }

  /** A token tree is read as a chain of joined operands with the contents of the tree. */
  lemma {:induction false} ItemIsChain(t: Token)
    requires ReadItem(t).Some?
    ensures Chain(ReadItem(t).value) && Bodies(ReadItem(t).value) == Contents(t)
  {
    if t.Paren? && HasOr(t.inner) {
      GroupIsChain(t.inner);
    } else if t.Paren? && t.equality {
      assert t.inner[1..] == [];
      assert InnerContents(t.inner) == InnerContents([t.inner[0]]);
    }
  }

  /** How a group of several operands is read. */
  lemma {:induction false} GroupStep(ts: seq<Token>)
    requires ReadGroup(ts).Some? && |ts| > 1
    ensures |ts| > 3 && ts[1].Pipe? && ts[2].Pipe? && ReadTerm(ts[0]).Some? && ReadGroup(ts[3..]).Some?
    ensures ReadGroup(ts).value == [JoinedInGroup(ReadTerm(ts[0]).value)] + ReadGroup(ts[3..]).value
  {
    assert ts[1..][2..] == ts[3..];
  }

  lemma {:induction false} GroupIsChain(ts: seq<Token>)
    requires ReadGroup(ts).Some?
    ensures Chain(ReadGroup(ts).value) && Bodies(ReadGroup(ts).value) == InnerContents(ts)
    decreases |ts|
  {
    if |ts| > 1 {
      GroupStep(ts);
      var t, rest := JoinedInGroup(ReadTerm(ts[0]).value), ReadGroup(ts[3..]).value;
      GroupIsChain(ts[3..]);
      ChainCons(t, rest);
      InnerContentsAfterPipes(ts);
    }
  }

  lemma {:induction false} ChainCons(t: Operand, rest: seq<Operand>)
    requires Joins(t) && Chain(rest)
    ensures Chain([t] + rest) && Bodies([t] + rest) == [t.body] + Bodies(rest)
  {
    assert ([t] + rest)[1..] == rest;
    assert forall k :: 1 <= k < |rest| ==> ([t] + rest)[k] == rest[..|rest| - 1][k - 1];
  }

  lemma {:induction false} InnerContentsAfterPipes(ts: seq<Token>)
    requires |ts| > 2 && ts[1].Pipe? && ts[2].Pipe?
    ensures InnerContents(ts) == InnerContents(ts[..1]) + InnerContents(ts[3..])
  {
    assert ts[1..][1..][1..] == ts[3..];
    assert InnerContents(ts[1..]) == InnerContents(ts[1..][1..]);
    assert InnerContents(ts[1..][1..]) == InnerContents(ts[1..][1..][1..]);
    assert ts[..1][1..] == [];
  }

  /**
   * For every accepted input, cutting the terms after each one not marked as joined gives the
   * comma-separated groups, parenthesised groups included, and a marked term is never the last.
   */
  lemma {:induction false} CutRecoversGroups(ts: seq<Token>)
    requires Read(ts).Some?
    ensures Cut(Read(ts).value) == Segments(ts)
    ensures !Joins(Read(ts).value[|Read(ts).value| - 1])
    decreases |ts|, 1
  {
    var item := ReadItem(ts[0]).value;
    ItemIsChain(ts[0]);
    CutAfterRecoversGroups(item, ts[1..]);
  }

  lemma {:induction false} CutAfterRecoversGroups(terms: seq<Operand>, ts: seq<Token>)
    requires Chain(terms) && ReadAfter(terms, ts).Some?
    ensures Cut(ReadAfter(terms, ts).value) == Prepend(Bodies(terms), Segments(ts))
    ensures !Joins(ReadAfter(terms, ts).value[|ReadAfter(terms, ts).value| - 1])
    decreases |ts|, 0
  {
    if |ts| <= 1 {
      CutChain(terms, []);
      assert terms + [] == terms && Bodies(terms) + [] == Bodies(terms);
    } else if ts[0].Comma? {
      CutRecoversGroups(ts[1..]);
      CutAtComma(terms, Read(ts[1..]).value, ts);
    } else {
      CutRecoversGroups(ts[2..]);
      CutAtPipes(terms, Read(ts[2..]).value, ts);
    }
  }

  /** A comma ends the group of `terms`. */
  lemma {:induction false} CutAtComma(terms: seq<Operand>, rest: seq<Operand>, ts: seq<Token>)
    requires Chain(terms) && |ts| > 1 && ts[0].Comma? && Cut(rest) == Segments(ts[1..])
    ensures Cut(terms + rest) == Prepend(Bodies(terms), Segments(ts))
  {
    CutChain(terms, rest);
    assert Segments(ts) == [[]] + Segments(ts[1..]);
    assert Bodies(terms) + [] == Bodies(terms);
  }

  /** A top-level `||` joins `terms` to the group that follows. */
  lemma {:induction false} CutAtPipes(terms: seq<Operand>, rest: seq<Operand>, ts: seq<Token>)
    requires Chain(terms) && |ts| > 1 && ts[0].Pipe? && ts[1].Pipe? && Cut(rest) == Segments(ts[2..])
    ensures Cut(MarkLast(terms) + rest) == Prepend(Bodies(terms), Segments(ts))
  {
    MarkedBodies(terms, Or);
    CutJoined(MarkLast(terms), rest);
    SegmentsAfterPipes(ts);
  }

  lemma {:induction false} SegmentsAfterPipes(ts: seq<Token>)
    requires |ts| > 1 && ts[0].Pipe? && ts[1].Pipe?
    ensures Segments(ts) == Segments(ts[2..])
  {
    assert ts[1..][1..] == ts[2..];
    PrependTwice([], [], Segments(ts[2..]));
    PrependTwice([], [], Segments(ts[1..]));
  }

  // ----- Cutting at `Or` only ------------------------------------------------------------

  /** As `Cut`, but taking a negated operand for the end of its group. */
  function CutAtOr(terms: seq<Operand>): seq<seq<Body>> {
    if terms == [] then []
    else
      var rest := CutAtOr(terms[1..]);
      if terms[0].oper == Or && rest != [] then Prepend([terms[0].body], rest) else [[terms[0].body]] + rest
  }

  function NotOrs(terms: seq<Operand>): nat {
    if terms == [] then 0 else (if terms[0].oper == NotOr then 1 else 0) + NotOrs(terms[1..])
  }

  lemma {:induction false} CutSizes(terms: seq<Operand>)
    requires terms != [] ==> !Joins(terms[|terms| - 1])
    ensures |CutAtOr(terms)| == |Cut(terms)| + NotOrs(terms)
    ensures NotOrs(terms) == 0 ==> CutAtOr(terms) == Cut(terms)
  {
    if terms != [] { CutSizes(terms[1..]); }
  }

  /** `Or` alone marks the groups exactly when no negated operand was joined inside parentheses. */
  lemma {:induction false} OrSufficesIff(ts: seq<Token>)
    requires Read(ts).Some?
    ensures CutAtOr(Read(ts).value) == Segments(ts) <==> NotOrs(Read(ts).value) == 0
    ensures NotOrs(Read(ts).value) == 0 <==> forall i :: 0 <= i < |ts| ==> NegatedInGroup(ts[i]) == 0
  {
    CutRecoversGroups(ts);
    CutSizes(Read(ts).value);
    NotOrsAreGrouped(ts);
  }

  /** Negated operands of a parenthesised group that have another operand after them. */
  function NegatedInGroup(t: Token): nat {
    if t.Paren? && HasOr(t.inner) then Negated(t.inner) else 0
  }

  function Negated(ts: seq<Token>): nat {
    if |ts| < 2 then 0 else (if ts[0].Tok? && ts[0].oper == Not then 1 else 0) + Negated(ts[1..])
  }

  lemma {:induction false} NotOrsAppend(a: seq<Operand>, b: seq<Operand>)
    ensures NotOrs(a + b) == NotOrs(a) + NotOrs(b)
    decreases |a|
  {
    if a == [] {
      assert a + b == b;
    } else {
      assert (a + b)[1..] == a[1..] + b;
      NotOrsAppend(a[1..], b);
    }
  }

  lemma {:induction false} NotOrsAreGrouped(ts: seq<Token>)
    requires Read(ts).Some?
    ensures NotOrs(Read(ts).value) == 0 <==> forall i :: 0 <= i < |ts| ==> NegatedInGroup(ts[i]) == 0
    decreases |ts|, 1
  {
    var item := ReadItem(ts[0]).value;
    ItemIsChain(ts[0]);
    ItemNotOrs(ts[0]);
    NotOrsAfter(item, ts[1..]);
    assert forall i :: 1 <= i < |ts| ==> ts[i] == ts[1..][i - 1];
  }

  lemma {:induction false} NotOrsAfter(terms: seq<Operand>, ts: seq<Token>)
    requires Chain(terms) && ReadAfter(terms, ts).Some?
    ensures NotOrs(ReadAfter(terms, ts).value) == 0 <==>
            NotOrs(terms) == 0 && forall i :: 0 <= i < |ts| ==> NegatedInGroup(ts[i]) == 0
    decreases |ts|, 0
  {
    if |ts| > 1 && ts[0].Comma? {
      NotOrsAreGrouped(ts[1..]);
      NotOrsAppend(terms, Read(ts[1..]).value);
      assert forall i :: 1 <= i < |ts| ==> ts[i] == ts[1..][i - 1];
    } else if |ts| > 1 {
      var n := |terms| - 1;
      NotOrsAreGrouped(ts[2..]);
      NotOrsAppend(MarkLast(terms), Read(ts[2..]).value);
      NotOrsAppend(terms[..n], [terms[n]]);
      NotOrsAppend(terms[..n], [terms[n].(oper := Or)]);
      assert terms == terms[..n] + [terms[n]] && MarkLast(terms) == terms[..n] + [terms[n].(oper := Or)];
      assert forall i :: 2 <= i < |ts| ==> ts[i] == ts[2..][i - 2];
    }
  }

  lemma {:induction false} ItemNotOrs(t: Token)
    requires ReadItem(t).Some?
    ensures NotOrs(ReadItem(t).value) == NegatedInGroup(t)
  {
    if t.Paren? && HasOr(t.inner) { GroupNotOrs(t.inner); }
  }

  lemma {:induction false} GroupNotOrs(ts: seq<Token>)
    requires ReadGroup(ts).Some?
    ensures NotOrs(ReadGroup(ts).value) == Negated(ts)
    decreases |ts|
  {
    if |ts| > 1 {
      GroupStep(ts);
      GroupNotOrs(ts[3..]);
      NotOrsAppend([JoinedInGroup(ReadTerm(ts[0]).value)], ReadGroup(ts[3..]).value);
      assert ts[1..][1..][1..] == ts[3..];
      assert Negated(ts[1..]) == Negated(ts[1..][1..]);
      assert Negated(ts[1..][1..]) == Negated(ts[3..]);
    }
  }


  // ----- The operator each operand ends with ----------------------------------------------

  /** How an operand goes on: with `||` in its parentheses, with `||` after its item, or not. */
  datatype Link = InGroup | AtTop | Unjoined

  /** An operand as it is written. */
  datatype Written = Written(oper: Prefix, body: Body, link: Link)

  function WrittenTerm(t: Token, link: Link): seq<Written> {
    match t
    case Tok(oper, body) => [Written(oper, body, link)]
    case Paren(_, _, Some(body)) => [Written(And, body, link)]
    case _ => []
  }

  function WrittenInside(ts: seq<Token>, last: Link): seq<Written> {
    if ts == [] then []
    else WrittenTerm(ts[0], if |ts| > 1 then InGroup else last) + WrittenInside(ts[1..], last)
  }

  function WrittenItem(t: Token, last: Link): seq<Written> {
    if t.Paren? && (HasOr(t.inner) || t.equality) then WrittenInside(t.inner, last) else WrittenTerm(t, last)
  }

  /** The operands of the input in written order, read off the tokens alone. */
  function WrittenAll(ts: seq<Token>): seq<Written> {
    if ts == [] then []
    else WrittenItem(ts[0], if |ts| > 1 && ts[1].Pipe? then AtTop else Unjoined) + WrittenAll(ts[1..])
  }

  /**
   * An operand that is not joined keeps its prefix, `And` if it has none; one joined in its
   * parentheses keeps only whether it is negated, and one joined after them not even that.
   */
  predicate KeepsOper(o: Operand, w: Written) {
    o.body == w.body &&
    match w.link
    case Unjoined => o.oper == w.oper
    case InGroup => o.oper == if w.oper == Not then NotOr else Or
    case AtTop => o.oper == Or
  }

  predicate KeepsOpers(terms: seq<Operand>, ws: seq<Written>) {
    |terms| == |ws| && forall k :: 0 <= k < |ws| ==> KeepsOper(terms[k], ws[k])
  }

  lemma {:induction false} KeepsAppend(a: seq<Operand>, v: seq<Written>, b: seq<Operand>, w: seq<Written>)
    requires KeepsOpers(a, v) && KeepsOpers(b, w)
    ensures KeepsOpers(a + b, v + w)
  {
    forall k | 0 <= k < |v + w| ensures KeepsOper((a + b)[k], (v + w)[k]) {
      if k >= |v| { assert (a + b)[k] == b[k - |v|] && (v + w)[k] == w[k - |v|]; }
    }
  }

  lemma {:induction false} InsideStep(ts: seq<Token>, last: Link)
    requires ReadGroup(ts).Some? && |ts| > 3
    ensures WrittenInside(ts, last) == WrittenTerm(ts[0], InGroup) + WrittenInside(ts[3..], last)
  {
    GroupStep(ts);
    assert ts[1..][1..][1..] == ts[3..];
    assert WrittenInside(ts[1..], last) == WrittenInside(ts[1..][1..], last);
    assert WrittenInside(ts[1..][1..], last) == WrittenInside(ts[3..], last);
  }

  lemma {:induction false} GroupKeeps(ts: seq<Token>)
    requires ReadGroup(ts).Some?
    ensures ReadGroup(ts).value != []
    ensures KeepsOpers(ReadGroup(ts).value, WrittenInside(ts, Unjoined))
    ensures KeepsOpers(MarkLast(ReadGroup(ts).value), WrittenInside(ts, AtTop))
    decreases |ts|
  {
    if |ts| > 1 {
      GroupStep(ts);
      GroupKeeps(ts[3..]);
      InsideStep(ts, Unjoined);
      InsideStep(ts, AtTop);
      var t, rest := [JoinedInGroup(ReadTerm(ts[0]).value)], ReadGroup(ts[3..]).value;
      KeepsAppend(t, WrittenTerm(ts[0], InGroup), rest, WrittenInside(ts[3..], Unjoined));
      KeepsAppend(t, WrittenTerm(ts[0], InGroup), MarkLast(rest), WrittenInside(ts[3..], AtTop));
      assert MarkLast(t + rest) == t + MarkLast(rest);
    } else {
      assert ts[1..] == [];
      assert forall last :: WrittenInside(ts, last) == WrittenTerm(ts[0], last);
    }
  }

  lemma {:induction false} ItemKeeps(t: Token)
    requires ReadItem(t).Some?
    ensures ReadItem(t).value != []
    ensures KeepsOpers(ReadItem(t).value, WrittenItem(t, Unjoined))
    ensures KeepsOpers(MarkLast(ReadItem(t).value), WrittenItem(t, AtTop))
  {
    if t.Paren? && HasOr(t.inner) {
      GroupKeeps(t.inner);
    } else if t.Paren? && t.equality {
      assert t.inner[1..] == [];
      assert forall last :: WrittenInside(t.inner, last) == WrittenTerm(t.inner[0], last);
    }
  }

  /** What an accepted input begins with, and what follows. */
  lemma {:induction false} ReadParts(ts: seq<Token>)
    requires Read(ts).Some?
    ensures ReadItem(ts[0]).Some? && ReadItem(ts[0]).value != []
    ensures |ts| <= 2 ==> Read(ts) == ReadItem(ts[0]) && (|ts| == 2 ==> ts[1].Comma?)
    ensures |ts| > 2 && ts[1].Comma? ==>
      Read(ts[2..]).Some? && Read(ts).value == ReadItem(ts[0]).value + Read(ts[2..]).value
    ensures |ts| > 2 && !ts[1].Comma? ==> ts[1].Pipe? && ts[2].Pipe?
    ensures |ts| > 2 && !ts[1].Comma? ==>
      Read(ts[3..]).Some? && Read(ts).value == MarkLast(ReadItem(ts[0]).value) + Read(ts[3..]).value
  {
    ItemNotEmpty(ts[0]);
    if |ts| > 2 {
      assert ts[1..][1..] == ts[2..] && ts[1..][2..] == ts[3..];
    }
  }

  lemma {:induction false} WrittenParts(ts: seq<Token>)
    requires ts != []
    ensures |ts| == 1 || ts[1].Comma? ==>
      WrittenAll(ts) == WrittenItem(ts[0], Unjoined) + if |ts| > 2 then WrittenAll(ts[2..]) else []
    ensures |ts| > 2 && ts[1].Pipe? && ts[2].Pipe? ==>
      WrittenAll(ts) == WrittenItem(ts[0], AtTop) + WrittenAll(ts[3..])
  {
    if |ts| > 1 && ts[1].Comma? {
      assert ts[1..][1..] == ts[2..];
      assert WrittenAll(ts[1..]) == WrittenAll(ts[2..]);
    }
    if |ts| > 2 && ts[1].Pipe? && ts[2].Pipe? {
      assert ts[1..][1..] == ts[2..] && ts[2..][1..] == ts[3..];
      assert WrittenAll(ts[1..]) == WrittenAll(ts[2..]) == WrittenAll(ts[3..]);
    }
  }

  lemma {:induction false} AllKeep(ts: seq<Token>)
    requires Read(ts).Some?
    ensures KeepsOpers(Read(ts).value, WrittenAll(ts))
    decreases |ts|
  {
    ReadParts(ts);
    WrittenParts(ts);
    ItemKeeps(ts[0]);
    var item := ReadItem(ts[0]).value;
    if |ts| > 2 && ts[1].Comma? {
      AllKeep(ts[2..]);
      KeepsAppend(item, WrittenItem(ts[0], Unjoined), Read(ts[2..]).value, WrittenAll(ts[2..]));
    } else if |ts| > 2 {
      AllKeep(ts[3..]);
      KeepsAppend(MarkLast(item), WrittenItem(ts[0], AtTop), Read(ts[3..]).value, WrittenAll(ts[3..]));
    }
  }

  /**
   * For every accepted input, an operand is marked as joined exactly if `||` follows it; one that
   * is not carries its own prefix, and one that is carries `NotOr` exactly if it was negated and
   * the `||` stands in its parentheses, and `Or` otherwise.
   */
  lemma {:induction false} OperatorsKept(ts: seq<Token>)
    requires Read(ts).Some?
    ensures |Read(ts).value| == |WrittenAll(ts)|
    ensures forall k :: 0 <= k < |WrittenAll(ts)| ==>
      var o, w := Read(ts).value[k], WrittenAll(ts)[k];
      && o.body == w.body
      && (Joins(o) <==> w.link != Unjoined)
      && (!Joins(o) ==> o.oper == w.oper)
      && (Joins(o) ==> o.oper == if w.link == InGroup && w.oper == Not then NotOr else Or)
  {
    AllKeep(ts);
  }

  // ----- Which inputs are accepted -------------------------------------------------------

  predicate IsTerm(t: Token) {
    t.Tok? || (t.Paren? && t.whole.Some?)
  }

  /** A group is accepted exactly if it alternates between terms and `||`. */
  lemma {:induction false} GroupReadIff(ts: seq<Token>)
    ensures ReadGroup(ts).Some? <==>
      |ts| % 3 == 1 && forall k :: 0 <= k < |ts| ==> if k % 3 == 0 then IsTerm(ts[k]) else ts[k].Pipe?
    decreases |ts|
  {
    if |ts| > 2 {
      assert ts[1..][2..] == ts[3..];
      GroupReadIff(ts[3..]);
      assert forall k :: 3 <= k < |ts| ==> ts[k] == ts[3..][k - 3];
      assert forall k :: 0 <= k < |ts| - 3 ==> ts[3..][k] == ts[k + 3];
    }
  }

  lemma {:induction false} HasOrIff(ts: seq<Token>)
    ensures HasOr(ts) <==> exists k :: 1 <= k < |ts| && ts[k - 1].Pipe? && ts[k].Pipe?
  {
    if |ts| >= 2 {
      HasOrIff(ts[1..]);
      assert forall k :: 1 <= k < |ts| ==> ts[k] == ts[1..][k - 1];
      if k :| 1 <= k < |ts[1..]| && ts[1..][k - 1].Pipe? && ts[1..][k].Pipe? { assert ts[k].Pipe? && ts[k + 1].Pipe?; }
    }
  }

  /**
   * A token tree is accepted exactly if it is a group with `||`, a comparison of one term, or a
   * term.
   */
  lemma {:induction false} ItemReadIff(t: Token)
    ensures ReadItem(t).Some? <==>
      if t.Paren? && HasOr(t.inner) then
        |t.inner| % 3 == 1 && forall k :: 0 <= k < |t.inner| ==>
          if k % 3 == 0 then IsTerm(t.inner[k]) else t.inner[k].Pipe?
      else if t.Paren? && t.equality then |t.inner| == 1 && IsTerm(t.inner[0])
      else IsTerm(t)
  {
    if t.Paren? { GroupReadIff(t.inner); }
  }

  /** Items joined by `||`, and groups separated by commas. */
  function RenderGroup(items: seq<Token>): seq<Token>
    requires items != []
  {
    if |items| == 1 then items else [items[0], Pipe, Pipe] + RenderGroup(items[1..])
  }

  predicate Groups(groups: seq<seq<Token>>) {
    && groups != []
    && forall g :: 0 <= g < |groups| ==>
         groups[g] != [] && forall k :: 0 <= k < |groups[g]| ==> ReadItem(groups[g][k]).Some?
  }

  function Render(groups: seq<seq<Token>>): seq<Token>
    requires Groups(groups)
  {
    if |groups| == 1 then RenderGroup(groups[0])
    else RenderGroup(groups[0]) + [Comma] + Render(groups[1..])
  }

  /** The input ends, or ends with one trailing comma. */
  predicate Ending(ts: seq<Token>) {
    ts == [] || ts == [Comma]
  }

  function GroupContents(items: seq<Token>): seq<Body> {
    if items == [] then [] else Contents(items[0]) + GroupContents(items[1..])
  }

  function AllContents(groups: seq<seq<Token>>): seq<seq<Body>> {
    if groups == [] then [] else [GroupContents(groups[0])] + AllContents(groups[1..])
  }

  predicate Items(items: seq<Token>) {
    items != [] && forall k :: 0 <= k < |items| ==> ReadItem(items[k]).Some?
  }

  lemma {:induction false} LastItemReads(x: Token, rest: seq<Token>, any: seq<Operand>)
    requires ReadItem(x).Some? && any != []
    ensures Read([x] + rest).Some? <==> ReadAfter(any, rest).Some?
    ensures Segments([x] + rest) == Prepend(Contents(x), Segments(rest))
  {
    ItemNotEmpty(x);
    assert ([x] + rest)[1..] == rest;
    assert !x.Comma?;
  }

  lemma {:induction false} JoinedItemReads(x: Token, tail: seq<Token>)
    requires ReadItem(x).Some? && tail != []
    ensures Read([x, Pipe, Pipe] + tail).Some? <==> Read(tail).Some?
    ensures Segments([x, Pipe, Pipe] + tail) == Prepend(Contents(x), Segments(tail))
  {
    var any, rest := [Operand(And, 0)], [Pipe, Pipe] + tail;
    assert [x, Pipe, Pipe] + tail == [x] + rest;
    assert rest[2..] == tail;
    LastItemReads(x, rest, any);
    SegmentsAfterPipes(rest);
  }

  lemma {:induction false} GroupReads(items: seq<Token>, rest: seq<Token>, any: seq<Operand>)
    requires Items(items) && any != []
    ensures Read(RenderGroup(items) + rest).Some? <==> ReadAfter(any, rest).Some?
    ensures Segments(RenderGroup(items) + rest) == Prepend(GroupContents(items), Segments(rest))
    decreases |items|
  {
    if |items| == 1 {
      LastItemReads(items[0], rest, any);
      assert items == [items[0]];
      assert GroupContents(items) == Contents(items[0]) + [] == Contents(items[0]);
    } else {
      var tail := RenderGroup(items[1..]) + rest;
      assert RenderGroup(items) + rest == [items[0], Pipe, Pipe] + tail;
      GroupReads(items[1..], rest, any);
      JoinedItemReads(items[0], tail);
      PrependTwice(Contents(items[0]), GroupContents(items[1..]), Segments(rest));
    }
  }

  lemma {:induction false} GroupThenComma(items: seq<Token>, rest: seq<Token>)
    requires Items(items) && rest != []
    ensures Read(RenderGroup(items) + ([Comma] + rest)).Some? <==> Read(rest).Some?
    ensures Segments(RenderGroup(items) + ([Comma] + rest)) == [GroupContents(items)] + Segments(rest)
  {
    var any := [Operand(And, 0)];
    assert ([Comma] + rest)[1..] == rest;
    GroupReads(items, [Comma] + rest, any);
    assert Segments([Comma] + rest) == [[]] + Segments(rest);
    assert GroupContents(items) + [] == GroupContents(items);
  }

  /** Every rendering of items is accepted, and cutting its terms gives the groups back. */
  lemma {:induction false} RenderedIsRead(groups: seq<seq<Token>>, ending: seq<Token>)
    requires Groups(groups) && Ending(ending)
    ensures Read(Render(groups) + ending).Some?
    ensures Cut(Read(Render(groups) + ending).value) == AllContents(groups)
  {
    RenderedReads(groups, ending);
    CutRecoversGroups(Render(groups) + ending);
  }

  lemma {:induction false} RenderedReads(groups: seq<seq<Token>>, ending: seq<Token>)
    requires Groups(groups) && Ending(ending)
    ensures Read(Render(groups) + ending).Some? && Segments(Render(groups) + ending) == AllContents(groups)
    decreases |groups|
  {
    if |groups| == 1 {
      GroupReads(groups[0], ending, [Operand(And, 0)]);
      assert GroupContents(groups[0]) + [] == GroupContents(groups[0]);
      assert AllContents(groups[1..]) == [];
    } else {
      var rest := Render(groups[1..]) + ending;
      RenderedReads(groups[1..], ending);
      assert Render(groups) + ending == RenderGroup(groups[0]) + ([Comma] + rest);
      GroupThenComma(groups[0], rest);
    }
  }

  /** How an accepted input begins. */
  lemma {:induction false} ReadStep(ts: seq<Token>)
    requires Read(ts).Some?
    ensures ReadItem(ts[0]).Some?
    ensures |ts| > 2 ==> (ts[1].Comma? && Read(ts[2..]).Some?) || (ts[1].Pipe? && ts[2].Pipe? && Read(ts[3..]).Some?)
    ensures |ts| == 2 ==> ts[1].Comma?
  {
    if |ts| > 2 {
      assert ts[1..][1..] == ts[2..] && ts[1..][2..] == ts[3..];
    }
  }

  /** Nothing else is accepted. */
  lemma {:induction false} ReadIsRendered(ts: seq<Token>) returns (groups: seq<seq<Token>>, ending: seq<Token>)
    requires Read(ts).Some?
    ensures Groups(groups) && Ending(ending) && ts == Render(groups) + ending
    decreases |ts|
  {
    var x := ts[0];
    ReadStep(ts);
    if |ts| <= 2 {
      groups, ending := [[x]], ts[1..];
      assert ts == [x] + ts[1..];
    } else if ts[1].Comma? {
      var rest, tail := ReadIsRendered(ts[2..]);
      groups, ending := [[x]] + rest, tail;
      SeparateIs(ts, x, rest, tail);
    } else {
      var rest, tail := ReadIsRendered(ts[3..]);
      groups, ending := [[x] + rest[0]] + rest[1..], tail;
      JoinedIs(ts, x, rest, tail, groups);
    }
  }

  lemma {:induction false} SeparateIs(ts: seq<Token>, x: Token, rest: seq<seq<Token>>, tail: seq<Token>)
    requires |ts| > 2 && ts[0] == x && ts[1] == Comma && ReadItem(x).Some?
    requires Groups(rest) && ts[2..] == Render(rest) + tail
    ensures Groups([[x]] + rest) && ts == Render([[x]] + rest) + tail
  {
    RenderSeparate(x, rest);
    assert ts == [x] + [Comma] + ts[2..];
  }

  lemma {:induction false} JoinedIs(
    ts: seq<Token>, x: Token, rest: seq<seq<Token>>, tail: seq<Token>, groups: seq<seq<Token>>)
    requires |ts| > 3 && ts[0] == x && ts[1] == Pipe && ts[2] == Pipe && ReadItem(x).Some?
    requires Groups(rest) && ts[3..] == Render(rest) + tail && groups == [[x] + rest[0]] + rest[1..]
    ensures Groups(groups) && ts == Render(groups) + tail
  {
    RenderJoined(x, rest, groups);
    assert ts == [x, Pipe, Pipe] + ts[3..];
  }

  lemma {:induction false} RenderSeparate(x: Token, rest: seq<seq<Token>>)
    requires ReadItem(x).Some? && Groups(rest)
    ensures Groups([[x]] + rest) && Render([[x]] + rest) == [x] + [Comma] + Render(rest)
  {
    var groups := [[x]] + rest;
    assert forall g :: 1 <= g < |groups| ==> groups[g] == rest[g - 1];
    assert groups[1..] == rest;
  }

  lemma {:induction false} RenderJoined(x: Token, rest: seq<seq<Token>>, groups: seq<seq<Token>>)
    requires ReadItem(x).Some? && Groups(rest) && groups == [[x] + rest[0]] + rest[1..]
    ensures Groups(groups) && Render(groups) == [x, Pipe, Pipe] + Render(rest)
  {
    assert ([x] + rest[0])[1..] == rest[0];
    assert forall g :: 1 <= g < |groups| ==> groups[g] == rest[g];
    assert groups[1..] == rest[1..];
    assert RenderGroup([x] + rest[0]) == [x, Pipe, Pipe] + RenderGroup(rest[0]);
  }
}
