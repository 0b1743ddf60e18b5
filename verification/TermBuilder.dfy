/**
 * The machine the query DSL compiles to: the builder registers and the term array
 * (flecs_ecs/src/core/term.rs and query_builder.rs).
 *
 * `Step` specifies each builder call on values; class `Builder` performs the calls in place.
 * A call that trips a run-time check yields `None`. Debug-build assertions count as checks.
 */
module TermBuilder {
  import opened Wrappers

  type Entity = e: nat | e != 0 witness 1

  const WILDCARD: Entity := 270
  const ANY: Entity := 271
  const PRED_EQ: Entity := 317
  const PRED_MATCH: Entity := 318
  const SCOPE_OPEN: Entity := 320
  const SCOPE_CLOSE: Entity := 321
  const TERM_COUNT_MAX: nat := 32

  /** What a single-target argument evaluates to. */
  datatype Arg = Ent(id: Entity) | Text(text: string)

  /** Target of `with`. */
  datatype WithArg =
    | WithEntity(id: Entity)
    | WithPair(rel: Entity, target: Entity)
    | WithText(rel: Entity, text: string)

  datatype Mode = OnSrc | OnFirst | OnSecond

  datatype Flag = SelfFlag | UpFlag | CascadeFlag | DescFlag | IsVariable | IsEntity

  /** A term reference; the flag bits of its 64-bit id are kept apart from the entity. */
  datatype Ref = Ref(id: nat, flags: set<Flag>, name: Option<string>)

  const NO_REF := Ref(0, {}, None)

  datatype SlotId = NoId | PairId(rel: Entity, target: Entity)

  datatype OperKind = OpAnd | OpOr | OpNot | OpOptional | OpAndFrom | OpOrFrom | OpNotFrom

  datatype InOutKind = IoDefault | IoNone | IoFilter | IoInOut | IoIn | IoOut

  /** One `ecs_term_t`. */
  datatype Slot = Slot(id: SlotId, first: Ref, second: Ref, src: Ref, trav: nat, oper: OperKind, inout: InOutKind)

  const NO_SLOT := Slot(NoId, NO_REF, NO_REF, NO_REF, 0, OpAnd, IoDefault)

  /** The calls the DSL emits. */
  datatype Call =
    | NewTerm
    | TermAt(index: nat)
    | With(target: WithArg)
    | ScopeOpen
    | ScopeClose
    | SetId(id: Entity)
    | SetVar(name: string)
    | SetName(name: string)
    | SetFirst(arg: Arg)
    | SetSecond(arg: Arg)
    | SetSrc(arg: Arg)
    | Select(mode: Mode)
    | Up(trav: Option<Entity>)
    | Cascade(trav: Option<Entity>)
    | Desc
    | SelfTrav
    | SetOper(oper: OperKind)
    | SetInOut(kind: InOutKind)
    | CompileError

  /** `count_generic_terms` with the registers and terms of a builder. */
  datatype Machine = Machine(generic: nat, current: nat, next: nat, mode: Mode, terms: seq<Slot>) {
    /** `check_term_access_validity` */
    predicate AccessValid() {
      current >= generic || mode == OnSrc
    }

    function Here(): Slot {
      if current < |terms| then terms[current] else NO_SLOT
    }

    /** Overwrites the current term; indexing past the array panics. */
    function Put(s: Slot): Option<Machine> {
      if current < |terms| then Some(this.(terms := terms[current := s])) else None
    }

    function RefAt(): Ref {
      match mode
      case OnSrc => Here().src
      case OnFirst => Here().first
      case OnSecond => Here().second
    }

    /** Writes through the reference-mode register. */
    function PutRef(r: Ref): Option<Machine> {
      match mode
      case OnSrc => Put(Here().(src := r))
      case OnFirst => Put(Here().(first := r))
      case OnSecond => Put(Here().(second := r))
    }

    function AddFlag(f: Flag): Option<Machine> {
      PutRef(RefAt().(flags := RefAt().flags + {f}))
    }

    function Checked(): Option<Machine> {
      if AccessValid() then Some(this) else None
    }

    function OpenTerm(): Option<Machine> {
      if current < TERM_COUNT_MAX then Some(this.(current := next, next := next + 1)) else None
    }

    function InitTerm(id: Entity): Option<Machine> {
      Put(Here().(first := Here().first.(id := id, flags := {})))
    }

    /** Body shared by `set_id` and the entity case of the setters. */
    function AssignId(id: Entity): Option<Machine> {
      var m :- if mode != OnSrc then Checked() else Some(this);
      m.PutRef(m.RefAt().(id := id, flags := {}))
    }

    function AssignVar(name: string): Option<Machine> {
      var m :- Checked();
      m.PutRef(m.RefAt().(flags := m.RefAt().flags + {IsVariable}, name := Some(name)))
    }

    function AssignName(name: string): Option<Machine> {
      PutRef(RefAt().(flags := RefAt().flags + {IsEntity}, name := Some(name)))
    }

    /** Name or entity into the selected reference; a leading `$` makes the name a variable. */
    function AssignArg(arg: Arg): Option<Machine> {
      match arg
      case Ent(id) => AssignId(id)
      case Text(text) => if |text| > 0 && text[0] == '$' then AssignVar(text[1..]) else AssignName(text)
    }

    /** `set_first` and `set_second`: select, assign, and go back to source mode. */
    function AssignPart(part: Mode, arg: Arg): Option<Machine> {
      if arg == Text("") then None
      else
        var m :- Checked();
        var n :- m.(mode := part).AssignArg(arg);
        Some(n.(mode := OnSrc))
    }

    /** `entity(0)` as the scope calls use it. */
    function MarkNoEntity(): Option<Machine> {
      var m :- Checked();
      m.PutRef(m.RefAt().(id := 0, flags := {IsEntity}))
    }

    function WithTarget(target: WithArg): Option<Machine> {
      var m :- OpenTerm();
      match target
      case WithEntity(id) => m.InitTerm(id)
      case WithPair(rel, tgt) => m.Put(m.Here().(id := PairId(rel, tgt)))
      case WithText(rel, text) =>
        var n :- m.InitTerm(rel);
        var o :- n.AssignPart(OnSecond, Text(text));
        o.Put(o.Here().(inout := IoIn))
    }

    function Scope(marker: Entity): Option<Machine> {
      var m :- WithTarget(WithEntity(marker));
      m.MarkNoEntity()
    }

    function Traverse(trav: Option<Entity>): Option<Machine> {
      if mode != OnSrc then None
      else
        var m :- AddFlag(UpFlag);
        if trav.Some? then m.Put(m.Here().(trav := trav.value)) else Some(m)
    }

    function Step(c: Call): Option<Machine> {
      match c
      case NewTerm => OpenTerm()
      case TermAt(i) => if i < TERM_COUNT_MAX then Some(this.(mode := OnSrc, current := i)) else None
      case With(target) => WithTarget(target)
      case ScopeOpen => Scope(SCOPE_OPEN)
      case ScopeClose => Scope(SCOPE_CLOSE)
      case SetId(id) => AssignId(id)
      case SetVar(name) => AssignVar(name)
      case SetName(name) => AssignName(name)
      case SetFirst(arg) => AssignPart(OnFirst, arg)
      case SetSecond(arg) => AssignPart(OnSecond, arg)
      case SetSrc(arg) => if arg == Text("") then None else this.(mode := OnSrc).AssignArg(arg)
      case Select(part) =>
        if part == OnSrc then Some(this.(mode := OnSrc))
        else
          var m :- Checked();
          Some(m.(mode := part))
      case Up(trav) => Traverse(trav)
      case Cascade(trav) =>
        var m :- Traverse(trav);
        m.AddFlag(CascadeFlag)
      case Desc => AddFlag(DescFlag)
      case SelfTrav => AddFlag(SelfFlag)
      case SetOper(oper) =>
        if oper == OpOptional && current < generic then None
        else
          var m :- Checked();
          m.Put(m.Here().(oper := oper))
      case SetInOut(kind) =>
        if kind in {IoIn, IoOut, IoInOut} && current < generic then None
        else
          var m :- if kind != IoFilter then Checked() else Some(this);
          m.Put(m.Here().(inout := kind))
      case CompileError => None
    }

    function Run(calls: seq<Call>): Option<Machine>
      decreases |calls|
    {
      if calls == [] then Some(this)
      else
        var m :- Step(calls[0]);
        m.Run(calls[1..])
    }
  }

  lemma {:induction false} RunAppend(m: Machine, a: seq<Call>, b: seq<Call>)
    ensures m.Run(a + b) == (var n := m.Run(a); if n.None? then None else n.value.Run(b))
    decreases |a|
  {
    if a == [] {
      assert a + b == b;
    } else {
      assert (a + b)[0] == a[0] && (a + b)[1..] == a[1..] + b;
      var n := m.Step(a[0]);
      if n.Some? {
        RunAppend(n.value, a[1..], b);
      }
    }
  }

  lemma {:induction false} RunOne(m: Machine, c: Call)
    ensures m.Run([c]) == m.Step(c)
  {
    assert [c][1..] == [];
    var n := m.Step(c);
    if n.Some? {
      assert n.value.Run([c][1..]) == n;
    }
  }
}
