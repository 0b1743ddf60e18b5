/** Parsed query terms (flecs_ecs_derive/src/dsl/term.rs and types.rs). */
module DslSyntax {
  import opened Wrappers
  import opened TermBuilder

  datatype Reference = RefMut | RefShared | RefNone

  datatype Access = AccessIn | AccessOut | AccessInOut | AccessFilter | AccessNone | AccessOmitted

  datatype TermOper = Not | Optional | AndFrom | NotFrom | OrFrom | Or | NotOr | And

  datatype EqualityOper = Equal | NotEqual | Match

  /**
   * An identifier, together with what its tokens evaluate to where the macro is expanded:
   * the value bound to a local, the entity registered for a type, or enum and variant.
   */
  datatype Ident =
    | Local(value: Arg)
    | Variable(name: string)
    | Type(entity: Entity)
    | EnumType(enum: Entity, variant: Entity)
    | Literal(text: string)
    | SelfType(entity: Entity)
    | SelfVar(value: Arg)
    | Wildcard
    | Any
  {
    /** `expand_type`: the entity of an identifier that names a Rust type. */
    function TypeEntity(): Option<Entity> {
      match this
      case Type(e) => Some(e)
      case EnumType(e, _) => Some(e)
      case Wildcard => Some(WILDCARD)
      case Any => Some(ANY)
      case SelfType(e) => Some(e)
      case _ => None
    }
  }

  datatype TermId = TermId(
    ident: Option<Ident>,
    travSelf: bool,
    travUp: bool,
    upIdent: Option<Ident>,
    travDesc: bool,
    travCascade: bool,
    cascadeIdent: Option<Ident>)
  {
    predicate HasTrav() {
      travSelf || travUp || travDesc || travCascade
    }
  }

  const NO_TERM_ID := TermId(None, false, false, None, false, false, None)

  datatype TermType =
    | Pair(first: TermId, second: TermId)
    | Component(id: TermId)
    | Equality(left: Ident, oper: EqualityOper, right: Ident)
    | Scope(terms: seq<Term>)

  datatype Term = Term(access: Access, reference: Reference, oper: TermOper, source: TermId, ty: TermType)

  /** Equality expressions and scopes are parsed without a source. */
  predicate Parsed(t: Term)
    decreases t, 0
  {
    match t.ty
    case Equality(_, _, _) => t.source == NO_TERM_ID
    case Scope(ts) => t.source == NO_TERM_ID && ParsedAll(ts)
    case _ => true
  }

  predicate ParsedAll(ts: seq<Term>)
    decreases ts, 1
  {
    forall k {:trigger Parsed(ts[k])} :: 0 <= k < |ts| ==> Parsed(ts[k])
  }
}
