/** Options, used wherever the source signals "nothing" by a null word or an exception. */
module Wrappers {
  datatype Option<+T> = None | Some(value: T)
}

/**
 Queries as the query processor sees them: nested lists, reduced to their four shapes, the
 catalog they are read against, and the opaque operators that the algebras contribute.
 */
module QuerySyntax {
  import opened Wrappers

  /** An opaque word handed out by an algebra. */
  type Value = int

  /** Size of an argument vector (`MAXARG`). */
  const MAXARG: nat := 100

  /** Number of query counters (`NO_COUNTERS`). */
  const NO_COUNTERS: nat := 16

  /** An operator's number and the number of its evaluation function share one integer. */
  const OP_LIMIT: nat := 65536

  datatype Type =
    | Basic(name: string)
    | Stream(elem: Type)
    | Map(params: seq<Type>, result: Type)
    | Tuple(elems: seq<Type>)
    | Ident(name: string)
    | TypeError

  /** A parameter's type is written out, or it is a symbol: a type name, a type operator or a type. */
  datatype ParamSpec = Given(ty: Type) | Named(name: string)

  /** The symbol `typeerror` occurs in the type. */
  predicate HasError(ty: Type) {
    match ty
    case TypeError => true
    case Basic(name) => name == "typeerror"
    case Ident(name) => name == "typeerror"
    case Stream(elem) => HasError(elem)
    case Map(params, result) => AnyError(params) || HasError(result)
    case Tuple(elems) => AnyError(elems)
  }

  predicate AnyError(types: seq<Type>) {
    types != [] && (HasError(types[0]) || AnyError(types[1..]))
  }

  /** The symbol `typeerror`, whatever it was taken for. */
  predicate IsErrorSymbol(ty: Type) {
    ty == TypeError || ty == Basic("typeerror") || ty == Ident("typeerror")
  }

  /** The outermost symbol of a type expression, by which its type constructor is looked up. */
  function HeadSymbol(ty: Type): Option<string> {
    match ty
    case Basic(x) => Some(x)
    case Ident(x) => Some(x)
    case TypeError => Some("typeerror")
    case Stream(_) => Some("stream")
    case Map(_, _) => Some("map")
    case Tuple(elems) =>
      if elems != [] && (elems[0].Basic? || elems[0].Ident? || elems[0].TypeError?) then HeadSymbol(elems[0]) else None
  }

  datatype Param = Param(name: string, spec: ParamSpec)

  datatype Expr =
    | Const(value: Value, ty: Type)
    | Sym(name: string)
    | Fun(params: seq<Param>, body: Expr)
    | List(elems: seq<Expr>)

  /** An argument together with its type, as handed to type mappings. */
  datatype Typed = Typed(ty: Type, expr: Expr)

  /** What a type mapping answers; it may ask for constants to be appended to the arguments. */
  datatype MapResult =
    | Rejected
    | Accepted(ty: Type)
    | Appended(extra: seq<Literal>, ty: Type)

  datatype Literal = Literal(value: Value, ty: Type)

  /**
   A value mapping is a strategy. From the values of its arguments (nothing for functions,
   identifiers, argument lists and arguments it wants to request itself) and the answers received so
   far it either finishes or requests one of its arguments, or an element of an argument list, given by
   the path to it, supplying parameters when that is a function.
   */
  datatype Move = Done(result: Value) | Ask(path: seq<nat>, args: seq<Value>)

  type ValueMap = (seq<Option<Value>>, seq<Value>) -> Move

  datatype Operator = Operator(
    typeMap: seq<Typed> -> MapResult,
    excluded: bool,
    select: seq<Type> -> int,
    valueMaps: seq<ValueMap>,
    requestsArgs: bool,
    usesMemory: bool)

  predicate LiteralsTyped(extra: seq<Literal>) {
    forall i :: 0 <= i < |extra| ==> !HasError(extra[i].ty)
  }

  datatype OpId = OpId(alg: nat, op: nat)

  datatype DbObject =
    | ValueObject(value: Value, defined: bool, ty: Type)
    | FunctionObject(def: Expr)

  datatype Catalog = Catalog(
    objects: map<string, DbObject>,
    types: map<string, Type>,
    typeNames: set<string>,
    operators: map<string, seq<OpId>>,
    algebra: map<OpId, Operator>,
    kindCorrect: Type -> bool)

  /**
   Every registered operator exists, algebra number 0 is left to the two pseudo operators of the
   query processor, operator numbers fit their half of the combined number, the selection function
   of an accepted operator picks an existing evaluation function, type mappings append only constants
   that have a type, no type expression with `typeerror` in it is correct, `typeerror` is no name of a
   type, and function objects are function definitions.
   */
  ghost predicate ValidCatalog(cat: Catalog) {
    && (forall x, i :: x in cat.operators && 0 <= i < |cat.operators[x]| ==>
          var id := cat.operators[x][i];
          id in cat.algebra && 1 <= id.alg && id.op < OP_LIMIT)
    && (forall x :: x in cat.operators ==> |cat.operators[x]| > 0)
    && (forall id, ts :: id in cat.algebra ==> cat.algebra[id].select(ts) < |cat.algebra[id].valueMaps|)
    && (forall x :: x in cat.objects && cat.objects[x].FunctionObject? ==> cat.objects[x].def.Fun?)
    && (forall id, args :: id in cat.algebra && cat.algebra[id].typeMap(args).Appended? ==>
          LiteralsTyped(cat.algebra[id].typeMap(args).extra))
    && (forall ty :: cat.kindCorrect(ty) ==> !HasError(ty))
    && "typeerror" !in cat.typeNames
  }

  /** `LookUpTypeExpr` finds the type constructor of results of this type, for a stream that of its elements. */
  predicate HasConstructor(cat: Catalog, ty: Type) {
    var x := HeadSymbol(if ty.Stream? then ty.elem else ty);
    x.Some? && x.value in cat.typeNames
  }

  datatype Keyword = Counter | PredInfo | Memory

  function KeywordOf(name: string): Option<Keyword> {
    if name == "counter" then Some(Counter)
    else if name == "predinfo" then Some(PredInfo)
    else if name == "memory" then Some(Memory)
    else None
  }

  /** A written number of the given type. */
  predicate IsNumber(e: Expr, ty: string) {
    e.Const? && e.ty == Basic(ty)
  }

  /** What a symbol stands for once variables have been considered; looked up in the source's order. */
  datatype Role = ObjectRole(obj: DbObject) | OperatorRole(ids: seq<OpId>) | OtherRole

  function RoleOf(cat: Catalog, name: string): Role {
    if name in cat.objects then ObjectRole(cat.objects[name])
    else if name in cat.operators then OperatorRole(cat.operators[name])
    else OtherRole
  }

  function TypesOf(ts: seq<Typed>): (r: seq<Type>)
    ensures |r| == |ts|
    ensures forall i :: 0 <= i < |ts| ==> r[i] == ts[i].ty
  {
    if ts == [] then [] else [ts[0].ty] + TypesOf(ts[1..])
  }

  function TypeMapOf(cat: Catalog, id: OpId, args: seq<Typed>): MapResult {
    if id in cat.algebra && !cat.algebra[id].excluded then cat.algebra[id].typeMap(args) else Rejected
  }

  predicate IsRejected(r: MapResult) {
    r.Rejected? || (r.Accepted? && IsErrorSymbol(r.ty))
  }

  /** The first overloaded candidate that accepts the arguments, if any does. */
  function FirstAccepting(cat: Catalog, ids: seq<OpId>, args: seq<Typed>): (r: Option<OpId>)
    ensures r.Some? ==> exists i :: 0 <= i < |ids| && r == Some(ids[i]) && !IsRejected(TypeMapOf(cat, ids[i], args))
                                    && forall j :: 0 <= j < i ==> IsRejected(TypeMapOf(cat, ids[j], args))
    ensures r.None? ==> forall i :: 0 <= i < |ids| ==> IsRejected(TypeMapOf(cat, ids[i], args))
  {
    if ids == [] then None
    else if !IsRejected(TypeMapOf(cat, ids[0], args)) then Some(ids[0])
    else
      var r := FirstAccepting(cat, ids[1..], args);
      assert r.Some? ==> exists i :: 1 <= i < |ids| && r == Some(ids[i]) && ids[i] == ids[1..][i - 1];
      r
  }

  /** A parameter's type: a type name first, then a type operator on the preceding arguments. */
  function ParamType(cat: Catalog, spec: ParamSpec, father: seq<Typed>): Type {
    match spec
    case Given(ty) => ty
    case Named(x) =>
      if x in cat.types then cat.types[x]
      else if x in cat.operators then
        match FirstAccepting(cat, cat.operators[x], father)
        case None => TypeError
        case Some(id) => var r := TypeMapOf(cat, id, father); if r.Accepted? then r.ty else TypeError
      else Basic(x)
  }

  /** The type must be a correct type expression; for a stream its element type counts. */
  predicate ParamTypeOk(cat: Catalog, ty: Type) {
    ty != TypeError && (if ty.Stream? then cat.kindCorrect(ty.elem) else cat.kindCorrect(ty))
  }

  function ParamTypes(cat: Catalog, ps: seq<Param>, father: seq<Typed>): (r: seq<Type>)
    ensures |r| == |ps|
    ensures forall i :: 0 <= i < |ps| ==> r[i] == ParamType(cat, ps[i].spec, father)
  {
    if ps == [] then [] else [ParamType(cat, ps[0].spec, father)] + ParamTypes(cat, ps[1..], father)
  }

  function Names(ps: seq<Param>): (r: seq<string>)
    ensures |r| == |ps|
    ensures forall i :: 0 <= i < |ps| ==> r[i] == ps[i].name
  {
    if ps == [] then [] else [ps[0].name] + Names(ps[1..])
  }

  function NameSet(ps: seq<Param>): set<string> {
    set p | p in ps :: p.name
  }

  ghost predicate Distinct(names: seq<string>) {
    forall i, j :: 0 <= i < j < |names| ==> names[i] != names[j]
  }

  /** Combined number of operator and evaluation function; negative for a type operator. */
  function Combine(fun: int, op: nat): int {
    fun * OP_LIMIT + op
  }
}
