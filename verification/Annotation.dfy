/**
 Annotated queries and the annotation pass. The pass threads one table of variables that is only
 ever extended, the array of values and the counter of functions; stored functions are annotated
 in place, with a fresh table. Parameter `depth` bounds how deeply stored functions may refer to
 one another: the source recurses without a bound.
 */
module Annotation {
  import opened Wrappers
  import opened QuerySyntax

  datatype Ann =
    | ConstantA(index: nat, ty: Type)
    | ObjectA(name: string, index: nat, ty: Type)
    | VariableA(name: string, position: nat, funindex: nat, ty: Type)
    | OperatorA(name: string, ids: seq<OpId>)
    | KeywordA(keyword: Keyword)
    | IdentifierA(name: string)
    | ApplyOpA(id: OpId, opFunId: int, args: seq<Ann>, ty: Type)
    | AbstractionA(body: Ann, funno: nat, params: seq<Type>)
    | ApplyAbsA(fn: Ann, args: seq<Ann>, ty: Type)
    | WrapperA(keyword: Keyword, number: Value, body: Ann, ty: Type)
    | ArgListA(args: seq<Ann>)
    | FunctionErrorA
    | ExprErrorA

  function TypeOf(a: Ann): Type {
    match a
    case ConstantA(_, ty) => ty
    case ObjectA(_, _, ty) => ty
    case VariableA(_, _, _, ty) => ty
    case OperatorA(_, _) => TypeError
    case KeywordA(_) => TypeError
    case IdentifierA(x) => Ident(x)
    case ApplyOpA(_, _, _, ty) => ty
    case AbstractionA(body, _, ps) => Map(ps, TypeOf(body))
    case ApplyAbsA(_, _, ty) => ty
    case WrapperA(_, _, _, ty) => ty
    case ArgListA(args) => Tuple(TypesOfAll(args))
    case FunctionErrorA => TypeError
    case ExprErrorA => TypeError
  }

  function TypesOfAll(as_: seq<Ann>): (r: seq<Type>)
    ensures |r| == |as_|
  {
    if as_ == [] then [] else [TypeOf(as_[0])] + TypesOfAll(as_[1..])
  }

  /** No error marker and no type error anywhere. `Construct` looks at the root only: see `Acceptable`. */
  predicate Clean(a: Ann) {
    !HasError(TypeOf(a)) &&
    match a
    case ApplyOpA(_, _, args, _) => CleanAll(args)
    case AbstractionA(body, _, _) => Clean(body)
    case ApplyAbsA(fn, args, _) => Clean(fn) && CleanAll(args)
    case WrapperA(_, _, body, _) => Clean(body)
    case ArgListA(args) => CleanAll(args)
    case _ => true
  }

  predicate CleanAll(as_: seq<Ann>) {
    as_ == [] || (Clean(as_[0]) && CleanAll(as_[1..]))
  }

  /** One entry of the variable table. */
  datatype VarEntry = VarEntry(position: nat, funindex: nat, ty: Type)

  type VarTable = map<string, VarEntry>

  /** `defined` is cleared by an object without a value, `thrown` is set by an exception. */
  datatype AState = AState(table: VarTable, values: seq<Value>, functionno: nat, defined: bool, thrown: bool)

  /** The table after entering the parameters of function `fun` from position `k` on. */
  function Enter(table: VarTable, names: seq<string>, types: seq<Type>, fun: nat, k: nat): (r: VarTable)
    requires |names| == |types|
    ensures r.Keys == table.Keys + set x | x in names
    ensures forall x :: x in table && x !in names ==> r[x] == table[x]
    decreases |names|
  {
    if names == [] then table
    else Enter(table[names[0] := VarEntry(k, fun, types[0])], names[1..], types[1..], fun, k + 1)
  }

  /**
   Enters parameters one by one; stops at the first whose name is a variable or an operator or whose
   type is no correct type expression.
   */
  function EnterParams(cat: Catalog, table: VarTable, ps: seq<Param>, types: seq<Type>, fun: nat,
                       k: nat): (bool, VarTable)
    requires |ps| == |types|
    decreases |ps|
  {
    if ps == [] then (true, table)
    else if ps[0].name in table || ps[0].name in cat.operators || !ParamTypeOk(cat, types[0]) then (false, table)
    else EnterParams(cat, table[ps[0].name := VarEntry(k, fun, types[0])], ps[1..], types[1..], fun, k + 1)
  }

  /** Constants that a type mapping asked for are annotated like written ones. */
  function AppendConstants(values: seq<Value>, extra: seq<Literal>): (r: (seq<Ann>, seq<Value>))
    ensures |r.0| == |extra|
    decreases |extra|
  {
    if extra == [] then ([], values)
    else
      var (rest, values') := AppendConstants(values + [extra[0].value], extra[1..]);
      ([ConstantA(|values|, extra[0].ty)] + rest, values')
  }

  function Annotate(cat: Catalog, e: Expr, s: AState, father: seq<Typed>, depth: nat): (Ann, AState)
    requires ValidCatalog(cat)
    decreases depth, e, 1
  {
    match e
    case Const(v, ty) =>
      if HasError(ty) then (ConstantA(0, ty), s) else (ConstantA(|s.values|, ty), s.(values := s.values + [v]))
    case Sym(x) => AnnotateSymbol(cat, x, s, depth)
    case Fun(ps, body) =>
      var n := s.functionno + 1;
      var types := ParamTypes(cat, ps, father);
      var (ok, table) := EnterParams(cat, s.table, ps, types, n, 1);
      if !ok then (FunctionErrorA, s.(functionno := n, table := table))
      else
        var (b, s') := Annotate(cat, body, s.(functionno := n, table := table), father, depth);
        (if b.ExprErrorA? then FunctionErrorA else AbstractionA(b, n, types), s')
    case List(es) =>
      if es == [] then (ArgListA([]), s)
      else
        var (head, s1) := Annotate(cat, es[0], s, father, depth);
        if head.ExprErrorA? then (ExprErrorA, s1)
        else
          var (args, s2) := AnnotateAll(cat, es[1..], s1, head.OperatorA?, father, [], depth);
          if args.None? then (ExprErrorA, s2) else Apply(cat, es, head, args.value, s2)
  }

  function AnnotateSymbol(cat: Catalog, x: string, s: AState, depth: nat): (Ann, AState)
    requires ValidCatalog(cat)
    decreases depth, Sym(x), 0
  {
    match RoleOf(cat, x)
    case ObjectRole(ValueObject(v, def, ty)) =>
      (ObjectA(x, |s.values|, ty), s.(values := s.values + [v], defined := s.defined && def))
    case ObjectRole(FunctionObject(def)) =>
      if depth == 0 then (ExprErrorA, s.(thrown := true))
      else
        var (a, s') := Annotate(cat, def, s.(values := s.values + [0], table := map[]), [], depth - 1);
        (a, s'.(table := s.table))
    case OperatorRole(ids) => (OperatorA(x, ids), s)
    case OtherRole =>
      if x in s.table then (VariableA(x, s.table[x].position, s.table[x].funindex, s.table[x].ty), s)
      else if KeywordOf(x).Some? then (KeywordA(KeywordOf(x).value), s)
      else if x in cat.typeNames then (ExprErrorA, s.(thrown := true))
      else (IdentifierA(x), s)
  }

  /**
   The elements after the first, up to an error; below an operator, `father` is the list of types so
   far.
   */
  function AnnotateAll(cat: Catalog, es: seq<Expr>, s: AState, isOp: bool, father: seq<Typed>,
                       sofar: seq<Typed>, depth: nat): (r: (Option<seq<Ann>>, AState))
    requires ValidCatalog(cat)
    ensures r.0.Some? ==> |r.0.value| == |es|
    decreases depth, es, 0
  {
    if es == [] then (Some([]), s)
    else
      var (a, s1) := Annotate(cat, es[0], s, if isOp then sofar else father, depth);
      if a.ExprErrorA? then (None, s1)
      else
        var (rest, s2) := AnnotateAll(cat, es[1..], s1, isOp, father, sofar + [Typed(TypeOf(a), es[0])], depth);
        (if rest.None? then None else Some([a] + rest.value), s2)
  }

  function Pair(as_: seq<Ann>, es: seq<Expr>): (r: seq<Typed>)
    requires |as_| == |es|
    ensures |r| == |es|
  {
    if es == [] then [] else [Typed(TypeOf(as_[0]), es[0])] + Pair(as_[1..], es[1..])
  }

  /** The annotation of a list is decided by what its first element turned out to be. */
  function Apply(cat: Catalog, es: seq<Expr>, head: Ann, args: seq<Ann>, s: AState): (Ann, AState)
    requires ValidCatalog(cat)
    requires |es| == |args| + 1
  {
    match head
    case OperatorA(_, ids) => ApplyOperator(cat, ids, args, Pair(args, es[1..]), s)
    case AbstractionA(body, _, ps) =>
      if TypesOfAll(args) == ps then (ApplyAbsA(head, args, TypeOf(body)), s) else (ExprErrorA, s)
    case KeywordA(Counter) =>
      if |args| < 2 || !IsNumber(es[1], "int") then (ExprErrorA, s)
      else
        var inRange := 0 < es[1].value <= NO_COUNTERS;
        (WrapperA(Counter, es[1].value, args[1], if inRange then TypeOf(args[1]) else TypeError), s)
    case KeywordA(Memory) =>
      if |args| < 2 || !IsNumber(es[1], "int") then (ExprErrorA, s)
      else (WrapperA(Memory, es[1].value, args[1], TypeOf(args[1])), s)
    case KeywordA(PredInfo) =>
      if |args| < 3 || !IsNumber(es[1], "real") || !IsNumber(es[2], "real") then (ExprErrorA, s)
      else (WrapperA(PredInfo, es[1].value, args[2], TypeOf(args[2])), s)
    case FunctionErrorA => (ExprErrorA, s)
    case _ => (ArgListA([head] + args), s)
  }

  /** The algebra of the candidate tried last. */
  function LastAlgebra(ids: seq<OpId>): nat {
    if ids == [] then 0 else ids[|ids| - 1].alg
  }

  /**
   If no candidate accepts the arguments, the annotation is left with the last candidate's algebra and
   number 0.
   */
  function ApplyOperator(cat: Catalog, ids: seq<OpId>, args: seq<Ann>, typed: seq<Typed>, s: AState): (Ann, AState)
    requires ValidCatalog(cat)
  {
    match FirstAccepting(cat, ids, typed)
    case None => (ApplyOpA(OpId(LastAlgebra(ids), 0), 0, args, TypeError), s)
    case Some(id) =>
      var r := TypeMapOf(cat, id, typed);
      var fun := cat.algebra[id].select(TypesOf(typed));
      if fun < 0 then (ApplyOpA(id, Combine(fun, id.op), args, TypeError), s)
      else
        var (extra, values) := AppendConstants(s.values, if r.Appended? then r.extra else []);
        (ApplyOpA(id, Combine(fun, id.op), args + extra, r.ty), s.(values := values))
  }

  /** `Construct` tests the type of the whole query: no exception, and no `typeerror` in it. */
  predicate WellTyped(a: Ann, s: AState) {
    !s.thrown && !HasError(TypeOf(a))
  }

  /** A query is accepted if it is well typed and every object mentioned in it has a value. */
  predicate Acceptable(a: Ann, s: AState) {
    WellTyped(a, s) && s.defined
  }

  /** `AnnotateX`: empty tables, counters reset. */
  function AnnotateX(cat: Catalog, e: Expr, depth: nat): (Ann, AState)
    requires ValidCatalog(cat)
  {
    Annotate(cat, e, AState(map[], [], 0, true, false), [], depth)
  }
}
