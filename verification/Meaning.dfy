/**
 The reference reading of a query. `Resolve` is ordinary lexical scoping and type checking: scopes
 are passed down and forgotten on the way up, a bound name hides everything else of that name, functions
 carry no numbers. `Sem` evaluates the
 resolved query in an environment of names.
 */
module Meaning {
  import opened Wrappers
  import opened QuerySyntax

  datatype Core =
    | Constant(value: Value)
    | Variable(name: string, ty: Type)
    | Identifier(name: string)
    | Operation(id: OpId, fun: nat, args: seq<Core>, ty: Type)
    | Function(params: seq<string>, body: Core, closed: bool)
    | Application(fn: Core, args: seq<Core>)
    | Arguments(args: seq<Core>)

  datatype Resolved = Resolved(core: Core, ty: Type)

  type Scope = map<string, Type>

  function Open(scope: Scope, names: seq<string>, types: seq<Type>): (r: Scope)
    requires |names| == |types|
    decreases |names|
  {
    if names == [] then scope else Open(scope[names[0] := types[0]], names[1..], types[1..])
  }

  /** Names are pairwise distinct and no operators; types are correct type expressions. */
  predicate GoodParams(cat: Catalog, ps: seq<Param>, types: seq<Type>)
    requires |ps| == |types|
  {
    && (forall i, j :: 0 <= i < j < |ps| ==> ps[i].name != ps[j].name)
    && (forall i :: 0 <= i < |ps| ==> ps[i].name !in cat.operators && ParamTypeOk(cat, types[i]))
  }

  /** What the first element of a list stands for; a bound name is none of the special cases. */
  datatype Head = OperatorHead(ids: seq<OpId>) | FunctionHead | KeywordHead(keyword: Keyword) | OtherHead

  function HeadOf(cat: Catalog, e: Expr, scope: Scope): Head {
    match e
    case Fun(_, _) => FunctionHead
    case Sym(x) =>
      if x in scope then OtherHead
      else
        (match RoleOf(cat, x)
         case ObjectRole(FunctionObject(_)) => FunctionHead
         case ObjectRole(_) => OtherHead
         case OperatorRole(ids) => OperatorHead(ids)
         case OtherRole => if KeywordOf(x).Some? then KeywordHead(KeywordOf(x).value) else OtherHead)
    case _ => OtherHead
  }

  function Resolve(cat: Catalog, e: Expr, scope: Scope, father: seq<Typed>, depth: nat): Option<Resolved>
    requires ValidCatalog(cat)
    decreases depth, e, 1
  {
    match e
    case Const(v, ty) => if HasError(ty) then None else Some(Resolved(Constant(v), ty))
    case Sym(x) => ResolveSymbol(cat, x, scope, depth)
    case Fun(ps, body) =>
      var types := ParamTypes(cat, ps, father);
      if !GoodParams(cat, ps, types) then None
      else
        (match Resolve(cat, body, Open(scope, Names(ps), types), father, depth)
         case None => None
         case Some(b) => Some(Resolved(Function(Names(ps), b.core, false), Map(types, b.ty))))
    case List(es) =>
      if es == [] then Some(Resolved(Arguments([]), Tuple([])))
      else
        var kind := HeadOf(cat, es[0], scope);
        var head := if kind.FunctionHead? || kind.OtherHead? then Resolve(cat, es[0], scope, father, depth) else None;
        var args := ResolveAll(cat, es[1..], scope, kind.OperatorHead?, father, [], depth);
        ResolveList(cat, kind, head, args, es)
  }

  function ResolveList(cat: Catalog, kind: Head, head: Option<Resolved>, args: Option<seq<Resolved>>,
                       es: seq<Expr>): Option<Resolved>
    requires ValidCatalog(cat)
    requires es != [] && (args.Some? ==> |args.value| == |es| - 1)
  {
    if args.None? then None
    else
      match kind
      case OperatorHead(ids) => ResolveOperation(cat, ids, args.value, es[1..])
      case KeywordHead(k) => ResolveWrapper(k, args.value, es)
      case FunctionHead =>
        if head.Some? && head.value.ty.Map? && head.value.ty.params == TypesIn(args.value)
        then Some(Resolved(Application(head.value.core, CoresIn(args.value)), head.value.ty.result)) else None
      case OtherHead =>
        if head.None? then None
        else Some(Resolved(Arguments([head.value.core] + CoresIn(args.value)),
                           Tuple([head.value.ty] + TypesIn(args.value))))
  }

  function ResolveSymbol(cat: Catalog, x: string, scope: Scope, depth: nat): Option<Resolved>
    requires ValidCatalog(cat)
    decreases depth, Sym(x), 0
  {
    if x in scope then
      if HasError(scope[x]) then None else Some(Resolved(Variable(x, scope[x]), scope[x]))
    else
      match RoleOf(cat, x)
      case ObjectRole(ValueObject(v, _, ty)) => if HasError(ty) then None else Some(Resolved(Constant(v), ty))
      case ObjectRole(FunctionObject(def)) =>
        if depth == 0 then None
        else
          (match Resolve(cat, def, map[], [], depth - 1)
           case None => None
           case Some(f) => if f.core.Function? then Some(f.(core := f.core.(closed := true))) else None)
      case OperatorRole(_) => None
      case OtherRole =>
        if KeywordOf(x).Some? || x in cat.typeNames || x == "typeerror" then None
        else Some(Resolved(Identifier(x), Ident(x)))
  }

  function ResolveAll(cat: Catalog, es: seq<Expr>, scope: Scope, isOp: bool, father: seq<Typed>,
                      sofar: seq<Typed>, depth: nat): (r: Option<seq<Resolved>>)
    requires ValidCatalog(cat)
    ensures r.Some? ==> |r.value| == |es|
    decreases depth, es, 0
  {
    if es == [] then Some([])
    else
      match Resolve(cat, es[0], scope, if isOp then sofar else father, depth)
      case None => None
      case Some(a) =>
        match ResolveAll(cat, es[1..], scope, isOp, father, sofar + [Typed(a.ty, es[0])], depth)
        case None => None
        case Some(rest) => Some([a] + rest)
  }

  function TypesIn(rs: seq<Resolved>): (r: seq<Type>)
    ensures |r| == |rs|
  {
    if rs == [] then [] else [rs[0].ty] + TypesIn(rs[1..])
  }

  function CoresIn(rs: seq<Resolved>): (r: seq<Core>)
    ensures |r| == |rs|
  {
    if rs == [] then [] else [rs[0].core] + CoresIn(rs[1..])
  }

  function WithTypes(rs: seq<Resolved>, es: seq<Expr>): (r: seq<Typed>)
    requires |rs| == |es|
  {
    if es == [] then [] else [Typed(rs[0].ty, es[0])] + WithTypes(rs[1..], es[1..])
  }

  function Literals(extra: seq<Literal>): (r: seq<Core>)
    ensures |r| == |extra|
  {
    if extra == [] then [] else [Constant(extra[0].value)] + Literals(extra[1..])
  }

  function ResolveOperation(cat: Catalog, ids: seq<OpId>, args: seq<Resolved>, es: seq<Expr>): Option<Resolved>
    requires ValidCatalog(cat)
    requires |args| == |es|
  {
    var typed := WithTypes(args, es);
    match FirstAccepting(cat, ids, typed)
    case None => None
    case Some(id) =>
      var r := TypeMapOf(cat, id, typed);
      var fun := cat.algebra[id].select(TypesOf(typed));
      var extra := if r.Appended? then r.extra else [];
      if fun < 0 || HasError(r.ty) || !LiteralsTyped(extra) then None
      else Some(Resolved(Operation(id, fun, CoresIn(args) + Literals(extra), r.ty), r.ty))
  }

  /** Counters, predicate information and memory sizes do not change what an expression means. */
  function ResolveWrapper(k: Keyword, args: seq<Resolved>, es: seq<Expr>): Option<Resolved>
    requires |es| == |args| + 1
  {
    match k
    case Counter =>
      if |args| < 2 || !IsNumber(es[1], "int") || !(0 < es[1].value <= NO_COUNTERS) then None else Some(args[1])
    case Memory => if |args| < 2 || !IsNumber(es[1], "int") then None else Some(args[1])
    case PredInfo =>
      if |args| < 3 || !IsNumber(es[1], "real") || !IsNumber(es[2], "real") then None else Some(args[2])
  }

  // ---------------------------------------------------------------- evaluation

  type Env = map<string, Value>

  function Bind(env: Env, names: seq<string>, vals: seq<Value>): Env
    requires |names| == |vals|
    decreases |names|
  {
    if names == [] then env else Bind(env[names[0] := vals[0]], names[1..], vals[1..])
  }

  /** Arguments that are evaluated before the operator is called. */
  predicate IsValueTerm(c: Core) {
    !c.Identifier? && !c.Function? && !c.Arguments?
  }

  function MapFor(cat: Catalog, id: OpId, fun: nat): Option<ValueMap> {
    if id in cat.algebra && fun < |cat.algebra[id].valueMaps| then Some(cat.algebra[id].valueMaps[fun]) else None
  }

  function Lazy(cat: Catalog, id: OpId): bool {
    id in cat.algebra && cat.algebra[id].requestsArgs
  }

  /**
   The value of a term, if it has one; `limit` bounds how many requests one call of an operator may
   make, so that operators need not terminate.
   */
  function Sem(cat: Catalog, c: Core, env: Env, limit: nat): Option<Value>
    decreases c, 2, 0
  {
    match c
    case Constant(v) => Some(v)
    case Variable(x, _) => if x in env then Some(env[x]) else None
    case Operation(id, fun, args, _) =>
      (match (MapFor(cat, id, fun), SemArgs(cat, args, Lazy(cat, id), env, limit))
       case (Some(vm), Some(view)) => Run(cat, c, vm, view, env, [], limit, limit)
       case _ => None)
    case Application(fn, args) =>
      if !fn.Function? then None
      else
        (match SemValues(cat, args, env, limit)
         case None => None
         case Some(vals) => Call(cat, fn, vals, env, limit))
    case _ => None
  }

  function Call(cat: Catalog, fn: Core, vals: seq<Value>, env: Env, limit: nat): Option<Value>
    requires fn.Function?
    decreases fn, 0, 0
  {
    if |vals| != |fn.params| then None
    else Sem(cat, fn.body, Bind(if fn.closed then map[] else env, fn.params, vals), limit)
  }

  function SemArgs(cat: Catalog, args: seq<Core>, skip: bool, env: Env, limit: nat): (r: Option<seq<Option<Value>>>)
    ensures r.Some? ==> |r.value| == |args|
    decreases args, 0, 0
  {
    if args == [] then Some([])
    else if skip || !IsValueTerm(args[0]) then
      (match SemArgs(cat, args[1..], skip, env, limit)
       case None => None
       case Some(rest) => Some([None] + rest))
    else
      match Sem(cat, args[0], env, limit)
      case None => None
      case Some(v) =>
        match SemArgs(cat, args[1..], skip, env, limit)
        case None => None
        case Some(rest) => Some([Some(v)] + rest)
  }

  function SemValues(cat: Catalog, args: seq<Core>, env: Env, limit: nat): (r: Option<seq<Value>>)
    ensures r.Some? ==> |r.value| == |args|
    decreases args, 0, 0
  {
    if args == [] then Some([])
    else
      match Sem(cat, args[0], env, limit)
      case None => None
      case Some(v) =>
        match SemValues(cat, args[1..], env, limit)
        case None => None
        case Some(rest) => Some([v] + rest)
  }

  /** The argument at the end of a path that leads through argument lists. */
  function At(cs: seq<Core>, path: seq<nat>): (r: Option<Core>)
    ensures r.Some? ==> !r.value.Arguments? && exists i :: 0 <= i < |cs| && (r.value == cs[i] || r.value < cs[i])
    decreases |path|
  {
    if path == [] || path[0] >= |cs| then None
    else
      var c := cs[path[0]];
      if c.Arguments? then At(c.args, path[1..]) else if |path| == 1 then Some(c) else None
  }

  /** Plays the operator's strategy against its arguments in their environment. */
  function Run(cat: Catalog, c: Core, vm: ValueMap, view: seq<Option<Value>>, env: Env,
               answers: seq<Value>, fuel: nat, limit: nat): Option<Value>
    requires c.Operation?
    decreases c, 1, fuel
  {
    match vm(view, answers)
    case Done(v) => Some(v)
    case Ask(path, vals) =>
      if fuel == 0 || At(c.args, path).None? then None
      else
        var arg := At(c.args, path).value;
        var answer :=
          if arg.Function? then Call(cat, arg, vals, env, limit)
          else if vals == [] then Sem(cat, arg, env, limit)
          else None;
        match answer
        case None => None
        case Some(v) => Run(cat, c, vm, view, env, answers + [v], fuel - 1, limit)
  }

  // ---------------------------------------------------------------- assumptions on queries

  /** Names bound anywhere inside an expression. */
  function Bound(e: Expr): set<string>
    decreases e
  {
    match e
    case Fun(ps, body) => NameSet(ps) + Bound(body)
    case List(es) => BoundAll(es)
    case _ => {}
  }

  function BoundAll(es: seq<Expr>): set<string>
    decreases es
  {
    if es == [] then {} else Bound(es[0]) + BoundAll(es[1..])
  }

  /**
   What the annotation pass assumes of one expression: all bound names are distinct (`seen` holds
   those bound so far) and none is the name of an object, and no symbol names a variable outside the
   variable's scope.
   */
  predicate WellScoped(cat: Catalog, e: Expr, scope: set<string>, seen: set<string>)
    decreases e
  {
    match e
    case Const(_, _) => true
    case Sym(x) => x in scope || x !in seen || !RoleOf(cat, x).OtherRole?
    case Fun(ps, body) =>
      var names := NameSet(ps);
      names !! seen && names !! cat.objects.Keys && WellScoped(cat, body, scope + names, seen + names)
    case List(es) => WrapperForm(cat, es, scope) && WellScopedAll(cat, es, scope, seen)
  }

  /** Pseudo operators are written with exactly the elements they document. */
  predicate WrapperForm(cat: Catalog, es: seq<Expr>, scope: set<string>) {
    |es| > 0 && es[0].Sym? && RoleOf(cat, es[0].name).OtherRole? && es[0].name !in scope &&
    KeywordOf(es[0].name).Some?
    ==> |es| == if KeywordOf(es[0].name).value.PredInfo? then 4 else 3
  }

  predicate WellScopedAll(cat: Catalog, es: seq<Expr>, scope: set<string>, seen: set<string>)
    decreases es
  {
    es == [] ||
    (WellScoped(cat, es[0], scope, seen) && WellScopedAll(cat, es[1..], scope, seen + Bound(es[0])))
  }

  /** Every object mentioned in the expression, or in a stored function that it mentions, has a value. */
  predicate AllDefined(cat: Catalog, e: Expr, depth: nat)
    decreases depth, e
  {
    match e
    case Const(_, _) => true
    case Sym(x) =>
      (match RoleOf(cat, x)
       case ObjectRole(ValueObject(_, defined, _)) => defined
       case ObjectRole(FunctionObject(def)) => depth > 0 ==> AllDefined(cat, def, depth - 1)
       case _ => true)
    case Fun(_, body) => AllDefined(cat, body, depth)
    case List(es) => AllDefinedIn(cat, es, depth)
  }

  predicate AllDefinedIn(cat: Catalog, es: seq<Expr>, depth: nat)
    decreases depth, es
  {
    es == [] || (AllDefined(cat, es[0], depth) && AllDefinedIn(cat, es[1..], depth))
  }

  ghost predicate ScopedCatalog(cat: Catalog) {
    forall x :: x in cat.objects && cat.objects[x].FunctionObject? ==> WellScoped(cat, cat.objects[x].def, {}, {})
  }

  /**
   The queries the evaluator computes with values: no streams, results of types that have a constructor,
   functions and argument lists only as arguments of operators or, for functions, applied at once, and
   lists that fit the argument vectors.
   */
  predicate Supported(cat: Catalog, c: Core)
    decreases c, 0
  {
    match c
    case Constant(_) => true
    case Variable(_, ty) => !ty.Map? && !ty.Stream?
    case Operation(_, _, args, ty) =>
      !ty.Stream? && HasConstructor(cat, ty) && |args| <= MAXARG
      && forall i :: 0 <= i < |args| ==> SupportedArg(cat, args[i])
    case Application(fn, args) =>
      && fn.Function? && SupportedArg(cat, fn) && |args| < MAXARG
      && forall i :: 0 <= i < |args| ==> Supported(cat, args[i])
    case _ => false
  }

  predicate SupportedArg(cat: Catalog, c: Core)
    decreases c, 1
  {
    match c
    case Identifier(_) => true
    case Function(ps, body, _) => 2 * |ps| <= MAXARG && Supported(cat, body)
    case Arguments(args) => |args| <= MAXARG && forall i :: 0 <= i < |args| ==> SupportedArg(cat, args[i])
    case _ => Supported(cat, c)
  }
}
