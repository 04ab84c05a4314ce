/**
 Towards what `Construct` accepts: it looks at the type of the whole query and at the flag for undefined
 objects, and leaves errors further down to the type mappings. Here it is shown when those errors reach
 the type of the whole, and which objects the flag stands for.
 */
module Acceptance {
  import opened Wrappers
  import opened QuerySyntax
  import opened Annotation
  import opened Meaning
  import opened AnnotationCorrect

  // ---------------------------------------------------------------- catalogs that let no error pass

  /** The application of an overloaded operator to arguments of these types is a type error. */
  predicate Refuses(cat: Catalog, ids: seq<OpId>, args: seq<Typed>) {
    match FirstAccepting(cat, ids, args)
    case None => true
    case Some(id) =>
      id !in cat.algebra || cat.algebra[id].select(TypesOf(args)) < 0 || HasError(TypeMapOf(cat, id, args).ty)
  }

  /** No operator accepts an argument with a type error. */
  ghost predicate Strict(cat: Catalog) {
    forall x, args: seq<Typed> :: RoleOf(cat, x).OperatorRole? && AnyError(TypesOf(args)) ==>
      Refuses(cat, cat.operators[x], args)
  }

  // ---------------------------------------------------------------- errors in types

  /** The symbols of a type expression, from left to right. */
  function Atoms(ty: Type): seq<string> {
    match ty
    case Basic(name) => [name]
    case Ident(name) => [name]
    case TypeError => ["typeerror"]
    case Stream(elem) => ["stream"] + Atoms(elem)
    case Map(params, result) => ["map"] + AtomsOfAll(params) + Atoms(result)
    case Tuple(elems) => AtomsOfAll(elems)
  }

  function AtomsOfAll(types: seq<Type>): seq<string> {
    if types == [] then [] else Atoms(types[0]) + AtomsOfAll(types[1..])
  }

  /** A type has an error exactly when `typeerror` is one of its symbols. */
  lemma {:induction false} ErrorIsAtom(ty: Type)
    ensures HasError(ty) <==> "typeerror" in Atoms(ty)
  {
    assert |"stream"| == 6 && |"map"| == 3 && |"typeerror"| == 9;
    match ty
    case Stream(elem) => ErrorIsAtom(elem);
    case Map(params, result) =>
      ErrorsAreAtoms(params);
      ErrorIsAtom(result);
    case Tuple(elems) => ErrorsAreAtoms(elems);
    case _ =>
  }

  lemma {:induction false} ErrorsAreAtoms(types: seq<Type>)
    ensures AnyError(types) <==> "typeerror" in AtomsOfAll(types)
  {
    if types != [] {
      ErrorIsAtom(types[0]);
      ErrorsAreAtoms(types[1..]);
    }
  }

  // ---------------------------------------------------------------- errors reach the root

  ghost predicate CleanIfTyped(a: Ann) {
    !HasError(TypeOf(a)) ==> Clean(a)
  }

  lemma {:induction false} TypedAreClean(as_: seq<Ann>)
    requires forall i :: 0 <= i < |as_| ==> CleanIfTyped(as_[i])
    requires !AnyError(TypesOfAll(as_))
    ensures CleanAll(as_)
  {
    if as_ != [] {
      assert TypesOfAll(as_)[0] == TypeOf(as_[0]) && TypesOfAll(as_)[1..] == TypesOfAll(as_[1..]);
      assert CleanIfTyped(as_[0]);
      forall i | 0 <= i < |as_[1..]| ensures CleanIfTyped(as_[1..][i]) { assert as_[1..][i] == as_[i + 1]; }
      TypedAreClean(as_[1..]);
    }
  }

  lemma {:induction false} ParamsEntered(cat: Catalog, table: VarTable, ps: seq<Param>, types: seq<Type>, fun: nat,
                                         k: nat)
    requires ValidCatalog(cat) && |ps| == |types| && EnterParams(cat, table, ps, types, fun, k).0
    ensures !AnyError(types)
    decreases |ps|
  {
    if ps != [] {
      ParamsEntered(cat, table[ps[0].name := VarEntry(k, fun, types[0])], ps[1..], types[1..], fun, k + 1);
      assert ParamTypeOk(cat, types[0]);
    }
  }

  lemma {:induction false} PairTypes(as_: seq<Ann>, es: seq<Expr>)
    requires |as_| == |es|
    ensures TypesOf(Pair(as_, es)) == TypesOfAll(as_)
  {
    if es != [] {
      PairTypes(as_[1..], es[1..]);
      assert Pair(as_, es)[1..] == Pair(as_[1..], es[1..]);
    }
  }

  /** What annotations of operators and abstractions carry. */
  ghost predicate HeadSound(cat: Catalog, a: Ann) {
    match a
    case OperatorA(x, ids) => RoleOf(cat, x) == OperatorRole(ids)
    case AbstractionA(_, _, ps) => !AnyError(ps)
    case _ => true
  }

  lemma {:induction false} OperatorClean(cat: Catalog, x: string, ids: seq<OpId>, args: seq<Ann>, es: seq<Expr>,
                                         s: AState)
    requires ValidCatalog(cat) && Strict(cat) && RoleOf(cat, x) == OperatorRole(ids) && |args| == |es|
    requires forall i :: 0 <= i < |args| ==> CleanIfTyped(args[i])
    ensures CleanIfTyped(ApplyOperator(cat, ids, args, Pair(args, es), s).0)
  {
    var typed := Pair(args, es);
    PairTypes(args, es);
    var a := ApplyOperator(cat, ids, args, typed, s).0;
    if !HasError(TypeOf(a)) {
      var chosen := FirstAccepting(cat, ids, typed);
      assert chosen.Some? && !Refuses(cat, ids, typed);
      var r := TypeMapOf(cat, chosen.value, typed);
      var lits := if r.Appended? then r.extra else [];
      assert LiteralsTyped(lits);
      assert !AnyError(TypesOf(typed));
      TypedAreClean(args);
      AppendedConstants(s.values, lits, map[], CountAll(args));
      Concatenation(args, AppendConstants(s.values, lits).0, 0);
    }
  }

  lemma {:induction false} ApplyClean(cat: Catalog, es: seq<Expr>, head: Ann, args: seq<Ann>, s: AState)
    requires ValidCatalog(cat) && Strict(cat) && |es| == |args| + 1
    requires HeadSound(cat, head) && CleanIfTyped(head)
    requires forall i :: 0 <= i < |args| ==> CleanIfTyped(args[i])
    ensures var a := Apply(cat, es, head, args, s).0; CleanIfTyped(a) && HeadSound(cat, a)
  {
    var a := Apply(cat, es, head, args, s).0;
    match head
    case OperatorA(x, ids) => OperatorClean(cat, x, ids, args, es[1..], s);
    case AbstractionA(body, _, ps) => if TypesOfAll(args) == ps { TypedAreClean(args); }
    case KeywordA(_) =>
    case FunctionErrorA =>
    case _ =>
      if !HasError(TypeOf(a)) {
        assert a == ArgListA([head] + args);
        forall i | 0 <= i < |args| + 1 ensures CleanIfTyped(([head] + args)[i]) {
          if i > 0 { assert ([head] + args)[i] == args[i - 1]; }
        }
        TypedAreClean([head] + args);
      }
  }

  lemma {:induction false} ListClean(cat: Catalog, es: seq<Expr>, s: AState, father: seq<Typed>, depth: nat)
    requires ValidCatalog(cat) && Strict(cat) && es != []
    requires var (head, s1) := Annotate(cat, es[0], s, father, depth);
      var args := AnnotateAll(cat, es[1..], s1, head.OperatorA?, father, [], depth).0;
      && HeadSound(cat, head) && CleanIfTyped(head)
      && (args.Some? ==> forall i :: 0 <= i < |args.value| ==> CleanIfTyped(args.value[i]))
    ensures var a := Annotate(cat, List(es), s, father, depth).0; CleanIfTyped(a) && HeadSound(cat, a)
  {
    var (head, s1) := Annotate(cat, es[0], s, father, depth);
    var (args, s2) := AnnotateAll(cat, es[1..], s1, head.OperatorA?, father, [], depth);
    if head.ExprErrorA? || args.None? {
    } else {
      ApplyClean(cat, es, head, args.value, s2);
      hide ValidCatalog, CleanIfTyped, HeadSound, AnnotateAll, Apply, Strict;
    }
  }

  /** If type mappings let no error pass, an error anywhere shows in the type of the whole. */
  lemma {:induction false} ErrorsReachRoot(cat: Catalog, e: Expr, s: AState, father: seq<Typed>, depth: nat)
    requires ValidCatalog(cat) && Strict(cat)
    ensures var a := Annotate(cat, e, s, father, depth).0; CleanIfTyped(a) && HeadSound(cat, a)
    decreases depth, e, 1
  {
    match e
    case Const(_, _) =>
    case Sym(x) =>
      if depth > 0 && RoleOf(cat, x).ObjectRole? && RoleOf(cat, x).obj.FunctionObject? {
        var def := cat.objects[x].def;
        ErrorsReachRoot(cat, def, s.(values := s.values + [0], table := map[]), [], depth - 1);
      }
    case Fun(ps, body) =>
      var n, types := s.functionno + 1, ParamTypes(cat, ps, father);
      var (ok, table) := EnterParams(cat, s.table, ps, types, n, 1);
      if ok {
        ParamsEntered(cat, s.table, ps, types, n, 1);
        ErrorsReachRoot(cat, body, s.(functionno := n, table := table), father, depth);
      }
    case List(es) =>
      if es != [] {
        ErrorsReachRoot(cat, es[0], s, father, depth);
        var (head, s1) := Annotate(cat, es[0], s, father, depth);
        ErrorsReachRootAll(cat, es[1..], s1, head.OperatorA?, father, [], depth);
        ListClean(cat, es, s, father, depth);
      }
  }

  lemma {:induction false} ErrorsReachRootAll(cat: Catalog, es: seq<Expr>, s: AState, isOp: bool, father: seq<Typed>,
                                              sofar: seq<Typed>, depth: nat)
    requires ValidCatalog(cat) && Strict(cat)
    ensures var args := AnnotateAll(cat, es, s, isOp, father, sofar, depth).0;
      args.Some? ==> forall i :: 0 <= i < |args.value| ==> CleanIfTyped(args.value[i])
    decreases depth, es, 0
  {
    if es != [] {
      var f := if isOp then sofar else father;
      ErrorsReachRoot(cat, es[0], s, f, depth);
      var (a, s1) := Annotate(cat, es[0], s, f, depth);
      ErrorsReachRootAll(cat, es[1..], s1, isOp, father, sofar + [Typed(TypeOf(a), es[0])], depth);
      var rest := AnnotateAll(cat, es[1..], s1, isOp, father, sofar + [Typed(TypeOf(a), es[0])], depth).0;
      if !a.ExprErrorA? && rest.Some? {
        assert AnnotateAll(cat, es, s, isOp, father, sofar, depth).0 == Some([a] + rest.value);
        hide *;
        forall i | 0 <= i < |[a] + rest.value| ensures CleanIfTyped(([a] + rest.value)[i]) {
          assert ([a] + rest.value)[i] == if i == 0 then a else rest.value[i - 1];
        }
      }
    }
  }

  // ---------------------------------------------------------------- undefined objects

  /** The pass over a query that resolves meets every object mentioned in it. */
  lemma {:induction false} DefinedSeen(cat: Catalog, e: Expr, s: AState, scope: VarTable, father: seq<Typed>,
                                       depth: nat)
    requires Ready(cat, s, scope)
    requires WellScoped(cat, e, scope.Keys, s.table.Keys)
    requires Resolve(cat, e, ScopeOf(scope), father, depth).Some?
    ensures Annotate(cat, e, s, father, depth).1.defined <==> s.defined && AllDefined(cat, e, depth)
    decreases depth, e, 1
  {
    match e
    case Const(_, _) =>
    case Sym(x) =>
      if RoleOf(cat, x).ObjectRole? && RoleOf(cat, x).obj.FunctionObject? {
        var def, inner := cat.objects[x].def, s.(values := s.values + [0], table := map[]);
        var none: VarTable := map[];
        assert none.Keys == {} && ScopeOf(none) == map[];
        DefinedSeen(cat, def, inner, none, [], depth - 1);
      }
    case Fun(ps, body) => DefinedInBody(cat, ps, body, s, scope, father, depth);
    case List(es) => if es != [] { DefinedInList(cat, es, s, scope, father, depth); }
  }

  lemma {:induction false} DefinedInBody(cat: Catalog, ps: seq<Param>, body: Expr, s: AState, scope: VarTable,
                                         father: seq<Typed>, depth: nat)
    requires Ready(cat, s, scope)
    requires WellScoped(cat, Fun(ps, body), scope.Keys, s.table.Keys)
    requires Resolve(cat, Fun(ps, body), ScopeOf(scope), father, depth).Some?
    ensures Annotate(cat, Fun(ps, body), s, father, depth).1.defined <==> s.defined && AllDefined(cat, body, depth)
    decreases depth, Fun(ps, body), 0
  {
    var types, n := ParamTypes(cat, ps, father), s.functionno + 1;
    assert ValidCatalog(cat) && GoodParams(cat, ps, types);
    FunctionParams(cat, ps, body, s, scope, types);
    var table, scope' := Enter(s.table, Names(ps), types, n, 1), Enter(scope, Names(ps), types, n, 1);
    FunctionReady(cat, ps, body, types, s, scope, table, scope');
    UnfoldAnnotate(cat, ps, body, types, s, father, depth);
    UnfoldResolve(cat, ps, body, types, ScopeOf(scope), father, depth);
    hide *;
    DefinedSeen(cat, body, s.(functionno := n, table := table), scope', father, depth);
  }

  lemma {:induction false} ListResolved(cat: Catalog, es: seq<Expr>, scope: Scope, father: seq<Typed>, depth: nat)
    requires ValidCatalog(cat) && es != [] && Resolve(cat, List(es), scope, father, depth).Some?
    ensures var h := HeadOf(cat, es[0], scope);
      && ResolveAll(cat, es[1..], scope, h.OperatorHead?, father, [], depth).Some?
      && (h.FunctionHead? || h.OtherHead? ==> Resolve(cat, es[0], scope, father, depth).Some?)
  {
    hide ValidCatalog, HeadOf, ResolveAll;
  }

  lemma {:induction false} ListDefined(cat: Catalog, es: seq<Expr>, s: AState, father: seq<Typed>, depth: nat)
    requires ValidCatalog(cat) && es != []
    ensures var (head, s1) := Annotate(cat, es[0], s, father, depth);
      !head.ExprErrorA? ==>
        Annotate(cat, List(es), s, father, depth).1.defined
        == AnnotateAll(cat, es[1..], s1, head.OperatorA?, father, [], depth).1.defined
  {
    hide ValidCatalog, AnnotateAll;
  }

  lemma {:induction false} DefinedInList(cat: Catalog, es: seq<Expr>, s: AState, scope: VarTable, father: seq<Typed>,
                                         depth: nat)
    requires Ready(cat, s, scope) && es != []
    requires WellScoped(cat, List(es), scope.Keys, s.table.Keys)
    requires Resolve(cat, List(es), ScopeOf(scope), father, depth).Some?
    ensures Annotate(cat, List(es), s, father, depth).1.defined <==> s.defined && AllDefinedIn(cat, es, depth)
    decreases depth, List(es), 0
  {
    assert ValidCatalog(cat);
    hide ValidCatalog, Ready, WellScoped, WellScopedAll, HeadOf, Annotate, Resolve, AnnotateAll, ResolveAll;
    ListResolved(cat, es, ScopeOf(scope), father, depth);
    ListDefined(cat, es, s, father, depth);
    var h := HeadOf(cat, es[0], ScopeOf(scope));
    var (head, s1) := Annotate(cat, es[0], s, father, depth);
    if h.OperatorHead? || h.KeywordHead? {
      SymbolicHead(cat, es, s, scope, father, depth);
      SymbolDefined(cat, es[0], scope, depth);
      DefinedInAll(cat, es[1..], s, scope, h.OperatorHead?, father, [], depth);
    } else {
      AnnotationCorrect.OtherHead(cat, es, s, scope, father, depth);
      AnnotateCorrect(cat, es[0], s, scope, father, depth);
      StillReady(cat, head, s, s1, Resolve(cat, es[0], ScopeOf(scope), father, depth), scope, Bound(es[0]));
      DefinedSeen(cat, es[0], s, scope, father, depth);
      DefinedInAll(cat, es[1..], s1, scope, false, father, [], depth);
    }
  }

  lemma {:induction false} SymbolDefined(cat: Catalog, e: Expr, scope: VarTable, depth: nat)
    requires var h := HeadOf(cat, e, ScopeOf(scope)); h.OperatorHead? || h.KeywordHead?
    ensures AllDefined(cat, e, depth)
  {}

  lemma {:induction false} DefinedInAll(cat: Catalog, es: seq<Expr>, s: AState, scope: VarTable, isOp: bool,
                                        father: seq<Typed>, sofar: seq<Typed>, depth: nat)
    requires Ready(cat, s, scope)
    requires WellScopedAll(cat, es, scope.Keys, s.table.Keys)
    requires ResolveAll(cat, es, ScopeOf(scope), isOp, father, sofar, depth).Some?
    ensures AnnotateAll(cat, es, s, isOp, father, sofar, depth).1.defined <==> s.defined && AllDefinedIn(cat, es, depth)
    decreases depth, es, 0
  {
    if es != [] {
      var f := if isOp then sofar else father;
      var (a, s1) := Annotate(cat, es[0], s, f, depth);
      var r := Resolve(cat, es[0], ScopeOf(scope), f, depth);
      AnnotateCorrect(cat, es[0], s, scope, f, depth);
      StillReady(cat, a, s, s1, r, scope, Bound(es[0]));
      TypeAgrees(a, r.value, s, s1, scope, Bound(es[0]));
      DefinedSeen(cat, es[0], s, scope, f, depth);
      DefinedInAll(cat, es[1..], s1, scope, isOp, father, sofar + [Typed(TypeOf(a), es[0])], depth);
    }
  }
}
