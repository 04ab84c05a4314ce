/** The main results on the query compiler, and where its assumptions are needed. */
module Compilation {
  import opened Wrappers
  import opened QuerySyntax
  import opened Annotation
  import opened Meaning
  import opened AnnotationCorrect
  import opened Acceptance
  import opened OperatorTree
  import opened Building
  import opened EvaluationCorrect

  // ------------------------------------------------------------------ what is accepted

  /** The query is annotated with fresh tables. */
  function Start(): AState {
    AState(map[], [], 0, true, false)
  }

  /**
   The pass over a whole query: its annotation has no error anywhere exactly when it resolves; then both
   have the same type and agree node by node, and the abstractions are numbered 1, 2, ... up to the
   counter.
   */
  lemma {:induction false} ResolutionAgrees(cat: Catalog, e: Expr, depth: nat)
    requires ValidCatalog(cat) && ScopedCatalog(cat) && WellScoped(cat, e, {}, {})
    ensures var (a, s) := AnnotateX(cat, e, depth); var r := Resolve(cat, e, map[], [], depth);
      && (Clean(a) <==> r.Some?)
      && (r.Some? ==>
            && TypeOf(a) == r.value.ty
            && Matches(a, r.value.core, map[], s.values)
            && Numbered(a, 0)
            && Count(a) == s.functionno
            && !s.thrown)
  {
    var none: VarTable := map[];
    assert none.Keys == {} && ScopeOf(none) == map[];
    AnnotateCorrect(cat, e, Start(), none, [], depth);
  }

  lemma {:induction false} OperatorQuery(cat: Catalog, x: string, es: seq<Expr>, depth: nat)
    requires ValidCatalog(cat) && RoleOf(cat, x).OperatorRole?
    ensures var (args, s2) := AnnotateAll(cat, es, Start(), true, [], [], depth);
      args.Some? ==>
        AnnotateX(cat, List([Sym(x)] + es), depth)
        == ApplyOperator(cat, cat.operators[x], args.value, Pair(args.value, es), s2)
    ensures ResolveAll(cat, es, map[], true, [], [], depth) == None ==>
      Resolve(cat, List([Sym(x)] + es), map[], [], depth) == None
  {
    var all := [Sym(x)] + es;
    assert all[1..] == es && Annotate(cat, all[0], Start(), [], depth) == (OperatorA(x, cat.operators[x]), Start());
    assert HeadOf(cat, all[0], map[]) == OperatorHead(cat.operators[x]);
    hide ValidCatalog, AnnotateAll, ResolveAll, HeadOf, ApplyOperator;
  }

  /**
   An operator applied to arguments of which one has a type error: the query never resolves, and
   `Construct` finds it well typed exactly when the operator's type mapping accepts the arguments.
   */
  lemma {:induction false} ErrorOverlooked(cat: Catalog, x: string, es: seq<Expr>, depth: nat)
    requires ValidCatalog(cat) && ScopedCatalog(cat) && RoleOf(cat, x).OperatorRole?
    requires WellScopedAll(cat, es, {}, {})
    requires var (args, s2) := AnnotateAll(cat, es, Start(), true, [], [], depth);
      args.Some? && !s2.thrown && AnyError(TypesOfAll(args.value))
    ensures var (a, s) := AnnotateX(cat, List([Sym(x)] + es), depth);
      WellTyped(a, s)
      <==> !Refuses(cat, cat.operators[x], Pair(AnnotateAll(cat, es, Start(), true, [], [], depth).0.value, es))
    ensures Resolve(cat, List([Sym(x)] + es), map[], [], depth) == None
  {
    var (args, s2) := AnnotateAll(cat, es, Start(), true, [], [], depth);
    var none: VarTable := map[];
    assert none.Keys == {} && ScopeOf(none) == map[];
    AllCorrect(cat, es, Start(), none, true, [], [], depth);
    OperatorQuery(cat, x, es, depth);
    var rs := ResolveAll(cat, es, map[], true, [], [], depth);
    if rs.Some? { CleanTypes(args.value); }
  }

  /** Type mappings that look at types only; the others look at the argument expressions too. */
  ghost predicate TypesOnly(cat: Catalog) {
    forall id, args, args' :: id in cat.algebra && TypesOf(args) == TypesOf(args') ==>
      cat.algebra[id].typeMap(args) == cat.algebra[id].typeMap(args')
  }

  /** `Construct` finds the query well typed. */
  predicate PassesTest(cat: Catalog, e: Expr, depth: nat)
    requires ValidCatalog(cat)
  {
    var (a, s) := AnnotateX(cat, e, depth);
    WellTyped(a, s)
  }

  /** Whatever passes the test resolves. */
  ghost predicate ErrorsFound(cat: Catalog)
    requires ValidCatalog(cat)
  {
    forall e, depth: nat :: WellScoped(cat, e, {}, {}) && PassesTest(cat, e, depth) ==>
      Resolve(cat, e, map[], [], depth).Some?
  }

  function Constants(types: seq<Type>): (es: seq<Expr>)
    ensures |es| == |types|
  {
    if types == [] then [] else [Const(0, types[0])] + Constants(types[1..])
  }

  /** Constants realise every list of types. */
  lemma {:induction false} ConstantsAnnotated(cat: Catalog, types: seq<Type>, s: AState, sofar: seq<Typed>, depth: nat)
    requires ValidCatalog(cat)
    ensures var (args, s2) := AnnotateAll(cat, Constants(types), s, true, [], sofar, depth);
      args.Some? && TypesOfAll(args.value) == types && s2.thrown == s.thrown
    ensures WellScopedAll(cat, Constants(types), {}, {})
    decreases |types|
  {
    if types != [] {
      var es := Constants(types);
      assert es[1..] == Constants(types[1..]) && es[0] == Const(0, types[0]);
      var (a, s1) := Annotate(cat, es[0], s, sofar, depth);
      ConstantsAnnotated(cat, types[1..], s1, sofar + [Typed(TypeOf(a), es[0])], depth);
      var rest := AnnotateAll(cat, es[1..], s1, true, [], sofar + [Typed(TypeOf(a), es[0])], depth).0.value;
      assert ([a] + rest)[1..] == rest;
      assert {} + Bound(es[0]) == {};
    }
  }

  lemma {:induction false} SameTypesSameAnswer(cat: Catalog, ids: seq<OpId>, args: seq<Typed>, args': seq<Typed>)
    requires TypesOnly(cat) && TypesOf(args) == TypesOf(args')
    ensures FirstAccepting(cat, ids, args) == FirstAccepting(cat, ids, args')
    ensures Refuses(cat, ids, args) == Refuses(cat, ids, args')
    decreases |ids|
  {
    if ids != [] {
      assert TypeMapOf(cat, ids[0], args) == TypeMapOf(cat, ids[0], args');
      SameTypesSameAnswer(cat, ids[1..], args, args');
    }
  }

  lemma {:induction false} WellTypedResolves(cat: Catalog, e: Expr, depth: nat)
    requires ValidCatalog(cat) && ScopedCatalog(cat) && Strict(cat) && WellScoped(cat, e, {}, {})
    requires PassesTest(cat, e, depth)
    ensures Resolve(cat, e, map[], [], depth).Some?
  {
    ResolutionAgrees(cat, e, depth);
    ErrorsReachRoot(cat, e, Start(), [], depth);
  }

  /**
   Where type mappings look at types only, the queries found well typed are exactly those that resolve
   if and only if no operator accepts an argument with a type error.
   */
  lemma {:induction false} StrictExactly(cat: Catalog)
    requires ValidCatalog(cat) && ScopedCatalog(cat) && TypesOnly(cat)
    ensures ErrorsFound(cat) <==> Strict(cat)
  {
    if Strict(cat) {
      forall e, depth: nat | WellScoped(cat, e, {}, {}) && PassesTest(cat, e, depth)
        ensures Resolve(cat, e, map[], [], depth).Some?
      {
        WellTypedResolves(cat, e, depth);
      }
    }
    if ErrorsFound(cat) {
      forall x, args: seq<Typed> | RoleOf(cat, x).OperatorRole? && AnyError(TypesOf(args))
        ensures Refuses(cat, cat.operators[x], args)
      {
        NotOverlooked(cat, x, args);
      }
    }
  }

  lemma {:induction false} OperatorQueryScoped(cat: Catalog, x: string, es: seq<Expr>)
    requires RoleOf(cat, x).OperatorRole? && WellScopedAll(cat, es, {}, {})
    ensures WellScoped(cat, List([Sym(x)] + es), {}, {})
  {
    var all := [Sym(x)] + es;
    assert all[0] == Sym(x) && all[1..] == es;
    assert {} + Bound(all[0]) == {};
    assert WellScoped(cat, all[0], {}, {}) && WellScopedAll(cat, all, {}, {});
  }

  lemma {:induction false} NotOverlooked(cat: Catalog, x: string, args: seq<Typed>)
    requires ValidCatalog(cat) && ScopedCatalog(cat) && TypesOnly(cat) && ErrorsFound(cat)
    requires RoleOf(cat, x).OperatorRole? && AnyError(TypesOf(args))
    ensures Refuses(cat, cat.operators[x], args)
  {
    var es := Constants(TypesOf(args));
    ConstantsAnnotated(cat, TypesOf(args), Start(), [], 0);
    ErrorOverlooked(cat, x, es, 0);
    var anns := AnnotateAll(cat, es, Start(), true, [], [], 0).0.value;
    PairTypes(anns, es);
    SameTypesSameAnswer(cat, cat.operators[x], Pair(anns, es), args);
    var query := List([Sym(x)] + es);
    OperatorQueryScoped(cat, x, es);
    hide WellScoped, AnnotateX, Resolve, Refuses;
    assert WellScoped(cat, query, {}, {});
  }

  /** An undefined object: the query resolves and is well typed, but it is not accepted. */
  lemma {:induction false} UndefinedObject(cat: Catalog, x: string, v: Value, ty: Type, depth: nat)
    requires ValidCatalog(cat) && RoleOf(cat, x) == ObjectRole(ValueObject(v, false, ty)) && !HasError(ty)
    ensures var (a, s) := AnnotateX(cat, Sym(x), depth); WellTyped(a, s) && !Acceptable(a, s)
    ensures Resolve(cat, Sym(x), map[], [], depth) == Some(Resolved(Constant(v), ty))
  {
    assert AnnotateSymbol(cat, x, Start(), depth).0 == ObjectA(x, 0, ty);
    assert AnnotateX(cat, Sym(x), depth) == AnnotateSymbol(cat, x, Start(), depth);
    assert ResolveSymbol(cat, x, map[], depth) == Some(Resolved(Constant(v), ty));
  }

  /**
   Whatever the type mappings do: of the well-scoped queries that pass the test and are built, exactly
   those resolve that carry no error of their own and get no result type with an error hidden inside. If
   type mappings reject with the symbol `typeerror` itself, the first condition alone decides.
   */
  lemma {:induction false} BuiltResolves(cat: Catalog, e: Expr, depth: nat)
    requires ValidCatalog(cat) && ScopedCatalog(cat) && WellScoped(cat, e, {}, {})
    requires var (a, s) := AnnotateX(cat, e, depth); WellTyped(a, s) && Buildable(cat, a, |s.values|)
    ensures var resolves := Resolve(cat, e, map[], [], depth).Some?; var plain := Plain(cat, e, {}, depth);
      && (resolves <==> plain && NothingHidden(AnnotateX(cat, e, depth).0))
      && (Forthright(cat) ==> (resolves <==> plain))
  {
    var none: Scope := map[];
    var (a, s) := AnnotateX(cat, e, depth);
    assert none.Keys == {};
    ResolutionAgrees(cat, e, depth);
    if Resolve(cat, e, map[], [], depth).Some? {
      ResolvedIsPlain(cat, e, none, {}, [], depth);
      CleanHidesNothing(a);
    }
    if Plain(cat, e, {}, depth) { BuiltIsClean(cat, e, Start(), {}, [], depth, |s.values|); }
  }

  // ------------------------------------------------------------------ meaning

  /**
   What becomes of a query: a type error, an object without a value, a tree that is not built, a tree
   that is not evaluable by itself, or an answer.
   */
  datatype Outcome = Refused | Undefined | NotBuilt | NotEvaluable | Answered(result: Option<Word>)

  function Answer(cat: Catalog, e: Expr, depth: nat, limit: nat): Outcome
    requires ValidCatalog(cat)
  {
    var (a, s) := AnnotateX(cat, e, depth);
    if !WellTyped(a, s) then Refused
    else if !s.defined then Undefined
    else if !Buildable(cat, a, |s.values|) then NotBuilt
    else
      var (n, nodes) := Subtree(cat, a, s.values, 0);
      if !n.evaluable then NotEvaluable
      else if !Fits(n, s.functionno, nodes) then NotBuilt
      else Answered(Eval(cat, n, FreshStore(s.functionno, nodes), limit).0)
  }

  /** Every query that resolves is well typed, and it is accepted if all its objects have values. */
  lemma {:induction false} ResolvedAccepted(cat: Catalog, e: Expr, depth: nat)
    requires ValidCatalog(cat) && ScopedCatalog(cat) && WellScoped(cat, e, {}, {})
    requires Resolve(cat, e, map[], [], depth).Some?
    ensures var (a, s) := AnnotateX(cat, e, depth);
      WellTyped(a, s) && (Acceptable(a, s) <==> AllDefined(cat, e, depth))
  {
    ResolutionAgrees(cat, e, depth);
    var none: VarTable := map[];
    assert none.Keys == {} && ScopeOf(none) == map[];
    DefinedSeen(cat, e, Start(), none, [], depth);
  }

  /**
   The tree of a query that resolves refers only to vectors that are allocated and to slots that they
   have, if no function has more parameters than a vector has slots.
   */
  lemma {:induction false} ResolvedFits(cat: Catalog, e: Expr, depth: nat)
    requires ValidCatalog(cat) && ScopedCatalog(cat) && WellScoped(cat, e, {}, {})
    requires Resolve(cat, e, map[], [], depth).Some?
    requires var (a, s) := AnnotateX(cat, e, depth); Buildable(cat, a, |s.values|) && ShortParams(a)
    ensures var (a, s) := AnnotateX(cat, e, depth);
      var (n, nodes) := Subtree(cat, a, s.values, 0);
      Fits(n, s.functionno, nodes)
  {
    ResolutionAgrees(cat, e, depth);
    var none: VarTable := map[];
    var (a, s) := AnnotateX(cat, e, depth);
    SubtreeSize(cat, a, s.values, 0);
    var cx := Context(cat, s.values, none, map[], 0);
    TreeFits(cx, a, Resolve(cat, e, map[], [], depth).value.core, 0, 0, s.functionno, Size(a));
  }

  /** Of the queries that resolve over defined objects, exactly those are built that `Constructs` describes. */
  lemma {:induction false} ResolvedBuilt(cat: Catalog, e: Expr, depth: nat, limit: nat)
    requires ValidCatalog(cat) && ScopedCatalog(cat) && WellScoped(cat, e, {}, {}) && AllDefined(cat, e, depth)
    requires Resolve(cat, e, map[], [], depth).Some? && ShortParams(AnnotateX(cat, e, depth).0)
    ensures Answer(cat, e, depth, limit) == NotBuilt <==> !Constructs(cat, Resolve(cat, e, map[], [], depth).value.core)
  {
    var none: VarTable := map[];
    var (a, s) := AnnotateX(cat, e, depth);
    ResolutionAgrees(cat, e, depth);
    ResolvedAccepted(cat, e, depth);
    ResolvedBuilds(cat, a, Resolve(cat, e, map[], [], depth).value.core, none, s.values);
    if Buildable(cat, a, |s.values|) { ResolvedFits(cat, e, depth); }
  }

  /** The value half: what the tree of a supported query computes. */
  lemma {:induction false} SupportedAnswer(cat: Catalog, e: Expr, depth: nat, limit: nat)
    requires ValidCatalog(cat) && ScopedCatalog(cat) && WellScoped(cat, e, {}, {})
    requires var r := Resolve(cat, e, map[], [], depth); r.Some? && Supported(cat, r.value.core)
    requires var (a, s) := AnnotateX(cat, e, depth); Acceptable(a, s)
    ensures Answer(cat, e, depth, limit) ==
            Answered(Image(Sem(cat, Resolve(cat, e, map[], [], depth).value.core, map[], limit)))
  {
    ResolutionAgrees(cat, e, depth);
    var none: VarTable := map[];
    var (a, s) := AnnotateX(cat, e, depth);
    var c := Resolve(cat, e, map[], [], depth).value.core;
    SupportedIsArg(cat, [c]);
    assert SupportedArg(cat, [c][0]) && IsValueTerm([c][0]);
    SupportedConstructs(cat, c);
    ResolvedBuilds(cat, a, c, none, s.values);
    SubtreeSize(cat, a, s.values, 0);
    var cx := Context(cat, s.values, none, map[], limit);
    var st := FreshStore(s.functionno, Size(a));
    SubtreeMirrors(cx, a, c, 0, 0);
    EvalCorrect(cx, a, c, 0, 0, st);
  }

  /**
   A query that resolves over defined objects is answered, and annotating, building the tree and
   evaluating it over shared argument vectors gives exactly what lexical scoping and evaluation in an
   environment give: for every well-scoped query of values, operators with parameter functions and
   argument lists, stored functions, abstractions and their applications, and for every bound on the
   requests of operators. An undefined object is reported; and where no operator accepts an argument
   with a type error, exactly the queries that do not resolve are refused. A query that does not resolve
   and carries no error of its own is never evaluated, if type mappings reject with `typeerror` itself.
   */
  lemma {:induction false} CompilationPreservesMeaning(cat: Catalog, e: Expr, depth: nat, limit: nat)
    requires ValidCatalog(cat) && ScopedCatalog(cat) && WellScoped(cat, e, {}, {})
    ensures var r := Resolve(cat, e, map[], [], depth); var answer := Answer(cat, e, depth, limit);
      && (r.Some? ==> answer != Refused)
      && (r.Some? ==> (answer == Undefined <==> !AllDefined(cat, e, depth)))
      && (r.Some? && Supported(cat, r.value.core) && AllDefined(cat, e, depth) ==>
            answer == Answered(Image(Sem(cat, r.value.core, map[], limit))))
      && (Strict(cat) ==> (answer == Refused <==> r.None?))
      && (r.None? && Plain(cat, e, {}, depth) && Forthright(cat) ==> answer in {Refused, Undefined, NotBuilt})
  {
    var r := Resolve(cat, e, map[], [], depth);
    if r.Some? {
      ResolvedAccepted(cat, e, depth);
      if Supported(cat, r.value.core) && AllDefined(cat, e, depth) { SupportedAnswer(cat, e, depth, limit); }
    } else {
      if Strict(cat) && PassesTest(cat, e, depth) { WellTypedResolves(cat, e, depth); }
      var (a, s) := AnnotateX(cat, e, depth);
      if WellTyped(a, s) && Buildable(cat, a, |s.values|) { BuiltResolves(cat, e, depth); }
    }
  }

  // ------------------------------------------------------------------ scoping by numbers

  /** The numbers of all abstractions, in order of appearance. */
  function FunctionNumbers(a: Ann): seq<nat> {
    match a
    case ApplyOpA(_, _, args, _) => FunctionNumbersAll(args)
    case AbstractionA(body, n, _) => [n] + FunctionNumbers(body)
    case ApplyAbsA(fn, args, _) => FunctionNumbers(fn) + FunctionNumbersAll(args)
    case WrapperA(_, _, body, _) => FunctionNumbers(body)
    case ArgListA(args) => FunctionNumbersAll(args)
    case _ => []
  }

  function FunctionNumbersAll(as_: seq<Ann>): seq<nat> {
    if as_ == [] then [] else FunctionNumbers(as_[0]) + FunctionNumbersAll(as_[1..])
  }

  function Counting(lo: nat, n: nat): (r: seq<nat>)
    ensures |r| == n && forall i :: 0 <= i < n ==> r[i] == lo + 1 + i
  {
    seq(n, i requires 0 <= i < n => lo + 1 + i)
  }

  lemma {:induction false} NumberedCounts(a: Ann, lo: nat)
    requires Numbered(a, lo)
    ensures FunctionNumbers(a) == Counting(lo, Count(a))
    decreases a
  {
    match a
    case ApplyOpA(_, _, args, _) => NumberedCountsAll(args, lo);
    case AbstractionA(body, _, _) => NumberedCounts(body, lo + 1);
    case ApplyAbsA(fn, args, _) =>
      NumberedCounts(fn, lo);
      NumberedCountsAll(args, lo + Count(fn));
    case WrapperA(_, _, body, _) => NumberedCounts(body, lo);
    case ArgListA(args) => NumberedCountsAll(args, lo);
    case _ =>
  }

  lemma {:induction false} NumberedCountsAll(as_: seq<Ann>, lo: nat)
    requires NumberedAll(as_, lo)
    ensures FunctionNumbersAll(as_) == Counting(lo, CountAll(as_))
    decreases as_
  {
    if as_ != [] {
      NumberedCounts(as_[0], lo);
      NumberedCountsAll(as_[1..], lo + Count(as_[0]));
    }
  }

  /**
   Below the abstractions `outer` (their numbers and parameter types), every variable names one of
   them, a position it has, and carries that parameter's type.
   */
  ghost predicate WellNumbered(a: Ann, outer: map<nat, seq<Type>>) {
    match a
    case VariableA(_, p, f, ty) => f in outer && 1 <= p <= |outer[f]| && outer[f][p - 1] == ty
    case ApplyOpA(_, _, args, _) => WellNumberedAll(args, outer)
    case AbstractionA(body, n, types) => n !in outer && WellNumbered(body, outer[n := types])
    case ApplyAbsA(fn, args, _) => WellNumbered(fn, outer) && WellNumberedAll(args, outer)
    case WrapperA(_, _, body, _) => WellNumbered(body, outer)
    case ArgListA(args) => WellNumberedAll(args, outer)
    case _ => true
  }

  ghost predicate WellNumberedAll(as_: seq<Ann>, outer: map<nat, seq<Type>>) {
    as_ == [] || (WellNumbered(as_[0], outer) && WellNumberedAll(as_[1..], outer))
  }

  ghost predicate Covers(outer: map<nat, seq<Type>>, scope: VarTable) {
    forall x :: x in scope ==>
      var e := scope[x];
      e.funindex in outer && 1 <= e.position <= |outer[e.funindex]| && outer[e.funindex][e.position - 1] == e.ty
  }

  lemma EnterCovers(outer: map<nat, seq<Type>>, scope: VarTable, names: seq<string>, types: seq<Type>, n: nat, k: nat)
    requires |names| == |types| && Covers(outer, scope) && n in outer && 1 <= k
    requires k - 1 + |names| <= |outer[n]| && forall j :: 0 <= j < |types| ==> outer[n][k - 1 + j] == types[j]
    ensures Covers(outer, Enter(scope, names, types, n, k))
    decreases |names|
  {
    if names != [] {
      assert outer[n][k - 1 + 0] == types[0];
      forall j | 0 <= j < |types[1..]| ensures outer[n][k + 1 - 1 + j] == types[1..][j] {
        assert outer[n][k - 1 + (j + 1)] == types[j + 1];
      }
      EnterCovers(outer, scope[names[0] := VarEntry(k, n, types[0])], names[1..], types[1..], n, k + 1);
    }
  }

  lemma {:induction false} MatchesWellNumbered(a: Ann, c: Core, scope: VarTable, values: seq<Value>, lo: nat,
                                               outer: map<nat, seq<Type>>)
    requires Matches(a, c, scope, values) && Numbered(a, lo)
    requires Covers(outer, scope) && forall n :: n in outer ==> n <= lo
    ensures WellNumbered(a, outer)
    decreases a
  {
    match a
    case ApplyOpA(_, _, args, _) => MatchesWellNumberedAll(args, c.args, scope, values, lo, outer);
    case AbstractionA(body, n, types) =>
      var scope0: VarTable := if c.closed then map[] else scope;
      EnterCovers(outer[n := types], scope0, c.params, types, n, 1);
      MatchesWellNumbered(body, c.body, Enter(scope0, c.params, types, n, 1), values, lo + 1, outer[n := types]);
    case ApplyAbsA(fn, args, _) =>
      MatchesWellNumbered(fn, c.fn, scope, values, lo, outer);
      MatchesWellNumberedAll(args, c.args, scope, values, lo + Count(fn), outer);
    case WrapperA(_, _, body, _) => MatchesWellNumbered(body, c, scope, values, lo, outer);
    case ArgListA(args) => MatchesWellNumberedAll(args, c.args, scope, values, lo, outer);
    case _ =>
  }

  lemma {:induction false} MatchesWellNumberedAll(as_: seq<Ann>, cs: seq<Core>, scope: VarTable, values: seq<Value>,
                                                  lo: nat, outer: map<nat, seq<Type>>)
    requires MatchesAll(as_, cs, scope, values) && NumberedAll(as_, lo)
    requires Covers(outer, scope) && forall n :: n in outer ==> n <= lo
    ensures WellNumberedAll(as_, outer)
    decreases as_
  {
    if as_ != [] {
      MatchesWellNumbered(as_[0], cs[0], scope, values, lo, outer);
      MatchesWellNumberedAll(as_[1..], cs[1..], scope, values, lo + Count(as_[0]), outer);
    }
  }

  /**
   In a query that resolves every abstraction, inlined stored functions included, has a number of its
   own, together exactly 1..functionno, and every variable carries the number, a position and the type
   of a parameter of an abstraction around it: the one its name is bound to under lexical scoping.
   */
  lemma {:induction false} ScopingByNumbers(cat: Catalog, e: Expr, depth: nat)
    requires ValidCatalog(cat) && ScopedCatalog(cat) && WellScoped(cat, e, {}, {})
    requires Resolve(cat, e, map[], [], depth).Some?
    ensures var (a, s) := AnnotateX(cat, e, depth);
      && FunctionNumbers(a) == Counting(0, s.functionno) && WellNumbered(a, map[])
      && Matches(a, Resolve(cat, e, map[], [], depth).value.core, map[], s.values)
  {
    ResolutionAgrees(cat, e, depth);
    var none: VarTable := map[];
    var (a, s) := AnnotateX(cat, e, depth);
    NumberedCounts(a, 0);
    MatchesWellNumbered(a, Resolve(cat, e, map[], [], depth).value.core, none, s.values, 0, map[]);
  }
}
