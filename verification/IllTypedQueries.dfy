/**
 Queries with an error that pass the test of the root type, because an operator accepts anything as its
 argument. An ill-typed application is not built. An ill-typed constant, a counter with a number out of
 range, the symbol `typeerror` itself and an error hidden inside a type are.
 */
module IllTypedQueries {
  import opened Wrappers
  import opened QuerySyntax
  import opened Annotation
  import opened Meaning
  import opened AnnotationCorrect
  import opened Acceptance
  import opened OperatorTree
  import opened Building
  import opened EvaluationCorrect
  import opened Compilation

  /** The operator's last argument if it is a value, otherwise 0. */
  function LastArgument(view: seq<Option<Value>>): Value {
    if view != [] && view[|view| - 1].Some? then view[|view| - 1].value else 0
  }

  /**
   Three operators: f accepts anything and yields its last argument, g accepts nothing, h answers with an
   error inside a type.
   */
  function Lenient(): Catalog {
    var last: ValueMap := (view, _) => Done(LastArgument(view));
    var f := Operator(_ => Accepted(Basic("int")), false, _ => 0, [last], false, false);
    var g := Operator(_ => Rejected, false, _ => 0, [last], false, false);
    var h := Operator(_ => Accepted(Map([], TypeError)), false, _ => 0, [last], false, false);
    Catalog(map[], map[], {"int", "map"}, map["f" := [OpId(1, 0)], "g" := [OpId(1, 1)], "h" := [OpId(1, 2)]],
            map[OpId(1, 0) := f, OpId(1, 1) := g, OpId(1, 2) := h], ty => !HasError(ty))
  }

  lemma {:induction false} LenientValid()
    ensures ValidCatalog(Lenient()) && ScopedCatalog(Lenient())
    ensures RoleOf(Lenient(), "f") == OperatorRole([OpId(1, 0)]) && RoleOf(Lenient(), "g") == OperatorRole([OpId(1, 1)])
    ensures RoleOf(Lenient(), "h") == OperatorRole([OpId(1, 2)])
  {}

  lemma {:induction false} LenientAccepts(typed: seq<Typed>)
    ensures FirstAccepting(Lenient(), [OpId(1, 0)], typed) == Some(OpId(1, 0))
    ensures !Refuses(Lenient(), [OpId(1, 0)], typed)
  {
    assert TypeMapOf(Lenient(), OpId(1, 0), typed) == Accepted(Basic("int"));
  }

  /** The type mappings are not strict. */
  lemma {:induction false} LenientIsLenient()
    ensures !Strict(Lenient())
  {
    var typed := [Typed(TypeError, Sym("g"))];
    assert TypesOf(typed)[0] == TypeError && AnyError(TypesOf(typed));
    LenientValid();
    LenientAccepts(typed);
  }

  /** Operator f applied to anything. */
  function ApplyF(args: seq<Ann>): Ann {
    ApplyOpA(OpId(1, 0), 0, args, Basic("int"))
  }

  lemma {:induction false} LenientQuery(es: seq<Expr>, args: seq<Ann>, s: AState)
    requires ValidCatalog(Lenient())
    requires AnnotateAll(Lenient(), es, Start(), true, [], [], 0) == (Some(args), s) && |args| == |es|
    requires WellScopedAll(Lenient(), es, {}, {}) && !s.thrown && s.defined
    ensures var e := List([Sym("f")] + es);
      && WellScoped(Lenient(), e, {}, {}) && AnnotateX(Lenient(), e, 0) == (ApplyF(args), s)
      && Acceptable(ApplyF(args), s)
  {
    var typed := Pair(args, es);
    LenientValid();
    LenientAccepts(typed);
    assert TypeMapOf(Lenient(), OpId(1, 0), typed) == Accepted(Basic("int")) && args + [] == args;
    assert ApplyOperator(Lenient(), [OpId(1, 0)], args, typed, s) == (ApplyF(args), s);
    OperatorQuery(Lenient(), "f", es, 0);
    OperatorQueryScoped(Lenient(), "f", es);
  }

  /** The elements of a list of one. */
  lemma {:induction false} SingleArgument(e: Expr, a: Ann, s: AState)
    requires ValidCatalog(Lenient()) && Annotate(Lenient(), e, Start(), [], 0) == (a, s) && !a.ExprErrorA?
    requires WellScoped(Lenient(), e, {}, {})
    ensures AnnotateAll(Lenient(), [e], Start(), true, [], [], 0) == (Some([a]), s)
    ensures WellScopedAll(Lenient(), [e], {}, {})
  {
    assert [e][1..] == [] && [a] + [] == [a] && [] + [Typed(TypeOf(a), e)] == [Typed(TypeOf(a), e)];
    assert AnnotateAll(Lenient(), [], s, true, [], [Typed(TypeOf(a), e)], 0) == (Some([]), s);
    hide Lenient, Annotate;
  }

  /** An operand with an error is accepted below f. */
  lemma {:induction false} ErrorAccepted(operand: Expr, a: Ann, s: AState)
    requires ValidCatalog(Lenient()) && WellScoped(Lenient(), operand, {}, {})
    requires Annotate(Lenient(), operand, Start(), [], 0) == (a, s) && !a.ExprErrorA? && !s.thrown && s.defined
    requires !Clean(a)
    ensures var e := List([Sym("f"), operand]);
      && WellScoped(Lenient(), e, {}, {}) && AnnotateX(Lenient(), e, 0) == (ApplyF([a]), s)
      && Acceptable(ApplyF([a]), s) && !Clean(ApplyF([a])) && Resolve(Lenient(), e, map[], [], 0) == None
  {
    LenientValid();
    SingleArgument(operand, a, s);
    LenientQuery([operand], [a], s);
    assert [Sym("f")] + [operand] == [Sym("f"), operand];
    assert [a][0] == a && !CleanAll([a]) && !Clean(ApplyF([a]));
    hide *;
    ResolutionAgrees(Lenient(), List([Sym("f"), operand]), 0);
  }

  // ---------------------------------------------------------------- an ill-typed application

  lemma {:induction false} NoArgumentQuery(x: string, a: Ann)
    requires ValidCatalog(Lenient()) && RoleOf(Lenient(), x).OperatorRole?
    requires ApplyOperator(Lenient(), Lenient().operators[x], [], [], Start()) == (a, Start())
    ensures Annotate(Lenient(), List([Sym(x)]), Start(), [], 0) == (a, Start())
    ensures WellScoped(Lenient(), List([Sym(x)]), {}, {})
  {
    assert [Sym(x)] + [] == [Sym(x)];
    OperatorQuery(Lenient(), x, [], 0);
    OperatorQueryScoped(Lenient(), x, []);
  }

  lemma {:induction false} RefusedAnnotated()
    requires ValidCatalog(Lenient()) && RoleOf(Lenient(), "g") == OperatorRole([OpId(1, 1)])
    ensures var a := ApplyOpA(OpId(1, 0), 0, [], TypeError);
      Annotate(Lenient(), List([Sym("g")]), Start(), [], 0) == (a, Start()) && !Clean(a)
    ensures WellScoped(Lenient(), List([Sym("g")]), {}, {})
  {
    assert TypeMapOf(Lenient(), OpId(1, 1), []) == Rejected;
    NoArgumentQuery("g", ApplyOpA(OpId(1, 0), 0, [], TypeError));
  }

  /** The query (f (g)) is accepted, although (g) is a type error and nothing is resolved. */
  lemma {:induction false} NestedErrorAccepted()
    ensures ValidCatalog(Lenient()) && ScopedCatalog(Lenient()) && !Strict(Lenient())
    ensures var e := List([Sym("f"), List([Sym("g")])]); var (a, s) := AnnotateX(Lenient(), e, 0);
      && WellScoped(Lenient(), e, {}, {})
      && a == ApplyF([ApplyOpA(OpId(1, 0), 0, [], TypeError)]) && s == Start()
      && Acceptable(a, s) && !Clean(a)
      && Resolve(Lenient(), e, map[], [], 0) == None
  {
    LenientValid();
    LenientIsLenient();
    RefusedAnnotated();
    hide *;
    ErrorAccepted(List([Sym("g")]), ApplyOpA(OpId(1, 0), 0, [], TypeError), Start());
    assert !Start().thrown && Start().defined;
  }

  /** But it is not built: no type constructor makes a result object for (g), and the process ends. */
  lemma {:induction false} NestedErrorNotBuilt(limit: nat)
    ensures ValidCatalog(Lenient())
    ensures Answer(Lenient(), List([Sym("f"), List([Sym("g")])]), 0, limit) == NotBuilt
  {
    NestedErrorAccepted();
    var operand := ApplyOpA(OpId(1, 0), 0, [], TypeError);
    LenientUnbuilt(operand);
    hide Lenient, AnnotateX, Resolve, WellScoped;
  }

  lemma {:induction false} LenientUnbuilt(operand: Ann)
    requires operand == ApplyOpA(OpId(1, 0), 0, [], TypeError)
    ensures !Buildable(Lenient(), ApplyF([operand]), 0)
  {
    assert [operand][0] == operand && !Buildable(Lenient(), operand, 0);
  }

  // ---------------------------------------------------------------- errors that are built

  /** The query passes both tests of `Construct` and is built, although it does not resolve. */
  ghost predicate BuiltUnresolved(cat: Catalog, e: Expr)
    requires ValidCatalog(cat)
  {
    var (a, s) := AnnotateX(cat, e, 0);
    && WellScoped(cat, e, {}, {}) && Acceptable(a, s) && Buildable(cat, a, |s.values|)
    && Resolve(cat, e, map[], [], 0) == None
  }

  lemma {:induction false} TwoConstants(v: Value, w: Value)
    requires ValidCatalog(Lenient())
    ensures var es := [Const(v, Basic("int")), Const(w, TypeError)];
      && AnnotateAll(Lenient(), es, Start(), true, [], [], 0)
         == (Some([ConstantA(0, Basic("int")), ConstantA(0, TypeError)]), Start().(values := [v]))
      && WellScopedAll(Lenient(), es, {}, {})
  {
    hide Lenient;
    var i := Basic("int");
    var es := [Const(v, i), Const(w, TypeError)];
    var a, b, s := ConstantA(0, i), ConstantA(0, TypeError), Start().(values := [v]);
    var t1 := [Typed(i, es[0])];
    assert [] + [v] == [v] && es[1..] == [es[1]] && [es[1]][1..] == [] && [] + t1 == t1;
    assert Annotate(Lenient(), es[0], Start(), [], 0) == (a, s);
    assert Annotate(Lenient(), es[1], s, t1, 0) == (b, s);
    assert AnnotateAll(Lenient(), [], s, true, [], t1 + [Typed(TypeError, es[1])], 0) == (Some([]), s);
    assert [b] + [] == [b] && AnnotateAll(Lenient(), [es[1]], s, true, [], t1, 0) == (Some([b]), s);
    assert [a] + [b] == [a, b];
    assert {} + Bound(es[0]) == {} && WellScoped(Lenient(), es[0], {}, {}) && WellScoped(Lenient(), es[1], {}, {});
    assert WellScopedAll(Lenient(), [es[1]], {}, {});
  }

  /**
   The query (f v w) with a constant w that its type does not allow is accepted, and answered: an ill-typed
   constant is annotated with index 0 and stands for the first constant of the query.
   */
  lemma {:induction false} IllTypedConstantAnswered(v: Value, w: Value, limit: nat)
    ensures ValidCatalog(Lenient())
    ensures var e := List([Sym("f"), Const(v, Basic("int")), Const(w, TypeError)]);
      BuiltUnresolved(Lenient(), e) && Answer(Lenient(), e, 0, limit) == Answered(Some(Val(v)))
  {
    var es := [Const(v, Basic("int")), Const(w, TypeError)];
    var args, s := [ConstantA(0, Basic("int")), ConstantA(0, TypeError)], Start().(values := [v]);
    LenientValid();
    TwoConstants(v, w);
    LenientQuery(es, args, s);
    assert [Sym("f")] + es == [Sym("f"), es[0], es[1]];
    TwoConstantsTree(v);
    TwoConstantsValue(v, limit);
    TwoConstantsUnclean();
    hide Lenient, Resolve, AnnotateX, Subtree, Eval, WellScoped, Fits, Clean, ApplyF, Buildable;
    ResolutionAgrees(Lenient(), List([Sym("f")] + es), 0);
  }

  lemma {:induction false} TwoConstantsUnclean()
    ensures !Clean(ApplyF([ConstantA(0, Basic("int")), ConstantA(0, TypeError)]))
  {
    var args := [ConstantA(0, Basic("int")), ConstantA(0, TypeError)];
    assert args[1..][0] == args[1] && !CleanAll(args[1..]);
  }

  /** An operator's node over two leaves that hold the same value. */
  function TwoConstantsNode(v: Value): Node {
    Leaf(0, true, Oper(1, 0, [Leaf(1, true, Object(Val(v))), Leaf(2, true, Object(Val(v)))]))
  }

  lemma {:induction false} TwoConstantsTree(v: Value)
    ensures var a := ApplyF([ConstantA(0, Basic("int")), ConstantA(0, TypeError)]);
      Buildable(Lenient(), a, 1) && Subtree(Lenient(), a, [v], 0) == (TwoConstantsNode(v), 3)
    ensures Fits(TwoConstantsNode(v), 0, 3)
  {
    var cat, a, b := Lenient(), ConstantA(0, Basic("int")), ConstantA(0, TypeError);
    assert OpId(1, 0) != OpId(1, 1) && OpId(1, 0) != OpId(1, 2) && OpId(1, 0) in cat.algebra;
    assert !UsesMemory(cat, OpId(1, 0)) && !Lazy(cat, OpId(1, 0));
    hide Lenient;
    var m, n := Leaf(1, true, Object(Val(v))), Leaf(2, true, Object(Val(v)));
    assert [a, b][0] == a && [a, b][1..] == [b] && [b][0] == b && [b][1..] == [] && BuildableAll(cat, [], 1);
    var both := [a, b];
    assert both[1..] == [b] && Buildable(cat, both[0], 1) && BuildableAll(cat, [b], 1) && BuildableAll(cat, both, 1);
    assert SubtreeAll(cat, [], [v], 3, false) == ([], 3);
    assert [n] + [] == [n] && SubtreeAll(cat, [b], [v], 2, false) == ([n], 3);
    assert [m] + [n] == [m, n] && SubtreeAll(cat, [a, b], [v], 1, false) == ([m, n], 3);
    assert [m, n][1..] == [n] && [n][1..] == [];
    assert Fits(m, 0, 3) && Fits(n, 0, 3) && FitsAll([n], 0, 3) && FitsAll([m, n], 0, 3);
  }

  lemma {:induction false} TwoConstantsValue(v: Value, limit: nat)
    requires Fits(TwoConstantsNode(v), 0, 3)
    ensures Eval(Lenient(), TwoConstantsNode(v), FreshStore(0, 3), limit).0 == Some(Val(v))
  {
    var cat, st := Lenient(), FreshStore(0, 3);
    var m, n := Leaf(1, true, Object(Val(v))), Leaf(2, true, Object(Val(v)));
    var vm: ValueMap := cat.algebra[OpId(1, 0)].valueMaps[0];
    assert ValueMapOf(cat, 1, 0) == Some(vm);
    assert vm([Some(v), Some(v)], []) == Done(v);
    hide Lenient;
    assert TwoConstantsNode(v).kind.sons == [m, n] && FitsAll([m, n], 0, 3) && FitsAll([m, n][1..], 0, 3);
    var st1 := SetTmp(st, 0, 0, Val(v));
    var st2 := SetTmp(st1, 0, 1, Val(v));
    assert [m, n][1..] == [n] && [n][1..] == [];
    assert Eval(cat, m, st, limit) == (Some(Val(v)), st) && Eval(cat, n, st1, limit) == (Some(Val(v)), st1);
    assert EvalSons(cat, 0, 2, [], st2, limit) == (true, st2);
    assert EvalSons(cat, 0, 1, [n], st1, limit) == (true, st2);
    assert EvalSons(cat, 0, 0, [m, n], st, limit) == (true, st2);
    assert View(st2.tmp[0][..2]) == [Some(v), Some(v)];
    assert RunOp(cat, 0, vm, [m, n], [], st2, limit, limit) == (Some(Val(v)), st2);
  }

  lemma {:induction false} CounterElements(number: Value, v: Value)
    requires ValidCatalog(Lenient())
    ensures var i := Basic("int"); var es := [Const(number, i), Const(v, i)];
      && AnnotateAll(Lenient(), es, Start(), false, [], [], 0)
         == (Some([ConstantA(0, i), ConstantA(1, i)]), Start().(values := [number, v]))
      && WellScopedAll(Lenient(), es, {}, {})
  {
    hide Lenient;
    var i := Basic("int");
    var es, s1, s2 := [Const(number, i), Const(v, i)], Start().(values := [number]), Start().(values := [number, v]);
    var t1, a, b := [Typed(i, es[0])], ConstantA(0, i), ConstantA(1, i);
    assert es[1..] == [es[1]] && [es[1]][1..] == [] && [] + t1 == t1;
    assert [] + [number] == [number] && [number] + [v] == [number, v];
    assert Annotate(Lenient(), es[0], Start(), [], 0) == (a, s1) && Annotate(Lenient(), es[1], s1, [], 0) == (b, s2);
    assert AnnotateAll(Lenient(), [], s2, false, [], t1 + [Typed(i, es[1])], 0) == (Some([]), s2);
    assert [b] + [] == [b] && AnnotateAll(Lenient(), [es[1]], s1, false, [], t1, 0) == (Some([b]), s2);
    assert [a] + [b] == [a, b];
    assert {} + Bound(es[0]) == {} && WellScoped(Lenient(), es[0], {}, {}) && WellScoped(Lenient(), es[1], {}, {});
    assert WellScopedAll(Lenient(), [es[1]], {}, {});
  }

  lemma {:induction false} CounterAnnotated(number: Value, v: Value)
    requires ValidCatalog(Lenient()) && !(0 < number <= NO_COUNTERS)
    ensures var e := List([Sym("counter"), Const(number, Basic("int")), Const(v, Basic("int"))]);
      && Annotate(Lenient(), e, Start(), [], 0)
         == (WrapperA(Counter, number, ConstantA(1, Basic("int")), TypeError), Start().(values := [number, v]))
      && WellScoped(Lenient(), e, {}, {})
  {
    var i := Basic("int");
    var es, s := [Const(number, i), Const(v, i)], Start().(values := [number, v]);
    var all, args := [Sym("counter")] + es, [ConstantA(0, i), ConstantA(1, i)];
    assert all == [Sym("counter"), es[0], es[1]] && all[1..] == es;
    assert |"counter"| == 7 && |"f"| == 1 && |"g"| == 1 && |"h"| == 1 && RoleOf(Lenient(), "counter").OtherRole?;
    assert KeywordOf("counter") == Some(Counter);
    CounterElements(number, v);
    hide Lenient, AnnotateAll;
    assert Annotate(Lenient(), all[0], Start(), [], 0) == (KeywordA(Counter), Start());
    assert {} + Bound(all[0]) == {} && WellScopedAll(Lenient(), all, {}, {});
    assert Annotate(Lenient(), List(all), Start(), [], 0) == Apply(Lenient(), all, KeywordA(Counter), args, s);
  }

  /** A counter whose number is out of range is a type error, but it is built as its operand. */
  lemma {:induction false} CounterOutOfRangeBuilt(number: Value, v: Value)
    requires !(0 < number <= NO_COUNTERS)
    ensures ValidCatalog(Lenient())
    ensures BuiltUnresolved(Lenient(),
      List([Sym("f"), List([Sym("counter"), Const(number, Basic("int")), Const(v, Basic("int"))])]))
  {
    var operand := List([Sym("counter"), Const(number, Basic("int")), Const(v, Basic("int"))]);
    LenientValid();
    CounterAnnotated(number, v);
    ErrorBuilt(operand, WrapperA(Counter, number, ConstantA(1, Basic("int")), TypeError),
               Start().(values := [number, v]));
  }

  /** An operand with an error that can be built is built below f. */
  lemma {:induction false} ErrorBuilt(operand: Expr, a: Ann, s: AState)
    requires ValidCatalog(Lenient()) && WellScoped(Lenient(), operand, {}, {})
    requires Annotate(Lenient(), operand, Start(), [], 0) == (a, s) && !a.ExprErrorA? && !s.thrown && s.defined
    requires Buildable(Lenient(), a, |s.values|) && !Clean(a)
    ensures BuiltUnresolved(Lenient(), List([Sym("f"), operand]))
  {
    ErrorAccepted(operand, a, s);
    assert [a][0] == a && [a][1..] == [] && BuildableAll(Lenient(), [a], |s.values|);
    assert Buildable(Lenient(), ApplyF([a]), |s.values|);
    hide Lenient, Resolve, AnnotateX, Annotate, WellScoped;
  }

  /** The symbol `typeerror` is built as an identifier. */
  lemma {:induction false} ErrorSymbolBuilt()
    ensures ValidCatalog(Lenient())
    ensures BuiltUnresolved(Lenient(), List([Sym("f"), Sym("typeerror")]))
  {
    LenientValid();
    assert |"typeerror"| == 9 && |"f"| == 1 && |"g"| == 1 && |"h"| == 1;
    assert RoleOf(Lenient(), "typeerror").OtherRole? && KeywordOf("typeerror") == None;
    assert Annotate(Lenient(), Sym("typeerror"), Start(), [], 0) == (IdentifierA("typeerror"), Start());
    ErrorBuilt(Sym("typeerror"), IdentifierA("typeerror"), Start());
  }

  /** The application of h: its type is an error inside another type. */
  function ApplyH(): Ann {
    ApplyOpA(OpId(1, 2), 2, [], Map([], TypeError))
  }

  lemma {:induction false} HiddenAnnotated()
    requires ValidCatalog(Lenient()) && RoleOf(Lenient(), "h") == OperatorRole([OpId(1, 2)])
    ensures Annotate(Lenient(), List([Sym("h")]), Start(), [], 0) == (ApplyH(), Start())
    ensures WellScoped(Lenient(), List([Sym("h")]), {}, {})
    ensures Buildable(Lenient(), ApplyH(), 0) && !Clean(ApplyH())
  {
    var none: seq<Ann> := [];
    assert TypeMapOf(Lenient(), OpId(1, 2), []) == Accepted(Map([], TypeError));
    assert FirstAccepting(Lenient(), [OpId(1, 2)], []) == Some(OpId(1, 2)) && Combine(0, 2) == 2;
    assert none + none == none && Lenient().operators["h"] == [OpId(1, 2)];
    assert ApplyOperator(Lenient(), [OpId(1, 2)], [], [], Start()) == (ApplyH(), Start());
    NoArgumentQuery("h", ApplyH());
  }

  /** Only the outermost symbol of a result type is looked up: a type with an error inside is built. */
  lemma {:induction false} HiddenErrorBuilt()
    ensures ValidCatalog(Lenient()) && Plain(Lenient(), List([Sym("f"), List([Sym("h")])]), {}, 0)
    ensures BuiltUnresolved(Lenient(), List([Sym("f"), List([Sym("h")])]))
  {
    LenientValid();
    HiddenAnnotated();
    HiddenPlain();
    hide *;
    ErrorBuilt(List([Sym("h")]), ApplyH(), Start());
    assert |Start().values| == 0;
  }

  lemma {:induction false} HiddenPlain()
    requires RoleOf(Lenient(), "h").OperatorRole? && RoleOf(Lenient(), "f").OperatorRole?
    ensures Plain(Lenient(), List([Sym("f"), List([Sym("h")])]), {}, 0)
  {
    var operand := List([Sym("h")]);
    var all := [Sym("f"), operand];
    hide Lenient;
    assert |"f"| == 1 && |"counter"| == 7 && all[0] != Sym("counter");
    assert all[1..] == [operand] && [operand][1..] == [] && [Sym("h")][1..] == [];
    assert Plain(Lenient(), operand, {}, 0) && PlainAll(Lenient(), [operand], {}, 0);
  }
}
