/** What the pass makes of names that are used outside their scope or taken by objects. */
module NameCapture {
  import opened Wrappers
  import opened QuerySyntax
  import opened Annotation
  import opened Meaning
  import opened AnnotationCorrect
  import opened Acceptance
  import opened OperatorTree
  import opened EvaluationCorrect
  import opened Compilation

  /**
   Distinct names and scopes are needed: the pass never forgets a variable, so a symbol outside the
   abstraction that binds it is taken for the variable, where lexical scoping sees an identifier.
   */
  lemma StaleVariable(cat: Catalog, i: Type)
    requires ValidCatalog(cat) && cat.objects == map[] && cat.operators == map[] && cat.typeNames == {}
    requires !HasError(i) && ParamTypeOk(cat, i)
    ensures var f := Fun([Param("x", Given(i))], Sym("x"));
      var e := List([Const(0, i), f, Sym("x")]);
      && !WellScoped(cat, e, {}, {})
      && AnnotateX(cat, e, 0).0 ==
           ArgListA([ConstantA(0, i), AbstractionA(VariableA("x", 1, 1, i), 1, [i]), VariableA("x", 1, 1, i)])
      && Resolve(cat, e, map[], [], 0) ==
           Some(Resolved(Arguments([Constant(0), Function(["x"], Variable("x", i), false), Identifier("x")]),
                         Tuple([i, Map([i], i), Ident("x")])))
  {
    assert |"x"| == 1 && KeywordOf("x") == None;
    var ps := [Param("x", Given(i))];
    var f := Fun(ps, Sym("x"));
    var es := [Const(0, i), f, Sym("x")];
    assert es[1..] == [f, Sym("x")] && es[1..][1..] == [Sym("x")] && es[1..][1..][1..] == [];
    StaleParams(cat, i);
    StaleUnscoped(cat, i);
    StaleAnnotated(cat, i);
    StaleResolved(cat, i);
  }

  lemma StaleParams(cat: Catalog, i: Type)
    requires cat.operators == map[] && ParamTypeOk(cat, i)
    ensures var ps := [Param("x", Given(i))];
      Names(ps) == ["x"] && ParamTypes(cat, ps, []) == [i] && GoodParams(cat, ps, [i])
      && EnterParams(cat, map[], ps, [i], 1, 1) == (true, map["x" := VarEntry(1, 1, i)]) && NameSet(ps) == {"x"}
      && Enter(map[], ["x"], [i], 1, 1) == map["x" := VarEntry(1, 1, i)]
      && Open(map[], ["x"], [i]) == map["x" := i]
  {
    var ps := [Param("x", Given(i))];
    assert ps[1..] == [] && ["x"][1..] == [] && [i][1..] == [];
    assert ps[0] in ps;
  }

  lemma StaleUnscoped(cat: Catalog, i: Type)
    requires cat.objects == map[] && cat.operators == map[]
    ensures !WellScoped(cat, List([Const(0, i), Fun([Param("x", Given(i))], Sym("x")), Sym("x")]), {}, {})
  {
    var f := Fun([Param("x", Given(i))], Sym("x"));
    var es := [Const(0, i), f, Sym("x")];
    assert es[1..] == [f, Sym("x")] && es[1..][1..] == [Sym("x")];
    assert f.params[0] in f.params && "x" in Bound(f);
    assert !WellScoped(cat, Sym("x"), {}, {} + Bound(es[0]) + Bound(f));
    assert !WellScopedAll(cat, [Sym("x")], {}, {} + Bound(es[0]) + Bound(f));
    assert !WellScopedAll(cat, [f, Sym("x")], {}, {} + Bound(es[0]));
  }

  lemma StaleFunction(cat: Catalog, i: Type)
    requires ValidCatalog(cat) && cat.objects == map[] && cat.operators == map[] && cat.typeNames == {}
    requires ParamTypeOk(cat, i)
    ensures Annotate(cat, Fun([Param("x", Given(i))], Sym("x")), AState(map[], [0], 0, true, false), [], 0)
            == (AbstractionA(VariableA("x", 1, 1, i), 1, [i]),
                AState(map["x" := VarEntry(1, 1, i)], [0], 1, true, false))
  {
    StaleParams(cat, i);
    var s := AState(map["x" := VarEntry(1, 1, i)], [0], 1, true, false);
    assert |"x"| == 1 && KeywordOf("x") == None;
    assert Annotate(cat, Sym("x"), s, [], 0) == (VariableA("x", 1, 1, i), s);
  }

  lemma StaleAnnotated(cat: Catalog, i: Type)
    requires ValidCatalog(cat) && cat.objects == map[] && cat.operators == map[] && cat.typeNames == {}
    requires !HasError(i) && ParamTypeOk(cat, i)
    ensures AnnotateX(cat, List([Const(0, i), Fun([Param("x", Given(i))], Sym("x")), Sym("x")]), 0).0 ==
            ArgListA([ConstantA(0, i), AbstractionA(VariableA("x", 1, 1, i), 1, [i]), VariableA("x", 1, 1, i)])
  {
    var f := Fun([Param("x", Given(i))], Sym("x"));
    var es := [Const(0, i), f, Sym("x")];
    var s0 := AState(map[], [], 0, true, false);
    var s1 := s0.(values := [0]);
    var s2 := AState(map["x" := VarEntry(1, 1, i)], [0], 1, true, false);
    assert [] + [0] == [0];
    assert Annotate(cat, es[0], s0, [], 0) == (ConstantA(0, i), s1);
    var fa := AbstractionA(VariableA("x", 1, 1, i), 1, [i]);
    var va := VariableA("x", 1, 1, i);
    StaleFunction(cat, i);
    assert Annotate(cat, Sym("x"), s2, [], 0) == (VariableA("x", 1, 1, i), s2);
    var t1 := [Typed(TypeOf(fa), f)];
    assert [Sym("x")][1..] == [] && es[1..] == [f, Sym("x")] && [f, Sym("x")][1..] == [Sym("x")];
    assert AnnotateAll(cat, [], s2, false, [], t1 + [Typed(i, Sym("x"))], 0) == (Some([]), s2);
    assert [va] + [] == [va];
    assert AnnotateAll(cat, [Sym("x")], s2, false, [], t1, 0) == (Some([va]), s2);
    assert [] + t1 == t1;
    assert AnnotateAll(cat, es[1..], s1, false, [], [], 0) == (Some([fa] + [va]), s2);
    assert [fa] + [va] == [fa, va];
    assert [ConstantA(0, i)] + [fa, va] == [ConstantA(0, i), fa, va];
    assert Annotate(cat, List(es), s0, [], 0) == Apply(cat, es, ConstantA(0, i), [fa, va], s2);
  }

  lemma StaleResolved(cat: Catalog, i: Type)
    requires ValidCatalog(cat) && cat.objects == map[] && cat.operators == map[] && cat.typeNames == {}
    requires !HasError(i) && ParamTypeOk(cat, i)
    ensures Resolve(cat, List([Const(0, i), Fun([Param("x", Given(i))], Sym("x")), Sym("x")]), map[], [], 0) ==
            Some(Resolved(Arguments([Constant(0), Function(["x"], Variable("x", i), false), Identifier("x")]),
                          Tuple([i, Map([i], i), Ident("x")])))
  {
    StaleParams(cat, i);
    var f := Fun([Param("x", Given(i))], Sym("x"));
    var es := [Const(0, i), f, Sym("x")];
    var rf := Resolved(Function(["x"], Variable("x", i), false), Map([i], i));
    var rx := Resolved(Identifier("x"), Ident("x"));
    assert |"x"| == 1 && KeywordOf("x") == None;
    assert Resolve(cat, f, map[], [], 0) == Some(rf);
    assert Resolve(cat, Sym("x"), map[], [], 0) == Some(rx);
    var t1 := [Typed(rf.ty, f)];
    assert [Sym("x")][1..] == [] && es[1..] == [f, Sym("x")] && [f, Sym("x")][1..] == [Sym("x")];
    assert ResolveAll(cat, [], map[], false, [], t1 + [Typed(rx.ty, Sym("x"))], 0) == Some([]);
    assert [rx] + [] == [rx];
    assert ResolveAll(cat, [Sym("x")], map[], false, [], t1, 0) == Some([rx]);
    assert [] + t1 == t1;
    var tail := [f, Sym("x")];
    assert tail[0] == f && tail[1..] == [Sym("x")];
    assert ResolveAll(cat, tail, map[], false, [], [], 0) == Some([rf] + [rx]);
    assert es[1..] == tail;
    assert [rf] + [rx] == [rf, rx] && [rf, rx][1..] == [rx] && [rx][1..] == [];
    assert CoresIn([rx]) == [rx.core] && TypesIn([rx]) == [rx.ty];
    assert CoresIn([rf, rx]) == [rf.core, rx.core] && TypesIn([rf, rx]) == [rf.ty, rx.ty];
    assert es[0] == Const(0, i) && HeadOf(cat, es[0], map[]) == OtherHead;
    var rc := Resolved(Constant(0), i);
    assert [rc.core] + [rf.core, rx.core] == [rc.core, rf.core, rx.core];
    assert [rc.ty] + [rf.ty, rx.ty] == [rc.ty, rf.ty, rx.ty];
    assert Resolve(cat, es[0], map[], [], 0) == Some(rc);
    assert Resolve(cat, List(es), map[], [], 0) == ResolveList(cat, OtherHead, Some(rc), Some([rf, rx]), es);
  }

  // ------------------------------------------------------------------ names of objects

  /** ((fun (x i) x) w), the identity applied to a constant. */
  function Identity(x: string, i: Type, w: Value): Expr {
    List([Fun([Param(x, Given(i))], Sym(x)), Const(w, i)])
  }

  /**
   Bound names must not be names of objects: the pass looks for objects first, so that the identity with
   a parameter named like an object answers the object, where lexical scoping has the argument.
   */
  lemma {:induction false} CapturedName(cat: Catalog, x: string, v: Value, t: Type, i: Type, w: Value, depth: nat,
                                        limit: nat)
    requires ValidCatalog(cat) && RoleOf(cat, x) == ObjectRole(ValueObject(v, true, t)) && !HasError(t)
    requires x !in cat.operators && ParamTypeOk(cat, i)
    ensures var e := Identity(x, i, w); var r := Resolve(cat, e, map[], [], depth);
      && !WellScoped(cat, e, {}, {})
      && Answer(cat, e, depth, limit) == Answered(Some(Val(v)))
      && r == Some(Resolved(Application(Function([x], Variable(x, i), false), [Constant(w)]), i))
      && Sem(cat, r.value.core, map[], limit) == Some(w)
  {
    CapturedUnscoped(cat, x, i, w);
    CapturedAnnotated(cat, x, v, t, i, w, depth);
    CapturedTree(cat, x, v, t, i, w);
    CapturedAnswer(cat, v, w, limit);
    CapturedResolved(cat, x, i, w, depth);
    CapturedMeaning(cat, x, i, w, limit);
    hide Resolve, AnnotateX, Subtree, Eval, Sem, WellScoped, Fits;
  }

  lemma {:induction false} CapturedParams(cat: Catalog, x: string, i: Type)
    requires x !in cat.operators && ParamTypeOk(cat, i)
    ensures var ps := [Param(x, Given(i))];
      && Names(ps) == [x] && ParamTypes(cat, ps, []) == [i] && GoodParams(cat, ps, [i])
      && EnterParams(cat, map[], ps, [i], 1, 1) == (true, map[x := VarEntry(1, 1, i)])
      && Open(map[], [x], [i]) == map[x := i]
  {
    var ps := [Param(x, Given(i))];
    assert ps[1..] == [] && [x][1..] == [] && [i][1..] == [];
  }

  lemma {:induction false} CapturedUnscoped(cat: Catalog, x: string, i: Type, w: Value)
    requires x in cat.objects
    ensures !WellScoped(cat, Identity(x, i, w), {}, {})
  {
    var f := Fun([Param(x, Given(i))], Sym(x));
    assert f.params[0] in f.params && x in NameSet(f.params);
    assert !WellScoped(cat, f, {}, {});
    assert !WellScopedAll(cat, [f, Const(w, i)], {}, {});
  }

  /** The variable is annotated as the object. */
  function Captured(x: string, t: Type, i: Type): Ann {
    ApplyAbsA(AbstractionA(ObjectA(x, 0, t), 1, [i]), [ConstantA(1, i)], t)
  }

  lemma {:induction false} CapturedFunction(cat: Catalog, x: string, v: Value, t: Type, i: Type, depth: nat)
    requires ValidCatalog(cat) && RoleOf(cat, x) == ObjectRole(ValueObject(v, true, t))
    requires x !in cat.operators && ParamTypeOk(cat, i)
    ensures Annotate(cat, Fun([Param(x, Given(i))], Sym(x)), Start(), [], depth)
            == (AbstractionA(ObjectA(x, 0, t), 1, [i]), AState(map[x := VarEntry(1, 1, i)], [v], 1, true, false))
  {
    CapturedParams(cat, x, i);
    var table := map[x := VarEntry(1, 1, i)];
    assert [] + [v] == [v];
    assert Annotate(cat, Sym(x), AState(table, [], 1, true, false), [], depth)
        == (ObjectA(x, 0, t), AState(table, [v], 1, true, false));
  }

  lemma {:induction false} CapturedAnnotated(cat: Catalog, x: string, v: Value, t: Type, i: Type, w: Value, depth: nat)
    requires ValidCatalog(cat) && RoleOf(cat, x) == ObjectRole(ValueObject(v, true, t))
    requires x !in cat.operators && ParamTypeOk(cat, i)
    ensures AnnotateX(cat, Identity(x, i, w), depth)
            == (Captured(x, t, i), AState(map[x := VarEntry(1, 1, i)], [v, w], 1, true, false))
  {
    CapturedFunction(cat, x, v, t, i, depth);
    var f, c := Fun([Param(x, Given(i))], Sym(x)), Const(w, i);
    var es, table := [f, c], map[x := VarEntry(1, 1, i)];
    var s1, s2 := AState(table, [v], 1, true, false), AState(table, [v, w], 1, true, false);
    assert [v] + [w] == [v, w];
    var head := AbstractionA(ObjectA(x, 0, t), 1, [i]);
    assert !HasError(i);
    assert Annotate(cat, c, s1, [], depth) == (ConstantA(1, i), s2);
    assert es[1..] == [c] && [c][1..] == [] && [ConstantA(1, i)] + [] == [ConstantA(1, i)];
    assert AnnotateAll(cat, [], s2, false, [], [] + [Typed(i, c)], depth) == (Some([]), s2);
    assert AnnotateAll(cat, [c], s1, false, [], [], depth) == (Some([ConstantA(1, i)]), s2);
    assert [ConstantA(1, i)][1..] == [] && TypesOfAll([ConstantA(1, i)]) == [i];
    assert Annotate(cat, List(es), Start(), [], depth) == Apply(cat, es, head, [ConstantA(1, i)], s2);
  }

  /** The tree: the body of the abstraction is the object itself. */
  function CapturedNode(v: Value, w: Value): Node {
    var f := Node(1, false, false, true, 1, 1, 0, false, 0, Object(Val(v)));
    Leaf(0, true, Oper(0, 0, [f, Leaf(2, true, Object(Val(w)))]))
  }

  lemma {:induction false} CapturedTree(cat: Catalog, x: string, v: Value, t: Type, i: Type, w: Value)
    ensures Buildable(cat, Captured(x, t, i), 2)
    ensures Subtree(cat, Captured(x, t, i), [v, w], 0) == (CapturedNode(v, w), 3) && Fits(CapturedNode(v, w), 1, 3)
  {
    var a, values := Captured(x, t, i), [v, w];
    var arg := ConstantA(1, i);
    assert a.args[0] == arg && a.args[1..] == [] && Buildable(cat, arg, 2) && BuildableAll(cat, [], 2);
    assert BuildableAll(cat, a.args, 2) && Buildable(cat, a.fn, 2);
    var f := Node(1, false, false, true, 1, 1, 0, false, 0, Object(Val(v)));
    var son := Leaf(2, true, Object(Val(w)));
    assert Subtree(cat, a.fn.body, values, 1) == (Leaf(1, true, Object(Val(v))), 2);
    assert Subtree(cat, a.fn, values, 1) == (f, 2) && Subtree(cat, arg, values, 2) == (son, 3);
    assert SubtreeAll(cat, [], values, 3, false) == ([], 3);
    assert [son] + [] == [son] && SubtreeAll(cat, a.args, values, 2, false) == ([son], 3);
    assert [f] + [son] == [f, son];
    CapturedFits(v, w);
  }

  lemma {:induction false} CapturedFits(v: Value, w: Value)
    ensures Fits(CapturedNode(v, w), 1, 3)
  {
    var sons := CapturedNode(v, w).kind.sons;
    assert sons[1..][1..] == [] && Fits(sons[0], 1, 3) && Fits(sons[1..][0], 1, 3);
    assert FitsAll(sons[1..], 1, 3) && FitsAll(sons, 1, 3);
  }

  lemma {:induction false} CapturedAnswer(cat: Catalog, v: Value, w: Value, limit: nat)
    requires Fits(CapturedNode(v, w), 1, 3)
    ensures Eval(cat, CapturedNode(v, w), FreshStore(1, 3), limit).0 == Some(Val(v))
  {
    var n, st := CapturedNode(v, w), FreshStore(1, 3);
    var f, son := n.kind.sons[0], n.kind.sons[1];
    assert n.kind.sons[1..] == [son] && [son][1..] == [];
    var st1 := SetTmp(st, 0, 0, NodeRef(1));
    var st2 := SetTmp(st1, 0, 1, Val(w));
    assert Eval(cat, son, st1, limit) == (Some(Val(w)), st1);
    assert EvalSons(cat, 0, 2, [], st2, limit) == (true, st2);
    assert EvalSons(cat, 0, 1, [son], st1, limit) == (true, st2);
    assert EvalSons(cat, 0, 0, n.kind.sons, st, limit) == (true, st2);
    assert Eval(cat, f, Load(st2, 1, st2.tmp[0][1..2]), limit).0 == Some(Val(v));
  }

  lemma {:induction false} CapturedResolved(cat: Catalog, x: string, i: Type, w: Value, depth: nat)
    requires ValidCatalog(cat) && x !in cat.operators && ParamTypeOk(cat, i)
    ensures Resolve(cat, Identity(x, i, w), map[], [], depth)
            == Some(Resolved(Application(Function([x], Variable(x, i), false), [Constant(w)]), i))
  {
    CapturedParams(cat, x, i);
    var f, c := Fun([Param(x, Given(i))], Sym(x)), Const(w, i);
    var es, rc := [f, c], Resolved(Constant(w), i);
    var rf := Resolved(Function([x], Variable(x, i), false), Map([i], i));
    assert !HasError(i);
    assert Resolve(cat, Sym(x), map[x := i], [], depth) == Some(Resolved(Variable(x, i), i));
    assert Resolve(cat, f, map[], [], depth) == Some(rf);
    assert es[1..] == [c] && [c][1..] == [] && [rc] + [] == [rc];
    assert ResolveAll(cat, [], map[], false, [], [] + [Typed(i, c)], depth) == Some([]);
    assert ResolveAll(cat, [c], map[], false, [], [], depth) == Some([rc]);
    assert [rc][1..] == [] && TypesIn([rc]) == [i] && CoresIn([rc]) == [rc.core];
    assert Resolve(cat, List(es), map[], [], depth) == ResolveList(cat, FunctionHead, Some(rf), Some([rc]), es);
  }

  lemma {:induction false} CapturedMeaning(cat: Catalog, x: string, i: Type, w: Value, limit: nat)
    ensures Sem(cat, Application(Function([x], Variable(x, i), false), [Constant(w)]), map[], limit) == Some(w)
  {
    var c := Constant(w);
    assert [c][1..] == [] && [w] + [] == [w] && SemValues(cat, [c], map[], limit) == Some([w]);
    assert [x][1..] == [] && [w][1..] == [] && Bind(map[], [x], [w]) == map[x := w];
    assert Sem(cat, Variable(x, i), map[x := w], limit) == Some(w);
    assert Call(cat, Function([x], Variable(x, i), false), [w], map[], limit) == Some(w);
  }

  /** With a name of its own it answers its argument. */
  lemma {:induction false} UncapturedName(cat: Catalog, x: string, i: Type, w: Value, depth: nat, limit: nat)
    requires ValidCatalog(cat) && ScopedCatalog(cat) && x !in cat.objects && x !in cat.operators
    requires ParamTypeOk(cat, i) && !i.Stream? && !i.Map?
    ensures WellScoped(cat, Identity(x, i, w), {}, {})
    ensures Answer(cat, Identity(x, i, w), depth, limit) == Answered(Some(Val(w)))
  {
    UncapturedScoped(cat, x, i, w, depth);
    CapturedResolved(cat, x, i, w, depth);
    CapturedMeaning(cat, x, i, w, limit);
    UncapturedSupported(cat, x, i, w);
    hide *;
    CompilationPreservesMeaning(cat, Identity(x, i, w), depth, limit);
    ImageOfValue(w);
  }

  lemma ImageOfValue(w: Value)
    ensures Image(Some(w)) == Some(Val(w))
  {}

  lemma {:induction false} UncapturedScoped(cat: Catalog, x: string, i: Type, w: Value, depth: nat)
    requires x !in cat.objects && x !in cat.operators
    ensures WellScoped(cat, Identity(x, i, w), {}, {}) && AllDefined(cat, Identity(x, i, w), depth)
  {
    var f, c := Fun([Param(x, Given(i))], Sym(x)), Const(w, i);
    assert NameSet(f.params) == {x} by { assert f.params[0] in f.params; }
    assert WellScoped(cat, f, {}, {}) && WellScoped(cat, c, {}, {} + Bound(f));
    assert [f, c][1..] == [c] && [c][1..] == [];
    assert WellScopedAll(cat, [c], {}, {} + Bound(f)) && WellScopedAll(cat, [f, c], {}, {});
    assert AllDefined(cat, f, depth) && AllDefined(cat, c, depth);
    assert AllDefinedIn(cat, [c], depth) && AllDefinedIn(cat, [f, c], depth);
  }

  lemma {:induction false} UncapturedSupported(cat: Catalog, x: string, i: Type, w: Value)
    requires !i.Stream? && !i.Map?
    ensures Supported(cat, Application(Function([x], Variable(x, i), false), [Constant(w)]))
  {
    assert SupportedArg(cat, Function([x], Variable(x, i), false)) && Supported(cat, Constant(w));
  }
}
