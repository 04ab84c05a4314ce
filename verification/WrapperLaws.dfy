/**
 Counters, predicate information and memory sizes, from the text of a query to the tree and the distribution
 of memory, and what of a tree can be evaluated by itself.
 */
module WrapperLaws {
  import opened Wrappers
  import opened QuerySyntax
  import opened Annotation
  import opened Meaning
  import opened AnnotationCorrect
  import opened Acceptance
  import opened OperatorTree
  import opened Building
  import opened EvaluationCorrect
  import opened Compilation
  import opened OperatorLaws
  import opened QueryMemory

  // ---------------------------------------------------------------- what is written

  /** The pass over a pseudo operator's last element, after `n` constants have been entered. */
  function Operand(cat: Catalog, e: Expr, constants: seq<Value>, depth: nat): (Ann, AState)
    requires ValidCatalog(cat)
  {
    Annotate(cat, e, Start().(values := constants), [], depth)
  }

  /** (memory 64 e): the size is kept with the operand, whose type it has. */
  lemma {:induction false} MemoryAnnotated(cat: Catalog, number: Value, e: Expr, depth: nat)
    requires ValidCatalog(cat) && "memory" !in cat.objects && "memory" !in cat.operators
    ensures var (a, s) := Operand(cat, e, [number], depth);
      !a.ExprErrorA? ==>
        AnnotateX(cat, List([Sym("memory"), Const(number, Basic("int")), e]), depth)
        == (WrapperA(Memory, number, a, TypeOf(a)), s)
  {
    assert |"memory"| == 6 && |"counter"| == 7 && |"predinfo"| == 8 && KeywordOf("memory") == Some(Memory);
    TwoElements(cat, "memory", Memory, number, e, depth);
  }

  /** (counter 3 e): likewise, and a type error unless the number is one of 1 to 16. */
  lemma {:induction false} CounterAnnotated(cat: Catalog, number: Value, e: Expr, depth: nat)
    requires ValidCatalog(cat) && "counter" !in cat.objects && "counter" !in cat.operators
    ensures var (a, s) := Operand(cat, e, [number], depth);
      !a.ExprErrorA? ==>
        AnnotateX(cat, List([Sym("counter"), Const(number, Basic("int")), e]), depth)
        == (WrapperA(Counter, number, a, if 1 <= number <= 16 then TypeOf(a) else TypeError), s)
  {
    assert |"memory"| == 6 && |"counter"| == 7 && |"predinfo"| == 8 && KeywordOf("counter") == Some(Counter);
    TwoElements(cat, "counter", Counter, number, e, depth);
  }

  lemma {:induction false} TwoElements(cat: Catalog, x: string, k: Keyword, number: Value, e: Expr, depth: nat)
    requires ValidCatalog(cat) && x !in cat.objects && x !in cat.operators && KeywordOf(x) == Some(k)
    ensures var (a, s) := Operand(cat, e, [number], depth);
      var es := [Sym(x), Const(number, Basic("int")), e];
      !a.ExprErrorA? ==>
        AnnotateX(cat, List(es), depth) == Apply(cat, es, KeywordA(k), [ConstantA(0, Basic("int")), a], s)
  {
    var i, c := Basic("int"), Const(number, Basic("int"));
    var es, rest, s1 := [Sym(x), c, e], [c, e], Start().(values := [number]);
    var (a, s) := Operand(cat, e, [number], depth);
    assert [] + [number] == [number];
    assert Annotate(cat, Sym(x), Start(), [], depth) == (KeywordA(k), Start());
    assert Annotate(cat, c, Start(), [], depth) == (ConstantA(0, i), s1);
    assert es[1..] == rest && rest[1..] == [e] && [e][1..] == [] && [] + [Typed(i, c)] == [Typed(i, c)];
    hide Annotate, ValidCatalog;
    if !a.ExprErrorA? {
      LastElement(cat, e, s1, [Typed(i, c)], depth);
      assert [ConstantA(0, i)] + [a] == [ConstantA(0, i), a];
      assert AnnotateAll(cat, rest, Start(), false, [], [], depth) == (Some([ConstantA(0, i), a]), s);
      ListAnnotated(cat, es, KeywordA(k), Start(), [ConstantA(0, i), a], s, depth);
    }
  }

  lemma {:induction false} LastElement(cat: Catalog, e: Expr, s: AState, sofar: seq<Typed>, depth: nat)
    requires ValidCatalog(cat)
    ensures var (a, s') := Annotate(cat, e, s, [], depth);
      !a.ExprErrorA? ==> AnnotateAll(cat, [e], s, false, [], sofar, depth) == (Some([a]), s')
  {
    var (a, s') := Annotate(cat, e, s, [], depth);
    hide Annotate, ValidCatalog;
    assert [e][1..] == [] && [a] + [] == [a];
    assert AnnotateAll(cat, [], s', false, [], sofar + [Typed(TypeOf(a), e)], depth) == (Some([]), s');
  }

  lemma {:induction false} ListAnnotated(cat: Catalog, es: seq<Expr>, head: Ann, s1: AState, args: seq<Ann>, s: AState,
                                         depth: nat)
    requires ValidCatalog(cat) && |es| == |args| + 1 && !head.ExprErrorA? && !head.OperatorA?
    requires Annotate(cat, es[0], Start(), [], depth) == (head, s1)
    requires AnnotateAll(cat, es[1..], s1, false, [], [], depth) == (Some(args), s)
    ensures AnnotateX(cat, List(es), depth) == Apply(cat, es, head, args, s)
  {
    hide ValidCatalog, AnnotateAll, Apply;
  }

  /** (predinfo 0.1 0.2 e): nothing but the operand is left in the tree. */
  lemma {:induction false} PredInfoAnnotated(cat: Catalog, selectivity: Value, cost: Value, e: Expr, depth: nat)
    requires ValidCatalog(cat) && "predinfo" !in cat.objects && "predinfo" !in cat.operators
    ensures var (a, s) := Operand(cat, e, [selectivity, cost], depth);
      !a.ExprErrorA? ==>
        AnnotateX(cat, List([Sym("predinfo"), Const(selectivity, Basic("real")), Const(cost, Basic("real")), e]), depth)
        == (WrapperA(PredInfo, selectivity, a, TypeOf(a)), s)
  {
    var r, c, d := Basic("real"), Const(selectivity, Basic("real")), Const(cost, Basic("real"));
    var es, s1 := [Sym("predinfo"), c, d, e], Start().(values := [selectivity]);
    var s2 := Start().(values := [selectivity, cost]);
    var (a, s) := Operand(cat, e, [selectivity, cost], depth);
    assert |"memory"| == 6 && |"counter"| == 7 && |"predinfo"| == 8 && KeywordOf("predinfo") == Some(PredInfo);
    assert [] + [selectivity] == [selectivity] && [selectivity] + [cost] == [selectivity, cost];
    assert Annotate(cat, es[0], Start(), [], depth) == (KeywordA(PredInfo), Start());
    var x, y := ConstantA(0, r), ConstantA(1, r);
    assert Annotate(cat, c, Start(), [], depth) == (x, s1) && Annotate(cat, d, s1, [], depth) == (y, s2);
    assert es[1..] == [c, d, e] && [c, d, e][1..] == [d, e] && [d, e][1..] == [e];
    hide Annotate, ValidCatalog;
    if !a.ExprErrorA? {
      var t1 := [] + [Typed(r, c)];
      LastElement(cat, e, s2, t1 + [Typed(r, d)], depth);
      assert [y] + [a] == [y, a] && [x] + [y, a] == [x, y, a];
      assert AnnotateAll(cat, [d, e], s1, false, [], t1, depth) == (Some([y, a]), s);
      assert AnnotateAll(cat, [c, d, e], Start(), false, [], [], depth) == (Some([x, y, a]), s);
      ListAnnotated(cat, es, KeywordA(PredInfo), Start(), [x, y, a], s, depth);
      hide AnnotateAll;
    }
  }

  // ---------------------------------------------------------------- what is built

  /** An application of a registered operator. */
  predicate IsApplication(cat: Catalog, a: Ann, id: OpId, n: nat) {
    && a.ApplyOpA? && id in cat.algebra && a.id == id && id.op < OP_LIMIT && 0 <= a.opFunId
    && a.opFunId % 65536 == id.op && Buildable(cat, a, n)
  }

  /** So is what the pass makes of a registered operator whose arguments are taken. */
  lemma {:induction false} ApplicationAnnotated(cat: Catalog, x: string, i: nat, args: seq<Ann>, typed: seq<Typed>,
                                                s: AState, n: nat)
    requires ValidCatalog(cat) && x in cat.operators && FirstToTake(cat, cat.operators[x], i, typed)
    requires cat.algebra[cat.operators[x][i]].select(TypesOf(typed)) >= 0
    requires Buildable(cat, ApplyOperator(cat, cat.operators[x], args, typed, s).0, n)
    ensures IsApplication(cat, ApplyOperator(cat, cat.operators[x], args, typed, s).0, cat.operators[x][i], n)
  {
    FirstTaken(cat, cat.operators[x], i, typed);
    var id := cat.operators[x][i];
    NumberSplits(cat.algebra[id].select(TypesOf(typed)), id.op);
    hide Buildable, FirstAccepting, TypeMapOf, AppendConstants;
  }

  lemma NumberSplits(fun: nat, op: nat)
    requires op < 65536
    ensures Combine(fun, op) == fun * 65536 + op && Combine(fun, op) % 65536 == op
  {}

  /** Its node: no counter, no memory size, and the operator's own need of memory. */
  lemma {:induction false} ApplicationNode(cat: Catalog, a: Ann, id: OpId, values: seq<Value>, next: nat)
    requires IsApplication(cat, a, id, |values|)
    ensures var n := Subtree(cat, a, values, next).0;
      n.kind.Oper? && n.usesMemory == cat.algebra[id].usesMemory && n.memorySize == 0 && n.counterNo == 0
  {
    assert OpId(a.id.alg, a.opFunId % OP_LIMIT) == id;
    hide SubtreeAll, Buildable;
  }

  /** A size given by hand, in an unsigned word of 64 bits, is kept exactly by operators that use memory. */
  lemma {:induction false} MemoryBuilt(cat: Catalog, a: Ann, id: OpId, number: Value, ty: Type, values: seq<Value>,
                                       next: nat)
    requires IsApplication(cat, a, id, |values|)
    ensures Subtree(cat, WrapperA(Memory, number, a, ty), values, next).0
            == Subtree(cat, a, values, next).0.(
                 memorySize := if cat.algebra[id].usesMemory then number % 0x1_0000_0000_0000_0000 else 0)
  {
    ApplicationNode(cat, a, id, values, next);
    hide SubtreeAll, IsApplication;
  }

  /** A counter's number is kept, predicate information is not; around a leaf neither changes anything. */
  lemma {:induction false} CounterBuilt(cat: Catalog, a: Ann, number: Value, ty: Type, values: seq<Value>, next: nat)
    requires Buildable(cat, a, |values|)
    ensures var n := Subtree(cat, a, values, next).0;
      && Subtree(cat, WrapperA(Counter, number, a, ty), values, next).0
         == (if n.kind.Oper? then n.(counterNo := number) else n)
      && Subtree(cat, WrapperA(PredInfo, number, a, ty), values, next).0 == n
  {
    hide Buildable, SubtreeAll;
  }

  // ---------------------------------------------------------------- what it is given

  /** Operators with an explicit size keep it, whatever the others take. */
  lemma {:induction false} ExplicitSizeKept(cat: Catalog, a: Ann, id: OpId, number: Value, ty: Type,
                                            values: seq<Value>, global: nat)
    requires IsApplication(cat, a, id, |values|) && cat.algebra[id].usesMemory
    requires number % 0x1_0000_0000_0000_0000 != 0
    ensures AssignMemory(Subtree(cat, WrapperA(Memory, number, a, ty), values, 0).0, global).memorySize
            == number % 0x1_0000_0000_0000_0000
  {
    ApplicationNode(cat, a, id, values, 0);
    MemoryBuilt(cat, a, id, number, ty, values, 0);
    RootKeeps(Subtree(cat, WrapperA(Memory, number, a, ty), values, 0).0, global);
  }

  lemma {:induction false} RootKeeps(n: Node, global: nat)
    requires n.kind.Oper? && n.memorySize > 0
    ensures AssignMemory(n, global).memorySize == n.memorySize
  {
    hide DistributeIn, CountMemory, Share;
  }

  /**
   An operator without one gets its share: what the explicit sizes, summed in 64 bits, leave of the global
   memory, divided by the number of operators without a size, and 16 at least.
   */
  lemma {:induction false} ShareGiven(cat: Catalog, a: Ann, id: OpId, values: seq<Value>, global: nat)
    requires IsApplication(cat, a, id, |values|)
    ensures var n := Subtree(cat, a, values, 0).0;
      var spent, ops := Sum(Sizes(n)) % 0x1_0000_0000_0000_0000, Unassigned(Sizes(n));
      var each := if ops > 0 && global > spent then (global - spent) / ops else 0;
      AssignMemory(n, global).memorySize
      == if !cat.algebra[id].usesMemory then 0 else if each >= 16 then each else 16
  {
    ApplicationNode(cat, a, id, values, 0);
    var n := Subtree(cat, a, values, 0).0;
    assert SizeWord(0) == 0;
    CountsSizes(n, 0);
    RootCounts(n);
    hide CountMemory, DistributeIn, Sizes, Sum, Unassigned, IsApplication, Subtree;
  }

  /** The root is one of the operators without a size. */
  lemma {:induction false} RootCounts(n: Node)
    requires n.kind.Oper? && n.memorySize == 0
    ensures n.usesMemory ==> Unassigned(Sizes(n)) > 0
  {}

  // ---------------------------------------------------------------- what is evaluable by itself

  /** An application is evaluable by itself unless it yields a stream; functions and lists are not. */
  lemma {:induction false} EvaluableRoots(cat: Catalog, e: Expr, depth: nat, limit: nat)
    requires ValidCatalog(cat)
    requires var (a, s) := AnnotateX(cat, e, depth); Acceptable(a, s) && Buildable(cat, a, |s.values|)
    ensures var a := AnnotateX(cat, e, depth).0; var answer := Answer(cat, e, depth, limit);
      && (a.ApplyOpA? ==> (answer == NotEvaluable <==> a.ty.Stream?))
      && (a.AbstractionA? || a.ArgListA? || a.IdentifierA? ==> answer == NotEvaluable)
      && (a.ConstantA? || a.ObjectA? ==> answer != NotEvaluable)
  {
    hide AnnotateX, SubtreeAll, Fits, Eval, FreshStore;
  }
}
