/**
 Evaluation with shared mutable vectors computes the environment semantics. The proof carries the
 frame along: a subtree writes only the vectors of the functions and nodes inside it, so what outer
 functions were called with survives every nested call.
 */
module EvaluationCorrect {
  import opened Wrappers
  import opened QuerySyntax
  import opened Annotation
  import opened Meaning
  import opened AnnotationCorrect
  import opened OperatorTree

  /** Number of nodes built for an annotated query. */
  function Size(a: Ann): nat {
    match a
    case ApplyOpA(_, _, args, _) => 1 + SizeAll(args)
    case AbstractionA(body, _, _) => Size(body)
    case ApplyAbsA(fn, args, _) => 1 + Size(fn) + SizeAll(args)
    case WrapperA(_, _, body, _) => Size(body)
    case ArgListA(args) => 1 + SizeAll(args)
    case _ => 1
  }

  function SizeAll(as_: seq<Ann>): nat {
    if as_ == [] then 0 else Size(as_[0]) + SizeAll(as_[1..])
  }

  /** What stays fixed while one expression is evaluated. */
  datatype Context = Context(cat: Catalog, values: seq<Value>, scope: VarTable, env: Env, limit: nat)

  /** Upper halves of argument vectors are null: no parameter function is fed by a stream caller. */
  ghost predicate UpperNull(st: Store) {
    forall f, k :: 0 <= f < |st.vecs| && MAXARG <= 2 * k && k < |st.vecs[f]| ==> st.vecs[f][k] == Null
  }

  /** The vectors of the functions in scope hold the environment. */
  ghost predicate Holds(scope: VarTable, env: Env, lo: nat, st: Store) {
    forall x :: x in scope ==>
      var e := scope[x];
      && x in env && 1 <= e.funindex <= lo && e.funindex <= |st.vecs|
      && 1 <= e.position && 2 * e.position <= MAXARG && |st.vecs[e.funindex - 1]| == MAXARG
      && st.vecs[e.funindex - 1][e.position - 1] == Val(env[x])
  }

  /** Only function vectors lo..hi-1 and node vectors from..to-1 have changed. */
  ghost predicate Frame(st: Store, st': Store, lo: nat, hi: nat, from: nat, to: nat) {
    && SameShape(st, st') && UpperNull(st')
    && (forall f :: 0 <= f < |st.vecs| && !(lo <= f < hi) ==> st'.vecs[f] == st.vecs[f])
    && (forall i :: 0 <= i < |st.tmp| && !(from <= i < to) ==> st'.tmp[i] == st.tmp[i])
  }

  ghost predicate Premise(cx: Context, a: Ann, c: Core, next: nat, lo: nat, st: Store) {
    && Matches(a, c, cx.scope, cx.values) && SupportedArg(cx.cat, c)
    && Buildable(cx.cat, a, |cx.values|) && Numbered(a, lo)
    && Loaded(cx, lo, st) && lo + Count(a) <= |st.vecs| && next + Size(a) <= |st.tmp|
  }

  ghost predicate Loaded(cx: Context, lo: nat, st: Store) {
    Shaped(st) && UpperNull(st) && Holds(cx.scope, cx.env, lo, st)
  }

  ghost predicate PremiseAll(cx: Context, as_: seq<Ann>, cs: seq<Core>, next: nat, lo: nat, st: Store) {
    && MatchesAll(as_, cs, cx.scope, cx.values) && (forall i :: 0 <= i < |cs| ==> SupportedArg(cx.cat, cs[i]))
    && BuildableAll(cx.cat, as_, |cx.values|) && NumberedAll(as_, lo)
    && Loaded(cx, lo, st) && lo + CountAll(as_) <= |st.vecs| && next + SizeAll(as_) <= |st.tmp|
  }

  function Image(v: Option<Value>): Option<Word> {
    if v.None? then None else Some(Val(v.value))
  }

  function Tree(cx: Context, a: Ann, next: nat): Node
    requires Buildable(cx.cat, a, |cx.values|)
  {
    Subtree(cx.cat, a, cx.values, next).0
  }

  function Trees(cx: Context, as_: seq<Ann>, next: nat, lazy: bool): (r: seq<Node>)
    requires BuildableAll(cx.cat, as_, |cx.values|)
    ensures |r| == |as_|
  {
    SubtreeAll(cx.cat, as_, cx.values, next, lazy).0
  }

  /** Evaluating the subtree built for `a` gives the meaning of `c` and stays in its frame. */
  ghost predicate Evaluates(cx: Context, a: Ann, c: Core, next: nat, lo: nat, st: Store) {
    && Shaped(st) && Buildable(cx.cat, a, |cx.values|)
    && var n := Tree(cx, a, next);
    && Fits(n, |st.vecs|, |st.tmp|)
    && var (w, st') := Eval(cx.cat, n, st, cx.limit);
    && w == Image(Sem(cx.cat, c, cx.env, cx.limit))
    && Frame(st, st', lo, lo + Count(a), next, next + Size(a))
  }

  // ------------------------------------------------------------------ shape of the tree

  lemma {:induction false} SubtreeSize(cat: Catalog, a: Ann, values: seq<Value>, next: nat)
    requires Buildable(cat, a, |values|)
    ensures Subtree(cat, a, values, next).1 == next + Size(a)
    ensures Subtree(cat, a, values, next).0.id == next
    decreases a
  {
    match a
    case ApplyOpA(id, f, args, _) => SubtreeAllSize(cat, args, values, next + 1, Lazy(cat, OpId(id.alg, f % OP_LIMIT)));
    case AbstractionA(body, _, _) => SubtreeSize(cat, body, values, next);
    case ApplyAbsA(fn, args, _) =>
      SubtreeSize(cat, fn, values, next + 1);
      SubtreeAllSize(cat, args, values, next + 1 + Size(fn), false);
    case WrapperA(_, _, body, _) => SubtreeSize(cat, body, values, next);
    case ArgListA(args) => SubtreeAllSize(cat, args, values, next + 1, false);
    case _ =>
  }

  lemma {:induction false} SubtreeAllSize(cat: Catalog, as_: seq<Ann>, values: seq<Value>, next: nat, lazy: bool)
    requires BuildableAll(cat, as_, |values|)
    ensures SubtreeAll(cat, as_, values, next, lazy).1 == next + SizeAll(as_)
    decreases as_
  {
    if as_ != [] {
      SubtreeSize(cat, as_[0], values, next);
      SubtreeAllSize(cat, as_[1..], values, next + Size(as_[0]), lazy);
    }
  }

  /** The node of a supported term: its flags mirror the term. */
  ghost predicate Mirrors(n: Node, a: Ann, c: Core, lo: nat) {
    && n.evaluable == IsValueTerm(c) && !n.isStream && n.isFun == c.Function? && IsList(n) == c.Arguments?
    && (c.Function? ==> n.funNo == lo + 1 && n.arity == |c.params| && Count(a) >= 1)
  }

  lemma {:induction false} SubtreeMirrors(cx: Context, a: Ann, c: Core, next: nat, lo: nat)
    requires Matches(a, c, cx.scope, cx.values) && SupportedArg(cx.cat, c)
    requires Buildable(cx.cat, a, |cx.values|) && Numbered(a, lo)
    ensures Mirrors(Tree(cx, a, next), a, c, lo)
    decreases a
  {
    match a
    case AbstractionA(body, n, types) =>
      var scope' := Enter(if c.closed then map[] else cx.scope, c.params, types, n, 1);
      SubtreeMirrors(cx.(scope := scope'), body, c.body, next, lo + 1);
    case ApplyAbsA(fn, args, _) => SubtreeMirrors(cx, fn, c.fn, next + 1, lo);
    case WrapperA(_, _, body, _) => SubtreeMirrors(cx, body, c, next, lo);
    case _ =>
  }

  ghost predicate InRange(scope: VarTable, funs: nat) {
    forall x :: x in scope ==> 1 <= scope[x].funindex <= funs && 1 <= scope[x].position <= MAXARG
  }

  /** No function has more parameters than an argument vector has slots. */
  predicate ShortParams(a: Ann) {
    match a
    case ApplyOpA(_, _, args, _) => ShortParamsAll(args)
    case AbstractionA(body, _, params) => |params| <= MAXARG && ShortParams(body)
    case ApplyAbsA(fn, args, _) => ShortParams(fn) && ShortParamsAll(args)
    case WrapperA(_, _, body, _) => ShortParams(body)
    case ArgListA(args) => ShortParamsAll(args)
    case _ => true
  }

  predicate ShortParamsAll(as_: seq<Ann>) {
    as_ == [] || (ShortParams(as_[0]) && ShortParamsAll(as_[1..]))
  }

  lemma {:induction false} SupportedIsArg(cat: Catalog, cs: seq<Core>)
    requires forall i :: 0 <= i < |cs| ==> Supported(cat, cs[i])
    ensures forall i :: 0 <= i < |cs| ==> SupportedArg(cat, cs[i]) && IsValueTerm(cs[i])
  {}

  lemma {:induction false} EnterInRange(scope: VarTable, names: seq<string>, types: seq<Type>, fun: nat, k: nat,
                                        funs: nat)
    requires |names| == |types| && InRange(scope, funs)
    requires 1 <= fun <= funs && 1 <= k && k + |names| <= MAXARG + 1
    ensures InRange(Enter(scope, names, types, fun, k), funs)
    decreases |names|
  {
    if names != [] {
      hide InRange;
      InRangeOneMore(scope, names[0], types[0], fun, k, funs);
      EnterInRange(scope[names[0] := VarEntry(k, fun, types[0])], names[1..], types[1..], fun, k + 1, funs);
    }
  }

  lemma InRangeOneMore(scope: VarTable, name: string, ty: Type, fun: nat, k: nat, funs: nat)
    requires InRange(scope, funs) && 1 <= fun <= funs && 1 <= k <= MAXARG
    ensures InRange(scope[name := VarEntry(k, fun, ty)], funs)
  {}

  /** Every vector access of the tree is in bounds, and every vector it refers to exists. */
  lemma {:induction false} TreeFits(cx: Context, a: Ann, c: Core, next: nat, lo: nat, funs: nat, nodes: nat)
    requires Matches(a, c, cx.scope, cx.values) && ShortParams(a)
    requires Buildable(cx.cat, a, |cx.values|) && Numbered(a, lo) && InRange(cx.scope, funs)
    requires lo + Count(a) <= funs && next + Size(a) <= nodes
    ensures Fits(Tree(cx, a, next), funs, nodes)
    decreases a, 1
  {
    SubtreeSize(cx.cat, a, cx.values, next);
    match a
    case ApplyOpA(id, f, args, _) =>
      TreesFit(cx, args, c.args, next + 1, lo, funs, nodes, Lazy(cx.cat, OpId(id.alg, f % OP_LIMIT)));
    case AbstractionA(body, n, types) =>
      var scope0: VarTable := if c.closed then map[] else cx.scope;
      EnterInRange(scope0, c.params, types, n, 1, funs);
      TreeFits(cx.(scope := Enter(scope0, c.params, types, n, 1)), body, c.body, next, lo + 1, funs, nodes);
    case ApplyAbsA(_, _, _) => ApplicationFits(cx, a, c, next, lo, funs, nodes);
    case WrapperA(_, _, body, _) => TreeFits(cx, body, c, next, lo, funs, nodes);
    case ArgListA(args) => TreesFit(cx, args, c.args, next + 1, lo, funs, nodes, false);
    case _ =>
  }

  lemma {:induction false} ApplicationFits(cx: Context, a: Ann, c: Core, next: nat, lo: nat, funs: nat, nodes: nat)
    requires Matches(a, c, cx.scope, cx.values) && ShortParams(a) && a.ApplyAbsA?
    requires Buildable(cx.cat, a, |cx.values|) && Numbered(a, lo) && InRange(cx.scope, funs)
    requires lo + Count(a) <= funs && next + Size(a) <= nodes
    ensures Fits(Tree(cx, a, next), funs, nodes)
    decreases a, 0
  {
    var fn, args := a.fn, a.args;
    TreeFits(cx, fn, c.fn, next + 1, lo, funs, nodes);
    SubtreeSize(cx.cat, fn, cx.values, next + 1);
    TreesFit(cx, args, c.args, next + 1 + Size(fn), lo + Count(fn), funs, nodes, false);
    var sons := Trees(cx, args, next + 1 + Size(fn), false);
    assert ([Tree(cx, fn, next + 1)] + sons)[1..] == sons;
  }

  lemma {:induction false} TreesFit(cx: Context, as_: seq<Ann>, cs: seq<Core>, next: nat, lo: nat, funs: nat,
                                    nodes: nat, lazy: bool)
    requires MatchesAll(as_, cs, cx.scope, cx.values) && ShortParamsAll(as_)
    requires BuildableAll(cx.cat, as_, |cx.values|) && NumberedAll(as_, lo) && InRange(cx.scope, funs)
    requires lo + CountAll(as_) <= funs && next + SizeAll(as_) <= nodes
    ensures FitsAll(Trees(cx, as_, next, lazy), funs, nodes)
    decreases as_, 1
  {
    if as_ != [] {
      SubtreeSize(cx.cat, as_[0], cx.values, next);
      TreeFits(cx, as_[0], cs[0], next, lo, funs, nodes);
      TreesFit(cx, as_[1..], cs[1..], next + Size(as_[0]), lo + Count(as_[0]), funs, nodes, lazy);
      var sons := Trees(cx, as_, next, lazy);
      assert sons[1..] == Trees(cx, as_[1..], next + Size(as_[0]), lazy);
    }
  }

  lemma {:induction false} SupportedShort(cat: Catalog, a: Ann, c: Core, scope: VarTable, values: seq<Value>)
    requires Matches(a, c, scope, values) && SupportedArg(cat, c)
    ensures ShortParams(a)
    decreases a
  {
    match a
    case ApplyOpA(_, _, args, _) => SupportedShortAll(cat, args, c.args, scope, values);
    case AbstractionA(body, n, types) =>
      SupportedShort(cat, body, c.body, Enter(if c.closed then map[] else scope, c.params, types, n, 1), values);
    case ApplyAbsA(fn, args, _) =>
      SupportedIsArg(cat, c.args);
      SupportedShort(cat, fn, c.fn, scope, values);
      SupportedShortAll(cat, args, c.args, scope, values);
    case WrapperA(_, _, body, _) => SupportedShort(cat, body, c, scope, values);
    case ArgListA(args) => SupportedShortAll(cat, args, c.args, scope, values);
    case _ =>
  }

  lemma {:induction false} SupportedShortAll(cat: Catalog, as_: seq<Ann>, cs: seq<Core>, scope: VarTable,
                                             values: seq<Value>)
    requires MatchesAll(as_, cs, scope, values) && forall i :: 0 <= i < |cs| ==> SupportedArg(cat, cs[i])
    ensures ShortParamsAll(as_)
    decreases as_
  {
    if as_ != [] {
      SupportedShort(cat, as_[0], cs[0], scope, values);
      forall i | 0 <= i < |cs[1..]| ensures SupportedArg(cat, cs[1..][i]) { assert cs[1..][i] == cs[i + 1]; }
      SupportedShortAll(cat, as_[1..], cs[1..], scope, values);
    }
  }

  lemma {:induction false} SubtreeFits(cx: Context, a: Ann, c: Core, next: nat, lo: nat, st: Store)
    requires Premise(cx, a, c, next, lo, st)
    ensures Fits(Tree(cx, a, next), |st.vecs|, |st.tmp|)
  {
    SupportedShort(cx.cat, a, c, cx.scope, cx.values);
    TreeFits(cx, a, c, next, lo, |st.vecs|, |st.tmp|);
  }

  // ------------------------------------------------------------------ frames

  lemma HoldsKept(cx: Context, st: Store, st': Store, lo: nat, lo': nat)
    requires Loaded(cx, lo, st) && lo <= lo'
    requires SameShape(st, st') && UpperNull(st')
    requires forall f :: 0 <= f < |st.vecs| && f < lo ==> st'.vecs[f] == st.vecs[f]
    ensures Loaded(cx, lo', st')
  {}

  lemma FrameWider(st: Store, st': Store, lo: nat, hi: nat, from: nat, to: nat, lo': nat, hi': nat, from': nat,
                   to': nat)
    requires Frame(st, st', lo, hi, from, to) && lo' <= lo && hi <= hi' && from' <= from && to <= to'
    ensures Frame(st, st', lo', hi', from', to')
  {}

  /** One slot of the node's own vector. */
  lemma FrameSlot(st: Store, id: nat, i: nat, w: Word)
    requires Shaped(st) && UpperNull(st) && id < |st.tmp| && i < MAXARG
    ensures Frame(st, SetTmp(st, id, i, w), 0, 0, id, id + 1) && SetTmp(st, id, i, w).tmp[id][..i] == st.tmp[id][..i]
  {}

  /** Slots k, k + 1, ... of vector n hold the values. */
  ghost predicate InSlots(st: Store, n: nat, k: nat, vals: seq<Value>) {
    && 1 <= n <= |st.vecs| && 1 <= k && k - 1 + |vals| <= |st.vecs[n - 1]|
    && forall j :: 0 <= j < |vals| ==> st.vecs[n - 1][k - 1 + j] == Val(vals[j])
  }

  lemma {:induction false} FirstSlot(st: Store, n: nat, k: nat, vals: seq<Value>)
    requires InSlots(st, n, k, vals) && vals != []
    ensures 1 <= n <= |st.vecs| && 1 <= k <= |st.vecs[n - 1]| && st.vecs[n - 1][k - 1] == Val(vals[0])
    ensures InSlots(st, n, k + 1, vals[1..])
  {
    assert st.vecs[n - 1][k - 1 + 0] == Val(vals[0]);
    forall j | 0 <= j < |vals[1..]| ensures st.vecs[n - 1][k + 1 - 1 + j] == Val(vals[1..][j]) {
      assert st.vecs[n - 1][k - 1 + (j + 1)] == Val(vals[j + 1]);
    }
  }

  lemma {:induction false} EnterHolds(scope: VarTable, env: Env, names: seq<string>, types: seq<Type>, vals: seq<Value>,
                                      n: nat, k: nat, st: Store)
    requires |names| == |types| == |vals| && Shaped(st) && 1 <= k && 2 * (k + |names| - 1) <= MAXARG
    requires Holds(scope, env, n, st) && InSlots(st, n, k, vals)
    ensures Holds(Enter(scope, names, types, n, k), Bind(env, names, vals), n, st)
    decreases |names|
  {
    hide *;
    if names == [] {
      NothingEntered(scope, env, n, k);
    } else {
      EnterFirst(scope, env, names, types, vals, n, k);
      FirstSlot(st, n, k, vals);
      HoldsOneMore(scope, env, names[0], types[0], vals[0], n, k, st);
      EnterHolds(scope[names[0] := VarEntry(k, n, types[0])], env[names[0] := vals[0]], names[1..], types[1..],
                 vals[1..], n, k + 1, st);
    }
  }

  lemma {:induction false} NothingEntered(scope: VarTable, env: Env, n: nat, k: nat)
    ensures Enter(scope, [], [], n, k) == scope && Bind(env, [], []) == env
  {}

  lemma {:induction false} EnterFirst(scope: VarTable, env: Env, names: seq<string>, types: seq<Type>, vals: seq<Value>,
                                      n: nat, k: nat)
    requires |names| == |types| == |vals| && names != []
    ensures Enter(scope, names, types, n, k)
         == Enter(scope[names[0] := VarEntry(k, n, types[0])], names[1..], types[1..], n, k + 1)
    ensures Bind(env, names, vals) == Bind(env[names[0] := vals[0]], names[1..], vals[1..])
  {}

  lemma {:induction false} HoldsOneMore(scope: VarTable, env: Env, name: string, ty: Type, v: Value, n: nat, k: nat,
                                        st: Store)
    requires Shaped(st) && 1 <= n <= |st.vecs| && 1 <= k && 2 * k <= MAXARG && k <= |st.vecs[n - 1]|
    requires Holds(scope, env, n, st) && st.vecs[n - 1][k - 1] == Val(v)
    ensures Holds(scope[name := VarEntry(k, n, ty)], env[name := v], n, st)
  {}

  /** Loading vector lo + 1 leaves the vectors of the surrounding functions alone. */
  lemma {:induction false} LoadKeeps(scope: VarTable, env: Env, lo: nat, st: Store, vals: seq<Value>)
    requires Shaped(st) && UpperNull(st) && Holds(scope, env, lo, st) && lo < |st.vecs| && 2 * |vals| <= MAXARG
    ensures var st0 := Load(st, lo + 1, Vals(vals));
      && Frame(st, st0, lo, lo + 1, 0, 0) && Holds(scope, env, lo + 1, st0) && InSlots(st0, lo + 1, 1, vals)
  {
    var st0 := Load(st, lo + 1, Vals(vals));
    assert forall f :: 0 <= f < |st.vecs| && f != lo ==> st0.vecs[f] == st.vecs[f];
    assert UpperNull(st0) && SameShape(st, st0);
    hide UpperNull, Load;
    assert Holds(scope, env, lo + 1, st0);
  }

  /** A closed function starts from nothing, any other from what surrounds it. */
  ghost function OuterScope(cx: Context, c: Core): VarTable
    requires c.Function?
  {
    if c.closed then map[] else cx.scope
  }

  ghost function OuterEnv(cx: Context, c: Core): Env
    requires c.Function?
  {
    if c.closed then map[] else cx.env
  }

  lemma {:induction false} OuterHolds(cx: Context, c: Core, lo: nat, st: Store)
    requires c.Function? && Loaded(cx, lo, st)
    ensures Holds(OuterScope(cx, c), OuterEnv(cx, c), lo, st) && Shaped(st) && UpperNull(st)
  {}

  lemma {:induction false} LoadHolds(cx: Context, c: Core, types: seq<Type>, vals: seq<Value>, lo: nat, st: Store)
    requires c.Function? && |types| == |c.params| == |vals| && 2 * |vals| <= MAXARG && Shaped(st)
    requires Loaded(cx, lo, st) && lo < |st.vecs|
    ensures var st0 := Load(st, lo + 1, Vals(vals));
      && Holds(Enter(OuterScope(cx, c), c.params, types, lo + 1, 1), Bind(OuterEnv(cx, c), c.params, vals), lo + 1, st0)
      && Frame(st, st0, lo, lo + 1, 0, 0)
  {
    hide *;
    OuterHolds(cx, c, lo, st);
    var st0 := Load(st, lo + 1, Vals(vals));
    LoadKeeps(OuterScope(cx, c), OuterEnv(cx, c), lo, st, vals);
    SameLengths(st, st0);
    EnterHolds(OuterScope(cx, c), OuterEnv(cx, c), c.params, types, vals, lo + 1, 1, st0);
  }

  // ------------------------------------------------------------------ picking one son

  lemma {:induction false} PickSon(cx: Context, as_: seq<Ann>, cs: seq<Core>, next: nat, lo: nat, lazy: bool, i: nat)
    requires MatchesAll(as_, cs, cx.scope, cx.values) && BuildableAll(cx.cat, as_, |cx.values|) && NumberedAll(as_, lo)
    requires i < |as_|
    ensures var from, lo' := next + SizeAll(as_[..i]), lo + CountAll(as_[..i]);
      && Buildable(cx.cat, as_[i], |cx.values|) && Matches(as_[i], cs[i], cx.scope, cx.values) && Numbered(as_[i], lo')
      && from + Size(as_[i]) <= next + SizeAll(as_) && lo' + Count(as_[i]) <= lo + CountAll(as_)
      && var n := Tree(cx, as_[i], from);
         Trees(cx, as_, next, lazy)[i] == if lazy then n.(evaluable := false) else n
    decreases i
  {
    SubtreeSize(cx.cat, as_[0], cx.values, next);
    if i > 0 {
      PickSon(cx, as_[1..], cs[1..], next + Size(as_[0]), lo + Count(as_[0]), lazy, i - 1);
      assert as_[..i][1..] == as_[1..][..i - 1];
      assert as_[i] == as_[1..][i - 1] && cs[i] == cs[1..][i - 1];
    }
  }

  lemma {:induction false} PickPremise(cx: Context, as_: seq<Ann>, cs: seq<Core>, next: nat, lo: nat, lazy: bool,
                                       i: nat, st: Store)
    requires PremiseAll(cx, as_, cs, next, lo, st) && i < |as_|
    ensures var from, lo' := next + SizeAll(as_[..i]), lo + CountAll(as_[..i]);
      && Premise(cx, as_[i], cs[i], from, lo', st)
      && from + Size(as_[i]) <= next + SizeAll(as_) && lo' + Count(as_[i]) <= lo + CountAll(as_)
      && var n := Tree(cx, as_[i], from);
         Trees(cx, as_, next, lazy)[i] == if lazy then n.(evaluable := false) else n
  {
    PickSon(cx, as_, cs, next, lo, lazy, i);
    HoldsKept(cx, st, st, lo, lo + CountAll(as_[..i]));
  }

  /** The elements of an argument list, below pseudo operators. */
  lemma {:induction false} ListParts(cx: Context, a: Ann, c: Core, next: nat, lo: nat, st: Store)
    returns (args: seq<Ann>)
    requires Premise(cx, a, c, next, lo, st) && c.Arguments?
    ensures PremiseAll(cx, args, c.args, next + 1, lo, st)
    ensures Tree(cx, a, next).kind == Oper(0, 1, Trees(cx, args, next + 1, false))
    ensures 1 + SizeAll(args) <= Size(a) && CountAll(args) <= Count(a)
    ensures forall j :: 0 <= j < |args| ==> args[j] < a
    decreases a
  {
    if a.WrapperA? {
      WrapperPremise(cx, a, c, next, lo, st);
      args := ListParts(cx, a.body, c, next, lo, st);
    } else {
      args := a.args;
    }
  }

  /** A requested node is the tree of the term at the end of the path; only its flag may differ. */
  ghost predicate IsTreeOf(cx: Context, n: Option<Node>, a: Ann, from: nat)
    requires Buildable(cx.cat, a, |cx.values|)
  {
    n == Some(Tree(cx, a, from)) || n == Some(Tree(cx, a, from).(evaluable := false))
  }

  lemma {:induction false} PickAt(cx: Context, as_: seq<Ann>, cs: seq<Core>, next: nat, lo: nat, lazy: bool,
                                  path: seq<nat>, st: Store) returns (a: Ann, from: nat, lo': nat)
    requires PremiseAll(cx, as_, cs, next, lo, st) && At(cs, path).Some?
    ensures Premise(cx, a, At(cs, path).value, from, lo', st)
    ensures IsTreeOf(cx, NodeAt(Trees(cx, as_, next, lazy), path), a, from)
    ensures next <= from && from + Size(a) <= next + SizeAll(as_) && lo <= lo' && lo' + Count(a) <= lo + CountAll(as_)
    ensures exists i :: 0 <= i < |as_| && (a == as_[i] || a < as_[i])
    decreases |path|
  {
    hide *;
    AtUnfolds(cs, path);
    PremiseParts(cx, as_, cs, next, lo, st);
    var i := path[0];
    PickPremise(cx, as_, cs, next, lo, lazy, i, st);
    from, lo', a := next + SizeAll(as_[..i]), lo + CountAll(as_[..i]), as_[i];
    var n := Trees(cx, as_, next, lazy)[i];
    PickedNode(cx, a, cs[i], from, lo', n, st);
    NodeAtUnfolds(Trees(cx, as_, next, lazy), path);
    if cs[i].Arguments? {
      var args := ListParts(cx, a, cs[i], from, lo', st);
      a, from, lo' := PickAt(cx, args, cs[i].args, from + 1, lo', false, path[1..], st);
    }
  }

  lemma {:induction false} AtUnfolds(cs: seq<Core>, path: seq<nat>)
    requires At(cs, path).Some?
    ensures path != [] && path[0] < |cs|
    ensures var c := cs[path[0]];
      At(cs, path) == if c.Arguments? then At(c.args, path[1..]) else Some(c)
    ensures !cs[path[0]].Arguments? ==> |path| == 1
  {}

  lemma {:induction false} NodeAtUnfolds(sons: seq<Node>, path: seq<nat>)
    requires path != [] && path[0] < |sons|
    ensures var n := sons[path[0]];
      && (IsList(n) ==> n.kind.Oper? && NodeAt(sons, path) == NodeAt(n.kind.sons, path[1..]))
      && (!IsList(n) && |path| == 1 ==> NodeAt(sons, path) == Some(n))
  {}

  lemma {:induction false} PickedNode(cx: Context, a: Ann, c: Core, next: nat, lo: nat, n: Node, st: Store)
    requires Premise(cx, a, c, next, lo, st)
    ensures Buildable(cx.cat, a, |cx.values|)
    ensures n == Tree(cx, a, next) || n == Tree(cx, a, next).(evaluable := false) ==>
      n.kind == Tree(cx, a, next).kind && IsTreeOf(cx, Some(n), a, next) && IsList(n) == c.Arguments?
  {
    SubtreeMirrors(cx, a, c, next, lo);
    hide Subtree, Matches, SupportedArg, Numbered, Buildable, Count, Size, Loaded;
  }

  lemma {:induction false} NothingAt(cx: Context, as_: seq<Ann>, cs: seq<Core>, next: nat, lo: nat, lazy: bool,
                                     path: seq<nat>, st: Store)
    requires PremiseAll(cx, as_, cs, next, lo, st) && At(cs, path).None?
    ensures NodeAt(Trees(cx, as_, next, lazy), path).None?
    decreases |path|
  {
    MatchesLength(as_, cs, cx.scope, cx.values);
    if path != [] && path[0] < |cs| {
      var i := path[0];
      PickPremise(cx, as_, cs, next, lo, lazy, i, st);
      var from, lo' := next + SizeAll(as_[..i]), lo + CountAll(as_[..i]);
      SubtreeMirrors(cx, as_[i], cs[i], from, lo');
      if cs[i].Arguments? {
        var args := ListParts(cx, as_[i], cs[i], from, lo', st);
        NothingAt(cx, args, cs[i].args, from + 1, lo', false, path[1..], st);
      }
    }
  }

  lemma {:induction false} AllFit(cx: Context, as_: seq<Ann>, cs: seq<Core>, next: nat, lo: nat, lazy: bool, st: Store)
    requires PremiseAll(cx, as_, cs, next, lo, st)
    ensures FitsAll(Trees(cx, as_, next, lazy), |st.vecs|, |st.tmp|)
  {
    SupportedShortAll(cx.cat, as_, cs, cx.scope, cx.values);
    TreesFit(cx, as_, cs, next, lo, |st.vecs|, |st.tmp|, lazy);
  }

  lemma {:induction false} IdentifierTree(cx: Context, a: Ann, c: Core, next: nat)
    requires Matches(a, c, cx.scope, cx.values) && Buildable(cx.cat, a, |cx.values|) && c.Identifier?
    ensures Tree(cx, a, next).kind == Object(Null)
    decreases a
  {
    if a.WrapperA? { IdentifierTree(cx, a.body, c, next); }
  }

  // ------------------------------------------------------------------ evaluation

  lemma {:induction false} EvalCorrect(cx: Context, a: Ann, c: Core, next: nat, lo: nat, st: Store)
    requires Premise(cx, a, c, next, lo, st) && Supported(cx.cat, c)
    ensures Evaluates(cx, a, c, next, lo, st)
    decreases a, 2, 0
  {
    match a
    case ApplyOpA(_, _, _, _) => OperationCorrect(cx, a, c, next, lo, st);
    case ApplyAbsA(_, _, _) => ApplicationCorrect(cx, a, c, next, lo, st);
    case WrapperA(_, _, body, _) =>
      WrapperPremise(cx, a, c, next, lo, st);
      EvalCorrect(cx, body, c, next, lo, st);
      hide *;
      WrapperEvaluates(cx, a, c, next, lo, st);
    case _ => LeafCorrect(cx, a, c, next, lo, st);
  }

  lemma {:induction false} LeafCorrect(cx: Context, a: Ann, c: Core, next: nat, lo: nat, st: Store)
    requires Premise(cx, a, c, next, lo, st) && Supported(cx.cat, c)
    requires !a.ApplyOpA? && !a.ApplyAbsA? && !a.WrapperA?
    ensures Evaluates(cx, a, c, next, lo, st)
  {
    SubtreeFits(cx, a, c, next, lo, st);
  }

  lemma {:induction false} WrapperPremise(cx: Context, a: Ann, c: Core, next: nat, lo: nat, st: Store)
    requires Premise(cx, a, c, next, lo, st) && a.WrapperA?
    ensures Premise(cx, a.body, c, next, lo, st)
  {}

  /** Counters and memory sizes are recorded on the node and do not change its evaluation. */
  lemma {:induction false} WrapperEvaluates(cx: Context, a: Ann, c: Core, next: nat, lo: nat, st: Store)
    requires Premise(cx, a, c, next, lo, st) && a.WrapperA? && Evaluates(cx, a.body, c, next, lo, st)
    ensures Evaluates(cx, a, c, next, lo, st)
  {
    SubtreeFits(cx, a, c, next, lo, st);
  }

  /** The sons' values land in the node's own vector, in order, and nothing outside the frame moves. */
  ghost predicate SonsEvaluated(cx: Context, cs: seq<Core>, sons: seq<Node>, id: nat, i: nat, lazy: bool, st: Store,
                                lo: nat, hi: nat, from: nat, to: nat)
    requires Shaped(st) && id < |st.tmp| && FitsAll(sons, |st.vecs|, |st.tmp|) && i + |sons| <= MAXARG
  {
    var (ok, st') := EvalSons(cx.cat, id, i, sons, st, cx.limit);
    var view := SemArgs(cx.cat, cs, lazy, cx.env, cx.limit);
    && ok == view.Some?
    && (ok ==> |sons| == |cs| && forall k :: 0 <= k < |cs| ==> ToOption(st'.tmp[id][i + k]) == view.value[k])
    && (forall k :: 0 <= k < i ==> st'.tmp[id][k] == st.tmp[id][k])
    && SonsFrame(st, st', id, lo, hi, from, to)
  }

  /** As `Frame`, but the node's own vector may change as well. */
  ghost predicate SonsFrame(st: Store, st': Store, id: nat, lo: nat, hi: nat, from: nat, to: nat) {
    && SameShape(st, st') && UpperNull(st')
    && (forall f :: 0 <= f < |st.vecs| && !(lo <= f < hi) ==> st'.vecs[f] == st.vecs[f])
    && (forall i :: 0 <= i < |st.tmp| && i != id && !(from <= i < to) ==> st'.tmp[i] == st.tmp[i])
  }

  /** A son that is not evaluated first: its address is stored. */
  lemma {:induction false} SkipSon(cx: Context, cs: seq<Core>, sons: seq<Node>, id: nat, i: nat, lazy: bool, st: Store,
                                   st1: Store,
                                   lo: nat, lo': nat, hi: nat, from: nat, from': nat, to: nat)
    requires Shaped(st) && id < |st.tmp| && FitsAll(sons, |st.vecs|, |st.tmp|) && i + |sons| <= MAXARG
    requires sons != [] && |sons| == |cs| && !sons[0].evaluable && (lazy || !IsValueTerm(cs[0]))
    requires st1 == SetTmp(st, id, i, NodeRef(sons[0].id)) && FitsAll(sons[1..], |st1.vecs|, |st1.tmp|)
    requires SonsEvaluated(cx, cs[1..], sons[1..], id, i + 1, lazy, st1, lo', hi, from', to)
    requires SonsFrame(st, st1, id, lo, lo', from, from') && lo <= lo' <= hi && from <= from' <= to
    ensures SonsEvaluated(cx, cs, sons, id, i, lazy, st, lo, hi, from, to)
  {
    var (ok, st') := EvalSons(cx.cat, id, i + 1, sons[1..], st1, cx.limit);
    assert (ok, st') == EvalSons(cx.cat, id, i, sons, st, cx.limit);
    var view := SemArgs(cx.cat, cs, lazy, cx.env, cx.limit);
    if ok {
      assert st'.tmp[id][i] == st1.tmp[id][i] == NodeRef(sons[0].id);
      forall k | 0 <= k < |cs| ensures ToOption(st'.tmp[id][i + k]) == view.value[k] {
        if k > 0 { assert ToOption(st'.tmp[id][i + 1 + (k - 1)]) == view.value[1..][k - 1]; }
      }
    }
  }

  /** A son that is evaluated first: its value is stored. */
  lemma {:induction false} TakeSon(cx: Context, cs: seq<Core>, sons: seq<Node>, id: nat, i: nat, lazy: bool, st: Store,
                                   w: Word, st1: Store,
                                   lo: nat, lo': nat, hi: nat, from: nat, from': nat, to: nat)
    requires Shaped(st) && id < |st.tmp| && FitsAll(sons, |st.vecs|, |st.tmp|) && i + |sons| <= MAXARG
    requires sons != [] && |sons| == |cs| && sons[0].evaluable && !lazy && IsValueTerm(cs[0])
    requires Fits(sons[0], |st.vecs|, |st.tmp|) && Eval(cx.cat, sons[0], st, cx.limit) == (Some(w), st1)
      && st1.tmp[id] == st.tmp[id]
    requires Image(Sem(cx.cat, cs[0], cx.env, cx.limit)) == Some(w)
    requires FitsAll(sons[1..], |st1.vecs|, |st1.tmp|)
    requires SonsEvaluated(cx, cs[1..], sons[1..], id, i + 1, lazy, SetTmp(st1, id, i, w), lo', hi, from', to)
    requires SonsFrame(st, SetTmp(st1, id, i, w), id, lo, lo', from, from')
    requires lo <= lo' <= hi && from <= from' <= to
    ensures SonsEvaluated(cx, cs, sons, id, i, lazy, st, lo, hi, from, to)
  {
    var st2 := SetTmp(st1, id, i, w);
    var (ok, st') := EvalSons(cx.cat, id, i + 1, sons[1..], st2, cx.limit);
    assert (ok, st') == EvalSons(cx.cat, id, i, sons, st, cx.limit);
    var view := SemArgs(cx.cat, cs, lazy, cx.env, cx.limit);
    if ok {
      assert st'.tmp[id][i] == st2.tmp[id][i] == w;
      forall k | 0 <= k < |cs| ensures ToOption(st'.tmp[id][i + k]) == view.value[k] {
        if k > 0 { assert ToOption(st'.tmp[id][i + 1 + (k - 1)]) == view.value[1..][k - 1]; }
      }
    }
  }

  /** A son without a value: nothing after it is touched. */
  lemma {:induction false} StopAtSon(cx: Context, cs: seq<Core>, sons: seq<Node>, id: nat, i: nat, lazy: bool,
                                     st: Store, st1: Store,
                                     lo: nat, lo': nat, hi: nat, from: nat, from': nat, to: nat)
    requires Shaped(st) && id < |st.tmp| && id < from && FitsAll(sons, |st.vecs|, |st.tmp|) && i + |sons| <= MAXARG
    requires sons != [] && |sons| == |cs| && sons[0].evaluable && !lazy && IsValueTerm(cs[0])
    requires Fits(sons[0], |st.vecs|, |st.tmp|) && Eval(cx.cat, sons[0], st, cx.limit) == (None, st1)
    requires Sem(cx.cat, cs[0], cx.env, cx.limit) == None
    requires Frame(st, st1, lo, lo', from, from') && lo <= lo' <= hi && from <= from' <= to
    ensures SonsEvaluated(cx, cs, sons, id, i, lazy, st, lo, hi, from, to)
  {}

  /** Everything known about the first son of a list before it is evaluated. */
  lemma {:induction false} FirstSon(cx: Context, as_: seq<Ann>, cs: seq<Core>, next: nat, lo: nat, lazy: bool,
                                    st: Store)
    requires PremiseAll(cx, as_, cs, next, lo, st) && as_ != []
    ensures |cs| == |as_| && Premise(cx, as_[0], cs[0], next, lo, st)
    ensures IsValueTerm(cs[0]) ==> Supported(cx.cat, cs[0])
    ensures lo + Count(as_[0]) <= lo + CountAll(as_) && next + Size(as_[0]) <= next + SizeAll(as_)
    ensures Shaped(st) && UpperNull(st)
    ensures var sons := Trees(cx, as_, next, lazy);
      && FitsAll(sons, |st.vecs|, |st.tmp|) && Fits(sons[0], |st.vecs|, |st.tmp|)
      && sons[0].evaluable == (!lazy && IsValueTerm(cs[0]))
      && (!lazy ==> sons[0] == Tree(cx, as_[0], next))
      && sons[1..] == Trees(cx, as_[1..], next + Size(as_[0]), lazy)
  {
    AllFit(cx, as_, cs, next, lo, lazy, st);
    PickPremise(cx, as_, cs, next, lo, lazy, 0, st);
    SubtreeMirrors(cx, as_[0], cs[0], next, lo);
    SubtreeSize(cx.cat, as_[0], cx.values, next);
    MatchesLength(as_, cs, cx.scope, cx.values);
  }

  lemma {:induction false} NoSons(cx: Context, as_: seq<Ann>, cs: seq<Core>, id: nat, i: nat, next: nat, lo: nat,
                                  lazy: bool, st: Store)
    requires PremiseAll(cx, as_, cs, next, lo, st) && as_ == []
    requires id < next && id < |st.tmp| && i <= MAXARG
    ensures SonsEvaluated(cx, cs, Trees(cx, as_, next, lazy), id, i, lazy, st, lo, lo + CountAll(as_), next,
                          next + SizeAll(as_))
  {}

  lemma {:induction false} EvalSonsCorrect(cx: Context, as_: seq<Ann>, cs: seq<Core>, id: nat, i: nat, next: nat,
                                           lo: nat, lazy: bool, st: Store)
    requires PremiseAll(cx, as_, cs, next, lo, st)
    requires id < next && id < |st.tmp| && i + |as_| <= MAXARG
    ensures FitsAll(Trees(cx, as_, next, lazy), |st.vecs|, |st.tmp|)
    ensures SonsEvaluated(cx, cs, Trees(cx, as_, next, lazy), id, i, lazy, st, lo, lo + CountAll(as_), next,
                          next + SizeAll(as_))
    decreases as_, 1, 0
  {
    AllFit(cx, as_, cs, next, lo, lazy, st);
    if as_ == [] {
      NoSons(cx, as_, cs, id, i, next, lo, lazy, st);
    } else {
      FirstSon(cx, as_, cs, next, lo, lazy, st);
      var c := cs[0];
      var sons := Trees(cx, as_, next, lazy);
      hide *;
      if lazy || !IsValueTerm(c) {
        SkipFirst(cx, as_, cs, sons, id, i, next, lo, lazy, st);
      } else {
        EvalCorrect(cx, as_[0], c, next, lo, st);
        TakeFirst(cx, as_, cs, sons, id, i, next, lo, lazy, st);
      }
    }
  }

  lemma {:induction false} SkipFirst(cx: Context, as_: seq<Ann>, cs: seq<Core>, sons: seq<Node>, id: nat, i: nat,
                                     next: nat, lo: nat, lazy: bool, st: Store)
    requires PremiseAll(cx, as_, cs, next, lo, st) && as_ != [] && |cs| == |as_|
    requires id < next && id < |st.tmp| && i + |as_| <= MAXARG
    requires BuildableAll(cx.cat, as_, |cx.values|) && sons == Trees(cx, as_, next, lazy)
    requires FitsAll(sons, |st.vecs|, |st.tmp|)
    requires BuildableAll(cx.cat, as_[1..], |cx.values|) && sons[1..] == Trees(cx, as_[1..], next + Size(as_[0]), lazy)
    requires !sons[0].evaluable && (lazy || !IsValueTerm(cs[0]))
    ensures SonsEvaluated(cx, cs, sons, id, i, lazy, st, lo, lo + CountAll(as_), next, next + SizeAll(as_))
    decreases as_, 0, 1
  {
    var lo', next' := lo + Count(as_[0]), next + Size(as_[0]);
    assert Shaped(st) && UpperNull(st) && lo' <= lo + CountAll(as_) && next' <= next + SizeAll(as_);
    var st1 := SetTmp(st, id, i, NodeRef(sons[0].id));
    FrameSlot(st, id, i, NodeRef(sons[0].id));
    FrameNone(st, lo, lo', next, next');
    hide *;
    RestOfSons(cx, as_, cs, id, i, next, lo, lazy, st, st, st1);
    SkipSon(cx, cs, sons, id, i, lazy, st, st1, lo, lo', lo + CountAll(as_), next, next', next + SizeAll(as_));
  }

  lemma {:induction false} TakeFirst(cx: Context, as_: seq<Ann>, cs: seq<Core>, sons: seq<Node>, id: nat, i: nat,
                                     next: nat, lo: nat, lazy: bool, st: Store)
    requires PremiseAll(cx, as_, cs, next, lo, st) && as_ != [] && |cs| == |as_|
    requires id < next && id < |st.tmp| && i + |as_| <= MAXARG
    requires BuildableAll(cx.cat, as_, |cx.values|) && sons == Trees(cx, as_, next, lazy)
    requires FitsAll(sons, |st.vecs|, |st.tmp|)
    requires BuildableAll(cx.cat, as_[1..], |cx.values|) && sons[1..] == Trees(cx, as_[1..], next + Size(as_[0]), lazy)
    requires sons[0].evaluable && !lazy && IsValueTerm(cs[0])
    requires Buildable(cx.cat, as_[0], |cx.values|) && sons[0] == Tree(cx, as_[0], next)
      && Evaluates(cx, as_[0], cs[0], next, lo, st)
    ensures SonsEvaluated(cx, cs, sons, id, i, lazy, st, lo, lo + CountAll(as_), next, next + SizeAll(as_))
    decreases as_, 0, 1
  {
    hide *;
    var lo', next' := lo + Count(as_[0]), next + Size(as_[0]);
    PremiseParts(cx, as_, cs, next, lo, st);
    Totals(as_);
    EvaluatedSon(cx, as_[0], cs[0], sons[0], next, lo, st);
    var (w, st1) := Eval(cx.cat, sons[0], st, cx.limit);
    FrameLengths(st, st1, lo, lo', next, next');
    if w.Some? {
      var st2 := SetTmp(st1, id, i, w.value);
      FrameSlot(st1, id, i, w.value);
      FrameKeepsNode(st, st1, lo, lo', next, next', id);
      RestOfSons(cx, as_, cs, id, i, next, lo, lazy, st, st1, st2);
      TakeSon(cx, cs, sons, id, i, lazy, st, w.value, st1, lo, lo', lo + CountAll(as_), next, next',
              next + SizeAll(as_));
    } else {
      StopAtSon(cx, cs, sons, id, i, lazy, st, st1, lo, lo', lo + CountAll(as_), next, next', next + SizeAll(as_));
    }
  }

  lemma {:induction false} EvaluatedSon(cx: Context, a: Ann, c: Core, n: Node, next: nat, lo: nat, st: Store)
    requires Evaluates(cx, a, c, next, lo, st) && Buildable(cx.cat, a, |cx.values|) && n == Tree(cx, a, next)
    ensures Shaped(st) && Fits(n, |st.vecs|, |st.tmp|)
    ensures var (w, st') := Eval(cx.cat, n, st, cx.limit);
      && w == Image(Sem(cx.cat, c, cx.env, cx.limit)) && (w.None? ==> Sem(cx.cat, c, cx.env, cx.limit) == None)
      && Frame(st, st', lo, lo + Count(a), next, next + Size(a))
  {
    hide Shaped, Fits, Eval, Sem, Frame, Subtree, Buildable, Count, Size;
  }

  lemma {:induction false} Totals(as_: seq<Ann>)
    requires as_ != []
    ensures CountAll(as_) == Count(as_[0]) + CountAll(as_[1..]) && SizeAll(as_) == Size(as_[0]) + SizeAll(as_[1..])
  {}

  lemma SameLengths(st: Store, st': Store)
    requires SameShape(st, st')
    ensures Shaped(st') && |st'.vecs| == |st.vecs| && |st'.tmp| == |st.tmp|
  {}

  lemma FrameNone(st: Store, lo: nat, hi: nat, from: nat, to: nat)
    requires Shaped(st) && UpperNull(st)
    ensures Frame(st, st, lo, hi, from, to)
  {}

  lemma {:induction false} RestOfSons(cx: Context, as_: seq<Ann>, cs: seq<Core>, id: nat, i: nat, next: nat, lo: nat,
                                      lazy: bool,
                                      st: Store, st1: Store, st2: Store)
    requires PremiseAll(cx, as_, cs, next, lo, st) && as_ != []
    requires id < next && id < |st.tmp| && i + |as_| <= MAXARG
    requires Frame(st, st1, lo, lo + Count(as_[0]), next, next + Size(as_[0]))
    requires Frame(st1, st2, 0, 0, id, id + 1) && st2.tmp[id][..i] == st1.tmp[id][..i]
    ensures var next', lo' := next + Size(as_[0]), lo + Count(as_[0]);
      var rest := Trees(cx, as_[1..], next', lazy);
      && FitsAll(rest, |st.vecs|, |st.tmp|)
      && SonsEvaluated(cx, cs[1..], rest, id, i + 1, lazy, st2, lo', lo + CountAll(as_), next', next + SizeAll(as_))
    ensures SonsFrame(st, st2, id, lo, lo + Count(as_[0]), next, next + Size(as_[0]))
    decreases as_, 0, 0
  {
    HoldsKept(cx, st, st2, lo, lo + Count(as_[0]));
    forall k | 0 <= k < |cs[1..]| ensures SupportedArg(cx.cat, cs[1..][k]) { assert cs[1..][k] == cs[k + 1]; }
    EvalSonsCorrect(cx, as_[1..], cs[1..], id, i + 1, next + Size(as_[0]), lo + Count(as_[0]), lazy, st2);
  }

  ghost predicate RunsAs(cx: Context, c: Core, vm: ValueMap, view: seq<Option<Value>>, sons: seq<Node>, id: nat,
                         answers: seq<Value>, st: Store, fuel: nat, lo: nat, hi: nat, from: nat, to: nat)
    requires Shaped(st) && id < |st.tmp| && |sons| <= MAXARG && FitsAll(sons, |st.vecs|, |st.tmp|) && c.Operation?
  {
    var (w, st') := RunOp(cx.cat, id, vm, sons, answers, st, fuel, cx.limit);
    w == Image(Run(cx.cat, c, vm, view, cx.env, answers, fuel, cx.limit)) && Frame(st, st', lo, hi, from, to)
  }

  /** A path leads to a node exactly where it leads to a term, and the node is a function where the term is. */
  ghost predicate MirrorsAt(sons: seq<Node>, cs: seq<Core>, path: seq<nat>) {
    && NodeAt(sons, path).Some? == At(cs, path).Some?
    && (At(cs, path).Some? ==>
          var n, c := NodeAt(sons, path).value, At(cs, path).value;
          n.isFun == c.Function? && (c.Function? ==> n.arity == |c.params| <= MAXARG))
  }

  lemma {:induction false} RunOpStops(cx: Context, c: Core, vm: ValueMap, view: seq<Option<Value>>, sons: seq<Node>,
                                      id: nat,
                                      answers: seq<Value>, st: Store, fuel: nat, lo: nat, hi: nat, from: nat, to: nat)
    requires Shaped(st) && id < |st.tmp| && |sons| <= MAXARG && FitsAll(sons, |st.vecs|, |st.tmp|) && c.Operation?
    requires UpperNull(st) && |sons| == |c.args| == |view| && View(st.tmp[id][..|sons|]) == view
    requires !Serves(vm(view, answers), sons, fuel)
    requires vm(view, answers).Ask? ==> MirrorsAt(sons, c.args, vm(view, answers).path)
    ensures RunsAs(cx, c, vm, view, sons, id, answers, st, fuel, lo, hi, from, to)
  {}

  lemma {:induction false} RunOpUnfolds(cat: Catalog, id: nat, vm: ValueMap, sons: seq<Node>, answers: seq<Value>,
                                        st: Store,
                                        st0: Store, fuel: nat, limit: nat, move: Move)
    requires Shaped(st) && id < |st.tmp| && |sons| <= MAXARG && FitsAll(sons, |st.vecs|, |st.tmp|)
    requires move == vm(View(st.tmp[id][..|sons|]), answers) && Serves(move, sons, fuel)
    requires var son := NodeAt(sons, move.path).value;
      Fits(son, |st.vecs|, |st.tmp|) && st0 == if son.isFun then Load(st, son.funNo, Vals(move.args)) else st
    ensures var (w, st1) := Eval(cat, NodeAt(sons, move.path).value, st0, limit);
      RunOp(cat, id, vm, sons, answers, st, fuel, limit) ==
        if w.None? || !w.value.Val? then (None, st1)
        else RunOp(cat, id, vm, sons, answers + [w.value.value], st1, fuel - 1, limit)
  {}

  lemma {:induction false} RunUnfolds(cat: Catalog, c: Core, vm: ValueMap, view: seq<Option<Value>>, env: Env,
                                      answers: seq<Value>, fuel: nat, limit: nat)
    requires c.Operation? && fuel > 0
    requires var move := vm(view, answers);
      move.Ask? && At(c.args, move.path).Some? && (!At(c.args, move.path).value.Function? ==> move.args == [])
    ensures var move := vm(view, answers); var arg := At(c.args, move.path).value;
      var answer := if arg.Function? then Call(cat, arg, move.args, env, limit) else Sem(cat, arg, env, limit);
      Run(cat, c, vm, view, env, answers, fuel, limit) ==
        if answer.None? then None else Run(cat, c, vm, view, env, answers + [answer.value], fuel - 1, limit)
  {}

  lemma {:induction false} PathMirrors(cx: Context, as_: seq<Ann>, cs: seq<Core>, next: nat, lo: nat, lazy: bool,
                                       path: seq<nat>, st: Store)
    requires PremiseAll(cx, as_, cs, next, lo, st)
    ensures MirrorsAt(Trees(cx, as_, next, lazy), cs, path)
  {
    if At(cs, path).None? {
      NothingAt(cx, as_, cs, next, lo, lazy, path, st);
    } else {
      var a, from, lo' := PickAt(cx, as_, cs, next, lo, lazy, path, st);
      SubtreeMirrors(cx, a, At(cs, path).value, from, lo');
    }
  }

  lemma MatchesLength(as_: seq<Ann>, cs: seq<Core>, scope: VarTable, values: seq<Value>)
    requires MatchesAll(as_, cs, scope, values)
    ensures |as_| == |cs|
  {}

  lemma FrameTwice(st: Store, st1: Store, st2: Store, lo: nat, hi: nat, from: nat, to: nat)
    requires Frame(st, st1, lo, hi, from, to) && Frame(st1, st2, lo, hi, from, to)
    ensures Frame(st, st2, lo, hi, from, to)
  {}

  lemma FrameKeepsNode(st: Store, st': Store, lo: nat, hi: nat, from: nat, to: nat, id: nat)
    requires Frame(st, st', lo, hi, from, to) && id < from && id < |st.tmp|
    ensures st'.tmp[id] == st.tmp[id]
  {}

  /** The operator sees the same arguments and gets the same answers as in the environment semantics. */
  lemma {:induction false} RunOpCorrect(cx: Context, as_: seq<Ann>, c: Core, lazy: bool, id: nat, vm: ValueMap,
                                        view: seq<Option<Value>>,
                                        answers: seq<Value>, next: nat, lo: nat, st: Store, fuel: nat)
    requires c.Operation? && PremiseAll(cx, as_, c.args, next, lo, st)
    requires id < next && id < |st.tmp| && |as_| == |view| <= MAXARG
    requires View(st.tmp[id][..|view|]) == view
    ensures FitsAll(Trees(cx, as_, next, lazy), |st.vecs|, |st.tmp|)
    ensures RunsAs(cx, c, vm, view, Trees(cx, as_, next, lazy), id, answers, st, fuel,
                   lo, lo + CountAll(as_), next, next + SizeAll(as_))
    decreases as_, 1, fuel
  {
    hide *;
    AllFit(cx, as_, c.args, next, lo, lazy, st);
    PremiseParts(cx, as_, c.args, next, lo, st);
    var sons := Trees(cx, as_, next, lazy);
    var move := vm(view, answers);
    if move.Ask? { PathMirrors(cx, as_, c.args, next, lo, lazy, move.path, st); }
    if !Serves(move, sons, fuel) {
      RunOpStops(cx, c, vm, view, sons, id, answers, st, fuel, lo, lo + CountAll(as_), next, next + SizeAll(as_));
    } else {
      ServesAsk(move, sons, fuel);
      ServesPath(move, sons, c.args, fuel);
      var st0, w, st1 := RequestCorrect(cx, as_, c.args, lazy, move, next, lo, st, fuel);
      RunOpUnfolds(cx.cat, id, vm, sons, answers, st, st0, fuel, cx.limit, move);
      RunUnfolds(cx.cat, c, vm, view, cx.env, answers, fuel, cx.limit);
      if w.Some? && w.value.Val? {
        FrameKeepsNode(st, st1, lo, lo + CountAll(as_), next, next + SizeAll(as_), id);
        FrameLengths(st, st1, lo, lo + CountAll(as_), next, next + SizeAll(as_));
        RunOpCorrect(cx, as_, c, lazy, id, vm, view, answers + [w.value.value], next, lo, st1, fuel - 1);
        RunsOneMore(cx, c, vm, view, sons, id, answers, st, st1, w.value.value, fuel,
                    lo, lo + CountAll(as_), next, next + SizeAll(as_));
      } else {
        RunsNoMore(cx, c, vm, view, sons, id, answers, st, st1, fuel,
                   lo, lo + CountAll(as_), next, next + SizeAll(as_));
      }
    }
  }

  lemma {:induction false} PremiseParts(cx: Context, as_: seq<Ann>, cs: seq<Core>, next: nat, lo: nat, st: Store)
    requires PremiseAll(cx, as_, cs, next, lo, st)
    ensures |as_| == |cs| && BuildableAll(cx.cat, as_, |cx.values|) && Shaped(st) && UpperNull(st)
  {}

  lemma {:induction false} ServesAsk(move: Move, sons: seq<Node>, fuel: nat)
    requires Serves(move, sons, fuel)
    ensures move.Ask?
  {}

  lemma {:induction false} ServesPath(move: Move, sons: seq<Node>, cs: seq<Core>, fuel: nat)
    requires Serves(move, sons, fuel) && move.Ask? && MirrorsAt(sons, cs, move.path)
    ensures fuel > 0 && At(cs, move.path).Some? && NodeAt(sons, move.path).Some?
    ensures !At(cs, move.path).value.Function? ==> move.args == []
    ensures At(cs, move.path).value.Function? ==> |move.args| == |At(cs, move.path).value.params|
    ensures |move.args| <= MAXARG
  {}

  lemma FrameLengths(st: Store, st': Store, lo: nat, hi: nat, from: nat, to: nat)
    requires Frame(st, st', lo, hi, from, to)
    ensures SameShape(st, st') && Shaped(st') && UpperNull(st') && |st'.vecs| == |st.vecs| && |st'.tmp| == |st.tmp|
  {}

  /** A run that ends with a request that has no answer. */
  lemma {:induction false} RunsNoMore(cx: Context, c: Core, vm: ValueMap, view: seq<Option<Value>>, sons: seq<Node>,
                                      id: nat, answers: seq<Value>, st: Store, st1: Store, fuel: nat,
                                      lo: nat, hi: nat, from: nat, to: nat)
    requires Shaped(st) && id < |st.tmp| && |sons| <= MAXARG && FitsAll(sons, |st.vecs|, |st.tmp|) && c.Operation?
    requires Frame(st, st1, lo, hi, from, to)
    requires RunOp(cx.cat, id, vm, sons, answers, st, fuel, cx.limit) == (None, st1)
    requires Run(cx.cat, c, vm, view, cx.env, answers, fuel, cx.limit) == None
    ensures RunsAs(cx, c, vm, view, sons, id, answers, st, fuel, lo, hi, from, to)
  {
    hide Frame, RunOp, Run, Fits, FitsAll, Shaped;
  }

  /** A run that continues as another one, after steps within the frame. */
  lemma {:induction false} RunsOneMore(cx: Context, c: Core, vm: ValueMap, view: seq<Option<Value>>, sons: seq<Node>,
                                       id: nat,
                                       answers: seq<Value>, st: Store, st1: Store, v: Value, fuel: nat,
                                       lo: nat, hi: nat, from: nat, to: nat)
    requires Shaped(st) && id < |st.tmp| && |sons| <= MAXARG && FitsAll(sons, |st.vecs|, |st.tmp|) && c.Operation?
    requires Shaped(st1) && id < |st1.tmp| && FitsAll(sons, |st1.vecs|, |st1.tmp|) && fuel > 0
    requires Frame(st, st1, lo, hi, from, to)
      && RunsAs(cx, c, vm, view, sons, id, answers + [v], st1, fuel - 1, lo, hi, from, to)
    requires RunOp(cx.cat, id, vm, sons, answers, st, fuel, cx.limit)
          == RunOp(cx.cat, id, vm, sons, answers + [v], st1, fuel - 1, cx.limit)
    requires Run(cx.cat, c, vm, view, cx.env, answers, fuel, cx.limit)
          == Run(cx.cat, c, vm, view, cx.env, answers + [v], fuel - 1, cx.limit)
    ensures RunsAs(cx, c, vm, view, sons, id, answers, st, fuel, lo, hi, from, to)
  {
    hide Frame, RunOp, Run, Fits, FitsAll, Shaped;
    FrameTwice(st, st1, RunOp(cx.cat, id, vm, sons, answers, st, fuel, cx.limit).1, lo, hi, from, to);
  }

  /** One served request, with the store before and after it. */
  lemma {:induction false} RequestCorrect(cx: Context, as_: seq<Ann>, cs: seq<Core>, lazy: bool, move: Move, next: nat,
                                          lo: nat, st: Store, fuel: nat)
      returns (st0: Store, w: Option<Word>, st1: Store)
    requires PremiseAll(cx, as_, cs, next, lo, st) && Shaped(st)
    requires Serves(move, Trees(cx, as_, next, lazy), fuel) && At(cs, move.path).Some?
    requires |move.args| == if At(cs, move.path).value.Function? then |At(cs, move.path).value.params| else 0
    ensures var son := NodeAt(Trees(cx, as_, next, lazy), move.path).value;
      && Fits(son, |st.vecs|, |st.tmp|)
      && st0 == (if son.isFun then Load(st, son.funNo, Vals(move.args)) else st)
      && (w, st1) == Eval(cx.cat, son, st0, cx.limit)
    ensures (if w.Some? && w.value.Val? then Some(w.value.value) else None) ==
            if At(cs, move.path).value.Function? then Call(cx.cat, At(cs, move.path).value, move.args, cx.env, cx.limit)
            else Sem(cx.cat, At(cs, move.path).value, cx.env, cx.limit)
    ensures PremiseAll(cx, as_, cs, next, lo, st1)
    ensures Frame(st, st1, lo, lo + CountAll(as_), next, next + SizeAll(as_))
    decreases as_, 0, 0
  {
    hide *;
    PremiseParts(cx, as_, cs, next, lo, st);
    ServesNode(move, Trees(cx, as_, next, lazy), fuel);
    var a, from, lo' := PickAt(cx, as_, cs, next, lo, lazy, move.path, st);
    var c := At(cs, move.path).value;
    PremiseBuilds(cx, a, c, from, lo', st);
    var son := NodeAt(Trees(cx, as_, next, lazy), move.path).value;
    AnswerCorrect(cx, a, c, move.args, from, lo', st);
    st0, w, st1 := AnswerOf(cx, a, c, son, move.args, from, lo', st);
    FrameWider(st, st1, lo', lo' + Count(a), from, from + Size(a), lo, lo + CountAll(as_), next, next + SizeAll(as_));
    PremiseKept(cx, as_, cs, next, lo, st, st1);
  }

  lemma {:induction false} PremiseBuilds(cx: Context, a: Ann, c: Core, next: nat, lo: nat, st: Store)
    requires Premise(cx, a, c, next, lo, st)
    ensures Buildable(cx.cat, a, |cx.values|)
  {}

  lemma {:induction false} ServesNode(move: Move, sons: seq<Node>, fuel: nat)
    requires Serves(move, sons, fuel)
    ensures move.Ask? && |move.args| <= MAXARG && NodeAt(sons, move.path).Some?
  {}

  /** A request runs inside the vectors of its arguments, so everything stays in place for the next one. */
  lemma {:induction false} PremiseKept(cx: Context, as_: seq<Ann>, cs: seq<Core>, next: nat, lo: nat, st: Store,
                                       st1: Store)
    requires PremiseAll(cx, as_, cs, next, lo, st)
    requires Frame(st, st1, lo, lo + CountAll(as_), next, next + SizeAll(as_))
    ensures PremiseAll(cx, as_, cs, next, lo, st1)
  {
    HoldsKept(cx, st, st1, lo, lo);
  }

  lemma {:induction false} AnswerOf(cx: Context, a: Ann, c: Core, son: Node, args: seq<Value>, next: nat, lo: nat,
                                    st: Store)
      returns (st0: Store, w: Option<Word>, st1: Store)
    requires Answers(cx, a, c, args, next, lo, st) && IsTreeOf(cx, Some(son), a, next)
    ensures Shaped(st) && |args| <= MAXARG && Fits(son, |st.vecs|, |st.tmp|)
    ensures st0 == (if son.isFun then Load(st, son.funNo, Vals(args)) else st)
    ensures (w, st1) == Eval(cx.cat, son, st0, cx.limit)
    ensures (if w.Some? && w.value.Val? then Some(w.value.value) else None) ==
            if c.Function? then Call(cx.cat, c, args, cx.env, cx.limit) else Sem(cx.cat, c, cx.env, cx.limit)
    ensures Frame(st, st1, lo, lo + Count(a), next, next + Size(a))
  {
    hide EvalKind, Subtree, Sem, Call, Frame, FitsKind;
    st0 := if son.isFun then Load(st, son.funNo, Vals(args)) else st;
    w, st1 := Eval(cx.cat, son, st0, cx.limit).0, Eval(cx.cat, son, st0, cx.limit).1;
  }

  /** What a request returns: the value of the argument, or of the function on the given parameters. */
  ghost predicate Answers(cx: Context, a: Ann, c: Core, args: seq<Value>, next: nat, lo: nat, st: Store) {
    && Shaped(st) && Buildable(cx.cat, a, |cx.values|) && |args| <= MAXARG
    && var n := Tree(cx, a, next);
    && Fits(n, |st.vecs|, |st.tmp|)
    && var st0 := if n.isFun then Load(st, n.funNo, Vals(args)) else st;
    && var (w, st1) := Eval(cx.cat, n, st0, cx.limit);
    && (if w.Some? && w.value.Val? then Some(w.value.value) else None)
       == (if c.Function? then Call(cx.cat, c, args, cx.env, cx.limit) else Sem(cx.cat, c, cx.env, cx.limit))
    && Frame(st, st1, lo, lo + Count(a), next, next + Size(a))
  }

  lemma {:induction false} AnswerCorrect(cx: Context, a: Ann, c: Core, args: seq<Value>, next: nat, lo: nat, st: Store)
    requires Premise(cx, a, c, next, lo, st) && !c.Arguments?
    requires |args| == if c.Function? then |c.params| else 0
    ensures Answers(cx, a, c, args, next, lo, st)
    decreases a, 3, 0
  {
    SubtreeMirrors(cx, a, c, next, lo);
    SubtreeFits(cx, a, c, next, lo, st);
    if c.Function? {
      CallCorrect(cx, a, c, args, next, lo, st);
    } else if c.Identifier? {
      IdentifierTree(cx, a, c, next);
    } else {
      EvalCorrect(cx, a, c, next, lo, st);
    }
  }

  ghost predicate CallsAs(cx: Context, a: Ann, c: Core, vals: seq<Value>, next: nat, lo: nat, st: Store) {
    && Shaped(st) && Buildable(cx.cat, a, |cx.values|) && |vals| <= MAXARG && c.Function?
    && var n := Tree(cx, a, next);
    && Fits(n, |st.vecs|, |st.tmp|) && n.isFun
    && var (w, st') := Eval(cx.cat, n, Load(st, n.funNo, Vals(vals)), cx.limit);
    && w == Image(Call(cx.cat, c, vals, cx.env, cx.limit))
    && Frame(st, st', lo, lo + Count(a), next, next + Size(a))
  }

  lemma {:induction false} CallCorrect(cx: Context, a: Ann, c: Core, vals: seq<Value>, next: nat, lo: nat, st: Store)
    requires Premise(cx, a, c, next, lo, st) && c.Function? && |vals| == |c.params|
    ensures CallsAs(cx, a, c, vals, next, lo, st)
    decreases a, 1, 0
  {
    hide *;
    CallNode(cx, a, c, next, lo, st);
    if a.WrapperA? {
      WrapperPremise(cx, a, c, next, lo, st);
      CallCorrect(cx, a.body, c, vals, next, lo, st);
      WrapperCalls(cx, a, c, vals, next, lo, st);
    } else {
      CallPremise(cx, a, c, vals, next, lo, st);
      EvalCorrect(Inner(cx, a, c, vals, lo), a.body, c.body, next, lo + 1, Load(st, lo + 1, Vals(vals)));
      CallEvaluates(cx, a, c, vals, next, lo, st);
    }
  }

  lemma {:induction false} CallNode(cx: Context, a: Ann, c: Core, next: nat, lo: nat, st: Store)
    requires Premise(cx, a, c, next, lo, st) && c.Function?
    ensures a.WrapperA? || a.AbstractionA?
    ensures Shaped(st) && Buildable(cx.cat, a, |cx.values|)
    ensures var n := Tree(cx, a, next); Fits(n, |st.vecs|, |st.tmp|) && n.isFun && n.funNo == lo + 1
  {
    SubtreeMirrors(cx, a, c, next, lo);
    SubtreeFits(cx, a, c, next, lo, st);
  }

  lemma {:induction false} WrapperCalls(cx: Context, a: Ann, c: Core, vals: seq<Value>, next: nat, lo: nat, st: Store)
    requires Premise(cx, a, c, next, lo, st) && a.WrapperA? && CallsAs(cx, a.body, c, vals, next, lo, st)
    ensures CallsAs(cx, a, c, vals, next, lo, st)
  {
    SubtreeFits(cx, a, c, next, lo, st);
  }

  /** The context of a function's body once its parameters are loaded. */
  ghost function Inner(cx: Context, a: Ann, c: Core, vals: seq<Value>, lo: nat): Context
    requires a.AbstractionA? && c.Function? && |a.params| == |c.params| == |vals|
  {
    cx.(scope := Enter(OuterScope(cx, c), c.params, a.params, lo + 1, 1),
        env := Bind(OuterEnv(cx, c), c.params, vals))
  }

  lemma {:induction false} CallPremise(cx: Context, a: Ann, c: Core, vals: seq<Value>, next: nat, lo: nat, st: Store)
    requires Premise(cx, a, c, next, lo, st) && a.AbstractionA? && c.Function? && |vals| == |c.params|
    ensures |a.params| == |c.params| && Shaped(st) && lo < |st.vecs| && 2 * |vals| <= MAXARG
    ensures Supported(Inner(cx, a, c, vals, lo).cat, c.body)
    ensures Premise(Inner(cx, a, c, vals, lo), a.body, c.body, next, lo + 1, Load(st, lo + 1, Vals(vals)))
    ensures Frame(st, Load(st, lo + 1, Vals(vals)), lo, lo + 1, 0, 0)
  {
    LoadHolds(cx, c, a.params, vals, lo, st);
  }

  lemma {:induction false} CallEvaluates(cx: Context, a: Ann, c: Core, vals: seq<Value>, next: nat, lo: nat, st: Store)
    requires Premise(cx, a, c, next, lo, st) && a.AbstractionA? && c.Function? && |a.params| == |vals| == |c.params|
    requires Shaped(st) && lo < |st.vecs| && 2 * |vals| <= MAXARG
    requires var n := Tree(cx, a, next); Fits(n, |st.vecs|, |st.tmp|) && n.isFun && n.funNo == lo + 1
    requires Frame(st, Load(st, lo + 1, Vals(vals)), lo, lo + 1, 0, 0)
    requires Evaluates(Inner(cx, a, c, vals, lo), a.body, c.body, next, lo + 1, Load(st, lo + 1, Vals(vals)))
    ensures CallsAs(cx, a, c, vals, next, lo, st)
  {
    hide Premise, Matches, Supported, SupportedArg, Bind, Enter;
    assert Tree(Inner(cx, a, c, vals, lo), a.body, next) == Tree(cx, a.body, next);
  }

  /** The parts of an operation, before anything is evaluated. */
  lemma {:induction false} OperationParts(cx: Context, a: Ann, c: Core, next: nat, lo: nat, st: Store)
    requires Premise(cx, a, c, next, lo, st) && Supported(cx.cat, c) && a.ApplyOpA?
    ensures c.Operation? && |c.args| == |a.args| <= MAXARG && 0 <= a.opFunId && a.id.alg != 0
    ensures Buildable(cx.cat, a, |cx.values|)
    ensures MapFor(cx.cat, c.id, c.fun) == ValueMapOf(cx.cat, a.id.alg, a.opFunId)
    ensures PremiseAll(cx, a.args, c.args, next + 1, lo, st)
    ensures var n, lazy := Tree(cx, a, next), Lazy(cx.cat, c.id);
      && BuildableAll(cx.cat, a.args, |cx.values|) && Shaped(st) && Fits(n, |st.vecs|, |st.tmp|)
      && n.id == next < |st.tmp|
      && n.kind == Oper(a.id.alg, a.opFunId, Trees(cx, a.args, next + 1, lazy))
      && Count(a) == CountAll(a.args) && Size(a) == 1 + SizeAll(a.args)
  {
    CombineSplits(c.fun, c.id.op);
    SubtreeFits(cx, a, c, next, lo, st);
    MatchesLength(a.args, c.args, cx.scope, cx.values);
  }

  lemma {:induction false} OperationUnfolds(cat: Catalog, n: Node, alg: nat, opFunId: nat, sons: seq<Node>, st: Store,
                                            limit: nat)
    requires Shaped(st) && Fits(n, |st.vecs|, |st.tmp|) && n.kind == Oper(alg, opFunId, sons) && alg != 0
    ensures |sons| <= MAXARG && FitsAll(sons, |st.vecs|, |st.tmp|)
    ensures var (ok, st1) := EvalSons(cat, n.id, 0, sons, st, limit);
      Eval(cat, n, st, limit) ==
        if !ok || ValueMapOf(cat, alg, opFunId).None? then (None, st1)
        else RunOp(cat, n.id, ValueMapOf(cat, alg, opFunId).value, sons, [], st1, limit, limit)
  {
    hide EvalSons, RunOp, ValueMapOf, Shaped;
  }

  lemma {:induction false} OperationResult(cat: Catalog, c: Core, env: Env, limit: nat)
    requires c.Operation?
    ensures var vm, view := MapFor(cat, c.id, c.fun), SemArgs(cat, c.args, Lazy(cat, c.id), env, limit);
      Sem(cat, c, env, limit) ==
        if vm.None? || view.None? then None else Run(cat, c, vm.value, view.value, env, [], limit, limit)
  {
    hide MapFor, SemArgs, Run;
  }

  /** The operator's vector once its sons are evaluated. */
  lemma {:induction false} OperationView(cx: Context, as_: seq<Ann>, cs: seq<Core>, sons: seq<Node>, id: nat,
                                         lazy: bool,
                                         lo: nat, st: Store)
    requires PremiseAll(cx, as_, cs, id + 1, lo, st) && Shaped(st) && id < |st.tmp| && |sons| == |as_| == |cs| <= MAXARG
    requires FitsAll(sons, |st.vecs|, |st.tmp|)
    requires SonsEvaluated(cx, cs, sons, id, 0, lazy, st, lo, lo + CountAll(as_), id + 1, id + 1 + SizeAll(as_))
    ensures var (ok, st1) := EvalSons(cx.cat, id, 0, sons, st, cx.limit);
      var view := SemArgs(cx.cat, cs, lazy, cx.env, cx.limit);
      && ok == view.Some? && SameShape(st, st1)
      && (ok ==> View(st1.tmp[id][..|sons|]) == view.value && PremiseAll(cx, as_, cs, id + 1, lo, st1))
      && SonsFrame(st, st1, id, lo, lo + CountAll(as_), id + 1, id + 1 + SizeAll(as_))
  {
    var (ok, st1) := EvalSons(cx.cat, id, 0, sons, st, cx.limit);
    HoldsKept(cx, st, st1, lo, lo);
    hide EvalSons, SemArgs, Matches, MatchesAll, Holds, UpperNull, BuildableAll, NumberedAll, SupportedArg, FitsAll;
    var view := SemArgs(cx.cat, cs, lazy, cx.env, cx.limit);
    if ok { assert View(st1.tmp[id][..|sons|]) == view.value; }
  }

  lemma {:induction false} OperationFrame(st: Store, st1: Store, st2: Store, id: nat, lo: nat, hi: nat, to: nat)
    requires id < |st.tmp| && id < to && SonsFrame(st, st1, id, lo, hi, id + 1, to)
    requires st2 == st1 || Frame(st1, st2, lo, hi, id + 1, to)
    ensures Frame(st, st2, lo, hi, id, to)
  {}

  lemma {:induction false} OperationRuns(cx: Context, c: Core, vm: ValueMap, view: seq<Option<Value>>, sons: seq<Node>,
                                         id: nat, st: Store, lo: nat, hi: nat, from: nat, to: nat)
    requires Shaped(st) && id < |st.tmp| && |sons| <= MAXARG && FitsAll(sons, |st.vecs|, |st.tmp|) && c.Operation?
    requires RunsAs(cx, c, vm, view, sons, id, [], st, cx.limit, lo, hi, from, to)
    ensures var (w, st') := RunOp(cx.cat, id, vm, sons, [], st, cx.limit, cx.limit);
      w == Image(Run(cx.cat, c, vm, view, cx.env, [], cx.limit, cx.limit)) && Frame(st, st', lo, hi, from, to)
  {}

  lemma {:induction false} OperationCorrect(cx: Context, a: Ann, c: Core, next: nat, lo: nat, st: Store)
    requires Premise(cx, a, c, next, lo, st) && Supported(cx.cat, c) && a.ApplyOpA?
    ensures Evaluates(cx, a, c, next, lo, st)
    decreases a, 1, 0
  {
    hide *;
    OperationParts(cx, a, c, next, lo, st);
    var n, lazy := Tree(cx, a, next), Lazy(cx.cat, c.id);
    var sons := Trees(cx, a.args, next + 1, lazy);
    var hi, to := lo + CountAll(a.args), next + 1 + SizeAll(a.args);
    OperationUnfolds(cx.cat, n, a.id.alg, a.opFunId, sons, st, cx.limit);
    EvalSonsCorrect(cx, a.args, c.args, next, 0, next + 1, lo, lazy, st);
    OperationView(cx, a.args, c.args, sons, next, lazy, lo, st);
    OperationResult(cx.cat, c, cx.env, cx.limit);
    var (ok, st1) := EvalSons(cx.cat, next, 0, sons, st, cx.limit);
    var view := SemArgs(cx.cat, c.args, lazy, cx.env, cx.limit);
    var vm := MapFor(cx.cat, c.id, c.fun);
    SameLengths(st, st1);
    if ok && vm.Some? {
      RunOpCorrect(cx, a.args, c, lazy, next, vm.value, view.value, [], next + 1, lo, st1, cx.limit);
      OperationRuns(cx, c, vm.value, view.value, sons, next, st1, lo, hi, next + 1, to);
      OperationFrame(st, st1, RunOp(cx.cat, next, vm.value, sons, [], st1, cx.limit, cx.limit).1, next, lo, hi, to);
    } else {
      OperationFrame(st, st1, st1, next, lo, hi, to);
    }
    NoImage();
    ApplicationEvaluates(cx, a, c, n, next, lo, st);
  }

  lemma NoImage()
    ensures Image(None) == None
  {}

  lemma CombineSplits(fun: nat, op: nat)
    requires op < OP_LIMIT
    ensures Combine(fun, op) % OP_LIMIT == op && Combine(fun, op) / OP_LIMIT == fun
  {}

  lemma {:induction false} ValuesAreArgs(cat: Catalog, cs: seq<Core>, env: Env, limit: nat)
    requires forall i :: 0 <= i < |cs| ==> IsValueTerm(cs[i])
    ensures var vals, view := SemValues(cat, cs, env, limit), SemArgs(cat, cs, false, env, limit);
      && vals.Some? == view.Some?
      && (vals.Some? ==> forall i :: 0 <= i < |cs| ==> view.value[i] == Some(vals.value[i]))
    decreases |cs|
  {
    if cs != [] {
      forall i | 0 <= i < |cs[1..]| ensures IsValueTerm(cs[1..][i]) { assert cs[1..][i] == cs[i + 1]; }
      ValuesAreArgs(cat, cs[1..], env, limit);
    }
  }

  lemma {:induction false} ApplicationUnfolds(cat: Catalog, n: Node, f: Node, rest: seq<Node>, st: Store, st0: Store,
                                              limit: nat)
    requires Shaped(st) && Fits(n, |st.vecs|, |st.tmp|) && n.kind == Oper(0, 0, [f] + rest) && !f.evaluable
    requires st0 == SetTmp(st, n.id, 0, NodeRef(f.id))
    ensures FitsAll(rest, |st.vecs|, |st.tmp|) && Fits(f, |st.vecs|, |st.tmp|) && f.isFun && 1 + |rest| <= MAXARG
    ensures var (ok, st1) := EvalSons(cat, n.id, 1, rest, st0, limit);
      Eval(cat, n, st, limit) ==
        if !ok then (None, st1) else Eval(cat, f, Load(st1, f.funNo, st1.tmp[n.id][1..1 + |rest|]), limit)
  {
    var sons := [f] + rest;
    assert sons[0] == f && sons[1..] == rest && |sons| == 1 + |rest|;
    assert FitsAll(sons, |st.vecs|, |st.tmp|);
    assert EvalSons(cat, n.id, 0, sons, st, limit) == EvalSons(cat, n.id, 1, rest, st0, limit);
    assert Eval(cat, n, st, limit) == EvalKind(cat, n.id, n.isStream, Oper(0, 0, sons), st, limit);
  }

  lemma {:induction false} ApplicationFrame(st: Store, st0: Store, st1: Store, st2: Store, id: nat, lo: nat, mid: nat,
                                            hi: nat,
                                            half: nat, to: nat)
    requires lo <= mid <= hi && id < half <= to && id < |st.tmp|
    requires Frame(st, st0, 0, 0, id, id + 1) && SonsFrame(st0, st1, id, mid, hi, half, to)
    requires Frame(st1, st2, lo, mid, id + 1, half)
    ensures Frame(st, st2, lo, hi, id, to)
  {}

  /** The parts of an applied abstraction, before anything is evaluated. */
  lemma {:induction false} ApplicationParts(cx: Context, a: Ann, c: Core, next: nat, lo: nat, st: Store)
    requires Premise(cx, a, c, next, lo, st) && Supported(cx.cat, c) && a.ApplyAbsA?
    ensures c.Application? && c.fn.Function? && |c.args| == |a.args| == |c.fn.params| < MAXARG
    ensures Premise(cx, a.fn, c.fn, next + 1, lo, st)
    ensures Buildable(cx.cat, a, |cx.values|) && Buildable(cx.cat, a.fn, |cx.values|)
    ensures Shaped(st) && lo + Count(a.fn) <= |st.vecs|
    ensures var n, f := Tree(cx, a, next), Tree(cx, a.fn, next + 1);
      var next', lo' := next + 1 + Size(a.fn), lo + Count(a.fn);
      && BuildableAll(cx.cat, a.args, |cx.values|) && Fits(n, |st.vecs|, |st.tmp|) && n.id == next < |st.tmp|
      && !f.evaluable
      && n.kind == Oper(0, 0, [f] + Trees(cx, a.args, next', false)) && !n.isStream
      && PremiseAll(cx, a.args, c.args, next', lo', SetTmp(st, next, 0, NodeRef(f.id)))
      && Frame(st, SetTmp(st, next, 0, NodeRef(f.id)), 0, 0, next, next + 1)
      && lo + Count(a) == lo' + CountAll(a.args) && next + Size(a) == next' + SizeAll(a.args)
  {
    SubtreeFits(cx, a, c, next, lo, st);
    SubtreeSize(cx.cat, a, cx.values, next);
    SubtreeSize(cx.cat, a.fn, cx.values, next + 1);
    SubtreeMirrors(cx, a.fn, c.fn, next + 1, lo);
    SubtreeMirrors(cx, a, c, next, lo);
    SupportedIsArg(cx.cat, c.args);
    MatchesLength(a.args, c.args, cx.scope, cx.values);
    var st0 := SetTmp(st, next, 0, NodeRef(Tree(cx, a.fn, next + 1).id));
    FrameSlot(st, next, 0, NodeRef(Tree(cx, a.fn, next + 1).id));
    HoldsKept(cx, st, st0, lo, lo + Count(a.fn));
  }

  lemma {:induction false} ArgumentValues(cx: Context, cs: seq<Core>, rest: seq<Node>, id: nat, st0: Store,
                                          lo: nat, hi: nat, from: nat, to: nat)
    requires Shaped(st0) && id < |st0.tmp| && FitsAll(rest, |st0.vecs|, |st0.tmp|) && 1 + |rest| <= MAXARG
      && |rest| == |cs|
    requires forall i :: 0 <= i < |cs| ==> Supported(cx.cat, cs[i])
    requires SonsEvaluated(cx, cs, rest, id, 1, false, st0, lo, hi, from, to)
    ensures var (ok, st1) := EvalSons(cx.cat, id, 1, rest, st0, cx.limit);
      var vals := SemValues(cx.cat, cs, cx.env, cx.limit);
      && ok == vals.Some? && SameShape(st0, st1)
      && (ok ==> |vals.value| == |cs| && st1.tmp[id][1..1 + |rest|] == Vals(vals.value))
      && SonsFrame(st0, st1, id, lo, hi, from, to)
  {
    SupportedIsArg(cx.cat, cs);
    ValuesAreArgs(cx.cat, cs, cx.env, cx.limit);
  }

  lemma {:induction false} ApplicationCorrect(cx: Context, a: Ann, c: Core, next: nat, lo: nat, st: Store)
    requires Premise(cx, a, c, next, lo, st) && Supported(cx.cat, c) && a.ApplyAbsA?
    ensures Evaluates(cx, a, c, next, lo, st)
    decreases a, 1, 0
  {
    hide *;
    ApplicationParts(cx, a, c, next, lo, st);
    var n, f := Tree(cx, a, next), Tree(cx, a.fn, next + 1);
    var next', lo' := next + 1 + Size(a.fn), lo + Count(a.fn);
    var hi, to := lo + Count(a), next + Size(a);
    var rest := Trees(cx, a.args, next', false);
    var st0 := SetTmp(st, next, 0, NodeRef(f.id));
    var vals := SemValues(cx.cat, c.args, cx.env, cx.limit);
    SameLengths(st, st0);
    ApplicationUnfolds(cx.cat, n, f, rest, st, st0, cx.limit);
    ApplicationArguments(cx, a, c, next, lo, st, st0);
    var (ok, st1) := EvalSons(cx.cat, next, 1, rest, st0, cx.limit);
    if ok {
      ApplicationCall(cx, a.fn, c.fn, vals.value, next, lo, hi, st, st0, st1, next', to);
    } else {
      ApplicationStops(st, st0, st1, next, lo, lo', hi, next', to);
    }
    ApplicationResult(cx.cat, c, cx.env, cx.limit, vals);
    ApplicationEvaluates(cx, a, c, n, next, lo, st);
  }

  lemma {:induction false} ApplicationResult(cat: Catalog, c: Core, env: Env, limit: nat, vals: Option<seq<Value>>)
    requires c.Application? && c.fn.Function? && vals == SemValues(cat, c.args, env, limit)
    ensures Image(Sem(cat, c, env, limit))
            == if vals.None? then None else Image(Call(cat, c.fn, vals.value, env, limit))
  {}

  lemma {:induction false} ApplicationArguments(cx: Context, a: Ann, c: Core, next: nat, lo: nat, st: Store, st0: Store)
    requires Premise(cx, a, c, next, lo, st) && Supported(cx.cat, c) && a.ApplyAbsA? && c.Application?
    requires Buildable(cx.cat, a.fn, |cx.values|) && BuildableAll(cx.cat, a.args, |cx.values|)
    requires Shaped(st) && next < |st.tmp|
      && |a.args| < MAXARG
    requires st0 == SetTmp(st, next, 0, NodeRef(Tree(cx, a.fn, next + 1).id))
    requires PremiseAll(cx, a.args, c.args, next + 1 + Size(a.fn), lo + Count(a.fn), st0) && |c.args| == |a.args|
    requires lo + Count(a) == lo + Count(a.fn) + CountAll(a.args)
    requires next + Size(a) == next + 1 + Size(a.fn) + SizeAll(a.args)
    ensures var rest := Trees(cx, a.args, next + 1 + Size(a.fn), false);
      && FitsAll(rest, |st0.vecs|, |st0.tmp|)
      && var (ok, st1) := EvalSons(cx.cat, next, 1, rest, st0, cx.limit);
      var vals := SemValues(cx.cat, c.args, cx.env, cx.limit);
      && ok == vals.Some? && SameShape(st0, st1)
      && (ok ==> |vals.value| == |c.args| && st1.tmp[next][1..1 + |rest|] == Vals(vals.value))
      && SonsFrame(st0, st1, next, lo + Count(a.fn), lo + Count(a), next + 1 + Size(a.fn), next + Size(a))
    decreases a, 0, 1
  {
    assert forall i :: 0 <= i < |c.args| ==> Supported(cx.cat, c.args[i]);
    hide Premise, PremiseAll, Buildable, BuildableAll, Supported, EvalSons, SonsEvaluated, SemValues;
    hide SonsFrame, FitsAll, Subtree, SubtreeAll, Count, Size, CountAll, SizeAll;
    var next', lo' := next + 1 + Size(a.fn), lo + Count(a.fn);
    var rest := Trees(cx, a.args, next', false);
    EvalSonsCorrect(cx, a.args, c.args, next, 1, next', lo', false, st0);
    ArgumentValues(cx, c.args, rest, next, st0, lo', lo + Count(a), next', next + Size(a));
  }

  lemma {:induction false} ApplicationCall(cx: Context, fn: Ann, f: Core, vals: seq<Value>, next: nat, lo: nat, hi: nat,
                                           st: Store, st0: Store, st1: Store, half: nat, to: nat)
    requires Premise(cx, fn, f, next + 1, lo, st) && f.Function? && |vals| == |f.params| <= MAXARG
    requires lo + Count(fn) <= |st.vecs| && half <= |st.tmp|
    requires half == next + 1 + Size(fn) <= to && lo + Count(fn) <= hi && next < |st.tmp|
    requires Frame(st, st0, 0, 0, next, next + 1) && SonsFrame(st0, st1, next, lo + Count(fn), hi, half, to)
    ensures Buildable(cx.cat, fn, |cx.values|) && Shaped(st1)
    ensures var n := Tree(cx, fn, next + 1);
      && Fits(n, |st1.vecs|, |st1.tmp|) && n.isFun
      && (var (w, st2) := Eval(cx.cat, n, Load(st1, n.funNo, Vals(vals)), cx.limit);
          w == Image(Call(cx.cat, f, vals, cx.env, cx.limit)) && Frame(st, st2, lo, hi, next, to))
    decreases fn, 1, 1
  {
    ApplicationPremise(cx, fn, f, next, lo, st, st0, st1, half, lo + Count(fn), hi, to);
    CallCorrect(cx, fn, f, vals, next + 1, lo, st1);
    CalledResult(cx, fn, f, vals, next + 1, lo, st1);
    hide *;
    var n := Tree(cx, fn, next + 1);
    var st2 := Eval(cx.cat, n, Load(st1, n.funNo, Vals(vals)), cx.limit).1;
    ApplicationFrame(st, st0, st1, st2, next, lo, lo + Count(fn), hi, half, to);
  }

  lemma {:induction false} CalledResult(cx: Context, a: Ann, c: Core, vals: seq<Value>, next: nat, lo: nat, st: Store)
    requires CallsAs(cx, a, c, vals, next, lo, st)
    ensures var n := Tree(cx, a, next);
      && Fits(n, |st.vecs|, |st.tmp|) && n.isFun
      && (var (w, st') := Eval(cx.cat, n, Load(st, n.funNo, Vals(vals)), cx.limit);
          w == Image(Call(cx.cat, c, vals, cx.env, cx.limit))
          && Frame(st, st', lo, lo + Count(a), next, next + Size(a)))
  {}

  lemma {:induction false} ApplicationEvaluates(cx: Context, a: Ann, c: Core, n: Node, next: nat, lo: nat, st: Store)
    requires Shaped(st) && Buildable(cx.cat, a, |cx.values|) && n == Tree(cx, a, next) && Fits(n, |st.vecs|, |st.tmp|)
    requires var (w, st') := Eval(cx.cat, n, st, cx.limit);
      w == Image(Sem(cx.cat, c, cx.env, cx.limit)) && Frame(st, st', lo, lo + Count(a), next, next + Size(a))
    ensures Evaluates(cx, a, c, next, lo, st)
  {}

  lemma {:induction false} ApplicationStops(st: Store, st0: Store, st1: Store, id: nat, lo: nat, mid: nat, hi: nat,
                                            half: nat, to: nat)
    requires lo <= mid <= hi && id < half <= to && id < |st.tmp|
    requires Frame(st, st0, 0, 0, id, id + 1) && SonsFrame(st0, st1, id, mid, hi, half, to)
    ensures Frame(st, st1, lo, hi, id, to)
  {}

  /** Evaluating the arguments leaves everything in place for calling the function. */
  lemma {:induction false} ApplicationPremise(cx: Context, fn: Ann, f: Core, next: nat, lo: nat, st: Store, st0: Store,
                                              st1: Store,
                                              half: nat, mid: nat, hi: nat, to: nat)
    requires Premise(cx, fn, f, next + 1, lo, st) && mid == lo + Count(fn) <= |st.vecs|
      && half == next + 1 + Size(fn) <= |st.tmp|
    requires Frame(st, st0, 0, 0, next, next + 1) && SonsFrame(st0, st1, next, mid, hi, half, to)
    ensures Premise(cx, fn, f, next + 1, lo, st1)
  {
    HoldsKept(cx, st, st1, lo, lo);
  }
}
