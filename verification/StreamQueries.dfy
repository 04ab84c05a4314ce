/**
 Stream queries through the whole compiler. `Subtree` builds a tree whose nodes for stream operators are a
 stream of the protocol: its nodes have indices of their own, its functions numbers of their own, and what it
 denotes over the argument vectors is what the query means under lexical scoping.
 */
module StreamQueries {
  import opened Wrappers
  import opened QuerySyntax
  import opened Annotation
  import opened Meaning
  import opened AnnotationCorrect
  import opened OperatorTree
  import opened EvaluationCorrect
  import opened Building
  import opened Compilation
  import opened QueryProcessing
  import S = StreamProtocol

  // ---------------------------------------------------------------- the stream operators of the algebras

  datatype Role = Feeding | Filtering | Heading | Joining | Consuming | Comparing(test: (S.Word, S.Word) -> bool)

  /** What operators do, by algebra and combined number, and how an opaque value reads. */
  datatype Algebras = Algebras(roles: map<(nat, int), Role>, read: Value -> S.Word)

  function RoleAt(q: Algebras, alg: nat, opFunId: int): Option<Role> {
    if (alg, opFunId) in q.roles then Some(q.roles[(alg, opFunId)]) else None
  }

  function RoleIn(q: Algebras, c: Core): Option<Role> {
    if c.Operation? then RoleAt(q, c.id.alg, Combine(c.fun, c.id.op)) else None
  }

  // ---------------------------------------------------------------- the lexical reading

  /** The term is a stream built by these operators. */
  predicate IsStream(q: Algebras, c: Core)
    decreases c
  {
    c.Operation? && c.ty.Stream? &&
    match RoleIn(q, c)
    case Some(Feeding) => |c.args| == 1 && IsSimple(q, c.args[0])
    case Some(Filtering) => |c.args| == 2 && IsStream(q, c.args[0]) && IsTest(q, c.args[1])
    case Some(Heading) => |c.args| == 2 && IsStream(q, c.args[0]) && IsSimple(q, c.args[1])
    case Some(Joining) => |c.args| == 2 && IsStream(q, c.args[0]) && IsStream(q, c.args[1])
    case _ => false
  }

  /** The term has a value: a constant, a parameter, or a stream consumed. */
  predicate IsSimple(q: Algebras, c: Core)
    decreases c
  {
    match c
    case Constant(_) => true
    case Variable(_, ty) => !ty.Stream?
    case Operation(_, _, args, ty) =>
      !ty.Stream? && RoleIn(q, c).Some? && RoleIn(q, c).value.Consuming? && |args| == 1 && IsStream(q, args[0])
    case _ => false
  }

  /** A function of one parameter that compares two such terms. */
  predicate IsTest(q: Algebras, c: Core)
    decreases c
  {
    && c.Function? && |c.params| == 1 && RoleIn(q, c.body).Some? && RoleIn(q, c.body).value.Comparing?
    && |c.body.args| == 2 && IsSimple(q, c.body.args[0]) && IsSimple(q, c.body.args[1])
  }

  type Words = map<string, S.Word>

  /** The list that a stream stands for, in an environment of names. */
  function ListOf(q: Algebras, c: Core, env: Words): seq<int>
    requires IsStream(q, c)
    decreases c, 1, 0
  {
    match RoleIn(q, c).value
    case Feeding => S.AsList(WordOf(q, c.args[0], env))
    case Filtering => Filtered(q, c.args[1], ListOf(q, c.args[0], env), env)
    case Heading => S.Take(ListOf(q, c.args[0], env), S.AsNumber(WordOf(q, c.args[1], env)))
    case Joining => ListOf(q, c.args[0], env) + ListOf(q, c.args[1], env)
  }

  function WordOf(q: Algebras, c: Core, env: Words): S.Word
    requires IsSimple(q, c)
    decreases c, 1, 0
  {
    match c
    case Constant(v) => q.read(v)
    case Variable(x, _) => if x in env then env[x] else S.Number(0)
    case Operation(_, _, args, _) => S.List(ListOf(q, args[0], env))
  }

  /** The function on one element. */
  predicate Passes(q: Algebras, f: Core, x: int, env: Words)
    requires IsTest(q, f)
    decreases f, 0, 0
  {
    var inner: Words := (if f.closed then map[] else env)[f.params[0] := S.Number(x)];
    RoleIn(q, f.body).value.test(WordOf(q, f.body.args[0], inner), WordOf(q, f.body.args[1], inner))
  }

  function Filtered(q: Algebras, f: Core, s: seq<int>, env: Words): seq<int>
    requires IsTest(q, f)
    decreases f, 0, |s| + 1
  {
    if s == [] then [] else (if Passes(q, f, s[0], env) then [s[0]] else []) + Filtered(q, f, s[1..], env)
  }

  // What the operators do to constants, in their own terms.

  /** The operator's role is the one of its algebra and of its number combined with that of its evaluation function. */
  ghost predicate Plays(q: Algebras, c: Core, role: Role) {
    c.Operation? && (c.id.alg, c.fun * 65536 + c.id.op) in q.roles
    && q.roles[(c.id.alg, c.fun * 65536 + c.id.op)] == role
  }

  /** A fed list is that list. */
  lemma {:induction false} FeedOfList(q: Algebras, feed: Core, v: Value, list: seq<int>, env: Words)
    requires Plays(q, feed, Feeding) && feed.ty.Stream? && feed.args == [Constant(v)] && q.read(v) == S.List(list)
    ensures IsStream(q, feed) && ListOf(q, feed, env) == list
  {}

  /** The head of a stream has as many of its first elements as the number says, all if there are fewer. */
  lemma {:induction false} HeadOfStream(q: Algebras, head: Core, src: Core, v: Value, n: int, env: Words)
    requires Plays(q, head, Heading) && head.ty.Stream? && head.args == [src, Constant(v)] && q.read(v) == S.Number(n)
    requires IsStream(q, src)
    ensures var list := ListOf(q, src, env);
      && IsStream(q, head)
      && ListOf(q, head, env) == if n <= 0 then [] else if n <= |list| then list[..n] else list
  {
    hide ListOf;
    assert IsSimple(q, head.args[1]) && WordOf(q, head.args[1], env) == S.Number(n);
    HeadTakes(q, head, env);
  }

  lemma {:induction false} HeadTakes(q: Algebras, head: Core, env: Words)
    requires IsStream(q, head) && RoleIn(q, head).value.Heading?
    ensures ListOf(q, head, env) == S.Take(ListOf(q, head.args[0], env), S.AsNumber(WordOf(q, head.args[1], env)))
  {}

  /** The elements that pass, in order. */
  function Kept(list: seq<int>, passes: int -> bool): seq<int> {
    if list == [] then [] else (if passes(list[0]) then [list[0]] else []) + Kept(list[1..], passes)
  }

  /** The function that compares its parameter with a constant. */
  ghost predicate ComparesWith(q: Algebras, f: Core, test: (S.Word, S.Word) -> bool, v: Value) {
    && f.Function? && |f.params| == 1 && Plays(q, f.body, Comparing(test)) && |f.body.args| == 2
    && f.body.args[0].Variable? && f.body.args[0].name == f.params[0] && !f.body.args[0].ty.Stream?
    && f.body.args[1] == Constant(v)
  }

  /** Filtering with it keeps the elements for which the comparison holds. */
  lemma {:induction false} FilterOfStream(q: Algebras, filter: Core, src: Core, f: Core,
                                          test: (S.Word, S.Word) -> bool, v: Value, env: Words)
    requires Plays(q, filter, Filtering) && filter.ty.Stream? && filter.args == [src, f]
    requires IsStream(q, src) && ComparesWith(q, f, test, v)
    ensures IsStream(q, filter)
    ensures ListOf(q, filter, env) == Kept(ListOf(q, src, env), x => test(S.Number(x), q.read(v)))
  {
    assert filter.args[0] == src && filter.args[1] == f && IsTest(q, f);
    FilterFilters(q, filter, env);
    FilteredIsKept(q, f, ListOf(q, src, env), test, v, env);
    hide ListOf, Filtered, Kept, IsStream, IsTest;
  }

  lemma {:induction false} FilterFilters(q: Algebras, filter: Core, env: Words)
    requires IsStream(q, filter) && RoleIn(q, filter).value.Filtering?
    ensures ListOf(q, filter, env) == Filtered(q, filter.args[1], ListOf(q, filter.args[0], env), env)
  {}

  lemma {:induction false} FilteredIsKept(q: Algebras, f: Core, list: seq<int>, test: (S.Word, S.Word) -> bool,
                                          v: Value, env: Words)
    requires IsTest(q, f) && ComparesWith(q, f, test, v)
    ensures Filtered(q, f, list, env) == Kept(list, x => test(S.Number(x), q.read(v)))
    decreases |list|
  {
    if list != [] {
      FilteredIsKept(q, f, list[1..], test, v, env);
      PassesAs(q, f, list[0], test, v, env);
      hide Passes, IsTest, ComparesWith;
    }
  }

  lemma {:induction false} PassesAs(q: Algebras, f: Core, x: int, test: (S.Word, S.Word) -> bool, v: Value, env: Words)
    requires IsTest(q, f) && ComparesWith(q, f, test, v)
    ensures Passes(q, f, x, env) == test(S.Number(x), q.read(v))
  {}

  /** Concatenation, and the list that consuming a stream yields. */
  lemma {:induction false} ConcatOfStreams(q: Algebras, concat: Core, first: Core, second: Core, env: Words)
    requires Plays(q, concat, Joining) && concat.ty.Stream? && concat.args == [first, second]
    requires IsStream(q, first) && IsStream(q, second)
    ensures IsStream(q, concat) && ListOf(q, concat, env) == ListOf(q, first, env) + ListOf(q, second, env)
  {}

  lemma {:induction false} ConsumedStream(q: Algebras, consume: Core, src: Core, env: Words)
    requires Plays(q, consume, Consuming) && !consume.ty.Stream? && consume.args == [src] && IsStream(q, src)
    ensures IsSimple(q, consume) && WordOf(q, consume, env) == S.List(ListOf(q, src, env))
  {}

  // ---------------------------------------------------------------- the stream in the tree

  /** The stream that a node stands for in the protocol. */
  function StreamOf(q: Algebras, id: nat, k: Kind): Option<S.Stream>
    decreases k
  {
    if !k.Oper? then None
    else
      match (RoleAt(q, k.alg, k.opFunId), k.sons)
      case (Some(Feeding), sons) =>
        if |sons| != 1 then None else FeedOf(id, SimpleOf(q, sons[0].isStream, sons[0].kind))
      case (Some(Filtering), sons) =>
        if |sons| != 2 || !sons[1].isFun then None
        else FilterOf(id, StreamOf(q, sons[0].id, sons[0].kind), sons[1].funNo, CompareOf(q, sons[1].kind))
      case (Some(Heading), sons) =>
        if |sons| != 2 then None
        else HeadingOf(id, StreamOf(q, sons[0].id, sons[0].kind), SimpleOf(q, sons[1].isStream, sons[1].kind))
      case (Some(Joining), sons) =>
        if |sons| != 2 then None
        else JoinOf(id, StreamOf(q, sons[0].id, sons[0].kind), StreamOf(q, sons[1].id, sons[1].kind))
      case _ => None
  }

  function SimpleOf(q: Algebras, isStream: bool, k: Kind): Option<S.Simple>
    decreases k
  {
    match k
    case Object(Val(v)) => Some(S.Const(q.read(v)))
    case Indirect(f, p) => if isStream || p != 1 then None else Some(S.Param(f))
    case Oper(alg, opFunId, sons) =>
      (match (RoleAt(q, alg, opFunId))
       case Some(Consuming) =>
         if |sons| != 1 then None
         else
           (match StreamOf(q, sons[0].id, sons[0].kind)
            case Some(input) => Some(S.Consume(input))
            case None => None)
       case _ => None)
    case _ => None
  }

  datatype Comparison = Comparison(left: S.Simple, test: (S.Word, S.Word) -> bool, right: S.Simple)

  function CompareOf(q: Algebras, k: Kind): Option<Comparison>
    decreases k
  {
    if !k.Oper? || |k.sons| != 2 then None
    else
      match RoleAt(q, k.alg, k.opFunId)
      case Some(Comparing(test)) =>
        var left := SimpleOf(q, k.sons[0].isStream, k.sons[0].kind);
        var right := SimpleOf(q, k.sons[1].isStream, k.sons[1].kind);
        if left.None? || right.None? then None else Some(Comparison(left.value, test, right.value))
      case _ => None
  }

  function FeedOf(id: nat, arg: Option<S.Simple>): Option<S.Stream> {
    if arg.None? then None else Some(S.Feed(id, arg.value))
  }

  function FilterOf(id: nat, src: Option<S.Stream>, fun: nat, c: Option<Comparison>): Option<S.Stream> {
    if src.None? || c.None? then None else Some(S.Filter(id, src.value, fun, c.value.left, c.value.test, c.value.right))
  }

  function HeadingOf(id: nat, src: Option<S.Stream>, arg: Option<S.Simple>): Option<S.Stream> {
    if src.None? || arg.None? then None else Some(S.Head(id, src.value, arg.value))
  }

  function JoinOf(id: nat, first: Option<S.Stream>, second: Option<S.Stream>): Option<S.Stream> {
    if first.None? || second.None? then None else Some(S.Concat(id, first.value, second.value))
  }

  // ---------------------------------------------------------------- indices and numbers

  predicate Within(s: set<nat>, lo: nat, hi: nat) {
    forall i :: i in s ==> lo <= i < hi
  }

  /** The nodes from..to-1 and the functions lo+1..hi belong to the stream alone; `scope` are those around it. */
  ghost predicate Well(t: S.Stream, scope: set<nat>, from: nat, to: nat, lo: nat, hi: nat) {
    && Within(S.Ids(t), from, to) && S.Distinct(t)
    && S.Numbered(t, scope) && Within(S.Functions(t), lo + 1, hi + 1)
  }

  ghost predicate WellIn(e: S.Simple, scope: set<nat>, from: nat, to: nat, lo: nat, hi: nat) {
    && Within(S.IdsOf(e), from, to) && S.DistinctIn(e)
    && S.NumberedIn(e, scope) && Within(S.FunctionsOf(e), lo + 1, hi + 1)
  }

  lemma {:induction false} FeedWell(id: nat, arg: S.Simple, scope: set<nat>, to: nat, lo: nat, hi: nat)
    requires WellIn(arg, scope, id + 1, to, lo, hi) && id < to
    ensures Well(S.Feed(id, arg), scope, id, to, lo, hi)
  {}

  lemma {:induction false} HeadWell(id: nat, src: S.Stream, arg: S.Simple, scope: set<nat>, mid: nat, to: nat, lo: nat,
                                    m: nat, hi: nat)
    requires Well(src, scope, id + 1, mid, lo, m) && WellIn(arg, scope, mid, to, m, hi)
    requires id < mid <= to && lo <= m <= hi
    ensures Well(S.Head(id, src, arg), scope, id, to, lo, hi)
  {}

  lemma {:induction false} ConcatWell(id: nat, first: S.Stream, second: S.Stream, scope: set<nat>, mid: nat, to: nat,
                                      lo: nat, m: nat, hi: nat)
    requires Well(first, scope, id + 1, mid, lo, m) && Well(second, scope, mid, to, m, hi)
    requires id < mid <= to && lo <= m <= hi
    ensures Well(S.Concat(id, first, second), scope, id, to, lo, hi)
  {}

  /** A comparison below function `fun`, whose own number is the first of its block. */
  ghost predicate WellCompared(c: Comparison, scope: set<nat>, from: nat, to: nat, fun: nat, hi: nat) {
    exists mid: nat, m: nat :: from <= mid <= to && fun <= m <= hi
      && WellIn(c.left, scope + {fun}, from, mid, fun, m) && WellIn(c.right, scope + {fun}, mid, to, m, hi)
  }

  lemma {:induction false} FilterWell(id: nat, src: S.Stream, c: Comparison, scope: set<nat>, mid: nat, to: nat,
                                      lo: nat, m: nat, hi: nat)
    requires Well(src, scope, id + 1, mid, lo, m) && WellCompared(c, scope, mid, to, m + 1, hi)
    requires id < mid <= to && lo <= m < hi && Within(scope, 0, lo + 1)
    ensures Well(S.Filter(id, src, m + 1, c.left, c.test, c.right), scope, id, to, lo, hi)
  {}

  // ---------------------------------------------------------------- the tree of a stream query

  /** Every variable in scope is the one parameter of its function. */
  ghost predicate OneParameter(scope: VarTable, lo: nat) {
    forall x :: x in scope ==> scope[x].position == 1 && 1 <= scope[x].funindex <= lo
  }

  function Numbers(scope: VarTable): set<nat> {
    set x | x in scope :: scope[x].funindex
  }

  /** `funs` are the functions around the expression, numbered up to `lo`. */
  ghost predicate Compiled(cx: Context, a: Ann, c: Core, funs: set<nat>, lo: nat) {
    && Matches(a, c, cx.scope, cx.values) && Buildable(cx.cat, a, |cx.values|) && Numbered(a, lo)
    && OneParameter(cx.scope, lo) && Numbers(cx.scope) <= funs && Within(funs, 0, lo + 1)
  }

  /** An operator that requests its arguments only changes whether they are evaluated. */
  predicate Alike(m: Node, n: Node) {
    m.id == n.id && m.kind == n.kind && m.isStream == n.isStream && m.isFun == n.isFun && m.funNo == n.funNo
  }

  lemma {:induction false} FirstTree(cx: Context, as_: seq<Ann>, next: nat, lazy: bool)
    requires as_ != [] && BuildableAll(cx.cat, as_, |cx.values|)
    ensures Buildable(cx.cat, as_[0], |cx.values|) && BuildableAll(cx.cat, as_[1..], |cx.values|)
    ensures Alike(Trees(cx, as_, next, lazy)[0], Tree(cx, as_[0], next))
    ensures Trees(cx, as_, next, lazy)[1..] == Trees(cx, as_[1..], next + Size(as_[0]), lazy)
  {
    SubtreeSize(cx.cat, as_[0], cx.values, next);
  }

  lemma {:induction false} FirstCompiled(cx: Context, as_: seq<Ann>, cs: seq<Core>, funs: set<nat>, lo: nat)
    requires MatchesAll(as_, cs, cx.scope, cx.values) && BuildableAll(cx.cat, as_, |cx.values|) && NumberedAll(as_, lo)
    requires OneParameter(cx.scope, lo) && Numbers(cx.scope) <= funs && Within(funs, 0, lo + 1) && cs != []
    ensures as_ != [] && Compiled(cx, as_[0], cs[0], funs, lo)
    ensures MatchesAll(as_[1..], cs[1..], cx.scope, cx.values) && NumberedAll(as_[1..], lo + Count(as_[0]))
    ensures OneParameter(cx.scope, lo + Count(as_[0])) && Within(funs, 0, lo + Count(as_[0]) + 1)
  {}

  lemma {:induction false} OperatorNode(cx: Context, a: Ann, c: Core, funs: set<nat>, next: nat, lo: nat)
    requires Compiled(cx, a, c, funs, lo) && a.ApplyOpA?
    ensures c.Operation? && MatchesAll(a.args, c.args, cx.scope, cx.values) && NumberedAll(a.args, lo)
    ensures BuildableAll(cx.cat, a.args, |cx.values|) && |a.args| == |c.args|
    ensures var n := Tree(cx, a, next); var lazy := Lazy(cx.cat, OpId(a.id.alg, a.opFunId % OP_LIMIT));
      && n.id == next && n.isStream == c.ty.Stream?
      && n.kind == Oper(c.id.alg, Combine(c.fun, c.id.op), Trees(cx, a.args, next + 1, lazy))
  {
    MatchesLength(a.args, c.args, cx.scope, cx.values);
  }

  lemma {:induction false} SizesAdd(a: Ann)
    requires a.ApplyOpA? && a.args != []
    ensures Size(a) == 1 + Size(a.args[0]) + SizeAll(a.args[1..])
      && Count(a) == Count(a.args[0]) + CountAll(a.args[1..])
    ensures |a.args| == 1 ==> SizeAll(a.args[1..]) == 0 && CountAll(a.args[1..]) == 0
    ensures |a.args| == 2 ==>
      SizeAll(a.args[1..]) == Size(a.args[1]) && CountAll(a.args[1..]) == Count(a.args[1])
  {
    var rest := a.args[1..];
    assert SizeAll(a.args) == Size(a.args[0]) + SizeAll(rest);
    if |a.args| == 2 {
      assert rest[1..] == [] && rest[0] == a.args[1];
      assert SizeAll(rest) == Size(rest[0]) + SizeAll(rest[1..]);
    }
  }

  /** The sons of an operator's node are the trees of its arguments, one behind the other. */
  lemma {:induction false} OneArgument(cx: Context, a: Ann, c: Core, funs: set<nat>, next: nat, lo: nat)
    requires Compiled(cx, a, c, funs, lo) && a.ApplyOpA? && c.Operation? && |c.args| == 1
    ensures |a.args| == 1 && Compiled(cx, a.args[0], c.args[0], funs, lo)
    ensures var n := Tree(cx, a, next);
      && n.id == next && IsNode(n, next, c) && n.kind.Oper? && |n.kind.sons| == 1
      && Alike(n.kind.sons[0], Tree(cx, a.args[0], next + 1))
    ensures Size(a) == 1 + Size(a.args[0]) && Count(a) == Count(a.args[0])
  {
    OperatorNode(cx, a, c, funs, next, lo);
    FirstCompiled(cx, a.args, c.args, funs, lo);
    FirstTree(cx, a.args, next + 1, Lazy(cx.cat, OpId(a.id.alg, a.opFunId % OP_LIMIT)));
    SizesAdd(a);
  }

  predicate IsNode(n: Node, id: nat, c: Core)
    requires c.Operation?
  {
    && n.id == id && n.kind.Oper? && n.kind.alg == c.id.alg && n.kind.opFunId == Combine(c.fun, c.id.op)
    && n.isStream == c.ty.Stream?
  }

  lemma {:induction false} TwoArguments(cx: Context, a: Ann, c: Core, funs: set<nat>, next: nat, lo: nat)
    requires Compiled(cx, a, c, funs, lo) && a.ApplyOpA? && c.Operation? && |c.args| == 2
    ensures |a.args| == 2 && Compiled(cx, a.args[0], c.args[0], funs, lo)
    ensures Compiled(cx, a.args[1], c.args[1], funs, lo + Count(a.args[0]))
    ensures Buildable(cx.cat, a.args[0], |cx.values|) && Buildable(cx.cat, a.args[1], |cx.values|)
    ensures var n := Tree(cx, a, next);
      && n.id == next && IsNode(n, next, c) && n.kind.Oper? && |n.kind.sons| == 2
      && Alike(n.kind.sons[0], Tree(cx, a.args[0], next + 1))
      && Alike(n.kind.sons[1], Tree(cx, a.args[1], next + 1 + Size(a.args[0])))
    ensures Size(a) == 1 + Size(a.args[0]) + Size(a.args[1]) && Count(a) == Count(a.args[0]) + Count(a.args[1])
  {
    var lazy := Lazy(cx.cat, OpId(a.id.alg, a.opFunId % OP_LIMIT));
    OperatorNode(cx, a, c, funs, next, lo);
    FirstCompiled(cx, a.args, c.args, funs, lo);
    FirstTree(cx, a.args, next + 1, lazy);
    FirstCompiled(cx, a.args[1..], c.args[1..], funs, lo + Count(a.args[0]));
    FirstTree(cx, a.args[1..], next + 1 + Size(a.args[0]), lazy);
    SizesAdd(a);
    hide Compiled, Matches, Buildable, Numbered, Alike, Subtree, SubtreeAll;
  }

  lemma {:induction false} WrapperNode(cx: Context, a: Ann, c: Core, funs: set<nat>, next: nat, lo: nat)
    requires Compiled(cx, a, c, funs, lo) && a.WrapperA?
    ensures Compiled(cx, a.body, c, funs, lo) && Alike(Tree(cx, a, next), Tree(cx, a.body, next))
    ensures Size(a) == Size(a.body) && Count(a) == Count(a.body)
  {}

  /** The scope of a function's body. */
  function Inner(cx: Context, a: Ann, c: Core): Context
    requires a.AbstractionA? && c.Function? && |a.params| == |c.params|
  {
    cx.(scope := Enter(if c.closed then map[] else cx.scope, c.params, a.params, a.funno, 1))
  }

  lemma {:induction false} FunctionNode(cx: Context, a: Ann, c: Core, funs: set<nat>, next: nat, lo: nat)
    requires Compiled(cx, a, c, funs, lo) && a.AbstractionA? && |c.params| == 1
    ensures c.Function? && |a.params| == 1 && a.funno == lo + 1
    ensures Compiled(Inner(cx, a, c), a.body, c.body, funs + {lo + 1}, lo + 1)
    ensures var n, b := Tree(cx, a, next), Tree(Inner(cx, a, c), a.body, next);
      n.id == b.id && n.kind == b.kind && n.isFun && n.funNo == lo + 1
    ensures Size(a) == Size(a.body) && Count(a) == 1 + Count(a.body)
    ensures Inner(cx, a, c).scope
            == (if c.closed then map[] else cx.scope)[c.params[0] := VarEntry(1, lo + 1, a.params[0])]
  {
    var scope: VarTable := if c.closed then map[] else cx.scope;
    assert c.params[1..] == [] && a.params[1..] == [];
    assert Enter(scope, c.params, a.params, a.funno, 1) == scope[c.params[0] := VarEntry(1, a.funno, a.params[0])];
  }

  // ---------------------------------------------------------------- its shape

  // Joining the sons; none of these mentions the annotation.

  ghost predicate ShapedAs(q: Algebras, n: Node, funs: set<nat>, from: nat, to: nat, lo: nat, hi: nat) {
    var t := StreamOf(q, n.id, n.kind); t.Some? && Well(t.value, funs, from, to, lo, hi)
  }

  ghost predicate SimpleAs(q: Algebras, n: Node, funs: set<nat>, from: nat, to: nat, lo: nat, hi: nat) {
    var e := SimpleOf(q, n.isStream, n.kind); e.Some? && WellIn(e.value, funs, from, to, lo, hi)
  }

  ghost predicate TestAs(q: Algebras, n: Node, funs: set<nat>, from: nat, to: nat, lo: nat, hi: nat) {
    && n.isFun && n.funNo == lo + 1 && lo < hi
    && var e := CompareOf(q, n.kind); e.Some? && WellCompared(e.value, funs, from, to, lo + 1, hi)
  }

  lemma {:induction false} JoinFeed(q: Algebras, n: Node, c: Core, funs: set<nat>, to: nat, lo: nat, hi: nat)
    requires IsStream(q, c) && RoleIn(q, c).value.Feeding? && IsNode(n, n.id, c) && |n.kind.sons| == 1 && n.id < to
    requires SimpleAs(q, n.kind.sons[0], funs, n.id + 1, to, lo, hi)
    ensures ShapedAs(q, n, funs, n.id, to, lo, hi)
  {
    var son := n.kind.sons[0];
    FeedWell(n.id, SimpleOf(q, son.isStream, son.kind).value, funs, to, lo, hi);
    hide Well, WellIn;
  }

  lemma {:induction false} JoinFilter(q: Algebras, n: Node, c: Core, funs: set<nat>, mid: nat, to: nat, lo: nat, m: nat,
                                      hi: nat)
    requires IsStream(q, c) && RoleIn(q, c).value.Filtering? && IsNode(n, n.id, c) && |n.kind.sons| == 2
    requires ShapedAs(q, n.kind.sons[0], funs, n.id + 1, mid, lo, m) && TestAs(q, n.kind.sons[1], funs, mid, to, m, hi)
    requires n.id < mid <= to && lo <= m && Within(funs, 0, lo + 1)
    ensures ShapedAs(q, n, funs, n.id, to, lo, hi)
  {
    var first, last := n.kind.sons[0], n.kind.sons[1];
    FilterWell(n.id, StreamOf(q, first.id, first.kind).value, CompareOf(q, last.kind).value, funs, mid, to, lo, m, hi);
    hide Well, WellCompared;
  }

  lemma {:induction false} JoinHead(q: Algebras, n: Node, c: Core, funs: set<nat>, mid: nat, to: nat, lo: nat, m: nat,
                                    hi: nat)
    requires IsStream(q, c) && RoleIn(q, c).value.Heading? && IsNode(n, n.id, c) && |n.kind.sons| == 2
    requires ShapedAs(q, n.kind.sons[0], funs, n.id + 1, mid, lo, m)
      && SimpleAs(q, n.kind.sons[1], funs, mid, to, m, hi)
    requires n.id < mid <= to && lo <= m <= hi
    ensures ShapedAs(q, n, funs, n.id, to, lo, hi)
  {
    var first, last := n.kind.sons[0], n.kind.sons[1];
    HeadWell(n.id, StreamOf(q, first.id, first.kind).value, SimpleOf(q, last.isStream, last.kind).value, funs, mid, to,
             lo, m, hi);
    hide Well, WellIn;
  }

  lemma {:induction false} JoinConcat(q: Algebras, n: Node, c: Core, funs: set<nat>, mid: nat, to: nat, lo: nat, m: nat,
                                      hi: nat)
    requires IsStream(q, c) && RoleIn(q, c).value.Joining? && IsNode(n, n.id, c) && |n.kind.sons| == 2
    requires ShapedAs(q, n.kind.sons[0], funs, n.id + 1, mid, lo, m)
      && ShapedAs(q, n.kind.sons[1], funs, mid, to, m, hi)
    requires n.id < mid <= to && lo <= m <= hi
    ensures ShapedAs(q, n, funs, n.id, to, lo, hi)
  {
    var first, last := n.kind.sons[0], n.kind.sons[1];
    ConcatWell(n.id, StreamOf(q, first.id, first.kind).value, StreamOf(q, last.id, last.kind).value, funs, mid, to, lo,
               m, hi);
    hide Well;
  }

  lemma {:induction false} JoinCompare(q: Algebras, n: Node, c: Core, funs: set<nat>, mid: nat, to: nat, fun: nat,
                                       m: nat, hi: nat)
    requires RoleIn(q, c).Some? && RoleIn(q, c).value.Comparing? && IsNode(n, n.id, c) && |n.kind.sons| == 2
    requires SimpleAs(q, n.kind.sons[0], funs + {fun}, n.id + 1, mid, fun, m)
    requires SimpleAs(q, n.kind.sons[1], funs + {fun}, mid, to, m, hi) && n.id < mid <= to && fun <= m <= hi
    ensures CompareOf(q, n.kind).Some? && WellCompared(CompareOf(q, n.kind).value, funs, n.id, to, fun, hi)
  {
    var e := CompareOf(q, n.kind).value;
    assert WellIn(e.left, funs + {fun}, n.id, mid, fun, m);
    hide WellIn;
  }

  // ---------------------------------------------------------------- its shape, by induction

  /** Wrappers go down to the operator. */
  lemma {:induction false} OperatorOrWrapper(a: Ann, c: Core, scope: VarTable, values: seq<Value>)
    requires Matches(a, c, scope, values) && c.Operation?
    ensures a.WrapperA? || a.ApplyOpA?
  {}

  lemma {:induction false} CompiledFacts(cx: Context, a: Ann, c: Core, funs: set<nat>, lo: nat)
    requires Compiled(cx, a, c, funs, lo)
    ensures Within(funs, 0, lo + 1) && Buildable(cx.cat, a, |cx.values|) && Matches(a, c, cx.scope, cx.values)
  {}

  lemma {:induction false} AlikeShaped(q: Algebras, m: Node, n: Node, funs: set<nat>, from: nat, to: nat, lo: nat,
                                       hi: nat)
    requires Alike(m, n)
    ensures ShapedAs(q, m, funs, from, to, lo, hi) == ShapedAs(q, n, funs, from, to, lo, hi)
    ensures SimpleAs(q, m, funs, from, to, lo, hi) == SimpleAs(q, n, funs, from, to, lo, hi)
    ensures TestAs(q, m, funs, from, to, lo, hi) == TestAs(q, n, funs, from, to, lo, hi)
  {
    hide Well, WellIn, WellCompared;
  }

  /** The tree is a stream of the protocol, with nodes and functions of its own. */
  lemma {:induction false} StreamShape(q: Algebras, cx: Context, a: Ann, c: Core, funs: set<nat>, next: nat, lo: nat)
    requires Compiled(cx, a, c, funs, lo) && IsStream(q, c)
    ensures ShapedAs(q, Tree(cx, a, next), funs, next, next + Size(a), lo, lo + Count(a))
    decreases a, 1
  {
    OperatorOrWrapper(a, c, cx.scope, cx.values);
    StreamArguments(q, c);
    hide Compiled, ShapedAs, SimpleAs, TestAs, Tree, Size, Count, Matches, StreamOf, SimpleOf, CompareOf, IsSimple,
      IsTest;
    var n, to, hi := Tree(cx, a, next), next + Size(a), lo + Count(a);
    if a.WrapperA? {
      WrapperNode(cx, a, c, funs, next, lo);
      StreamShape(q, cx, a.body, c, funs, next, lo);
      AlikeShaped(q, n, Tree(cx, a.body, next), funs, next, to, lo, hi);
    } else if RoleIn(q, c).value.Feeding? {
      OneArgument(cx, a, c, funs, next, lo);
      SimpleShape(q, cx, a.args[0], c.args[0], funs, next + 1, lo);
      AlikeShaped(q, n.kind.sons[0], Tree(cx, a.args[0], next + 1), funs, next + 1, to, lo, hi);
      JoinFeed(q, n, c, funs, to, lo, hi);
    } else {
      BinaryShape(q, cx, a, c, funs, next, lo);
    }
  }

  lemma {:induction false} StreamArguments(q: Algebras, c: Core)
    requires IsStream(q, c)
    ensures c.Operation? && RoleIn(q, c).Some?
    ensures var role := RoleIn(q, c).value;
      && (role.Feeding? || role.Filtering? || role.Heading? || role.Joining?)
      && (role.Feeding? ==> |c.args| == 1 && IsSimple(q, c.args[0]))
      && (!role.Feeding? ==> |c.args| == 2 && IsStream(q, c.args[0]))
      && (role.Filtering? ==> IsTest(q, c.args[1]))
      && (role.Heading? ==> IsSimple(q, c.args[1]))
      && (role.Joining? ==> IsStream(q, c.args[1]))
  {}

  lemma {:induction false} BinaryShape(q: Algebras, cx: Context, a: Ann, c: Core, funs: set<nat>, next: nat, lo: nat)
    requires Compiled(cx, a, c, funs, lo) && IsStream(q, c) && a.ApplyOpA? && !RoleIn(q, c).value.Feeding?
    ensures ShapedAs(q, Tree(cx, a, next), funs, next, next + Size(a), lo, lo + Count(a))
    decreases a, 0
  {
    hide *;
    StreamArguments(q, c);
    CompiledFacts(cx, a, c, funs, lo);
    var role := RoleIn(q, c).value;
    TwoArguments(cx, a, c, funs, next, lo);
    var n, to, hi := Tree(cx, a, next), next + Size(a), lo + Count(a);
    var mid, m := next + 1 + Size(a.args[0]), lo + Count(a.args[0]);
    StreamShape(q, cx, a.args[0], c.args[0], funs, next + 1, lo);
    AlikeShaped(q, n.kind.sons[0], Tree(cx, a.args[0], next + 1), funs, next + 1, mid, lo, m);
    AlikeShaped(q, n.kind.sons[1], Tree(cx, a.args[1], mid), funs, mid, to, m, hi);
    if role.Filtering? {
      TestShape(q, cx, a.args[1], c.args[1], funs, mid, m);
      JoinFilter(q, n, c, funs, mid, to, lo, m, hi);
    } else if role.Heading? {
      SimpleShape(q, cx, a.args[1], c.args[1], funs, mid, m);
      JoinHead(q, n, c, funs, mid, to, lo, m, hi);
    } else {
      StreamShape(q, cx, a.args[1], c.args[1], funs, mid, m);
      JoinConcat(q, n, c, funs, mid, to, lo, m, hi);
    }
  }

  lemma {:induction false} SimpleShape(q: Algebras, cx: Context, a: Ann, c: Core, funs: set<nat>, next: nat, lo: nat)
    requires Compiled(cx, a, c, funs, lo) && IsSimple(q, c)
    ensures SimpleAs(q, Tree(cx, a, next), funs, next, next + Size(a), lo, lo + Count(a))
    decreases a, 1
  {
    var n, to, hi := Tree(cx, a, next), next + Size(a), lo + Count(a);
    if a.WrapperA? {
      WrapperNode(cx, a, c, funs, next, lo);
      SimpleShape(q, cx, a.body, c, funs, next, lo);
      hide *;
      AlikeShaped(q, n, Tree(cx, a.body, next), funs, next, to, lo, hi);
    } else if c.Operation? {
      OperatorOrWrapper(a, c, cx.scope, cx.values);
      hide *;
      ConsumeShape(q, cx, a, c, funs, next, lo);
    } else {
      LeafShape(q, cx, a, c, funs, next, lo);
    }
  }

  lemma {:induction false} ConsumeShape(q: Algebras, cx: Context, a: Ann, c: Core, funs: set<nat>, next: nat, lo: nat)
    requires Compiled(cx, a, c, funs, lo) && IsSimple(q, c) && a.ApplyOpA? && c.Operation?
    ensures SimpleAs(q, Tree(cx, a, next), funs, next, next + Size(a), lo, lo + Count(a))
    decreases a, 0
  {
    assert |c.args| == 1 && IsStream(q, c.args[0]);
    hide *;
    var n, to, hi := Tree(cx, a, next), next + Size(a), lo + Count(a);
    OneArgument(cx, a, c, funs, next, lo);
    StreamShape(q, cx, a.args[0], c.args[0], funs, next + 1, lo);
    AlikeShaped(q, n.kind.sons[0], Tree(cx, a.args[0], next + 1), funs, next + 1, to, lo, hi);
    JoinConsume(q, n, c, funs, to, lo, hi);
  }

  lemma {:induction false} JoinConsume(q: Algebras, n: Node, c: Core, funs: set<nat>, to: nat, lo: nat, hi: nat)
    requires IsSimple(q, c) && c.Operation? && IsNode(n, n.id, c) && |n.kind.sons| == 1
    requires ShapedAs(q, n.kind.sons[0], funs, n.id + 1, to, lo, hi)
    ensures SimpleAs(q, n, funs, n.id, to, lo, hi)
  {}

  lemma {:induction false} LeafShape(q: Algebras, cx: Context, a: Ann, c: Core, funs: set<nat>, next: nat, lo: nat)
    requires Compiled(cx, a, c, funs, lo) && IsSimple(q, c) && !c.Operation? && !a.WrapperA?
    ensures SimpleAs(q, Tree(cx, a, next), funs, next, next + Size(a), lo, lo + Count(a))
  {
    if a.VariableA? { assert a.funindex in Numbers(cx.scope); }
  }

  lemma {:induction false} TestShape(q: Algebras, cx: Context, a: Ann, c: Core, funs: set<nat>, next: nat, lo: nat)
    requires Compiled(cx, a, c, funs, lo) && IsTest(q, c)
    ensures TestAs(q, Tree(cx, a, next), funs, next, next + Size(a), lo, lo + Count(a))
    decreases a, 1
  {
    var n, to, hi := Tree(cx, a, next), next + Size(a), lo + Count(a);
    if a.WrapperA? {
      WrapperNode(cx, a, c, funs, next, lo);
      TestShape(q, cx, a.body, c, funs, next, lo);
      hide *;
      AlikeShaped(q, n, Tree(cx, a.body, next), funs, next, to, lo, hi);
    } else {
      FunctionNode(cx, a, c, funs, next, lo);
      CompareShape(q, Inner(cx, a, c), a.body, c.body, funs, next, lo + 1);
      hide Compiled, WellCompared, Tree, Size, Count, Matches;
    }
  }

  lemma {:induction false} AlikeCompared(q: Algebras, m: Node, n: Node)
    requires Alike(m, n)
    ensures CompareOf(q, m.kind) == CompareOf(q, n.kind)
  {
    hide CompareOf;
  }

  lemma {:induction false} CompareShape(q: Algebras, cx: Context, a: Ann, c: Core, funs: set<nat>, next: nat, fun: nat)
    requires Compiled(cx, a, c, funs + {fun}, fun) && RoleIn(q, c).Some? && RoleIn(q, c).value.Comparing?
    requires c.Operation? && |c.args| == 2 && IsSimple(q, c.args[0]) && IsSimple(q, c.args[1])
    ensures var e := CompareOf(q, Tree(cx, a, next).kind);
      e.Some? && WellCompared(e.value, funs, next, next + Size(a), fun, fun + Count(a))
    decreases a, 1
  {
    hide *;
    CompiledFacts(cx, a, c, funs + {fun}, fun);
    OperatorOrWrapper(a, c, cx.scope, cx.values);
    if a.WrapperA? {
      WrapperNode(cx, a, c, funs + {fun}, next, fun);
      CompareShape(q, cx, a.body, c, funs, next, fun);
      AlikeCompared(q, Tree(cx, a, next), Tree(cx, a.body, next));
    } else {
      TwoArguments(cx, a, c, funs + {fun}, next, fun);
      var n, to, hi := Tree(cx, a, next), next + Size(a), fun + Count(a);
      var mid, m := next + 1 + Size(a.args[0]), fun + Count(a.args[0]);
      SimpleShape(q, cx, a.args[0], c.args[0], funs + {fun}, next + 1, fun);
      SimpleShape(q, cx, a.args[1], c.args[1], funs + {fun}, mid, m);
      AlikeShaped(q, n.kind.sons[0], Tree(cx, a.args[0], next + 1), funs + {fun}, next + 1, mid, fun, m);
      AlikeShaped(q, n.kind.sons[1], Tree(cx, a.args[1], mid), funs + {fun}, mid, to, m, hi);
      JoinCompare(q, n, c, funs, mid, to, fun, m, hi);
    }
  }

  // ---------------------------------------------------------------- its meaning

  /** The vectors of the functions in scope hold the environment. */
  ghost predicate HoldsWords(scope: VarTable, env: Words, vectors: S.Env) {
    forall x :: x in scope ==>
      x in env && scope[x].funindex < |vectors| && vectors[scope[x].funindex] == env[x]
  }

  ghost predicate DenotesAs(q: Algebras, n: Node, c: Core, env: Words, vectors: S.Env)
    requires IsStream(q, c)
  {
    var t := StreamOf(q, n.id, n.kind); t.Some? && S.Denote(t.value, vectors) == ListOf(q, c, env)
  }

  ghost predicate ValueAs(q: Algebras, n: Node, c: Core, env: Words, vectors: S.Env)
    requires IsSimple(q, c)
  {
    var e := SimpleOf(q, n.isStream, n.kind); e.Some? && S.Value(e.value, vectors) == WordOf(q, c, env)
  }

  /** The comparison on the values of its two sides, for the element in the vector of `fun`. */
  ghost predicate Decides(e: Comparison, fun: nat, x: int, vectors: S.Env, passes: bool) {
    var inner := S.Bind(vectors, fun, S.Number(x));
    e.test(S.Value(e.left, inner), S.Value(e.right, inner)) == passes
  }

  ghost predicate TestsAs(q: Algebras, n: Node, f: Core, env: Words, vectors: S.Env)
    requires IsTest(q, f)
  {
    && n.isFun
    && var e := CompareOf(q, n.kind);
    && e.Some? && forall x: int :: Decides(e.value, n.funNo, x, vectors, Passes(q, f, x, env))
  }

  lemma {:induction false} AlikeMeans(q: Algebras, m: Node, n: Node, c: Core, env: Words, vectors: S.Env)
    requires Alike(m, n)
    ensures IsStream(q, c) ==> DenotesAs(q, m, c, env, vectors) == DenotesAs(q, n, c, env, vectors)
    ensures IsSimple(q, c) ==> ValueAs(q, m, c, env, vectors) == ValueAs(q, n, c, env, vectors)
    ensures IsTest(q, c) ==> TestsAs(q, m, c, env, vectors) == TestsAs(q, n, c, env, vectors)
  {
    hide StreamOf, SimpleOf, CompareOf, ListOf, WordOf, Passes, Decides, IsStream, IsSimple, IsTest;
  }

  /** Filtering keeps what the function lets pass. */
  lemma {:induction false} SelectsAs(q: Algebras, t: S.Stream, f: Core, s: seq<int>, env: Words, vectors: S.Env)
    requires t.Filter? && IsTest(q, f)
    requires forall x: int :: Decides(Comparison(t.left, t.test, t.right), t.fun, x, vectors, Passes(q, f, x, env))
    ensures S.Select(t, s, vectors) == Filtered(q, f, s, env)
    decreases |s|
  {
    if s != [] {
      SelectsAs(q, t, f, s[1..], env, vectors);
      assert Decides(Comparison(t.left, t.test, t.right), t.fun, s[0], vectors, Passes(q, f, s[0], env));
      assert S.Keeps(t, s[0], vectors) == Passes(q, f, s[0], env);
      hide Passes, Decides, IsTest;
    }
  }

  lemma {:induction false} FeedMeans(q: Algebras, n: Node, c: Core, env: Words, vectors: S.Env)
    requires IsStream(q, c) && RoleIn(q, c).value.Feeding? && IsNode(n, n.id, c) && |n.kind.sons| == 1
    requires ValueAs(q, n.kind.sons[0], c.args[0], env, vectors)
    ensures DenotesAs(q, n, c, env, vectors)
  {}

  lemma {:induction false} FilterMeans(q: Algebras, n: Node, c: Core, env: Words, vectors: S.Env)
    requires IsStream(q, c) && RoleIn(q, c).value.Filtering? && IsNode(n, n.id, c) && |n.kind.sons| == 2
    requires DenotesAs(q, n.kind.sons[0], c.args[0], env, vectors)
      && TestsAs(q, n.kind.sons[1], c.args[1], env, vectors)
    ensures DenotesAs(q, n, c, env, vectors)
  {
    var t := StreamOf(q, n.id, n.kind).value;
    SelectsAs(q, t, c.args[1], ListOf(q, c.args[0], env), env, vectors);
    hide Decides, Passes, IsTest;
  }

  lemma {:induction false} HeadMeans(q: Algebras, n: Node, c: Core, env: Words, vectors: S.Env)
    requires IsStream(q, c) && RoleIn(q, c).value.Heading? && IsNode(n, n.id, c) && |n.kind.sons| == 2
    requires DenotesAs(q, n.kind.sons[0], c.args[0], env, vectors)
      && ValueAs(q, n.kind.sons[1], c.args[1], env, vectors)
    ensures DenotesAs(q, n, c, env, vectors)
  {}

  lemma {:induction false} ConcatMeans(q: Algebras, n: Node, c: Core, env: Words, vectors: S.Env)
    requires IsStream(q, c) && RoleIn(q, c).value.Joining? && IsNode(n, n.id, c) && |n.kind.sons| == 2
    requires DenotesAs(q, n.kind.sons[0], c.args[0], env, vectors)
      && DenotesAs(q, n.kind.sons[1], c.args[1], env, vectors)
    ensures DenotesAs(q, n, c, env, vectors)
  {}

  lemma {:induction false} ConsumeMeans(q: Algebras, n: Node, c: Core, env: Words, vectors: S.Env)
    requires IsSimple(q, c) && c.Operation? && IsNode(n, n.id, c) && |n.kind.sons| == 1
    requires DenotesAs(q, n.kind.sons[0], c.args[0], env, vectors)
    ensures ValueAs(q, n, c, env, vectors)
  {}

  /** What the tree denotes over the argument vectors is what the query means lexically. */
  lemma {:induction false} StreamMeaning(q: Algebras, cx: Context, a: Ann, c: Core, funs: set<nat>, next: nat, lo: nat,
                                         env: Words, vectors: S.Env)
    requires Compiled(cx, a, c, funs, lo) && IsStream(q, c)
    requires HoldsWords(cx.scope, env, vectors) && lo + Count(a) < |vectors|
    ensures DenotesAs(q, Tree(cx, a, next), c, env, vectors)
    decreases a, 1
  {
    hide *;
    StreamArguments(q, c);
    CompiledFacts(cx, a, c, funs, lo);
    OperatorOrWrapper(a, c, cx.scope, cx.values);
    var n := Tree(cx, a, next);
    if a.WrapperA? {
      WrapperNode(cx, a, c, funs, next, lo);
      StreamMeaning(q, cx, a.body, c, funs, next, lo, env, vectors);
      AlikeMeans(q, n, Tree(cx, a.body, next), c, env, vectors);
    } else if RoleIn(q, c).value.Feeding? {
      OneArgument(cx, a, c, funs, next, lo);
      SimpleMeaning(q, cx, a.args[0], c.args[0], funs, next + 1, lo, env, vectors);
      AlikeMeans(q, n.kind.sons[0], Tree(cx, a.args[0], next + 1), c.args[0], env, vectors);
      FeedMeans(q, n, c, env, vectors);
    } else {
      BinaryMeaning(q, cx, a, c, funs, next, lo, env, vectors);
    }
  }

  lemma {:induction false} BinaryMeaning(q: Algebras, cx: Context, a: Ann, c: Core, funs: set<nat>, next: nat, lo: nat,
                                         env: Words, vectors: S.Env)
    requires Compiled(cx, a, c, funs, lo) && IsStream(q, c) && a.ApplyOpA? && !RoleIn(q, c).value.Feeding?
    requires HoldsWords(cx.scope, env, vectors) && lo + Count(a) < |vectors|
    ensures DenotesAs(q, Tree(cx, a, next), c, env, vectors)
    decreases a, 0
  {
    hide *;
    StreamArguments(q, c);
    CompiledFacts(cx, a, c, funs, lo);
    TwoArguments(cx, a, c, funs, next, lo);
    var role, n := RoleIn(q, c).value, Tree(cx, a, next);
    var mid, m := next + 1 + Size(a.args[0]), lo + Count(a.args[0]);
    StreamMeaning(q, cx, a.args[0], c.args[0], funs, next + 1, lo, env, vectors);
    AlikeMeans(q, n.kind.sons[0], Tree(cx, a.args[0], next + 1), c.args[0], env, vectors);
    AlikeMeans(q, n.kind.sons[1], Tree(cx, a.args[1], mid), c.args[1], env, vectors);
    if role.Filtering? {
      TestMeaning(q, cx, a.args[1], c.args[1], funs, mid, m, env, vectors);
      FilterMeans(q, n, c, env, vectors);
    } else if role.Heading? {
      SimpleMeaning(q, cx, a.args[1], c.args[1], funs, mid, m, env, vectors);
      HeadMeans(q, n, c, env, vectors);
    } else {
      StreamMeaning(q, cx, a.args[1], c.args[1], funs, mid, m, env, vectors);
      ConcatMeans(q, n, c, env, vectors);
    }
  }

  lemma {:induction false} SimpleMeaning(q: Algebras, cx: Context, a: Ann, c: Core, funs: set<nat>, next: nat, lo: nat,
                                         env: Words, vectors: S.Env)
    requires Compiled(cx, a, c, funs, lo) && IsSimple(q, c)
    requires HoldsWords(cx.scope, env, vectors) && lo + Count(a) < |vectors|
    ensures ValueAs(q, Tree(cx, a, next), c, env, vectors)
    decreases a, 1
  {
    SimpleArgument(q, c);
    hide *;
    CompiledFacts(cx, a, c, funs, lo);
    var n := Tree(cx, a, next);
    if a.WrapperA? {
      WrapperNode(cx, a, c, funs, next, lo);
      SimpleMeaning(q, cx, a.body, c, funs, next, lo, env, vectors);
      AlikeMeans(q, n, Tree(cx, a.body, next), c, env, vectors);
    } else if c.Operation? {
      OperatorOrWrapper(a, c, cx.scope, cx.values);
      OneArgument(cx, a, c, funs, next, lo);
      StreamMeaning(q, cx, a.args[0], c.args[0], funs, next + 1, lo, env, vectors);
      AlikeMeans(q, n.kind.sons[0], Tree(cx, a.args[0], next + 1), c.args[0], env, vectors);
      ConsumeMeans(q, n, c, env, vectors);
    } else {
      LeafMeaning(q, cx, a, c, funs, next, lo, env, vectors);
    }
  }

  lemma {:induction false} SimpleArgument(q: Algebras, c: Core)
    requires IsSimple(q, c)
    ensures c.Operation? ==> |c.args| == 1 && IsStream(q, c.args[0])
  {}

  lemma {:induction false} LeafMeaning(q: Algebras, cx: Context, a: Ann, c: Core, funs: set<nat>, next: nat, lo: nat,
                                       env: Words, vectors: S.Env)
    requires Compiled(cx, a, c, funs, lo) && IsSimple(q, c) && !c.Operation? && !a.WrapperA?
    requires HoldsWords(cx.scope, env, vectors)
    ensures ValueAs(q, Tree(cx, a, next), c, env, vectors)
  {}

  lemma {:induction false} TestMeaning(q: Algebras, cx: Context, a: Ann, c: Core, funs: set<nat>, next: nat, lo: nat,
                                       env: Words, vectors: S.Env)
    requires Compiled(cx, a, c, funs, lo) && IsTest(q, c)
    requires HoldsWords(cx.scope, env, vectors) && lo + Count(a) < |vectors|
    ensures TestsAs(q, Tree(cx, a, next), c, env, vectors)
    decreases a, 1
  {
    if a.WrapperA? {
      hide *;
      WrapperNode(cx, a, c, funs, next, lo);
      TestMeaning(q, cx, a.body, c, funs, next, lo, env, vectors);
      AlikeMeans(q, Tree(cx, a, next), Tree(cx, a.body, next), c, env, vectors);
    } else {
      FunctionNode(cx, a, c, funs, next, lo);
      TestShape(q, cx, a, c, funs, next, lo);
      assert CompareOf(q, Tree(cx, a, next).kind).Some?;
      forall x: int
        ensures Decides(CompareOf(q, Tree(cx, a, next).kind).value, lo + 1, x, vectors, Passes(q, c, x, env))
      {
        var env': Words := (if c.closed then map[] else env)[c.params[0] := S.Number(x)];
        var vectors' := S.Bind(vectors, lo + 1, S.Number(x));
        EntersWords(cx, a, c, funs, lo, x, env, vectors);
        CompareMeaning(q, Inner(cx, a, c), a.body, c.body, funs + {lo + 1}, next, lo + 1, env', vectors');
        hide Compiled, HoldsWords, Tree, Count, CompareOf, IsTest, WordOf, Inner;
      }
      hide Compiled, HoldsWords, Tree, Count, CompareOf, IsTest, Passes, Decides, Inner;
    }
  }

  lemma {:induction false} EntersWords(cx: Context, a: Ann, c: Core, funs: set<nat>, lo: nat, x: int, env: Words,
                                       vectors: S.Env)
    requires Compiled(cx, a, c, funs, lo) && a.AbstractionA? && |c.params| == 1
    requires HoldsWords(cx.scope, env, vectors) && lo + 1 < |vectors|
    ensures |a.params| == 1 && c.Function?
    ensures HoldsWords(Inner(cx, a, c).scope, (if c.closed then map[] else env)[c.params[0] := S.Number(x)],
                       S.Bind(vectors, lo + 1, S.Number(x)))
  {
    FunctionNode(cx, a, c, funs, 0, lo);
    assert OneParameter(cx.scope, lo);
    hide Compiled, Inner;
  }

  lemma {:induction false} CompareMeaning(q: Algebras, cx: Context, a: Ann, c: Core, funs: set<nat>, next: nat,
                                          lo: nat, env: Words, vectors: S.Env)
    requires Compiled(cx, a, c, funs, lo) && RoleIn(q, c).Some? && RoleIn(q, c).value.Comparing?
    requires c.Operation? && |c.args| == 2 && IsSimple(q, c.args[0]) && IsSimple(q, c.args[1])
    requires HoldsWords(cx.scope, env, vectors) && lo + Count(a) < |vectors|
    ensures var e := CompareOf(q, Tree(cx, a, next).kind);
      && e.Some?
      && e.value.test(S.Value(e.value.left, vectors), S.Value(e.value.right, vectors))
         == RoleIn(q, c).value.test(WordOf(q, c.args[0], env), WordOf(q, c.args[1], env))
    decreases a, 1
  {
    hide *;
    CompiledFacts(cx, a, c, funs, lo);
    OperatorOrWrapper(a, c, cx.scope, cx.values);
    var n := Tree(cx, a, next);
    if a.WrapperA? {
      WrapperNode(cx, a, c, funs, next, lo);
      CompareMeaning(q, cx, a.body, c, funs, next, lo, env, vectors);
      AlikeCompared(q, n, Tree(cx, a.body, next));
    } else {
      TwoArguments(cx, a, c, funs, next, lo);
      var mid, m := next + 1 + Size(a.args[0]), lo + Count(a.args[0]);
      SimpleMeaning(q, cx, a.args[0], c.args[0], funs, next + 1, lo, env, vectors);
      SimpleMeaning(q, cx, a.args[1], c.args[1], funs, mid, m, env, vectors);
      AlikeMeans(q, n.kind.sons[0], Tree(cx, a.args[0], next + 1), c.args[0], env, vectors);
      AlikeMeans(q, n.kind.sons[1], Tree(cx, a.args[1], mid), c.args[1], env, vectors);
      ComparesAs(q, n, c, env, vectors);
    }
  }

  lemma {:induction false} ComparesAs(q: Algebras, n: Node, c: Core, env: Words, vectors: S.Env)
    requires RoleIn(q, c).Some? && RoleIn(q, c).value.Comparing? && c.Operation? && |c.args| == 2
    requires IsSimple(q, c.args[0]) && IsSimple(q, c.args[1]) && IsNode(n, n.id, c) && |n.kind.sons| == 2
    requires ValueAs(q, n.kind.sons[0], c.args[0], env, vectors) && ValueAs(q, n.kind.sons[1], c.args[1], env, vectors)
    ensures var e := CompareOf(q, n.kind);
      && e.Some?
      && e.value.test(S.Value(e.value.left, vectors), S.Value(e.value.right, vectors))
         == RoleIn(q, c).value.test(WordOf(q, c.args[0], env), WordOf(q, c.args[1], env))
  {
    hide SimpleOf, WordOf, IsSimple;
  }

  // ---------------------------------------------------------------- whole queries

  /**
   A query that consumes streams, from its text to its result: if it resolves, the tree that is built for it
   is an expression of the stream protocol, whose nodes and functions have indices and numbers of their own,
   and over any argument vectors it has the value that the query has under lexical scoping.
   */
  lemma {:induction false} StreamQueryMeaning(q: Algebras, cat: Catalog, e: Expr, depth: nat, vectors: S.Env)
    requires ValidCatalog(cat) && ScopedCatalog(cat) && WellScoped(cat, e, {}, {})
    requires var r := Resolve(cat, e, map[], [], depth);
      r.Some? && IsSimple(q, r.value.core) && Constructs(cat, r.value.core)
    requires AnnotateX(cat, e, depth).1.functionno < |vectors|
    ensures var (a, s) := AnnotateX(cat, e, depth);
      && Buildable(cat, a, |s.values|)
      && var (n, nodes) := Subtree(cat, a, s.values, 0);
      && var t := SimpleOf(q, n.isStream, n.kind);
      && t.Some? && WellIn(t.value, {}, 0, nodes, 0, s.functionno)
      && S.Value(t.value, vectors) == WordOf(q, Resolve(cat, e, map[], [], depth).value.core, map[])
  {
    var none: VarTable := map[];
    var (a, s) := AnnotateX(cat, e, depth);
    var c := Resolve(cat, e, map[], [], depth).value.core;
    ResolutionAgrees(cat, e, depth);
    ResolvedBuilds(cat, a, c, none, s.values);
    var cx := Context(cat, s.values, none, map[], 0);
    SubtreeSize(cat, a, s.values, 0);
    Outermost(cx, a, c, vectors);
    hide *;
    SimpleShape(q, cx, a, c, {}, 0, 0);
    SimpleMeaning(q, cx, a, c, {}, 0, 0, map[], vectors);
    Unfolded(q, cx, a, c, vectors);
  }

  lemma {:induction false} Outermost(cx: Context, a: Ann, c: Core, vectors: S.Env)
    requires cx.scope == map[] && Matches(a, c, cx.scope, cx.values) && Buildable(cx.cat, a, |cx.values|)
    requires Numbered(a, 0)
    ensures Compiled(cx, a, c, {}, 0) && HoldsWords(cx.scope, map[], vectors)
  {
    hide Matches, Buildable, Numbered;
  }

  lemma {:induction false} Unfolded(q: Algebras, cx: Context, a: Ann, c: Core, vectors: S.Env)
    requires Buildable(cx.cat, a, |cx.values|) && IsSimple(q, c)
    requires SimpleAs(q, Tree(cx, a, 0), {}, 0, Size(a), 0, Count(a)) && ValueAs(q, Tree(cx, a, 0), c, map[], vectors)
    ensures var n := Subtree(cx.cat, a, cx.values, 0).0;
      && var t := SimpleOf(q, n.isStream, n.kind);
      && t.Some? && WellIn(t.value, {}, 0, Size(a), 0, Count(a)) && S.Value(t.value, vectors) == WordOf(q, c, map[])
  {
    hide WellIn, SimpleOf, WordOf, IsSimple;
  }

  /** The expression has memory and vectors of its own. */
  lemma {:induction false} WellIsGood(e: S.Simple, m: S.Memory, functions: nat)
    requires WellIn(e, {}, 0, |m.results|, 0, functions) && S.Shaped(m) && functions < |m.env|
    ensures S.GoodIn(e, {}, m)
  {}

  /** Annotates the query, builds its tree and evaluates the streams in it by messages. */
  method Evaluate(q: Algebras, cat: Catalog, e: Expr, depth: nat) returns (w: Option<S.Word>)
    requires ValidCatalog(cat) && ScopedCatalog(cat) && WellScoped(cat, e, {}, {})
    requires var r := Resolve(cat, e, map[], [], depth);
      r.Some? && IsSimple(q, r.value.core) && Constructs(cat, r.value.core)
    ensures w == if AllDefined(cat, e, depth) then Some(WordOf(q, Resolve(cat, e, map[], [], depth).value.core, map[]))
                 else None
  {
    var processor := new QueryProcessor(cat);
    var a := processor.AnnotateX(e, depth);
    ResolvedAccepted(cat, e, depth);
    if !processor.defined { return None; }
    ghost var s := AnnotateX(cat, e, depth).1;
    StreamQueryMeaning(q, cat, e, depth, seq(processor.functionno + 1, _ => S.Number(0)));
    var n := processor.Subtree(a);
    var t := SimpleOf(q, n.isStream, n.kind);
    var evaluator := new S.StreamEvaluator(processor.nextNode, processor.functionno + 1);
    WellIsGood(t.value, evaluator.Now(), processor.functionno);
    StreamQueryMeaning(q, cat, e, depth, evaluator.Now().env);
    hide *;
    var v := evaluator.EvalSimple(t.value, {});
    w := Some(v);
  }
}
