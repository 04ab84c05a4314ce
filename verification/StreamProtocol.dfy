/**
 The stream protocol: evaluation of an operator node with the messages OPEN, REQUEST and CLOSE, for a
 small family of stream operators. What a node remembers between messages (the cached result of its
 simple argument, the operator's local state, whether it last yielded) is kept in arrays. The filter's
 parameter function is evaluated on every REQUEST, over an argument vector that it shares with nothing
 else; it may use the parameters of functions around it and consume streams of its own.
 */
module StreamProtocol {
  import opened Wrappers

  datatype Word = Number(n: int) | List(elems: seq<int>)

  function AsNumber(w: Word): int {
    if w.Number? then w.n else 0
  }

  function AsList(w: Word): seq<int> {
    if w.List? then w.elems else []
  }

  /**
   A node that produces a stream. Every node has an index of its own into the arrays; the filter's
   function has number `fun` and compares two simple expressions.
   */
  datatype Stream =
    | Feed(id: nat, arg: Simple)
    | Filter(id: nat, src: Stream, fun: nat, left: Simple, test: (Word, Word) -> bool, right: Simple)
    | Head(id: nat, src: Stream, arg: Simple)
    | Concat(id: nat, first: Stream, second: Stream)

  /** A node that is evaluated to a value: a constant, the parameter of a function, or a stream consumed. */
  datatype Simple = Const(w: Word) | Param(fun: nat) | Consume(input: Stream)

  datatype Message = OPEN | REQUEST | CLOSE

  datatype Status = YIELD | CANCEL

  // ---------------------------------------------------------------- denotation

  /** The parameter of each function. */
  type Env = seq<Word>

  function Lookup(env: Env, f: nat): Word {
    if f < |env| then env[f] else Number(0)
  }

  function Bind(env: Env, f: nat, w: Word): (r: Env)
    ensures |r| == |env|
  {
    if f < |env| then env[f := w] else env
  }

  function Take(s: seq<int>, n: int): seq<int> {
    if n <= 0 then [] else if n <= |s| then s[..n] else s
  }

  /** The list that a stream stands for when parameters have the values `env`. */
  function Denote(t: Stream, env: Env): seq<int>
    decreases t, 1, 0
  {
    match t
    case Feed(_, arg) => AsList(Value(arg, env))
    case Filter(_, src, _, _, _, _) => Select(t, Denote(src, env), env)
    case Head(_, src, arg) => Take(Denote(src, env), AsNumber(Value(arg, env)))
    case Concat(_, first, second) => Denote(first, env) + Denote(second, env)
  }

  function Value(e: Simple, env: Env): Word
    decreases e, 1, 0
  {
    match e
    case Const(w) => w
    case Param(f) => Lookup(env, f)
    case Consume(input) => List(Denote(input, env))
  }

  /** The filter's function on one element. */
  predicate Keeps(t: Stream, x: int, env: Env)
    requires t.Filter?
    decreases t, 0, 0
  {
    var inner := Bind(env, t.fun, Number(x));
    t.test(Value(t.left, inner), Value(t.right, inner))
  }

  function Select(t: Stream, s: seq<int>, env: Env): seq<int>
    requires t.Filter?
    decreases t, 0, |s| + 1
  {
    if s == [] then [] else (if Keeps(t, s[0], env) then [s[0]] else []) + Select(t, s[1..], env)
  }

  // ---------------------------------------------------------------- nodes and functions

  function Ids(t: Stream): set<nat> {
    {t.id} + match t
             case Feed(_, arg) => IdsOf(arg)
             case Filter(_, src, _, left, _, right) => Ids(src) + IdsOf(left) + IdsOf(right)
             case Head(_, src, arg) => Ids(src) + IdsOf(arg)
             case Concat(_, first, second) => Ids(first) + Ids(second)
  }

  function IdsOf(e: Simple): set<nat> {
    if e.Consume? then Ids(e.input) else {}
  }

  /** No two nodes share an index. */
  ghost predicate Distinct(t: Stream) {
    match t
    case Feed(id, arg) => id !in IdsOf(arg) && DistinctIn(arg)
    case Filter(id, src, _, left, _, right) =>
      && id !in Ids(src) + IdsOf(left) + IdsOf(right)
      && Ids(src) !! IdsOf(left) && Ids(src) !! IdsOf(right) && IdsOf(left) !! IdsOf(right)
      && Distinct(src) && DistinctIn(left) && DistinctIn(right)
    case Head(id, src, arg) =>
      id !in Ids(src) + IdsOf(arg) && Ids(src) !! IdsOf(arg) && Distinct(src) && DistinctIn(arg)
    case Concat(id, first, second) =>
      id !in Ids(first) + Ids(second) && Ids(first) !! Ids(second) && Distinct(first) && Distinct(second)
  }

  ghost predicate DistinctIn(e: Simple) {
    e.Consume? ==> Distinct(e.input)
  }

  /** The nodes that get messages when the root does: neither in arguments nor in functions. */
  function Spine(t: Stream): (r: set<nat>)
    ensures r <= Ids(t)
  {
    {t.id} + match t
             case Feed(_, _) => {}
             case Filter(_, src, _, _, _, _) => Spine(src)
             case Head(_, src, _) => Spine(src)
             case Concat(_, first, second) => Spine(first) + Spine(second)
  }

  /** Those of them that have a simple argument. */
  function Caching(t: Stream): (r: set<nat>)
    ensures r <= Spine(t)
  {
    match t
    case Feed(id, _) => {id}
    case Filter(_, src, _, _, _, _) => Caching(src)
    case Head(id, src, _) => {id} + Caching(src)
    case Concat(_, first, second) => Caching(first) + Caching(second)
  }

  /** Numbers of the functions in a stream, whose argument vectors its evaluation writes. */
  function Functions(t: Stream): set<nat> {
    match t
    case Feed(_, arg) => FunctionsOf(arg)
    case Filter(_, src, f, left, _, right) => {f} + Functions(src) + FunctionsOf(left) + FunctionsOf(right)
    case Head(_, src, arg) => Functions(src) + FunctionsOf(arg)
    case Concat(_, first, second) => Functions(first) + Functions(second)
  }

  function FunctionsOf(e: Simple): set<nat> {
    if e.Consume? then Functions(e.input) else {}
  }

  /** Parameters of functions around a stream that its functions read: again on every REQUEST. */
  function Live(t: Stream): set<nat> {
    match t
    case Feed(_, _) => {}
    case Filter(_, src, f, left, _, right) => Live(src) + (Reads(left) + Reads(right) - {f})
    case Head(_, src, _) => Live(src)
    case Concat(_, first, second) => Live(first) + Live(second)
  }

  /** All parameters of functions around an expression that its evaluation reads. */
  function Reads(e: Simple): set<nat> {
    match e
    case Const(_) => {}
    case Param(f) => {f}
    case Consume(input) => ReadsIn(input)
  }

  function ReadsIn(t: Stream): set<nat> {
    match t
    case Feed(_, arg) => Reads(arg)
    case Filter(_, src, f, left, _, right) => ReadsIn(src) + (Reads(left) + Reads(right) - {f})
    case Head(_, src, arg) => ReadsIn(src) + Reads(arg)
    case Concat(_, first, second) => ReadsIn(first) + ReadsIn(second)
  }

  /** Scoping by numbers: parameters belong to functions in scope, and a function's number is not one of theirs. */
  ghost predicate Numbered(t: Stream, scope: set<nat>) {
    match t
    case Feed(_, arg) => NumberedIn(arg, scope)
    case Filter(_, src, f, left, _, right) =>
      f !in scope && Numbered(src, scope) && NumberedIn(left, scope + {f}) && NumberedIn(right, scope + {f})
    case Head(_, src, arg) => Numbered(src, scope) && NumberedIn(arg, scope)
    case Concat(_, first, second) => Numbered(first, scope) && Numbered(second, scope)
  }

  ghost predicate NumberedIn(e: Simple, scope: set<nat>) {
    match e
    case Const(_) => true
    case Param(f) => f in scope
    case Consume(input) => Numbered(input, scope)
  }

  /** So evaluation writes no vector that it, or anything around it, reads. */
  lemma {:induction false} Separate(t: Stream, scope: set<nat>)
    requires Numbered(t, scope)
    ensures ReadsIn(t) <= scope && Live(t) <= scope && Functions(t) !! scope
  {
    match t
    case Feed(_, arg) => SeparateIn(arg, scope);
    case Filter(_, src, f, left, _, right) =>
      Separate(src, scope);
      SeparateIn(left, scope + {f});
      SeparateIn(right, scope + {f});
    case Head(_, src, arg) =>
      Separate(src, scope);
      SeparateIn(arg, scope);
    case Concat(_, first, second) =>
      Separate(first, scope);
      Separate(second, scope);
  }

  lemma {:induction false} SeparateIn(e: Simple, scope: set<nat>)
    requires NumberedIn(e, scope)
    ensures Reads(e) <= scope && FunctionsOf(e) !! scope
  {
    if e.Consume? { Separate(e.input, scope); }
  }

  // ---------------------------------------------------------------- what meanings depend on

  ghost predicate Same<T>(s: seq<T>, s': seq<T>, indices: set<nat>)
  {
    |s| == |s'| && forall i :: i in indices && i < |s| ==> s[i] == s'[i]
  }

  lemma {:induction false} DenoteFrame(t: Stream, env: Env, env': Env)
    requires Same(env, env', ReadsIn(t))
    ensures Denote(t, env) == Denote(t, env')
    decreases t, 1, 0
  {
    match t
    case Feed(_, arg) => ValueFrame(arg, env, env');
    case Filter(_, src, _, _, _, _) =>
      DenoteFrame(src, env, env');
      SelectFrame(t, Denote(src, env), env, env');
    case Head(_, src, arg) =>
      DenoteFrame(src, env, env');
      ValueFrame(arg, env, env');
    case Concat(_, first, second) =>
      DenoteFrame(first, env, env');
      DenoteFrame(second, env, env');
  }

  lemma {:induction false} ValueFrame(e: Simple, env: Env, env': Env)
    requires Same(env, env', Reads(e))
    ensures Value(e, env) == Value(e, env')
    decreases e, 1, 0
  {
    match e
    case Param(f) => assert f in Reads(e);
    case Consume(input) => DenoteFrame(input, env, env');
    case _ =>
  }

  lemma {:induction false} KeepsFrame(t: Stream, x: int, env: Env, env': Env)
    requires t.Filter? && Same(env, env', Reads(t.left) + Reads(t.right) - {t.fun})
    ensures Keeps(t, x, env) == Keeps(t, x, env')
    decreases t, 0, 0
  {
    var inner, inner' := Bind(env, t.fun, Number(x)), Bind(env', t.fun, Number(x));
    assert Same(inner, inner', Reads(t.left)) && Same(inner, inner', Reads(t.right));
    ValueFrame(t.left, inner, inner');
    ValueFrame(t.right, inner, inner');
  }

  lemma {:induction false} SelectFrame(t: Stream, s: seq<int>, env: Env, env': Env)
    requires t.Filter? && Same(env, env', Reads(t.left) + Reads(t.right) - {t.fun})
    ensures Select(t, s, env) == Select(t, s, env')
    decreases t, 0, |s| + 1
  {
    if s != [] {
      KeepsFrame(t, s[0], env, env');
      SelectFrame(t, s[1..], env, env');
    }
  }

  // ---------------------------------------------------------------- what an open stream will still deliver

  ghost predicate Fits(t: Stream, n: nat) {
    forall i :: i in Ids(t) ==> i < n
  }

  /** It depends on the memory of its own nodes, and on the parameters that its functions read. */
  function Rest(t: Stream, results: seq<Word>, locals: seq<nat>, env: Env): seq<int>
    requires |results| == |locals| && Fits(t, |results|)
  {
    assert t.id in Ids(t);
    match t
    case Feed(id, _) =>
      var list := AsList(results[id]);
      if locals[id] <= |list| then list[locals[id]..] else []
    case Filter(id, src, _, _, _, _) =>
      assert Ids(src) <= Ids(t);
      Select(t, Rest(src, results, locals, env), env)
    case Head(id, src, _) =>
      assert Ids(src) <= Ids(t);
      Take(Rest(src, results, locals, env), AsNumber(results[id]) - locals[id])
    case Concat(id, first, second) =>
      assert Ids(first) <= Ids(t) && Ids(second) <= Ids(t);
      if locals[id] == 0 then Rest(first, results, locals, env) + Rest(second, results, locals, env)
      else Rest(second, results, locals, env)
  }

  lemma {:induction false} RestFrame(t: Stream, results: seq<Word>, locals: seq<nat>, env: Env, results': seq<Word>,
                                     locals': seq<nat>, env': Env)
    requires |results| == |locals| && Fits(t, |results|)
    requires Same(results, results', Spine(t)) && Same(locals, locals', Spine(t)) && Same(env, env', Live(t))
    ensures Rest(t, results', locals', env') == Rest(t, results, locals, env)
  {
    assert t.id in Ids(t) && t.id in Spine(t);
    match t
    case Feed(_, _) =>
    case Filter(_, src, _, _, _, _) =>
      assert Ids(src) <= Ids(t) && Spine(src) <= Spine(t);
      RestFrame(src, results, locals, env, results', locals', env');
      SelectFrame(t, Rest(src, results, locals, env), env, env');
    case Head(_, src, _) =>
      assert Ids(src) <= Ids(t) && Spine(src) <= Spine(t);
      RestFrame(src, results, locals, env, results', locals', env');
    case Concat(_, first, second) =>
      assert Ids(first) <= Ids(t) && Ids(second) <= Ids(t) && Spine(first) <= Spine(t) && Spine(second) <= Spine(t);
      RestFrame(first, results, locals, env, results', locals', env');
      RestFrame(second, results, locals, env, results', locals', env');
  }

  // ---------------------------------------------------------------- memory

  /**
   What all nodes remember, how often each has evaluated its simple argument, and the argument vectors:
   what each function was last called with.
   */
  datatype Memory = Memory(
    results: seq<Word>, locals: seq<nat>, received: seq<bool>, evaluated: seq<nat>, env: Env)

  ghost predicate Shaped(m: Memory) {
    |m.results| == |m.locals| == |m.received| == |m.evaluated|
  }

  /** The stream's nodes have memory, and its functions argument vectors of their own. */
  ghost predicate Good(t: Stream, scope: set<nat>, m: Memory) {
    && Shaped(m) && Fits(t, |m.results|) && Distinct(t)
    && Numbered(t, scope) && forall f :: f in Functions(t) ==> f < |m.env|
  }

  ghost predicate GoodIn(e: Simple, scope: set<nat>, m: Memory) {
    && Shaped(m) && (e.Consume? ==> Good(e.input, scope, m)) && NumberedIn(e, scope)
  }

  /** Only the nodes in `ids` have changed what they remember, and only functions in `funs` were called. */
  ghost predicate Kept(m: Memory, m': Memory, ids: set<nat>, funs: set<nat>) {
    && Shaped(m) && Shaped(m') && |m'.results| == |m.results| && |m'.env| == |m.env|
    && (forall i :: 0 <= i < |m.results| && i !in ids ==> SameNode(m, m', i))
    && (forall f :: 0 <= f < |m.env| && f !in funs ==> m'.env[f] == m.env[f])
  }

  ghost predicate SameNode(m: Memory, m': Memory, i: nat)
    requires Shaped(m) && Shaped(m') && |m'.results| == |m.results| && i < |m.results|
  {
    && m'.results[i] == m.results[i] && m'.locals[i] == m.locals[i]
    && m'.received[i] == m.received[i] && m'.evaluated[i] == m.evaluated[i]
  }

  /** The simple arguments of these nodes have not been evaluated again. */
  ghost predicate Cached(m: Memory, m': Memory, ids: set<nat>) {
    && |m'.results| == |m.results| && |m'.evaluated| == |m.evaluated| == |m.results|
    && forall i :: i in ids && i < |m.results| ==> m'.results[i] == m.results[i] && m'.evaluated[i] == m.evaluated[i]
  }

  /** Each of these nodes has evaluated its simple argument once. */
  ghost predicate EvaluatedOnce(m: Memory, m': Memory, ids: set<nat>) {
    && |m'.evaluated| == |m.evaluated|
    && forall i :: i in ids && i < |m.evaluated| ==> m'.evaluated[i] == m.evaluated[i] + 1
  }

  /** What an open stream will still deliver. */
  ghost function Left(t: Stream, m: Memory): seq<int>
    requires Shaped(m) && Fits(t, |m.results|)
  {
    Rest(t, m.results, m.locals, m.env)
  }

  /** A request has delivered the first element that was left, or found that there was none. */
  ghost predicate Delivers(t: Stream, m: Memory, m': Memory, result: int)
    requires Shaped(m) && Shaped(m') && Fits(t, |m.results|) && Fits(t, |m'.results|)
  {
    if Left(t, m) != [] then [result] + Left(t, m') == Left(t, m) else Left(t, m') == []
  }

  lemma {:induction false} KeptTwice(m: Memory, m1: Memory, m2: Memory, a: set<nat>, fa: set<nat>, b: set<nat>,
                                     fb: set<nat>, ids: set<nat>, funs: set<nat>)
    requires Kept(m, m1, a, fa) && Kept(m1, m2, b, fb) && a + b <= ids && fa + fb <= funs
    ensures Kept(m, m2, ids, funs)
  {}

  lemma {:induction false} KeptThrice(t: Stream, m: Memory, m1: Memory, m2: Memory, m3: Memory)
    requires Kept(m, m1, Ids(t), Functions(t)) && Kept(m1, m2, Ids(t), Functions(t))
    requires Kept(m2, m3, Ids(t), Functions(t))
    ensures Kept(m, m3, Ids(t), Functions(t))
  {
    hide Kept;
    KeptTwice(m, m1, m2, Ids(t), Functions(t), Ids(t), Functions(t), Ids(t), Functions(t));
    KeptTwice(m, m2, m3, Ids(t), Functions(t), Ids(t), Functions(t), Ids(t), Functions(t));
  }

  lemma {:induction false} KeptLeft(t: Stream, m: Memory, m': Memory, ids: set<nat>, funs: set<nat>)
    requires Kept(m, m', ids, funs) && Spine(t) !! ids && Live(t) !! funs && Fits(t, |m.results|)
    ensures Left(t, m') == Left(t, m)
  {
    forall i | i in Spine(t) && i < |m.results| ensures m'.results[i] == m.results[i] && m'.locals[i] == m.locals[i] {
      assert SameNode(m, m', i);
    }
    RestFrame(t, m.results, m.locals, m.env, m'.results, m'.locals, m'.env);
  }

  lemma {:induction false} KeptCached(m: Memory, m': Memory, ids: set<nat>, funs: set<nat>, cached: set<nat>)
    requires Kept(m, m', ids, funs) && cached !! ids
    ensures Cached(m, m', cached)
  {
    forall i | i in cached && i < |m.results|
      ensures m'.results[i] == m.results[i] && m'.evaluated[i] == m.evaluated[i] {
      assert SameNode(m, m', i);
    }
  }

  lemma {:induction false} CachedTwice(m: Memory, m1: Memory, m2: Memory, ids: set<nat>)
    requires Cached(m, m1, ids) && Cached(m1, m2, ids)
    ensures Cached(m, m2, ids)
  {}

  lemma {:induction false} KeptGood(t: Stream, scope: set<nat>, m: Memory, m': Memory, ids: set<nat>, funs: set<nat>)
    requires Good(t, scope, m) && Kept(m, m', ids, funs)
    ensures Good(t, scope, m')
  {}

  lemma {:induction false} KeptGoodIn(e: Simple, scope: set<nat>, m: Memory, m': Memory, ids: set<nat>, funs: set<nat>)
    requires GoodIn(e, scope, m) && Kept(m, m', ids, funs)
    ensures GoodIn(e, scope, m')
  {}

  lemma {:induction false} KeptDenotes(t: Stream, m: Memory, m': Memory, ids: set<nat>, funs: set<nat>)
    requires Kept(m, m', ids, funs) && ReadsIn(t) !! funs
    ensures Denote(t, m'.env) == Denote(t, m.env)
  {
    DenoteFrame(t, m.env, m'.env);
  }

  lemma {:induction false} KeptWider(m: Memory, m': Memory, a: set<nat>, fa: set<nat>, ids: set<nat>, funs: set<nat>)
    requires Kept(m, m', a, fa) && a <= ids && fa <= funs
    ensures Kept(m, m', ids, funs)
  {}

  lemma {:induction false} KeptNode(m: Memory, m': Memory, ids: set<nat>, funs: set<nat>, i: nat)
    requires Kept(m, m', ids, funs) && i !in ids && Shaped(m) && i < |m.results|
    ensures Shaped(m') && |m'.results| == |m.results| && |m'.env| == |m.env|
    ensures m'.results[i] == m.results[i] && m'.locals[i] == m.locals[i]
    ensures m'.received[i] == m.received[i] && m'.evaluated[i] == m.evaluated[i]
  {
    assert SameNode(m, m', i);
  }

  lemma {:induction false} CachedBoth(m: Memory, m': Memory, a: set<nat>, b: set<nat>)
    requires Cached(m, m', a) && Cached(m, m', b)
    ensures Cached(m, m', a + b)
  {}

  lemma {:induction false} OnceEach(m: Memory, m1: Memory, m2: Memory, a: set<nat>, ids: set<nat>, funs: set<nat>,
                                    b: set<nat>, ids': set<nat>, funs': set<nat>)
    requires Kept(m, m1, ids, funs) && EvaluatedOnce(m, m1, a) && a !! ids'
    requires Kept(m1, m2, ids', funs') && EvaluatedOnce(m1, m2, b) && b !! ids
    ensures EvaluatedOnce(m, m2, a + b)
  {
    forall i | i in a + b && i < |m.evaluated| ensures m2.evaluated[i] == m.evaluated[i] + 1 {
      if i in a { assert SameNode(m1, m2, i); } else { assert SameNode(m, m1, i); }
    }
  }

  lemma {:induction false} OnceStill(m: Memory, m1: Memory, m2: Memory, a: set<nat>)
    requires EvaluatedOnce(m, m1, a) && m2.evaluated == m1.evaluated
    ensures EvaluatedOnce(m, m2, a)
  {}

  lemma TakeStep(s: seq<int>, x: int, rest: seq<int>, n: int)
    requires s == [x] + rest && n > 0
    ensures Take(s, n) == [x] + Take(rest, n - 1)
  {}

  lemma TakeNone(s: seq<int>, n: int)
    requires s == [] || n <= 0
    ensures Take(s, n) == []
  {}

  /** What a request promises, unfolded. */
  lemma {:induction false} Delivered(t: Stream, m: Memory, m': Memory, result: int)
    requires Shaped(m) && Shaped(m') && Fits(t, |m.results|) && Fits(t, |m'.results|)
    ensures Delivers(t, m, m', result) <==>
            if Left(t, m) != [] then [result] + Left(t, m') == Left(t, m) else Left(t, m') == []
  {}

  lemma {:induction false} InnerGood(e: Simple, scope: set<nat>, m: Memory)
    requires Shaped(m) && DistinctIn(e) && NumberedIn(e, scope)
    requires forall i :: i in IdsOf(e) ==> i < |m.results|
    requires forall f :: f in FunctionsOf(e) ==> f < |m.env|
    ensures GoodIn(e, scope, m)
  {
    if e.Consume? { assert IdsOf(e) == Ids(e.input) && FunctionsOf(e) == Functions(e.input); }
  }

  // The parts of each operator: their nodes and functions do not get in each other's way.

  lemma {:induction false} ConcatParts(t: Stream, scope: set<nat>, m: Memory)
    requires Good(t, scope, m) && t.Concat?
    ensures Good(t.first, scope, m) && Good(t.second, scope, m) && Shaped(m) && t.id < |m.results|
    ensures Fits(t, |m.results|) && Fits(t.first, |m.results|) && Fits(t.second, |m.results|)
    ensures Left(t, m) == if m.locals[t.id] == 0 then Left(t.first, m) + Left(t.second, m) else Left(t.second, m)
    ensures Denote(t, m.env) == Denote(t.first, m.env) + Denote(t.second, m.env)
  {
    assert t.id in Ids(t) && Ids(t.first) <= Ids(t) && Ids(t.second) <= Ids(t);
    assert Functions(t.first) <= Functions(t) && Functions(t.second) <= Functions(t);
  }

  lemma {:induction false} Grouped(x: int, s: seq<int>, t: seq<int>)
    ensures ([x] + s) + t == [x] + (s + t)
  {}

  lemma {:induction false} ConcatSets(t: Stream, scope: set<nat>)
    requires t.Concat? && Distinct(t) && Numbered(t, scope)
    ensures {t.id} + Ids(t.first) + Ids(t.second) <= Ids(t) && Functions(t.first) + Functions(t.second) <= Functions(t)
    ensures t.id !in Ids(t.first) && t.id !in Ids(t.second) && Ids(t.first) !! Ids(t.second)
    ensures Spine(t) == {t.id} + Spine(t.first) + Spine(t.second) && Caching(t) == Caching(t.first) + Caching(t.second)
    ensures Live(t.first) + Live(t.second) !! Functions(t) && ReadsIn(t.first) + ReadsIn(t.second) !! Functions(t)
  {
    Separate(t.first, scope);
    Separate(t.second, scope);
    Separate(t, scope);
  }

  /** After a message to one of the two streams of a concatenation: the other is as it was. */
  lemma {:induction false} ConcatPassed(t: Stream, scope: set<nat>, m: Memory, m': Memory, part: Stream, other: Stream)
    requires Good(t, scope, m) && t.Concat?
    requires (part == t.first && other == t.second) || (part == t.second && other == t.first)
    requires Kept(m, m', Ids(part), Functions(part))
    ensures Kept(m, m', Ids(t), Functions(t)) && Good(t, scope, m') && Shaped(m) && Shaped(m')
    ensures t.id < |m.results| == |m'.results|
    ensures m'.locals[t.id] == m.locals[t.id]
    ensures Fits(other, |m.results|) && Fits(other, |m'.results|) && Left(other, m') == Left(other, m)
    ensures Denote(other, m'.env) == Denote(other, m.env)
    ensures Cached(m, m', Spine(part)) ==> Cached(m, m', Spine(t))
  {
    ConcatParts(t, scope, m);
    GoodShape(t, scope, m);
    ConcatSets(t, scope);
    hide *;
    KeptWider(m, m', Ids(part), Functions(part), Ids(t), Functions(t));
    KeptGood(t, scope, m, m', Ids(t), Functions(t));
    KeptNode(m, m', Ids(part), Functions(part), t.id);
    KeptLeft(other, m, m', Ids(part), Functions(part));
    KeptDenotes(other, m, m', Ids(part), Functions(part));
    if Cached(m, m', Spine(part)) { ConcatCached(t, scope, m, m', part, other); }
  }

  lemma {:induction false} ConcatCached(t: Stream, scope: set<nat>, m: Memory, m': Memory, part: Stream, other: Stream)
    requires t.Concat? && Distinct(t) && Numbered(t, scope)
    requires (part == t.first && other == t.second) || (part == t.second && other == t.first)
    requires Kept(m, m', Ids(part), Functions(part)) && Cached(m, m', Spine(part))
    ensures Cached(m, m', Spine(t))
  {
    ConcatSets(t, scope);
    hide *;
    KeptCached(m, m', Ids(part), Functions(part), {t.id} + Spine(other));
    CachedBoth(m, m', Spine(part), {t.id} + Spine(other));
    assert Spine(part) + ({t.id} + Spine(other)) == Spine(t);
  }

  /** After a write to the operator's own state. */
  lemma {:induction false} ConcatWritten(t: Stream, scope: set<nat>, m: Memory, m': Memory)
    requires Good(t, scope, m) && t.Concat? && Kept(m, m', {t.id}, {})
    requires m'.results == m.results && m'.evaluated == m.evaluated
    ensures Kept(m, m', Ids(t), Functions(t)) && Good(t, scope, m') && Cached(m, m', Spine(t))
    ensures Fits(t.first, |m.results|) && Fits(t.second, |m.results|)
    ensures |m'.results| == |m.results| && Shaped(m) && Shaped(m')
    ensures Left(t.first, m') == Left(t.first, m) && Left(t.second, m') == Left(t.second, m)
  {
    ConcatParts(t, scope, m);
    ConcatSets(t, scope);
    hide *;
    KeptWider(m, m', {t.id}, {}, Ids(t), Functions(t));
    KeptGood(t, scope, m, m', Ids(t), Functions(t));
    KeptLeft(t.first, m, m', {t.id}, {});
    KeptLeft(t.second, m, m', {t.id}, {});
    CachedSame(m, m', Spine(t));
  }

  lemma {:induction false} ConcatOnce(t: Stream, scope: set<nat>, m: Memory, m1: Memory, m2: Memory)
    requires t.Concat? && Distinct(t) && Numbered(t, scope)
    requires Kept(m, m1, Ids(t.first), Functions(t.first)) && EvaluatedOnce(m, m1, Caching(t.first))
    requires Kept(m1, m2, Ids(t.second), Functions(t.second)) && EvaluatedOnce(m1, m2, Caching(t.second))
    ensures EvaluatedOnce(m, m2, Caching(t))
  {
    ConcatSets(t, scope);
    OnceEach(m, m1, m2, Caching(t.first), Ids(t.first), Functions(t.first),
             Caching(t.second), Ids(t.second), Functions(t.second));
  }

  lemma {:induction false} HeadParts(t: Stream, scope: set<nat>, m: Memory)
    requires Good(t, scope, m) && t.Head?
    ensures Good(t.src, scope, m) && GoodIn(t.arg, scope, m) && Shaped(m) && t.id < |m.results|
    ensures Fits(t, |m.results|) && Fits(t.src, |m.results|) && t.id !in IdsOf(t.arg)
    ensures Left(t, m) == Take(Left(t.src, m), AsNumber(m.results[t.id]) - m.locals[t.id])
    ensures Denote(t, m.env) == Take(Denote(t.src, m.env), AsNumber(Value(t.arg, m.env)))
  {
    assert t.id in Ids(t) && Ids(t.src) <= Ids(t) && IdsOf(t.arg) <= Ids(t);
    assert Functions(t.src) <= Functions(t) && FunctionsOf(t.arg) <= Functions(t);
    InnerGood(t.arg, scope, m);
  }

  lemma {:induction false} HeadSets(t: Stream, scope: set<nat>)
    requires t.Head? && Distinct(t) && Numbered(t, scope)
    ensures {t.id} + Ids(t.src) + IdsOf(t.arg) <= Ids(t) && Functions(t.src) + FunctionsOf(t.arg) <= Functions(t)
    ensures t.id !in Ids(t.src) && t.id !in IdsOf(t.arg) && Ids(t.src) !! IdsOf(t.arg)
    ensures Spine(t) == {t.id} + Spine(t.src) && Caching(t) == {t.id} + Caching(t.src)
    ensures ReadsIn(t.src) !! FunctionsOf(t.arg)
  {
    Separate(t.src, scope);
    SeparateIn(t.arg, scope);
  }

  lemma {:induction false} HeadLoaded(t: Stream, scope: set<nat>, m: Memory, m': Memory)
    requires Good(t, scope, m) && t.Head? && Kept(m, m', {t.id} + IdsOf(t.arg), FunctionsOf(t.arg))
    ensures Kept(m, m', Ids(t), Functions(t)) && Good(t, scope, m') && Denote(t.src, m'.env) == Denote(t.src, m.env)
  {
    HeadSets(t, scope);
    hide *;
    KeptWider(m, m', {t.id} + IdsOf(t.arg), FunctionsOf(t.arg), Ids(t), Functions(t));
    KeptGood(t, scope, m, m', Ids(t), Functions(t));
    KeptDenotes(t.src, m, m', {t.id} + IdsOf(t.arg), FunctionsOf(t.arg));
  }

  lemma {:induction false} HeadPassed(t: Stream, scope: set<nat>, m: Memory, m': Memory)
    requires Good(t, scope, m) && t.Head? && Kept(m, m', Ids(t.src), Functions(t.src))
    ensures Kept(m, m', Ids(t), Functions(t)) && Good(t, scope, m') && Shaped(m) && Shaped(m')
    ensures t.id < |m.results| == |m'.results|
    ensures m'.locals[t.id] == m.locals[t.id] && m'.results[t.id] == m.results[t.id]
    ensures Cached(m, m', Spine(t.src)) ==> Cached(m, m', Spine(t))
  {
    HeadParts(t, scope, m);
    HeadSets(t, scope);
    hide *;
    KeptWider(m, m', Ids(t.src), Functions(t.src), Ids(t), Functions(t));
    KeptGood(t, scope, m, m', Ids(t), Functions(t));
    KeptNode(m, m', Ids(t.src), Functions(t.src), t.id);
    if Cached(m, m', Spine(t.src)) {
      KeptCached(m, m', Ids(t.src), Functions(t.src), {t.id});
      CachedBoth(m, m', {t.id}, Spine(t.src));
    }
  }

  lemma {:induction false} HeadWritten(t: Stream, scope: set<nat>, m: Memory, m': Memory)
    requires Good(t, scope, m) && t.Head? && Kept(m, m', {t.id}, {})
    requires m'.results == m.results && m'.evaluated == m.evaluated
    ensures Kept(m, m', Ids(t), Functions(t)) && Good(t, scope, m') && Cached(m, m', Spine(t))
    ensures Shaped(m) && Shaped(m')
    ensures Fits(t.src, |m.results|) && |m'.results| == |m.results| && Left(t.src, m') == Left(t.src, m)
  {
    HeadParts(t, scope, m);
    HeadSets(t, scope);
    hide *;
    KeptWider(m, m', {t.id}, {}, Ids(t), Functions(t));
    KeptGood(t, scope, m, m', Ids(t), Functions(t));
    KeptLeft(t.src, m, m', {t.id}, {});
    CachedSame(m, m', Spine(t));
  }

  lemma {:induction false} HeadOnce(t: Stream, scope: set<nat>, m: Memory, m1: Memory, m2: Memory)
    requires t.Head? && Distinct(t) && Numbered(t, scope)
    requires Kept(m, m1, {t.id} + IdsOf(t.arg), FunctionsOf(t.arg)) && EvaluatedOnce(m, m1, {t.id})
    requires Kept(m1, m2, Ids(t.src), Functions(t.src)) && EvaluatedOnce(m1, m2, Caching(t.src))
    ensures EvaluatedOnce(m, m2, Caching(t))
  {
    HeadSets(t, scope);
    OnceEach(m, m1, m2, {t.id}, {t.id} + IdsOf(t.arg), FunctionsOf(t.arg), Caching(t.src), Ids(t.src),
             Functions(t.src));
  }

  lemma {:induction false} FilterParts(t: Stream, scope: set<nat>, m: Memory)
    requires Good(t, scope, m) && t.Filter?
    ensures Good(t.src, scope, m) && t.id < |m.results| && Fits(t, |m.results|) && t.fun < |m.env|
    ensures GoodIn(t.left, scope + {t.fun}, m) && GoodIn(t.right, scope + {t.fun}, m)
    ensures Fits(t.src, |m.results|) && t.src.id < |m.results|
    ensures Left(t, m) == Select(t, Left(t.src, m), m.env) && Denote(t, m.env) == Select(t, Denote(t.src, m.env), m.env)
    ensures {t.id} + Ids(t.src) + IdsOf(t.left) + IdsOf(t.right) <= Ids(t) && t.src.id in Ids(t.src)
    ensures Functions(t.src) + Called(t) <= Functions(t)
    ensures t.id !in Ids(t.src) && Ids(t.src) !! IdsOf(t.left) + IdsOf(t.right)
    ensures t.id !in IdsOf(t.left) + IdsOf(t.right)
    ensures Spine(t) == {t.id} + Spine(t.src) && Caching(t) == Caching(t.src)
  {
    assert t.id in Ids(t) && Ids(t.src) <= Ids(t) && IdsOf(t.left) <= Ids(t) && IdsOf(t.right) <= Ids(t);
    assert Functions(t.src) <= Functions(t) && FunctionsOf(t.left) <= Functions(t)
           && FunctionsOf(t.right) <= Functions(t);
    assert t.src.id in Ids(t.src) && t.fun in Functions(t);
    InnerGood(t.left, scope + {t.fun}, m);
    InnerGood(t.right, scope + {t.fun}, m);
  }

  /** The filter's function and those inside it. */
  function Called(t: Stream): set<nat>
    requires t.Filter?
  {
    {t.fun} + FunctionsOf(t.left) + FunctionsOf(t.right)
  }

  /** Functions called by one part are not read by another, nor from around the stream. */
  lemma {:induction false} FilterSeparate(t: Stream, scope: set<nat>)
    requires t.Filter? && Numbered(t, scope)
    ensures Live(t.src) !! Called(t) && Reads(t.right) !! FunctionsOf(t.left)
    ensures Reads(t.left) + Reads(t.right) - {t.fun} !! Functions(t)
  {
    Separate(t, scope);
    Separate(t.src, scope);
    SeparateIn(t.left, scope + {t.fun});
    SeparateIn(t.right, scope + {t.fun});
  }

  lemma {:induction false} KeptNone(m: Memory, ids: set<nat>, funs: set<nat>, cached: set<nat>)
    requires Shaped(m)
    ensures Kept(m, m, ids, funs) && Cached(m, m, cached)
  {}

  lemma {:induction false} CachedSame(m: Memory, m': Memory, ids: set<nat>)
    requires Shaped(m) && m'.results == m.results && m'.evaluated == m.evaluated
    ensures Cached(m, m', ids)
  {}

  lemma {:induction false} OnceCached(t: Stream, m: Memory, m1: Memory, m2: Memory)
    requires EvaluatedOnce(m, m1, Caching(t)) && Cached(m1, m2, Spine(t))
    ensures EvaluatedOnce(m, m2, Caching(t))
  {}

  lemma {:induction false} GoodFits(t: Stream, scope: set<nat>, m: Memory)
    requires Good(t, scope, m)
    ensures Shaped(m) && Fits(t, |m.results|) && t.id < |m.results|
  {
    assert t.id in Ids(t);
  }

  lemma {:induction false} GoodShape(t: Stream, scope: set<nat>, m: Memory)
    requires Good(t, scope, m)
    ensures Distinct(t) && Numbered(t, scope)
  {}

  lemma {:induction false} KeptValue(e: Simple, m: Memory, m': Memory, ids: set<nat>, funs: set<nat>)
    requires Kept(m, m', ids, funs) && Reads(e) !! funs
    ensures Value(e, m'.env) == Value(e, m.env)
  {
    ValueFrame(e, m.env, m'.env);
  }

  /** Recording whether a node yielded. */
  lemma {:induction false} Noted(t: Stream, scope: set<nat>, m: Memory, m': Memory)
    requires Good(t, scope, m) && |m'.received| == |m.received| && m' == m.(received := m'.received)
    requires Kept(m, m', {t.id}, {})
    ensures Kept(m, m', Ids(t), Functions(t)) && Good(t, scope, m') && Cached(m, m', Spine(t))
    ensures Shaped(m) && Shaped(m')
    ensures Fits(t, |m.results|) && |m'.results| == |m.results| && Left(t, m') == Left(t, m)
  {
    assert t.id in Ids(t);
    hide *;
    KeptWider(m, m', {t.id}, {}, Ids(t), Functions(t));
  }

  lemma {:induction false} SelectNone(t: Stream, env: Env)
    requires t.Filter?
    ensures Select(t, [], env) == []
  {}

  lemma {:induction false} SelectStep(t: Stream, x: int, s: seq<int>, env: Env)
    requires t.Filter?
    ensures Select(t, [x] + s, env) == (if Keeps(t, x, env) then [x] else []) + Select(t, s, env)
  {
    assert ([x] + s)[1..] == s;
  }

  /** The filter's function sees the same parameters whatever vectors inside the stream have been used. */
  lemma {:induction false} FilterSame(t: Stream, scope: set<nat>, s: seq<int>, m: Memory, m': Memory, ids: set<nat>,
                                      funs: set<nat>)
    requires t.Filter? && Numbered(t, scope) && Kept(m, m', ids, funs) && funs <= Functions(t)
    ensures Select(t, s, m'.env) == Select(t, s, m.env)
  {
    FilterSeparate(t, scope);
    SelectFrame(t, s, m.env, m'.env);
  }

  lemma {:induction false} FilterKeeps(t: Stream, scope: set<nat>, x: int, m: Memory, m': Memory)
    requires t.Filter? && Numbered(t, scope) && Kept(m, m', Ids(t), Functions(t))
    ensures Keeps(t, x, m'.env) == Keeps(t, x, m.env)
  {
    FilterSeparate(t, scope);
    KeepsFrame(t, x, m.env, m'.env);
  }

  /** What a filter will deliver, once the first element of its source has been requested. */
  lemma {:induction false} FirstOf(t: Stream, m: Memory, n: Memory, x: int, received: bool)
    requires t.Filter? && Shaped(m) && Shaped(n) && Fits(t.src, |m.results|) && Fits(t.src, |n.results|)
    requires if received then Left(t.src, m) == [x] + Left(t.src, n) else Left(t.src, m) == [] == Left(t.src, n)
    ensures Select(t, Left(t.src, m), m.env) == if received then Select(t, [x] + Left(t.src, n), m.env) else []
  {}

  // ---------------------------------------------------------------- evaluation

  class StreamEvaluator {
    const sonresults: array<Word>
    const local: array<nat>
    const received: array<bool>
    const evaluated: array<nat>
    const vectors: array<Word>

    ghost predicate Valid()
    {
      && sonresults.Length == local.Length == received.Length == evaluated.Length
      && local != evaluated && sonresults != vectors
    }

    ghost function Now(): (m: Memory)
      reads sonresults, local, received, evaluated, vectors
      ensures Valid() ==> Shaped(m)
    {
      Memory(sonresults[..], local[..], received[..], evaluated[..], vectors[..])
    }

    /** Memory for a tree: a place for each node, and a vector for each function. */
    constructor (nodes: nat, functions: nat)
      ensures Valid() && Shaped(Now()) && |Now().results| == nodes && |Now().env| == functions
      ensures fresh(sonresults) && fresh(local) && fresh(received) && fresh(evaluated) && fresh(vectors)
    {
      sonresults := new Word[nodes](_ => Number(0));
      local := new nat[nodes];
      received := new bool[nodes];
      evaluated := new nat[nodes];
      vectors := new Word[functions](_ => Number(0));
    }

    // Single writes.

    method SetLocal(id: nat, n: nat)
      requires Valid() && id < local.Length
      modifies local
      ensures Now() == old(Now()).(locals := old(Now()).locals[id := n]) && Kept(old(Now()), Now(), {id}, {})
    {
      local[id] := n;
      assert local[..] == old(local[..])[id := n];
    }

    method SetReceived(id: nat, b: bool)
      requires Valid() && id < received.Length
      modifies received
      ensures Now() == old(Now()).(received := old(Now()).received[id := b]) && Kept(old(Now()), Now(), {id}, {})
    {
      received[id] := b;
      assert received[..] == old(received[..])[id := b];
    }

    method SetResult(id: nat, w: Word)
      requires Valid() && id < sonresults.Length
      modifies sonresults, evaluated
      ensures Now() == old(Now()).(results := old(Now()).results[id := w],
                                   evaluated := old(Now()).evaluated[id := old(Now()).evaluated[id] + 1])
      ensures Kept(old(Now()), Now(), {id}, {})
    {
      sonresults[id] := w;
      evaluated[id] := evaluated[id] + 1;
      assert sonresults[..] == old(sonresults[..])[id := w];
      assert evaluated[..] == old(evaluated[..])[id := old(evaluated[..])[id] + 1];
    }

    method SetParameter(f: nat, w: Word)
      requires Valid() && f < vectors.Length
      modifies vectors
      ensures Now() == old(Now()).(env := Bind(old(Now()).env, f, w)) && Kept(old(Now()), Now(), {}, {f})
    {
      vectors[f] := w;
      assert vectors[..] == old(vectors[..])[f := w];
    }

    /**
     `Eval` for a stream operator. The simple argument is evaluated on OPEN only; REQUEST and CLOSE pass
     the cached result. Then the operator's value mapping is called.
     */
    method Eval(t: Stream, message: Message, ghost scope: set<nat>) returns (result: int)
      requires Valid() && Good(t, scope, Now())
      modifies sonresults, local, received, evaluated, vectors
      ensures Kept(old(Now()), Now(), Ids(t), Functions(t)) && Good(t, scope, Now()) && t.id < received.Length
      ensures message == OPEN ==> Left(t, Now()) == Denote(t, old(Now()).env)
      ensures message == OPEN ==> EvaluatedOnce(old(Now()), Now(), Caching(t))
      ensures message != OPEN ==> Cached(old(Now()), Now(), Spine(t))
      ensures message == REQUEST ==>
        Delivers(t, old(Now()), Now(), result) && (received[t.id] <==> Left(t, old(Now())) != [])
      decreases t, 5
    {
      ghost var m := Now();
      GoodFits(t, scope, m);
      var status;
      match t {
        case Feed(_, _) => status, result := FeedMap(t, message, scope);
        case Filter(_, _, _, _, _, _) => status, result := FilterMap(t, message, scope);
        case Head(_, _, _) => status, result := HeadMap(t, message, scope);
        case Concat(_, _, _) => status, result := ConcatMap(t, message, scope);
      }
      ghost var m1 := Now();
      GoodFits(t, scope, m1);
      hide *;
      SetReceived(t.id, status == YIELD);
      ghost var m2 := Now();
      Noted(t, scope, m1, m2);
      KeptTwice(m, m1, m2, Ids(t), Functions(t), Ids(t), Functions(t), Ids(t), Functions(t));
      if message == OPEN {
        OnceStill(m, m1, m2, Caching(t));
      } else {
        CachedTwice(m, m1, m2, Spine(t));
      }
      if message == REQUEST {
        Delivered(t, m, m1, result);
        Delivered(t, m, m2, result);
      }
    }

    /** Evaluates the simple argument into the node's cache. */
    method LoadArgument(id: nat, arg: Simple, ghost scope: set<nat>)
      requires Valid() && GoodIn(arg, scope, Now()) && id < sonresults.Length && id !in IdsOf(arg)
      modifies sonresults, local, received, evaluated, vectors
      ensures Kept(old(Now()), Now(), {id} + IdsOf(arg), FunctionsOf(arg))
      ensures Now().results[id] == Value(arg, old(Now()).env) && EvaluatedOnce(old(Now()), Now(), {id})
      decreases arg, 1
    {
      var w := EvalSimple(arg, scope);
      ghost var m := Now();
      hide *;
      assert SameNode(old(Now()), m, id);
      SetResult(id, w);
      KeptTwice(old(Now()), m, Now(), IdsOf(arg), FunctionsOf(arg), {id}, {}, {id} + IdsOf(arg), FunctionsOf(arg));
    }

    method FeedMap(t: Stream, message: Message, ghost scope: set<nat>) returns (status: Status, result: int)
      requires Valid() && Good(t, scope, Now()) && t.Feed?
      modifies sonresults, local, received, evaluated, vectors
      ensures Kept(old(Now()), Now(), Ids(t), Functions(t)) && Good(t, scope, Now())
      ensures message == OPEN ==> Left(t, Now()) == Denote(t, old(Now()).env)
      ensures message == OPEN ==> EvaluatedOnce(old(Now()), Now(), Caching(t))
      ensures message != OPEN ==> Cached(old(Now()), Now(), Spine(t))
      ensures message == REQUEST ==>
        Delivers(t, old(Now()), Now(), result) && status == (if Left(t, old(Now())) != [] then YIELD else CANCEL)
      decreases t, 4
    {
      assert t.id in Ids(t) && IdsOf(t.arg) <= Ids(t) && FunctionsOf(t.arg) <= Functions(t);
      InnerGood(t.arg, scope, Now());
      status, result := CANCEL, 0;
      match message
      case OPEN =>
        LoadArgument(t.id, t.arg, scope);
        ghost var m := Now();
        SetLocal(t.id, 0);
        KeptTwice(old(Now()), m, Now(), {t.id} + IdsOf(t.arg), FunctionsOf(t.arg), {t.id}, {}, Ids(t), Functions(t));
      case REQUEST =>
        var list := AsList(sonresults[t.id]);
        if local[t.id] < |list| {
          status, result := YIELD, list[local[t.id]];
          SetLocal(t.id, local[t.id] + 1);
        }
      case CLOSE =>
    }

    method HeadMap(t: Stream, message: Message, ghost scope: set<nat>) returns (status: Status, result: int)
      requires Valid() && Good(t, scope, Now()) && t.Head?
      modifies sonresults, local, received, evaluated, vectors
      ensures Kept(old(Now()), Now(), Ids(t), Functions(t)) && Good(t, scope, Now())
      ensures message == OPEN ==> Left(t, Now()) == Denote(t, old(Now()).env)
      ensures message == OPEN ==> EvaluatedOnce(old(Now()), Now(), Caching(t))
      ensures message != OPEN ==> Cached(old(Now()), Now(), Spine(t))
      ensures message == REQUEST ==>
        Delivers(t, old(Now()), Now(), result) && status == (if Left(t, old(Now())) != [] then YIELD else CANCEL)
      decreases t, 4
    {
      ghost var m := Now();
      HeadParts(t, scope, m);
      hide *;
      status, result := CANCEL, 0;
      match message {
        case OPEN => HeadOpens(t, scope);
        case REQUEST => status, result := HeadNext(t, scope);
        case CLOSE =>
          var _ := Eval(t.src, CLOSE, scope);
          HeadPassed(t, scope, m, Now());
      }
    }

    method HeadOpens(t: Stream, ghost scope: set<nat>)
      requires Valid() && Good(t, scope, Now()) && t.Head?
      modifies sonresults, local, received, evaluated, vectors
      ensures Kept(old(Now()), Now(), Ids(t), Functions(t)) && Good(t, scope, Now())
      ensures Left(t, Now()) == Denote(t, old(Now()).env) && EvaluatedOnce(old(Now()), Now(), Caching(t))
      decreases t, 3
    {
      ghost var m := Now();
      HeadParts(t, scope, m);
      hide *;
      LoadArgument(t.id, t.arg, scope);
      ghost var m1 := Now();
      HeadLoaded(t, scope, m, m1);
      HeadParts(t, scope, m1);
      var _ := Eval(t.src, OPEN, scope);
      ghost var m2 := Now();
      HeadPassed(t, scope, m1, m2);
      HeadParts(t, scope, m2);
      SetLocal(t.id, 0);
      ghost var m3 := Now();
      HeadWritten(t, scope, m2, m3);
      HeadParts(t, scope, m3);
      KeptThrice(t, m, m1, m2, m3);
      GoodShape(t, scope, m);
      HeadOnce(t, scope, m, m1, m2);
      OnceStill(m, m2, m3, Caching(t));
    }

    /** At most as many elements as the argument says. */
    method HeadNext(t: Stream, ghost scope: set<nat>) returns (status: Status, result: int)
      requires Valid() && Good(t, scope, Now()) && t.Head?
      modifies sonresults, local, received, evaluated, vectors
      ensures Kept(old(Now()), Now(), Ids(t), Functions(t)) && Good(t, scope, Now())
      ensures Cached(old(Now()), Now(), Spine(t))
      ensures Delivers(t, old(Now()), Now(), result) && status == (if Left(t, old(Now())) != [] then YIELD else CANCEL)
      decreases t, 3
    {
      ghost var m := Now();
      HeadParts(t, scope, m);
      hide *;
      status, result := CANCEL, 0;
      ghost var n := AsNumber(m.results[t.id]) - m.locals[t.id];
      if local[t.id] < AsNumber(sonresults[t.id]) {
        result := Eval(t.src, REQUEST, scope);
        ghost var m1 := Now();
        HeadPassed(t, scope, m, m1);
        HeadParts(t, scope, m1);
        Delivered(t.src, m, m1, result);
        if received[t.src.id] {
          status := YIELD;
          TakeStep(Left(t.src, m), result, Left(t.src, m1), n);
          CountTaken(t, scope);
          KeptTwice(m, m1, Now(), Ids(t), Functions(t), Ids(t), Functions(t), Ids(t), Functions(t));
          CachedTwice(m, m1, Now(), Spine(t));
        } else {
          TakeNone(Left(t.src, m), n);
          TakeNone(Left(t.src, m1), n);
        }
      } else {
        TakeNone(Left(t.src, m), n);
        KeptNone(m, Ids(t), Functions(t), Spine(t));
      }
      Delivered(t, m, Now(), result);
    }

    method CountTaken(t: Stream, ghost scope: set<nat>)
      requires Valid() && Good(t, scope, Now()) && t.Head? && t.id < local.Length
      modifies local
      ensures Kept(old(Now()), Now(), Ids(t), Functions(t)) && Good(t, scope, Now())
      ensures Fits(t.src, |old(Now()).results|) && Fits(t, |Now().results|) && Cached(old(Now()), Now(), Spine(t))
      ensures Left(t, Now()) == Take(Left(t.src, old(Now())), AsNumber(sonresults[t.id]) - old(local[t.id]) - 1)
    {
      ghost var m := Now();
      HeadParts(t, scope, m);
      hide *;
      SetLocal(t.id, local[t.id] + 1);
      HeadWritten(t, scope, m, Now());
      HeadParts(t, scope, Now());
    }

    method ConcatMap(t: Stream, message: Message, ghost scope: set<nat>) returns (status: Status, result: int)
      requires Valid() && Good(t, scope, Now()) && t.Concat?
      modifies sonresults, local, received, evaluated, vectors
      ensures Kept(old(Now()), Now(), Ids(t), Functions(t)) && Good(t, scope, Now())
      ensures message == OPEN ==> Left(t, Now()) == Denote(t, old(Now()).env)
      ensures message == OPEN ==> EvaluatedOnce(old(Now()), Now(), Caching(t))
      ensures message != OPEN ==> Cached(old(Now()), Now(), Spine(t))
      ensures message == REQUEST ==>
        Delivers(t, old(Now()), Now(), result) && status == (if Left(t, old(Now())) != [] then YIELD else CANCEL)
      decreases t, 4
    {
      status, result := CANCEL, 0;
      match message {
        case OPEN => ConcatOpens(t, scope);
        case REQUEST => status, result := ConcatNext(t, scope);
        case CLOSE => ConcatCloses(t, scope);
      }
    }

    /** Opening the second stream does not disturb the first. */
    method ConcatOpens(t: Stream, ghost scope: set<nat>)
      requires Valid() && Good(t, scope, Now()) && t.Concat?
      modifies sonresults, local, received, evaluated, vectors
      ensures Kept(old(Now()), Now(), Ids(t), Functions(t)) && Good(t, scope, Now())
      ensures Left(t, Now()) == Denote(t, old(Now()).env) && EvaluatedOnce(old(Now()), Now(), Caching(t))
      decreases t, 3
    {
      ghost var m := Now();
      ConcatParts(t, scope, m);
      hide *;
      var _ := Eval(t.first, OPEN, scope);
      ghost var m1 := Now();
      ConcatPassed(t, scope, m, m1, t.first, t.second);
      ConcatParts(t, scope, m1);
      var _ := Eval(t.second, OPEN, scope);
      ghost var m2 := Now();
      ConcatPassed(t, scope, m1, m2, t.second, t.first);
      ConcatParts(t, scope, m2);
      SetLocal(t.id, 0);
      ghost var m3 := Now();
      ConcatWritten(t, scope, m2, m3);
      ConcatParts(t, scope, m3);
      KeptThrice(t, m, m1, m2, m3);
      GoodShape(t, scope, m);
      ConcatOnce(t, scope, m, m1, m2);
      OnceStill(m, m2, m3, Caching(t));
    }

    method ConcatCloses(t: Stream, ghost scope: set<nat>)
      requires Valid() && Good(t, scope, Now()) && t.Concat?
      modifies sonresults, local, received, evaluated, vectors
      ensures Kept(old(Now()), Now(), Ids(t), Functions(t)) && Good(t, scope, Now())
      ensures Cached(old(Now()), Now(), Spine(t))
      decreases t, 3
    {
      ghost var m := Now();
      ConcatParts(t, scope, m);
      hide *;
      var _ := Eval(t.first, CLOSE, scope);
      ghost var m1 := Now();
      ConcatPassed(t, scope, m, m1, t.first, t.second);
      ConcatParts(t, scope, m1);
      var _ := Eval(t.second, CLOSE, scope);
      ConcatPassed(t, scope, m1, Now(), t.second, t.first);
      KeptTwice(m, m1, Now(), Ids(t), Functions(t), Ids(t), Functions(t), Ids(t), Functions(t));
      CachedTwice(m, m1, Now(), Spine(t));
    }

    /** An element of the first stream; if it has no more, of the second. */
    method ConcatNext(t: Stream, ghost scope: set<nat>) returns (status: Status, result: int)
      requires Valid() && Good(t, scope, Now()) && t.Concat?
      modifies sonresults, local, received, evaluated, vectors
      ensures Kept(old(Now()), Now(), Ids(t), Functions(t)) && Good(t, scope, Now())
      ensures Cached(old(Now()), Now(), Spine(t))
      ensures Delivers(t, old(Now()), Now(), result) && status == (if Left(t, old(Now())) != [] then YIELD else CANCEL)
      decreases t, 3
    {
      ghost var m := Now();
      ConcatParts(t, scope, m);
      hide *;
      status, result := CANCEL, 0;
      KeptNone(m, Ids(t), Functions(t), Spine(t));
      if local[t.id] == 0 {
        status, result := ConcatFirst(t, scope);
      }
      ghost var m1 := Now();
      if status == CANCEL {
        ConcatParts(t, scope, m1);
        status, result := ConcatSecond(t, scope);
        KeptTwice(m, m1, Now(), Ids(t), Functions(t), Ids(t), Functions(t), Ids(t), Functions(t));
        CachedTwice(m, m1, Now(), Spine(t));
        Delivered(t, m1, Now(), result);
      }
      Delivered(t, m, Now(), result);
    }

    /** An element of the first stream; if it has no more, the second is next. */
    method ConcatFirst(t: Stream, ghost scope: set<nat>) returns (status: Status, result: int)
      requires Valid() && Good(t, scope, Now()) && t.Concat? && t.id < local.Length && local[t.id] == 0
      modifies sonresults, local, received, evaluated, vectors
      ensures Kept(old(Now()), Now(), Ids(t), Functions(t)) && Good(t, scope, Now())
      ensures Fits(t, |old(Now()).results|) && Fits(t, |Now().results|) && Cached(old(Now()), Now(), Spine(t))
      ensures status == YIELD ==> Left(t, old(Now())) == [result] + Left(t, Now())
      ensures status != YIELD ==> Left(t, Now()) == Left(t, old(Now())) && local[t.id] != 0
      decreases t, 2
    {
      ghost var m := Now();
      ConcatParts(t, scope, m);
      hide *;
      status := CANCEL;
      result := Eval(t.first, REQUEST, scope);
      ghost var m1 := Now();
      ConcatPassed(t, scope, m, m1, t.first, t.second);
      ConcatParts(t, scope, m1);
      Delivered(t.first, m, m1, result);
      if received[t.first.id] {
        status := YIELD;
        Grouped(result, Left(t.first, m1), Left(t.second, m1));
      } else {
        ToSecond(t, scope);
        KeptTwice(m, m1, Now(), Ids(t), Functions(t), Ids(t), Functions(t), Ids(t), Functions(t));
        CachedTwice(m, m1, Now(), Spine(t));
      }
    }

    /** The first stream has no more elements. */
    method ToSecond(t: Stream, ghost scope: set<nat>)
      requires Valid() && Good(t, scope, Now()) && t.Concat? && t.id < local.Length && local[t.id] == 0
      requires Fits(t.first, |Now().results|) && Left(t.first, Now()) == []
      modifies local
      ensures Kept(old(Now()), Now(), Ids(t), Functions(t)) && Good(t, scope, Now())
      ensures Fits(t, |old(Now()).results|) && Fits(t, |Now().results|) && Cached(old(Now()), Now(), Spine(t))
      ensures Left(t, Now()) == Left(t, old(Now())) && local[t.id] != 0
    {
      ghost var m := Now();
      ConcatParts(t, scope, m);
      hide *;
      SetLocal(t.id, 1);
      ConcatWritten(t, scope, m, Now());
      ConcatParts(t, scope, Now());
    }

    method ConcatSecond(t: Stream, ghost scope: set<nat>) returns (status: Status, result: int)
      requires Valid() && Good(t, scope, Now()) && t.Concat? && t.id < local.Length && local[t.id] != 0
      modifies sonresults, local, received, evaluated, vectors
      ensures Kept(old(Now()), Now(), Ids(t), Functions(t)) && Good(t, scope, Now())
      ensures Cached(old(Now()), Now(), Spine(t)) && Fits(t, |old(Now()).results|) && Fits(t, |Now().results|)
      ensures Delivers(t, old(Now()), Now(), result) && status == (if Left(t, old(Now())) != [] then YIELD else CANCEL)
      decreases t, 2
    {
      ghost var m := Now();
      ConcatParts(t, scope, m);
      hide *;
      result := Eval(t.second, REQUEST, scope);
      status := if received[t.second.id] then YIELD else CANCEL;
      ConcatPassed(t, scope, m, Now(), t.second, t.first);
      ConcatParts(t, scope, Now());
      Delivered(t.second, m, Now(), result);
      Delivered(t, m, Now(), result);
    }

    method FilterMap(t: Stream, message: Message, ghost scope: set<nat>) returns (status: Status, result: int)
      requires Valid() && Good(t, scope, Now()) && t.Filter?
      modifies sonresults, local, received, evaluated, vectors
      ensures Kept(old(Now()), Now(), Ids(t), Functions(t)) && Good(t, scope, Now())
      ensures message == OPEN ==> Left(t, Now()) == Denote(t, old(Now()).env)
      ensures message == OPEN ==> EvaluatedOnce(old(Now()), Now(), Caching(t))
      ensures message != OPEN ==> Cached(old(Now()), Now(), Spine(t))
      ensures message == REQUEST ==>
        Delivers(t, old(Now()), Now(), result) && status == (if Left(t, old(Now())) != [] then YIELD else CANCEL)
      decreases t, 4
    {
      status, result := CANCEL, 0;
      if message == REQUEST {
        status, result := FilterNext(t, scope);
      } else {
        ghost var m := Now();
        FilterParts(t, scope, m);
        hide *;
        var _ := Eval(t.src, message, scope);
        KeptCached(m, Now(), Ids(t.src), Functions(t.src), {t.id});
        if message != OPEN { CachedBoth(m, Now(), {t.id}, Spine(t.src)); }
        KeptWider(m, Now(), Ids(t.src), Functions(t.src), Ids(t), Functions(t));
        KeptGood(t, scope, m, Now(), Ids(t), Functions(t));
        FilterParts(t, scope, Now());
        FilterSame(t, scope, Left(t.src, Now()), m, Now(), Ids(t), Functions(t));
      }
    }

    /** Elements are requested until the function accepts one or there are no more. */
    method FilterNext(t: Stream, ghost scope: set<nat>) returns (status: Status, result: int)
      requires Valid() && Good(t, scope, Now()) && t.Filter?
      modifies sonresults, local, received, evaluated, vectors
      ensures Kept(old(Now()), Now(), Ids(t), Functions(t)) && Good(t, scope, Now())
      ensures Cached(old(Now()), Now(), Spine(t))
      ensures Delivers(t, old(Now()), Now(), result) && status == (if Left(t, old(Now())) != [] then YIELD else CANCEL)
      decreases t, 3
    {
      ghost var m := Now();
      FilterParts(t, scope, m);
      hide *;
      result := FilterRequest(t, scope);
      ghost var n := Now();
      FilterParts(t, scope, n);
      FirstOf(t, m, n, result, received[t.src.id]);
      var found := false;
      while received[t.src.id] && !found
        invariant Kept(m, n, Ids(t), Functions(t)) && Cached(m, n, Spine(t)) && Good(t, scope, n) && n == Now()
        invariant Shaped(n) && Fits(t, |n.results|) && Fits(t.src, |n.results|)
        invariant received[t.src.id] ==>
          Left(t, m) == (if found then [result] + Select(t, Left(t.src, n), m.env)
                         else Select(t, [result] + Left(t.src, n), m.env))
        invariant !received[t.src.id] ==> Left(t, m) == [] && Left(t.src, n) == []
        decreases received[t.src.id], |Left(t.src, n)|, !found
      {
        found, result := FilterStep(t, result, scope, m);
        KeptTwice(m, n, Now(), Ids(t), Functions(t), Ids(t), Functions(t), Ids(t), Functions(t));
        CachedTwice(m, n, Now(), Spine(t));
        n := Now();
        FilterParts(t, scope, n);
      }
      FilterSame(t, scope, Left(t.src, n), m, n, Ids(t), Functions(t));
      status := if received[t.src.id] then YIELD else CANCEL;
      SelectNone(t, n.env);
      Delivered(t, m, n, result);
    }

    /** The next element of the source. */
    method FilterRequest(t: Stream, ghost scope: set<nat>) returns (result: int)
      requires Valid() && Good(t, scope, Now()) && t.Filter?
      modifies sonresults, local, received, evaluated, vectors
      ensures Kept(old(Now()), Now(), Ids(t), Functions(t)) && Good(t, scope, Now())
      ensures Cached(old(Now()), Now(), Spine(t)) && t.src.id < received.Length
      ensures Fits(t.src, |old(Now()).results|) && Fits(t.src, |Now().results|)
      ensures if received[t.src.id] then Left(t.src, old(Now())) == [result] + Left(t.src, Now())
              else Left(t.src, old(Now())) == [] == Left(t.src, Now())
      decreases t, 1
    {
      ghost var m := Now();
      FilterParts(t, scope, m);
      hide *;
      result := Eval(t.src, REQUEST, scope);
      KeptCached(m, Now(), Ids(t.src), Functions(t.src), {t.id});
      CachedBoth(m, Now(), {t.id}, Spine(t.src));
      KeptWider(m, Now(), Ids(t.src), Functions(t.src), Ids(t), Functions(t));
      KeptGood(t, scope, m, Now(), Ids(t), Functions(t));
      FilterParts(t, scope, Now());
      Delivered(t.src, m, Now(), result);
    }

    /** The function decides on the element; if it does not accept it, the next one is requested. */
    method FilterStep(t: Stream, x: int, ghost scope: set<nat>, ghost m: Memory) returns (found: bool, next: int)
      requires Valid() && Good(t, scope, Now()) && t.Filter?
      requires Kept(m, Now(), Ids(t), Functions(t)) && t.src.id < received.Length && received[t.src.id]
      modifies sonresults, local, received, evaluated, vectors
      ensures Kept(old(Now()), Now(), Ids(t), Functions(t)) && Good(t, scope, Now())
      ensures Cached(old(Now()), Now(), Spine(t))
      ensures Fits(t.src, |old(Now()).results|) && Fits(t.src, |Now().results|)
      ensures found ==> next == x && received[t.src.id] && Left(t.src, Now()) == Left(t.src, old(Now()))
      ensures received[t.src.id] ==>
        Select(t, [x] + Left(t.src, old(Now())), m.env) ==
        if found then [x] + Select(t, Left(t.src, Now()), m.env) else Select(t, [next] + Left(t.src, Now()), m.env)
      ensures received[t.src.id] && !found ==> |Left(t.src, Now())| < |Left(t.src, old(Now()))|
      ensures !received[t.src.id] ==>
        Select(t, [x] + Left(t.src, old(Now())), m.env) == [] && Left(t.src, Now()) == []
      decreases t, 2
    {
      ghost var m0 := Now();
      FilterParts(t, scope, m0);
      FilterSeparate(t, scope);
      hide *;
      found := CallFunction(t, x, scope);
      ghost var m1, ids := Now(), IdsOf(t.left) + IdsOf(t.right);
      FilterKeeps(t, scope, x, m, m0);
      SelectStep(t, x, Left(t.src, m0), m.env);
      KeptLeft(t.src, m0, m1, ids, Called(t));
      KeptNode(m0, m1, ids, Called(t), t.src.id);
      KeptCached(m0, m1, ids, Called(t), Spine(t));
      KeptWider(m0, m1, ids, Called(t), Ids(t), Functions(t));
      KeptGood(t, scope, m0, m1, Ids(t), Functions(t));
      next := x;
      FilterParts(t, scope, m1);
      if !found {
        next := FilterRequest(t, scope);
        KeptTwice(m0, m1, Now(), Ids(t), Functions(t), Ids(t), Functions(t), Ids(t), Functions(t));
        CachedTwice(m0, m1, Now(), Spine(t));
        SelectNone(t, m.env);
      }
    }

    /** Loads the element into the function's argument vector and evaluates the function. */
    method CallFunction(t: Stream, x: int, ghost scope: set<nat>) returns (found: bool)
      requires Valid() && Good(t, scope, Now()) && t.Filter?
      modifies sonresults, local, received, evaluated, vectors
      ensures found == Keeps(t, x, old(Now()).env)
      ensures Kept(old(Now()), Now(), IdsOf(t.left) + IdsOf(t.right), Called(t))
      decreases t, 0
    {
      ghost var m, inner := Now(), scope + {t.fun};
      FilterParts(t, scope, m);
      FilterSeparate(t, scope);
      ghost var lids, lfuns, rids, rfuns := IdsOf(t.left), FunctionsOf(t.left), IdsOf(t.right), FunctionsOf(t.right);
      ghost var called, none: set<nat> := Called(t), {};
      assert {t.fun} + lfuns + rfuns == called;
      hide *;
      SetParameter(t.fun, Number(x));
      ghost var m1 := Now();
      KeptGoodIn(t.left, inner, m, m1, {}, {t.fun});
      var l := EvalSimple(t.left, inner);
      ghost var m2 := Now();
      KeptTwice(m, m1, m2, {}, {t.fun}, lids, lfuns, lids, {t.fun} + lfuns);
      KeptGoodIn(t.right, inner, m, m2, lids, {t.fun} + lfuns);
      KeptValue(t.right, m1, m2, lids, lfuns);
      var r := EvalSimple(t.right, inner);
      KeptTwice(m, m2, Now(), lids, {t.fun} + lfuns, rids, rfuns, lids + rids, called);
      found := t.test(l, r);
    }

    /** A simple node; a consumed stream is opened, requested until it does not yield, and closed. */
    method EvalSimple(e: Simple, ghost scope: set<nat>) returns (w: Word)
      requires Valid() && GoodIn(e, scope, Now())
      modifies sonresults, local, received, evaluated, vectors
      ensures Kept(old(Now()), Now(), IdsOf(e), FunctionsOf(e)) && w == Value(e, old(Now()).env)
      decreases e, 0
    {
      match e {
        case Const(c) => w := c;
        case Param(f) => w := if f < vectors.Length then vectors[f] else Number(0);
        case Consume(input) =>
          var elems := ConsumeAll(input, scope);
          w := List(elems);
      }
    }

    method ConsumeAll(input: Stream, ghost scope: set<nat>) returns (elems: seq<int>)
      requires Valid() && Good(input, scope, Now())
      modifies sonresults, local, received, evaluated, vectors
      ensures Kept(old(Now()), Now(), Ids(input), Functions(input)) && elems == Denote(input, old(Now()).env)
      decreases input, 6
    {
      ghost var m, ids, funs := Now(), Ids(input), Functions(input);
      hide *;
      var _ := Eval(input, OPEN, scope);
      elems := [];
      ghost var m1 := Now();
      var x := Eval(input, REQUEST, scope);
      ghost var n := Now();
      GoodFits(input, scope, m1);
      GoodFits(input, scope, n);
      Delivered(input, m1, n, x);
      KeptTwice(m, m1, n, ids, funs, ids, funs, ids, funs);
      while received[input.id]
        invariant Kept(m, n, ids, funs) && Good(input, scope, n) && n == Now() && Shaped(n) && Fits(input, |n.results|)
        invariant elems + (if received[input.id] then [x] else []) + Left(input, n) == Denote(input, m.env)
        invariant !received[input.id] ==> Left(input, n) == []
        decreases received[input.id], |Left(input, n)|
      {
        elems := elems + [x];
        ghost var before := n;
        x := Eval(input, REQUEST, scope);
        n := Now();
        GoodFits(input, scope, n);
        Delivered(input, before, n, x);
        KeptTwice(m, before, n, ids, funs, ids, funs, ids, funs);
      }
      var _ := Eval(input, CLOSE, scope);
      KeptTwice(m, n, Now(), ids, funs, ids, funs, ids, funs);
    }

    /** Other operators call functions: any vectors may change but those of `live`. */
    method Meanwhile(live: set<nat>)
      requires Valid()
      modifies vectors
      ensures exists funs :: funs !! live && Kept(old(Now()), Now(), {}, funs)
    {
      ghost var funs: set<nat> := {};
      ghost var m := Now();
      for f: nat := 0 to vectors.Length
        invariant funs !! live && Kept(m, Now(), {}, funs)
      {
        if f !in live {
          ghost var m1 := Now();
          var w: Word := *;
          SetParameter(f, w);
          KeptTwice(m, m1, Now(), {}, funs, {}, {f}, {}, funs + {f});
          funs := funs + {f};
        }
      }
    }

    /**
     OPEN, REQUEST until the first message that is not YIELD, CLOSE. Between messages parameters may
     change as they please, but for those that the stream's own functions read: what is delivered is the
     list for their values at OPEN, and each simple argument has been evaluated once.
     */
    method Deliver(t: Stream, ghost scope: set<nat>) returns (elems: seq<int>)
      requires Valid() && Good(t, scope, Now())
      modifies sonresults, local, received, evaluated, vectors
      ensures elems == Denote(t, old(Now()).env)
      ensures EvaluatedOnce(old(Now()), Now(), Caching(t))
      decreases t, 7
    {
      ghost var m := Now();
      hide *;
      var _ := Eval(t, OPEN, scope);
      ghost var n := Now();
      elems := [];
      var x := PauseAndRequest(t, scope, m);
      while received[t.id]
        invariant Good(t, scope, Now()) && Fits(t, |Now().results|) && EvaluatedOnce(m, Now(), Caching(t))
        invariant elems + (if received[t.id] then [x] else []) + Left(t, Now()) == Denote(t, m.env)
        invariant !received[t.id] ==> Left(t, Now()) == []
        decreases received[t.id], |Left(t, Now())|
      {
        elems := elems + [x];
        x := PauseAndRequest(t, scope, m);
      }
      Pause(t, scope, m);
      n := Now();
      var _ := Eval(t, CLOSE, scope);
      OnceCached(t, m, n, Now());
    }

    method Pause(t: Stream, ghost scope: set<nat>, ghost m: Memory)
      requires Valid() && Good(t, scope, Now()) && EvaluatedOnce(m, Now(), Caching(t))
      modifies vectors
      ensures Good(t, scope, Now()) && EvaluatedOnce(m, Now(), Caching(t))
      ensures Fits(t, |old(Now()).results|) && Fits(t, |Now().results|) && Left(t, Now()) == Left(t, old(Now()))
    {
      ghost var m1 := Now();
      GoodFits(t, scope, m1);
      hide *;
      Meanwhile(Live(t));
      ghost var funs :| funs !! Live(t) && Kept(m1, Now(), {}, funs);
      KeptLeft(t, m1, Now(), {}, funs);
      KeptGood(t, scope, m1, Now(), {}, funs);
      GoodFits(t, scope, Now());
    }

    method PauseAndRequest(t: Stream, ghost scope: set<nat>, ghost m: Memory) returns (x: int)
      requires Valid() && Good(t, scope, Now()) && EvaluatedOnce(m, Now(), Caching(t))
      modifies sonresults, local, received, evaluated, vectors
      ensures Good(t, scope, Now()) && EvaluatedOnce(m, Now(), Caching(t)) && t.id < received.Length
      ensures Fits(t, |old(Now()).results|) && Fits(t, |Now().results|)
      ensures if received[t.id] then Left(t, old(Now())) == [x] + Left(t, Now())
              else Left(t, old(Now())) == [] == Left(t, Now())
    {
      Pause(t, scope, m);
      ghost var m1 := Now();
      hide *;
      x := Eval(t, REQUEST, scope);
      GoodFits(t, scope, Now());
      Delivered(t, m1, Now(), x);
      OnceCached(t, m, m1, Now());
    }
  }

  /** A filter that compares its elements with the parameter of function 0 around it. */
  function Equal(list: seq<int>): Stream {
    Filter(0, Feed(1, Const(List(list))), 1, Param(1), (a, b) => AsNumber(a) == AsNumber(b), Param(0))
  }

  /**
   The exception is needed: what an open filter will deliver follows the parameter that its function
   reads, here from every element to none.
   */
  lemma {:induction false} OpenFilterFollows(x: int, y: int, w: Word)
    requires x != y
    ensures var results, locals := [Number(0), List([x])], [0, 0];
      && Fits(Equal([x]), 2) && Live(Equal([x])) == {0}
      && Rest(Equal([x]), results, locals, [Number(x), w]) == [x]
      && Rest(Equal([x]), results, locals, [Number(y), w]) == []
  {
    var t, results, locals: seq<nat> := Equal([x]), [Number(0), List([x])], [0, 0];
    var env, env' := [Number(x), w], [Number(y), w];
    assert Rest(t.src, results, locals, env) == [x] == Rest(t.src, results, locals, env');
    assert Bind(env, 1, Number(x)) == [Number(x), Number(x)] && Bind(env', 1, Number(x)) == [Number(y), Number(x)];
    assert Keeps(t, x, env) && !Keeps(t, x, env');
    SelectNone(t, env);
    SelectNone(t, env');
    assert [x] + [] == [x];
    SelectStep(t, x, [], env);
    SelectStep(t, x, [], env');
  }
}
