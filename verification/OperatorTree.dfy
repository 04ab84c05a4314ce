/**
 The operator tree, its construction from an annotated query, and its evaluation. Evaluation runs
 on a store of mutable vectors: one argument vector per function number, shared by everything that
 refers to that number, and one vector of intermediate arguments per node.
 */
module OperatorTree {
  import opened Wrappers
  import opened QuerySyntax
  import opened Annotation
  import opened Meaning

  /** A machine word: the null address, a value or the address of a node. */
  datatype Word = Null | Val(value: Value) | NodeRef(id: nat)

  datatype Kind =
    | Object(value: Word)
    | Indirect(fun: nat, argIndex: nat)
    | Oper(alg: nat, opFunId: nat, sons: seq<Node>)

  /** `arity` is the number of parameters in the node's type expression, for function nodes. */
  datatype Node = Node(
    id: nat,
    evaluable: bool,
    isStream: bool,
    isFun: bool,
    funNo: nat,
    arity: nat,
    counterNo: int,
    usesMemory: bool,
    memorySize: nat,
    kind: Kind)

  /** Sizes are kept in an unsigned 64 bit word. */
  const SIZE_LIMIT: nat := 0x1_0000_0000_0000_0000

  function Leaf(id: nat, evaluable: bool, kind: Kind): Node {
    Node(id, evaluable, false, false, 0, 0, 0, false, 0, kind)
  }

  /**
   Annotated queries that tree building accepts; on others the source ends the process or looks up an
   operator with a negative number. The result object of an operator is created with its node, by the
   type constructor of its result type: without one, as for an ill-typed application, the process ends.
   */
  predicate Buildable(cat: Catalog, a: Ann, n: nat) {
    match a
    case ConstantA(i, _) => i < n
    case ObjectA(_, i, _) => i < n
    case VariableA(_, p, f, ty) => !ty.Map?
    case ApplyOpA(_, opFunId, args, ty) =>
      0 <= opFunId && |args| <= MAXARG && HasConstructor(cat, ty) && BuildableAll(cat, args, n)
    case AbstractionA(body, _, _) => Buildable(cat, body, n)
    case ApplyAbsA(fn, args, _) =>
      fn.AbstractionA? && |args| < MAXARG && Buildable(cat, fn, n) && BuildableAll(cat, args, n)
    case WrapperA(_, _, body, _) => Buildable(cat, body, n)
    case ArgListA(args) => |args| <= MAXARG && BuildableAll(cat, args, n)
    case IdentifierA(_) => true
    case _ => false
  }

  predicate BuildableAll(cat: Catalog, as_: seq<Ann>, n: nat) {
    as_ == [] || (Buildable(cat, as_[0], n) && BuildableAll(cat, as_[1..], n))
  }

  function UsesMemory(cat: Catalog, id: OpId): bool {
    id in cat.algebra && cat.algebra[id].usesMemory
  }

  function Wrap(n: Node, k: Keyword, number: Value): Node {
    if !n.kind.Oper? then n
    else
      match k
      case Counter => n.(counterNo := number)
      case Memory => if n.usesMemory then n.(memorySize := number % SIZE_LIMIT) else n
      case PredInfo => n
  }

  /** Builds the tree; nodes are numbered from `next` in the order of their creation. */
  function Subtree(cat: Catalog, a: Ann, values: seq<Value>, next: nat): (Node, nat)
    requires Buildable(cat, a, |values|)
    decreases a
  {
    match a
    case ConstantA(i, _) => (Leaf(next, true, Object(Val(values[i]))), next + 1)
    case ObjectA(_, i, _) => (Leaf(next, true, Object(Val(values[i]))), next + 1)
    case VariableA(_, p, f, ty) =>
      (Leaf(next, !ty.Stream?, Indirect(f, p)).(isStream := ty.Stream?), next + 1)
    case ApplyOpA(id, opFunId, args, ty) =>
      var (sons, next') := SubtreeAll(cat, args, values, next + 1, Lazy(cat, OpId(id.alg, opFunId % OP_LIMIT)));
      (Leaf(next, !ty.Stream?, Oper(id.alg, opFunId, sons)).(
         isStream := ty.Stream?, usesMemory := UsesMemory(cat, OpId(id.alg, opFunId % OP_LIMIT))), next')
    case AbstractionA(body, n, params) =>
      var (b, next') := Subtree(cat, body, values, next);
      (b.(evaluable := false, isFun := true, funNo := n, arity := |params|), next')
    case ApplyAbsA(fn, args, _) =>
      var (f, next1) := Subtree(cat, fn, values, next + 1);
      var (sons, next2) := SubtreeAll(cat, args, values, next1, false);
      (Leaf(next, !f.isStream, Oper(0, 0, [f] + sons)).(isStream := f.isStream), next2)
    case WrapperA(k, number, body, _) =>
      var (b, next') := Subtree(cat, body, values, next);
      (Wrap(b, k, number), next')
    case ArgListA(args) =>
      var (sons, next') := SubtreeAll(cat, args, values, next + 1, false);
      (Leaf(next, false, Oper(0, 1, sons)), next')
    case _ => (Leaf(next, false, Object(Null)), next + 1)
  }

  /** Sons from left to right; an operator that requests its arguments makes them not evaluable. */
  function SubtreeAll(cat: Catalog, as_: seq<Ann>, values: seq<Value>, next: nat, lazy: bool): (r: (seq<Node>, nat))
    requires BuildableAll(cat, as_, |values|)
    ensures |r.0| == |as_|
    decreases as_
  {
    if as_ == [] then ([], next)
    else
      var (n, next1) := Subtree(cat, as_[0], values, next);
      var (rest, next2) := SubtreeAll(cat, as_[1..], values, next1, lazy);
      ([if lazy then n.(evaluable := false) else n] + rest, next2)
  }

  // ---------------------------------------------------------------- the store

  datatype Store = Store(vecs: seq<seq<Word>>, tmp: seq<seq<Word>>)

  predicate Shaped(st: Store) {
    && (forall f :: 0 <= f < |st.vecs| ==> |st.vecs[f]| == MAXARG)
    && (forall i :: 0 <= i < |st.tmp| ==> |st.tmp[i]| == MAXARG)
  }

  predicate SameShape(st: Store, st': Store) {
    Shaped(st') && |st'.vecs| == |st.vecs| && |st'.tmp| == |st.tmp|
  }

  /** Every vector the tree refers to exists, and every index stays inside its vector. */
  predicate Fits(n: Node, funs: nat, nodes: nat)
    decreases n
  {
    && n.id < nodes
    && (n.isFun ==> 1 <= n.funNo <= funs)
    && FitsKind(n.kind, funs, nodes)
  }

  predicate FitsKind(k: Kind, funs: nat, nodes: nat)
    decreases k
  {
    match k
    case Object(_) => true
    case Indirect(f, p) => 1 <= f <= funs && 1 <= p <= MAXARG
    case Oper(alg, op, sons) =>
      && |sons| <= MAXARG && (alg == 0 && op == 0 ==> sons != [] && sons[0].isFun)
      && FitsAll(sons, funs, nodes)
  }

  predicate FitsAll(ns: seq<Node>, funs: nat, nodes: nat)
    decreases ns
  {
    ns == [] || (Fits(ns[0], funs, nodes) && FitsAll(ns[1..], funs, nodes))
  }

  lemma FitsEach(ns: seq<Node>, funs: nat, nodes: nat)
    requires FitsAll(ns, funs, nodes)
    ensures forall i :: 0 <= i < |ns| ==> Fits(ns[i], funs, nodes)
  {
    if ns != [] {
      FitsEach(ns[1..], funs, nodes);
      forall i | 0 <= i < |ns| ensures Fits(ns[i], funs, nodes) {
        if i > 0 { assert ns[i] == ns[1..][i - 1]; }
      }
    }
  }

  function SetTmp(st: Store, id: nat, i: nat, w: Word): (r: Store)
    requires Shaped(st) && id < |st.tmp| && i < MAXARG
    ensures SameShape(st, r)
  {
    st.(tmp := st.tmp[id := st.tmp[id][i := w]])
  }

  /** Loads parameters into the argument vector of function `f`; what lies beyond them stays. */
  function Load(st: Store, f: nat, args: seq<Word>): (r: Store)
    requires Shaped(st) && 1 <= f <= |st.vecs| && |args| <= MAXARG
    ensures SameShape(st, r)
  {
    st.(vecs := st.vecs[f - 1 := args + st.vecs[f - 1][|args|..]])
  }

  function ToOption(w: Word): Option<Value> {
    if w.Val? then Some(w.value) else None
  }

  function View(row: seq<Word>): (r: seq<Option<Value>>)
    ensures |r| == |row|
    ensures forall i :: 0 <= i < |row| ==> r[i] == ToOption(row[i])
  {
    if row == [] then [] else [ToOption(row[0])] + View(row[1..])
  }

  function Vals(args: seq<Value>): (r: seq<Word>)
    ensures |r| == |args|
    ensures forall i :: 0 <= i < |args| ==> r[i] == Val(args[i])
  {
    if args == [] then [] else [Val(args[0])] + Vals(args[1..])
  }

  function ValueMapOf(cat: Catalog, alg: nat, opFunId: nat): Option<ValueMap> {
    MapFor(cat, OpId(alg, opFunId % OP_LIMIT), opFunId / OP_LIMIT)
  }

  // ---------------------------------------------------------------- evaluation

  function Eval(cat: Catalog, n: Node, st: Store, limit: nat): (r: (Option<Word>, Store))
    requires Shaped(st) && Fits(n, |st.vecs|, |st.tmp|)
    ensures SameShape(st, r.1)
    decreases n, 0, 0
  {
    EvalKind(cat, n.id, n.isStream, n.kind, st, limit)
  }

  /** No result means a stream, an operator that exceeded `limit` requests or one that misbehaved. */
  function EvalKind(cat: Catalog, id: nat, isStream: bool, k: Kind, st: Store, limit: nat): (r: (Option<Word>, Store))
    requires Shaped(st) && id < |st.tmp| && FitsKind(k, |st.vecs|, |st.tmp|)
    ensures SameShape(st, r.1)
    decreases k, 1, 0
  {
    match k
    case Object(w) => (Some(w), st)
    case Indirect(f, p) =>
      if isStream || st.vecs[f - 1][MAXARG - p] != Null then (None, st) else (Some(st.vecs[f - 1][p - 1]), st)
    case Oper(alg, opFunId, sons) =>
      var (ok, st1) := EvalSons(cat, id, 0, sons, st, limit);
      if !ok then (None, st1)
      else if alg == 0 && opFunId == 0 then
        assert Fits(sons[0], |st.vecs|, |st.tmp|);
        Eval(cat, sons[0], Load(st1, sons[0].funNo, st1.tmp[id][1..|sons|]), limit)
      else
        match ValueMapOf(cat, alg, opFunId)
        case None => (None, st1)
        case Some(vm) => RunOp(cat, id, vm, sons, [], st1, limit, limit)
  }

  /** Fills the node's own vector: values of evaluable sons, addresses of the others. */
  function EvalSons(cat: Catalog, id: nat, i: nat, sons: seq<Node>, st: Store, limit: nat): (r: (bool, Store))
    requires Shaped(st) && id < |st.tmp| && FitsAll(sons, |st.vecs|, |st.tmp|) && i + |sons| <= MAXARG
    ensures SameShape(st, r.1)
    decreases sons, 0, 0
  {
    if sons == [] then (true, st)
    else if !sons[0].evaluable then
      EvalSons(cat, id, i + 1, sons[1..], SetTmp(st, id, i, NodeRef(sons[0].id)), limit)
    else
      var (w, st1) := Eval(cat, sons[0], st, limit);
      if w.None? then (false, st1)
      else EvalSons(cat, id, i + 1, sons[1..], SetTmp(st1, id, i, w.value), limit)
  }

  predicate IsList(n: Node) {
    n.kind.Oper? && n.kind.alg == 0 && n.kind.opFunId == 1
  }

  /** The node at the end of a path that leads through argument lists. */
  function NodeAt(sons: seq<Node>, path: seq<nat>): (r: Option<Node>)
    ensures r.Some? ==> exists i :: 0 <= i < |sons| && (r.value == sons[i] || r.value < sons[i])
    decreases |path|
  {
    if path == [] || path[0] >= |sons| then None
    else
      var n := sons[path[0]];
      if IsList(n) then NodeAt(n.kind.sons, path[1..]) else if |path| == 1 then Some(n) else None
  }

  lemma {:induction false} FitsAt(sons: seq<Node>, path: seq<nat>, funs: nat, nodes: nat)
    requires FitsAll(sons, funs, nodes) && NodeAt(sons, path).Some?
    ensures Fits(NodeAt(sons, path).value, funs, nodes)
    decreases |path|
  {
    FitsEach(sons, funs, nodes);
    var n := sons[path[0]];
    assert Fits(n, funs, nodes) && FitsKind(n.kind, funs, nodes);
    if IsList(n) { FitsAt(n.kind.sons, path[1..], funs, nodes); }
  }

  /** The request that is served: an existing node with as many parameters as it takes. */
  predicate Serves(move: Move, sons: seq<Node>, fuel: nat) {
    move.Ask? && fuel > 0 && NodeAt(sons, move.path).Some? &&
    var son := NodeAt(sons, move.path).value;
    |move.args| == (if son.isFun then son.arity else 0) && |move.args| <= MAXARG
  }

  /** The operator's value mapping at work: it sees its vector and requests its arguments. */
  function RunOp(cat: Catalog, id: nat, vm: ValueMap, sons: seq<Node>, answers: seq<Value>, st: Store,
                 fuel: nat, limit: nat): (r: (Option<Word>, Store))
    requires Shaped(st) && id < |st.tmp| && |sons| <= MAXARG && FitsAll(sons, |st.vecs|, |st.tmp|)
    ensures SameShape(st, r.1)
    decreases sons, 1, fuel
  {
    match vm(View(st.tmp[id][..|sons|]), answers)
    case Done(v) => (Some(Val(v)), st)
    case Ask(path, args) =>
      if !Serves(Ask(path, args), sons, fuel) then (None, st)
      else
        var son := NodeAt(sons, path).value;
        FitsAt(sons, path, |st.vecs|, |st.tmp|);
        var st0 := if son.isFun then Load(st, son.funNo, Vals(args)) else st;
        var (w, st1) := Eval(cat, son, st0, limit);
        if w.None? || !w.value.Val? then (None, st1)
        else RunOp(cat, id, vm, sons, answers + [w.value.value], st1, fuel - 1, limit)
  }

  /** `SubtreeX` allocates the vectors, all slots null. */
  function FreshStore(funs: nat, nodes: nat): (r: Store)
    ensures Shaped(r) && |r.vecs| == funs && |r.tmp| == nodes
    ensures forall f, k :: 0 <= f < funs && 0 <= k < MAXARG ==> r.vecs[f][k] == Null
  {
    var row := seq(MAXARG, _ => Null);
    Store(seq(funs, _ => row), seq(nodes, _ => row))
  }
}
