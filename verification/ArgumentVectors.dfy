/** What an evaluation may write, and which slots of an argument vector are safe to share. */
module ArgumentVectors {
  import opened Wrappers
  import opened QuerySyntax
  import opened OperatorTree

  /** Numbers of the functions in a tree, its root included if it is one. */
  function Functions(n: Node): set<nat>
    decreases n
  {
    (if n.isFun then {n.funNo} else {}) + FunctionsBelow(n.kind)
  }

  function FunctionsBelow(k: Kind): set<nat>
    decreases k
  {
    if k.Oper? then FunctionsIn(k.sons) else {}
  }

  function FunctionsIn(ns: seq<Node>): set<nat>
    decreases ns
  {
    if ns == [] then {} else Functions(ns[0]) + FunctionsIn(ns[1..])
  }

  function Ids(n: Node): set<nat>
    decreases n
  {
    {n.id} + IdsBelow(n.kind)
  }

  function IdsBelow(k: Kind): set<nat>
    decreases k
  {
    if k.Oper? then IdsIn(k.sons) else {}
  }

  function IdsIn(ns: seq<Node>): set<nat>
    decreases ns
  {
    if ns == [] then {} else Ids(ns[0]) + IdsIn(ns[1..])
  }

  /** Vectors of functions outside `funs` and of nodes outside `ids` are as before. */
  ghost predicate WritesOnly(st: Store, st': Store, funs: set<nat>, ids: set<nat>) {
    && SameShape(st, st')
    && (forall f :: 0 <= f < |st.vecs| && f + 1 !in funs ==> st'.vecs[f] == st.vecs[f])
    && (forall i :: 0 <= i < |st.tmp| && i !in ids ==> st'.tmp[i] == st.tmp[i])
  }

  /**
   Evaluating any tree, whatever its operators do, writes only the argument vectors of the functions
   strictly inside it and the intermediate arguments of its own nodes: the arguments of enclosing
   functions survive every nested call.
   */
  lemma {:induction false} EvaluationFrame(cat: Catalog, n: Node, st: Store, limit: nat)
    requires Shaped(st) && Fits(n, |st.vecs|, |st.tmp|)
    ensures WritesOnly(st, Eval(cat, n, st, limit).1, FunctionsBelow(n.kind), Ids(n))
    decreases n, 0, 0
  {
    KindFrame(cat, n.id, n.isStream, n.kind, st, limit);
  }

  lemma {:induction false} KindFrame(cat: Catalog, id: nat, isStream: bool, k: Kind, st: Store, limit: nat)
    requires Shaped(st) && id < |st.tmp| && FitsKind(k, |st.vecs|, |st.tmp|)
    ensures WritesOnly(st, EvalKind(cat, id, isStream, k, st, limit).1, FunctionsBelow(k), {id} + IdsBelow(k))
    decreases k, 1, 0
  {
    if k.Oper? {
      var sons := k.sons;
      SonsFrame(cat, id, 0, sons, st, limit);
      var (ok, st1) := EvalSons(cat, id, 0, sons, st, limit);
      if ok {
        if k.alg == 0 && k.opFunId == 0 {
          assert Fits(sons[0], |st.vecs|, |st.tmp|);
          var st2 := Load(st1, sons[0].funNo, st1.tmp[id][1..|sons|]);
          EvaluationFrame(cat, sons[0], st2, limit);
          SonInside(sons, 0);
        } else if ValueMapOf(cat, k.alg, k.opFunId).Some? {
          OperatorFrame(cat, id, ValueMapOf(cat, k.alg, k.opFunId).value, sons, [], st1, limit, limit);
        }
      }
    }
  }

  lemma SonInside(ns: seq<Node>, i: nat)
    requires i < |ns|
    ensures Functions(ns[i]) <= FunctionsIn(ns) && Ids(ns[i]) <= IdsIn(ns)
    decreases i
  {
    if i > 0 { SonInside(ns[1..], i - 1); }
  }

  lemma {:induction false} NodeInside(ns: seq<Node>, path: seq<nat>)
    requires NodeAt(ns, path).Some?
    ensures Functions(NodeAt(ns, path).value) <= FunctionsIn(ns) && Ids(NodeAt(ns, path).value) <= IdsIn(ns)
    decreases |path|
  {
    SonInside(ns, path[0]);
    var n := ns[path[0]];
    if IsList(n) { NodeInside(n.kind.sons, path[1..]); }
  }

  lemma {:induction false} SonsFrame(cat: Catalog, id: nat, i: nat, sons: seq<Node>, st: Store, limit: nat)
    requires Shaped(st) && id < |st.tmp| && FitsAll(sons, |st.vecs|, |st.tmp|) && i + |sons| <= MAXARG
    ensures WritesOnly(st, EvalSons(cat, id, i, sons, st, limit).1, FunctionsIn(sons), {id} + IdsIn(sons))
    decreases sons, 0, 0
  {
    if sons != [] {
      if !sons[0].evaluable {
        SonsFrame(cat, id, i + 1, sons[1..], SetTmp(st, id, i, NodeRef(sons[0].id)), limit);
      } else {
        EvaluationFrame(cat, sons[0], st, limit);
        var (w, st1) := Eval(cat, sons[0], st, limit);
        if w.Some? {
          SonsFrame(cat, id, i + 1, sons[1..], SetTmp(st1, id, i, w.value), limit);
        }
      }
    }
  }

  lemma {:induction false} OperatorFrame(cat: Catalog, id: nat, vm: ValueMap, sons: seq<Node>, answers: seq<Value>,
                                         st: Store,
                                         fuel: nat, limit: nat)
    requires Shaped(st) && id < |st.tmp| && |sons| <= MAXARG && FitsAll(sons, |st.vecs|, |st.tmp|)
    ensures WritesOnly(st, RunOp(cat, id, vm, sons, answers, st, fuel, limit).1, FunctionsIn(sons), {id} + IdsIn(sons))
    decreases sons, 1, fuel
  {
    var move := vm(View(st.tmp[id][..|sons|]), answers);
    if Serves(move, sons, fuel) {
      var son := NodeAt(sons, move.path).value;
      FitsAt(sons, move.path, |st.vecs|, |st.tmp|);
      NodeInside(sons, move.path);
      var st0 := if son.isFun then Load(st, son.funNo, Vals(move.args)) else st;
      EvaluationFrame(cat, son, st0, limit);
      var (w, st1) := Eval(cat, son, st0, limit);
      assert WritesOnly(st, st1, FunctionsIn(sons), {id} + IdsIn(sons));
      if w.Some? && w.value.Val? {
        OperatorFrame(cat, id, vm, sons, answers + [w.value.value], st1, fuel - 1, limit);
      }
    }
  }

  /**
   Parameter k of a function with p parameters reads back what was loaded exactly when its stream
   caller's slot, 100 - k, lies beyond the parameters; otherwise the evaluator takes another
   parameter for a stream caller.
   */
  lemma ParameterReadsBack(cat: Catalog, st: Store, f: nat, vals: seq<Value>, k: nat, id: nat, limit: nat)
    requires Shaped(st) && 1 <= f <= |st.vecs| && |vals| <= MAXARG && 1 <= k <= |vals| && id < |st.tmp|
    requires st.vecs[f - 1] == seq(MAXARG, _ => Null)
    ensures Eval(cat, Leaf(id, true, Indirect(f, k)), Load(st, f, Vals(vals)), limit).0 == Some(Val(vals[k - 1]))
            <==> |vals| <= 100 - k
  {
    var st' := Load(st, f, Vals(vals));
    if |vals| <= MAXARG - k {
      assert st'.vecs[f - 1][MAXARG - k] == st.vecs[f - 1][|vals|..][MAXARG - k - |vals|];
    } else {
      assert st'.vecs[f - 1][MAXARG - k] == Val(vals[MAXARG - k]);
    }
  }

  predicate Safe(p: nat, k: nat) {
    p <= 100 - k
  }

  /** All parameters are safe exactly when there are at most 50 of them. */
  lemma ParametersAreSafe(p: nat)
    requires 1 <= p <= MAXARG
    ensures (forall k: nat {:trigger Safe(p, k)} :: 1 <= k <= p ==> Safe(p, k)) <==> p <= 50
  {
    assert Safe(p, p) <==> p <= 50;
  }
}
