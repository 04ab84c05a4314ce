/**
 The query processor's own mutable state: variable tables, the array of values, the counters of
 functions and nodes, and the vectors of arguments. Each method is proved against the function that
 specifies it.
 */
module QueryProcessing {
  import opened Wrappers
  import opened QuerySyntax
  import opened Annotation
  import opened Meaning
  import opened AnnotationCorrect
  import opened Acceptance
  import opened OperatorTree
  import opened Building
  import opened EvaluationCorrect
  import opened Compilation

  /** The name index and the entries it points into; entries are only ever added. */
  class VariableTables {
    var varnames: map<string, nat>
    var vartable: seq<VarEntry>

    ghost predicate Valid()
      reads this
    {
      forall x :: x in varnames ==> varnames[x] < |vartable|
    }

    ghost function Table(): (r: VarTable)
      requires Valid()
      reads this
      ensures r.Keys == varnames.Keys
    {
      map x | x in varnames :: vartable[varnames[x]]
    }

    constructor ()
      ensures Valid() && Table() == map[]
    {
      varnames, vartable := map[], [];
    }

    method EnterVariable(name: string, position: nat, funindex: nat, ty: Type)
      requires Valid()
      modifies this
      ensures Valid() && Table() == old(Table())[name := VarEntry(position, funindex, ty)]
    {
      vartable := vartable + [VarEntry(position, funindex, ty)];
      var j := |vartable| - 1;
      varnames := varnames[name := j];
    }

    method GetVariable(name: string) returns (e: VarEntry)
      requires Valid() && name in Table()
      ensures e == Table()[name]
    {
      var j := varnames[name];
      e := vartable[j];
    }
  }

  class QueryProcessor {
    const cat: Catalog
    var values: seq<Value>
    var functionno: nat
    var defined: bool
    var thrown: bool
    var nextNode: nat
    var argVectors: seq<array<Word>>
    var tmpArg: seq<array<Word>>

    constructor (cat: Catalog)
      ensures this.cat == cat && values == [] && functionno == 0 && nextNode == 0
      ensures argVectors == [] && tmpArg == []
    {
      this.cat := cat;
      values, functionno, defined, thrown, nextNode := [], 0, true, false, 0;
      argVectors, tmpArg := [], [];
    }

    // ---------------------------------------------------------------- annotation

    ghost function State(t: VariableTables): AState
      requires t.Valid()
      reads this, t
    {
      AState(t.Table(), values, functionno, defined, thrown)
    }

    /**
     Tries the candidates in turn until one accepts the arguments; then its selection function gives
     the number of the evaluation function. A negative number belongs to a type operator, which is
     wrong here.
     */
    method TestOverloadedOperators(ids: seq<OpId>, typed: seq<Typed>)
        returns (id: OpId, opFunId: int, result: MapResult)
      requires ValidCatalog(cat) && ids != []
      ensures id in ids
      ensures match FirstAccepting(cat, ids, typed)
              case None => id == ids[|ids| - 1] && opFunId == 0 && result == Rejected
              case Some(first) =>
                && id == first && opFunId == Combine(cat.algebra[id].select(TypesOf(typed)), id.op)
                && result == if opFunId < 0 then Rejected else TypeMapOf(cat, id, typed)
    {
      var rest := ids;
      id, opFunId, result := ids[0], 0, Rejected;
      while rest != [] && IsRejected(result)
        invariant IsRejected(result) ==> FirstAccepting(cat, ids, typed) == FirstAccepting(cat, rest, typed)
        invariant !IsRejected(result) ==>
                    FirstAccepting(cat, ids, typed) == Some(id) && result == TypeMapOf(cat, id, typed)
        invariant |rest| <= |ids| && rest == ids[|ids| - |rest|..]
        invariant rest == [] ==> id == ids[|ids| - 1]
        invariant id in ids
        decreases |rest|
      {
        id := rest[0];
        result := TypeMapOf(cat, id, typed);
        rest := rest[1..];
      }
      if IsRejected(result) {
        result := Rejected;
      } else {
        opFunId := Combine(cat.algebra[id].select(TypesOf(typed)), id.op);
        if opFunId < 0 {
          result := Rejected;
        }
      }
    }

    /** The annotated constants that a type mapping asked for. */
    method AppendArguments(extra: seq<Literal>) returns (more: seq<Ann>)
      requires LiteralsTyped(extra)
      modifies `values
      ensures (more, values) == AppendConstants(old(values), extra)
    {
      more := [];
      var i := 0;
      assert extra[0..] == extra;
      assert forall r: seq<Ann> :: [] + r == r;
      while i < |extra|
        invariant 0 <= i <= |extra|
        invariant var rest := AppendConstants(values, extra[i..]);
          AppendConstants(old(values), extra) == (more + rest.0, rest.1)
      {
        assert extra[i..][0] == extra[i] && extra[i..][1..] == extra[i + 1..];
        var a := ConstantA(|values|, extra[i].ty);
        assert forall r: seq<Ann> :: (more + [a]) + r == more + ([a] + r);
        values, more := values + [extra[i].value], more + [a];
        i := i + 1;
      }
      assert extra[i..] == [] && more + [] == more;
    }

    /** An operator applied to annotated arguments. */
    method ApplyOperator(ids: seq<OpId>, args: seq<Ann>, typed: seq<Typed>) returns (a: Ann)
      requires ValidCatalog(cat) && ids != [] && GoodIds(cat, ids)
      modifies `values
      ensures forall s: AState :: s.values == old(values) ==>
        Annotation.ApplyOperator(cat, ids, args, typed, s) == (a, s.(values := values))
    {
      var id, opFunId, result := TestOverloadedOperators(ids, typed);
      assert id.op < OP_LIMIT;
      assert args + [] == args;
      match result {
        case Rejected =>
          a := ApplyOpA(if opFunId < 0 then id else OpId(id.alg, 0), opFunId, args, TypeError);
        case Accepted(ty) =>
          a := ApplyOpA(id, opFunId, args, ty);
        case Appended(extra, ty) =>
          var more := AppendArguments(extra);
          a := ApplyOpA(id, opFunId, args + more, ty);
      }
    }

    /** What a list stands for is decided by its annotated first element. */
    method Apply(es: seq<Expr>, head: Ann, args: seq<Ann>) returns (a: Ann)
      requires ValidCatalog(cat) && |es| == |args| + 1
      requires head.OperatorA? ==> head.ids != [] && GoodIds(cat, head.ids)
      modifies `values
      ensures forall s: AState :: s.values == old(values) ==>
        Annotation.Apply(cat, es, head, args, s) == (a, s.(values := values))
    {
      match head {
        case OperatorA(_, ids) =>
          a := ApplyOperator(ids, args, Pair(args, es[1..]));
        case AbstractionA(body, _, ps) =>
          a := if TypesOfAll(args) == ps then ApplyAbsA(head, args, TypeOf(body)) else ExprErrorA;
        case KeywordA(Counter) =>
          if |args| < 2 || !IsNumber(es[1], "int") {
            a := ExprErrorA;
          } else if 0 < es[1].value <= NO_COUNTERS {
            a := WrapperA(Counter, es[1].value, args[1], TypeOf(args[1]));
          } else {
            a := WrapperA(Counter, es[1].value, args[1], TypeError);
          }
        case KeywordA(Memory) =>
          a := if |args| < 2 || !IsNumber(es[1], "int") then ExprErrorA
               else WrapperA(Memory, es[1].value, args[1], TypeOf(args[1]));
        case KeywordA(PredInfo) =>
          a := if |args| < 3 || !IsNumber(es[1], "real") || !IsNumber(es[2], "real") then ExprErrorA
               else WrapperA(PredInfo, es[1].value, args[2], TypeOf(args[2]));
        case FunctionErrorA =>
          a := ExprErrorA;
        case _ =>
          a := ArgListA([head] + args);
      }
    }

    /** Enters the parameters of function number `fun` one by one. */
    method EnterParameters(ps: seq<Param>, fun: nat, father: seq<Typed>,
                           t: VariableTables) returns (ok: bool, types: seq<Type>)
      requires t.Valid()
      modifies t
      ensures t.Valid() && types == ParamTypes(cat, ps, father)
      ensures (ok, t.Table()) == EnterParams(cat, old(t.Table()), ps, types, fun, 1)
    {
      types := ParamTypes(cat, ps, father);
      ok := true;
      var i := 0;
      while ok && i < |ps|
        invariant 0 <= i <= |ps| && t.Valid()
        invariant ok ==> EnterParams(cat, old(t.Table()), ps, types, fun, 1) ==
                         EnterParams(cat, t.Table(), ps[i..], types[i..], fun, i + 1)
        invariant !ok ==> EnterParams(cat, old(t.Table()), ps, types, fun, 1) == (false, t.Table())
        decreases |ps| - i, ok
      {
        assert ps[i..][1..] == ps[i + 1..] && types[i..][1..] == types[i + 1..];
        if ps[i].name in t.varnames || ps[i].name in cat.operators || !ParamTypeOk(cat, types[i]) {
          ok := false;
        } else {
          t.EnterVariable(ps[i].name, i + 1, fun, types[i]);
          i := i + 1;
        }
      }
    }

    method Annotate(e: Expr, t: VariableTables, father: seq<Typed>, depth: nat) returns (a: Ann)
      requires ValidCatalog(cat) && t.Valid()
      modifies this, t
      ensures t.Valid() && unchanged(`nextNode, `argVectors, `tmpArg)
      ensures (a, State(t)) == Annotation.Annotate(cat, e, old(State(t)), father, depth)
      decreases depth, e, 1
    {
      match e {
        case Const(v, ty) =>
          if HasError(ty) {
            a := ConstantA(0, ty);
          } else {
            values := values + [v];
            a := ConstantA(|values| - 1, ty);
          }
        case Sym(x) =>
          a := AnnotateSymbol(x, t, depth);
        case Fun(ps, body) =>
          a := AnnotateFunction(ps, body, t, father, depth);
        case List(es) =>
          if es == [] {
            a := ArgListA([]);
          } else {
            OperatorAnnotated(cat, es[0], State(t), father, depth);
            var head := Annotate(es[0], t, father, depth);
            if head.ExprErrorA? {
              return ExprErrorA;
            }
            var args := AnnotateElements(es[1..], t, head.OperatorA?, father, depth);
            if args.None? {
              return ExprErrorA;
            }
            a := Apply(es, head, args.value);
          }
      }
    }

    method AnnotateSymbol(x: string, t: VariableTables, depth: nat) returns (a: Ann)
      requires ValidCatalog(cat) && t.Valid()
      modifies this, t
      ensures t.Valid() && unchanged(`nextNode, `argVectors, `tmpArg)
      ensures (a, State(t)) == Annotation.AnnotateSymbol(cat, x, old(State(t)), depth)
      decreases depth, Sym(x), 0
    {
      match RoleOf(cat, x) {
        case ObjectRole(ValueObject(v, def, ty)) =>
          values := values + [v];
          defined := defined && def;
          a := ObjectA(x, |values| - 1, ty);
        case ObjectRole(FunctionObject(def)) =>
          if depth == 0 {
            a, thrown := ExprErrorA, true;
          } else {
            values := values + [0];
            var tables := new VariableTables();
            a := Annotate(def, tables, [], depth - 1);
          }
        case OperatorRole(ids) =>
          a := OperatorA(x, ids);
        case OtherRole =>
          if x in t.varnames {
            var e := t.GetVariable(x);
            a := VariableA(x, e.position, e.funindex, e.ty);
          } else if KeywordOf(x).Some? {
            a := KeywordA(KeywordOf(x).value);
          } else if x in cat.typeNames {
            a, thrown := ExprErrorA, true;
          } else {
            a := IdentifierA(x);
          }
      }
    }

    method AnnotateFunction(ps: seq<Param>, body: Expr, t: VariableTables, father: seq<Typed>,
                            depth: nat) returns (a: Ann)
      requires ValidCatalog(cat) && t.Valid()
      modifies this, t
      ensures t.Valid() && unchanged(`nextNode, `argVectors, `tmpArg)
      ensures (a, State(t)) == Annotation.Annotate(cat, Fun(ps, body), old(State(t)), father, depth)
      decreases depth, Fun(ps, body), 0
    {
      FunctionAnnotated(cat, ps, body, State(t), father, depth);
      hide Annotation.Annotate, EnterParams, ParamTypes, ValidCatalog;
      functionno := functionno + 1;
      var localfunctionno := functionno;
      var ok, types := EnterParameters(ps, localfunctionno, father, t);
      if !ok {
        return FunctionErrorA;
      }
      var b := Annotate(body, t, father, depth);
      a := if b.ExprErrorA? then FunctionErrorA else AbstractionA(b, localfunctionno, types);
    }

    /** The loop over the elements after the first. */
    method AnnotateElements(es: seq<Expr>, t: VariableTables, isOp: bool, father: seq<Typed>,
                            depth: nat) returns (args: Option<seq<Ann>>)
      requires ValidCatalog(cat) && t.Valid()
      modifies this, t
      ensures t.Valid() && unchanged(`nextNode, `argVectors, `tmpArg)
      ensures (args, State(t)) == AnnotateAll(cat, es, old(State(t)), isOp, father, [], depth)
      decreases depth, es, 0
    {
      var anns: seq<Ann>, sofar: seq<Typed> := [], [];
      var i := 0;
      assert es[0..] == es;
      assert forall r: seq<Ann> :: [] + r == r;
      while i < |es|
        invariant 0 <= i <= |es| && t.Valid() && unchanged(`nextNode, `argVectors, `tmpArg)
        invariant var rest := AnnotateAll(cat, es[i..], State(t), isOp, father, sofar, depth);
          AnnotateAll(cat, es, old(State(t)), isOp, father, [], depth) ==
            (if rest.0.None? then None else Some(anns + rest.0.value), rest.1)
      {
        ghost var before := State(t);
        var a := Annotate(es[i], t, if isOp then sofar else father, depth);
        assert es[i..][0] == es[i] && es[i..][1..] == es[i + 1..];
        if a.ExprErrorA? {
          return None;
        }
        assert forall r: seq<Ann> :: (anns + [a]) + r == anns + ([a] + r);
        anns, sofar := anns + [a], sofar + [Typed(TypeOf(a), es[i])];
        i := i + 1;
      }
      assert es[i..] == [] && anns + [] == anns;
      args := Some(anns);
    }

    // ---------------------------------------------------------------- building the tree

    /** Builds the tree of an annotated query, numbering its nodes. */
    method Subtree(a: Ann) returns (n: Node)
      requires Buildable(cat, a, |values|)
      modifies `nextNode
      ensures (n, nextNode) == OperatorTree.Subtree(cat, a, values, old(nextNode))
      decreases a, 1
    {
      match a {
        case ConstantA(i, _) =>
          n := NewLeaf(true, Object(Val(values[i])));
        case ObjectA(_, i, _) =>
          n := NewLeaf(true, Object(Val(values[i])));
        case VariableA(_, p, f, ty) =>
          n := NewLeaf(!ty.Stream?, Indirect(f, p));
          n := n.(isStream := ty.Stream?);
        case ApplyOpA(id, opFunId, args, ty) =>
          var op := OpId(id.alg, opFunId % OP_LIMIT);
          var node := NewLeaf(!ty.Stream?, Oper(id.alg, opFunId, []));
          var sons := BuildSons(args, Lazy(cat, op));
          n := node.(kind := Oper(id.alg, opFunId, sons), isStream := ty.Stream?, usesMemory := UsesMemory(cat, op));
        case AbstractionA(body, funno, params) =>
          n := Subtree(body);
          n := n.(evaluable := false, isFun := true, funNo := funno, arity := |params|);
        case ApplyAbsA(fn, args, _) =>
          var node := NewLeaf(true, Oper(0, 0, []));
          var f := Subtree(fn);
          var sons := BuildSons(args, false);
          n := node.(kind := Oper(0, 0, [f] + sons), isStream := f.isStream, evaluable := !f.isStream);
        case WrapperA(k, number, body, _) =>
          n := Subtree(body);
          n := Wrap(n, k, number);
        case ArgListA(args) =>
          var node := NewLeaf(false, Oper(0, 1, []));
          var sons := BuildSons(args, false);
          n := node.(kind := Oper(0, 1, sons));
        case IdentifierA(_) =>
          n := NewLeaf(false, Object(Null));
      }
    }

    method NewLeaf(evaluable: bool, kind: Kind) returns (n: Node)
      modifies `nextNode
      ensures n == Leaf(old(nextNode), evaluable, kind) && nextNode == old(nextNode) + 1
    {
      n := Leaf(nextNode, evaluable, kind);
      nextNode := nextNode + 1;
    }

    /** The loop over the sons of a node. */
    method BuildSons(args: seq<Ann>, lazy: bool) returns (sons: seq<Node>)
      requires BuildableAll(cat, args, |values|)
      modifies `nextNode
      ensures (sons, nextNode) == SubtreeAll(cat, args, values, old(nextNode), lazy)
      decreases args, 0
    {
      sons := [];
      var i := 0;
      assert args[0..] == args;
      assert forall r: seq<Node> :: [] + r == r;
      while i < |args|
        invariant 0 <= i <= |args| && BuildableAll(cat, args[i..], |values|)
        invariant var rest := SubtreeAll(cat, args[i..], values, nextNode, lazy);
          SubtreeAll(cat, args, values, old(nextNode), lazy) == (sons + rest.0, rest.1)
      {
        assert args[i..][0] == args[i] && args[i..][1..] == args[i + 1..];
        var n := Subtree(args[i]);
        if lazy {
          n := n.(evaluable := false);
        }
        assert forall r: seq<Node> :: (sons + [n]) + r == sons + ([n] + r);
        sons := sons + [n];
        i := i + 1;
      }
      assert args[i..] == [] && sons + [] == sons;
    }

    // ---------------------------------------------------------------- argument vectors

    /** All vectors are allocated separately and have `MAXARG` slots. */
    ghost predicate Allocated()
      reads this
    {
      && (forall i :: 0 <= i < |argVectors| ==> argVectors[i].Length == MAXARG)
      && (forall i :: 0 <= i < |tmpArg| ==> tmpArg[i].Length == MAXARG)
      && (forall i, j :: 0 <= i < j < |argVectors| ==> argVectors[i] != argVectors[j])
      && (forall i, j :: 0 <= i < j < |tmpArg| ==> tmpArg[i] != tmpArg[j])
      && (forall i, j :: 0 <= i < |argVectors| && 0 <= j < |tmpArg| ==> argVectors[i] != tmpArg[j])
    }

    /** The contents of all vectors. */
    ghost function Snapshot(): (st: Store)
      requires Allocated()
      reads this, argVectors, tmpArg
      ensures Shaped(st) && |st.vecs| == |argVectors| && |st.tmp| == |tmpArg|
      ensures forall i :: 0 <= i < |argVectors| ==> st.vecs[i] == argVectors[i][..]
      ensures forall i :: 0 <= i < |tmpArg| ==> st.tmp[i] == tmpArg[i][..]
    {
      Store(seq(|argVectors|, i requires 0 <= i < |argVectors| reads this, argVectors => argVectors[i][..]),
            seq(|tmpArg|, i requires 0 <= i < |tmpArg| reads this, tmpArg => tmpArg[i][..]))
    }

    method NewVectors(n: nat) returns (vs: seq<array<Word>>)
      ensures |vs| == n && forall i :: 0 <= i < n ==> fresh(vs[i]) && vs[i].Length == MAXARG
      ensures forall i, j :: 0 <= i < j < n ==> vs[i] != vs[j]
      ensures forall i, k :: 0 <= i < n && 0 <= k < MAXARG ==> vs[i][k] == Null
    {
      vs := [];
      while |vs| < n
        invariant |vs| <= n && forall i :: 0 <= i < |vs| ==> fresh(vs[i]) && vs[i].Length == MAXARG
        invariant forall i, j :: 0 <= i < j < |vs| ==> vs[i] != vs[j]
        invariant forall i, k :: 0 <= i < |vs| && 0 <= k < MAXARG ==> vs[i][k] == Null
        decreases n - |vs|
      {
        var v := new Word[MAXARG](_ => Null);
        vs := vs + [v];
      }
    }

    /** `SubtreeX`: an argument vector per function, a vector of intermediate arguments per node. */
    method AllocateArgVectors()
      modifies `argVectors, `tmpArg
      ensures Allocated() && Snapshot() == FreshStore(functionno, nextNode)
      ensures forall i :: 0 <= i < |argVectors| ==> fresh(argVectors[i])
      ensures forall i :: 0 <= i < |tmpArg| ==> fresh(tmpArg[i])
    {
      argVectors := NewVectors(functionno);
      tmpArg := NewVectors(nextNode);
      ghost var st, st0 := Snapshot(), FreshStore(functionno, nextNode);
      forall i | 0 <= i < functionno ensures st.vecs[i] == st0.vecs[i] {}
      forall i | 0 <= i < nextNode ensures st.tmp[i] == st0.tmp[i] {}
      assert st.vecs == st0.vecs && st.tmp == st0.tmp;
    }

    method WriteTmp(id: nat, i: nat, w: Word)
      requires Allocated() && id < |tmpArg| && i < MAXARG
      modifies tmpArg[id]
      ensures Snapshot() == SetTmp(old(Snapshot()), id, i, w)
    {
      tmpArg[id][i] := w;
      assert Snapshot().vecs == old(Snapshot().vecs);
      assert Snapshot().tmp == old(Snapshot().tmp)[id := old(Snapshot().tmp[id])[i := w]];
    }

    method CopySlots(v: array<Word>, args: seq<Word>)
      requires |args| <= v.Length
      modifies v
      ensures v[..] == args + old(v[..])[|args|..]
    {
      var i := 0;
      while i < |args|
        invariant 0 <= i <= |args|
        invariant forall k :: 0 <= k < i ==> v[k] == args[k]
        invariant forall k :: i <= k < v.Length ==> v[k] == old(v[k])
      {
        v[i] := args[i];
        i := i + 1;
      }
    }

    /** Copies parameters into the argument vector of function `f`, slot by slot. */
    method LoadArguments(f: nat, args: seq<Word>)
      requires Allocated() && 1 <= f <= |argVectors| && |args| <= MAXARG
      modifies argVectors[f - 1]
      ensures Snapshot() == Load(old(Snapshot()), f, args)
    {
      CopySlots(argVectors[f - 1], args);
      assert Snapshot().tmp == old(Snapshot().tmp);
      assert Snapshot().vecs == old(Snapshot().vecs)[f - 1 := args + old(Snapshot().vecs[f - 1])[|args|..]];
    }

    // ---------------------------------------------------------------- evaluation

    method Eval(n: Node, limit: nat) returns (w: Option<Word>)
      requires Allocated() && Fits(n, |argVectors|, |tmpArg|)
      modifies argVectors, tmpArg
      ensures (w, Snapshot()) == OperatorTree.Eval(cat, n, old(Snapshot()), limit)
      decreases n, 0, 0
    {
      match n.kind {
        case Object(v) =>
          w := Some(v);
        case Indirect(f, p) =>
          var vector := argVectors[f - 1];
          if n.isStream || vector[MAXARG - p] != Null {
            w := None;
          } else {
            w := Some(vector[p - 1]);
          }
        case Oper(alg, opFunId, sons) =>
          var ok := EvalArguments(n.id, sons, limit);
          if !ok {
            return None;
          }
          if alg == 0 && opFunId == 0 {
            assert Fits(sons[0], |argVectors|, |tmpArg|);
            LoadArguments(sons[0].funNo, tmpArg[n.id][1..|sons|]);
            w := Eval(sons[0], limit);
          } else {
            match ValueMapOf(cat, alg, opFunId) {
              case None => w := None;
              case Some(vm) => w := CallValueMapping(n.id, vm, sons, limit);
            }
          }
      }
    }

    /** The loop that fills the node's own vector. */
    method EvalArguments(id: nat, sons: seq<Node>, limit: nat) returns (ok: bool)
      requires Allocated() && id < |tmpArg| && |sons| <= MAXARG && FitsAll(sons, |argVectors|, |tmpArg|)
      modifies argVectors, tmpArg
      ensures (ok, Snapshot()) == EvalSons(cat, id, 0, sons, old(Snapshot()), limit)
      decreases sons, 0, 0
    {
      var i := 0;
      assert sons[0..] == sons;
      while i < |sons|
        invariant 0 <= i <= |sons| && FitsAll(sons[i..], |argVectors|, |tmpArg|)
        invariant EvalSons(cat, id, 0, sons, old(Snapshot()), limit)
                  == EvalSons(cat, id, i, sons[i..], Snapshot(), limit)
      {
        assert sons[i..][0] == sons[i] && sons[i..][1..] == sons[i + 1..];
        if !sons[i].evaluable {
          WriteTmp(id, i, NodeRef(sons[i].id));
        } else {
          var w := Eval(sons[i], limit);
          if w.None? {
            return false;
          }
          WriteTmp(id, i, w.value);
        }
        i := i + 1;
      }
      assert sons[i..] == [];
      return true;
    }

    /** The value mapping runs: it reads the node's vector and requests arguments. */
    method CallValueMapping(id: nat, vm: ValueMap, sons: seq<Node>, limit: nat) returns (w: Option<Word>)
      requires Allocated() && id < |tmpArg| && |sons| <= MAXARG && FitsAll(sons, |argVectors|, |tmpArg|)
      modifies argVectors, tmpArg
      ensures (w, Snapshot()) == RunOp(cat, id, vm, sons, [], old(Snapshot()), limit, limit)
      decreases sons, 1, 0
    {
      var answers: seq<Value> := [];
      var fuel := limit;
      while true
        invariant RunOp(cat, id, vm, sons, [], old(Snapshot()), limit, limit) ==
                  RunOp(cat, id, vm, sons, answers, Snapshot(), fuel, limit)
        decreases fuel
      {
        var move := vm(View(tmpArg[id][..|sons|]), answers);
        assert tmpArg[id][..|sons|] == Snapshot().tmp[id][..|sons|];
        match move {
          case Done(v) =>
            return Some(Val(v));
          case Ask(path, args) =>
            if !Serves(move, sons, fuel) {
              return None;
            }
            var son := NodeAt(sons, path).value;
            FitsAt(sons, path, |argVectors|, |tmpArg|);
            if son.isFun {
              LoadArguments(son.funNo, Vals(args));
            }
            var r := Eval(son, limit);
            if r.None? || !r.value.Val? {
              return None;
            }
            answers, fuel := answers + [r.value.value], fuel - 1;
        }
      }
    }

    // ---------------------------------------------------------------- queries

    /** Evaluates a tree over freshly allocated vectors. */
    method Run(n: Node, limit: nat) returns (w: Option<Word>)
      requires Fits(n, functionno, nextNode)
      modifies `argVectors, `tmpArg
      ensures w == OperatorTree.Eval(cat, n, FreshStore(functionno, nextNode), limit).0
    {
      AllocateArgVectors();
      w := Eval(n, limit);
    }

    /** Annotates with fresh tables and counters. */
    method AnnotateX(e: Expr, depth: nat) returns (a: Ann)
      requires ValidCatalog(cat)
      modifies this
      ensures a == Annotation.AnnotateX(cat, e, depth).0
      ensures values == Annotation.AnnotateX(cat, e, depth).1.values
      ensures functionno == Annotation.AnnotateX(cat, e, depth).1.functionno
      ensures defined == Annotation.AnnotateX(cat, e, depth).1.defined
      ensures thrown == Annotation.AnnotateX(cat, e, depth).1.thrown
      ensures nextNode == 0
    {
      values, functionno, defined, thrown, nextNode := [], 0, true, false, 0;
      var t := new VariableTables();
      a := Annotate(e, t, [], depth);
      assert Annotation.AnnotateX(cat, e, depth) == (a, State(t));
    }

    /**
     Annotates a query, tests it as `Construct` does, builds its tree and evaluates it. A well-scoped
     and supported query over defined objects that resolves is answered with its meaning under lexical
     scoping; where no operator accepts an argument with a type error, every other query is refused; and
     no query that does not resolve is evaluated, unless it or a type mapping hides the error.
     */
    method Query(e: Expr, depth: nat, limit: nat) returns (w: Outcome)
      requires ValidCatalog(cat)
      modifies this
      ensures w == Answer(cat, e, depth, limit)
      ensures ScopedCatalog(cat) && WellScoped(cat, e, {}, {}) ==>
        var r := Resolve(cat, e, map[], [], depth);
        && (r.Some? && Supported(cat, r.value.core) && AllDefined(cat, e, depth) ==>
              w == Answered(Image(Sem(cat, r.value.core, map[], limit))))
        && (Strict(cat) ==> (w == Refused <==> r.None?))
        && (r.None? && Plain(cat, e, {}, depth) && Forthright(cat) ==> w in {Refused, Undefined, NotBuilt})
    {
      var a := AnnotateX(e, depth);
      if thrown || HasError(TypeOf(a)) {
        w := Refused;
      } else if !defined {
        w := Undefined;
      } else if !Buildable(cat, a, |values|) {
        w := NotBuilt;
      } else {
        var n := Subtree(a);
        if !n.evaluable {
          w := NotEvaluable;
        } else if !Fits(n, functionno, nextNode) {
          w := NotBuilt;
        } else {
          var v := Run(n, limit);
          w := Answered(v);
        }
      }
      QueryMeaning(cat, e, depth, limit);
    }
  }

  /** The candidates that an annotation carries are registered. */
  lemma {:induction false} OperatorAnnotated(cat: Catalog, e: Expr, s: AState, father: seq<Typed>, depth: nat)
    requires ValidCatalog(cat)
    ensures var a := Annotate(cat, e, s, father, depth).0; a.OperatorA? ==> a.ids != [] && GoodIds(cat, a.ids)
  {
    match e
    case Sym(x) =>
      if RoleOf(cat, x).ObjectRole? && RoleOf(cat, x).obj.FunctionObject? && depth > 0 {
        FunctionKind(cat, cat.objects[x].def, s.(values := s.values + [0], table := map[]), [], depth - 1);
      }
    case Fun(_, _) => FunctionKind(cat, e, s, father, depth);
    case _ => ListKind(cat, e, s, father, depth);
  }

  lemma QueryMeaning(cat: Catalog, e: Expr, depth: nat, limit: nat)
    requires ValidCatalog(cat)
    ensures ScopedCatalog(cat) && WellScoped(cat, e, {}, {}) ==>
      var r := Resolve(cat, e, map[], [], depth);
      && (r.Some? && Supported(cat, r.value.core) && AllDefined(cat, e, depth) ==>
            Answer(cat, e, depth, limit) == Answered(Image(Sem(cat, r.value.core, map[], limit))))
      && (Strict(cat) ==> (Answer(cat, e, depth, limit) == Refused <==> r.None?))
      && (r.None? && Plain(cat, e, {}, depth) && Forthright(cat) ==>
            Answer(cat, e, depth, limit) in {Refused, Undefined, NotBuilt})
  {
    if ScopedCatalog(cat) && WellScoped(cat, e, {}, {}) {
      CompilationPreservesMeaning(cat, e, depth, limit);
    }
  }
}
