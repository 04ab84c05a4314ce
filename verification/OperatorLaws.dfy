/**
 Operators in the catalog's own terms. The reading of a query and its compilation look up candidates, type
 mappings and evaluation functions by the same functions; here is what those lookups amount to, for queries
 of one operator applied to constants.
 */
module OperatorLaws {
  import opened Wrappers
  import opened QuerySyntax
  import opened Annotation
  import opened Meaning
  import opened AnnotationCorrect
  import opened Acceptance
  import opened OperatorTree
  import opened Building
  import opened EvaluationCorrect
  import opened Compilation

  // ---------------------------------------------------------------- which candidate is taken

  /** The operator exists, is not excluded, and its type mapping answers something other than `typeerror`. */
  predicate Takes(cat: Catalog, id: OpId, args: seq<Typed>) {
    id in cat.algebra && !cat.algebra[id].excluded &&
    match cat.algebra[id].typeMap(args)
    case Rejected => false
    case Accepted(ty) => ty != TypeError && ty != Basic("typeerror") && ty != Ident("typeerror")
    case Appended(_, _) => true
  }

  /** The candidate at `i` is the first that takes the arguments. */
  ghost predicate FirstToTake(cat: Catalog, ids: seq<OpId>, i: nat, args: seq<Typed>) {
    i < |ids| && Takes(cat, ids[i], args) && forall j :: 0 <= j < i ==> !Takes(cat, ids[j], args)
  }

  lemma {:induction false} FirstTaken(cat: Catalog, ids: seq<OpId>, i: nat, args: seq<Typed>)
    requires FirstToTake(cat, ids, i, args)
    ensures FirstAccepting(cat, ids, args) == Some(ids[i]) && ids[i] in cat.algebra
    ensures TypeMapOf(cat, ids[i], args) == cat.algebra[ids[i]].typeMap(args)
  {
    if i > 0 {
      assert !Takes(cat, ids[0], args);
      assert ids[1..][i - 1] == ids[i] && forall j :: 0 <= j < i - 1 ==> ids[1..][j] == ids[j + 1];
      FirstTaken(cat, ids[1..], i - 1, args);
    }
  }

  lemma {:induction false} NoneTaken(cat: Catalog, ids: seq<OpId>, args: seq<Typed>)
    requires forall j :: 0 <= j < |ids| ==> !Takes(cat, ids[j], args)
    ensures FirstAccepting(cat, ids, args) == None
  {
    if ids != [] {
      assert !Takes(cat, ids[0], args);
      forall j | 0 <= j < |ids[1..]| ensures !Takes(cat, ids[1..][j], args) { assert ids[1..][j] == ids[j + 1]; }
      NoneTaken(cat, ids[1..], args);
    }
  }

  // ---------------------------------------------------------------- constants as arguments

  /** The constants as they are written. */
  function Written(lits: seq<Literal>): (es: seq<Expr>)
    ensures |es| == |lits|
  {
    if lits == [] then [] else [Const(lits[0].value, lits[0].ty)] + Written(lits[1..])
  }

  /** What type mappings see of them. */
  function Typing(lits: seq<Literal>): (ts: seq<Typed>)
    ensures |ts| == |lits|
  {
    if lits == [] then []
    else [Typed(lits[0].ty, Const(lits[0].value, lits[0].ty))] + Typing(lits[1..])
  }

  function TypesOfLiterals(lits: seq<Literal>): (types: seq<Type>)
    ensures |types| == |lits| && forall k :: 0 <= k < |lits| ==> types[k] == lits[k].ty
  {
    seq(|lits|, k requires 0 <= k < |lits| => lits[k].ty)
  }

  function ResolvedLiterals(lits: seq<Literal>): (rs: seq<Resolved>)
    ensures |rs| == |lits|
  {
    if lits == [] then [] else [Resolved(Constant(lits[0].value), lits[0].ty)] + ResolvedLiterals(lits[1..])
  }

  lemma {:induction false} TypedTail(lits: seq<Literal>)
    requires LiteralsTyped(lits) && lits != []
    ensures LiteralsTyped(lits[1..]) && !HasError(lits[0].ty)
  {
    forall k | 0 <= k < |lits[1..]| ensures !HasError(lits[1..][k].ty) { assert lits[1..][k] == lits[k + 1]; }
  }

  lemma {:induction false} LiteralsResolve(cat: Catalog, lits: seq<Literal>, sofar: seq<Typed>, depth: nat)
    requires ValidCatalog(cat) && LiteralsTyped(lits)
    ensures ResolveAll(cat, Written(lits), map[], true, [], sofar, depth) == Some(ResolvedLiterals(lits))
    ensures WellScopedAll(cat, Written(lits), {}, {}) && AllDefinedIn(cat, Written(lits), depth)
    decreases |lits|
  {
    if lits != [] {
      var es := Written(lits);
      TypedTail(lits);
      assert es[0] == Const(lits[0].value, lits[0].ty) && es[1..] == Written(lits[1..]);
      LiteralsResolve(cat, lits[1..], sofar + [Typed(lits[0].ty, es[0])], depth);
      assert {} + Bound(es[0]) == {};
    }
  }

  lemma {:induction false} LiteralsSeen(lits: seq<Literal>)
    ensures WithTypes(ResolvedLiterals(lits), Written(lits)) == Typing(lits)
    ensures CoresIn(ResolvedLiterals(lits)) == Literals(lits) && TypesOf(Typing(lits)) == TypesOfLiterals(lits)
    decreases |lits|
  {
    if lits != [] {
      LiteralsSeen(lits[1..]);
      var rs, es, ts := ResolvedLiterals(lits), Written(lits), Typing(lits);
      assert rs[1..] == ResolvedLiterals(lits[1..]) && es[1..] == Written(lits[1..]) && ts[1..] == Typing(lits[1..]);
      assert TypesOfLiterals(lits)[1..] == TypesOfLiterals(lits[1..]);
      assert TypesOf(ts) == [lits[0].ty] + TypesOf(ts[1..]);
    }
  }

  lemma {:induction false} LiteralsAppend(a: seq<Literal>, b: seq<Literal>)
    ensures Literals(a) + Literals(b) == Literals(a + b)
    decreases |a|
  {
    if a == [] {
      assert a + b == b;
    } else {
      assert (a + b)[1..] == a[1..] + b;
      LiteralsAppend(a[1..], b);
    }
  }

  lemma {:induction false} LiteralAt(lits: seq<Literal>, k: nat)
    requires k < |lits|
    ensures Literals(lits)[k] == Constant(lits[k].value)
    decreases |lits|
  {
    if k > 0 { LiteralAt(lits[1..], k - 1); }
  }

  // ---------------------------------------------------------------- what is answered

  /**
   What an evaluation function makes of constants: it sees `view`, and may request them, one at a time, as
   often as `fuel` says.
   */
  function Played(vm: ValueMap, view: seq<Option<Value>>, lits: seq<Literal>, answers: seq<Value>,
                  fuel: nat): Option<Value>
    decreases fuel
  {
    match vm(view, answers)
    case Done(v) => Some(v)
    case Ask(path, vals) =>
      if fuel == 0 || |path| != 1 || path[0] >= |lits| || vals != [] then None
      else Played(vm, view, lits, answers + [lits[path[0]].value], fuel - 1)
  }

  /** An operator that requests its arguments gets none of them evaluated, the others get all. */
  function Seen(o: Operator, lits: seq<Literal>): seq<Option<Value>> {
    seq(|lits|, k requires 0 <= k < |lits| => if o.requestsArgs then None else Some(lits[k].value))
  }

  lemma {:induction false} SeenInSem(cat: Catalog, id: OpId, lits: seq<Literal>, limit: nat)
    requires id in cat.algebra
    ensures SemArgs(cat, Literals(lits), Lazy(cat, id), map[], limit) == Some(Seen(cat.algebra[id], lits))
    decreases |lits|
  {
    var o := cat.algebra[id];
    if lits == [] {
      assert Seen(o, lits) == [];
    } else {
      SeenInSem(cat, id, lits[1..], limit);
      var cs, first := Literals(lits), if o.requestsArgs then None else Some(lits[0].value);
      assert cs[0] == Constant(lits[0].value) && cs[1..] == Literals(lits[1..]);
      assert Sem(cat, cs[0], map[], limit) == Some(lits[0].value);
      assert Seen(o, lits) == [first] + Seen(o, lits[1..]);
      assert Lazy(cat, id) == o.requestsArgs && IsValueTerm(cs[0]);
      hide Sem, Seen, Lazy, Literals;
    }
  }

  lemma {:induction false} RunPlays(cat: Catalog, c: Core, vm: ValueMap, view: seq<Option<Value>>, lits: seq<Literal>,
                                    answers: seq<Value>, fuel: nat, limit: nat)
    requires c.Operation? && c.args == Literals(lits)
    ensures Run(cat, c, vm, view, map[], answers, fuel, limit) == Played(vm, view, lits, answers, fuel)
    decreases fuel
  {
    match vm(view, answers)
    case Done(_) =>
    case Ask(path, vals) =>
      LiteralPath(lits, path);
      if fuel > 0 && |path| == 1 && path[0] < |lits| && vals == [] {
        var v := lits[path[0]].value;
        assert Sem(cat, Constant(v), map[], limit) == Some(v);
        RunPlays(cat, c, vm, view, lits, answers + [v], fuel - 1, limit);
      }
  }

  lemma {:induction false} LiteralPath(lits: seq<Literal>, path: seq<nat>)
    ensures At(Literals(lits), path) ==
            if |path| == 1 && path[0] < |lits| then Some(Constant(lits[path[0]].value)) else None
  {
    if path != [] && path[0] < |lits| { LiteralAt(lits, path[0]); }
  }

  /** What is known of operator `id` applied to the constants; `all` has those that were appended too. */
  ghost predicate Applies(cat: Catalog, id: OpId, lits: seq<Literal>, all: seq<Literal>) {
    id in cat.algebra && LiteralsTyped(lits) &&
    var o := cat.algebra[id]; var r := o.typeMap(Typing(lits));
    && !r.Rejected? && !HasError(r.ty) && !r.ty.Stream? && HasConstructor(cat, r.ty)
    && all == lits + (if r.Appended? then r.extra else []) && |all| <= MAXARG
    && 0 <= o.select(TypesOfLiterals(lits)) < |o.valueMaps|
  }

  lemma {:induction false} OperationResolves(cat: Catalog, x: string, i: nat, lits: seq<Literal>, all: seq<Literal>,
                                             depth: nat)
    requires ValidCatalog(cat) && x !in cat.objects && x in cat.operators
    requires FirstToTake(cat, cat.operators[x], i, Typing(lits)) && Applies(cat, cat.operators[x][i], lits, all)
    ensures var id := cat.operators[x][i]; var o := cat.algebra[id]; var ty := o.typeMap(Typing(lits)).ty;
      Resolve(cat, List([Sym(x)] + Written(lits)), map[], [], depth)
      == Some(Resolved(Operation(id, o.select(TypesOfLiterals(lits)), Literals(all), ty), ty))
  {
    var e, rs := [Sym(x)] + Written(lits), ResolvedLiterals(lits);
    FirstTaken(cat, cat.operators[x], i, Typing(lits));
    LiteralsResolve(cat, lits, [], depth);
    LiteralsSeen(lits);
    assert e[1..] == Written(lits) && HeadOf(cat, e[0], map[]) == OperatorHead(cat.operators[x]);
    var r := cat.algebra[cat.operators[x][i]].typeMap(Typing(lits));
    LiteralsAppend(lits, if r.Appended? then r.extra else []);
    assert ResolveOperation(cat, cat.operators[x], rs, Written(lits)).Some?;
    hide ValidCatalog, ResolveAll, FirstAccepting, HeadOf, Written, Typing, ResolvedLiterals, Literals;
  }

  lemma {:induction false} LiteralsSupported(cat: Catalog, id: OpId, fun: nat, all: seq<Literal>, ty: Type)
    requires |all| <= MAXARG && !ty.Stream? && HasConstructor(cat, ty)
    ensures Supported(cat, Operation(id, fun, Literals(all), ty))
  {
    var args := Literals(all);
    forall k | 0 <= k < |args| ensures SupportedArg(cat, args[k]) { LiteralAt(all, k); }
  }

  /**
   A query of one registered operator applied to constants is answered by the first candidate that takes
   them: by the evaluation function that its own selection function chooses for their types, on their values
   and those that its type mapping appended.
   */
  lemma {:induction false} ConstantsAnswered(cat: Catalog, x: string, i: nat, lits: seq<Literal>, all: seq<Literal>,
                                             depth: nat, limit: nat)
    requires ValidCatalog(cat) && ScopedCatalog(cat) && x !in cat.objects && x in cat.operators
    requires FirstToTake(cat, cat.operators[x], i, Typing(lits)) && Applies(cat, cat.operators[x][i], lits, all)
    ensures var o := cat.algebra[cat.operators[x][i]];
      var v := Played(o.valueMaps[o.select(TypesOfLiterals(lits))], Seen(o, all), all, [], limit);
      Answer(cat, List([Sym(x)] + Written(lits)), depth, limit)
      == Answered(if v.Some? then Some(Val(v.value)) else None)
  {
    var e, id := List([Sym(x)] + Written(lits)), cat.operators[x][i];
    var o := cat.algebra[id];
    var fun, ty := o.select(TypesOfLiterals(lits)), o.typeMap(Typing(lits)).ty;
    var c := Operation(id, fun, Literals(all), ty);
    OperationResolves(cat, x, i, lits, all, depth);
    LiteralsSupported(cat, id, fun, all, ty);
    LiteralsResolve(cat, lits, [], depth);
    QueryScoped(cat, x, Written(lits), depth);
    SemPlays(cat, id, fun, all, ty, limit);
    hide *;
    CompilationPreservesMeaning(cat, e, depth, limit);
    ImageOf(Sem(cat, c, map[], limit));
  }

  lemma ImageOf(v: Option<Value>)
    ensures Image(v) == if v.Some? then Some(Val(v.value)) else None
  {}

  lemma {:induction false} QueryScoped(cat: Catalog, x: string, es: seq<Expr>, depth: nat)
    requires x !in cat.objects && x in cat.operators
    requires WellScopedAll(cat, es, {}, {}) && AllDefinedIn(cat, es, depth)
    ensures WellScoped(cat, List([Sym(x)] + es), {}, {}) && AllDefined(cat, List([Sym(x)] + es), depth)
  {
    OperatorQueryScoped(cat, x, es);
    assert ([Sym(x)] + es)[1..] == es;
  }

  lemma {:induction false} SemPlays(cat: Catalog, id: OpId, fun: nat, all: seq<Literal>, ty: Type, limit: nat)
    requires id in cat.algebra && fun < |cat.algebra[id].valueMaps|
    ensures var o := cat.algebra[id];
      Sem(cat, Operation(id, fun, Literals(all), ty), map[], limit)
      == Played(o.valueMaps[fun], Seen(o, all), all, [], limit)
  {
    var o, c := cat.algebra[id], Operation(id, fun, Literals(all), ty);
    SeenInSem(cat, id, all, limit);
    RunPlays(cat, c, o.valueMaps[fun], Seen(o, all), all, [], limit, limit);
    hide Run, SemArgs, Played, Seen;
  }

  lemma {:induction false} LiteralsAnnotated(cat: Catalog, x: string, lits: seq<Literal>, depth: nat)
    returns (args: seq<Ann>, s: AState)
    requires ValidCatalog(cat) && ScopedCatalog(cat) && x !in cat.objects && x in cat.operators && LiteralsTyped(lits)
    ensures AnnotateX(cat, List([Sym(x)] + Written(lits)), depth)
            == ApplyOperator(cat, cat.operators[x], args, Typing(lits), s)
  {
    var none: VarTable := map[];
    assert none.Keys == {} && ScopeOf(none) == map[];
    var es := Written(lits);
    LiteralsResolve(cat, lits, [], depth);
    LiteralsSeen(lits);
    AllCorrect(cat, es, Start(), none, true, [], [], depth);
    OperatorQuery(cat, x, es, depth);
    hide AnnotateAll, ResolveAll, Written, Typing, ApplyOperator;
    args, s := AnnotateAll(cat, es, Start(), true, [], [], depth).0.value,
               AnnotateAll(cat, es, Start(), true, [], [], depth).1;
  }

  /** If no candidate takes the constants, or the first that does is a type operator, the query is refused. */
  lemma {:induction false} OtherwiseRefused(cat: Catalog, x: string, lits: seq<Literal>, depth: nat, limit: nat)
    requires ValidCatalog(cat) && ScopedCatalog(cat) && x !in cat.objects && x in cat.operators && LiteralsTyped(lits)
    requires var ids := cat.operators[x];
      || (forall j :: 0 <= j < |ids| ==> !Takes(cat, ids[j], Typing(lits)))
      || exists i: nat ::
           FirstToTake(cat, ids, i, Typing(lits)) && cat.algebra[ids[i]].select(TypesOfLiterals(lits)) < 0
    ensures Answer(cat, List([Sym(x)] + Written(lits)), depth, limit) == Refused
  {
    var ids := cat.operators[x];
    var args, s := LiteralsAnnotated(cat, x, lits, depth);
    LiteralsSeen(lits);
    if forall j :: 0 <= j < |ids| ==> !Takes(cat, ids[j], Typing(lits)) {
      NoneTaken(cat, ids, Typing(lits));
    } else {
      var i: nat :| FirstToTake(cat, ids, i, Typing(lits)) && cat.algebra[ids[i]].select(TypesOfLiterals(lits)) < 0;
      FirstTaken(cat, ids, i, Typing(lits));
    }
    hide *;
    RefusedApplication(cat, ids, args, Typing(lits), s);
    RefusedQuery(cat, List([Sym(x)] + Written(lits)), depth, limit);
  }

  lemma {:induction false} RefusedApplication(cat: Catalog, ids: seq<OpId>, args: seq<Ann>, typed: seq<Typed>,
                                              s: AState)
    requires ValidCatalog(cat)
    requires var id := FirstAccepting(cat, ids, typed);
      id.None? || (id.value in cat.algebra && cat.algebra[id.value].select(TypesOf(typed)) < 0)
    ensures TypeOf(ApplyOperator(cat, ids, args, typed, s).0) == TypeError
  {}

  lemma {:induction false} RefusedQuery(cat: Catalog, e: Expr, depth: nat, limit: nat)
    requires ValidCatalog(cat) && TypeOf(AnnotateX(cat, e, depth).0) == TypeError
    ensures Answer(cat, e, depth, limit) == Refused
  {
    hide AnnotateX;
  }

  // ---------------------------------------------------------------- objects before operators

  /** An object is meant before an operator of the same name. */
  lemma {:induction false} ObjectBeforeOperator(cat: Catalog, x: string, v: Value, ty: Type, depth: nat, limit: nat)
    requires ValidCatalog(cat) && x in cat.objects && cat.objects[x] == ValueObject(v, true, ty) && !HasError(ty)
    ensures Answer(cat, Sym(x), depth, limit) == Answered(Some(Val(v)))
  {
    var a, n := ObjectA(x, 0, ty), Leaf(0, true, Object(Val(v)));
    assert [] + [v] == [v] && AnnotateSymbol(cat, x, Start(), depth) == (a, Start().(values := [v]));
    assert AnnotateX(cat, Sym(x), depth) == AnnotateSymbol(cat, x, Start(), depth);
    assert Buildable(cat, a, 1) && Subtree(cat, a, [v], 0) == (n, 1);
    assert FitsKind(n.kind, 0, 1) && Fits(n, 0, 1);
    assert EvalKind(cat, 0, false, n.kind, FreshStore(0, 1), limit).0 == Some(Val(v));
  }
}
