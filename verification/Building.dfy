/**
 What building the tree adds to the test of the root type. Every operator's node gets a result object, made
 by the type constructor of its result type, so that no ill-typed application is ever built. Here it is shown
 which errors are left: those that a query carries in its constants, objects, identifiers and counter numbers,
 and those that a type mapping hides inside a type.
 */
module Building {
  import opened Wrappers
  import opened QuerySyntax
  import opened Annotation
  import opened Meaning
  import opened AnnotationCorrect
  import opened Acceptance
  import opened OperatorTree

  // ---------------------------------------------------------------- errors that a query carries

  /** A counter in the list has a number in range. */
  predicate CounterInRange(cat: Catalog, es: seq<Expr>, scope: set<string>) {
    |es| > 1 && es[0] == Sym("counter") && RoleOf(cat, "counter").OtherRole? && "counter" !in scope
    && IsNumber(es[1], "int")
    ==> 0 < es[1].value <= NO_COUNTERS
  }

  /**
   No constant and no object in the query, or in a stored function that it mentions, is ill-typed, no
   identifier is the symbol `typeerror`, and counters have numbers in range.
   */
  predicate Plain(cat: Catalog, e: Expr, scope: set<string>, depth: nat)
    decreases depth, e
  {
    match e
    case Const(_, ty) => !HasError(ty)
    case Sym(x) =>
      (match RoleOf(cat, x)
       case ObjectRole(ValueObject(_, _, ty)) => !HasError(ty)
       case ObjectRole(FunctionObject(def)) => depth > 0 ==> Plain(cat, def, {}, depth - 1)
       case OperatorRole(_) => true
       case OtherRole => x in scope || x != "typeerror")
    case Fun(ps, body) => Plain(cat, body, scope + NameSet(ps), depth)
    case List(es) => CounterInRange(cat, es, scope) && PlainAll(cat, es, scope, depth)
  }

  predicate PlainAll(cat: Catalog, es: seq<Expr>, scope: set<string>, depth: nat)
    decreases depth, es
  {
    es == [] || (Plain(cat, es[0], scope, depth) && PlainAll(cat, es[1..], scope, depth))
  }

  // ---------------------------------------------------------------- errors inside result types

  /** An error in a result type is the symbol by which the type constructor is looked up. */
  predicate ErrorInFront(ty: Type) {
    HasError(ty) ==> IsErrorSymbol(if ty.Stream? then ty.elem else ty)
  }

  /** No operator in the annotated query has a result type with an error hidden inside. */
  predicate NothingHidden(a: Ann) {
    match a
    case ApplyOpA(_, _, args, ty) => ErrorInFront(ty) && NothingHiddenAll(args)
    case AbstractionA(body, _, _) => NothingHidden(body)
    case ApplyAbsA(fn, args, _) => NothingHidden(fn) && NothingHiddenAll(args)
    case WrapperA(_, _, body, _) => NothingHidden(body)
    case ArgListA(args) => NothingHiddenAll(args)
    case _ => true
  }

  predicate NothingHiddenAll(as_: seq<Ann>) {
    as_ == [] || (NothingHidden(as_[0]) && NothingHiddenAll(as_[1..]))
  }

  /** Type mappings reject with the symbol `typeerror` and never put it inside another type. */
  ghost predicate Forthright(cat: Catalog) {
    forall id, args :: id in cat.algebra ==>
      var r := cat.algebra[id].typeMap(args);
      r.Rejected? || ErrorInFront(r.ty)
  }

  lemma {:induction false} NothingHiddenEach(as_: seq<Ann>)
    ensures NothingHiddenAll(as_) <==> forall i :: 0 <= i < |as_| ==> NothingHidden(as_[i])
  {
    if as_ != [] {
      NothingHiddenEach(as_[1..]);
      if NothingHiddenAll(as_) {
        forall i | 0 <= i < |as_| ensures NothingHidden(as_[i]) {
          if i > 0 { assert as_[i] == as_[1..][i - 1]; }
        }
      }
      if forall i :: 0 <= i < |as_| ==> NothingHidden(as_[i]) {
        forall i | 0 <= i < |as_[1..]| ensures NothingHidden(as_[1..][i]) { assert as_[1..][i] == as_[i + 1]; }
      }
    }
  }

  lemma {:induction false} CleanHidesNothing(a: Ann)
    requires Clean(a)
    ensures NothingHidden(a)
    decreases a
  {
    match a
    case ApplyOpA(_, _, args, _) => CleanHidesNothingAll(args);
    case AbstractionA(body, _, _) => CleanHidesNothing(body);
    case ApplyAbsA(fn, args, _) =>
      CleanHidesNothing(fn);
      CleanHidesNothingAll(args);
    case WrapperA(_, _, body, _) => CleanHidesNothing(body);
    case ArgListA(args) => CleanHidesNothingAll(args);
    case _ =>
  }

  lemma {:induction false} CleanHidesNothingAll(as_: seq<Ann>)
    requires CleanAll(as_)
    ensures NothingHiddenAll(as_)
    decreases as_
  {
    if as_ != [] {
      CleanHidesNothing(as_[0]);
      CleanHidesNothingAll(as_[1..]);
    }
  }

  /**
   The constructor of a result type is looked up by the type's symbol, or by the first symbol of its list;
   for a stream the elements' type counts.
   */
  lemma {:induction false} ConstructorLookedUp(cat: Catalog, x: string, rest: seq<Type>, t: Type)
    requires t.Tuple? || t.Map? || t.Stream?
    ensures HasConstructor(cat, Basic(x)) <==> x in cat.typeNames
    ensures HasConstructor(cat, Tuple([Basic(x)] + rest)) <==> x in cat.typeNames
    ensures HasConstructor(cat, Stream(Basic(x))) <==> x in cat.typeNames
    ensures HasConstructor(cat, Stream(Tuple([Basic(x)] + rest))) <==> x in cat.typeNames
    ensures HasConstructor(cat, Stream(Stream(t))) <==> "stream" in cat.typeNames
    ensures t.Map? ==> (HasConstructor(cat, t) <==> "map" in cat.typeNames)
    ensures !HasConstructor(cat, Tuple([])) && !HasConstructor(cat, Tuple([t] + rest))
  {
    assert ([Basic(x)] + rest)[0] == Basic(x) && ([t] + rest)[0] == t;
  }

  // ---------------------------------------------------------------- what is built is clean

  /** What is built over `n` values has no error, unless a type mapping hides one. */
  ghost predicate CleanIfBuilt(cat: Catalog, a: Ann, n: nat) {
    && (Buildable(cat, a, n) && NothingHidden(a) ==> Clean(a))
    && (Forthright(cat) ==> NothingHidden(a))
  }

  ghost predicate CleanIfBuiltAll(cat: Catalog, as_: seq<Ann>, n: nat) {
    && (BuildableAll(cat, as_, n) && NothingHiddenAll(as_) ==> CleanAll(as_))
    && (Forthright(cat) ==> NothingHiddenAll(as_))
  }

  lemma {:induction false} JoinBuilt(cat: Catalog, as_: seq<Ann>, bs: seq<Ann>, n: nat)
    requires CleanIfBuiltAll(cat, as_, n) && CleanIfBuiltAll(cat, bs, n)
    ensures CleanIfBuiltAll(cat, as_ + bs, n)
    decreases |as_|
  {
    SplitBuilt(cat, as_, bs, n);
    Concatenation(as_, bs, 0);
  }

  lemma {:induction false} SplitBuilt(cat: Catalog, as_: seq<Ann>, bs: seq<Ann>, n: nat)
    ensures BuildableAll(cat, as_ + bs, n) <==> BuildableAll(cat, as_, n) && BuildableAll(cat, bs, n)
    ensures NothingHiddenAll(as_ + bs) <==> NothingHiddenAll(as_) && NothingHiddenAll(bs)
    decreases |as_|
  {
    if as_ == [] {
      assert as_ + bs == bs;
    } else {
      assert (as_ + bs)[1..] == as_[1..] + bs;
      SplitBuilt(cat, as_[1..], bs, n);
    }
  }

  /** Variables have correct types. */
  ghost predicate TypedTable(table: VarTable) {
    forall x :: x in table ==> !HasError(table[x].ty)
  }

  lemma {:induction false} ParamsTypedTable(cat: Catalog, table: VarTable, ps: seq<Param>, types: seq<Type>, fun: nat,
                                            k: nat)
    requires ValidCatalog(cat) && |ps| == |types| && TypedTable(table)
    ensures var (ok, table') := EnterParams(cat, table, ps, types, fun, k);
      && TypedTable(table') && table.Keys <= table'.Keys
      && (ok ==> table.Keys + NameSet(ps) <= table'.Keys && !AnyError(types))
    decreases |ps|
  {
    if ps != [] && ps[0].name !in table && ps[0].name !in cat.operators && ParamTypeOk(cat, types[0]) {
      var table1 := table[ps[0].name := VarEntry(k, fun, types[0])];
      ParamsTypedTable(cat, table1, ps[1..], types[1..], fun, k + 1);
      assert forall p :: p in ps ==> p == ps[0] || p in ps[1..];
    }
  }

  lemma {:induction false} AppendedBuilt(cat: Catalog, values: seq<Value>, extra: seq<Literal>, n: nat)
    requires LiteralsTyped(extra)
    ensures CleanIfBuiltAll(cat, AppendConstants(values, extra).0, n)
    decreases |extra|
  {
    if extra != [] {
      forall i | 0 <= i < |extra[1..]| ensures !HasError(extra[1..][i].ty) { assert extra[1..][i] == extra[i + 1]; }
      AppendedBuilt(cat, values + [extra[0].value], extra[1..], n);
      var rest := AppendConstants(values + [extra[0].value], extra[1..]).0;
      var a := ConstantA(|values|, extra[0].ty);
      assert ([a] + rest)[1..] == rest && AppendConstants(values, extra).0 == [a] + rest;
    }
  }

  lemma {:induction false} NoConstructor(cat: Catalog, ty: Type)
    requires ValidCatalog(cat) && HasConstructor(cat, ty) && ErrorInFront(ty)
    ensures !HasError(ty)
  {}

  lemma {:induction false} OperatorBuilt(cat: Catalog, ids: seq<OpId>, args: seq<Ann>, typed: seq<Typed>, s: AState,
                                         n: nat)
    requires ValidCatalog(cat) && CleanIfBuiltAll(cat, args, n)
    ensures CleanIfBuilt(cat, ApplyOperator(cat, ids, args, typed, s).0, n)
  {
    var a := ApplyOperator(cat, ids, args, typed, s).0;
    if Buildable(cat, a, n) && NothingHidden(a) { NoConstructor(cat, a.ty); }
    match FirstAccepting(cat, ids, typed)
    case None =>
    case Some(id) =>
      var r := TypeMapOf(cat, id, typed);
      assert !r.Rejected?;
      var extra := if r.Appended? then r.extra else [];
      AppendedBuilt(cat, s.values, extra, n);
      JoinBuilt(cat, args, AppendConstants(s.values, extra).0, n);
  }

  lemma {:induction false} ElementBuilt(cat: Catalog, as_: seq<Ann>, i: nat, n: nat)
    requires CleanIfBuiltEach(cat, as_, n) && i < |as_|
    ensures CleanIfBuilt(cat, as_[i], n)
  {}

  ghost predicate CleanIfBuiltEach(cat: Catalog, as_: seq<Ann>, n: nat) {
    forall i :: 0 <= i < |as_| ==> CleanIfBuilt(cat, as_[i], n)
  }

  lemma {:induction false} EachBuilt(cat: Catalog, as_: seq<Ann>, n: nat)
    requires CleanIfBuiltEach(cat, as_, n)
    ensures CleanIfBuiltAll(cat, as_, n)
    decreases |as_|
  {
    if as_ != [] {
      assert CleanIfBuilt(cat, as_[0], n);
      forall i | 0 <= i < |as_[1..]| ensures CleanIfBuilt(cat, as_[1..][i], n) { assert as_[1..][i] == as_[i + 1]; }
      EachBuilt(cat, as_[1..], n);
    }
  }

  /** A pseudo operator at the head of a list is recognised, and its counter number is in range. */
  ghost predicate CounterChecked(es: seq<Expr>, head: Ann) {
    head == KeywordA(Counter) && |es| > 1 && IsNumber(es[1], "int") ==> 0 < es[1].value <= NO_COUNTERS
  }

  lemma {:induction false} ApplyBuilt(cat: Catalog, es: seq<Expr>, head: Ann, args: seq<Ann>, s: AState, n: nat)
    requires ValidCatalog(cat) && |es| == |args| + 1
    requires CleanIfBuilt(cat, head, n) && CleanIfBuiltEach(cat, args, n) && CounterChecked(es, head)
    ensures CleanIfBuilt(cat, Apply(cat, es, head, args, s).0, n)
  {
    EachBuilt(cat, args, n);
    match head
    case OperatorA(_, ids) => OperatorBuilt(cat, ids, args, Pair(args, es[1..]), s, n);
    case AbstractionA(_, _, _) =>
    case KeywordA(_) =>
      forall i | 0 <= i < |args| ensures CleanIfBuilt(cat, args[i], n) { ElementBuilt(cat, args, i, n); }
    case FunctionErrorA =>
    case _ => ListBuilt(cat, head, args, n);
  }

  lemma {:induction false} ListBuilt(cat: Catalog, head: Ann, args: seq<Ann>, n: nat)
    requires CleanIfBuilt(cat, head, n) && CleanIfBuiltAll(cat, args, n)
    ensures CleanIfBuilt(cat, ArgListA([head] + args), n)
  {
    var all := [head] + args;
    assert all[1..] == args && all[0] == head;
    assert BuildableAll(cat, all, n) <==> Buildable(cat, head, n) && BuildableAll(cat, args, n);
    assert NothingHiddenAll(all) <==> NothingHidden(head) && NothingHiddenAll(args);
    if CleanAll(all) { CleanTypes(all); }
  }

  // ---------------------------------------------------------------- the pass

  /** What the pass keeps: variables stay entered, with correct types. */
  ghost predicate Kept(table: VarTable, table': VarTable) {
    TypedTable(table') && table.Keys <= table'.Keys
  }

  /** Over a plain query the pass makes only annotations that, if they are built, have no error. */
  lemma {:induction false} BuiltIsClean(cat: Catalog, e: Expr, s: AState, scope: set<string>, father: seq<Typed>,
                                        depth: nat, n: nat)
    requires ValidCatalog(cat) && Plain(cat, e, scope, depth)
    requires TypedTable(s.table) && scope <= s.table.Keys
    ensures var (a, s') := Annotate(cat, e, s, father, depth); CleanIfBuilt(cat, a, n) && Kept(s.table, s'.table)
    decreases depth, e, 1
  {
    match e
    case Const(_, _) =>
    case Sym(x) =>
      if depth > 0 && RoleOf(cat, x).ObjectRole? && RoleOf(cat, x).obj.FunctionObject? {
        var def := cat.objects[x].def;
        BuiltIsClean(cat, def, s.(values := s.values + [0], table := map[]), {}, [], depth - 1, n);
      }
    case Fun(ps, body) => FunctionBuilt(cat, ps, body, s, scope, father, depth, n);
    case List(es) => if es != [] { BuiltListIsClean(cat, es, s, scope, father, depth, n); }
  }

  lemma {:induction false} AbstractionBuilt(cat: Catalog, b: Ann, k: nat, types: seq<Type>, n: nat)
    ensures CleanIfBuilt(cat, FunctionErrorA, n)
    ensures CleanIfBuilt(cat, b, n) && !AnyError(types) ==> CleanIfBuilt(cat, AbstractionA(b, k, types), n)
  {}

  lemma {:induction false} FunctionAnnotated(cat: Catalog, ps: seq<Param>, body: Expr, s: AState, father: seq<Typed>,
                                             depth: nat)
    requires ValidCatalog(cat)
    ensures var k, types := s.functionno + 1, ParamTypes(cat, ps, father);
      var (ok, table) := EnterParams(cat, s.table, ps, types, k, 1);
      var inner := s.(functionno := k, table := table);
      var (b, s') := Annotate(cat, body, inner, father, depth);
      Annotate(cat, Fun(ps, body), s, father, depth)
      == if !ok then (FunctionErrorA, inner)
         else (if b.ExprErrorA? then FunctionErrorA else AbstractionA(b, k, types), s')
  {
    hide ValidCatalog, EnterParams, ParamTypes;
  }

  lemma {:induction false} FunctionBuilt(cat: Catalog, ps: seq<Param>, body: Expr, s: AState, scope: set<string>,
                                         father: seq<Typed>, depth: nat, n: nat)
    requires ValidCatalog(cat) && Plain(cat, Fun(ps, body), scope, depth)
    requires TypedTable(s.table) && scope <= s.table.Keys
    ensures var (a, s') := Annotate(cat, Fun(ps, body), s, father, depth);
      CleanIfBuilt(cat, a, n) && Kept(s.table, s'.table)
    decreases depth, Fun(ps, body), 0
  {
    var k, types := s.functionno + 1, ParamTypes(cat, ps, father);
    var (ok, table) := EnterParams(cat, s.table, ps, types, k, 1);
    var inner := s.(functionno := k, table := table);
    ParamsTypedTable(cat, s.table, ps, types, k, 1);
    FunctionAnnotated(cat, ps, body, s, father, depth);
    assert Plain(cat, body, scope + NameSet(ps), depth);
    hide ValidCatalog, Plain, CleanIfBuilt, Annotate, EnterParams, ParamTypes, TypedTable;
    AbstractionBuilt(cat, FunctionErrorA, k, [], n);
    if ok {
      BuiltIsClean(cat, body, inner, scope + NameSet(ps), father, depth, n);
      AbstractionBuilt(cat, Annotate(cat, body, inner, father, depth).0, k, types, n);
    }
  }

  lemma {:induction false} HeadChecked(cat: Catalog, es: seq<Expr>, s: AState, scope: set<string>, father: seq<Typed>,
                                       depth: nat)
    requires ValidCatalog(cat) && es != [] && CounterInRange(cat, es, scope) && scope <= s.table.Keys
    ensures CounterChecked(es, Annotate(cat, es[0], s, father, depth).0)
  {
    var head := Annotate(cat, es[0], s, father, depth).0;
    if head == KeywordA(Counter) {
      if es[0].Sym? {
        SymbolAnnotated(cat, es[0].name, s, depth);
      } else if es[0].Fun? {
        FunctionKind(cat, es[0], s, father, depth);
        assert false;
      } else {
        ListKind(cat, es[0], s, father, depth);
        assert false;
      }
    }
  }

  lemma {:induction false} SymbolAnnotated(cat: Catalog, x: string, s: AState, depth: nat)
    requires ValidCatalog(cat) && AnnotateSymbol(cat, x, s, depth).0 == KeywordA(Counter)
    ensures x == "counter" && RoleOf(cat, x).OtherRole? && x !in s.table
  {}

  lemma {:induction false} BuiltListIsClean(cat: Catalog, es: seq<Expr>, s: AState, scope: set<string>,
                                            father: seq<Typed>, depth: nat, n: nat)
    requires ValidCatalog(cat) && Plain(cat, List(es), scope, depth) && es != []
    requires TypedTable(s.table) && scope <= s.table.Keys
    ensures var (a, s') := Annotate(cat, List(es), s, father, depth);
      CleanIfBuilt(cat, a, n) && Kept(s.table, s'.table)
    decreases depth, List(es), 0
  {
    BuiltIsClean(cat, es[0], s, scope, father, depth, n);
    var (head, s1) := Annotate(cat, es[0], s, father, depth);
    if !head.ExprErrorA? {
      BuiltAllClean(cat, es[1..], s1, scope, head.OperatorA?, father, [], depth, n);
      HeadChecked(cat, es, s, scope, father, depth);
      var (args, s2) := AnnotateAll(cat, es[1..], s1, head.OperatorA?, father, [], depth);
      if args.Some? { ApplyBuilt(cat, es, head, args.value, s2, n); }
      hide ValidCatalog, CleanIfBuilt, CleanIfBuiltEach, AnnotateAll, Apply, TypedTable;
      ApplyKeepsTable(cat, es, head, args, s2);
    }
  }

  lemma {:induction false} ApplyKeepsTable(cat: Catalog, es: seq<Expr>, head: Ann, args: Option<seq<Ann>>, s: AState)
    requires ValidCatalog(cat) && (args.Some? ==> |es| == |args.value| + 1)
    ensures args.Some? ==> Apply(cat, es, head, args.value, s).1.table == s.table
  {}

  lemma {:induction false} BuiltAllClean(cat: Catalog, es: seq<Expr>, s: AState, scope: set<string>, isOp: bool,
                                         father: seq<Typed>, sofar: seq<Typed>, depth: nat, n: nat)
    requires ValidCatalog(cat) && PlainAll(cat, es, scope, depth)
    requires TypedTable(s.table) && scope <= s.table.Keys
    ensures var (as_, s') := AnnotateAll(cat, es, s, isOp, father, sofar, depth);
      Kept(s.table, s'.table) && (as_.Some? ==> CleanIfBuiltEach(cat, as_.value, n))
    decreases depth, es, 0
  {
    if es != [] {
      var f := if isOp then sofar else father;
      BuiltIsClean(cat, es[0], s, scope, f, depth, n);
      var (a, s1) := Annotate(cat, es[0], s, f, depth);
      if !a.ExprErrorA? {
        var sofar' := sofar + [Typed(TypeOf(a), es[0])];
        BuiltAllClean(cat, es[1..], s1, scope, isOp, father, sofar', depth, n);
        var rest := AnnotateAll(cat, es[1..], s1, isOp, father, sofar', depth).0;
        hide CleanIfBuilt, TypedTable, ValidCatalog, Annotate;
        if rest.Some? {
          forall i | 0 <= i < |[a] + rest.value| ensures CleanIfBuilt(cat, ([a] + rest.value)[i], n) {
            if i > 0 { assert ([a] + rest.value)[i] == rest.value[i - 1]; }
          }
        }
      }
    }
  }

  // ---------------------------------------------------------------- what resolves is plain

  lemma {:induction false} ResolvedIsPlain(cat: Catalog, e: Expr, scope: Scope, seen: set<string>, father: seq<Typed>,
                                           depth: nat)
    requires ValidCatalog(cat) && ScopedCatalog(cat) && WellScoped(cat, e, scope.Keys, seen)
    requires Uncaptured(cat, scope.Keys) && Resolve(cat, e, scope, father, depth).Some?
    ensures Plain(cat, e, scope.Keys, depth)
    decreases depth, e, 1
  {
    match e
    case Const(_, _) =>
    case Sym(x) =>
      if depth > 0 && RoleOf(cat, x).ObjectRole? && RoleOf(cat, x).obj.FunctionObject? {
        var none: Scope := map[];
        assert none.Keys == {};
        ResolvedIsPlain(cat, cat.objects[x].def, none, {}, [], depth - 1);
      }
    case Fun(ps, body) => PlainFunction(cat, ps, body, scope, seen, father, depth);
    case List(es) => if es != [] { PlainList(cat, es, scope, seen, father, depth); }
  }

  lemma {:induction false} OpenKeys(scope: Scope, names: seq<string>, types: seq<Type>)
    requires |names| == |types|
    ensures Open(scope, names, types).Keys == scope.Keys + set x | x in names
    decreases |names|
  {
    if names != [] {
      OpenKeys(scope[names[0] := types[0]], names[1..], types[1..]);
      assert forall x :: x in names <==> x == names[0] || x in names[1..];
    }
  }

  lemma {:induction false} PlainFunction(cat: Catalog, ps: seq<Param>, body: Expr, scope: Scope, seen: set<string>,
                                         father: seq<Typed>, depth: nat)
    requires ValidCatalog(cat) && ScopedCatalog(cat) && WellScoped(cat, Fun(ps, body), scope.Keys, seen)
    requires Uncaptured(cat, scope.Keys) && Resolve(cat, Fun(ps, body), scope, father, depth).Some?
    ensures Plain(cat, Fun(ps, body), scope.Keys, depth)
    decreases depth, Fun(ps, body), 0
  {
    var types := ParamTypes(cat, ps, father);
    assert GoodParams(cat, ps, types);
    NamesAsSet(ps);
    OpenKeys(scope, Names(ps), types);
    forall x | x in NameSet(ps) ensures RoleOf(cat, x).OtherRole? {
      var p :| p in ps && p.name == x;
    }
    UnfoldResolve(cat, ps, body, types, scope, father, depth);
    hide ValidCatalog, ScopedCatalog, Resolve, GoodParams;
    ResolvedIsPlain(cat, body, Open(scope, Names(ps), types), seen + NameSet(ps), father, depth);
  }

  lemma {:induction false} PlainList(cat: Catalog, es: seq<Expr>, scope: Scope, seen: set<string>, father: seq<Typed>,
                                     depth: nat)
    requires ValidCatalog(cat) && ScopedCatalog(cat) && WellScoped(cat, List(es), scope.Keys, seen) && es != []
    requires Uncaptured(cat, scope.Keys) && Resolve(cat, List(es), scope, father, depth).Some?
    ensures Plain(cat, List(es), scope.Keys, depth)
    decreases depth, List(es), 0
  {
    var h := HeadOf(cat, es[0], scope);
    ListResolved(cat, es, scope, father, depth);
    CounterResolved(cat, es, scope, father, depth);
    assert h.OperatorHead? || h.KeywordHead? ==> Plain(cat, es[0], scope.Keys, depth);
    hide ValidCatalog, ScopedCatalog, HeadOf, CounterInRange;
    if h.FunctionHead? || h.OtherHead? { ResolvedIsPlain(cat, es[0], scope, seen, father, depth); }
    PlainElements(cat, es[1..], scope, seen + Bound(es[0]), h.OperatorHead?, father, [], depth);
  }

  lemma {:induction false} CounterResolved(cat: Catalog, es: seq<Expr>, scope: Scope, father: seq<Typed>, depth: nat)
    requires ValidCatalog(cat) && es != [] && Resolve(cat, List(es), scope, father, depth).Some?
    ensures CounterInRange(cat, es, scope.Keys)
  {
    if es[0] == Sym("counter") && RoleOf(cat, "counter").OtherRole? && "counter" !in scope {
      assert HeadOf(cat, es[0], scope) == KeywordHead(Counter);
      hide ValidCatalog, HeadOf, ResolveAll;
    }
  }

  lemma {:induction false} PlainElements(cat: Catalog, es: seq<Expr>, scope: Scope, seen: set<string>, isOp: bool,
                                         father: seq<Typed>, sofar: seq<Typed>, depth: nat)
    requires ValidCatalog(cat) && ScopedCatalog(cat) && WellScopedAll(cat, es, scope.Keys, seen)
    requires Uncaptured(cat, scope.Keys) && ResolveAll(cat, es, scope, isOp, father, sofar, depth).Some?
    ensures PlainAll(cat, es, scope.Keys, depth)
    decreases depth, es, 0
  {
    if es != [] {
      var f := if isOp then sofar else father;
      var r := Resolve(cat, es[0], scope, f, depth);
      ResolvedIsPlain(cat, es[0], scope, seen, f, depth);
      PlainElements(cat, es[1..], scope, seen + Bound(es[0]), isOp, father, sofar + [Typed(r.value.ty, es[0])], depth);
    }
  }

  // ---------------------------------------------------------------- which resolved queries are built

  /**
   The tree of a resolved query is built: lists fit their vectors, no function has a function as a
   parameter, and the result type of every operator has a constructor.
   */
  predicate Constructs(cat: Catalog, c: Core) {
    match c
    case Constant(_) => true
    case Variable(_, ty) => !ty.Map?
    case Identifier(_) => true
    case Operation(_, _, args, ty) => |args| <= MAXARG && HasConstructor(cat, ty) && ConstructsAll(cat, args)
    case Function(_, body, _) => Constructs(cat, body)
    case Application(fn, args) => |args| < MAXARG && Constructs(cat, fn) && ConstructsAll(cat, args)
    case Arguments(args) => |args| <= MAXARG && ConstructsAll(cat, args)
  }

  predicate ConstructsAll(cat: Catalog, cs: seq<Core>) {
    cs == [] || (Constructs(cat, cs[0]) && ConstructsAll(cat, cs[1..]))
  }

  lemma {:induction false} ResolvedBuilds(cat: Catalog, a: Ann, c: Core, scope: VarTable, values: seq<Value>)
    requires Matches(a, c, scope, values)
    ensures Buildable(cat, a, |values|) <==> Constructs(cat, c)
    decreases a
  {
    match a
    case ApplyOpA(_, _, args, _) => ResolvedBuildsAll(cat, args, c.args, scope, values);
    case AbstractionA(body, n, types) =>
      ResolvedBuilds(cat, body, c.body, Enter(if c.closed then map[] else scope, c.params, types, n, 1), values);
    case ApplyAbsA(fn, args, _) =>
      ResolvedBuilds(cat, fn, c.fn, scope, values);
      ResolvedBuildsAll(cat, args, c.args, scope, values);
    case WrapperA(_, _, body, _) => ResolvedBuilds(cat, body, c, scope, values);
    case ArgListA(args) => ResolvedBuildsAll(cat, args, c.args, scope, values);
    case _ =>
  }

  lemma {:induction false} ResolvedBuildsAll(cat: Catalog, as_: seq<Ann>, cs: seq<Core>, scope: VarTable,
                                             values: seq<Value>)
    requires MatchesAll(as_, cs, scope, values)
    ensures |as_| == |cs| && (BuildableAll(cat, as_, |values|) <==> ConstructsAll(cat, cs))
    decreases as_
  {
    if as_ != [] {
      ResolvedBuilds(cat, as_[0], cs[0], scope, values);
      ResolvedBuildsAll(cat, as_[1..], cs[1..], scope, values);
    }
  }

  lemma {:induction false} SupportedConstructs(cat: Catalog, c: Core)
    requires SupportedArg(cat, c)
    ensures Constructs(cat, c)
    decreases c
  {
    match c
    case Operation(_, _, args, _) => SupportedConstructsAll(cat, args);
    case Function(_, body, _) => SupportedConstructs(cat, body);
    case Application(fn, args) =>
      SupportedConstructs(cat, fn);
      forall i | 0 <= i < |args| ensures SupportedArg(cat, args[i]) { assert Supported(cat, args[i]); }
      SupportedConstructsAll(cat, args);
    case Arguments(args) => SupportedConstructsAll(cat, args);
    case _ =>
  }

  lemma {:induction false} SupportedConstructsAll(cat: Catalog, cs: seq<Core>)
    requires forall i :: 0 <= i < |cs| ==> SupportedArg(cat, cs[i])
    ensures ConstructsAll(cat, cs)
    decreases cs
  {
    if cs != [] {
      SupportedConstructs(cat, cs[0]);
      forall i | 0 <= i < |cs[1..]| ensures SupportedArg(cat, cs[1..][i]) { assert cs[1..][i] == cs[i + 1]; }
      SupportedConstructsAll(cat, cs[1..]);
    }
  }
}
