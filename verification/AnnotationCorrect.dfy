/**
 The annotation pass, with its single growing table and its counter of functions, agrees with
 lexical resolution: it finds an error exactly when resolution does, and otherwise every variable
 carries the number and position of its own binder and every abstraction a number of its own.
 */
module AnnotationCorrect {
  import opened Wrappers
  import opened QuerySyntax
  import opened Annotation
  import opened Meaning

  /** Number of abstractions in an annotated query. */
  function Count(a: Ann): nat {
    match a
    case ApplyOpA(_, _, args, _) => CountAll(args)
    case AbstractionA(body, _, _) => 1 + Count(body)
    case ApplyAbsA(fn, args, _) => Count(fn) + CountAll(args)
    case WrapperA(_, _, body, _) => Count(body)
    case ArgListA(args) => CountAll(args)
    case _ => 0
  }

  function CountAll(as_: seq<Ann>): nat {
    if as_ == [] then 0 else Count(as_[0]) + CountAll(as_[1..])
  }

  /** The abstractions carry the numbers lo+1, lo+2, ... in order of their appearance. */
  predicate Numbered(a: Ann, lo: nat) {
    match a
    case ApplyOpA(_, _, args, _) => NumberedAll(args, lo)
    case AbstractionA(body, n, _) => n == lo + 1 && Numbered(body, lo + 1)
    case ApplyAbsA(fn, args, _) => Numbered(fn, lo) && NumberedAll(args, lo + Count(fn))
    case WrapperA(_, _, body, _) => Numbered(body, lo)
    case ArgListA(args) => NumberedAll(args, lo)
    case _ => true
  }

  predicate NumberedAll(as_: seq<Ann>, lo: nat) {
    as_ == [] || (Numbered(as_[0], lo) && NumberedAll(as_[1..], lo + Count(as_[0])))
  }

  /**
   The annotated query `a` is the resolved query `c`, given for each name in scope the number and
   position of its binder, and the array of values.
   */
  ghost predicate Matches(a: Ann, c: Core, scope: VarTable, values: seq<Value>)
    decreases a
  {
    match a
    case ConstantA(i, _) => c.Constant? && i < |values| && values[i] == c.value
    case ObjectA(_, i, _) => c.Constant? && i < |values| && values[i] == c.value
    case VariableA(x, p, f, ty) =>
      c == Variable(x, ty) && x in scope && scope[x] == VarEntry(p, f, ty)
    case IdentifierA(x) => c == Identifier(x)
    case ApplyOpA(id, opFunId, args, ty) =>
      c.Operation? && c.id == id && c.ty == ty && 1 <= id.alg && id.op < OP_LIMIT
      && opFunId == Combine(c.fun, id.op) && MatchesAll(args, c.args, scope, values)
    case AbstractionA(body, n, types) =>
      c.Function? && |types| == |c.params| && Distinct(c.params)
      && Matches(body, c.body, Enter(if c.closed then map[] else scope, c.params, types, n, 1), values)
    case ApplyAbsA(fn, args, _) =>
      c.Application? && fn.AbstractionA? && |fn.params| == |args|
      && Matches(fn, c.fn, scope, values) && MatchesAll(args, c.args, scope, values)
    case WrapperA(_, _, body, _) => Matches(body, c, scope, values)
    case ArgListA(args) => c.Arguments? && MatchesAll(args, c.args, scope, values)
    case _ => false
  }

  ghost predicate MatchesAll(as_: seq<Ann>, cs: seq<Core>, scope: VarTable, values: seq<Value>)
    decreases as_
  {
    |as_| == |cs| &&
    (as_ == [] || (Matches(as_[0], cs[0], scope, values) && MatchesAll(as_[1..], cs[1..], scope, values)))
  }

  function ScopeOf(table: VarTable): (r: Scope)
    ensures r.Keys == table.Keys
  {
    map x | x in table :: table[x].ty
  }

  ghost predicate Extends(small: VarTable, big: VarTable) {
    forall x :: x in small ==> x in big && big[x] == small[x]
  }

  /** One step of the pass only adds: `n` functions, some values, and the names `bound`. */
  ghost predicate Adds(s: AState, s': AState, bound: set<string>, n: nat) {
    && s'.functionno == s.functionno + n
    && s.values <= s'.values
    && s'.table.Keys == s.table.Keys + bound
    && Extends(s.table, s'.table)
    && s'.thrown == s.thrown
  }

  ghost predicate Agrees(a: Ann, r: Resolved, scope: VarTable, s: AState, s': AState) {
    && Clean(a)
    && TypeOf(a) == r.ty
    && Matches(a, r.core, scope, s'.values)
    && Numbered(a, s.functionno)
  }

  // ------------------------------------------------------------------ small facts

  lemma MatchesMore(a: Ann, c: Core, scope: VarTable, values: seq<Value>, more: seq<Value>)
    requires Matches(a, c, scope, values) && values <= more
    ensures Matches(a, c, scope, more)
    decreases a
  {
    match a
    case ApplyOpA(_, _, args, _) => MatchesMoreAll(args, c.args, scope, values, more);
    case AbstractionA(body, n, types) =>
      MatchesMore(body, c.body, Enter(if c.closed then map[] else scope, c.params, types, n, 1), values, more);
    case ApplyAbsA(fn, args, _) =>
      MatchesMore(fn, c.fn, scope, values, more);
      MatchesMoreAll(args, c.args, scope, values, more);
    case WrapperA(_, _, body, _) => MatchesMore(body, c, scope, values, more);
    case ArgListA(args) => MatchesMoreAll(args, c.args, scope, values, more);
    case _ =>
  }

  lemma MatchesMoreAll(as_: seq<Ann>, cs: seq<Core>, scope: VarTable, values: seq<Value>, more: seq<Value>)
    requires MatchesAll(as_, cs, scope, values) && values <= more
    ensures MatchesAll(as_, cs, scope, more)
    decreases as_
  {
    if as_ != [] {
      MatchesMore(as_[0], cs[0], scope, values, more);
      MatchesMoreAll(as_[1..], cs[1..], scope, values, more);
    }
  }

  /** Parameters that are new to the table are checked by the pass as lexically. */
  lemma {:induction false} ParamsAgree(cat: Catalog, table: VarTable, ps: seq<Param>, types: seq<Type>, fun: nat,
                                       k: nat)
    requires |ps| == |types|
    requires forall i :: 0 <= i < |ps| ==> ps[i].name !in table
    ensures EnterParams(cat, table, ps, types, fun, k).0 <==> GoodParams(cat, ps, types)
    ensures GoodParams(cat, ps, types) ==>
              EnterParams(cat, table, ps, types, fun, k).1 == Enter(table, Names(ps), types, fun, k)
    decreases |ps|
  {
    if ps != [] {
      var table' := table[ps[0].name := VarEntry(k, fun, types[0])];
      if forall i :: 1 <= i < |ps| ==> ps[i].name != ps[0].name {
        forall i | 0 <= i < |ps[1..]| ensures ps[1..][i].name !in table' { assert ps[1..][i] == ps[i + 1]; }
        ParamsAgree(cat, table', ps[1..], types[1..], fun, k + 1);
        GoodParamsStep(cat, ps, types);
        assert Names(ps)[1..] == Names(ps[1..]);
      } else {
        var j :| 1 <= j < |ps| && ps[j].name == ps[0].name;
        assert !GoodParams(cat, ps, types);
        assert ps[1..][j - 1].name in table';
        KnownRefused(cat, table', ps[1..], types[1..], fun, k + 1, j - 1);
      }
    }
  }

  lemma GoodParamsStep(cat: Catalog, ps: seq<Param>, types: seq<Type>)
    requires |ps| == |types| > 0
    requires forall i :: 1 <= i < |ps| ==> ps[i].name != ps[0].name
    ensures GoodParams(cat, ps, types) <==>
            (ps[0].name !in cat.operators && ParamTypeOk(cat, types[0]) && GoodParams(cat, ps[1..], types[1..]))
  {
    if GoodParams(cat, ps[1..], types[1..]) && ps[0].name !in cat.operators && ParamTypeOk(cat, types[0]) {
      forall i | 0 <= i < |ps|
        ensures ps[i].name !in cat.operators && ParamTypeOk(cat, types[i])
      {
        if i > 0 { assert ps[i] == ps[1..][i - 1] && types[i] == types[1..][i - 1]; }
      }
      forall i, j | 0 <= i < j < |ps| ensures ps[i].name != ps[j].name {
        if i > 0 { assert ps[1..][i - 1].name != ps[1..][j - 1].name; }
      }
    }
    if GoodParams(cat, ps, types) {
      forall i, j | 0 <= i < j < |ps[1..]| ensures ps[1..][i].name != ps[1..][j].name {
        assert ps[i + 1].name != ps[j + 1].name;
      }
    }
  }

  lemma KnownRefused(cat: Catalog, table: VarTable, ps: seq<Param>, types: seq<Type>, fun: nat, k: nat, j: nat)
    requires |ps| == |types| && j < |ps| && ps[j].name in table
    ensures !EnterParams(cat, table, ps, types, fun, k).0
    decreases j
  {
    if j > 0 {
      KnownRefused(cat, table[ps[0].name := VarEntry(k, fun, types[0])], ps[1..], types[1..], fun, k + 1, j - 1);
    }
  }

  lemma EnterScope(table: VarTable, scope: VarTable, names: seq<string>, types: seq<Type>, fun: nat, k: nat)
    requires |names| == |types|
    requires Extends(scope, table)
    ensures Extends(Enter(scope, names, types, fun, k), Enter(table, names, types, fun, k))
    ensures ScopeOf(Enter(scope, names, types, fun, k)) == Open(ScopeOf(scope), names, types)
    decreases |names|
  {
    if names != [] {
      var e := VarEntry(k, fun, types[0]);
      assert ScopeOf(scope[names[0] := e]) == ScopeOf(scope)[names[0] := types[0]];
      EnterScope(table[names[0] := e], scope[names[0] := e], names[1..], types[1..], fun, k + 1);
    }
  }

  lemma NamesAsSet(ps: seq<Param>)
    ensures (set x | x in Names(ps)) == NameSet(ps)
  {
    var ns := Names(ps);
    forall x | x in ns ensures x in NameSet(ps) {
      var i :| 0 <= i < |ns| && ns[i] == x;
      assert ps[i] in ps;
    }
    forall p | p in ps ensures p.name in ns {
      var i :| 0 <= i < |ps| && ps[i] == p;
      assert ns[i] == p.name;
    }
  }

  lemma Concatenation(as_: seq<Ann>, bs: seq<Ann>, lo: nat)
    ensures CleanAll(as_ + bs) <==> CleanAll(as_) && CleanAll(bs)
    ensures CountAll(as_ + bs) == CountAll(as_) + CountAll(bs)
    ensures NumberedAll(as_ + bs, lo) <==> NumberedAll(as_, lo) && NumberedAll(bs, lo + CountAll(as_))
  {
    if as_ == [] {
      assert as_ + bs == bs;
    } else {
      assert (as_ + bs)[1..] == as_[1..] + bs;
      Concatenation(as_[1..], bs, lo + Count(as_[0]));
    }
  }

  lemma MatchesConcatenation(as_: seq<Ann>, bs: seq<Ann>, cs: seq<Core>, ds: seq<Core>, scope: VarTable,
                             values: seq<Value>)
    requires MatchesAll(as_, cs, scope, values) && MatchesAll(bs, ds, scope, values)
    ensures MatchesAll(as_ + bs, cs + ds, scope, values)
  {
    if as_ == [] {
      assert as_ + bs == bs && cs + ds == ds;
    } else {
      assert (as_ + bs)[1..] == as_[1..] + bs && (cs + ds)[1..] == cs[1..] + ds;
      MatchesConcatenation(as_[1..], bs, cs[1..], ds, scope, values);
    }
  }

  lemma AppendedConstants(values: seq<Value>, extra: seq<Literal>, scope: VarTable, lo: nat)
    ensures var (as_, values') := AppendConstants(values, extra);
      && values <= values'
      && MatchesAll(as_, Literals(extra), scope, values')
      && CountAll(as_) == 0 && NumberedAll(as_, lo)
      && (CleanAll(as_) <==> LiteralsTyped(extra))
    decreases |extra|
  {
    if extra != [] {
      AppendedConstants(values + [extra[0].value], extra[1..], scope, lo);
      var (rest, values') := AppendConstants(values + [extra[0].value], extra[1..]);
      assert values'[|values|] == extra[0].value;
      assert LiteralsTyped(extra) <==> !HasError(extra[0].ty) && LiteralsTyped(extra[1..]) by {
        if !HasError(extra[0].ty) && LiteralsTyped(extra[1..]) {
          forall i | 0 <= i < |extra| ensures !HasError(extra[i].ty) {
            if i > 0 { assert extra[i] == extra[1..][i - 1]; }
          }
        }
        if LiteralsTyped(extra) {
          forall i | 0 <= i < |extra[1..]| ensures !HasError(extra[1..][i].ty) { assert extra[1..][i] == extra[i + 1]; }
        }
      }
    }
  }

  /** The names are neither objects nor operators. */
  ghost predicate Uncaptured(cat: Catalog, names: set<string>) {
    forall x :: x in names ==> RoleOf(cat, x).OtherRole?
  }

  /** What a symbol at the head of a list is annotated as. */
  lemma {:induction false} SymbolKind(cat: Catalog, x: string, s: AState, scope: VarTable, depth: nat)
    requires ValidCatalog(cat) && Extends(scope, s.table) && Uncaptured(cat, scope.Keys)
    requires x in scope || x !in s.table || !RoleOf(cat, x).OtherRole?
    ensures var (a, s') := AnnotateSymbol(cat, x, s, depth);
      match HeadOf(cat, Sym(x), ScopeOf(scope))
      case OperatorHead(ids) => a == OperatorA(x, ids) && s' == s
      case FunctionHead => a.AbstractionA? || a.FunctionErrorA? || a.ExprErrorA?
      case KeywordHead(k) => a == KeywordA(k) && s' == s
      case OtherHead => !a.OperatorA? && !a.AbstractionA? && !a.KeywordA? && !a.FunctionErrorA?
  {
    if RoleOf(cat, x).ObjectRole? && RoleOf(cat, x).obj.FunctionObject? && depth > 0 {
      var def := cat.objects[x].def;
      assert def.Fun?;
      FunctionKind(cat, def, s.(values := s.values + [0], table := map[]), [], depth - 1);
    }
  }

  lemma {:induction false} FunctionKind(cat: Catalog, e: Expr, s: AState, father: seq<Typed>, depth: nat)
    requires ValidCatalog(cat) && e.Fun?
    ensures var a := Annotate(cat, e, s, father, depth).0; a.AbstractionA? || a.FunctionErrorA?
  {}

  lemma {:induction false} ListKind(cat: Catalog, e: Expr, s: AState, father: seq<Typed>, depth: nat)
    requires ValidCatalog(cat) && (e.List? || e.Const?)
    ensures var a := Annotate(cat, e, s, father, depth).0;
            !a.OperatorA? && !a.AbstractionA? && !a.KeywordA? && !a.FunctionErrorA?
  {}

  /** Only function definitions and function objects are annotated as abstractions. */
  lemma {:induction false} HeadKind(cat: Catalog, e: Expr, s: AState, scope: VarTable, father: seq<Typed>, depth: nat)
    requires ValidCatalog(cat)
    requires WellScoped(cat, e, scope.Keys, s.table.Keys) && Extends(scope, s.table) && Uncaptured(cat, scope.Keys)
    ensures var (a, s') := Annotate(cat, e, s, father, depth);
      match HeadOf(cat, e, ScopeOf(scope))
      case OperatorHead(ids) => a.OperatorA? && a.ids == ids && s' == s
      case FunctionHead => a.AbstractionA? || a.FunctionErrorA? || a.ExprErrorA?
      case KeywordHead(k) => a == KeywordA(k) && s' == s
      case OtherHead => !a.OperatorA? && !a.AbstractionA? && !a.KeywordA? && !a.FunctionErrorA?
  {
    if e.Sym? {
      SymbolKind(cat, e.name, s, scope, depth);
    } else if e.Fun? {
      FunctionKind(cat, e, s, father, depth);
    } else {
      ListKind(cat, e, s, father, depth);
    }
  }

  // ------------------------------------------------------------------ the pass

  /** The annotation of one expression against its resolution: both fail, or they agree. */
  ghost predicate Correct(a: Ann, s: AState, s': AState, r: Option<Resolved>, scope: VarTable, bound: set<string>) {
    if r.None? then
      !Clean(a)
    else
      && Agrees(a, r.value, scope, s, s')
      && Adds(s, s', bound, Count(a))
  }

  ghost predicate CorrectAll(as_: Option<seq<Ann>>, es: seq<Expr>, s: AState, s': AState, rs: Option<seq<Resolved>>,
                             scope: VarTable, bound: set<string>)
    requires as_.Some? ==> |as_.value| == |es|
  {
    if rs.None? then as_.None? || !CleanAll(as_.value)
    else
      && as_.Some? && |rs.value| == |es| && CleanAll(as_.value)
      && TypesOfAll(as_.value) == TypesIn(rs.value) && Pair(as_.value, es) == WithTypes(rs.value, es)
      && MatchesAll(as_.value, CoresIn(rs.value), scope, s'.values) && NumberedAll(as_.value, s.functionno)
      && Adds(s, s', bound, CountAll(as_.value))
  }

  lemma {:induction false} CleanTypes(as_: seq<Ann>)
    requires CleanAll(as_)
    ensures !AnyError(TypesOfAll(as_))
  {
    if as_ != [] {
      CleanTypes(as_[1..]);
      assert TypesOfAll(as_)[1..] == TypesOfAll(as_[1..]);
    }
  }

  // Joining the parts of a list; none of these mentions the recursive pass.

  lemma {:induction false} JoinOne(a: Ann, r: Resolved, e: Expr, rest: seq<Ann>, rs: seq<Resolved>, es: seq<Expr>,
                s: AState, s1: AState, s2: AState, scope: VarTable, b: set<string>, bs: set<string>)
    requires |rest| == |es|
    requires Correct(a, s, s1, Some(r), scope, b) && CorrectAll(Some(rest), es, s1, s2, Some(rs), scope, bs)
    ensures CorrectAll(Some([a] + rest), [e] + es, s, s2, Some([r] + rs), scope, b + bs)
  {
    assert ([a] + rest)[1..] == rest && ([r] + rs)[1..] == rs && ([e] + es)[1..] == es;
    assert CoresIn([r] + rs)[1..] == CoresIn(rs);
    MatchesMore(a, r.core, scope, s1.values, s2.values);
  }

  lemma {:induction false} JoinArguments(head: Ann, h: Resolved, args: seq<Ann>, rs: seq<Resolved>, es: seq<Expr>,
                      s: AState, s1: AState, s2: AState, scope: VarTable, b: set<string>, bs: set<string>)
    requires |args| == |es|
    requires Correct(head, s, s1, Some(h), scope, b) && CorrectAll(Some(args), es, s1, s2, Some(rs), scope, bs)
    ensures Correct(ArgListA([head] + args), s, s2,
                    Some(Resolved(Arguments([h.core] + CoresIn(rs)), Tuple([h.ty] + TypesIn(rs)))), scope, b + bs)
  {
    assert ([head] + args)[1..] == args && ([h.core] + CoresIn(rs))[1..] == CoresIn(rs);
    MatchesMore(head, h.core, scope, s1.values, s2.values);
    CleanTypes([head] + args);
  }

  lemma {:induction false} JoinApplication(head: Ann, f: Resolved, args: seq<Ann>, rs: seq<Resolved>, es: seq<Expr>,
                        s: AState, s1: AState, s2: AState, scope: VarTable, b: set<string>, bs: set<string>)
    requires |args| == |es| && head.AbstractionA?
    requires Correct(head, s, s1, Some(f), scope, b) && CorrectAll(Some(args), es, s1, s2, Some(rs), scope, bs)
    requires head.params == TypesOfAll(args)
    ensures f.ty == Map(TypesIn(rs), TypeOf(head.body))
    ensures Correct(ApplyAbsA(head, args, TypeOf(head.body)), s, s2,
                    Some(Resolved(Application(f.core, CoresIn(rs)), f.ty.result)), scope, b + bs)
  {
    MatchesMore(head, f.core, scope, s1.values, s2.values);
    assert Clean(head) && Clean(head.body);
  }

  lemma {:induction false} JoinAccepted(id: OpId, fun: nat, ty: Type, lits: seq<Literal>, args: seq<Ann>,
                                        rs: seq<Resolved>, es: seq<Expr>,
                     scope: VarTable, s: AState, s2: AState, bound: set<string>)
    requires |args| == |es| && 1 <= id.alg && id.op < OP_LIMIT
    requires CorrectAll(Some(args), es, s, s2, Some(rs), scope, bound)
    ensures var (extra, values) := AppendConstants(s2.values, lits);
            Correct(ApplyOpA(id, Combine(fun, id.op), args + extra, ty), s, s2.(values := values),
                    if HasError(ty) || !LiteralsTyped(lits) then None
                    else Some(Resolved(Operation(id, fun, CoresIn(rs) + Literals(lits), ty), ty)), scope, bound)
  {
    AppendedConstants(s2.values, lits, scope, s.functionno + CountAll(args));
    var (extra, values) := AppendConstants(s2.values, lits);
    Concatenation(args, extra, s.functionno);
    MatchesMoreAll(args, CoresIn(rs), scope, s2.values, values);
    MatchesConcatenation(args, extra, CoresIn(rs), Literals(lits), scope, values);
  }

  ghost predicate GoodIds(cat: Catalog, ids: seq<OpId>) {
    forall i :: 0 <= i < |ids| ==> ids[i] in cat.algebra && 1 <= ids[i].alg && ids[i].op < OP_LIMIT
  }

  lemma {:induction false} JoinOperation(cat: Catalog, ids: seq<OpId>, args: seq<Ann>, rs: seq<Resolved>, es: seq<Expr>,
                      scope: VarTable, s: AState, s2: AState, bound: set<string>)
    requires ValidCatalog(cat) && |args| == |es|
    requires GoodIds(cat, ids)
    requires CorrectAll(Some(args), es, s, s2, Some(rs), scope, bound)
    ensures var (a, s') := ApplyOperator(cat, ids, args, Pair(args, es), s2);
            Correct(a, s, s', ResolveOperation(cat, ids, rs, es), scope, bound)
  {
    var typed := Pair(args, es);
    var chosen := FirstAccepting(cat, ids, typed);
    if chosen.Some? {
      var r := TypeMapOf(cat, chosen.value, typed);
      var fun := cat.algebra[chosen.value].select(TypesOf(typed));
      if fun >= 0 {
        JoinAccepted(chosen.value, fun, r.ty, if r.Appended? then r.extra else [], args, rs, es, scope, s, s2, bound);
      }
    }
  }

  lemma {:induction false} OperatorUnclean(cat: Catalog, ids: seq<OpId>, args: seq<Ann>, typed: seq<Typed>, s: AState)
    requires ValidCatalog(cat) && !CleanAll(args)
    ensures !Clean(ApplyOperator(cat, ids, args, typed, s).0)
  {
    match FirstAccepting(cat, ids, typed)
    case None =>
    case Some(id) =>
      var r := TypeMapOf(cat, id, typed);
      var (extra, values) := AppendConstants(s.values, if r.Appended? then r.extra else []);
      Concatenation(args, extra, 0);
  }

  /** The last element of a list of three or two, after constants. */
  ghost predicate LastDecides(args: seq<Ann>, rs: Option<seq<Resolved>>, s: AState, s2: AState, scope: VarTable,
                              bound: set<string>)
    requires args != []
  {
    var last := args[|args| - 1];
    && (rs.None? ==> !Clean(last))
    && (rs.Some? ==>
          && |rs.value| == |args|
          && Agrees(last, rs.value[|args| - 1], scope, s, s2)
          && Adds(s, s2, bound, Count(last)))
  }

  lemma {:induction false} LastOfTwo(es: seq<Expr>, args: seq<Ann>, rs: Option<seq<Resolved>>, s: AState, s2: AState,
                                     scope: VarTable, bound: set<string>)
    requires |es| == 2 == |args| && args[0].ConstantA? && !HasError(args[0].ty)
    requires CorrectAll(Some(args), es, s, s2, rs, scope, bound)
    ensures LastDecides(args, rs, s, s2, scope, bound)
  {
    assert args[1..] == [args[1]];
    Single(args[1]);
    assert Count(args[0]) == 0 && Clean(args[0]);
    LastOf(args, rs, scope, s2.values, s.functionno);
  }

  lemma {:induction false} LastOfThree(es: seq<Expr>, args: seq<Ann>, rs: Option<seq<Resolved>>, s: AState, s2: AState,
                                       scope: VarTable, bound: set<string>)
    requires |es| == 3 == |args| && args[0].ConstantA? && !HasError(args[0].ty) && args[1].ConstantA?
      && !HasError(args[1].ty)
    requires CorrectAll(Some(args), es, s, s2, rs, scope, bound)
    ensures LastDecides(args, rs, s, s2, scope, bound)
  {
    assert args[1..][1..] == [args[2]];
    Single(args[2]);
    assert Count(args[0]) == 0 && Clean(args[0]) && Count(args[1]) == 0 && Clean(args[1]);
    assert CleanAll(args[1..]) <==> Clean(args[2]);
    assert CountAll(args[1..]) == Count(args[2]);
    LastOf(args, rs, scope, s2.values, s.functionno);
  }

  lemma {:induction false} WrapLast(k: Keyword, number: Value, last: Ann, ty: Type, s: AState, s2: AState,
                                    r: Option<Resolved>,
                                    scope: VarTable, bound: set<string>)
    requires Correct(last, s, s2, r, scope, bound)
    ensures Correct(WrapperA(k, number, last, TypeOf(last)), s, s2, r, scope, bound)
    ensures Correct(WrapperA(k, number, last, TypeError), s, s2, None, scope, bound)
  {}

  /** Of a well-formed pseudo operator only the last element matters. */
  lemma {:induction false} JoinWrapper(cat: Catalog, k: Keyword, es: seq<Expr>, args: seq<Ann>,
                                       rs: Option<seq<Resolved>>,
                                       s: AState, s2: AState, scope: VarTable, bound: set<string>)
    requires ValidCatalog(cat) && |es| == (if k.PredInfo? then 4 else 3) && |args| == |es| - 1
    requires rs.Some? ==> |rs.value| == |args|
    requires forall i :: 0 <= i < |args| && es[i + 1].Const? ==> args[i].ConstantA? && args[i].ty == es[i + 1].ty
    requires CorrectAll(Some(args), es[1..], s, s2, rs, scope, bound)
    ensures var (a, s') := Apply(cat, es, KeywordA(k), args, s2);
            Correct(a, s, s', if rs.None? then None else ResolveWrapper(k, rs.value, es), scope, bound)
  {
    hide CorrectAll, Agrees, Adds, ValidCatalog;
    var last := args[|args| - 1];
    if k.PredInfo? {
      if IsNumber(es[1], "real") && IsNumber(es[2], "real") {
        LastOfThree(es[1..], args, rs, s, s2, scope, bound);
        WrapLast(k, es[1].value, last, TypeOf(last), s, s2, if rs.None? then None else Some(rs.value[2]), scope, bound);
      }
    } else if IsNumber(es[1], "int") {
      LastOfTwo(es[1..], args, rs, s, s2, scope, bound);
      WrapLast(k, es[1].value, last, TypeOf(last), s, s2, if rs.None? then None else Some(rs.value[1]), scope, bound);
    }
  }

  lemma {:induction false} Single(a: Ann)
    ensures CleanAll([a]) <==> Clean(a)
    ensures CountAll([a]) == Count(a)
  {
    assert [a][1..] == [];
  }

  lemma LastOf(as_: seq<Ann>, rs: Option<seq<Resolved>>, scope: VarTable, values: seq<Value>, lo: nat)
    requires as_ != []
    requires rs.Some? ==> |rs.value| == |as_| && CleanAll(as_) && TypesOfAll(as_) == TypesIn(rs.value)
                          && MatchesAll(as_, CoresIn(rs.value), scope, values) && NumberedAll(as_, lo)
    ensures rs.Some? ==> var last := |as_| - 1;
      && Clean(as_[last]) && TypeOf(as_[last]) == rs.value[last].ty
      && Matches(as_[last], rs.value[last].core, scope, values)
      && Count(as_[last]) <= CountAll(as_) && Numbered(as_[last], lo + CountAll(as_) - Count(as_[last]))
    decreases |as_|
  {
    if rs.Some? && |as_| > 1 {
      var r := rs.value;
      assert TypesOfAll(as_)[1..] == TypesOfAll(as_[1..]) && TypesIn(r)[1..] == TypesIn(r[1..]);
      assert CoresIn(r)[1..] == CoresIn(r[1..]);
      LastOf(as_[1..], Some(r[1..]), scope, values, lo + Count(as_[0]));
    } else if rs.Some? {
      assert TypesOfAll(as_)[0] == TypesIn(rs.value)[0];
      assert as_[1..] == [];
    }
  }

  /** Joining a head that is no symbol with its arguments. */
  lemma {:induction false} JoinHead(cat: Catalog, kind: Head, es: seq<Expr>, head: Ann, h: Option<Resolved>,
                                    args: seq<Ann>,
                                    rs: Option<seq<Resolved>>, s: AState, s1: AState, s2: AState, scope: VarTable,
                                    b: set<string>, bs: set<string>)
    requires ValidCatalog(cat) && |es| == |args| + 1 && !head.ExprErrorA?
    requires kind.FunctionHead? ==> head.AbstractionA? || head.FunctionErrorA?
    requires kind.OtherHead? ==> !head.OperatorA? && !head.AbstractionA? && !head.KeywordA? && !head.FunctionErrorA?
    requires kind.FunctionHead? || kind.OtherHead?
    requires Correct(head, s, s1, h, scope, b)
    requires h.Some? ==> CorrectAll(Some(args), es[1..], s1, s2, rs, scope, bs)
    requires rs.Some? ==> |rs.value| == |args|
    ensures var (a, s') := Apply(cat, es, head, args, s2);
            Correct(a, s, s', ResolveList(cat, kind, h, rs, es), scope, b + bs)
  {
    assert ([head] + args)[1..] == args;
    if h.Some? && rs.Some? {
      if kind.OtherHead? {
        JoinArguments(head, h.value, args, rs.value, es[1..], s, s1, s2, scope, b, bs);
      } else if head.AbstractionA? && head.params == TypesOfAll(args) {
        JoinApplication(head, h.value, args, rs.value, es[1..], s, s1, s2, scope, b, bs);
      }
    }
  }

  /** Joining an operator or pseudo operator with its arguments. */
  lemma {:induction false} JoinSymbol(cat: Catalog, kind: Head, es: seq<Expr>, head: Ann, args: seq<Ann>,
                                      rs: Option<seq<Resolved>>, s: AState, s2: AState, scope: VarTable,
                                      bs: set<string>)
    requires ValidCatalog(cat) && |es| == |args| + 1
    requires kind.OperatorHead? ==> head.OperatorA? && head.ids == kind.ids && GoodIds(cat, kind.ids)
    requires kind.KeywordHead? ==> head == KeywordA(kind.keyword) && |es| == (if kind.keyword.PredInfo? then 4 else 3)
    requires kind.OperatorHead? || kind.KeywordHead?
    requires forall i :: 0 <= i < |args| && es[i + 1].Const? ==> args[i].ConstantA? && args[i].ty == es[i + 1].ty
    requires CorrectAll(Some(args), es[1..], s, s2, rs, scope, bs)
    requires rs.Some? ==> |rs.value| == |args|
    ensures var (a, s') := Apply(cat, es, head, args, s2);
            Correct(a, s, s', ResolveList(cat, kind, None, rs, es), scope, bs)
  {
    if kind.KeywordHead? {
      JoinWrapper(cat, kind.keyword, es, args, rs, s, s2, scope, bs);
    } else {
      match rs {
        case None => OperatorUnclean(cat, kind.ids, args, Pair(args, es[1..]), s2);
        case Some(r) => JoinOperation(cat, kind.ids, args, r, es[1..], scope, s, s2, bs);
      }
    }
  }

  /** What the pass may assume before each expression. */
  ghost predicate Ready(cat: Catalog, s: AState, scope: VarTable) {
    ValidCatalog(cat) && ScopedCatalog(cat) && Extends(scope, s.table) && Uncaptured(cat, scope.Keys)
  }

  lemma {:induction false} AnnotateCorrect(cat: Catalog, e: Expr, s: AState, scope: VarTable, father: seq<Typed>,
                                           depth: nat)
    requires Ready(cat, s, scope)
    requires WellScoped(cat, e, scope.Keys, s.table.Keys)
    ensures var (a, s') := Annotate(cat, e, s, father, depth);
            Correct(a, s, s', Resolve(cat, e, ScopeOf(scope), father, depth), scope, Bound(e))
    decreases depth, e, 1
  {
    match e
    case Const(_, _) =>
    case Sym(x) => hide Correct; SymbolCorrect(cat, x, s, scope, depth);
    case Fun(ps, body) => hide Correct; FunctionCorrect(cat, ps, body, s, scope, father, depth);
    case List(es) =>
      if es != [] {
        var h := HeadOf(cat, es[0], ScopeOf(scope));
        hide Correct;
        if h.OperatorHead? || h.KeywordHead? {
          SymbolicHeadCorrect(cat, es, s, scope, father, depth);
        } else {
          OtherHeadCorrect(cat, es, s, scope, father, depth);
        }
      } else {
        EmptyListCorrect(cat, s, scope, father, depth);
      }
  }

  lemma {:induction false} EmptyListCorrect(cat: Catalog, s: AState, scope: VarTable, father: seq<Typed>, depth: nat)
    requires ValidCatalog(cat)
    ensures var (a, s') := Annotate(cat, List([]), s, father, depth);
            Correct(a, s, s', Resolve(cat, List([]), ScopeOf(scope), father, depth), scope, {})
  {}

  lemma {:induction false} FunctionResolved(cat: Catalog, def: Expr, depth: nat)
    requires ValidCatalog(cat) && def.Fun?
    ensures var r := Resolve(cat, def, map[], [], depth); r.Some? ==> r.value.core.Function? && !r.value.core.closed
  {}

  /** A function annotated with fresh tables fits any scope: it is closed. */
  lemma {:induction false} CloseFunction(a: Ann, s: AState, inner: AState, s1: AState, r: Option<Resolved>,
                                         scope: VarTable, bound: set<string>)
    requires inner == s.(values := s.values + [0], table := map[])
    requires Correct(a, inner, s1, r, map[], bound) && (r.Some? ==> r.value.core.Function? && !r.value.core.closed)
    requires a.AbstractionA? || a.FunctionErrorA?
    ensures Correct(a, s, s1.(table := s.table),
                    if r.None? then None else Some(r.value.(core := r.value.core.(closed := true))), scope, {})
  {}

  lemma {:induction false} PlainSymbolCorrect(cat: Catalog, x: string, s: AState, scope: VarTable, depth: nat)
    requires ValidCatalog(cat) && Extends(scope, s.table) && Uncaptured(cat, scope.Keys)
    requires x in scope || x !in s.table || !RoleOf(cat, x).OtherRole?
    requires RoleOf(cat, x).ObjectRole? && RoleOf(cat, x).obj.FunctionObject? ==> depth == 0
    ensures var (a, s') := AnnotateSymbol(cat, x, s, depth);
            Correct(a, s, s', ResolveSymbol(cat, x, ScopeOf(scope), depth), scope, {})
  {}

  lemma {:induction false} StoredFunctionCorrect(cat: Catalog, x: string, def: Expr, s: AState, inner: AState,
                                                 scope: VarTable, depth: nat)
    requires ValidCatalog(cat) && depth > 0
    requires RoleOf(cat, x) == ObjectRole(FunctionObject(def)) && def.Fun? && x !in scope
    requires inner == s.(values := s.values + [0], table := map[])
    requires var (a, s1) := Annotate(cat, def, inner, [], depth - 1);
             Correct(a, inner, s1, Resolve(cat, def, map[], [], depth - 1), map[], Bound(def))
    ensures var (a, s') := AnnotateSymbol(cat, x, s, depth);
            Correct(a, s, s', ResolveSymbol(cat, x, ScopeOf(scope), depth), scope, {})
  {
    hide Correct, ValidCatalog, Bound;
    FunctionKind(cat, def, inner, [], depth - 1);
    FunctionResolved(cat, def, depth - 1);
    var (a, s1) := Annotate(cat, def, inner, [], depth - 1);
    var r := Resolve(cat, def, map[], [], depth - 1);
    CloseFunction(a, s, inner, s1, r, scope, Bound(def));
  }

  lemma {:induction false} SymbolCorrect(cat: Catalog, x: string, s: AState, scope: VarTable, depth: nat)
    requires Ready(cat, s, scope)
    requires x in scope || x !in s.table || !RoleOf(cat, x).OtherRole?
    ensures var (a, s') := AnnotateSymbol(cat, x, s, depth);
            Correct(a, s, s', ResolveSymbol(cat, x, ScopeOf(scope), depth), scope, {})
    decreases depth, Sym(x), 0
  {
    hide Correct;
    if depth > 0 && RoleOf(cat, x).ObjectRole? && RoleOf(cat, x).obj.FunctionObject? {
      var def := cat.objects[x].def;
      assert def.Fun? && WellScoped(cat, def, {}, {}) && RoleOf(cat, x) == ObjectRole(FunctionObject(def));
      assert x !in scope;
      hide *;
      var inner := s.(values := s.values + [0], table := map[]);
      StoredFunctionPremise(cat, def, inner, depth - 1);
      StoredFunctionCorrect(cat, x, def, s, inner, scope, depth);
    } else {
      PlainSymbolCorrect(cat, x, s, scope, depth);
    }
  }

  lemma {:induction false} StoredFunctionPremise(cat: Catalog, def: Expr, inner: AState, depth: nat)
    requires ValidCatalog(cat) && ScopedCatalog(cat)
    requires inner.table == map[] && WellScoped(cat, def, {}, {})
    ensures var (a, s1) := Annotate(cat, def, inner, [], depth);
            Correct(a, inner, s1, Resolve(cat, def, map[], [], depth), map[], Bound(def))
    decreases depth, def, 2
  {
    hide WellScoped, Correct;
    var none: VarTable := map[];
    assert none.Keys == {} && ScopeOf(none) == map[];
    assert Extends(none, inner.table);
    AnnotateCorrect(cat, def, inner, none, [], depth);
  }

  lemma {:induction false} EnterFresh(table: VarTable, names: seq<string>, types: seq<Type>, fun: nat)
    requires |names| == |types|
    requires forall i :: 0 <= i < |names| ==> names[i] !in table
    ensures Extends(table, Enter(table, names, types, fun, 1))
  {}

  lemma {:induction false} JoinFunctionBody(names: seq<string>, types: seq<Type>, scope: VarTable, b: Ann, s: AState,
                                            inner: AState, s': AState, r: Resolved)
    requires |names| == |types| && Distinct(names) && inner.functionno == s.functionno + 1
    requires Agrees(b, r, Enter(scope, names, types, s.functionno + 1, 1), inner, s') && !AnyError(types)
    ensures Agrees(AbstractionA(b, s.functionno + 1, types), Resolved(Function(names, r.core, false), Map(types, r.ty)),
                   scope, s, s')
  {}

  lemma {:induction false} JoinFunctionState(b: Ann, n: nat, types: seq<Type>, table: VarTable, s: AState, s': AState,
                                             bound: set<string>, inside: set<string>)
    requires table.Keys == s.table.Keys + bound && Extends(s.table, table)
    requires Adds(s.(functionno := s.functionno + 1, table := table), s', inside, Count(b))
    ensures Adds(s, s', bound + inside, Count(AbstractionA(b, n, types)))
  {}

  lemma {:induction false} JoinFunction(names: seq<string>, types: seq<Type>, bound: set<string>, table: VarTable,
                                        scope: VarTable,
                                        b: Ann, s: AState, s': AState, r: Option<Resolved>, inside: set<string>)
    requires |names| == |types| && Distinct(names) && !AnyError(types)
    requires table.Keys == s.table.Keys + bound && Extends(s.table, table)
    requires Correct(b, s.(functionno := s.functionno + 1, table := table), s', r,
                     Enter(scope, names, types, s.functionno + 1, 1), inside)
    ensures Correct(if b.ExprErrorA? then FunctionErrorA else AbstractionA(b, s.functionno + 1, types), s, s',
                    if r.None? then None
                    else Some(Resolved(Function(names, r.value.core, false), Map(types, r.value.ty))),
                    scope, bound + inside)
  {
    if r.Some? {
      assert !b.ExprErrorA?;
      hide Agrees;
      hide Adds;
      JoinFunctionBody(names, types, scope, b, s, s.(functionno := s.functionno + 1, table := table), s', r.value);
      JoinFunctionState(b, s.functionno + 1, types, table, s, s', bound, inside);
    }
  }

  lemma {:induction false} ParamsFresh(cat: Catalog, ps: seq<Param>, body: Expr, s: AState, scope: VarTable)
    requires WellScoped(cat, Fun(ps, body), scope.Keys, s.table.Keys)
    ensures forall i :: 0 <= i < |ps| ==> ps[i].name !in s.table
  {
    forall i | 0 <= i < |ps| ensures ps[i].name !in s.table { assert ps[i].name in NameSet(ps); }
  }

  lemma {:induction false} FunctionCorrect(cat: Catalog, ps: seq<Param>, body: Expr, s: AState, scope: VarTable,
                                           father: seq<Typed>, depth: nat)
    requires Ready(cat, s, scope)
    requires WellScoped(cat, Fun(ps, body), scope.Keys, s.table.Keys)
    ensures var (a, s') := Annotate(cat, Fun(ps, body), s, father, depth);
            Correct(a, s, s', Resolve(cat, Fun(ps, body), ScopeOf(scope), father, depth), scope, Bound(Fun(ps, body)))
    decreases depth, Fun(ps, body), 0
  {
    var types := ParamTypes(cat, ps, father);
    FunctionParams(cat, ps, body, s, scope, types);
    hide *;
    if GoodParams(cat, ps, types) {
      GoodFunctionCorrect(cat, ps, body, types, s, scope, father, depth);
    } else {
      BadFunction(cat, ps, body, types, s, ScopeOf(scope), father, depth);
      Failed(FunctionErrorA, s, Annotate(cat, Fun(ps, body), s, father, depth).1, scope, Bound(Fun(ps, body)));
    }
  }

  lemma {:induction false} FunctionParams(cat: Catalog, ps: seq<Param>, body: Expr, s: AState, scope: VarTable,
                                          types: seq<Type>)
    requires Ready(cat, s, scope) && WellScoped(cat, Fun(ps, body), scope.Keys, s.table.Keys) && |ps| == |types|
    ensures ValidCatalog(cat)
    ensures GoodParams(cat, ps, types) ==> EntersFine(cat, s, ps, types)
    ensures !GoodParams(cat, ps, types) ==> !EnterParams(cat, s.table, ps, types, s.functionno + 1, 1).0
  {
    ParamsFresh(cat, ps, body, s, scope);
    assert ValidCatalog(cat);
    hide WellScoped, Ready, ValidCatalog;
    ParamsAgree(cat, s.table, ps, types, s.functionno + 1, 1);
  }

  lemma {:induction false} BadFunction(cat: Catalog, ps: seq<Param>, body: Expr, types: seq<Type>, s: AState,
                                       scope: Scope, father: seq<Typed>, depth: nat)
    requires ValidCatalog(cat) && types == ParamTypes(cat, ps, father) && !GoodParams(cat, ps, types)
    requires !EnterParams(cat, s.table, ps, types, s.functionno + 1, 1).0
    ensures Annotate(cat, Fun(ps, body), s, father, depth).0 == FunctionErrorA && !Clean(FunctionErrorA)
    ensures Resolve(cat, Fun(ps, body), scope, father, depth) == None
  {}

  /** Entering fresh parameters keeps the pass ready for the body. */
  lemma {:induction false} FunctionReady(cat: Catalog, ps: seq<Param>, body: Expr, types: seq<Type>, s: AState,
                                         scope: VarTable,
                                         table: VarTable, scope': VarTable)
    requires Ready(cat, s, scope)
    requires WellScoped(cat, Fun(ps, body), scope.Keys, s.table.Keys)
    requires |types| == |ps| && GoodParams(cat, ps, types)
    requires table == Enter(s.table, Names(ps), types, s.functionno + 1, 1)
    requires scope' == Enter(scope, Names(ps), types, s.functionno + 1, 1)
    ensures Ready(cat, s.(functionno := s.functionno + 1, table := table), scope')
    ensures WellScoped(cat, body, scope'.Keys, table.Keys)
    ensures ScopeOf(scope') == Open(ScopeOf(scope), Names(ps), types)
    ensures table.Keys == s.table.Keys + NameSet(ps) && Extends(s.table, table)
  {
    var names := Names(ps);
    NamesAsSet(ps);
    EnterScope(s.table, scope, names, types, s.functionno + 1, 1);
    forall i | 0 <= i < |names| ensures names[i] !in s.table { assert ps[i] in ps; assert ps[i].name in NameSet(ps); }
    EnterFresh(s.table, names, types, s.functionno + 1);
    assert scope'.Keys == scope.Keys + NameSet(ps);
    forall x | x in scope' ensures RoleOf(cat, x).OtherRole? {
      if x in NameSet(ps) {
        var p :| p in ps && p.name == x;
        assert x !in cat.objects && x !in cat.operators;
      }
    }
  }

  /** The parameters are entered without complaint. */
  ghost predicate EntersFine(cat: Catalog, s: AState, ps: seq<Param>, types: seq<Type>)
    requires |ps| == |types|
  {
    EnterParams(cat, s.table, ps, types, s.functionno + 1, 1) ==
    (true, Enter(s.table, Names(ps), types, s.functionno + 1, 1))
  }

  lemma {:induction false} UnfoldAnnotate(cat: Catalog, ps: seq<Param>, body: Expr, types: seq<Type>, s: AState,
                                          father: seq<Typed>, depth: nat)
    requires ValidCatalog(cat) && types == ParamTypes(cat, ps, father) && EntersFine(cat, s, ps, types)
    ensures var n := s.functionno + 1;
      var (b, s') := Annotate(cat, body, s.(functionno := n, table := Enter(s.table, Names(ps), types, n, 1)),
                              father, depth);
      Annotate(cat, Fun(ps, body), s, father, depth) ==
        (if b.ExprErrorA? then FunctionErrorA else AbstractionA(b, n, types), s')
  {
    hide ValidCatalog, Enter, EnterParams, ParamTypes, Names, Apply, AnnotateSymbol, AnnotateAll;
  }

  lemma {:induction false} UnfoldResolve(cat: Catalog, ps: seq<Param>, body: Expr, types: seq<Type>, scope: Scope,
                                         father: seq<Typed>, depth: nat)
    requires ValidCatalog(cat) && types == ParamTypes(cat, ps, father) && GoodParams(cat, ps, types)
    ensures var r := Resolve(cat, body, Open(scope, Names(ps), types), father, depth);
      Resolve(cat, Fun(ps, body), scope, father, depth) ==
        if r.None? then None else Some(Resolved(Function(Names(ps), r.value.core, false), Map(types, r.value.ty)))
  {
    hide ValidCatalog, GoodParams, ParamTypes, Names, Open;
  }

  lemma {:induction false} JoinGoodFunction(cat: Catalog, ps: seq<Param>, body: Expr, types: seq<Type>, s: AState,
                                            inner: AState,
                                            scope: VarTable, scope': VarTable, father: seq<Typed>, depth: nat)
    requires ValidCatalog(cat) && Distinct(Names(ps))
    requires types == ParamTypes(cat, ps, father) && GoodParams(cat, ps, types) && EntersFine(cat, s, ps, types)
    requires scope' == Enter(scope, Names(ps), types, s.functionno + 1, 1)
    requires ScopeOf(scope') == Open(ScopeOf(scope), Names(ps), types)
    requires inner == s.(functionno := s.functionno + 1, table := Enter(s.table, Names(ps), types, s.functionno + 1, 1))
    requires inner.table.Keys == s.table.Keys + NameSet(ps) && Extends(s.table, inner.table)
    requires var (b, s') := Annotate(cat, body, inner, father, depth);
             Correct(b, inner, s', Resolve(cat, body, ScopeOf(scope'), father, depth), scope', Bound(body))
    ensures var (a, s') := Annotate(cat, Fun(ps, body), s, father, depth);
            Correct(a, s, s', Resolve(cat, Fun(ps, body), ScopeOf(scope), father, depth), scope, Bound(Fun(ps, body)))
  {
    ParamsTyped(cat, ps, types);
    UnfoldAnnotate(cat, ps, body, types, s, father, depth);
    UnfoldResolve(cat, ps, body, types, ScopeOf(scope), father, depth);
    hide *;
    var (b, s') := Annotate(cat, body, inner, father, depth);
    var r := Resolve(cat, body, ScopeOf(scope'), father, depth);
    JoinFunction(Names(ps), types, NameSet(ps), inner.table, scope, b, s, s', r, Bound(body));
    BoundFunction(ps, body);
  }

  lemma {:induction false} ParamsTyped(cat: Catalog, ps: seq<Param>, types: seq<Type>)
    requires ValidCatalog(cat) && |ps| == |types| && GoodParams(cat, ps, types)
    ensures !AnyError(types)
  {
    forall i | 0 <= i < |types| ensures !HasError(types[i]) { assert ParamTypeOk(cat, types[i]); }
    NoErrors(types);
  }

  lemma {:induction false} NoErrors(types: seq<Type>)
    requires forall i :: 0 <= i < |types| ==> !HasError(types[i])
    ensures !AnyError(types)
  {
    if types != [] { NoErrors(types[1..]); }
  }

  lemma {:induction false} BoundFunction(ps: seq<Param>, body: Expr)
    ensures Bound(Fun(ps, body)) == NameSet(ps) + Bound(body)
  {}

  lemma {:induction false} GoodFunctionCorrect(cat: Catalog, ps: seq<Param>, body: Expr, types: seq<Type>, s: AState,
                                               scope: VarTable, father: seq<Typed>, depth: nat)
    requires Ready(cat, s, scope)
    requires WellScoped(cat, Fun(ps, body), scope.Keys, s.table.Keys)
    requires types == ParamTypes(cat, ps, father) && GoodParams(cat, ps, types) && EntersFine(cat, s, ps, types)
    ensures var (a, s') := Annotate(cat, Fun(ps, body), s, father, depth);
            Correct(a, s, s', Resolve(cat, Fun(ps, body), ScopeOf(scope), father, depth), scope, Bound(Fun(ps, body)))
    decreases depth, body, 2
  {
    assert ValidCatalog(cat) && Distinct(Names(ps));
    hide *;
    var table := Enter(s.table, Names(ps), types, s.functionno + 1, 1);
    var scope' := Enter(scope, Names(ps), types, s.functionno + 1, 1);
    FunctionReady(cat, ps, body, types, s, scope, table, scope');
    var inner := s.(functionno := s.functionno + 1, table := table);
    AnnotateCorrect(cat, body, inner, scope', father, depth);
    JoinGoodFunction(cat, ps, body, types, s, inner, scope, scope', father, depth);
  }

  lemma {:induction false} ConstantsStay(cat: Catalog, es: seq<Expr>, s: AState, isOp: bool, father: seq<Typed>,
                                         sofar: seq<Typed>, depth: nat)
    requires ValidCatalog(cat)
    ensures var as_ := AnnotateAll(cat, es, s, isOp, father, sofar, depth).0;
            as_.Some? ==> forall i :: 0 <= i < |es| && es[i].Const? ==>
              as_.value[i].ConstantA? && as_.value[i].ty == es[i].ty
    decreases |es|
  {
    if es != [] {
      var (a, s1) := Annotate(cat, es[0], s, if isOp then sofar else father, depth);
      var sofar' := sofar + [Typed(TypeOf(a), es[0])];
      ConstantsStay(cat, es[1..], s1, isOp, father, sofar', depth);
      var as_ := AnnotateAll(cat, es, s, isOp, father, sofar, depth).0;
      if as_.Some? {
        var rest := AnnotateAll(cat, es[1..], s1, isOp, father, sofar', depth).0.value;
        assert as_.value == [a] + rest;
        forall i | 0 <= i < |es| && es[i].Const? ensures as_.value[i].ConstantA? && as_.value[i].ty == es[i].ty {
          if i == 0 {
            assert as_.value[0] == a && a.ConstantA? && a.ty == es[0].ty;
          } else {
            assert es[i] == es[1..][i - 1] && as_.value[i] == rest[i - 1];
          }
        }
      }
    }
  }

  lemma {:induction false} SymbolicHead(cat: Catalog, es: seq<Expr>, s: AState, scope: VarTable, father: seq<Typed>,
                                        depth: nat)
    requires Ready(cat, s, scope) && es != []
    requires WellScoped(cat, List(es), scope.Keys, s.table.Keys)
    requires var h := HeadOf(cat, es[0], ScopeOf(scope)); h.OperatorHead? || h.KeywordHead?
    ensures var h := HeadOf(cat, es[0], ScopeOf(scope));
      var (a, s') := Annotate(cat, es[0], s, father, depth);
      && s' == s && (h.OperatorHead? <==> a.OperatorA?) && !a.ExprErrorA?
      && (h.OperatorHead? ==> a.ids == h.ids && GoodIds(cat, h.ids))
      && (h.KeywordHead? ==> a == KeywordA(h.keyword) && |es| == if h.keyword.PredInfo? then 4 else 3)
    ensures WellScopedAll(cat, es[1..], scope.Keys, s.table.Keys)
    ensures Bound(List(es)) == BoundAll(es[1..])
  {
    HeadKind(cat, es[0], s, scope, father, depth);
    assert s.table.Keys + Bound(es[0]) == s.table.Keys;
  }

  lemma {:induction false} SymbolicHeadCorrect(cat: Catalog, es: seq<Expr>, s: AState, scope: VarTable,
                                               father: seq<Typed>, depth: nat)
    requires Ready(cat, s, scope) && es != []
    requires WellScoped(cat, List(es), scope.Keys, s.table.Keys)
    requires var h := HeadOf(cat, es[0], ScopeOf(scope)); h.OperatorHead? || h.KeywordHead?
    ensures var (a, s') := Annotate(cat, List(es), s, father, depth);
            Correct(a, s, s', Resolve(cat, List(es), ScopeOf(scope), father, depth), scope, Bound(List(es)))
    decreases depth, List(es), 0
  {
    assert ValidCatalog(cat);
    hide Correct, CorrectAll, Ready, ValidCatalog, WellScoped, WellScopedAll, HeadOf, Apply, ResolveList, GoodIds,
      Bound;
    SymbolicHead(cat, es, s, scope, father, depth);
    var h := HeadOf(cat, es[0], ScopeOf(scope));
    var head := Annotate(cat, es[0], s, father, depth).0;
    AllCorrect(cat, es[1..], s, scope, h.OperatorHead?, father, [], depth);
    ConstantsStay(cat, es[1..], s, h.OperatorHead?, father, [], depth);
    var (args, s2) := AnnotateAll(cat, es[1..], s, h.OperatorHead?, father, [], depth);
    var rs := ResolveAll(cat, es[1..], ScopeOf(scope), h.OperatorHead?, father, [], depth);
    if args.Some? {
      forall i | 0 <= i < |args.value| && es[i + 1].Const?
        ensures args.value[i].ConstantA? && args.value[i].ty == es[i + 1].ty
      {
        assert es[i + 1] == es[1..][i];
      }
      JoinSymbol(cat, h, es, head, args.value, rs, s, s2, scope, BoundAll(es[1..]));
    } else {
      NoArguments(cat, h, es, None, rs, s, s2, scope, BoundAll(es[1..]), BoundAll(es[1..]));
    }
  }

  lemma {:induction false} OtherHead(cat: Catalog, es: seq<Expr>, s: AState, scope: VarTable, father: seq<Typed>,
                                     depth: nat)
    requires Ready(cat, s, scope) && es != []
    requires WellScoped(cat, List(es), scope.Keys, s.table.Keys)
    requires var h := HeadOf(cat, es[0], ScopeOf(scope)); h.FunctionHead? || h.OtherHead?
    ensures var h := HeadOf(cat, es[0], ScopeOf(scope));
      var a := Annotate(cat, es[0], s, father, depth).0;
      && (h.FunctionHead? ==> a.AbstractionA? || a.FunctionErrorA? || a.ExprErrorA?)
      && (h.OtherHead? ==> !a.OperatorA? && !a.AbstractionA? && !a.KeywordA? && !a.FunctionErrorA?)
      && !a.OperatorA?
    ensures WellScoped(cat, es[0], scope.Keys, s.table.Keys)
    ensures WellScopedAll(cat, es[1..], scope.Keys, s.table.Keys + Bound(es[0]))
    ensures Bound(List(es)) == Bound(es[0]) + BoundAll(es[1..])
  {
    HeadKind(cat, es[0], s, scope, father, depth);
  }

  /** What has been annotated without error leaves the pass ready for the rest. */
  lemma {:induction false} StillReady(cat: Catalog, a: Ann, s: AState, s1: AState, r: Option<Resolved>, scope: VarTable,
                                      b: set<string>)
    requires Ready(cat, s, scope) && Correct(a, s, s1, r, scope, b)
    ensures r.Some? ==> Ready(cat, s1, scope) && s1.table.Keys == s.table.Keys + b && !a.ExprErrorA?
    ensures a.ExprErrorA? ==> r.None?
    ensures r.None? ==> !Clean(a)
  {}

  lemma {:induction false} NothingResolved(cat: Catalog, kind: Head, args: Option<seq<Resolved>>, es: seq<Expr>)
    requires ValidCatalog(cat) && es != [] && (args.Some? ==> |args.value| == |es| - 1)
    requires kind.FunctionHead? || kind.OtherHead?
    ensures ResolveList(cat, kind, None, args, es) == None
  {}

  lemma {:induction false} Failed(a: Ann, s: AState, s': AState, scope: VarTable, b: set<string>)
    requires !Clean(a)
    ensures Correct(a, s, s', None, scope, b)
  {}

  /** An error among the elements makes the list an error on both sides. */
  lemma {:induction false} NoArguments(cat: Catalog, kind: Head, es: seq<Expr>, h: Option<Resolved>,
                                       rs: Option<seq<Resolved>>,
                                       s: AState, s2: AState, scope: VarTable, bs: set<string>, bound: set<string>)
    requires ValidCatalog(cat) && es != [] && (rs.Some? ==> |rs.value| == |es| - 1)
    requires CorrectAll(None, es[1..], s, s2, rs, scope, bs)
    ensures Correct(ExprErrorA, s, s2, ResolveList(cat, kind, h, rs, es), scope, bound)
  {}

  lemma {:induction false} OtherHeadCorrect(cat: Catalog, es: seq<Expr>, s: AState, scope: VarTable, father: seq<Typed>,
                                            depth: nat)
    requires Ready(cat, s, scope) && es != []
    requires WellScoped(cat, List(es), scope.Keys, s.table.Keys)
    requires var h := HeadOf(cat, es[0], ScopeOf(scope)); h.FunctionHead? || h.OtherHead?
    ensures var (a, s') := Annotate(cat, List(es), s, father, depth);
            Correct(a, s, s', Resolve(cat, List(es), ScopeOf(scope), father, depth), scope, Bound(List(es)))
    decreases depth, List(es), 0
  {
    assert ValidCatalog(cat);
    hide Correct, CorrectAll, Ready, ValidCatalog, WellScoped, WellScopedAll, HeadOf, Apply, ResolveList, Bound, Clean;
    OtherHead(cat, es, s, scope, father, depth);
    var kind := HeadOf(cat, es[0], ScopeOf(scope));
    AnnotateCorrect(cat, es[0], s, scope, father, depth);
    var (head, s1) := Annotate(cat, es[0], s, father, depth);
    var h := Resolve(cat, es[0], ScopeOf(scope), father, depth);
    StillReady(cat, head, s, s1, h, scope, Bound(es[0]));
    var rs := ResolveAll(cat, es[1..], ScopeOf(scope), false, father, [], depth);
    if head.ExprErrorA? {
      NothingResolved(cat, kind, rs, es);
      Failed(head, s, s1, scope, Bound(List(es)));
    } else {
      var (args, s2) := AnnotateAll(cat, es[1..], s1, false, father, [], depth);
      if h.Some? {
        AllCorrect(cat, es[1..], s1, scope, false, father, [], depth);
      }
      if args.Some? {
        JoinHead(cat, kind, es, head, h, args.value, rs, s, s1, s2, scope, Bound(es[0]), BoundAll(es[1..]));
      } else if h.Some? {
        NoArguments(cat, kind, es, h, rs, s1, s2, scope, BoundAll(es[1..]), Bound(List(es)));
        ErrorAnywhere(s1, s, s2, ResolveList(cat, kind, h, rs, es), scope, Bound(List(es)));
      } else {
        NothingResolved(cat, kind, rs, es);
        ErrorAnywhere(s, s, s2, None, scope, Bound(List(es)));
      }
    }
  }

  lemma {:induction false} ErrorAnywhere(s1: AState, s: AState, s2: AState, r: Option<Resolved>, scope: VarTable,
                                         b: set<string>)
    requires r.None? || Correct(ExprErrorA, s1, s2, r, scope, b)
    ensures Correct(ExprErrorA, s, s2, r, scope, b)
  {}

  lemma {:induction false} FailedFirst(a: Ann, rest: Option<seq<Ann>>, e: Expr, es: seq<Expr>, s: AState, s': AState,
                                       scope: VarTable, bound: set<string>)
    requires !Clean(a) && (rest.Some? ==> |rest.value| == |es|)
    ensures CorrectAll(if rest.None? then None else Some([a] + rest.value), [e] + es, s, s', None, scope, bound)
    ensures CorrectAll(None, [e] + es, s, s', None, scope, bound)
  {}

  lemma {:induction false} FailedLater(a: Ann, rest: Option<seq<Ann>>, e: Expr, es: seq<Expr>, s: AState, s1: AState,
                                       s': AState,
                                       scope: VarTable, bs: set<string>, bound: set<string>)
    requires (rest.Some? ==> |rest.value| == |es|) && CorrectAll(rest, es, s1, s', None, scope, bs)
    ensures CorrectAll(if rest.None? then None else Some([a] + rest.value), [e] + es, s, s', None, scope, bound)
  {
    if rest.Some? { assert ([a] + rest.value)[1..] == rest.value; }
  }

  lemma {:induction false} SomeResolved(as_: Option<seq<Ann>>, es: seq<Expr>, s: AState, s': AState,
                                        rs: Option<seq<Resolved>>,
                                        scope: VarTable, bound: set<string>)
    requires as_.Some? ==> |as_.value| == |es|
    requires CorrectAll(as_, es, s, s', rs, scope, bound) && rs.Some?
    ensures as_.Some?
  {}

  lemma {:induction false} AllCorrect(cat: Catalog, es: seq<Expr>, s: AState, scope: VarTable, isOp: bool,
                                      father: seq<Typed>, sofar: seq<Typed>, depth: nat)
    requires Ready(cat, s, scope)
    requires WellScopedAll(cat, es, scope.Keys, s.table.Keys)
    ensures var (as_, s') := AnnotateAll(cat, es, s, isOp, father, sofar, depth);
            CorrectAll(as_, es, s, s', ResolveAll(cat, es, ScopeOf(scope), isOp, father, sofar, depth), scope,
                       BoundAll(es))
    decreases depth, es, 0
  {
    if es != [] {
      var f := if isOp then sofar else father;
      assert WellScoped(cat, es[0], scope.Keys, s.table.Keys);
      assert WellScopedAll(cat, es[1..], scope.Keys, s.table.Keys + Bound(es[0]));
      assert ValidCatalog(cat);
      hide Correct, CorrectAll, Ready, ValidCatalog, WellScoped, WellScopedAll, Clean, Annotate, Resolve;
      AnnotateCorrect(cat, es[0], s, scope, f, depth);
      var (a, s1) := Annotate(cat, es[0], s, f, depth);
      var r := Resolve(cat, es[0], ScopeOf(scope), f, depth);
      StillReady(cat, a, s, s1, r, scope, Bound(es[0]));
      var sofar' := sofar + [Typed(TypeOf(a), es[0])];
      var (rest, s2) := AnnotateAll(cat, es[1..], s1, isOp, father, sofar', depth);
      assert [es[0]] + es[1..] == es;
      if r.Some? {
        TypeAgrees(a, r.value, s, s1, scope, Bound(es[0]));
        AllCorrect(cat, es[1..], s1, scope, isOp, father, sofar', depth);
        var rs := ResolveAll(cat, es[1..], ScopeOf(scope), isOp, father, sofar', depth);
        if rs.Some? {
          SomeResolved(rest, es[1..], s1, s2, rs, scope, BoundAll(es[1..]));
          JoinOne(a, r.value, es[0], rest.value, rs.value, es[1..], s, s1, s2, scope, Bound(es[0]), BoundAll(es[1..]));
        } else {
          FailedLater(a, rest, es[0], es[1..], s, s1, s2, scope, BoundAll(es[1..]), BoundAll(es));
        }
      } else {
        FailedFirst(a, rest, es[0], es[1..], s, s2, scope, BoundAll(es));
      }
    }
  }

  lemma {:induction false} TypeAgrees(a: Ann, r: Resolved, s: AState, s1: AState, scope: VarTable, b: set<string>)
    requires Correct(a, s, s1, Some(r), scope, b)
    ensures TypeOf(a) == r.ty
  {}
}
