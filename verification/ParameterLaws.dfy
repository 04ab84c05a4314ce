/** The types of parameters in the catalog's own terms. */
module ParameterLaws {
  import opened Wrappers
  import opened QuerySyntax
  import opened Annotation
  import opened Meaning
  import opened AnnotationCorrect
  import opened Acceptance
  import opened Building
  import opened OperatorLaws

  /**
   A parameter declared with the symbol `t` has the type of that name; if there is none, what the first
   candidate of the type operator `t` answers on the argument types before the function; and the basic type
   `t` if there is no such operator either.
   */
  ghost predicate Declares(cat: Catalog, t: string, father: seq<Typed>, ty: Type) {
    if t in cat.types then ty == cat.types[t]
    else if t in cat.operators then
      exists i: nat :: FirstToTake(cat, cat.operators[t], i, father)
        && cat.algebra[cat.operators[t][i]].typeMap(father) == Accepted(ty)
    else ty == Basic(t)
  }

  /** It is a correct type expression, or a stream of one. */
  predicate IsCorrect(cat: Catalog, ty: Type) {
    cat.kindCorrect(if ty.Stream? then ty.elem else ty)
  }

  lemma {:induction false} TakesExactly(cat: Catalog, id: OpId, args: seq<Typed>)
    ensures Takes(cat, id, args) <==> !IsRejected(TypeMapOf(cat, id, args))
  {}

  lemma {:induction false} AcceptingIsFirst(cat: Catalog, ids: seq<OpId>, args: seq<Typed>)
    ensures FirstAccepting(cat, ids, args).Some? ==>
      exists i: nat :: FirstToTake(cat, ids, i, args) && FirstAccepting(cat, ids, args) == Some(ids[i])
  {
    if FirstAccepting(cat, ids, args).Some? {
      var i: nat :| i < |ids| && FirstAccepting(cat, ids, args) == Some(ids[i])
        && !IsRejected(TypeMapOf(cat, ids[i], args))
        && forall j :: 0 <= j < i ==> IsRejected(TypeMapOf(cat, ids[j], args));
      TakesExactly(cat, ids[i], args);
      forall j | 0 <= j < i ensures !Takes(cat, ids[j], args) { TakesExactly(cat, ids[j], args); }
    }
  }

  lemma {:induction false} DeclaredIsFound(cat: Catalog, t: string, father: seq<Typed>, ty: Type)
    requires ValidCatalog(cat)
    ensures ParamType(cat, Named(t), father) == ty && ParamTypeOk(cat, ty)
            <==> Declares(cat, t, father, ty) && IsCorrect(cat, ty)
  {
    assert forall u :: cat.kindCorrect(u) ==> !HasError(u);
    hide ValidCatalog;
    if t !in cat.types && t in cat.operators {
      var ids := cat.operators[t];
      if ParamType(cat, Named(t), father) == ty && ParamTypeOk(cat, ty) {
        AcceptingIsFirst(cat, ids, father);
        var i: nat :| FirstToTake(cat, ids, i, father) && FirstAccepting(cat, ids, father) == Some(ids[i]);
        FirstTaken(cat, ids, i, father);
      }
      if Declares(cat, t, father, ty) {
        var i: nat :| FirstToTake(cat, ids, i, father) && cat.algebra[ids[i]].typeMap(father) == Accepted(ty);
        FirstTaken(cat, ids, i, father);
      }
    }
  }

  lemma {:induction false} EnteredCorrect(cat: Catalog, table: VarTable, ps: seq<Param>, types: seq<Type>, fun: nat,
                                          k: nat)
    requires |ps| == |types| && EnterParams(cat, table, ps, types, fun, k).0
    ensures forall i :: 0 <= i < |types| ==> ParamTypeOk(cat, types[i])
    decreases |ps|
  {
    if ps != [] {
      EnteredCorrect(cat, table[ps[0].name := VarEntry(k, fun, types[0])], ps[1..], types[1..], fun, k + 1);
      forall i | 0 <= i < |types| ensures ParamTypeOk(cat, types[i]) {
        if i > 0 { assert types[i] == types[1..][i - 1]; }
      }
    }
  }

  /** The parameters of an annotated function have the types that are written out or that their symbols declare. */
  lemma {:induction false} ParameterTypes(cat: Catalog, ps: seq<Param>, body: Expr, s: AState, father: seq<Typed>,
                                          depth: nat)
    requires ValidCatalog(cat) && Annotate(cat, Fun(ps, body), s, father, depth).0.AbstractionA?
    ensures var types := Annotate(cat, Fun(ps, body), s, father, depth).0.params;
      && |types| == |ps|
      && forall i :: 0 <= i < |ps| ==> IsCorrect(cat, types[i]) && TypeDeclared(cat, ps[i], father, types[i])
  {
    var types := ParamTypes(cat, ps, father);
    FunctionAnnotated(cat, ps, body, s, father, depth);
    hide Annotate, ValidCatalog;
    EnteredCorrect(cat, s.table, ps, types, s.functionno + 1, 1);
    forall i | 0 <= i < |ps| ensures IsCorrect(cat, types[i]) && TypeDeclared(cat, ps[i], father, types[i]) {
      if ps[i].spec.Named? { DeclaredIsFound(cat, ps[i].spec.name, father, types[i]); }
    }
  }

  ghost predicate TypeDeclared(cat: Catalog, p: Param, father: seq<Typed>, ty: Type) {
    match p.spec
    case Given(given) => ty == given
    case Named(t) => Declares(cat, t, father, ty)
  }

  /**
   The identity on a parameter declared with a symbol: it is annotated with a type, for the parameter and for
   the variable, exactly when the symbol declares that type and it is correct; otherwise it is an error.
   */
  lemma {:induction false} IdentityTyped(cat: Catalog, x: string, t: string, s: AState, father: seq<Typed>, depth: nat,
                                         ty: Type)
    requires ValidCatalog(cat) && x !in cat.objects && x !in cat.operators && x !in s.table
    ensures var a, n := Annotate(cat, Fun([Param(x, Named(t))], Sym(x)), s, father, depth).0, s.functionno + 1;
      && (a == AbstractionA(VariableA(x, 1, n, ty), n, [ty]) <==> Declares(cat, t, father, ty) && IsCorrect(cat, ty))
      && (a == FunctionErrorA <==> forall u :: !(Declares(cat, t, father, u) && IsCorrect(cat, u)))
  {
    var ps, n, found := [Param(x, Named(t))], s.functionno + 1, ParamType(cat, Named(t), father);
    FunctionAnnotated(cat, ps, Sym(x), s, father, depth);
    assert ps[1..] == [] && ParamTypes(cat, ps, father) == [found] && [found][1..] == [];
    assert EnterParams(cat, s.table, ps, [found], n, 1)
        == if ParamTypeOk(cat, found) then (true, s.table[x := VarEntry(1, n, found)]) else (false, s.table);
    DeclaredIsFound(cat, t, father, ty);
    forall u ensures Declares(cat, t, father, u) && IsCorrect(cat, u) <==> u == found && ParamTypeOk(cat, found) {
      DeclaredIsFound(cat, t, father, u);
    }
    assert ParamTypeOk(cat, found) <==> Declares(cat, t, father, found) && IsCorrect(cat, found);
    if ParamTypeOk(cat, found) { SymbolOfVariable(cat, x, s, VarEntry(1, n, found), father, depth); }
    hide Annotate, Declares, IsCorrect, EnterParams, ParamTypes, ParamType, ParamTypeOk, ValidCatalog;
  }

  lemma {:induction false} SymbolOfVariable(cat: Catalog, x: string, s: AState, e: VarEntry, father: seq<Typed>,
                                            depth: nat)
    requires ValidCatalog(cat) && x !in cat.objects && x !in cat.operators
    ensures Annotate(cat, Sym(x), s.(functionno := e.funindex, table := s.table[x := e]), father, depth).0
            == VariableA(x, e.position, e.funindex, e.ty)
  {}
}
