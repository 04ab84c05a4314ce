/** Listings agree with lookups, whatever mixture of overlay states there is. */
module CatalogListing {
  import opened Wrappers
  import opened CatalogModel

  /** The list holds every name of the map exactly once, with the map's value. */
  ghost predicate EachOnce<V(!new)>(l: seq<(string, V)>, m: map<string, V>) {
    && (forall i :: 0 <= i < |l| ==> l[i].0 in m && l[i].1 == m[l[i].0])
    && (forall x :: x in m ==> exists i :: 0 <= i < |l| && l[i].0 == x)
    && (forall i, j :: 0 <= i < j < |l| ==> l[i].0 != l[j].0)
  }

  lemma {:induction false} Joined<V(!new)>(l: seq<(string, V)>, l': seq<(string, V)>, m: map<string, V>, m': map<string,
                                           V>)
    requires EachOnce(l, m) && EachOnce(l', m') && m.Keys !! m'.Keys
    ensures EachOnce(l + l', m + m')
  {
    forall x | x in m + m' ensures exists i :: 0 <= i < |l + l'| && (l + l')[i].0 == x {
      if x in m {
        var i :| 0 <= i < |l| && l[i].0 == x;
        assert (l + l')[i].0 == x;
      } else {
        var i :| 0 <= i < |l'| && l'[i].0 == x;
        assert (l + l')[|l| + i].0 == x;
      }
    }
  }

  lemma {:induction false} OneOnce<V(!new)>(x: string, v: V)
    ensures EachOnce([(x, v)], map[x := v])
  {
    var l: seq<(string, V)> := [(x, v)];
    assert l[0].0 == x && l[0].1 == v;
    assert |l| == 1;
  }

  /** The names that have a value, with it. */
  function Filter<V>(names: seq<string>, m: map<string, V>): seq<(string, V)> {
    if names == [] then []
    else
      var last := |names| - 1;
      Filter(names[..last], m) + if names[last] in m then [(names[last], m[names[last]])] else []
  }

  function Among<V>(m: map<string, V>, names: seq<string>): map<string, V> {
    map x | x in m && x in names :: m[x]
  }

  lemma {:induction false} FilterOnce<V(!new)>(names: seq<string>, m: map<string, V>)
    requires forall i, j :: 0 <= i < j < |names| ==> names[i] != names[j]
    ensures EachOnce(Filter(names, m), Among(m, names))
  {
    if names != [] {
      var x, rest := names[|names| - 1], names[..|names| - 1];
      FilterOnce(rest, m);
      if x in m {
        OneOnce(x, m[x]);
        var m1 := map[x := m[x]];
        Joined(Filter(rest, m), [(x, m[x])], Among(m, rest), m1);
        assert Among(m, rest) + m1 == Among(m, names);
      } else {
        assert Among(m, rest) == Among(m, names);
        assert Filter(names, m) == Filter(rest, m);
      }
    }
  }

  lemma {:induction false} FilterAll<V(!new)>(names: seq<string>, m: map<string, V>, all: set<string>)
    requires Lists(names, all) && m.Keys <= all
    ensures EachOnce(Filter(names, m), m)
  {
    FilterOnce(names, m);
    assert Among(m, names) == m;
  }

  // ---------------------------------------------------------------- types

  /** The stored types that the overlay does not hide, and the pending ones. */
  function ShownTypes(c: Catalog): map<string, string> {
    map x | x in c.files.typeFile && !(x in c.types && !c.types[x].state.EntryInsert?) :: c.files.typeFile[x]
  }

  function NewTypes(c: Catalog): map<string, string> {
    map x | x in c.types && !c.types[x].state.EntryDelete? :: c.types[x].expr
  }

  lemma {:induction false} StoredTypesFiltered(c: Catalog, names: seq<string>)
    requires forall x :: x in names ==> x in c.files.typeFile
    ensures StoredTypes(c, names) == Filter(names, ShownTypes(c))
  {
    if names != [] { StoredTypesFiltered(c, names[..|names| - 1]); }
  }

  lemma {:induction false} PendingTypesFiltered(c: Catalog, names: seq<string>)
    requires forall x :: x in names ==> x in c.types
    ensures PendingTypes(c, names) == Filter(names, NewTypes(c))
  {
    if names != [] { PendingTypesFiltered(c, names[..|names| - 1]); }
  }

  lemma {:induction false} TypesShown(c: Catalog)
    requires Inv(c)
    ensures ShownTypes(c).Keys !! NewTypes(c).Keys && ShownTypes(c) + NewTypes(c) == VisibleTypes(c)
  {}

  /** `ListTypes` holds each visible type exactly once, with the expression that lookup returns. */
  lemma {:induction false} TypesListedOnce(c: Catalog, stored: seq<string>, pending: seq<string>)
    requires Inv(c) && Lists(stored, c.files.typeFile.Keys) && Lists(pending, c.types.Keys)
    ensures EachOnce(ListTypes(c, stored, pending), VisibleTypes(c))
  {
    hide EachOnce, Inv, LookUpType;
    StoredTypesFiltered(c, stored);
    PendingTypesFiltered(c, pending);
    FilterAll(stored, ShownTypes(c), c.files.typeFile.Keys);
    FilterAll(pending, NewTypes(c), c.types.Keys);
    TypesShown(c);
    Joined(StoredTypes(c, stored), PendingTypes(c, pending), ShownTypes(c), NewTypes(c));
  }

  // ---------------------------------------------------------------- objects

  /** The type name and type expression of every visible object. */
  function VisibleObjectTypes(c: Catalog): map<string, (string, string)> {
    map x | x in VisibleObjects(c) :: (VisibleObjects(c)[x].typeName, VisibleObjects(c)[x].typeExpr)
  }

  function ShownObjects(c: Catalog): map<string, (string, string)> {
    map x | x in c.files.objFile && !(x in c.objects && !c.objects[x].state.EntryInsert?) ::
      (c.files.objFile[x].typeName, c.files.objFile[x].typeExpr)
  }

  function NewObjects(c: Catalog): map<string, (string, string)> {
    map x | x in c.objects && !c.objects[x].state.EntryDelete? :: (c.objects[x].typeName, c.objects[x].typeExpr)
  }

  lemma {:induction false} StoredObjectsFiltered(c: Catalog, names: seq<string>)
    requires forall x :: x in names ==> x in c.files.objFile
    ensures StoredObjects(c, names) == Filter(names, ShownObjects(c))
  {
    if names != [] { StoredObjectsFiltered(c, names[..|names| - 1]); }
  }

  lemma {:induction false} PendingObjectsFiltered(c: Catalog, names: seq<string>)
    requires forall x :: x in names ==> x in c.objects
    ensures PendingObjects(c, names) == Filter(names, NewObjects(c))
  {
    if names != [] { PendingObjectsFiltered(c, names[..|names| - 1]); }
  }

  lemma {:induction false} ObjectsShown(c: Catalog)
    requires Inv(c)
    ensures ShownObjects(c).Keys !! NewObjects(c).Keys && ShownObjects(c) + NewObjects(c) == VisibleObjectTypes(c)
  {
    hide SoundFiles;
    var m, v := ShownObjects(c) + NewObjects(c), VisibleObjects(c);
    forall x ensures x in m <==> x in v {}
    forall x | x in v ensures m[x] == (v[x].typeName, v[x].typeExpr) {}
    assert m == VisibleObjectTypes(c);
  }

  /** `ListObjects` holds each visible object exactly once, with the type that lookup returns. */
  lemma {:induction false} ObjectsListedOnce(c: Catalog, stored: seq<string>, pending: seq<string>)
    requires Inv(c) && Lists(stored, c.files.objFile.Keys) && Lists(pending, c.objects.Keys)
    ensures EachOnce(ListObjects(c, stored, pending), VisibleObjectTypes(c))
  {
    hide EachOnce, Inv, LookUpObject, VisibleObjectTypes;
    StoredObjectsFiltered(c, stored);
    PendingObjectsFiltered(c, pending);
    FilterAll(stored, ShownObjects(c), c.files.objFile.Keys);
    FilterAll(pending, NewObjects(c), c.objects.Keys);
    ObjectsShown(c);
    Joined(StoredObjects(c, stored), PendingObjects(c, pending), ShownObjects(c), NewObjects(c));
  }
}
