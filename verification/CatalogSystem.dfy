/**
 The catalog as the program keeps it: an object whose methods insert, erase and change entries of two
 maps and write records in loops, and the system that brackets them with transactions. Each method
 computes the model's function of the state it found.
 */
module CatalogSystem {
  import opened Wrappers
  import opened CatalogModel
  import opened CatalogCorrect

  class SecondoCatalog {
    var types: map<string, TypeEntry>
    var objects: map<string, ObjectEntry>
    var typeCatalogFile: map<string, string>
    var objCatalogFile: map<string, ObjectRecord>
    var objValueFile: map<nat, Value>
    /** How maps and files are iterated, and how record ids are chosen. */
    const order: Order
    const alloc: Allocator

    constructor (files: Files, order: Order, alloc: Allocator)
      ensures State() == Catalog(map[], map[], files) && this.order == order && this.alloc == alloc
    {
      types, objects := map[], map[];
      typeCatalogFile, objCatalogFile, objValueFile := files.typeFile, files.objFile, files.valueFile;
      this.order, this.alloc := order, alloc;
    }

    function Stored(): Files
      reads this
    {
      Files(typeCatalogFile, objCatalogFile, objValueFile)
    }

    function State(): Catalog
      reads this
    {
      Catalog(types, objects, Stored())
    }

    // -------------------------------------------------------------- types

    method InsertType(x: string, expr: string) returns (ok: bool)
      modifies this`types
      ensures (ok, State()) == CatalogModel.InsertType(old(State()), x, expr)
    {
      ok := false;
      if x in types {
        if types[x].state == EntryDelete {
          types := types[x := TypeEntry(EntryUpdate, expr)];
          ok := true;
        }
      } else if x !in typeCatalogFile {
        types := types[x := TypeEntry(EntryInsert, expr)];
        ok := true;
      }
    }

    method DeleteType(x: string) returns (rc: int)
      requires Visits(order)
      modifies this`types
      ensures (rc, State()) == CatalogModel.DeleteType(old(State()), x)
    {
      if x in types {
        if types[x].state != EntryDelete {
          var used := TypeUsedByObject(x);
          if used {
            rc := 1;
          } else {
            if types[x].state == EntryUpdate {
              types := types[x := types[x].(state := EntryDelete)];
            } else {
              types := types - {x};
            }
            rc := 0;
          }
        } else {
          rc := 2;
        }
      } else if x in typeCatalogFile {
        var used := TypeUsedByObject(x);
        if used {
          rc := 1;
        } else {
          types := types[x := TypeEntry(EntryDelete, typeCatalogFile[x])];
          rc := 0;
        }
      } else {
        rc := 2;
      }
    }

    method TypeUsedByObject(t: string) returns (used: bool)
      requires Visits(order)
      ensures used <==> CatalogModel.TypeUsedByObject(State(), t)
    {
      used := false;
      var names, i := order(objects.Keys), 0;
      assert Lists(names, objects.Keys);
      while !used && i < |names|
        invariant i <= |names|
        invariant used <==>
          exists j :: 0 <= j < i && !objects[names[j]].state.EntryDelete? && objects[names[j]].typeName == t
      {
        used := objects[names[i]].state != EntryDelete && objects[names[i]].typeName == t;
        i := i + 1;
      }
      if !used {
        var stored, k := order(objCatalogFile.Keys), 0;
        assert Lists(stored, objCatalogFile.Keys);
        while !used && k < |stored|
          invariant k <= |stored|
          invariant used <==> t != "" && exists j :: 0 <= j < k && objCatalogFile[stored[j]].typeName == t
        {
          var name := objCatalogFile[stored[k]].typeName;
          if |name| > 0 {
            used := t == name;
          }
          k := k + 1;
        }
      }
    }

    method MemberType(x: string) returns (found: bool)
      ensures found <==> x in VisibleTypes(State())
    {
      if x in types {
        found := types[x].state != EntryDelete;
      } else {
        found := x in typeCatalogFile;
      }
    }

    method GetTypeExpr(x: string) returns (expr: Option<string>)
      ensures expr == LookUpType(State(), x)
    {
      expr := None;
      if x in types {
        if types[x].state != EntryDelete {
          expr := Some(types[x].expr);
        }
      } else if x in typeCatalogFile {
        expr := Some(typeCatalogFile[x]);
      }
    }

    method ListTypes() returns (list: seq<(string, string)>)
      requires Visits(order)
      ensures Lists(order(typeCatalogFile.Keys), typeCatalogFile.Keys) && Lists(order(types.Keys), types.Keys)
      ensures list == CatalogModel.ListTypes(State(), order(typeCatalogFile.Keys), order(types.Keys))
    {
      var stored, pending := order(typeCatalogFile.Keys), order(types.Keys);
      assert Lists(stored, typeCatalogFile.Keys) && Lists(pending, types.Keys);
      ghost var c := State();
      list := [];
      for i := 0 to |stored|
        invariant list == StoredTypes(c, stored[..i])
      {
        var x := stored[i];
        assert stored[..i + 1][..i] == stored[..i];
        if x in types && (types[x].state == EntryDelete || types[x].state == EntryUpdate) {
          continue;
        }
        list := list + [(x, typeCatalogFile[x])];
      }
      assert stored[..|stored|] == stored;
      ghost var shown := list;
      for i := 0 to |pending|
        invariant list == shown + PendingTypes(c, pending[..i])
      {
        var x := pending[i];
        assert pending[..i + 1][..i] == pending[..i];
        if types[x].state == EntryInsert || types[x].state == EntryUpdate {
          list := list + [(x, types[x].expr)];
        }
      }
      assert pending[..|pending|] == pending;
    }

    // -------------------------------------------------------------- objects

    method ListObjects() returns (list: seq<(string, (string, string))>)
      requires Visits(order)
      ensures Lists(order(objCatalogFile.Keys), objCatalogFile.Keys) && Lists(order(objects.Keys), objects.Keys)
      ensures list == CatalogModel.ListObjects(State(), order(objCatalogFile.Keys), order(objects.Keys))
    {
      var stored, pending := order(objCatalogFile.Keys), order(objects.Keys);
      assert Lists(stored, objCatalogFile.Keys) && Lists(pending, objects.Keys);
      ghost var c := State();
      list := [];
      for i := 0 to |stored|
        invariant list == StoredObjects(c, stored[..i])
      {
        var x := stored[i];
        assert stored[..i + 1][..i] == stored[..i];
        if x in objects && (objects[x].state == EntryDelete || objects[x].state == EntryUpdate) {
          continue;
        }
        list := list + [(x, (objCatalogFile[x].typeName, objCatalogFile[x].typeExpr))];
      }
      assert stored[..|stored|] == stored;
      ghost var shown := list;
      for i := 0 to |pending|
        invariant list == shown + PendingObjects(c, pending[..i])
      {
        var x := pending[i];
        assert pending[..i + 1][..i] == pending[..i];
        if objects[x].state == EntryInsert || objects[x].state == EntryUpdate {
          list := list + [(x, (objects[x].typeName, objects[x].typeExpr))];
        }
      }
      assert pending[..|pending|] == pending;
    }

    /** The value is not yet defined. */
    method CreateObject(x: string, typeName: string, typeExpr: string) returns (ok: bool)
      modifies this`objects
      ensures (ok, State()) == CatalogModel.InsertObject(old(State()), x, typeName, typeExpr, 0, false)
    {
      ok := InsertObject(x, typeName, typeExpr, 0, false);
    }

    method InsertObject(x: string, typeName: string, typeExpr: string, value: Value, defined: bool) returns (ok: bool)
      modifies this`objects
      ensures (ok, State()) == CatalogModel.InsertObject(old(State()), x, typeName, typeExpr, value, defined)
    {
      ok := false;
      if x in objects {
        if objects[x].state == EntryDelete {
          objects := objects[x := ObjectEntry(EntryUpdate, typeName, typeExpr, value, defined, 0)];
          ok := true;
        }
      } else if x !in objCatalogFile {
        objects := objects[x := ObjectEntry(EntryInsert, typeName, typeExpr, value, defined, 0)];
        ok := true;
      }
    }

    method IsObjectName(x: string) returns (found: bool)
      ensures found <==> x in VisibleObjects(State())
    {
      if x in objects {
        found := objects[x].state != EntryDelete;
      } else {
        found := x in objCatalogFile;
      }
    }

    method GetObjectExpr(x: string) returns (o: Option<Obj>)
      ensures o == LookUpObject(State(), x)
    {
      o := None;
      if x in objects {
        if objects[x].state != EntryDelete {
          var e := objects[x];
          o := Some(Obj(e.typeName, e.typeExpr, if e.valueDefined then Some(e.value) else None));
        }
      } else if x in objCatalogFile {
        var r := objCatalogFile[x];
        var value := None;
        if r.valueDefined {
          value := Some(0);
          if r.valueRecordId in objValueFile {
            value := Some(objValueFile[r.valueRecordId]);
          }
        }
        o := Some(Obj(r.typeName, r.typeExpr, value));
      }
    }

    method DeleteObject(x: string) returns (ok: bool)
      modifies this`objects
      ensures (ok, State()) == CatalogModel.DeleteObject(old(State()), x)
    {
      ok := false;
      if x in objects {
        if objects[x].state != EntryDelete {
          ok := true;
          if objects[x].state == EntryInsert {
            objects := objects - {x};
          } else {
            objects := objects[x := objects[x].(state := EntryDelete)];
          }
        }
      } else {
        var found := GetObjectExpr(x);
        if found.Some? {
          var o := found.value;
          objects := objects[x := ObjectEntry(EntryDelete, o.typeName, o.typeExpr,
                                              if o.value.Some? then o.value.value else 0, o.value.Some?, 0)];
          ok := true;
        }
      }
    }

    method KillObject(x: string) returns (ok: bool)
      modifies this`objects, this`objCatalogFile, this`objValueFile
      ensures (ok, State()) == CatalogModel.KillObject(old(State()), x)
    {
      ok := false;
      if x in objects {
        if objects[x].state != EntryDelete {
          ok := true;
          if objects[x].state == EntryInsert {
            objects := objects - {x};
          } else {
            objects := objects[x := objects[x].(state := EntryDelete)];
          }
        }
      } else {
        var known := IsObjectName(x);
        if known {
          var id := objCatalogFile[x].valueRecordId;
          objCatalogFile := objCatalogFile - {x};
          if id != 0 {
            objValueFile := objValueFile - {id};
          }
          ok := true;
        }
      }
    }

    method UpdateObject(x: string, value: Value) returns (found: bool)
      modifies this`objects
      ensures (found, State()) == CatalogModel.UpdateObject(old(State()), x, value)
    {
      found := false;
      if x in objects {
        if objects[x].state != EntryDelete {
          objects := objects[x := objects[x].(value := value, valueDefined := true)];
          found := true;
        }
      } else {
        found := x in objCatalogFile;
        if found {
          var r := objCatalogFile[x];
          objects := objects[x := ObjectEntry(EntryUpdate, r.typeName, r.typeExpr, value, true, r.valueRecordId)];
        }
      }
    }

    method ModifyObject(x: string, value: Value) returns (found: bool)
      requires x in objects ==> objects[x].state != EntryDelete
      modifies this`objects
      ensures (found, State()) == CatalogModel.ModifyObject(old(State()), x, value)
    {
      found := false;
      if x in objects {
        objects := objects[x := objects[x].(value := value, valueDefined := true)];
        found := true;
      } else {
        found := x in objCatalogFile;
        if found {
          var r := objCatalogFile[x];
          objects := objects[x := ObjectEntry(EntryUpdate, r.typeName, r.typeExpr, value, true, r.valueRecordId)];
        }
      }
    }

    // -------------------------------------------------------------- clean up

    /** Stores the type entries one after the other. */
    method StoreTypes()
      requires Visits(order)
      modifies this`typeCatalogFile
      ensures Lists(order(types.Keys), types.Keys)
      ensures typeCatalogFile == FlushTypes(old(typeCatalogFile), types, order(types.Keys))
    {
      var names := order(types.Keys);
      assert Lists(names, types.Keys);
      for i := 0 to |names|
        invariant typeCatalogFile == FlushTypes(old(typeCatalogFile), types, names[..i])
      {
        var x := names[i];
        assert names[..i + 1][..i] == names[..i];
        match types[x].state
        case EntryInsert =>
          if x !in typeCatalogFile { typeCatalogFile := typeCatalogFile[x := types[x].expr]; }
        case EntryUpdate =>
          if x in typeCatalogFile { typeCatalogFile := typeCatalogFile[x := types[x].expr]; }
        case EntryDelete =>
          typeCatalogFile := typeCatalogFile - {x};
      }
      assert names[..|names|] == names;
    }

    /** First iteration: objects are stored with undefined values, or deleted. */
    method StoreUndefined()
      requires Visits(order)
      modifies this`objCatalogFile, this`objValueFile
      ensures Lists(order(objects.Keys), objects.Keys)
      ensures Stored() == FirstPass(old(Stored()), objects, order(objects.Keys))
    {
      var names := order(objects.Keys);
      assert Lists(names, objects.Keys);
      for i := 0 to |names|
        invariant Stored() == FirstPass(old(Stored()), objects, names[..i])
      {
        var x := names[i];
        var e := objects[x];
        assert names[..i + 1][..i] == names[..i];
        match e.state
        case EntryInsert =>
          if x !in objCatalogFile {
            objCatalogFile := objCatalogFile[x := ObjectRecord(e.typeName, e.typeExpr, false, 0)];
          }
        case EntryUpdate =>
          if x in objCatalogFile {
            var id := objCatalogFile[x].valueRecordId;
            objCatalogFile := objCatalogFile[x := ObjectRecord(e.typeName, e.typeExpr, false, id)];
          }
        case EntryDelete =>
          if x in objCatalogFile {
            objCatalogFile := objCatalogFile - {x};
            if e.valueRecordId != 0 {
              objValueFile := objValueFile - {e.valueRecordId};
            }
          }
      }
      assert names[..|names|] == names;
    }

    /** Second iteration: values are saved, in place or in an appended record whose id the entry then holds. */
    method StoreValues()
      requires Visits(order)
      modifies this`objects, this`objCatalogFile, this`objValueFile
      ensures Lists(order(old(objects).Keys), old(objects).Keys)
      ensures Stored() == SecondPass(old(Stored()), old(objects), order(old(objects).Keys), alloc)
    {
      var names := order(objects.Keys);
      assert Lists(names, objects.Keys);
      for i := 0 to |names|
        invariant Stored() == SecondPass(old(Stored()), old(objects), names[..i], alloc)
        invariant objects.Keys == old(objects).Keys
        invariant forall j :: i <= j < |names| ==> objects[names[j]] == old(objects)[names[j]]
      {
        var x := names[i];
        assert names[..i + 1][..i] == names[..i];
        StoreValue(x);
      }
      assert names[..|names|] == names;
    }

    method StoreValue(x: string)
      requires x in objects
      modifies this`objects, this`objCatalogFile, this`objValueFile
      ensures Stored() == SecondPass1(old(Stored()), x, old(objects)[x], alloc)
      ensures objects.Keys == old(objects).Keys && forall y :: y in objects && y != x ==> objects[y] == old(objects)[y]
    {
      match objects[x].state
      case EntryInsert =>
        if x in objCatalogFile && objects[x].valueDefined {
          objCatalogFile := objCatalogFile[x := objCatalogFile[x].(valueDefined := true)];
          AppendValue(x);
        }
      case EntryUpdate =>
        if x in objCatalogFile {
          objCatalogFile := objCatalogFile[x := objCatalogFile[x].(valueDefined := objects[x].valueDefined)];
          if objects[x].valueDefined {
            if objects[x].valueRecordId == 0 {
              AppendValue(x);
            } else if objects[x].valueRecordId in objValueFile {
              objValueFile := objValueFile[objects[x].valueRecordId := objects[x].value];
            }
          }
        }
      case EntryDelete =>
    }

    method AppendValue(x: string)
      requires x in objects && x in objCatalogFile
      modifies this`objects, this`objCatalogFile, this`objValueFile
      ensures objects == old(objects)[x := old(objects)[x].(valueRecordId := alloc(old(objValueFile).Keys))]
      ensures objCatalogFile
              == old(objCatalogFile)[x := old(objCatalogFile)[x].(valueRecordId := alloc(old(objValueFile).Keys))]
      ensures objValueFile == old(objValueFile)[alloc(old(objValueFile).Keys) := old(objects)[x].value]
    {
      var id := alloc(objValueFile.Keys);
      objects := objects[x := objects[x].(valueRecordId := id)];
      objCatalogFile := objCatalogFile[x := objCatalogFile[x].(valueRecordId := id)];
      objValueFile := objValueFile[id := objects[x].value];
    }

    method CleanUp(revert: bool)
      requires Visits(order)
      modifies this
      ensures State() == if revert then Catalog(map[], map[], old(Stored())) else Commit(old(State()), order, alloc)
    {
      if !revert {
        StoreTypes();
        StoreUndefined();
        StoreValues();
      }
      types := map[];
      objects := map[];
    }
  }

  /** The catalog with the storage manager's transaction: its files as they were at the beginning. */
  class SecondoSystem {
    const catalog: SecondoCatalog
    var saved: Option<Files>

    constructor (catalog: SecondoCatalog)
      ensures this.catalog == catalog && saved == None
    {
      this.catalog, saved := catalog, None;
    }

    function State(): System
      reads this, catalog
    {
      System(catalog.State(), saved)
    }

    method BeginTransaction()
      requires Legal(State(), Begin) && Visits(catalog.order)
      modifies this
      ensures (0, State()) == Step(old(State()), Begin, catalog.order, catalog.alloc)
    {
      saved := Some(catalog.Stored());
    }

    method CommitTransaction()
      requires Legal(State(), CommitTxn) && Visits(catalog.order)
      modifies this, catalog
      ensures (0, State()) == Step(old(State()), CommitTxn, catalog.order, catalog.alloc)
    {
      catalog.CleanUp(false);
      saved := None;
    }

    method AbortTransaction()
      requires Legal(State(), AbortTxn) && Visits(catalog.order)
      modifies this, catalog
      ensures (0, State()) == Step(old(State()), AbortTxn, catalog.order, catalog.alloc)
    {
      catalog.CleanUp(true);
      catalog.typeCatalogFile := saved.value.typeFile;
      catalog.objCatalogFile := saved.value.objFile;
      catalog.objValueFile := saved.value.valueFile;
      saved := None;
    }
  }
}
