/**
 The catalog looks like plain maps: every operation has the effect its name says on what is visible
 and keeps the invariant, commit makes the stored maps equal to the visible ones, and over whole
 runs the catalog behaves as two maps with a snapshot to return to.
 */
module CatalogCorrect {
  import opened Wrappers
  import opened CatalogModel

  // ---------------------------------------------------------------- single operations

  /** What is visible changes at `x` only, to `o`. */
  ghost predicate SeesObject(c: Catalog, c': Catalog, x: string, o: Option<Obj>) {
    && VisibleTypes(c') == VisibleTypes(c)
    && VisibleObjects(c') == if o.Some? then VisibleObjects(c)[x := o.value] else VisibleObjects(c) - {x}
  }

  lemma {:induction false} SeesByLookUp(c: Catalog, c': Catalog, x: string, o: Option<Obj>)
    requires c'.types == c.types && c'.files.typeFile == c.files.typeFile
    requires LookUpObject(c', x) == o && forall y :: y != x ==> LookUpObject(c', y) == LookUpObject(c, y)
    ensures SeesObject(c, c', x, o)
  {
    var m, m' := VisibleObjects(c), VisibleObjects(c');
    forall y ensures y in VisibleTypes(c') <==> y in VisibleTypes(c)
             ensures y in VisibleTypes(c) ==> VisibleTypes(c')[y] == VisibleTypes(c)[y]
    {
      assert LookUpType(c', y) == LookUpType(c, y);
    }
    hide LookUpObject, LookUpType;
    assert VisibleTypes(c') == VisibleTypes(c);
    if o.Some? {
      assert m' == m[x := o.value];
    } else {
      assert m' == m - {x};
    }
  }

  /** A change of one fitting entry of the overlay keeps the invariant. */
  lemma {:induction false} EntryKeepsInv(c: Catalog, c': Catalog, x: string)
    requires Inv(c) && c'.types == c.types && c'.files == c.files
    requires c'.objects == c.objects - {x} || (x in c'.objects && c'.objects == c.objects[x := c'.objects[x]])
    requires x in c'.objects ==>
      && (c'.objects[x].state.EntryInsert? <==> x !in c.files.objFile)
      && (c'.objects[x].valueRecordId == 0
          || (x in c.files.objFile && c'.objects[x].valueRecordId == c.files.objFile[x].valueRecordId))
    ensures Inv(c')
  {
    hide SoundFiles;
  }

  lemma {:induction false} InsertObjectSees(c: Catalog, x: string, typeName: string, typeExpr: string, value: Value,
                                            defined: bool)
    requires Inv(c)
    ensures var (ok, c') := InsertObject(c, x, typeName, typeExpr, value, defined);
      && Inv(c') && (ok <==> x !in VisibleObjects(c))
      && (ok ==> SeesObject(c, c', x, Some(Obj(typeName, typeExpr, if defined then Some(value) else None))))
      && (!ok ==> c' == c)
  {
    var (ok, c') := InsertObject(c, x, typeName, typeExpr, value, defined);
    if ok {
      EntryKeepsInv(c, c', x);
      hide Inv;
      SeesByLookUp(c, c', x, Some(Obj(typeName, typeExpr, if defined then Some(value) else None)));
    }
  }

  lemma {:induction false} DeleteObjectSees(c: Catalog, x: string)
    requires Inv(c)
    ensures var (ok, c') := DeleteObject(c, x);
      && Inv(c') && (ok <==> x in VisibleObjects(c)) && (ok ==> SeesObject(c, c', x, None)) && (!ok ==> c' == c)
  {
    var (ok, c') := DeleteObject(c, x);
    if ok {
      EntryKeepsInv(c, c', x);
      hide Inv;
      SeesByLookUp(c, c', x, None);
    }
  }

  /** Killing a stored object goes straight to the files, and no other object notices. */
  lemma {:induction false} KillObjectSees(c: Catalog, x: string)
    requires Inv(c)
    ensures var (ok, c') := KillObject(c, x);
      && Inv(c') && (ok <==> x in VisibleObjects(c)) && (ok ==> SeesObject(c, c', x, None)) && (!ok ==> c' == c)
  {
    var (ok, c') := KillObject(c, x);
    if ok {
      if x !in c.objects {
        KilledFromFiles(c.files, c'.files, x);
        assert Inv(c');
      } else {
        EntryKeepsInv(c, c', x);
      }
      hide Inv, SoundFiles;
      SeesByLookUp(c, c', x, None);
    }
  }

  lemma {:induction false} KilledFromFiles(files: Files, files': Files, x: string)
    requires SoundFiles(files) && x in files.objFile
    requires var id := files.objFile[x].valueRecordId;
      files' == files.(objFile := files.objFile - {x},
                       valueFile := if id != 0 then files.valueFile - {id} else files.valueFile)
    ensures SoundFiles(files') && forall y :: y in files'.objFile ==> StoredObject(files', y) == StoredObject(files, y)
  {}

  lemma {:induction false} UpdateObjectSees(c: Catalog, x: string, value: Value)
    requires Inv(c)
    ensures var (ok, c') := UpdateObject(c, x, value);
      && Inv(c') && (ok <==> x in VisibleObjects(c)) && (!ok ==> c' == c)
      && (ok ==> SeesObject(c, c', x, Some(VisibleObjects(c)[x].(value := Some(value)))))
  {
    var (ok, c') := UpdateObject(c, x, value);
    if ok {
      EntryKeepsInv(c, c', x);
      hide Inv;
      SeesByLookUp(c, c', x, Some(VisibleObjects(c)[x].(value := Some(value))));
    }
  }

  lemma {:induction false} ModifyObjectSees(c: Catalog, x: string, value: Value)
    requires Inv(c) && (x in c.objects ==> !c.objects[x].state.EntryDelete?)
    ensures var (ok, c') := ModifyObject(c, x, value);
      && Inv(c') && (ok <==> x in VisibleObjects(c)) && (!ok ==> c' == c)
      && (ok ==> SeesObject(c, c', x, Some(VisibleObjects(c)[x].(value := Some(value)))))
  {
    var (ok, c') := ModifyObject(c, x, value);
    if ok {
      EntryKeepsInv(c, c', x);
      hide Inv;
      SeesByLookUp(c, c', x, Some(VisibleObjects(c)[x].(value := Some(value))));
    }
  }

  ghost predicate SeesType(c: Catalog, c': Catalog, x: string, expr: Option<string>) {
    && VisibleObjects(c') == VisibleObjects(c)
    && VisibleTypes(c') == if expr.Some? then VisibleTypes(c)[x := expr.value] else VisibleTypes(c) - {x}
  }

  lemma {:induction false} SeesTypeByLookUp(c: Catalog, c': Catalog, x: string, expr: Option<string>)
    requires c'.objects == c.objects && c'.files == c.files
    requires LookUpType(c', x) == expr && forall y :: y != x ==> LookUpType(c', y) == LookUpType(c, y)
    ensures SeesType(c, c', x, expr)
  {
    forall y ensures LookUpObject(c', y) == LookUpObject(c, y) {}
    assert VisibleObjects(c') == VisibleObjects(c);
    if expr.Some? {
      assert VisibleTypes(c') == VisibleTypes(c)[x := expr.value];
    } else {
      assert VisibleTypes(c') == VisibleTypes(c) - {x};
    }
  }

  lemma {:induction false} InsertTypeSees(c: Catalog, x: string, expr: string)
    requires Inv(c)
    ensures var (ok, c') := InsertType(c, x, expr);
      && Inv(c') && (ok <==> x !in VisibleTypes(c)) && (ok ==> SeesType(c, c', x, Some(expr))) && (!ok ==> c' == c)
  {
    var (ok, c') := InsertType(c, x, expr);
    if ok { SeesTypeByLookUp(c, c', x, Some(expr)); }
  }

  /** Some visible object carries the type name. */
  ghost predicate UsedVisibly(c: Catalog, t: string) {
    exists x :: x in VisibleObjects(c) && VisibleObjects(c)[x].typeName == t
  }

  /** A stored object that this transaction deleted or changed still carries the type name. */
  ghost predicate UsedHidden(c: Catalog, t: string) {
    exists x :: x in c.objects && x in c.files.objFile && c.files.objFile[x].typeName == t
  }

  /**
   The two scans find a type in use exactly when a visible object carries its name or a hidden stored
   one does.
   */
  lemma {:induction false} TypeUsedExactly(c: Catalog, t: string)
    requires Inv(c) && t != ""
    ensures TypeUsedByObject(c, t) <==> UsedVisibly(c, t) || UsedHidden(c, t)
  {
    if TypeUsedByObject(c, t) && !UsedHidden(c, t) {
      if x :| x in c.objects && !c.objects[x].state.EntryDelete? && c.objects[x].typeName == t {
        assert LookUpObject(c, x) == Some(Content(c.objects[x]));
        assert x in VisibleObjects(c) && VisibleObjects(c)[x].typeName == t;
      } else {
        var x :| x in c.files.objFile && c.files.objFile[x].typeName == t;
        assert x !in c.objects;
        assert LookUpObject(c, x) == Some(StoredObject(c.files, x));
        assert x in VisibleObjects(c) && VisibleObjects(c)[x].typeName == t;
      }
    }
    if UsedVisibly(c, t) {
      var x :| x in VisibleObjects(c) && VisibleObjects(c)[x].typeName == t;
      if x in c.objects {
        assert !c.objects[x].state.EntryDelete? && c.objects[x].typeName == t;
      } else {
        assert x in c.files.objFile && c.files.objFile[x].typeName == t;
      }
    }
  }

  /**
   Deleting a type never leaves a visible object with its name. It is refused exactly when a visible
   object, or a stored one hidden by this transaction, carries the name. (The empty name stands for
   the lack of one.)
   */
  lemma {:induction false} DeleteTypeSees(c: Catalog, x: string)
    requires Inv(c)
    ensures var (rc, c') := DeleteType(c, x);
      && Inv(c') && (rc == 2 <==> x !in VisibleTypes(c)) && rc in {0, 1, 2}
      && (rc == 0 ==> SeesType(c, c', x, None)) && (rc != 0 ==> c' == c)
      && (x != "" && rc == 0 ==> !UsedVisibly(c', x))
      && (x != "" ==> (rc == 1 <==> x in VisibleTypes(c) && (UsedVisibly(c, x) || UsedHidden(c, x))))
  {
    if x != "" { TypeUsedExactly(c, x); }
    var (rc, c') := DeleteType(c, x);
    if rc == 0 { SeesTypeByLookUp(c, c', x, None); }
  }

  // ---------------------------------------------------------------- commit: types

  lemma {:induction false} PrefixLists(s: seq<string>, names: set<string>)
    requires Lists(s, names) && s != []
    ensures Lists(s[..|s| - 1], names - {s[|s| - 1]})
  {
    var p, last := s[..|s| - 1], s[|s| - 1];
    forall x ensures x in names - {last} <==> x in p {
      if x in names && x != last {
        var i :| 0 <= i < |s| && s[i] == x;
        assert p[i] == x;
      }
      if x in p {
        var i :| 0 <= i < |p| && p[i] == x;
        assert s[i] == x;
      }
    }
  }

  lemma {:induction false} FlushedTypes(file: map<string, string>, types: map<string, TypeEntry>, s: seq<string>,
                                        names: set<string>)
    requires Lists(s, names) && names <= types.Keys
    requires forall x :: x in types ==> (types[x].state.EntryInsert? <==> x !in file)
    ensures var file' := FlushTypes(file, types, s);
      forall x :: (if x in names then if types[x].state.EntryDelete? then None else Some(types[x].expr)
                   else if x in file then Some(file[x]) else None)
                  == if x in file' then Some(file'[x]) else None
    decreases |s|
  {
    if s != [] {
      var last := s[|s| - 1];
      PrefixLists(s, names);
      FlushedTypes(file, types, s[..|s| - 1], names - {last});
    } else {
      assert names == {};
    }
  }

  // ---------------------------------------------------------------- commit: the first pass

  /** The first pass has dealt with the names in `done` and left the others alone. */
  ghost predicate AfterFirst(c: Catalog, files: Files, done: set<string>) {
    && SoundExceptValues(files)
    && (forall x :: x !in done ==> SameRecord(c.files, files, x))
    && (forall x :: x in done && x in c.objects ==>
          Touched(c, files, x))
  }

  /** A deleted object is gone, any other is stored without a value under its old value record. */
  ghost predicate Touched(c: Catalog, files: Files, x: string)
    requires x in c.objects
  {
    var e := c.objects[x];
    if e.state.EntryDelete? then x !in files.objFile
    else x in files.objFile && files.objFile[x] == ObjectRecord(e.typeName, e.typeExpr, false, OldRecord(c, x))
  }

  function OldRecord(c: Catalog, x: string): nat {
    if x in c.files.objFile then c.files.objFile[x].valueRecordId else 0
  }

  /** Reference counting without the demand that defined objects have a value record. */
  ghost predicate SoundExceptValues(files: Files) {
    && 0 !in files.valueFile && NothingShared(files)
    && (forall x :: x in files.objFile && files.objFile[x].valueRecordId != 0 ==>
          files.objFile[x].valueRecordId in files.valueFile)
  }

  /** An object's record and its value record are the same in both files. */
  ghost predicate SameRecord(files: Files, files': Files, x: string) {
    && (x in files.objFile <==> x in files'.objFile)
    && (x in files.objFile ==>
          var id := files.objFile[x].valueRecordId;
          && files'.objFile[x] == files.objFile[x]
          && (id in files.valueFile <==> id in files'.valueFile)
          && (id in files.valueFile ==> files'.valueFile[id] == files.valueFile[id]))
  }

  lemma {:induction false} FirstPassKeeps(files: Files, x: string, e: ObjectEntry)
    requires SoundExceptValues(files)
    requires e.state.EntryDelete? ==>
      x in files.objFile && (e.valueRecordId == 0 || e.valueRecordId == files.objFile[x].valueRecordId)
    requires e.state.EntryInsert? <==> x !in files.objFile
    ensures SoundExceptValues(FirstPass1(files, x, e))
    ensures forall y :: y != x ==> SameRecord(files, FirstPass1(files, x, e), y)
  {}

  lemma {:induction false} FirstPassStep(c: Catalog, files: Files, done: set<string>, x: string)
    requires Inv(c) && AfterFirst(c, files, done) && x in c.objects && x !in done
    ensures AfterFirst(c, FirstPass1(files, x, c.objects[x]), done + {x})
    ensures FirstPass1(files, x, c.objects[x]).typeFile == files.typeFile
  {
    var e := c.objects[x];
    var files' := FirstPass1(files, x, e);
    assert SameRecord(c.files, files, x);
    assert Touched(c, files', x);
    FirstPassKeeps(files, x, e);
    hide Inv, SoundExceptValues, FirstPass1;
    forall y | y !in done + {x} ensures SameRecord(c.files, files', y) {
      SameRecordTwice(c.files, files, files', y);
    }
    forall y | y in done + {x} && y in c.objects ensures Touched(c, files', y) {
      if y != x { assert Touched(c, files, y) && SameRecord(files, files', y); }
    }
  }

  lemma {:induction false} SameRecordTwice(files: Files, files1: Files, files2: Files, x: string)
    requires SameRecord(files, files1, x) && SameRecord(files1, files2, x)
    ensures SameRecord(files, files2, x)
  {}

  lemma {:induction false} BeforeFirst(c: Catalog, files: Files)
    requires Inv(c) && files.objFile == c.files.objFile && files.valueFile == c.files.valueFile
    ensures AfterFirst(c, files, {})
  {}

  lemma {:induction false} FirstPassCorrect(c: Catalog, files: Files, s: seq<string>, names: set<string>)
    requires Inv(c) && Lists(s, names) && names <= c.objects.Keys
    requires files.objFile == c.files.objFile && files.valueFile == c.files.valueFile
    ensures AfterFirst(c, FirstPass(files, c.objects, s), names)
    ensures FirstPass(files, c.objects, s).typeFile == files.typeFile
    decreases |s|
  {
    hide AfterFirst, Inv, FirstPass1;
    if s != [] {
      var last := s[|s| - 1];
      PrefixLists(s, names);
      hide Lists;
      FirstPassCorrect(c, files, s[..|s| - 1], names - {last});
      FirstPassStep(c, FirstPass(files, c.objects, s[..|s| - 1]), names - {last}, last);
      assert names - {last} + {last} == names;
    } else {
      assert names == {};
      BeforeFirst(c, files);
    }
  }

  // ---------------------------------------------------------------- commit: the second pass

  /**
   Between two objects of the second pass: the stored names are the visible names; processed objects
   have their final value, touched but unprocessed ones are stored as undefined, untouched ones are
   as before; and no value record is shared.
   */
  ghost predicate BetweenObjects(c: Catalog, files: Files, done: set<string>) {
    && SoundFiles(files)
    && files.objFile.Keys == VisibleObjects(c).Keys
    && forall x :: ObjectBetween(c, files, done, x)
  }

  ghost predicate ObjectBetween(c: Catalog, files: Files, done: set<string>, x: string) {
    if x !in c.objects then SameRecord(c.files, files, x)
    else !c.objects[x].state.EntryDelete? ==> x in files.objFile && Processed(c, files, x, x in done)
  }

  /** The final value, or none yet. */
  ghost predicate Processed(c: Catalog, files: Files, x: string, done: bool)
    requires x in c.objects && x in files.objFile
  {
    if done then StoredObject(files, x) == Content(c.objects[x])
    else
      && StoredObject(files, x) == Content(c.objects[x]).(value := None)
      && files.objFile[x].valueRecordId == OldRecord(c, x)
  }

  lemma {:induction false} FirstPassDone(c: Catalog, files: Files)
    requires Inv(c) && AfterFirst(c, files, c.objects.Keys)
    ensures BetweenObjects(c, files, {})
  {
    forall x ensures x in files.objFile <==> x in VisibleObjects(c) {
      if x !in c.objects { assert SameRecord(c.files, files, x); }
    }
    forall x | x in files.objFile && files.objFile[x].valueDefined ensures files.objFile[x].valueRecordId != 0 {
      if x !in c.objects { assert SameRecord(c.files, files, x); }
    }
    forall x ensures ObjectBetween(c, files, {}, x) {
      if x in c.objects { assert Touched(c, files, x); }
    }
  }

  /** The record a pending object ends up with. */
  lemma {:induction false} SavedRecord(c: Catalog, files: Files, x: string, alloc: Allocator)
    requires ObjectsFit(c) && SoundFiles(files) && Fresh(alloc) && x in c.objects && x in files.objFile
    requires !c.objects[x].state.EntryDelete? && Processed(c, files, x, false)
    ensures var files', e := SecondPass1(files, x, c.objects[x], alloc), c.objects[x];
      && files'.objFile.Keys == files.objFile.Keys && Processed(c, files', x, true)
      && (forall y :: y in files.objFile && y != x ==> files'.objFile[y] == files.objFile[y])
      && var id := files'.objFile[x].valueRecordId;
         if e.valueDefined then
           && id != 0 && id in files'.valueFile && (id == files.objFile[x].valueRecordId || id !in files.valueFile)
           && files'.valueFile == files.valueFile[id := files'.valueFile[id]]
         else
           && files'.valueFile == files.valueFile && id == files.objFile[x].valueRecordId
             && !files'.objFile[x].valueDefined
  {
    hide NothingShared;
    var files', e := SecondPass1(files, x, c.objects[x], alloc), c.objects[x];
    assert !files.objFile[x].valueDefined;
    if e.valueDefined {
      var id := files'.objFile[x].valueRecordId;
      assert id != 0 && id in files'.valueFile && files'.valueFile[id] == e.value;
      assert files'.valueFile == files.valueFile[id := files'.valueFile[id]];
    }
  }

  /** What the second pass does to one pending object. */
  lemma {:induction false} SavedObject(c: Catalog, files: Files, done: set<string>, x: string, alloc: Allocator)
    requires Inv(c) && BetweenObjects(c, files, done) && x in c.objects && x !in done && Fresh(alloc)
    requires !c.objects[x].state.EntryDelete?
    ensures x in files.objFile
    ensures var files' := SecondPass1(files, x, c.objects[x], alloc);
      && files'.objFile.Keys == files.objFile.Keys && Processed(c, files', x, true)
      && SoundFiles(files') && forall y :: y != x ==> SameRecord(files, files', y)
  {
    assert ObjectBetween(c, files, done, x);
    assert Processed(c, files, x, false) && SoundFiles(files);
    hide ObjectBetween, BetweenObjects, SoundFiles, SecondPass1, SameRecord, Processed, Fresh, ObjectsFit, TypesFit;
    var files' := SecondPass1(files, x, c.objects[x], alloc);
    SavedRecord(c, files, x, alloc);
    OthersKept(files, files', x, if c.objects[x].valueDefined then files'.objFile[x].valueRecordId else 0);
  }

  lemma {:induction false} StillBetween(c: Catalog, files: Files, files': Files, done: set<string>, x: string,
                                        y: string)
    requires ObjectBetween(c, files, done, y) && SameRecord(files, files', y) && y != x
    ensures ObjectBetween(c, files', done + {x}, y)
  {
    if y !in c.objects { SameRecordTwice(c.files, files, files', y); }
  }

  lemma {:induction false} SecondPassStep(c: Catalog, files: Files, done: set<string>, x: string, alloc: Allocator)
    requires Inv(c) && BetweenObjects(c, files, done) && x in c.objects && x !in done && Fresh(alloc)
    ensures BetweenObjects(c, SecondPass1(files, x, c.objects[x], alloc), done + {x})
  {
    var files' := SecondPass1(files, x, c.objects[x], alloc);
    if c.objects[x].state.EntryDelete? {
      assert files' == files;
      hide SecondPass1, SoundFiles, Inv, SameRecord, Processed;
      forall y ensures ObjectBetween(c, files', done + {x}, y) {
        assert ObjectBetween(c, files, done, y);
      }
    } else {
      hide SecondPass1, SoundFiles, Inv, SameRecord, Processed;
      SavedObject(c, files, done, x, alloc);
      forall y ensures ObjectBetween(c, files', done + {x}, y) {
        if y != x {
          hide ObjectBetween;
          assert SameRecord(files, files', y) && ObjectBetween(c, files, done, y);
          StillBetween(c, files, files', done, x, y);
        }
      }
    }
  }

  /** Saving one object writes a value record no other object refers to. */
  lemma {:induction false} OthersKept(files: Files, files': Files, x: string, id: nat)
    requires SoundFiles(files) && x in files.objFile && files'.objFile.Keys == files.objFile.Keys
    requires forall y :: y in files.objFile && y != x ==> files'.objFile[y] == files.objFile[y]
    requires id == 0 ==>
      files'.valueFile == files.valueFile && files'.objFile[x].valueRecordId == files.objFile[x].valueRecordId
                         && !files'.objFile[x].valueDefined
    requires id != 0 ==>
      && files'.objFile[x].valueRecordId == id && id in files'.valueFile
      && (id == files.objFile[x].valueRecordId || id !in files.valueFile)
      && files'.valueFile == files.valueFile[id := files'.valueFile[id]]
    ensures SoundFiles(files') && forall y :: y != x ==> SameRecord(files, files', y)
  {
    forall y | y in files.objFile && y != x && id != 0 ensures files.objFile[y].valueRecordId != id {}
    forall y | y != x ensures SameRecord(files, files', y) {
      if y in files.objFile { assert files'.objFile[y] == files.objFile[y]; }
    }
  }

  lemma {:induction false} SecondPassCorrect(c: Catalog, files: Files, s: seq<string>, names: set<string>,
                                             alloc: Allocator)
    requires Inv(c) && Lists(s, names) && names <= c.objects.Keys && Fresh(alloc)
    requires BetweenObjects(c, files, {})
    ensures BetweenObjects(c, SecondPass(files, c.objects, s, alloc), names)
    ensures SecondPass(files, c.objects, s, alloc).typeFile == files.typeFile
    decreases |s|
  {
    if s != [] {
      hide BetweenObjects, Inv, SecondPass1, Fresh;
      var last := s[|s| - 1];
      PrefixLists(s, names);
      hide Lists;
      SecondPassCorrect(c, files, s[..|s| - 1], names - {last}, alloc);
      SecondPassStep(c, SecondPass(files, c.objects, s[..|s| - 1], alloc), names - {last}, last, alloc);
      assert names - {last} + {last} == names;
    } else {
      assert names == {};
    }
  }

  /**
   Once the first pass is done the catalog is safe after every object of the second: the state after
   the k-th object is as `BetweenObjects` says for the first k names.
   */
  lemma {:induction false} TwoPassCommitIsSafe(c: Catalog, order: Order, alloc: Allocator, k: nat)
    requires Inv(c) && Visits(order) && Fresh(alloc) && k <= |order(c.objects.Keys)|
    ensures var s := order(c.objects.Keys);
      (forall x :: x in s ==> x in c.objects) &&
      BetweenObjects(c, SecondPass(FirstPass(c.files, c.objects, s), c.objects, s[..k], alloc), set x | x in s[..k])
  {
    var s := order(c.objects.Keys);
    assert Lists(s, c.objects.Keys);
    FirstPassCorrect(c, c.files, s, c.objects.Keys);
    var files := FirstPass(c.files, c.objects, s);
    FirstPassDone(c, files);
    var names := set x | x in s[..k];
    assert Lists(s[..k], names);
    SecondPassCorrect(c, files, s[..k], names, alloc);
  }

  lemma {:induction false} CommitFiles(c: Catalog, order: Order, alloc: Allocator)
    requires Inv(c) && Visits(order) && Fresh(alloc)
    ensures BetweenObjects(c, Commit(c, order, alloc).files, c.objects.Keys)
  {
    var ts, os := order(c.types.Keys), order(c.objects.Keys);
    assert Lists(ts, c.types.Keys) && Lists(os, c.objects.Keys);
    var files := c.files.(typeFile := FlushTypes(c.files.typeFile, c.types, ts));
    FirstPassCorrect(c, files, os, c.objects.Keys);
    var files1 := FirstPass(files, c.objects, os);
    FirstPassDone(c, files1);
    SecondPassCorrect(c, files1, os, c.objects.Keys, alloc);
  }

  lemma {:induction false} CommitTypes(c: Catalog, order: Order, alloc: Allocator)
    requires Inv(c) && Visits(order) && Fresh(alloc)
    ensures var c' := Commit(c, order, alloc);
      forall x :: LookUpType(c, x) == if x in c'.files.typeFile then Some(c'.files.typeFile[x]) else None
  {
    var ts, os := order(c.types.Keys), order(c.objects.Keys);
    assert Lists(ts, c.types.Keys) && Lists(os, c.objects.Keys);
    FlushedTypes(c.files.typeFile, c.types, ts, c.types.Keys);
    var files := c.files.(typeFile := FlushTypes(c.files.typeFile, c.types, ts));
    FirstPassCorrect(c, files, os, c.objects.Keys);
    FirstPassDone(c, FirstPass(files, c.objects, os));
    SecondPassCorrect(c, FirstPass(files, c.objects, os), os, c.objects.Keys, alloc);
  }

  lemma {:induction false} StoredEqualsVisible(c: Catalog, files: Files)
    requires BetweenObjects(c, files, c.objects.Keys)
    ensures forall x :: LookUpObject(c, x) == if x in files.objFile then Some(StoredObject(files, x)) else None
  {
    forall x ensures LookUpObject(c, x) == if x in files.objFile then Some(StoredObject(files, x)) else None {
      assert ObjectBetween(c, files, c.objects.Keys, x);
      if x in c.objects {
        if !c.objects[x].state.EntryDelete? { assert Processed(c, files, x, true); }
      } else {
        assert SameRecord(c.files, files, x);
      }
    }
  }

  /** With empty overlays, what is visible is what is stored. */
  lemma {:induction false} OnlyStored(c: Catalog, c': Catalog)
    requires c'.types == map[] && c'.objects == map[]
    requires forall x :: LookUpType(c, x) == if x in c'.files.typeFile then Some(c'.files.typeFile[x]) else None
    requires forall x :: LookUpObject(c, x) == if x in c'.files.objFile then Some(StoredObject(c'.files, x)) else None
    ensures c'.files.typeFile == VisibleTypes(c)
    ensures VisibleTypes(c') == VisibleTypes(c) && VisibleObjects(c') == VisibleObjects(c)
    ensures forall x :: x in VisibleObjects(c) ==>
      x in c'.files.objFile && StoredObject(c'.files, x) == VisibleObjects(c)[x]
  {
    forall x ensures LookUpType(c', x) == LookUpType(c, x) && LookUpObject(c', x) == LookUpObject(c, x) {}
    hide LookUpType, LookUpObject, StoredObject;
    assert VisibleTypes(c') == VisibleTypes(c);
    assert VisibleObjects(c') == VisibleObjects(c);
  }

  /** Commit changes nothing that is visible, stores all of it, and empties the overlays. */
  lemma {:induction false} CommitStoresVisible(c: Catalog, order: Order, alloc: Allocator)
    requires Inv(c) && Visits(order) && Fresh(alloc)
    ensures var c' := Commit(c, order, alloc);
      && Inv(c') && c'.types == map[] && c'.objects == map[]
      && c'.files.typeFile == VisibleTypes(c)
      && VisibleTypes(c') == VisibleTypes(c) && VisibleObjects(c') == VisibleObjects(c)
      && (forall x :: x in VisibleObjects(c) ==>
            x in c'.files.objFile && StoredObject(c'.files, x) == VisibleObjects(c)[x])
  {
    var c' := Commit(c, order, alloc);
    assert c'.types == map[] && c'.objects == map[];
    hide Commit, SoundFiles, Visits, Fresh, SameRecord, Processed, LookUpType, LookUpObject, StoredObject;
    CommitFiles(c, order, alloc);
    assert SoundFiles(c'.files);
    hide BetweenObjects;
    CommitTypes(c, order, alloc);
    StoredEqualsVisible(c, c'.files);
    OnlyStored(c, c');
  }

  // ---------------------------------------------------------------- whole runs

  datatype Command =
    | Begin | CommitTxn | AbortTxn
    | InsType(x: string, expr: string)
    | DelType(x: string)
    | Insert(x: string, typeName: string, typeExpr: string, value: Value, defined: bool)
    | Create(x: string, typeName: string, typeExpr: string)
    | Update(x: string, value: Value)
    | Modify(x: string, value: Value)
    | Delete(x: string)
    | Kill(x: string)

  /** The catalog and, inside a transaction, the files the storage manager can return to. */
  datatype System = System(cat: Catalog, saved: Option<Files>)

  /** A transaction is begun outside of one and ended inside; everything else happens inside. */
  predicate Legal(sys: System, cmd: Command) {
    match cmd
    case Begin => sys.saved.None?
    case Modify(x, _) => sys.saved.Some? && (x in sys.cat.objects ==> !sys.cat.objects[x].state.EntryDelete?)
    case _ => sys.saved.Some?
  }

  /** One command; results are 0 for success. */
  function Step(sys: System, cmd: Command, order: Order, alloc: Allocator): (int, System)
    requires Legal(sys, cmd) && Visits(order)
  {
    var c := sys.cat;
    match cmd
    case Begin => (0, sys.(saved := Some(c.files)))
    case CommitTxn => (0, System(Commit(c, order, alloc), None))
    case AbortTxn => (0, System(Abort(sys.saved.value), None))
    case InsType(x, expr) => Result(sys, InsertType(c, x, expr))
    case DelType(x) => var (rc, c') := DeleteType(c, x); (rc, sys.(cat := c'))
    case Insert(x, tn, te, v, def) => Result(sys, InsertObject(c, x, tn, te, v, def))
    case Create(x, tn, te) => Result(sys, InsertObject(c, x, tn, te, 0, false))
    case Update(x, v) => Result(sys, UpdateObject(c, x, v))
    case Modify(x, v) => Result(sys, ModifyObject(c, x, v))
    case Delete(x) => Result(sys, DeleteObject(c, x))
    case Kill(x) => Result(sys, KillObject(c, x))
  }

  function Result(sys: System, r: (bool, Catalog)): (int, System) {
    (if r.0 then 0 else 1, sys.(cat := r.1))
  }

  /** The specification: two plain maps, and a copy of them taken when a transaction begins. */
  datatype Maps = Maps(types: map<string, string>, objects: map<string, Obj>)
  datatype Spec = Spec(now: Maps, saved: Option<Maps>)

  function See(c: Catalog): Maps {
    Maps(VisibleTypes(c), VisibleObjects(c))
  }

  function Abstract(sys: System): Spec {
    Spec(See(sys.cat), if sys.saved.None? then None else Some(See(Catalog(map[], map[], sys.saved.value))))
  }

  function PutObject(sp: Spec, x: string, o: Obj): Spec {
    sp.(now := sp.now.(objects := sp.now.objects[x := o]))
  }

  function DropObject(sp: Spec, x: string): Spec {
    sp.(now := sp.now.(objects := sp.now.objects - {x}))
  }

  /** What each command may do to the maps; only the deletion of a type may be refused without need. */
  ghost predicate Allowed(sp: Spec, cmd: Command, rc: int, sp': Spec) {
    var types, objects := sp.now.types, sp.now.objects;
    match cmd
    case Begin => rc == 0 && sp' == sp.(saved := Some(sp.now))
    case CommitTxn => rc == 0 && sp' == Spec(sp.now, None)
    case AbortTxn => rc == 0 && sp.saved.Some? && sp' == Spec(sp.saved.value, None)
    case InsType(x, expr) =>
      if x in types then rc != 0 && sp' == sp else rc == 0 && sp' == sp.(now := sp.now.(types := types[x := expr]))
    case DelType(x) =>
      if x !in types then rc == 2 && sp' == sp
      else if rc == 0 then
        && sp' == sp.(now := sp.now.(types := types - {x}))
        && forall y :: y in objects && x != "" ==> objects[y].typeName != x
      else rc == 1 && sp' == sp
    case Insert(x, tn, te, v, def) =>
      if x in objects then rc != 0 && sp' == sp
      else rc == 0 && sp' == PutObject(sp, x, Obj(tn, te, if def then Some(v) else None))
    case Create(x, tn, te) =>
      if x in objects then rc != 0 && sp' == sp else rc == 0 && sp' == PutObject(sp, x, Obj(tn, te, None))
    case Update(x, v) =>
      if x !in objects then rc != 0 && sp' == sp else rc == 0 && sp' == PutObject(sp, x, objects[x].(value := Some(v)))
    case Modify(x, v) =>
      if x !in objects then rc != 0 && sp' == sp else rc == 0 && sp' == PutObject(sp, x, objects[x].(value := Some(v)))
    case Delete(x) => if x !in objects then rc != 0 && sp' == sp else rc == 0 && sp' == DropObject(sp, x)
    case Kill(x) => if x !in objects then rc != 0 && sp' == sp else rc == 0 && sp' == DropObject(sp, x)
  }

  /** Outside a transaction nothing is pending; the saved files are sound. */
  ghost predicate SystemInv(sys: System) {
    && Inv(sys.cat)
    && (sys.saved.None? ==> sys.cat.types == map[] && sys.cat.objects == map[])
    && (sys.saved.Some? ==> SoundFiles(sys.saved.value))
  }

  lemma {:induction false} StepRefines(sys: System, cmd: Command, order: Order, alloc: Allocator)
    requires SystemInv(sys) && Legal(sys, cmd) && Visits(order) && Fresh(alloc)
    ensures var (rc, sys') := Step(sys, cmd, order, alloc);
      SystemInv(sys') && Allowed(Abstract(sys), cmd, rc, Abstract(sys'))
  {
    var c := sys.cat;
    match cmd
    case Begin => assert c == Catalog(map[], map[], c.files);
    case CommitTxn => CommitStoresVisible(c, order, alloc);
    case AbortTxn =>
    case InsType(x, expr) => InsertTypeSees(c, x, expr);
    case DelType(x) => DeleteTypeSees(c, x);
    case Insert(x, tn, te, v, def) => InsertObjectSees(c, x, tn, te, v, def);
    case Create(x, tn, te) => InsertObjectSees(c, x, tn, te, 0, false);
    case Update(x, v) => UpdateObjectSees(c, x, v);
    case Modify(x, v) => ModifyObjectSees(c, x, v);
    case Delete(x) => DeleteObjectSees(c, x);
    case Kill(x) => KillObjectSees(c, x);
  }

  /** A run: the states in between, each reached by the next command. */
  ghost predicate IsRun(states: seq<System>, cmds: seq<Command>, results: seq<int>, order: Order, alloc: Allocator) {
    && Visits(order) && |states| == |cmds| + 1 && |results| == |cmds|
    && forall i :: 0 <= i < |cmds| ==>
      Legal(states[i], cmds[i]) && Step(states[i], cmds[i], order, alloc) == (results[i], states[i + 1])
  }

  /**
   The whole run, seen through the visible maps, is a run of the specification; and no state shares a value
   record.
   */
  lemma {:induction false} RunRefines(states: seq<System>, cmds: seq<Command>, results: seq<int>, order: Order,
                                      alloc: Allocator)
    requires IsRun(states, cmds, results, order, alloc) && Fresh(alloc) && SystemInv(states[0])
    ensures forall i :: 0 <= i < |states| ==> SystemInv(states[i]) && NothingShared(states[i].cat.files)
    ensures forall i :: 0 <= i < |cmds| ==> Allowed(Abstract(states[i]), cmds[i], results[i], Abstract(states[i + 1]))
    decreases |cmds|
  {
    if cmds != [] {
      StepRefines(states[0], cmds[0], order, alloc);
      RunRefines(states[1..], cmds[1..], results[1..], order, alloc);
      forall i | 0 <= i < |states| ensures SystemInv(states[i]) && NothingShared(states[i].cat.files) {
        if i > 0 { assert states[i] == states[1..][i - 1]; }
      }
      forall i | 0 <= i < |cmds| ensures Allowed(Abstract(states[i]), cmds[i], results[i], Abstract(states[i + 1])) {
        if i > 0 {
          assert states[1..][i - 1] == states[i] && states[1..][i] == states[i + 1] && cmds[1..][i - 1] == cmds[i];
        }
      }
    }
  }
}
