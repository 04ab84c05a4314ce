/**
 The catalog of a database: keyed files of stored types, objects and values, under two in-memory
 overlays of pending changes. Values are opaque; opening a stored value undoes saving it.
 */
module CatalogModel {
  import opened Wrappers

  type Value = int

  datatype EntryState = EntryInsert | EntryUpdate | EntryDelete

  datatype TypeEntry = TypeEntry(state: EntryState, expr: string)

  datatype ObjectEntry = ObjectEntry(
    state: EntryState, typeName: string, typeExpr: string, value: Value, valueDefined: bool, valueRecordId: nat)

  /** Record id 0 means that no value record has been assigned. */
  datatype ObjectRecord = ObjectRecord(typeName: string, typeExpr: string, valueDefined: bool, valueRecordId: nat)

  datatype Files = Files(
    typeFile: map<string, string>, objFile: map<string, ObjectRecord>, valueFile: map<nat, Value>)

  datatype Catalog = Catalog(types: map<string, TypeEntry>, objects: map<string, ObjectEntry>, files: Files)

  /** What a user sees of an object. */
  datatype Obj = Obj(typeName: string, typeExpr: string, value: Option<Value>)

  // ---------------------------------------------------------------- views

  function Content(e: ObjectEntry): Obj {
    Obj(e.typeName, e.typeExpr, if e.valueDefined then Some(e.value) else None)
  }

  function StoredObject(files: Files, x: string): Obj
    requires x in files.objFile
  {
    var r := files.objFile[x];
    Obj(r.typeName, r.typeExpr,
        if r.valueDefined then
          if r.valueRecordId in files.valueFile then Some(files.valueFile[r.valueRecordId]) else Some(0)
        else None)
  }

  /** `GetObjectExpr`: the overlay first, then the file. */
  function LookUpObject(c: Catalog, x: string): Option<Obj> {
    if x in c.objects then if c.objects[x].state.EntryDelete? then None else Some(Content(c.objects[x]))
    else if x in c.files.objFile then Some(StoredObject(c.files, x))
    else None
  }

  /** `MemberType` and `GetTypeExpr`. */
  function LookUpType(c: Catalog, x: string): Option<string> {
    if x in c.types then if c.types[x].state.EntryDelete? then None else Some(c.types[x].expr)
    else if x in c.files.typeFile then Some(c.files.typeFile[x])
    else None
  }

  function VisibleObjects(c: Catalog): (m: map<string, Obj>)
    ensures forall x :: x in m <==> LookUpObject(c, x).Some?
    ensures forall x :: x in m ==> m[x] == LookUpObject(c, x).value
  {
    map x | x in c.objects.Keys + c.files.objFile.Keys && LookUpObject(c, x).Some? :: LookUpObject(c, x).value
  }

  function VisibleTypes(c: Catalog): (m: map<string, string>)
    ensures forall x :: x in m <==> LookUpType(c, x).Some?
    ensures forall x :: x in m ==> m[x] == LookUpType(c, x).value
  {
    map x | x in c.types.Keys + c.files.typeFile.Keys && LookUpType(c, x).Some? :: LookUpType(c, x).value
  }

  // ---------------------------------------------------------------- the invariant

  /** Value records exist where they are referred to, and no two objects refer to the same one. */
  ghost predicate SoundFiles(files: Files) {
    && 0 !in files.valueFile
    && (forall x :: x in files.objFile ==> files.objFile[x].valueRecordId in files.valueFile + map[0 := 0])
    && (forall x :: x in files.objFile && files.objFile[x].valueDefined ==> files.objFile[x].valueRecordId != 0)
    && NothingShared(files)
  }

  ghost predicate NothingShared(files: Files) {
    forall x, y :: x in files.objFile && y in files.objFile && x != y && files.objFile[x].valueRecordId != 0 ==>
      files.objFile[x].valueRecordId != files.objFile[y].valueRecordId
  }

  /** An entry for insertion has no stored record; one for update or deletion has one. */
  ghost predicate TypesFit(c: Catalog) {
    forall x :: x in c.types ==> (c.types[x].state.EntryInsert? <==> x !in c.files.typeFile)
  }

  /** Likewise for objects; an entry refers to no value record but its own object's. */
  ghost predicate ObjectsFit(c: Catalog) {
    forall x :: x in c.objects ==>
      var e := c.objects[x];
      && (e.state.EntryInsert? <==> x !in c.files.objFile)
      && (e.valueRecordId == 0 || (x in c.files.objFile && e.valueRecordId == c.files.objFile[x].valueRecordId))
  }

  ghost predicate Inv(c: Catalog) {
    SoundFiles(c.files) && TypesFit(c) && ObjectsFit(c)
  }

  // ---------------------------------------------------------------- types

  function InsertType(c: Catalog, x: string, expr: string): (bool, Catalog) {
    if x in c.types then
      if c.types[x].state.EntryDelete? then (true, c.(types := c.types[x := TypeEntry(EntryUpdate, expr)]))
      else (false, c)
    else if x !in c.files.typeFile then (true, c.(types := c.types[x := TypeEntry(EntryInsert, expr)]))
    else (false, c)
  }

  /** The scan of the overlay, then of all stored objects, hidden ones included. */
  predicate TypeUsedByObject(c: Catalog, t: string) {
    || (exists x :: x in c.objects && !c.objects[x].state.EntryDelete? && c.objects[x].typeName == t)
    || (t != "" && exists x :: x in c.files.objFile && c.files.objFile[x].typeName == t)
  }

  /** 0 is success, 1 a type in use, 2 an unknown type. */
  function DeleteType(c: Catalog, x: string): (int, Catalog) {
    if x in c.types then
      if c.types[x].state.EntryDelete? then (2, c)
      else if TypeUsedByObject(c, x) then (1, c)
      else if c.types[x].state.EntryUpdate? then
        (0, c.(types := c.types[x := c.types[x].(state := EntryDelete)]))
      else (0, c.(types := c.types - {x}))
    else if x in c.files.typeFile then
      if TypeUsedByObject(c, x) then (1, c)
      else (0, c.(types := c.types[x := TypeEntry(EntryDelete, c.files.typeFile[x])]))
    else (2, c)
  }

  // ---------------------------------------------------------------- objects

  function InsertObject(c: Catalog, x: string, typeName: string, typeExpr: string, value: Value,
                        defined: bool): (bool, Catalog) {
    if x in c.objects then
      if c.objects[x].state.EntryDelete? then
        (true, c.(objects := c.objects[x := ObjectEntry(EntryUpdate, typeName, typeExpr, value, defined, 0)]))
      else (false, c)
    else if x !in c.files.objFile then
      (true, c.(objects := c.objects[x := ObjectEntry(EntryInsert, typeName, typeExpr, value, defined, 0)]))
    else (false, c)
  }

  function DeleteObject(c: Catalog, x: string): (bool, Catalog) {
    if x in c.objects then
      if c.objects[x].state.EntryDelete? then (false, c)
      else if c.objects[x].state.EntryInsert? then (true, c.(objects := c.objects - {x}))
      else (true, c.(objects := c.objects[x := c.objects[x].(state := EntryDelete)]))
    else if x in c.files.objFile then
      var o := StoredObject(c.files, x);
      (true, c.(objects := c.objects[x := ObjectEntry(EntryDelete, o.typeName, o.typeExpr,
                                                     if o.value.Some? then o.value.value else 0, o.value.Some?, 0)]))
    else (false, c)
  }

  /** Unlike `DeleteObject`, a stored object is removed from the file at once, with its value. */
  function KillObject(c: Catalog, x: string): (bool, Catalog) {
    if x in c.objects then
      if c.objects[x].state.EntryDelete? then (false, c)
      else if c.objects[x].state.EntryInsert? then (true, c.(objects := c.objects - {x}))
      else (true, c.(objects := c.objects[x := c.objects[x].(state := EntryDelete)]))
    else if x in c.files.objFile then
      var id := c.files.objFile[x].valueRecordId;
      (true, c.(files := c.files.(objFile := c.files.objFile - {x},
                                  valueFile := if id != 0 then c.files.valueFile - {id} else c.files.valueFile)))
    else (false, c)
  }

  function UpdateObject(c: Catalog, x: string, value: Value): (bool, Catalog) {
    if x in c.objects then
      if c.objects[x].state.EntryDelete? then (false, c)
      else (true, c.(objects := c.objects[x := c.objects[x].(value := value, valueDefined := true)]))
    else if x in c.files.objFile then
      var r := c.files.objFile[x];
      (true,
       c.(objects := c.objects[x := ObjectEntry(EntryUpdate, r.typeName, r.typeExpr, value, true, r.valueRecordId)]))
    else (false, c)
  }

  /** Unlike `UpdateObject`, the old value is not opened to be deleted, and a deleted object is not asked for. */
  function ModifyObject(c: Catalog, x: string, value: Value): (bool, Catalog)
    requires x in c.objects ==> !c.objects[x].state.EntryDelete?
  {
    if x in c.objects then
      (true, c.(objects := c.objects[x := c.objects[x].(value := value, valueDefined := true)]))
    else if x in c.files.objFile then
      var r := c.files.objFile[x];
      (true,
       c.(objects := c.objects[x := ObjectEntry(EntryUpdate, r.typeName, r.typeExpr, value, true, r.valueRecordId)]))
    else (false, c)
  }

  // ---------------------------------------------------------------- commit and abort

  /** Chooses the id of an appended value record: one not in use, and never 0. */
  type Allocator = set<nat> -> nat

  ghost predicate Fresh(alloc: Allocator) {
    forall used :: alloc(used) !in used && alloc(used) != 0
  }

  /** The order in which the entries of an overlay are visited. */
  type Order = set<string> -> seq<string>

  ghost predicate Visits(order: Order) {
    forall names :: Lists(order(names), names)
  }

  /** Each name of the set occurs exactly once. */
  ghost predicate Lists(s: seq<string>, names: set<string>) {
    && (forall x :: x in names <==> x in s)
    && (forall i, j :: 0 <= i < j < |s| ==> s[i] != s[j])
  }

  function FlushType(file: map<string, string>, x: string, e: TypeEntry): map<string, string> {
    match e.state
    case EntryInsert => if x in file then file else file[x := e.expr]
    case EntryUpdate => if x in file then file[x := e.expr] else file
    case EntryDelete => file - {x}
  }

  function FlushTypes(file: map<string, string>, types: map<string, TypeEntry>, names: seq<string>): map<string, string>
    requires forall x :: x in names ==> x in types
    decreases |names|
  {
    if names == [] then file
    else
      var last := |names| - 1;
      FlushType(FlushTypes(file, types, names[..last]), names[last], types[names[last]])
  }

  /** First pass over an object: created or updated with an undefined value, or deleted. */
  function FirstPass1(files: Files, x: string, e: ObjectEntry): Files {
    match e.state
    case EntryInsert =>
      if x in files.objFile then files
      else files.(objFile := files.objFile[x := ObjectRecord(e.typeName, e.typeExpr, false, 0)])
    case EntryUpdate =>
      if x !in files.objFile then files
      else
        files.(objFile := files.objFile[x := ObjectRecord(e.typeName, e.typeExpr, false,
                                                          files.objFile[x].valueRecordId)])
    case EntryDelete =>
      if x !in files.objFile then files
      else
        files.(objFile := files.objFile - {x},
               valueFile := if e.valueRecordId != 0 then files.valueFile - {e.valueRecordId} else files.valueFile)
  }

  /** Second pass over an object: its value is saved, in place or in a new record. */
  function SecondPass1(files: Files, x: string, e: ObjectEntry, alloc: Allocator): Files {
    if e.state.EntryDelete? || x !in files.objFile then files
    else if !e.valueDefined then
      if e.state.EntryUpdate? then files.(objFile := files.objFile[x := files.objFile[x].(valueDefined := false)])
      else files
    else if e.valueRecordId == 0 || e.state.EntryInsert? then
      var id := alloc(files.valueFile.Keys);
      files.(objFile := files.objFile[x := files.objFile[x].(valueDefined := true, valueRecordId := id)],
             valueFile := files.valueFile[id := e.value])
    else
      files.(objFile := files.objFile[x := files.objFile[x].(valueDefined := true)],
             valueFile := if e.valueRecordId in files.valueFile then files.valueFile[e.valueRecordId := e.value]
                          else files.valueFile)
  }

  function FirstPass(files: Files, objects: map<string, ObjectEntry>, names: seq<string>): Files
    requires forall x :: x in names ==> x in objects
    decreases |names|
  {
    if names == [] then files
    else
      var last := |names| - 1;
      FirstPass1(FirstPass(files, objects, names[..last]), names[last], objects[names[last]])
  }

  function SecondPass(files: Files, objects: map<string, ObjectEntry>, names: seq<string>, alloc: Allocator): Files
    requires forall x :: x in names ==> x in objects
    decreases |names|
  {
    if names == [] then files
    else
      var last := |names| - 1;
      SecondPass1(SecondPass(files, objects, names[..last], alloc), names[last], objects[names[last]], alloc)
  }

  /** `CleanUp` on commit: types, then both passes over the objects, then empty overlays. */
  function Commit(c: Catalog, order: Order, alloc: Allocator): Catalog
    requires Visits(order)
  {
    var ts, os := order(c.types.Keys), order(c.objects.Keys);
    assert Lists(ts, c.types.Keys) && Lists(os, c.objects.Keys);
    var files := c.files.(typeFile := FlushTypes(c.files.typeFile, c.types, ts));
    Catalog(map[], map[], SecondPass(FirstPass(files, c.objects, os), c.objects, os, alloc))
  }

  /** `CleanUp` on abort drops both overlays; the storage manager restores its files. */
  function Abort(saved: Files): Catalog {
    Catalog(map[], map[], saved)
  }

  // ---------------------------------------------------------------- listings

  /** Stored names that the overlay does not hide, then the pending ones. */
  function ListTypes(c: Catalog, stored: seq<string>, pending: seq<string>): seq<(string, string)>
    requires forall x :: x in stored ==> x in c.files.typeFile
    requires forall x :: x in pending ==> x in c.types
  {
    StoredTypes(c, stored) + PendingTypes(c, pending)
  }

  function StoredTypes(c: Catalog, names: seq<string>): seq<(string, string)>
    requires forall x :: x in names ==> x in c.files.typeFile
  {
    if names == [] then []
    else
      var last := |names| - 1;
      var x := names[last];
      StoredTypes(c, names[..last])
      + if x in c.types && !c.types[x].state.EntryInsert? then [] else [(x, c.files.typeFile[x])]
  }

  function PendingTypes(c: Catalog, names: seq<string>): seq<(string, string)>
    requires forall x :: x in names ==> x in c.types
  {
    if names == [] then []
    else
      var last := |names| - 1;
      var x := names[last];
      PendingTypes(c, names[..last]) + if c.types[x].state.EntryDelete? then [] else [(x, c.types[x].expr)]
  }

  /** Listed objects carry their name, type name and type expression. */
  function ListObjects(c: Catalog, stored: seq<string>, pending: seq<string>): seq<(string, (string, string))>
    requires forall x :: x in stored ==> x in c.files.objFile
    requires forall x :: x in pending ==> x in c.objects
  {
    StoredObjects(c, stored) + PendingObjects(c, pending)
  }

  function StoredObjects(c: Catalog, names: seq<string>): seq<(string, (string, string))>
    requires forall x :: x in names ==> x in c.files.objFile
  {
    if names == [] then []
    else
      var last := |names| - 1;
      var x := names[last];
      StoredObjects(c, names[..last])
      + if x in c.objects && !c.objects[x].state.EntryInsert? then []
        else [(x, (c.files.objFile[x].typeName, c.files.objFile[x].typeExpr))]
  }

  function PendingObjects(c: Catalog, names: seq<string>): seq<(string, (string, string))>
    requires forall x :: x in names ==> x in c.objects
  {
    if names == [] then []
    else
      var last := |names| - 1;
      var x := names[last];
      PendingObjects(c, names[..last])
      + if c.objects[x].state.EntryDelete? then [] else [(x, (c.objects[x].typeName, c.objects[x].typeExpr))]
  }
}
