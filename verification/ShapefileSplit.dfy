/**
 Dividing a shapefile into pieces for the nodes of a cluster. The main file is a header of 100 bytes
 followed by records, each with its number and its content length in 16-bit words as big-endian
 32-bit integers; the dBASE file holds one row per record. The host is little-endian.
 */
module ShapefileSplit {

  type Byte = b: int | 0 <= b < 256
  type Bytes = seq<Byte>

  const SHP_HEADER_SIZE := 100
  const UINT32 := 0x1_0000_0000

  type Uint32 = n: int | 0 <= n < UINT32

  // ---------------------------------------------------------------- 32-bit words

  /** The byte at a power of 256: shifting right and masking. */
  function ByteAt(n: Uint32, power: int): Byte
    requires power > 0
  {
    (n / power) % 256
  }

  /** The four bytes of a word in the opposite order. */
  function ConvertEndian(n: Uint32): Uint32 {
    Word(ByteAt(n, 1), ByteAt(n, 0x100), ByteAt(n, 0x1_0000), ByteAt(n, 0x100_0000))
  }

  /** The most significant byte comes first. */
  function Word(a: int, b: int, c: int, d: int): int {
    a * 0x100_0000 + b * 0x1_0000 + c * 0x100 + d
  }

  function BigEndian(b: Bytes): Uint32
    requires |b| == 4
  {
    Word(b[0], b[1], b[2], b[3])
  }

  /** What a little-endian host reads from four bytes. */
  function Load(b: Bytes): Uint32
    requires |b| == 4
  {
    Word(b[3], b[2], b[1], b[0])
  }

  /** What a little-endian host writes for a word. */
  function Store(n: Uint32): (b: Bytes)
    ensures |b| == 4
  {
    [ByteAt(n, 1), ByteAt(n, 0x100), ByteAt(n, 0x1_0000), ByteAt(n, 0x100_0000)]
  }

  /** A word is determined by its bytes. */
  lemma {:induction false} BytesOf(n: Uint32, a: Byte, b: Byte, c: Byte, d: Byte)
    requires n == Word(d, c, b, a)
    ensures ByteAt(n, 1) == a && ByteAt(n, 0x100) == b && ByteAt(n, 0x1_0000) == c && ByteAt(n, 0x100_0000) == d
  {
    assert n / 0x100 == b + c * 0x100 + d * 0x1_0000;
    assert n / 0x1_0000 == c + d * 0x100;
    assert n / 0x100_0000 == d;
  }

  lemma {:induction false} SumOfBytes(n: Uint32)
    ensures n == Word(ByteAt(n, 0x100_0000), ByteAt(n, 0x1_0000), ByteAt(n, 0x100), ByteAt(n, 1))
  {
    assert n / 0x1_0000 == (n / 0x100) / 0x100 && n / 0x100_0000 == (n / 0x1_0000) / 0x100;
  }

  /** Swapping a loaded word gives its big-endian value. */
  lemma {:induction false} LoadSwapped(b: Bytes)
    requires |b| == 4
    ensures ConvertEndian(Load(b)) == BigEndian(b)
  {
    hide ByteAt;
    BytesOf(Load(b), b[0], b[1], b[2], b[3]);
  }

  /** A swapped word is stored with its big-endian value. */
  lemma {:induction false} StoreSwapped(n: Uint32)
    ensures BigEndian(Store(ConvertEndian(n))) == n
  {
    hide ByteAt;
    SumOfBytes(n);
    BytesOf(ConvertEndian(n), ByteAt(n, 0x100_0000), ByteAt(n, 0x1_0000), ByteAt(n, 0x100), ByteAt(n, 1));
  }

  // ---------------------------------------------------------------- records

  /** A record as its bytes: number, content length, content. */
  datatype Record = Record(number: Bytes, length: Bytes, content: Bytes)

  function Encode(r: Record): Bytes {
    r.number + r.length + r.content
  }

  function EncodeAll(rs: seq<Record>): Bytes {
    if rs == [] then [] else EncodeAll(rs[..|rs| - 1]) + Encode(rs[|rs| - 1])
  }

  /** The content length in bytes, in 32-bit arithmetic. */
  function ContentLength(length: Bytes): nat
    requires |length| == 4
  {
    (BigEndian(length) * 2) % UINT32
  }

  /** The bytes are whole records. */
  predicate WellFormed(b: Bytes)
    decreases |b|
  {
    b == [] || (|b| >= 8 && 8 + ContentLength(b[4..8]) <= |b| && WellFormed(b[8 + ContentLength(b[4..8])..]))
  }

  function FirstRecord(b: Bytes): Record
    requires b != [] && WellFormed(b)
  {
    Record(b[..4], b[4..8], b[8..8 + ContentLength(b[4..8])])
  }

  function OtherBytes(b: Bytes): (rest: Bytes)
    requires b != [] && WellFormed(b)
    ensures WellFormed(rest) && |rest| < |b|
  {
    b[8 + ContentLength(b[4..8])..]
  }

  function Records(b: Bytes): seq<Record>
    requires WellFormed(b)
    decreases |b|
  {
    if b == [] then [] else [FirstRecord(b)] + Records(OtherBytes(b))
  }

  function Size(rs: seq<Record>): nat {
    if rs == [] then 0 else Size(rs[1..]) + 8 + |rs[0].content|
  }

  lemma {:induction false} SizeSplit(rs: seq<Record>, k: nat)
    requires k <= |rs|
    ensures Size(rs) == Size(rs[..k]) + Size(rs[k..])
  {
    if k > 0 {
      SizeSplit(rs[1..], k - 1);
      assert rs[1..][..k - 1] == rs[..k][1..] && rs[1..][k - 1..] == rs[k..];
    } else {
      assert rs[..0] == [] && rs[0..] == rs;
    }
  }

  lemma {:induction false} SizeOfRecords(b: Bytes)
    requires WellFormed(b)
    ensures Size(Records(b)) == |b|
    decreases |b|
  {
    if b != [] {
      SizeOfRecords(OtherBytes(b));
      assert Records(b)[1..] == Records(OtherBytes(b));
    }
  }

  /** Every piece but the last one to receive records holds more than its share, so the pieces hold everything. */
  lemma {:induction false} SharesCover(total: nat, n: nat)
    requires n > 0
    ensures n * (total / n + 1) > total
  {
    assert total == n * (total / n) + total % n;
    assert n * (total / n + 1) == n * (total / n) + n;
  }

  /** The records numbered afresh, from 1. */
  function Numbered(rs: seq<Record>): seq<Record> {
    seq(|rs|, i requires 0 <= i < |rs| => rs[i].(number := NumberBytes(i + 1)))
  }

  predicate Whole(r: Record) {
    |r.number| == 4 && |r.length| == 4 && |r.content| == ContentLength(r.length)
  }

  lemma {:induction false} RecordInFront(r: Record, rest: Bytes)
    requires Whole(r) && WellFormed(rest)
    ensures WellFormed(Encode(r) + rest) && Records(Encode(r) + rest) == [r] + Records(rest)
  {
    hide ContentLength;
    var b := Encode(r) + rest;
    assert b[..4] == r.number && b[4..8] == r.length && b[8..8 + |r.content|] == r.content
      && b[8 + |r.content|..] == rest;
    assert WellFormed(b) && OtherBytes(b) == rest && FirstRecord(b) == r;
  }

  lemma {:induction false} FrontRecord(b: Bytes)
    requires WellFormed(b) && b != []
    ensures Whole(FirstRecord(b)) && b == Encode(FirstRecord(b)) + OtherBytes(b)
  {
    hide ContentLength;
  }

  lemma {:induction false} JoinStep(r: Record, rest: Bytes, b: Bytes)
    requires Whole(r) && WellFormed(rest) && WellFormed(rest + b)
    ensures WellFormed(Encode(r) + rest + b) && Records(Encode(r) + rest + b) == [r] + Records(rest + b)
    ensures Records(Encode(r) + rest) == [r] + Records(rest)
  {
    hide *;
    RecordInFront(r, rest);
    RecordInFront(r, rest + b);
    assert Encode(r) + (rest + b) == Encode(r) + rest + b;
  }

  lemma {:induction false} RecordsJoin(a: Bytes, b: Bytes)
    requires WellFormed(a) && WellFormed(b)
    ensures WellFormed(a + b) && Records(a + b) == Records(a) + Records(b)
    decreases |a|
  {
    hide *;
    if a == [] {
      NoRecords();
      assert a + b == b;
    } else {
      var r, rest := FirstRecord(a), OtherBytes(a);
      FrontRecord(a);
      RecordsJoin(rest, b);
      JoinStep(r, rest, b);
      assert Records(a + b) == [r] + (Records(rest) + Records(b));
    }
  }

  lemma {:induction false} RecordsAreWhole(b: Bytes)
    requires WellFormed(b)
    ensures forall r :: r in Records(b) ==> Whole(r)
    decreases |b|
  {
    if b != [] {
      FrontRecord(b);
      hide WellFormed, Encode, FirstRecord, Whole;
      RecordsAreWhole(OtherBytes(b));
    }
  }

  /** Reading back what was written gives the records again. */
  lemma {:induction false} ReadBack(rs: seq<Record>)
    requires forall r :: r in rs ==> Whole(r)
    ensures WellFormed(EncodeAll(rs)) && Records(EncodeAll(rs)) == rs
  {
    NoRecords();
    if rs != [] {
      var front, last := rs[..|rs| - 1], rs[|rs| - 1];
      assert EncodeAll(rs) == EncodeAll(front) + Encode(last);
      hide *;
      assert Whole(last) && rs == front + [last];
      ReadBack(front);
      RecordInFront(last, []);
      assert Encode(last) + [] == Encode(last);
      RecordsJoin(EncodeAll(front), Encode(last));
    }
  }

  lemma {:induction false} NoRecords()
    ensures WellFormed([]) && Records([]) == []
  {}

  /** The number k is written as its big-endian bytes. */
  lemma {:induction false} NumberReadBack(k: nat)
    requires k < UINT32
    ensures BigEndian(NumberBytes(k)) == k
  {
    assert k % UINT32 == k;
    hide ConvertEndian, BigEndian, Store;
    StoreSwapped(k);
  }

  /** The four bytes are the number, most significant byte first. */
  predicate Says(word: Bytes, n: int) {
    |word| == 4 && n == 16777216 * (word[0] as int) + 65536 * (word[1] as int) + 256 * (word[2] as int) + word[3]
  }

  /** The content is as long as the second word says in units of two bytes. */
  ghost predicate SaysItsLength(r: Record) {
    |r.number| == 4 && exists units :: Says(r.length, units) && |r.content| == (units * 2) % 4294967296
  }

  ghost predicate StandsAt(b: Bytes, at: nat, r: Record) {
    && SaysItsLength(r) && at + |r.number + r.length + r.content| <= |b|
    && b[at..at + |r.number + r.length + r.content|] == r.number + r.length + r.content
  }

  /** Records that say their length, one behind the other, are a file of these records. */
  lemma {:induction false} FilesOfRecords(rs: seq<Record>)
    requires forall r :: r in rs ==> SaysItsLength(r)
    ensures WellFormed(EncodeAll(rs)) && Records(EncodeAll(rs)) == rs && |EncodeAll(rs)| == Size(rs)
  {
    forall r | r in rs ensures Whole(r) {
      WordSays(r.length);
    }
    hide *;
    ReadBack(rs);
    SizeOfRecords(EncodeAll(rs));
  }

  lemma {:induction false} WordSays(word: Bytes)
    requires |word| == 4
    ensures Says(word, BigEndian(word))
  {}

  lemma {:induction false} FirstStands(b: Bytes)
    requires WellFormed(b) && b != []
    ensures StandsAt(b, 0, FirstRecord(b)) && OtherBytes(b) == b[8 + |FirstRecord(b).content|..]
    ensures 8 + |FirstRecord(b).content| <= |b|
  {
    var r := FirstRecord(b);
    FrontRecord(b);
    WordSays(r.length);
    assert Encode(r) == r.number + r.length + r.content && |r.content| == (BigEndian(r.length) * 2) % 4294967296;
    hide BigEndian, WellFormed, Says;
  }

  lemma {:induction false} StandsBehind(b: Bytes, n: nat, at: nat, r: Record)
    requires n <= |b| && StandsAt(b[n..], at, r)
    ensures StandsAt(b, n + at, r)
  {
    hide Says;
    BytesBehind(b, n, at, |r.number + r.length + r.content|);
  }

  /** Each record of a file stands where the one before it ends. */
  lemma {:induction false} RecordStands(b: Bytes, i: nat)
    requires WellFormed(b) && i < |Records(b)|
    ensures StandsAt(b, Size(Records(b)[..i]), Records(b)[i])
    decreases |b|
  {
    FirstStands(b);
    var first, rest := FirstRecord(b), OtherBytes(b);
    assert Records(b) == [first] + Records(rest);
    hide *;
    OneMoreInFront(first, Records(rest), i);
    if i > 0 {
      RecordStands(rest, i - 1);
      StandsBehind(b, 8 + |first.content|, Size(Records(rest)[..i - 1]), Records(rest)[i - 1]);
    }
  }

  lemma {:induction false} OneMoreInFront(r: Record, rs: seq<Record>, i: nat)
    requires i <= |rs|
    ensures Size(([r] + rs)[..i]) == if i == 0 then 0 else 8 + |r.content| + Size(rs[..i - 1])
  {
    if i > 0 { assert ([r] + rs)[..i][1..] == rs[..i - 1]; }
  }

  /**
   A piece is again a well-formed main file: behind the header it has the records it was given, with
   their lengths and contents, numbered 1, 2, 3, ...
   */
  lemma {:induction false} PieceIsMainFile(header: Bytes, b: Bytes, from: nat, to: nat)
    requires |header| == SHP_HEADER_SIZE && WellFormed(b) && from <= to <= |Records(b)| < UINT32
    ensures var rs, piece := Records(b)[from..to], Piece(header, Records(b)[from..to]);
      && piece[..SHP_HEADER_SIZE] == header && WellFormed(piece[SHP_HEADER_SIZE..])
      && var rs' := Records(piece[SHP_HEADER_SIZE..]);
         |rs'| == to - from && forall i :: 0 <= i < to - from ==>
           Says(rs'[i].number, i + 1)
           && rs'[i].length == rs[i].length && rs'[i].content == rs[i].content
  {
    hide WellFormed, Records, Encode, EncodeAll, BigEndian, NumberBytes, ContentLength, Says;
    var rs := Records(b)[from..to];
    RecordsAreWhole(b);
    forall i | 0 <= i < to - from ensures Whole(Numbered(rs)[i]) && Says(Numbered(rs)[i].number, i + 1) {
      assert rs[i] in Records(b);
      NumberReadBack(i + 1);
      WordSays(NumberBytes(i + 1));
    }
    ReadBack(Numbered(rs));
    assert Piece(header, rs)[SHP_HEADER_SIZE..] == EncodeAll(Numbered(rs));
  }

  /** The file length that a main file's header states, in bytes. */
  function StatedLength(file: Bytes): nat
    requires |file| >= SHP_HEADER_SIZE
  {
    BigEndian(file[24..28]) * 2
  }

  lemma {:induction false} EncodedSize(rs: seq<Record>)
    requires forall r :: r in rs ==> |r.number| == 4 && |r.length| == 4
    ensures |EncodeAll(rs)| == Size(rs)
    decreases |rs|
  {
    if rs != [] {
      EncodedSize(rs[..|rs| - 1]);
      SizeGrows(rs, |rs| - 1);
      assert rs[..|rs| - 1 + 1] == rs;
    }
  }

  /** Sizes depend on contents only. */
  lemma {:induction false} SameSize(rs: seq<Record>, rs': seq<Record>)
    requires |rs'| == |rs| && forall i :: 0 <= i < |rs| ==> |rs'[i].content| == |rs[i].content|
    ensures Size(rs') == Size(rs)
    decreases |rs|
  {
    if rs != [] { SameSize(rs[1..], rs'[1..]); }
  }

  lemma SizePositive(rs: seq<Record>)
    ensures Size(rs) == 0 <==> rs == []
  {}

  lemma {:induction false} StatedByHeader(header: Bytes, rest: Bytes)
    requires |header| == SHP_HEADER_SIZE
    ensures StatedLength(header + rest) == StatedLength(header)
  {
    assert (header + rest)[24..28] == header[24..28];
    hide BigEndian;
  }

  lemma {:induction false} PieceSize(header: Bytes, b: Bytes, from: nat, to: nat)
    requires WellFormed(b) && from <= to <= |Records(b)|
    ensures |Piece(header, Records(b)[from..to])| == |header| + Size(Records(b)[from..to])
  {
    hide WellFormed, Records, EncodeAll, Encode, ContentLength, NumberBytes;
    var rs := Records(b)[from..to];
    RecordsAreWhole(b);
    forall r | r in Numbered(rs) ensures |r.number| == 4 && |r.length| == 4 {
      var i :| 0 <= i < |rs| && Numbered(rs)[i] == r;
      assert rs[i] in Records(b);
    }
    EncodedSize(Numbered(rs));
    SameSize(rs, Numbered(rs));
  }

  /**
   The header is copied with the length of the whole file in it: a piece of a file that states its length
   states its own only if it has all the records.
   */
  lemma {:induction false} PieceStatesLength(header: Bytes, b: Bytes, from: nat, to: nat)
    requires |header| == SHP_HEADER_SIZE && WellFormed(b) && from <= to <= |Records(b)|
    requires StatedLength(header + b) == |header + b|
    ensures var piece := Piece(header, Records(b)[from..to]);
      |piece| >= SHP_HEADER_SIZE && (StatedLength(piece) == |piece| <==> from == 0 && to == |Records(b)|)
  {
    var all := Records(b);
    var rs := all[from..to];
    StatedByHeader(header, b);
    StatedByHeader(header, EncodeAll(Numbered(rs)));
    PieceSize(header, b, from, to);
    hide StatedLength, WellFormed, Records, EncodeAll, Size, Numbered;
    SizeOfRecords(b);
    SizeSplit(all, from);
    SizeSplit(all[from..], to - from);
    assert all[from..][..to - from] == rs && all[from..][to - from..] == all[to..];
    SizePositive(all[..from]);
    SizePositive(all[to..]);
  }

  function NumberBytes(k: nat): (b: Bytes)
    ensures |b| == 4
  {
    Store(ConvertEndian(k % UINT32))
  }

  // ---------------------------------------------------------------- files

  /** An input file with a read position and the flag that a read has met its end. */
  class InFile {
    const bytes: Bytes
    var pos: nat
    var eof: bool

    ghost predicate Valid()
      reads this
    {
      pos <= |bytes| && (eof ==> pos == |bytes|)
    }

    constructor (bytes: Bytes)
      ensures Valid() && this.bytes == bytes && pos == 0 && !eof
    {
      this.bytes := bytes;
      pos, eof := 0, false;
    }

    ghost function Rest(): Bytes
      requires Valid()
      reads this
    {
      bytes[pos..]
    }

    /** All n bytes, or what is left of them and the flag; nothing once the flag is set. */
    method Read(n: nat) returns (b: Bytes)
      requires Valid()
      modifies this
      ensures Valid()
      ensures eof <==> old(eof) || |old(Rest())| < n
      ensures !eof ==> b == old(Rest())[..n] && Rest() == old(Rest())[n..] && pos == old(pos) + n
      ensures eof ==> Rest() == []
    {
      if eof { return []; }
      if pos + n <= |bytes| {
        b := bytes[pos..pos + n];
        pos := pos + n;
      } else {
        b := bytes[pos..];
        pos := |bytes|;
        eof := true;
      }
    }
  }

  // ---------------------------------------------------------------- the main file

  /** The header, then the records numbered from 1. */
  function Piece(header: Bytes, rs: seq<Record>): Bytes {
    header + EncodeAll(Numbered(rs))
  }

  lemma {:induction false} EncodeGrows(rs: seq<Record>, k: nat)
    requires k < |rs|
    ensures EncodeAll(rs[..k + 1]) == EncodeAll(rs[..k]) + Encode(rs[k])
  {
    assert rs[..k + 1][..k] == rs[..k];
  }

  lemma {:induction false} SizeGrows(rs: seq<Record>, k: nat)
    requires k < |rs|
    ensures Size(rs[..k + 1]) == Size(rs[..k]) + 8 + |rs[k].content|
  {
    SizeSplit(rs[..k + 1], k);
    assert rs[..k + 1][..k] == rs[..k] && rs[..k + 1][k..] == [rs[k]];
    assert [rs[k]][1..] == [];
  }

  /** Copies one record under a new number, as far as the file has it. */
  method CopyRecord(file: InFile, recnum: nat) returns (copied: Bytes, contLength: nat)
    requires file.Valid()
    modifies file
    ensures file.Valid() && (!file.eof ==> file.pos >= old(file.pos) + 8 && !old(file.eof)) && file.pos >= old(file.pos)
    ensures old(file.Rest()) == [] ==> file.eof && copied == [] && file.Rest() == []
    ensures old(file.Rest()) != [] && WellFormed(old(file.Rest())) ==>
      && !file.eof && file.Rest() == OtherBytes(old(file.Rest()))
      && copied == Encode(FirstRecord(old(file.Rest())).(number := NumberBytes(recnum)))
      && contLength == |FirstRecord(old(file.Rest())).content|
  {
    copied, contLength := [], 0;
    ghost var rest := file.Rest();
    var recnumHeader := file.Read(4);
    var contLengthBin := file.Read(4);
    if !file.eof {
      assert contLengthBin == rest[4..8];
      LoadSwapped(contLengthBin);
      contLength := (ConvertEndian(Load(contLengthBin)) * 2) % UINT32;
      recnumHeader := Store(ConvertEndian(recnum % UINT32));
      copied := recnumHeader + contLengthBin;
    }
    var dataset := file.Read(contLength);
    if !file.eof { copied := copied + dataset; }
  }

  /** The next record of the file is the next one of the list, and takes piece and size one further. */
  lemma {:induction false} TakesNext(header: Bytes, rs: seq<Record>, k: nat, b: Bytes)
    requires WellFormed(b) && b != [] && k <= |rs| && Records(b) == rs[k..]
    ensures k < |rs| && rs[k] == FirstRecord(b) && Records(OtherBytes(b)) == rs[k + 1..]
    ensures Piece(header, rs[..k + 1]) == Piece(header, rs[..k]) + Encode(FirstRecord(b).(number := NumberBytes(k + 1)))
    ensures Size(rs[..k + 1]) == Size(rs[..k]) + 8 + |FirstRecord(b).content|
    ensures Size(rs[..k + 1]) <= Size(rs)
  {
    assert rs[k..][0] == FirstRecord(b) && rs[k..][1..] == rs[k + 1..] && Records(b)[1..] == Records(OtherBytes(b));
    hide WellFormed, Records, FirstRecord, OtherBytes;
    PieceGrows(header, rs, k);
    SizeGrows(rs, k);
    SizeSplit(rs, k + 1);
    hide *;
  }

  lemma {:induction false} PieceGrows(header: Bytes, rs: seq<Record>, k: nat)
    requires k < |rs|
    ensures Piece(header, rs[..k + 1]) == Piece(header, rs[..k]) + Encode(rs[k].(number := NumberBytes(k + 1)))
  {
    assert Numbered(rs[..k + 1])[..k] == Numbered(rs[..k]);
    assert Numbered(rs[..k + 1])[k] == rs[k].(number := NumberBytes(k + 1));
    EncodeGrows(Numbered(rs[..k + 1]), k);
    assert Numbered(rs[..k + 1])[..k + 1] == Numbered(rs[..k + 1]);
    hide NumberBytes, Encode, EncodeAll, Numbered;
  }

  /** A piece under way: `count` records are in it, the file has the others. */
  ghost predicate Midway(header: Bytes, share: nat, rs: seq<Record>, rest: Bytes, out: Bytes, count: nat,
                         written: nat, again: bool, eof: bool) {
    && WellFormed(rest) && count <= |rs| && Records(rest) == rs[count..]
    && out == Piece(header, rs[..count])
    && (again ==> written == Size(rs[..count]))
    && (!again && !eof ==> share < Size(rs[..count]))
    && (!again && eof ==> rest == [])
  }

  /** The number of bytes written after another record, in 32-bit arithmetic. */
  function Written(written: nat, contLength: nat): nat {
    ((written + 8) % UINT32 + contLength) % UINT32
  }

  lemma {:induction false} NoWrap(written: nat, contLength: nat)
    requires written + 8 + contLength < UINT32
    ensures Written(written, contLength) == written + 8 + contLength
  {}

  /** One round of the loop that found a record. */
  lemma {:induction false} OneMore(header: Bytes, share: nat, rs: seq<Record>, rest: Bytes, out: Bytes, count: nat,
                                   written: nat, eof: bool)
    requires Midway(header, share, rs, rest, out, count, written, true, eof) && rest != []
    ensures var r := FirstRecord(rest); var written' := written + 8 + |r.content|;
      && written' <= Size(rs)
      && Midway(header, share, rs, OtherBytes(rest), out + Encode(r.(number := NumberBytes(count + 1))), count + 1,
                written', written' <= share, false)
  {
    TakesNext(header, rs, count, rest);
    hide Piece, Records, Encode, NumberBytes, OtherBytes, FirstRecord, Size;
  }

  /** The round that found the end of the file. */
  lemma {:induction false} NoMore(header: Bytes, share: nat, rs: seq<Record>, out: Bytes, count: nat, written: nat,
                                  eof: bool, written': nat)
    requires Midway(header, share, rs, [], out, count, written, true, eof)
    ensures Midway(header, share, rs, [], out, count, written', false, true)
  {}

  /** One piece: records until it holds more than its share of bytes, or the file has no more. */
  method SplitPiece(file: InFile, header: Bytes, bytesPerFile: nat) returns (out: Bytes, count: nat)
    requires file.Valid()
    modifies file
    ensures file.Valid()
    ensures WellFormed(old(file.Rest())) && |file.bytes| < UINT32 ==>
      && WellFormed(file.Rest())
      && var rs := Records(old(file.Rest()));
         && count <= |rs| && out == Piece(header, rs[..count]) && Records(file.Rest()) == rs[count..]
         && (count < |rs| ==> Size(rs[..count]) > bytesPerFile)
  {
    ghost var rest := file.Rest();
    ghost var good := WellFormed(rest) && |file.bytes| < UINT32;
    ghost var rs := if good then Records(rest) else [];
    out := header;
    var writeBytes: nat, recnum: nat, again := 0, 1, true;
    if good {
      SizeOfRecords(rest);
      assert Midway(header, bytesPerFile, rs, rest, out, 0, 0, true, file.eof) by {
        assert rs[..0] == [] && rs[0..] == rs && Piece(header, []) == header + [];
      }
      assert Size(rs) < UINT32;
    }
    while again
      invariant file.Valid() && recnum >= 1
      invariant good ==> Midway(header, bytesPerFile, rs, file.Rest(), out, recnum - 1, writeBytes, again, file.eof)
      decreases |file.bytes| - file.pos + if again then 1 else 0
    {
      hide Midway, Records, WellFormed, Encode, NumberBytes, Written;
      ghost var before, eof := file.Rest(), file.eof;
      var copied, contLength := CopyRecord(file, recnum);
      if good {
        if before != [] {
          OneMore(header, bytesPerFile, rs, before, out, recnum - 1, writeBytes, eof);
          NoWrap(writeBytes, contLength);
        } else {
          assert out + copied == out;
          NoMore(header, bytesPerFile, rs, out, recnum - 1, writeBytes, eof, Written(writeBytes, contLength));
        }
      }
      out := out + copied;
      if !file.eof { recnum := recnum + 1; }
      writeBytes := Written(writeBytes, contLength);
      again := !file.eof && writeBytes <= bytesPerFile;
    }
    count := recnum - 1;
  }

  function Sum(counts: seq<nat>): nat {
    if counts == [] then 0 else Sum(counts[..|counts| - 1]) + counts[|counts| - 1]
  }

  /** The items that piece i receives when piece k receives the next counts[k] of them. */
  function Portion<T>(items: seq<T>, counts: seq<nat>, i: nat): seq<T>
    requires i < |counts| && Sum(counts[..i]) <= Sum(counts[..i + 1]) <= |items|
  {
    items[Sum(counts[..i])..Sum(counts[..i + 1])]
  }

  lemma {:induction false} SumMonotone(counts: seq<nat>, i: nat)
    requires i < |counts|
    ensures Sum(counts[..i]) <= Sum(counts[..i + 1]) <= Sum(counts)
    decreases |counts|
  {
    if i + 1 == |counts| {
      assert counts[..i + 1] == counts;
    } else {
      var front := counts[..|counts| - 1];
      SumMonotone(front, i);
      assert front[..i] == counts[..i] && front[..i + 1] == counts[..i + 1];
    }
  }

  ghost predicate ShpPieceAt(pieces: seq<Bytes>, header: Bytes, rs: seq<Record>, counts: seq<nat>, i: nat)
    requires i < |pieces| == |counts|
  {
    Sum(counts[..i]) <= Sum(counts[..i + 1]) <= |rs| && pieces[i] == Piece(header, Portion(rs, counts, i))
  }

  /** Each piece has the records that `counts` says. */
  ghost predicate ShpPieces(pieces: seq<Bytes>, header: Bytes, rs: seq<Record>, counts: seq<nat>) {
    |pieces| == |counts| && Sum(counts) <= |rs|
    && forall i :: 0 <= i < |counts| ==> ShpPieceAt(pieces, header, rs, counts, i)
  }

  lemma {:induction false} SumAppended(counts: seq<nat>, count: nat)
    ensures Sum(counts + [count]) == Sum(counts) + count
  {
    assert (counts + [count])[..|counts|] == counts;
  }

  lemma {:induction false} OneMorePiece(pieces: seq<Bytes>, header: Bytes, rs: seq<Record>, counts: seq<nat>,
                                        count: nat)
    requires ShpPieces(pieces, header, rs, counts) && Sum(counts) + count <= |rs|
    ensures ShpPieces(pieces + [Piece(header, rs[Sum(counts)..][..count])], header, rs, counts + [count])
  {
    var pieces', counts' := pieces + [Piece(header, rs[Sum(counts)..][..count])], counts + [count];
    SumAppended(counts, count);
    hide Sum, Piece;
    forall i: nat | i < |counts'| ensures ShpPieceAt(pieces', header, rs, counts', i) {
      assert counts'[..i] == counts[..i];
      if i < |counts| {
        assert counts'[..i + 1] == counts[..i + 1];
        assert ShpPieceAt(pieces, header, rs, counts, i);
      } else {
        assert counts[..i] == counts && counts'[..i + 1] == counts';
        assert rs[Sum(counts)..][..count] == rs[Sum(counts)..Sum(counts')];
      }
    }
  }

  lemma {:induction false} ShareFits(total: nat, n: nat)
    requires n > 0 && total < UINT32
    ensures (total / n) % UINT32 == total / n
  {
    var q := total / n;
    assert total == n * q + total % n;
    assert n * q == (n - 1) * q + q && (n - 1) * q >= 0;
  }

  /** If records are left after i pieces, each of these has more than its share. */
  ghost predicate FullSoFar(rs: seq<Record>, done: nat, i: nat, share: nat) {
    done <= |rs| && (done < |rs| ==> Size(rs[..done]) >= i * (share + 1))
  }

  lemma {:induction false} OneMoreFull(rs: seq<Record>, done: nat, i: nat, share: nat, count: nat)
    requires FullSoFar(rs, done, i, share) && count <= |rs[done..]|
    requires count < |rs[done..]| ==> Size(rs[done..][..count]) > share
    ensures FullSoFar(rs, done + count, i + 1, share)
  {
    SizeSplit(rs[..done + count], done);
    assert rs[..done + count][..done] == rs[..done] && rs[..done + count][done..] == rs[done..][..count];
  }

  /** After n pieces no records are left. */
  lemma {:induction false} NothingLeft(rs: seq<Record>, done: nat, n: nat)
    requires n > 0 && FullSoFar(rs, done, n, Size(rs) / n)
    ensures done == |rs|
  {
    SharesCover(Size(rs), n);
    if done < |rs| { SizeSplit(rs, done); }
  }

  /** Some pieces are done: they have the first records, the file has the others. */
  ghost predicate PiecesDone(pieces: seq<Bytes>, header: Bytes, rs: seq<Record>, counts: seq<nat>, rest: Bytes,
                             share: nat) {
    && WellFormed(rest) && ShpPieces(pieces, header, rs, counts)
    && Sum(counts) <= |rs| && Records(rest) == rs[Sum(counts)..] && FullSoFar(rs, Sum(counts), |counts|, share)
  }

  lemma {:induction false} NoPiecesDone(header: Bytes, rest: Bytes, share: nat)
    requires WellFormed(rest)
    ensures PiecesDone([], header, Records(rest), [], rest, share)
  {}

  lemma {:induction false} OnePieceDone(pieces: seq<Bytes>, header: Bytes, rs: seq<Record>, counts: seq<nat>,
                                        rest: Bytes,
                                        share: nat, rest': Bytes, count: nat)
    requires PiecesDone(pieces, header, rs, counts, rest, share) && WellFormed(rest')
    requires count <= |Records(rest)| && Records(rest') == Records(rest)[count..]
    requires count < |Records(rest)| ==> Size(Records(rest)[..count]) > share
    ensures PiecesDone(pieces + [Piece(header, Records(rest)[..count])], header, rs, counts + [count], rest', share)
  {
    hide WellFormed, Records, Piece, ShpPieces, FullSoFar;
    SumAppended(counts, count);
    OneMorePiece(pieces, header, rs, counts, count);
    OneMoreFull(rs, Sum(counts), |counts|, share, count);
  }

  method SplitRecords(file: InFile, header: Bytes, noSplitFiles: nat, bytesPerFile: nat)
    returns (pieces: seq<Bytes>, recordsNode: seq<nat>)
    requires file.Valid()
    modifies file
    ensures |pieces| == |recordsNode| == noSplitFiles
    ensures WellFormed(old(file.Rest())) && |file.bytes| < UINT32 ==>
      var rs := Records(old(file.Rest()));
      ShpPieces(pieces, header, rs, recordsNode) && FullSoFar(rs, Sum(recordsNode), noSplitFiles, bytesPerFile)
  {
    pieces, recordsNode := [], [];
    ghost var good := WellFormed(file.Rest()) && |file.bytes| < UINT32;
    ghost var rs := if good then Records(file.Rest()) else [];
    if good { NoPiecesDone(header, file.Rest(), bytesPerFile); }
    for i := 0 to noSplitFiles
      invariant file.Valid() && |pieces| == |recordsNode| == i
      invariant good ==> PiecesDone(pieces, header, rs, recordsNode, file.Rest(), bytesPerFile)
    {
      ghost var rest := file.Rest();
      var out, count := SplitPiece(file, header, bytesPerFile);
      assert good ==> WellFormed(rest);
      hide WellFormed, Records, Piece, PiecesDone, Size;
      if good { OnePieceDone(pieces, header, rs, recordsNode, rest, bytesPerFile, file.Rest(), count); }
      pieces, recordsNode := pieces + [out], recordsNode + [count];
    }
  }

  /**
   For a well-formed file the pieces have the file's header and, numbered from 1, its records in order
   and all of them.
   */
  method SplitMain(bytes: Bytes, noSplitFiles: nat) returns (ok: bool, pieces: seq<Bytes>, recordsNode: seq<nat>)
    requires noSplitFiles > 0
    ensures ok <==> |bytes| >= 100
    ensures ok ==> |pieces| == |recordsNode| == noSplitFiles
    ensures ok && WellFormed(bytes[SHP_HEADER_SIZE..]) && |bytes| < UINT32 ==>
      var rs := Records(bytes[SHP_HEADER_SIZE..]);
      Sum(recordsNode) == |rs| && ShpPieces(pieces, bytes[..SHP_HEADER_SIZE], rs, recordsNode)
  {
    pieces, recordsNode := [], [];
    if |bytes| < SHP_HEADER_SIZE { return false, pieces, recordsNode; }
    var bytesPerFile := ((|bytes| - SHP_HEADER_SIZE) / noSplitFiles) % UINT32;
    var file := new InFile(bytes);
    var header := file.Read(SHP_HEADER_SIZE);
    assert header == bytes[..SHP_HEADER_SIZE];
    ghost var body := file.Rest();
    pieces, recordsNode := SplitRecords(file, header, noSplitFiles, bytesPerFile);
    if WellFormed(body) && |bytes| < UINT32 {
      SizeOfRecords(body);
      ShareFits(|body|, noSplitFiles);
      NothingLeft(Records(body), Sum(recordsNode), noSplitFiles);
    }
    ok := true;
  }

  // ---------------------------------------------------------------- the dBASE file

  /** The header's length and the rows' size, two bytes each, the low one first. */
  function Short(b: Bytes, at: nat): nat {
    if at + 1 < |b| then b[at] as nat + b[at + 1] as nat * 256 else 0
  }

  /** A known version, and a header that consists of blocks of 32 bytes and one byte, with an attribute at least. */
  predicate DbfAccepted(b: Bytes) {
    && |b| > 0 && (b[0] == 3 || b[0] == 0x83)
    && Short(b, 8) >= 65 && (Short(b, 8) - 1) % 32 == 0
  }

  ghost predicate HasRows(b: Bytes, size: nat, n: nat) {
    n == 0 || (size <= |b| && HasRows(b[size..], size, n - 1))
  }

  function Rows(b: Bytes, size: nat, n: nat): (rows: seq<Bytes>)
    requires HasRows(b, size, n)
    ensures |rows| == n
  {
    if n == 0 then [] else [b[..size]] + Rows(b[size..], size, n - 1)
  }

  function Flatten(rows: seq<Bytes>): Bytes {
    if rows == [] then [] else Flatten(rows[..|rows| - 1]) + rows[|rows| - 1]
  }

  /** The header with another number of rows. */
  function CountedHeader(header: Bytes, count: nat): Bytes
    requires |header| >= 8
  {
    header[..4] + Store(count % UINT32) + header[8..]
  }

  function DbfPiece(header: Bytes, rows: seq<Bytes>): Bytes
    requires |header| >= 8
  {
    CountedHeader(header, |rows|) + Flatten(rows)
  }

  ghost predicate DbfPieces(pieces: seq<Bytes>, header: Bytes, rows: seq<Bytes>, counts: seq<nat>) {
    |pieces| == |counts| && |header| >= 8 && Sum(counts) <= |rows|
    && forall i :: 0 <= i < |counts| ==> DbfPieceAt(pieces, header, rows, counts, i)
  }

  ghost predicate DbfPieceAt(pieces: seq<Bytes>, header: Bytes, rows: seq<Bytes>, counts: seq<nat>, i: nat)
    requires i < |pieces| == |counts| && |header| >= 8
  {
    Sum(counts[..i]) <= Sum(counts[..i + 1]) <= |rows| && pieces[i] == DbfPiece(header, Portion(rows, counts, i))
  }

  lemma {:induction false} OneMoreDbfPiece(pieces: seq<Bytes>, header: Bytes, rows: seq<Bytes>, counts: seq<nat>,
                                           count: nat)
    requires DbfPieces(pieces, header, rows, counts) && Sum(counts) + count <= |rows|
    ensures DbfPieces(pieces + [DbfPiece(header, rows[Sum(counts)..][..count])], header, rows, counts + [count])
  {
    var pieces', counts' := pieces + [DbfPiece(header, rows[Sum(counts)..][..count])], counts + [count];
    SumAppended(counts, count);
    hide Sum, DbfPiece;
    forall i: nat | i < |counts'| ensures DbfPieceAt(pieces', header, rows, counts', i) {
      assert counts'[..i] == counts[..i];
      if i < |counts| {
        assert counts'[..i + 1] == counts[..i + 1];
        assert DbfPieceAt(pieces, header, rows, counts, i);
      } else {
        assert counts[..i] == counts && counts'[..i + 1] == counts';
        assert rows[Sum(counts)..][..count] == rows[Sum(counts)..Sum(counts')];
      }
    }
  }

  // What a piece of the dBASE file says, byte by byte.

  /** The four bytes are the number, least significant byte first. */
  predicate SaysLowFirst(word: Bytes, n: int) {
    |word| == 4 && n == 16777216 * (word[3] as int) + 65536 * (word[2] as int) + 256 * (word[1] as int) + word[0]
  }

  /** A stored word stands with its least significant byte first. */
  lemma {:induction false} StoreSays(n: Uint32)
    ensures SaysLowFirst(Store(n), n)
  {
    hide ByteAt;
    SumOfBytes(n);
  }

  /** How many bytes so many rows take. */
  function Taken(n: nat, size: nat): nat { n * size }

  lemma TakenInOrder(a: nat, b: nat, size: nat)
    requires a <= b
    ensures Taken(a, size) <= Taken(b, size) && Taken(b - a, size) == Taken(b, size) - Taken(a, size)
  {}

  lemma OneMoreTaken(n: nat, size: nat)
    requires n > 0
    ensures Taken(n, size) == size + Taken(n - 1, size)
  {}

  lemma {:induction false} RowsFit(b: Bytes, size: nat, n: nat)
    ensures HasRows(b, size, n) <==> Taken(n, size) <= |b|
  {
    if n > 0 {
      OneMoreTaken(n, size);
      hide Taken;
      if size <= |b| { RowsFit(b[size..], size, n - 1); }
    }
  }

  lemma {:induction false} RowAt(b: Bytes, size: nat, n: nat, k: nat)
    requires HasRows(b, size, n) && k < n
    ensures Taken(k, size) + size <= |b|
    ensures Rows(b, size, n)[k] == b[Taken(k, size)..Taken(k, size) + size]
  {
    if k > 0 {
      OneMoreTaken(k, size);
      hide Taken;
      RowAt(b[size..], size, n - 1, k - 1);
      assert Rows(b, size, n)[k] == Rows(b[size..], size, n - 1)[k - 1];
      hide *;
      BytesBehind(b, size, Taken(k - 1, size), size);
    }
  }

  lemma {:induction false} BytesBehind(b: Bytes, n: nat, at: nat, size: nat)
    requires n <= |b| && at + size <= |b[n..]|
    ensures b[n..][at..at + size] == b[n + at..n + at + size]
  {}

  /** Consecutive rows are consecutive bytes. */
  lemma {:induction false} RowsAreBytes(b: Bytes, size: nat, n: nat, lo: nat, hi: nat)
    requires HasRows(b, size, n) && lo <= hi <= n
    ensures Taken(lo, size) <= Taken(hi, size) <= |b|
    ensures Flatten(Rows(b, size, n)[lo..hi]) == b[Taken(lo, size)..Taken(hi, size)]
    decreases hi
  {
    RowsFit(b, size, n);
    TakenInOrder(lo, hi, size);
    TakenInOrder(hi, n, size);
    var rows := Rows(b, size, n);
    hide Rows, HasRows, Taken;
    if lo < hi {
      RowsAreBytes(b, size, n, lo, hi - 1);
      RowAt(b, size, n, hi - 1);
      OneMoreTaken(hi, size);
      hide Flatten;
      LastRow(rows, b, lo, hi, Taken(lo, size), Taken(hi - 1, size), size);
    }
  }

  lemma {:induction false} LastRow(rows: seq<Bytes>, b: Bytes, lo: nat, hi: nat, first: nat, last: nat, size: nat)
    requires lo < hi <= |rows| && first <= last && last + size <= |b|
    requires Flatten(rows[lo..hi - 1]) == b[first..last] && rows[hi - 1] == b[last..last + size]
    ensures Flatten(rows[lo..hi]) == b[first..last + size]
  {
    assert rows[lo..hi][..hi - lo - 1] == rows[lo..hi - 1];
  }

  /**
   A piece of the dBASE file `dbf` with rows first..first+count-1: the header is the original's except for
   the number of rows at offset 4, and the rows' bytes follow. The header's length is at offset 8 and the
   rows' size at offset 10, the low byte first.
   */
  predicate ReadsAs(piece: Bytes, dbf: Bytes, first: nat, count: nat) {
    |dbf| >= 12 && |piece| >= 12 &&
    var length, size := dbf[8] as nat + 256 * dbf[9] as nat, dbf[10] as nat + 256 * dbf[11] as nat;
    && 12 <= length <= |piece| && length <= |dbf|
    && piece[..4] == dbf[..4] && SaysLowFirst(piece[4..8], count) && piece[8..length] == dbf[8..length]
    && RowsOf(piece[length..], dbf[length..], first * size, (first + count) * size)
    && |piece| - length == count * size
  }

  predicate RowsOf(rows: Bytes, all: Bytes, begin: int, end: int) {
    0 <= begin <= end <= |all| && rows == all[begin..end]
  }

  lemma {:induction false} PieceReads(piece: Bytes, dbf: Bytes, rows: seq<Bytes>, first: nat, count: nat)
    requires DbfAccepted(dbf) && Short(dbf, 8) <= |dbf| && HasRows(dbf[Short(dbf, 8)..], Short(dbf, 10), |rows|)
    requires rows == Rows(dbf[Short(dbf, 8)..], Short(dbf, 10), |rows|) && first + count <= |rows| && count < UINT32
    requires piece == DbfPiece(dbf[..Short(dbf, 8)], rows[first..first + count])
    ensures ReadsAs(piece, dbf, first, count)
  {
    hide *;
    Lengths(dbf);
    var length, size, part := Short(dbf, 8), Short(dbf, 10), rows[first..first + count];
    PartReads(dbf[length..], size, rows, first, count);
    HeaderReads(dbf[..length], count, Flatten(part));
    DbfPieceParts(dbf[..length], part);
    Assembled(piece, dbf, Flatten(part), length, size, first, count);
  }

  lemma {:induction false} Lengths(dbf: Bytes)
    requires DbfAccepted(dbf) && Short(dbf, 8) <= |dbf|
    ensures 65 <= Short(dbf, 8) && Short(dbf, 8) == dbf[8] as nat + 256 * dbf[9] as nat
    ensures Short(dbf, 10) == dbf[10] as nat + 256 * dbf[11] as nat
  {}

  lemma {:induction false} DbfPieceParts(header: Bytes, rows: seq<Bytes>)
    requires |header| >= 8
    ensures DbfPiece(header, rows) == CountedHeader(header, |rows|) + Flatten(rows)
  {}

  lemma {:induction false} Assembled(piece: Bytes, dbf: Bytes, part: Bytes, length: nat, size: nat, first: nat,
                                     count: nat)
    requires 65 <= length <= |dbf| && length == dbf[8] as nat + 256 * dbf[9] as nat
    requires size == dbf[10] as nat + 256 * dbf[11] as nat && |piece| == length + |part| && |part| == count * size
    requires piece[..4] == dbf[..length][..4] && SaysLowFirst(piece[4..8], count)
    requires piece[8..length] == dbf[..length][8..] && piece[length..] == part
    requires RowsOf(part, dbf[length..], first * size, (first + count) * size)
    ensures ReadsAs(piece, dbf, first, count)
  {
    hide RowsOf, SaysLowFirst;
    assert dbf[..length][..4] == dbf[..4] && dbf[..length][8..] == dbf[8..length];
  }

  lemma {:induction false} PartReads(body: Bytes, size: nat, rows: seq<Bytes>, first: nat, count: nat)
    requires HasRows(body, size, |rows|) && rows == Rows(body, size, |rows|) && first + count <= |rows|
    ensures RowsOf(Flatten(rows[first..first + count]), body, first * size, (first + count) * size)
    ensures |Flatten(rows[first..first + count])| == count * size
  {
    hide *;
    RowsAreBytes(body, size, |rows|, first, first + count);
    TakenInOrder(first, first + count, size);
    Products(first, count, size);
    RowsFound(Flatten(rows[first..first + count]), body, first * size, (first + count) * size);
  }

  lemma Products(first: nat, count: nat, size: nat)
    ensures Taken(first, size) == first * size && Taken(first + count, size) == (first + count) * size
    ensures Taken(count, size) == count * size
  {}

  lemma RowsFound(rows: Bytes, all: Bytes, begin: int, end: int)
    requires 0 <= begin <= end <= |all| && rows == all[begin..end]
    ensures RowsOf(rows, all, begin, end) && |rows| == end - begin
  {}

  lemma {:induction false} HeaderReads(header: Bytes, count: nat, rest: Bytes)
    requires |header| >= 8 && count < UINT32
    ensures var piece := CountedHeader(header, count) + rest;
      && |piece| == |header| + |rest| && piece[..4] == header[..4] && SaysLowFirst(piece[4..8], count)
      && piece[8..|header|] == header[8..] && piece[|header|..] == rest
  {
    hide Store, SaysLowFirst;
    StoreSays(count);
    SmallWord(count);
    assert CountedHeader(header, count) == header[..4] + Store(count) + header[8..];
    hide *;
    FourParts(header[..4], Store(count), header[8..], rest);
  }

  lemma SmallWord(count: nat)
    requires count < UINT32
    ensures count % UINT32 == count
  {}

  lemma {:induction false} FourParts(a: Bytes, b: Bytes, c: Bytes, d: Bytes)
    ensures var s := a + b + c + d; var ab, abc := |a| + |b|, |a| + |b| + |c|;
      |s| == abc + |d| && s[..|a|] == a && s[|a|..ab] == b && s[ab..abc] == c && s[abc..] == d
  {}

  /** All pieces of an accepted file with enough rows. */
  ghost predicate AllRead(pieces: seq<Bytes>, dbf: Bytes, counts: seq<nat>) {
    |pieces| == |counts| &&
    forall i :: 0 <= i < |counts| && counts[i] < UINT32 ==> ReadsAs(pieces[i], dbf, Sum(counts[..i]), counts[i])
  }

  lemma {:induction false} PiecesRead(pieces: seq<Bytes>, dbf: Bytes, counts: seq<nat>)
    requires DbfAccepted(dbf) && Short(dbf, 8) <= |dbf| && HasRows(dbf[Short(dbf, 8)..], Short(dbf, 10), Sum(counts))
    requires DbfPieces(pieces, dbf[..Short(dbf, 8)], Rows(dbf[Short(dbf, 8)..], Short(dbf, 10), Sum(counts)), counts)
    ensures AllRead(pieces, dbf, counts)
  {
    var rows := Rows(dbf[Short(dbf, 8)..], Short(dbf, 10), Sum(counts));
    hide DbfAccepted, Rows, HasRows, ReadsAs, DbfPiece, Sum, Short;
    forall i: nat | i < |counts| && counts[i] < UINT32
      ensures ReadsAs(pieces[i], dbf, Sum(counts[..i]), counts[i])
    {
      assert DbfPieceAt(pieces, dbf[..Short(dbf, 8)], rows, counts, i);
      assert counts[..i + 1] == counts[..i] + [counts[i]];
      SumAppended(counts[..i], counts[i]);
      PieceReads(pieces[i], dbf, rows, Sum(counts[..i]), counts[i]);
    }
  }

  /** Which files are accepted, byte by byte. */
  lemma {:induction false} AcceptedBytes(dbf: Bytes)
    ensures DbfAccepted(dbf) <==>
      && |dbf| >= 10 && (dbf[0] == 3 || dbf[0] == 131)
      && var length := dbf[8] as nat + 256 * dbf[9] as nat; length >= 65 && length % 32 == 1
  {}

  /** Appends the next rows of the file. */
  method CopyRows(file: InFile, size: nat, count: nat, ghost left: nat) returns (out: Bytes)
    requires file.Valid()
    modifies file
    ensures file.Valid()
    ensures !old(file.eof) && count <= left && HasRows(old(file.Rest()), size, left) ==>
      && !file.eof && HasRows(file.Rest(), size, left - count)
      && var rows := Rows(old(file.Rest()), size, left);
         out == Flatten(rows[..count]) && Rows(file.Rest(), size, left - count) == rows[count..]
  {
    out := [];
    ghost var good := !file.eof && count <= left && HasRows(file.Rest(), size, left);
    ghost var rows := if good then Rows(file.Rest(), size, left) else [];
    for j := 0 to count
      invariant file.Valid()
      invariant good ==>
        && !file.eof && HasRows(file.Rest(), size, left - j)
        && out == Flatten(rows[..j]) && Rows(file.Rest(), size, left - j) == rows[j..]
    {
      ghost var rest := file.Rest();
      var row := file.Read(size);
      if good {
        assert row == rest[..size] && file.Rest() == rest[size..];
        assert rows[j..][0] == row && rows[j..][1..] == rows[j + 1..];
        assert rows[..j + 1][..j] == rows[..j];
      }
      out := out + row;
    }
  }

  /** Some pieces are done: they have the first rows, the file has the others. */
  ghost predicate DbfDone(pieces: seq<Bytes>, header: Bytes, rows: seq<Bytes>, counts: seq<nat>, rest: Bytes,
                          size: nat) {
    && DbfPieces(pieces, header, rows, counts) && Sum(counts) <= |rows|
    && HasRows(rest, size, |rows| - Sum(counts)) && Rows(rest, size, |rows| - Sum(counts)) == rows[Sum(counts)..]
  }

  lemma {:induction false} OneDbfPieceDone(pieces: seq<Bytes>, header: Bytes, rows: seq<Bytes>, counts: seq<nat>,
                                           rest: Bytes,
                                           size: nat, rest': Bytes, count: nat)
    requires DbfDone(pieces, header, rows, counts, rest, size) && Sum(counts) + count <= |rows|
    requires HasRows(rest', size, |rows| - Sum(counts) - count)
    requires Rows(rest', size, |rows| - Sum(counts) - count) == rows[Sum(counts)..][count..]
    ensures DbfDone(pieces + [DbfPiece(header, rows[Sum(counts)..][..count])], header, rows, counts + [count], rest',
                    size)
  {
    hide DbfPieces, DbfPiece, HasRows, Rows;
    SumAppended(counts, count);
    OneMoreDbfPiece(pieces, header, rows, counts, count);
  }

  method SplitRows(file: InFile, header: Bytes, size: nat, recordsNode: seq<nat>) returns (pieces: seq<Bytes>)
    requires file.Valid() && |header| >= 8
    modifies file
    ensures !old(file.eof) && HasRows(old(file.Rest()), size, Sum(recordsNode)) ==>
      DbfPieces(pieces, header, Rows(old(file.Rest()), size, Sum(recordsNode)), recordsNode)
  {
    pieces := [];
    ghost var total := Sum(recordsNode);
    ghost var good := !file.eof && HasRows(file.Rest(), size, total);
    ghost var rows := if good then Rows(file.Rest(), size, total) else [];
    assert good ==> DbfDone([], header, rows, [], file.Rest(), size);
    for i := 0 to |recordsNode|
      invariant file.Valid() && |pieces| == i
      invariant good ==> !file.eof && DbfDone(pieces, header, rows, recordsNode[..i], file.Rest(), size)
    {
      ghost var counts, rest := recordsNode[..i], file.Rest();
      SumMonotone(recordsNode, i);
      assert recordsNode[..i + 1] == counts + [recordsNode[i]];
      SumAppended(counts, recordsNode[i]);
      var records := CopyRows(file, size, recordsNode[i], total - Sum(counts));
      hide Rows, HasRows, DbfPieces, Flatten, CountedHeader, Sum;
      if good { OneDbfPieceDone(pieces, header, rows, counts, rest, size, file.Rest(), recordsNode[i]); }
      hide DbfDone;
      pieces := pieces + [CountedHeader(header, recordsNode[i]) + records];
    }
    assert recordsNode[..|recordsNode|] == recordsNode;
  }

  /** The dBASE file is divided as the main file was: each piece has the header with its own count, and its rows. */
  method SplitDbf(bytes: Bytes, recordsNode: seq<nat>) returns (ok: bool, pieces: seq<Bytes>)
    ensures ok <==> DbfAccepted(bytes)
    ensures
      (ok && Short(bytes, 8) <= |bytes| && HasRows(bytes[Short(bytes, 8)..], Short(bytes, 10), Sum(recordsNode))) ==>
      var size := Short(bytes, 8);
      && DbfPieces(pieces, bytes[..size], Rows(bytes[size..], Short(bytes, 10), Sum(recordsNode)), recordsNode)
      && AllRead(pieces, bytes, recordsNode)
  {
    pieces := [];
    if |bytes| == 0 || (bytes[0] != 3 && bytes[0] != 0x83) { return false, pieces; }
    var headerLength, recordSize := Short(bytes, 8), Short(bytes, 10);
    if (headerLength - 1) % 32 != 0 { return false, pieces; }
    var noAttributes := if headerLength < 32 then 0 else (headerLength - 32) / 32;
    if noAttributes < 1 { return false, pieces; }
    assert DbfAccepted(bytes);
    hide DbfAccepted, DbfPieces, AllRead, Rows, HasRows, Sum, Short;
    var file := new InFile(bytes);
    var header := file.Read(headerLength);
    ok := true;
    // Of a file that is shorter than its own header no pieces are modelled: they would not be initialised.
    if !file.eof {
      pieces := SplitRows(file, header, recordSize, recordsNode);
      if HasRows(bytes[headerLength..], recordSize, Sum(recordsNode)) { PiecesRead(pieces, bytes, recordsNode); }
    }
  }

  /** Both files are in order: whole records below 4 GB, and as many rows as records. */
  ghost predicate Sound(shp: Bytes, dbf: Bytes) {
    && SHP_HEADER_SIZE <= |shp| < UINT32 && WellFormed(shp[SHP_HEADER_SIZE..])
    && DbfAccepted(dbf) && Short(dbf, 8) <= |dbf|
    && HasRows(dbf[Short(dbf, 8)..], Short(dbf, 10), |Records(shp[SHP_HEADER_SIZE..])|)
  }

  /** Of the dBASE file this asks for a known version, a header of whole blocks, and enough bytes for the rows. */
  lemma {:induction false} SoundBytes(shp: Bytes, dbf: Bytes)
    requires SHP_HEADER_SIZE <= |shp| < UINT32 && WellFormed(shp[SHP_HEADER_SIZE..])
    ensures Sound(shp, dbf) <==>
      && |dbf| >= 12 && (dbf[0] == 3 || dbf[0] == 131)
      && var length, size := dbf[8] as nat + 256 * dbf[9] as nat, dbf[10] as nat + 256 * dbf[11] as nat;
      && length >= 65 && length % 32 == 1
      && length + |Records(shp[SHP_HEADER_SIZE..])| * size <= |dbf|
  {
    AcceptedBytes(dbf);
    hide DbfAccepted, WellFormed, Records, HasRows;
    if |dbf| >= 12 && Short(dbf, 8) <= |dbf| {
      RowsFit(dbf[Short(dbf, 8)..], Short(dbf, 10), |Records(shp[SHP_HEADER_SIZE..])|);
    } else {
      TakenInOrder(0, |Records(shp[SHP_HEADER_SIZE..])|, Short(dbf, 10));
    }
  }

  /** A record takes 8 bytes at least. */
  lemma {:induction false} FewRecords(b: Bytes)
    requires WellFormed(b)
    ensures 8 * |Records(b)| <= |b|
    decreases |b|
  {
    if b != [] { FewRecords(OtherBytes(b)); }
  }

  lemma {:induction false} CountsBelow(counts: seq<nat>)
    ensures forall i :: 0 <= i < |counts| ==> counts[i] <= Sum(counts)
  {
    forall i: nat | i < |counts| ensures counts[i] <= Sum(counts) {
      SumMonotone(counts, i);
      assert counts[..i + 1] == counts[..i] + [counts[i]];
      SumAppended(counts[..i], counts[i]);
    }
  }

  /**
   The split loses nothing and keeps geometry and attributes together: piece i of both files has the
   records and the rows of the same range, the ranges follow each other, and they cover everything.
   */
  method SplitShp(shp: Bytes, dbf: Bytes, noSplitFiles: nat)
    returns (ok: bool, shpPieces: seq<Bytes>, dbfPieces: seq<Bytes>, recordsNode: seq<nat>)
    requires noSplitFiles > 0
    ensures ok <==> |shp| >= 100 && DbfAccepted(dbf)
    ensures Sound(shp, dbf) ==>
      var rs, size := Records(shp[SHP_HEADER_SIZE..]), Short(dbf, 8);
      && |recordsNode| == noSplitFiles && Sum(recordsNode) == |rs|
      && ShpPieces(shpPieces, shp[..SHP_HEADER_SIZE], rs, recordsNode)
      && DbfPieces(dbfPieces, dbf[..size], Rows(dbf[size..], Short(dbf, 10), |rs|), recordsNode)
      && AllRead(dbfPieces, dbf, recordsNode) && forall i :: 0 <= i < noSplitFiles ==> recordsNode[i] < UINT32
  {
    dbfPieces := [];
    ok, shpPieces, recordsNode := SplitMain(shp, noSplitFiles);
    if ok { ok, dbfPieces := SplitDbf(dbf, recordsNode); }
    if Sound(shp, dbf) {
      FewRecords(shp[SHP_HEADER_SIZE..]);
      CountsBelow(recordsNode);
    }
  }
}
