/**
 One direction of a local socket: a ring buffer in shared memory between one writer and one reader.
 Every access to a shared variable is a step of its own, and the two sides interleave freely over
 sequentially consistent memory.
 */
module LocalChannel {
  import opened Wrappers

  type Byte = b: int | 0 <= b < 256

  // ---------------------------------------------------------------- the ring

  /** Bytes that a writer may store at once: up to the reader's index, one slot kept free, no wrap. */
  function Space(size: int, begin: int, end: int): int {
    if begin <= end then size - end - (if begin == 0 then 1 else 0) else begin - end - 1
  }

  /** Bytes that a reader may fetch at once. */
  function Available(size: int, begin: int, end: int): int {
    if begin <= end then end - begin else size - begin
  }

  function Advance(size: int, index: int, n: int): int {
    if index + n == size then 0 else index + n
  }

  /** The bytes between the indices, in the order in which they are read. */
  function Contents(buf: seq<Byte>, begin: nat, end: nat): seq<Byte>
    requires begin < |buf| && end < |buf|
  {
    if begin <= end then buf[begin..end] else buf[begin..] + buf[..end]
  }

  function Min(a: int, b: int): int {
    if a <= b then a else b
  }

  // ---------------------------------------------------------------- the two sides

  /** Where the writer is; `src` are the bytes its call has still to publish. */
  datatype Writer =
    | WIdle
    | WLoop(src: seq<Byte>)
    | WFlagged(src: seq<Byte>)
    | WBegin(src: seq<Byte>, begin: int)
    | WEnd(src: seq<Byte>, begin: int, end: int)
    | WCopy(src: seq<Byte>, end: int, n: int, copied: int)
    | WTest(src: seq<Byte>)
    | WSignal(src: seq<Byte>)
    | WWait(src: seq<Byte>)
    | WWoken(src: seq<Byte>)

  /** Where the reader is; its call needs `need` more bytes and has room for `room`. */
  datatype Reader =
    | RIdle
    | RLoop(need: int, room: int)
    | RFlagged(need: int, room: int)
    | RBegin(need: int, room: int, begin: int)
    | REnd(need: int, room: int, begin: int, end: int)
    | RCopy(need: int, room: int, begin: int, n: int, got: seq<Byte>)
    | RTest(need: int, room: int)
    | RSignal(need: int, room: int)
    | RWait(need: int, room: int)
    | RWoken(need: int, room: int)

  /**
   The shared buffer with its events (`rd` wakes the reader, `rtt` the writer), the two sides, and the
   history: the bytes handed to the writer, published by it, and fetched by the reader.
   */
  datatype Channel = Channel(
    buf: seq<Byte>, dataBeg: nat, dataEnd: nat, recvWaitFlag: bool, sendWaitFlag: bool, rd: bool, rtt: bool,
    writer: Writer, reader: Reader, put: seq<Byte>, sent: seq<Byte>, recvd: seq<Byte>)

  datatype Action = StartWrite(bytes: seq<Byte>) | StartRead(min: nat, max: nat) | WriterMoves | ReaderMoves

  // ---------------------------------------------------------------- steps

  /** The next step of `Write`; none when it has nothing to do or waits for an event not yet set. */
  function WriterStep(s: Channel): Option<Channel> {
    match s.writer
    case WIdle => None
    case WLoop(src) =>
      if src == [] then Some(s.(writer := WIdle)) else Some(s.(sendWaitFlag := true, writer := WFlagged(src)))
    case WFlagged(src) => Some(s.(writer := WBegin(src, s.dataBeg)))
    case WBegin(src, begin) => Some(s.(writer := WEnd(src, begin, s.dataEnd)))
    case WEnd(src, begin, end) =>
      var space := Space(|s.buf|, begin, end);
      if space > 0 then Some(s.(sendWaitFlag := false, writer := WCopy(src, end, Min(space, |src|), 0)))
      else Some(s.(writer := WWait(src)))
    case WCopy(src, end, n, copied) =>
      if copied < n then
        if 0 <= copied < |src| && 0 <= end + copied < |s.buf| then
          Some(s.(buf := s.buf[end + copied := src[copied]], writer := WCopy(src, end, n, copied + 1)))
        else None
      else if 0 <= n <= |src| && 0 <= Advance(|s.buf|, end, n) then
        Some(s.(dataEnd := Advance(|s.buf|, end, n), sent := s.sent + src[..n], writer := WTest(src[n..])))
      else None
    case WTest(src) => Some(s.(writer := if s.recvWaitFlag then WSignal(src) else WLoop(src)))
    case WSignal(src) => Some(s.(rd := true, writer := WLoop(src)))
    case WWait(src) => if s.rtt then Some(s.(rtt := false, writer := WWoken(src))) else None
    // The flag cleared here is that of the other direction's buffer.
    case WWoken(src) => Some(s.(writer := WLoop(src)))
  }

  /** The next step of `Read`. */
  function ReaderStep(s: Channel): Option<Channel> {
    match s.reader
    case RIdle => None
    case RLoop(need, room) =>
      if need <= 0 then Some(s.(reader := RIdle)) else Some(s.(recvWaitFlag := true, reader := RFlagged(need, room)))
    case RFlagged(need, room) => Some(s.(reader := RBegin(need, room, s.dataBeg)))
    case RBegin(need, room, begin) => Some(s.(reader := REnd(need, room, begin, s.dataEnd)))
    case REnd(need, room, begin, end) =>
      var available := Available(|s.buf|, begin, end);
      if available > 0
      then Some(s.(recvWaitFlag := false, reader := RCopy(need, room, begin, Min(available, room), [])))
      else Some(s.(reader := RWait(need, room)))
    case RCopy(need, room, begin, n, got) =>
      if |got| < n then
        if 0 <= begin + |got| < |s.buf| then
          Some(s.(reader := RCopy(need, room, begin, n, got + [s.buf[begin + |got|]])))
        else None
      else if 0 <= Advance(|s.buf|, begin, n) then
        Some(s.(dataBeg := Advance(|s.buf|, begin, n), recvd := s.recvd + got, reader := RTest(need - n, room - n)))
      else None
    case RTest(need, room) => Some(s.(reader := if s.sendWaitFlag then RSignal(need, room) else RLoop(need, room)))
    case RSignal(need, room) => Some(s.(rtt := true, reader := RLoop(need, room)))
    case RWait(need, room) => if s.rd then Some(s.(rd := false, reader := RWoken(need, room))) else None
    case RWoken(need, room) => Some(s.(recvWaitFlag := false, reader := RLoop(need, room)))
  }

  /** A side that is idle may be given a new call at any time. */
  function Step(s: Channel, a: Action): Option<Channel> {
    match a
    case StartWrite(bytes) => if s.writer.WIdle? then Some(s.(writer := WLoop(bytes), put := s.put + bytes)) else None
    case StartRead(min, max) => if s.reader.RIdle? && min <= max then Some(s.(reader := RLoop(min, max))) else None
    case WriterMoves => WriterStep(s)
    case ReaderMoves => ReaderStep(s)
  }

  /** Each turn is one step of the writer or the reader, or none if that side is idle or blocked. */
  function Follow(s: Channel, schedule: seq<bool>): Channel
    decreases |schedule|
  {
    if schedule == [] then s
    else
      var next := if schedule[0] then WriterStep(s) else ReaderStep(s);
      Follow(if next.None? then s else next.value, schedule[1..])
  }

  function Start(size: nat, zeros: seq<Byte>): Channel
    requires |zeros| == size
  {
    Channel(zeros, 0, 0, false, false, false, false, WIdle, RIdle, [], [], [])
  }

  /** Any interleaving from an empty ring. */
  ghost predicate IsRun(states: seq<Channel>, actions: seq<Action>) {
    && |states| == |actions| + 1
    && |states[0].buf| >= 2 && states[0] == Start(|states[0].buf|, states[0].buf)
    && forall i :: 0 <= i < |actions| ==> Step(states[i], actions[i]) == Some(states[i + 1])
  }

  // ---------------------------------------------------------------- the invariant

  /** How many published bytes have not been fetched. */
  function Pending(s: Channel): int {
    |s.sent| - |s.recvd|
  }

  function Dist(size: int, begin: int, end: int): int {
    if begin <= end then end - begin else end - begin + size
  }

  function Slot(size: int, begin: int, i: int): int {
    if begin + i < size then begin + i else begin + i - size
  }

  /** The ring holds the published bytes that have not been fetched. */
  ghost predicate Ring(s: Channel) {
    && |s.buf| >= 2 && s.dataBeg < |s.buf| && s.dataEnd < |s.buf|
    && Pending(s) == Dist(|s.buf|, s.dataBeg, s.dataEnd)
    && |s.recvd| <= |s.sent| && s.recvd == s.sent[..|s.recvd|]
    && forall i :: 0 <= i < Pending(s) ==> s.buf[Slot(|s.buf|, s.dataBeg, i)] == s.sent[|s.recvd| + i]
  }

  /** The bytes that the writer's call has not yet published. */
  function Unpublished(w: Writer): seq<Byte> {
    if w.WIdle? then [] else w.src
  }

  /** What the writer believes: old news of the reader's index only makes it see less space. */
  ghost predicate WriterOk(s: Channel) {
    && s.put == s.sent + Unpublished(s.writer)
    && match s.writer
       case WFlagged(src) => src != []
       case WBegin(src, begin) =>
         && src != [] && 0 <= begin < |s.buf|
         && Space(|s.buf|, begin, s.dataEnd) <= |s.buf| - 1 - Pending(s)
       case WEnd(src, begin, end) =>
         && 0 <= begin < |s.buf| && end == s.dataEnd && src != []
         && Space(|s.buf|, begin, s.dataEnd) <= |s.buf| - 1 - Pending(s)
       case WCopy(src, end, n, copied) =>
         && end == s.dataEnd && 0 < n <= |src| && 0 <= copied <= n && end + n <= |s.buf|
           && n <= |s.buf| - 1 - Pending(s)
         && forall i :: 0 <= i < copied ==> s.buf[end + i] == src[i]
       case WWait(src) => src != []
       case _ => true
  }

  ghost predicate ReaderOk(s: Channel) {
    match s.reader
    case RLoop(need, room) => need <= room
    case RFlagged(need, room) => s.recvWaitFlag && 0 < need <= room
    case RBegin(need, room, begin) => s.recvWaitFlag && 0 < need <= room && begin == s.dataBeg
    case REnd(need, room, begin, end) =>
      && s.recvWaitFlag && 0 < need <= room && begin == s.dataBeg && 0 <= end < |s.buf|
      && Available(|s.buf|, begin, end) <= Pending(s)
    case RCopy(need, room, begin, n, got) =>
      && 0 < need <= room && begin == s.dataBeg && |got| <= n && 0 < n <= room && n <= Pending(s)
        && begin + n <= |s.buf|
      && got == s.sent[|s.recvd|..|s.recvd| + |got|]
    case RTest(need, room) => need <= room
    case RSignal(need, room) => need <= room
    case RWait(need, room) => s.recvWaitFlag && 0 < need <= room
    case RWoken(need, room) => need <= room
    case RIdle => true
  }

  /** The writer waits for space, or will wait once it has looked at the indices it has read. */
  predicate BelievesFull(s: Channel) {
    match s.writer
    case WFlagged(_) => |s.buf| - 1 <= Pending(s)
    case WBegin(_, begin) => Space(|s.buf|, begin, s.dataEnd) <= 0
    case WEnd(_, begin, end) => Space(|s.buf|, begin, end) <= 0
    case WWait(_) => true
    case _ => false
  }

  /** The reader has released bytes since the writer looked. */
  predicate MissedNews(s: Channel) {
    match s.writer
    case WBegin(_, begin) => begin != s.dataBeg
    case WEnd(_, begin, _) => begin != s.dataBeg
    case WWait(_) => Pending(s) < |s.buf| - 1
    case _ => false
  }

  /**
   The writer will be woken: its event is set or about to be set, or its flag is, and the reader is at
   its test if the writer has missed news of it.
   */
  predicate WriterWillWake(s: Channel) {
    s.rtt || s.reader.RSignal? || (s.sendWaitFlag && (MissedNews(s) ==> s.reader.RTest?))
  }

  ghost predicate ReaderWillWake(s: Channel) {
    s.rd || s.writer.WTest? || s.writer.WSignal?
  }

  /** Whoever waits for what is there, or has missed news of it, will be woken. */
  ghost predicate NoLostWakeUp(s: Channel) {
    && (BelievesFull(s) ==> WriterWillWake(s))
    && (s.reader.REnd? && s.reader.end != s.dataEnd ==> ReaderWillWake(s))
    && (s.reader.RWait? && Pending(s) > 0 ==> ReaderWillWake(s))
  }

  ghost predicate Inv(s: Channel) {
    && Ring(s)
    && WriterOk(s)
    && ReaderOk(s)
    && NoLostWakeUp(s)
  }

  /** Between setting its flag and finding space, or waiting for some. */
  predicate CountsOnFlag(w: Writer) {
    w.WFlagged? || w.WBegin? || w.WEnd? || w.WWait?
  }

  predicate FlagUp(s: Channel) {
    CountsOnFlag(s.writer) ==> s.sendWaitFlag
  }

  /** Bytes that a side has still to copy. */
  function CopiesLeft(w: Writer): nat {
    if w.WCopy? && w.copied <= w.n then w.n - w.copied else 0
  }

  function BytesLeft(r: Reader): nat {
    if r.RCopy? && |r.got| <= r.n then r.n - |r.got| else 0
  }

  // ---------------------------------------------------------------- preservation

  /** A copied byte goes to a free slot. */
  lemma {:induction false} CopyMissesRing(s: Channel, end: int, at: int, b: Byte)
    requires Ring(s) && end == s.dataEnd && end <= at < |s.buf| && at - end < |s.buf| - 1 - Pending(s)
    ensures Ring(s.(buf := s.buf[at := b]))
  {
    var s' := s.(buf := s.buf[at := b]);
    forall i | 0 <= i < Pending(s) ensures s'.buf[Slot(|s.buf|, s.dataBeg, i)] == s.sent[|s.recvd| + i] {
      assert Slot(|s.buf|, s.dataBeg, i) != at;
    }
  }

  /** Publishing what was copied behind the end extends the ring's contents. */
  lemma {:induction false} PublishExtendsRing(s: Channel, src: seq<Byte>, n: int)
    requires Ring(s) && 0 < n <= |src| && s.dataEnd + n <= |s.buf| && n <= |s.buf| - 1 - Pending(s)
    requires forall i :: 0 <= i < n ==> s.buf[s.dataEnd + i] == src[i]
    ensures 0 <= Advance(|s.buf|, s.dataEnd, n) < |s.buf|
    ensures Ring(s.(dataEnd := Advance(|s.buf|, s.dataEnd, n), sent := s.sent + src[..n]))
  {
    var s' := s.(dataEnd := Advance(|s.buf|, s.dataEnd, n), sent := s.sent + src[..n]);
    var pending, size := Pending(s), |s.buf|;
    forall i | 0 <= i < Pending(s') ensures s.buf[Slot(size, s.dataBeg, i)] == s'.sent[|s.recvd| + i] {
      if i >= pending {
        assert Slot(size, s.dataBeg, i) == s.dataEnd + (i - pending);
        assert s'.sent[|s.recvd| + i] == src[i - pending];
      }
    }
  }

  /** Releasing what was fetched from the beginning drops it from the ring's contents. */
  lemma {:induction false} ReleaseDropsRing(s: Channel, n: int, got: seq<Byte>)
    requires Ring(s) && 0 < n == |got| && n <= Pending(s) && s.dataBeg + n <= |s.buf|
    requires got == s.sent[|s.recvd|..|s.recvd| + n]
    ensures 0 <= Advance(|s.buf|, s.dataBeg, n) < |s.buf|
    ensures Ring(s.(dataBeg := Advance(|s.buf|, s.dataBeg, n), recvd := s.recvd + got))
  {
    var s' := s.(dataBeg := Advance(|s.buf|, s.dataBeg, n), recvd := s.recvd + got);
    var size := |s.buf|;
    assert s.recvd + got == s.sent[..|s.recvd| + n];
    forall i | 0 <= i < Pending(s') ensures s.buf[Slot(size, s'.dataBeg, i)] == s.sent[|s'.recvd| + i] {
      assert Slot(size, s'.dataBeg, i) == Slot(size, s.dataBeg, n + i);
    }
  }

  /** Space and bytes seen with the true indices are the true ones. */
  lemma {:induction false} TrueSnapshot(s: Channel)
    requires Ring(s)
    ensures Space(|s.buf|, s.dataBeg, s.dataEnd) <= |s.buf| - 1 - Pending(s)
    ensures Space(|s.buf|, s.dataBeg, s.dataEnd) == 0 <==> Pending(s) == |s.buf| - 1
    ensures Available(|s.buf|, s.dataBeg, s.dataEnd) <= Pending(s)
    ensures Available(|s.buf|, s.dataBeg, s.dataEnd) == 0 <==> Pending(s) == 0
  {}

  lemma {:induction false} SameRing(s: Channel, s': Channel)
    requires Ring(s) && s'.buf == s.buf && s'.dataBeg == s.dataBeg && s'.dataEnd == s.dataEnd
    requires s'.sent == s.sent && s'.recvd == s.recvd
    ensures Ring(s')
  {}

  // The writer, step by step. Only publishing and copying touch the ring.

  lemma {:induction false} WriterStarts(s: Channel)
    requires Inv(s) && s.writer.WLoop?
    ensures Inv(WriterStep(s).value)
  {
    hide Ring, Space, Available;
    SameRing(s, WriterStep(s).value);
  }

  lemma {:induction false} WriterReadsBegin(s: Channel)
    requires Inv(s) && s.writer.WFlagged?
    ensures Inv(WriterStep(s).value)
  {
    TrueSnapshot(s);
    assert s.dataBeg < |s.buf|;
    hide Ring, Space, Available;
    SameRing(s, WriterStep(s).value);
  }

  lemma {:induction false} WriterReadsEnd(s: Channel)
    requires Inv(s) && s.writer.WBegin?
    ensures Inv(WriterStep(s).value)
  {
    hide Ring, Space, Available;
    SameRing(s, WriterStep(s).value);
  }

  /** A writer that sees no space waits; if there is some, it has missed news of it and will be woken. */
  lemma {:induction false} WriterWaits(s: Channel)
    requires Inv(s) && s.writer.WEnd? && Space(|s.buf|, s.writer.begin, s.writer.end) <= 0
    ensures Inv(WriterStep(s).value)
  {
    TrueSnapshot(s);
    assert s.writer.begin != s.dataBeg || Pending(s) == |s.buf| - 1 by { hide Ring; }
    hide Ring, Space, Available;
    SameRing(s, WriterStep(s).value);
  }

  lemma {:induction false} WriterTakesSpace(s: Channel)
    requires Inv(s) && s.writer.WEnd? && Space(|s.buf|, s.writer.begin, s.writer.end) > 0
    ensures Inv(WriterStep(s).value)
  {
    var w := s.writer;
    assert 0 <= s.dataEnd < |s.buf|;
    assert w.end + Space(|s.buf|, w.begin, w.end) <= |s.buf| by { hide Ring; }
    hide Ring, Space, Available;
    SameRing(s, WriterStep(s).value);
  }

  lemma {:induction false} WriterCopies(s: Channel)
    requires Inv(s) && s.writer.WCopy? && s.writer.copied < s.writer.n
    ensures Inv(WriterStep(s).value)
  {
    var w, s' := s.writer, WriterStep(s).value;
    assert |s.recvd| <= |s.sent|;
    CopyMissesRing(s, w.end, w.end + w.copied, w.src[w.copied]);
    hide Ring, Space, Available;
    SameRing(s.(buf := s.buf[w.end + w.copied := w.src[w.copied]]), s');
  }

  lemma {:induction false} WriterPublishes(s: Channel)
    requires Inv(s) && s.writer.WCopy? && s.writer.copied == s.writer.n
    ensures Inv(WriterStep(s).value)
  {
    var w, s' := s.writer, WriterStep(s).value;
    PublishExtendsRing(s, w.src, w.n);
    assert |s.recvd| <= |s.sent| && w.src == w.src[..w.n] + w.src[w.n..];
    hide Ring, Space, Available, Advance;
    SameRing(s.(dataEnd := Advance(|s.buf|, s.dataEnd, w.n), sent := s.sent + w.src[..w.n]), s');
  }

  lemma {:induction false} WriterSignals(s: Channel)
    requires Inv(s) && (s.writer.WTest? || s.writer.WSignal? || s.writer.WWait? || s.writer.WWoken?)
    requires WriterStep(s).Some?
    ensures Inv(WriterStep(s).value)
  {
    hide Ring, Space, Available;
    SameRing(s, WriterStep(s).value);
  }

  // The reader, step by step. Only releasing touches the ring.

  lemma {:induction false} ReaderStarts(s: Channel)
    requires Inv(s) && s.reader.RLoop?
    ensures Inv(ReaderStep(s).value)
  {
    hide Ring, Space, Available;
    SameRing(s, ReaderStep(s).value);
  }

  lemma {:induction false} ReaderReadsBegin(s: Channel)
    requires Inv(s) && s.reader.RFlagged?
    ensures Inv(ReaderStep(s).value)
  {
    hide Ring, Space, Available;
    SameRing(s, ReaderStep(s).value);
  }

  lemma {:induction false} ReaderReadsEnd(s: Channel)
    requires Inv(s) && s.reader.RBegin?
    ensures Inv(ReaderStep(s).value)
  {
    TrueSnapshot(s);
    assert s.dataEnd < |s.buf|;
    hide Ring, Space, Available;
    SameRing(s, ReaderStep(s).value);
  }

  /** A reader that sees no bytes waits; if there are some, it has missed news of them and will be woken. */
  lemma {:induction false} ReaderWaits(s: Channel)
    requires Inv(s) && s.reader.REnd? && Available(|s.buf|, s.reader.begin, s.reader.end) <= 0
    ensures Inv(ReaderStep(s).value)
  {
    TrueSnapshot(s);
    assert s.dataBeg < |s.buf|;
    assert s.reader.end != s.dataEnd || Pending(s) == 0 by { hide Ring; }
    hide Ring, Space, Available;
    SameRing(s, ReaderStep(s).value);
  }

  lemma {:induction false} ReaderTakesBytes(s: Channel)
    requires Inv(s) && s.reader.REnd? && Available(|s.buf|, s.reader.begin, s.reader.end) > 0
    ensures Inv(ReaderStep(s).value)
  {
    var r := s.reader;
    assert s.dataBeg < |s.buf| && |s.recvd| <= |s.sent|;
    assert r.begin + Available(|s.buf|, r.begin, r.end) <= |s.buf| by { hide Ring; }
    hide Ring, Space, Available;
    SameRing(s, ReaderStep(s).value);
  }

  lemma {:induction false} ReaderCopies(s: Channel)
    requires Inv(s) && s.reader.RCopy? && |s.reader.got| < s.reader.n
    ensures Inv(ReaderStep(s).value)
  {
    var r := s.reader;
    assert s.buf[Slot(|s.buf|, s.dataBeg, |r.got|)] == s.sent[|s.recvd| + |r.got|];
    hide Ring, Space, Available;
    SameRing(s, ReaderStep(s).value);
  }

  lemma {:induction false} ReaderReleases(s: Channel)
    requires Inv(s) && s.reader.RCopy? && |s.reader.got| == s.reader.n
    ensures Inv(ReaderStep(s).value)
  {
    var r, s' := s.reader, ReaderStep(s).value;
    ReleaseDropsRing(s, r.n, r.got);
    assert |s.recvd| <= |s.sent|;
    hide Ring, Space, Available, Advance;
    SameRing(s.(dataBeg := Advance(|s.buf|, s.dataBeg, r.n), recvd := s.recvd + r.got), s');
  }

  lemma {:induction false} ReaderSignals(s: Channel)
    requires Inv(s) && (s.reader.RTest? || s.reader.RSignal? || s.reader.RWait? || s.reader.RWoken?)
    requires ReaderStep(s).Some?
    ensures Inv(ReaderStep(s).value)
  {
    hide Ring, Space, Available;
    SameRing(s, ReaderStep(s).value);
  }

  lemma {:induction false} WriterKeepsInv(s: Channel)
    requires Inv(s) && WriterStep(s).Some?
    ensures Inv(WriterStep(s).value)
  {
    hide Ring, ReaderOk, NoLostWakeUp;
    match s.writer
    case WLoop(_) => WriterStarts(s);
    case WFlagged(_) => WriterReadsBegin(s);
    case WBegin(_, _) => WriterReadsEnd(s);
    case WEnd(_, begin, end) => if Space(|s.buf|, begin, end) > 0 { WriterTakesSpace(s); } else { WriterWaits(s); }
    case WCopy(_, _, n, copied) => if copied < n { WriterCopies(s); } else { WriterPublishes(s); }
    case _ => hide Inv; WriterSignals(s);
  }

  lemma {:induction false} ReaderKeepsInv(s: Channel)
    requires Inv(s) && ReaderStep(s).Some?
    ensures Inv(ReaderStep(s).value)
  {
    hide Ring, WriterOk, NoLostWakeUp;
    match s.reader
    case RLoop(_, _) => ReaderStarts(s);
    case RFlagged(_, _) => ReaderReadsBegin(s);
    case RBegin(_, _, _) => ReaderReadsEnd(s);
    case REnd(_, _, begin, end) =>
      if Available(|s.buf|, begin, end) > 0 { ReaderTakesBytes(s); } else { ReaderWaits(s); }
    case RCopy(_, _, _, n, got) => if |got| < n { ReaderCopies(s); } else { ReaderReleases(s); }
    case _ => hide Inv; ReaderSignals(s);
  }

  /** Every step of either side, and every new call, keeps the invariant. */
  lemma {:induction false} StepKeepsInv(s: Channel, a: Action)
    requires Inv(s) && Step(s, a).Some?
    ensures Inv(Step(s, a).value)
  {
    match a
    case WriterMoves => hide Inv; WriterKeepsInv(s);
    case ReaderMoves => hide Inv; ReaderKeepsInv(s);
    case _ =>
      hide Ring;
      SameRing(s, Step(s, a).value);
  }

  lemma {:induction false} Reachable(states: seq<Channel>, actions: seq<Action>, i: nat)
    requires IsRun(states, actions) && i < |states|
    ensures Inv(states[i]) && FlagUp(states[i])
  {
    if i > 0 {
      hide Inv, Step, FlagUp;
      Reachable(states, actions, i - 1);
      assert Step(states[i - 1], actions[i - 1]) == Some(states[i - 1 + 1]);
      StepKeepsInv(states[i - 1], actions[i - 1]);
      StepKeepsFlag(states[i - 1], actions[i - 1]);
    }
  }

  /** Within one direction the flag stays up until the writer takes it down. */
  lemma {:induction false} StepKeepsFlag(s: Channel, a: Action)
    requires FlagUp(s) && Step(s, a).Some?
    ensures FlagUp(Step(s, a).value)
  {}

  // ---------------------------------------------------------------- what every run promises

  lemma {:induction false} ContentsAreUnread(s: Channel)
    requires Ring(s)
    ensures Contents(s.buf, s.dataBeg, s.dataEnd) == s.sent[|s.recvd|..]
  {
    var c, size := Contents(s.buf, s.dataBeg, s.dataEnd), |s.buf|;
    assert |c| == Pending(s);
    forall i | 0 <= i < |c| ensures c[i] == s.sent[|s.recvd|..][i] {
      assert c[i] == s.buf[Slot(size, s.dataBeg, i)];
    }
  }

  /**
   First in, first out, in every interleaving: the bytes read so far followed by the ring's contents
   are the bytes published so far, and with those of the call under way they are the bytes given to
   the writer. What a read has fetched is a prefix of the contents, so no unread byte was overwritten.
   The indices meet exactly when everything published has been read: a full ring never looks empty.
   */
  lemma {:induction false} FirstInFirstOut(states: seq<Channel>, actions: seq<Action>, i: nat)
    requires IsRun(states, actions) && i < |states|
    ensures var s := states[i];
      && s.dataBeg < |s.buf| && s.dataEnd < |s.buf|
      && s.recvd + Contents(s.buf, s.dataBeg, s.dataEnd) == s.sent
      && s.sent + Unpublished(s.writer) == s.put
      && (s.reader.RCopy? ==> s.reader.got <= Contents(s.buf, s.dataBeg, s.dataEnd))
      && (s.dataBeg == s.dataEnd <==> s.recvd == s.sent)
  {
    Reachable(states, actions, i);
    var s := states[i];
    ContentsAreUnread(s);
    assert s.sent == s.sent[..|s.recvd|] + s.sent[|s.recvd|..];
  }

  /**
   No lost wake-up: a waiting reader with bytes to read, or a waiting writer with space to write to, has
   its event set or the other side on its way to set it. So the two are never both blocked, and a side
   that waits for what is there needs no new call of the other to go on.
   */
  lemma {:induction false} WakeUpsArrive(states: seq<Channel>, actions: seq<Action>, i: nat)
    requires IsRun(states, actions) && i < |states|
    ensures var s := states[i];
      && (s.reader.RWait? && |s.recvd| < |s.sent| ==> s.rd || s.writer.WTest? || s.writer.WSignal?)
      && (s.writer.WWait? && |s.sent| - |s.recvd| < |s.buf| - 1 ==> s.rtt || s.reader.RTest? || s.reader.RSignal?)
      && (s.writer.WTest? && s.reader.RWait? ==> s.recvWaitFlag)
      && (s.reader.RTest? && s.writer.WWait? ==> s.sendWaitFlag)
      && (!s.writer.WIdle? && !s.reader.RIdle? ==> WriterStep(s).Some? || ReaderStep(s).Some?)
      && (s.reader.RWait? && |s.recvd| < |s.sent| ==> WriterStep(s).Some? || ReaderStep(s).Some?)
  {
    Reachable(states, actions, i);
  }

  // ---------------------------------------------------------------- in shared memory

  /** The shared buffer, its events, and the two sides with their local variables. */
  class LocalSocket {
    var recvWaitFlag: bool
    var sendWaitFlag: bool
    var dataEnd: nat
    var dataBeg: nat
    const dataBuf: array<Byte>
    var rd: bool
    var rtt: bool
    var writer: Writer
    var reader: Reader
    ghost var put: seq<Byte>
    ghost var sent: seq<Byte>
    ghost var recvd: seq<Byte>

    constructor (size: nat)
      requires size >= 2
      ensures fresh(dataBuf) && dataBuf.Length == size && State() == Start(size, dataBuf[..]) && Inv(State())
    {
      dataBuf := new Byte[size];
      recvWaitFlag, sendWaitFlag, dataEnd, dataBeg, rd, rtt := false, false, 0, 0, false, false;
      writer, reader := WIdle, RIdle;
      put, sent, recvd := [], [], [];
    }

    ghost function State(): Channel
      reads this, dataBuf
    {
      Channel(dataBuf[..], dataBeg, dataEnd, recvWaitFlag, sendWaitFlag, rd, rtt, writer, reader, put, sent, recvd)
    }

    /** Copies one byte, or publishes what was copied. */
    method WriterStores()
      requires Inv(State()) && writer.WCopy?
      modifies this`writer, this`dataEnd, this`sent, dataBuf
      ensures WriterStep(old(State())) == Some(State())
    {
      assert dataEnd < dataBuf.Length;
      hide Ring, ReaderOk, NoLostWakeUp;
      var WCopy(src, end, n, copied) := writer;
      if copied < n {
        dataBuf[end + copied] := src[copied];
        writer := WCopy(src, end, n, copied + 1);
      } else {
        dataEnd := if end + n == dataBuf.Length then 0 else end + n;
        sent := sent + src[..n];
        writer := WTest(src[n..]);
      }
    }

    /** One step of `Write`; it does not move when it is idle or blocked. */
    method WriterMoves() returns (moved: bool)
      requires Inv(State())
      modifies this, dataBuf
      ensures moved <==> WriterStep(old(State())).Some?
      ensures State() == if moved then WriterStep(old(State())).value else old(State())
    {
      assert dataBeg < dataBuf.Length && dataEnd < dataBuf.Length;
      hide Ring, ReaderOk, NoLostWakeUp;
      moved := true;
      match writer
      case WIdle => moved := false;
      case WLoop(src) =>
        if |src| > 0 {
          sendWaitFlag := true;
          writer := WFlagged(src);
        } else {
          writer := WIdle;
        }
      case WFlagged(src) => writer := WBegin(src, dataBeg);
      case WBegin(src, begin) => writer := WEnd(src, begin, dataEnd);
      case WEnd(src, begin, end) =>
        var sendSize := if begin <= end then dataBuf.Length - end - (if begin == 0 then 1 else 0) else begin - end - 1;
        if sendSize > 0 {
          sendWaitFlag := false;
          writer := WCopy(src, end, if sendSize >= |src| then |src| else sendSize, 0);
        } else {
          writer := WWait(src);
        }
      case WCopy(_, _, _, _) => WriterStores();
      case WTest(src) =>
        if recvWaitFlag { writer := WSignal(src); } else { writer := WLoop(src); }
      case WSignal(src) =>
        rd := true;
        writer := WLoop(src);
      case WWait(src) =>
        if rtt {
          rtt := false;
          writer := WWoken(src);
        } else {
          moved := false;
        }
      case WWoken(src) => writer := WLoop(src);
    }

    /** Fetches one byte, or releases what was fetched. */
    method ReaderFetches()
      requires Inv(State()) && reader.RCopy?
      modifies this`reader, this`dataBeg, this`recvd
      ensures ReaderStep(old(State())) == Some(State())
    {
      assert dataBeg < dataBuf.Length;
      hide Ring, WriterOk, NoLostWakeUp;
      var RCopy(need, room, begin, n, got) := reader;
      if |got| < n {
        reader := RCopy(need, room, begin, n, got + [dataBuf[begin + |got|]]);
      } else {
        dataBeg := if begin + n == dataBuf.Length then 0 else begin + n;
        recvd := recvd + got;
        reader := RTest(need - n, room - n);
      }
    }

    /** One step of `Read`. */
    method ReaderMoves() returns (moved: bool)
      requires Inv(State())
      modifies this
      ensures moved <==> ReaderStep(old(State())).Some?
      ensures State() == if moved then ReaderStep(old(State())).value else old(State())
    {
      assert dataBeg < dataBuf.Length && dataEnd < dataBuf.Length;
      hide Ring, WriterOk, NoLostWakeUp;
      moved := true;
      match reader
      case RIdle => moved := false;
      case RLoop(need, room) =>
        if need > 0 {
          recvWaitFlag := true;
          reader := RFlagged(need, room);
        } else {
          reader := RIdle;
        }
      case RFlagged(need, room) => reader := RBegin(need, room, dataBeg);
      case RBegin(need, room, begin) => reader := REnd(need, room, begin, dataEnd);
      case REnd(need, room, begin, end) =>
        var recvSize := if begin <= end then end - begin else dataBuf.Length - begin;
        if recvSize > 0 {
          recvWaitFlag := false;
          reader := RCopy(need, room, begin, if recvSize >= room then room else recvSize, []);
        } else {
          reader := RWait(need, room);
        }
      case RCopy(_, _, _, _, _) => ReaderFetches();
      case RTest(need, room) =>
        if sendWaitFlag { reader := RSignal(need, room); } else { reader := RLoop(need, room); }
      case RSignal(need, room) =>
        rtt := true;
        reader := RLoop(need, room);
      case RWait(need, room) =>
        if rd {
          rd := false;
          reader := RWoken(need, room);
        } else {
          moved := false;
        }
      case RWoken(need, room) =>
        recvWaitFlag := false;
        reader := RLoop(need, room);
    }

    /** The two sides interleaved as a schedule says; a side whose turn it is may be blocked. */
    method Interleave(schedule: seq<bool>)
      requires Inv(State())
      modifies this, dataBuf
      ensures Inv(State()) && State() == Follow(old(State()), schedule)
    {
      hide Inv;
      var i := 0;
      assert schedule[0..] == schedule;
      while i < |schedule|
        invariant 0 <= i <= |schedule| && Inv(State())
        invariant Follow(old(State()), schedule) == Follow(State(), schedule[i..])
      {
        ghost var s := State();
        assert schedule[i..][0] == schedule[i] && schedule[i..][1..] == schedule[i + 1..];
        if schedule[i] {
          var moved := WriterMoves();
          if moved { WriterKeepsInv(s); }
        } else {
          var moved := ReaderMoves();
          if moved { ReaderKeepsInv(s); }
        }
        i := i + 1;
      }
    }
  }
}
