/**
 Two stream buffers over the ring: the sender's puts and flushes, the receiver's gets, and the single steps
 of `Write` and `Read` that they call, interleaved in any order. A get that finds its area empty waits in the
 middle, and goes on when bytes come.
 */
module RingStream {
  import opened Wrappers
  import opened LocalChannel

  /**
   The ring, the put area, the get area, and what the receiver is doing: `want` bytes are still to be got,
   and `fetching` says that its underflow has called `Read` when `mark` bytes had been fetched. The history:
   the bytes given to puts and those that gets have taken.
   */
  datatype Link = Link(
    size: nat, ring: Channel, area: seq<Byte>, got: seq<Byte>, want: nat, fetching: bool, mark: nat,
    given: seq<Byte>, taken: seq<Byte>)

  /**
   Outside: a byte is put, the put area is flushed, a get is called. Inside: the get takes what its area has,
   calls `Read` on an empty area, or goes on when the call has returned; and either side of the ring moves.
   */
  datatype Act = Put(b: Byte) | Flush | Get(n: nat) | Take | Fetch | Fill | WriterActs | ReaderActs

  predicate Inside(a: Act) {
    !a.Put? && !a.Flush? && !a.Get?
  }

  /** The sender is inside `Write` until the whole put area is in the ring. */
  function Next(l: Link, a: Act): Option<Link> {
    match a
    case Put(b) =>
      if l.ring.writer.WIdle? && |l.area| < l.size then Some(l.(area := l.area + [b], given := l.given + [b])) else None
    case Flush =>
      if l.area == [] then None else OnRing(l.(area := []), Step(l.ring, StartWrite(l.area)))
    case Get(n) => if l.want == 0 then Some(l.(want := n)) else None
    case Take =>
      if l.want == 0 || l.got == [] then None
      else
        var n := Min(l.want, |l.got|);
        Some(l.(taken := l.taken + l.got[..n], got := l.got[n..], want := l.want - n))
    case Fetch =>
      if l.want == 0 || l.got != [] || l.fetching then None
      else OnRing(l.(fetching := true, mark := |l.ring.recvd|), Step(l.ring, StartRead(1, l.size)))
    case Fill =>
      if l.fetching && l.ring.reader.RIdle? && l.mark <= |l.ring.recvd|
      then Some(l.(got := l.ring.recvd[l.mark..], fetching := false)) else None
    case WriterActs => OnRing(l, WriterStep(l.ring))
    case ReaderActs => OnRing(l, ReaderStep(l.ring))
  }

  function OnRing(l: Link, s: Option<Channel>): Option<Link> {
    if s.None? then None else Some(l.(ring := s.value))
  }

  function Fresh(size: nat, zeros: seq<Byte>): Link {
    Link(size, Start(|zeros|, zeros), [], [], 0, false, 0, [], [])
  }

  ghost predicate IsLinkRun(states: seq<Link>, acts: seq<Act>) {
    && |states| == |acts| + 1
    && states[0].size > 0 && |states[0].ring.buf| >= 2 && states[0] == Fresh(states[0].size, states[0].ring.buf)
    && forall i :: 0 <= i < |acts| ==> Next(states[i], acts[i]) == Some(states[i + 1])
  }

  // ---------------------------------------------------------------- the invariant

  /** What `Read` still needs and has room for. */
  predicate Asks(r: Reader, need: int, room: int) {
    r.RIdle? || (r.need == need && r.room == room)
  }

  ghost predicate ReceiverOk(l: Link) {
    if l.fetching then
      var n := |l.ring.recvd| - l.mark;
      && l.mark <= |l.ring.recvd| && n <= l.size && l.got == [] && l.want > 0
      && l.taken == l.ring.recvd[..l.mark]
      && Asks(l.ring.reader, 1 - n, l.size - n) && (l.ring.reader.RIdle? ==> n > 0)
    else
      l.ring.reader.RIdle? && l.taken + l.got == l.ring.recvd && |l.got| <= l.size
  }

  ghost predicate LinkInv(l: Link) {
    && l.size > 0 && |l.area| <= l.size && l.given == l.ring.put + l.area
    && Inv(l.ring) && ReceiverOk(l)
  }

  /** A step of the reader fetches some bytes, which its call then needs no more. */
  ghost predicate Fetches(s: Channel, t: Channel) {
    var n := |t.recvd| - |s.recvd|;
    && s.recvd <= t.recvd && !s.reader.RIdle? && (n > 0 ==> n <= s.reader.room)
    && Asks(t.reader, s.reader.need - n, s.reader.room - n) && (t.reader.RIdle? ==> n == 0 && s.reader.need <= 0)
  }

  lemma {:induction false} ReaderEffect(s: Channel)
    requires ReaderOk(s) && ReaderStep(s).Some?
    ensures Fetches(s, ReaderStep(s).value)
  {
    hide Ring, Available, Advance;
    match s.reader
    case RCopy(_, _, _, n, got) => if |got| == n { assert |ReaderStep(s).value.recvd| == |s.recvd| + n; }
    case RIdle =>
    case _ => assert ReaderStep(s).value.recvd == s.recvd;
  }

  lemma {:induction false} ReaderKeepsWriter(s: Channel)
    requires ReaderStep(s).Some?
    ensures var t := ReaderStep(s).value; t.put == s.put && t.sent == s.sent && t.writer == s.writer
  {
    hide Available, Advance;
  }

  lemma {:induction false} WriterEffect(s: Channel)
    requires WriterStep(s).Some?
    ensures var t := WriterStep(s).value; t.put == s.put && t.recvd == s.recvd && t.reader == s.reader
  {
    hide Space, Advance;
  }

  lemma {:induction false} ReaderActsKeeps(l: Link)
    requires LinkInv(l) && ReaderStep(l.ring).Some?
    ensures LinkInv(Next(l, ReaderActs).value)
  {
    assert ReaderOk(l.ring);
    ReaderEffect(l.ring);
    ReaderKeepsWriter(l.ring);
    StepKeepsInv(l.ring, ReaderMoves);
    hide Inv, ReaderStep, ReaderOk;
    var t := ReaderStep(l.ring).value;
    assert l.fetching;
    assert t.recvd[..l.mark] == l.ring.recvd[..l.mark];
  }

  lemma {:induction false} WriterActsKeeps(l: Link)
    requires LinkInv(l) && WriterStep(l.ring).Some?
    ensures LinkInv(Next(l, WriterActs).value)
  {
    WriterEffect(l.ring);
    StepKeepsInv(l.ring, WriterMoves);
    hide Inv, WriterStep;
  }

  lemma {:induction false} ActKeepsInv(l: Link, a: Act)
    requires LinkInv(l) && Next(l, a).Some?
    ensures LinkInv(Next(l, a).value)
  {
    match a
    case ReaderActs => ReaderActsKeeps(l);
    case WriterActs => WriterActsKeeps(l);
    case Flush =>
      StepKeepsInv(l.ring, StartWrite(l.area));
      hide Inv;
    case Fetch =>
      StepKeepsInv(l.ring, StartRead(1, l.size));
      hide Inv;
    case _ => hide Inv;
  }

  lemma {:induction false} LinkReachable(states: seq<Link>, acts: seq<Act>, i: nat)
    requires IsLinkRun(states, acts) && i < |states|
    ensures LinkInv(states[i])
  {
    if i > 0 {
      hide LinkInv, Next;
      LinkReachable(states, acts, i - 1);
      assert Next(states[i - 1], acts[i - 1]) == Some(states[i - 1 + 1]);
      ActKeepsInv(states[i - 1], acts[i - 1]);
    }
  }

  // ---------------------------------------------------------------- where every byte is

  /** The bytes that the read under way has fetched for the get area. */
  function Fetched(l: Link): seq<Byte> {
    if l.fetching && l.mark <= |l.ring.recvd| then l.ring.recvd[l.mark..] else []
  }

  /**
   In every interleaving: the bytes taken by gets, then those in the get area or fetched for it, those in the
   ring, those that `Write` has still to publish and those in the put area are the bytes given to puts, in
   order. So what gets have taken is a prefix of what puts were given.
   */
  lemma {:induction false} EveryByteInOrder(states: seq<Link>, acts: seq<Act>, i: nat)
    requires IsLinkRun(states, acts) && i < |states|
    ensures var l := states[i]; var s := l.ring;
      && s.dataBeg < |s.buf| && s.dataEnd < |s.buf|
      && l.given == l.taken + l.got + Fetched(l) + Contents(s.buf, s.dataBeg, s.dataEnd) + Unpublished(s.writer)
                    + l.area
      && l.taken <= l.given && |l.area| <= l.size && |l.got| + |Fetched(l)| <= l.size
  {
    LinkReachable(states, acts, i);
    var l := states[i];
    var s := l.ring;
    ContentsAreUnread(s);
    assert s.sent == s.recvd + Contents(s.buf, s.dataBeg, s.dataEnd) by {
      assert s.sent == s.sent[..|s.recvd|] + s.sent[|s.recvd|..];
    }
    assert s.recvd == l.taken + l.got + Fetched(l) by {
      if l.fetching { assert s.recvd == s.recvd[..l.mark] + s.recvd[l.mark..]; }
    }
    hide Ring, Contents;
  }

  // ---------------------------------------------------------------- waiting ends

  /** How far the writer is from the end of what it can do alone. */
  function WriterStage(w: Writer): nat {
    match w
    case WWoken(_) => 9
    case WTest(_) => 8
    case WSignal(_) => 7
    case WLoop(_) => 6
    case WFlagged(_) => 5
    case WBegin(_, _) => 4
    case WEnd(_, _, _) => 3
    case WCopy(_, _, _, _) => 2
    case WWait(_) => 1
    case WIdle => 0
  }

  function ReaderStage(r: Reader): nat {
    match r
    case RWoken(_, _) => 9
    case RTest(_, _) => 8
    case RSignal(_, _) => 7
    case RLoop(_, _) => 6
    case RFlagged(_, _) => 5
    case RBegin(_, _, _) => 4
    case REnd(_, _, _, _) => 3
    case RCopy(_, _, _, _, _) => 2
    case RWait(_, _) => 1
    case RIdle => 0
  }

  function One(b: bool): nat {
    if b then 1 else 0
  }

  /** Bytes on their way: to be published, fetched, and put into the get area. */
  function Travelling(l: Link): int {
    |Unpublished(l.ring.writer)| + 2 * (|l.ring.put| - |l.ring.recvd|) + |Fetched(l)|
  }

  /** Events that are set, and sides that may be about to set one. */
  function Signals(s: Channel): nat {
    One(s.rd) + One(s.rtt) + One(s.writer.WTest? || s.writer.WSignal?) + One(s.reader.RTest? || s.reader.RSignal?)
  }

  function Stage(s: Channel): nat {
    WriterStage(s.writer) + ReaderStage(s.reader)
  }

  function ToCopy(s: Channel): nat {
    CopiesLeft(s.writer) + BytesLeft(s.reader)
  }

  /** What every inside step lowers, in the order of its parts. */
  ghost predicate RingLower(s: Channel, t: Channel) {
    || Signals(t) < Signals(s)
    || (Signals(t) == Signals(s) && Stage(t) < Stage(s))
    || (Signals(t) == Signals(s) && Stage(t) == Stage(s) && ToCopy(t) < ToCopy(s))
  }

  ghost predicate Lower(l: Link, m: Link) {
    || Travelling(m) < Travelling(l)
    || (Travelling(m) == Travelling(l) && m.want < l.want)
    || (Travelling(m) == Travelling(l) && m.want == l.want && One(m.fetching) > One(l.fetching))
    || (Travelling(m) == Travelling(l) && m.want == l.want && m.fetching == l.fetching && RingLower(l.ring, m.ring))
  }

  ghost predicate WriterLower(s: Channel, t: Channel) {
    || |Unpublished(t.writer)| < |Unpublished(s.writer)|
    || (|Unpublished(t.writer)| == |Unpublished(s.writer)| && RingLower(s, t))
  }

  lemma {:induction false} CopyLowers(s: Channel)
    requires WriterOk(s) && s.writer.WCopy? && WriterStep(s).Some?
    ensures WriterLower(s, WriterStep(s).value)
  {
    hide Advance;
  }

  lemma {:induction false} LoopLowers(s: Channel)
    requires (s.writer.WLoop? || s.writer.WFlagged? || s.writer.WBegin? || s.writer.WEnd?) && WriterStep(s).Some?
    ensures WriterLower(s, WriterStep(s).value)
  {
    hide Space;
  }

  lemma {:induction false} SignalLowers(s: Channel)
    requires (s.writer.WTest? || s.writer.WSignal? || s.writer.WWait? || s.writer.WWoken?) && WriterStep(s).Some?
    ensures WriterLower(s, WriterStep(s).value)
  {}

  lemma {:induction false} WriterLowers(s: Channel)
    requires WriterOk(s) && WriterStep(s).Some?
    ensures WriterLower(s, WriterStep(s).value)
  {
    hide WriterLower, WriterOk;
    if s.writer.WCopy? {
      CopyLowers(s);
    } else if s.writer.WLoop? || s.writer.WFlagged? || s.writer.WBegin? || s.writer.WEnd? {
      LoopLowers(s);
    } else {
      SignalLowers(s);
    }
  }

  ghost predicate ReaderLower(s: Channel, t: Channel) {
    |t.recvd| > |s.recvd| || (t.recvd == s.recvd && RingLower(s, t))
  }

  lemma {:induction false} FetchLowers(s: Channel)
    requires ReaderOk(s) && s.reader.RCopy? && ReaderStep(s).Some?
    ensures ReaderLower(s, ReaderStep(s).value)
  {
    hide Advance;
  }

  lemma {:induction false} SeekLowers(s: Channel)
    requires (s.reader.RLoop? || s.reader.RFlagged? || s.reader.RBegin? || s.reader.REnd?) && ReaderStep(s).Some?
    ensures ReaderLower(s, ReaderStep(s).value)
  {
    hide Available;
  }

  lemma {:induction false} WakeLowers(s: Channel)
    requires (s.reader.RTest? || s.reader.RSignal? || s.reader.RWait? || s.reader.RWoken?) && ReaderStep(s).Some?
    ensures ReaderLower(s, ReaderStep(s).value)
  {}

  lemma {:induction false} ReaderLowers(s: Channel)
    requires ReaderOk(s) && ReaderStep(s).Some?
    ensures ReaderLower(s, ReaderStep(s).value)
  {
    hide ReaderLower, ReaderOk;
    if s.reader.RCopy? {
      FetchLowers(s);
    } else if s.reader.RLoop? || s.reader.RFlagged? || s.reader.RBegin? || s.reader.REnd? {
      SeekLowers(s);
    } else {
      WakeLowers(s);
    }
  }

  /** No inside step can go on for ever: in every interleaving only finitely many happen between two calls. */
  lemma {:induction false} InsideLowers(l: Link, a: Act)
    requires LinkInv(l) && Inside(a) && Next(l, a).Some?
    ensures Lower(l, Next(l, a).value) && 0 <= Travelling(Next(l, a).value)
  {
    assert |l.ring.recvd| <= |l.ring.sent| && |l.ring.sent| <= |l.ring.put|;
    ActKeepsInv(l, a);
    match a
    case WriterActs =>
      WriterLowers(l.ring);
      WriterEffect(l.ring);
    case ReaderActs =>
      ReaderLowers(l.ring);
      ReaderEffect(l.ring);
      ReaderKeepsWriter(l.ring);
    case _ =>
  }

  // ---------------------------------------------------------------- gets complete

  /** No inside step is possible. */
  predicate AtRest(l: Link) {
    && Next(l, Take).None? && Next(l, Fetch).None? && Next(l, Fill).None?
    && Next(l, WriterActs).None? && Next(l, ReaderActs).None?
  }

  lemma {:induction false} WriterRests(s: Channel)
    requires Inv(s) && WriterStep(s).None?
    ensures s.writer.WIdle? || (s.writer.WWait? && !s.rtt)
  {
    assert WriterOk(s) && s.dataEnd < |s.buf|;
    hide Inv, Ring, ReaderOk, NoLostWakeUp, Space;
  }

  lemma {:induction false} ReaderRests(s: Channel)
    requires Inv(s) && ReaderStep(s).None?
    ensures s.reader.RIdle? || (s.reader.RWait? && !s.rd && s.reader.need > 0)
  {
    assert ReaderOk(s) && s.dataBeg < |s.buf| && |s.recvd| <= |s.sent|;
    hide Inv, Ring, WriterOk, NoLostWakeUp, Available;
  }

  /** Neither side can move: the reader has had everything, or the writer waits with the ring full. */
  lemma {:induction false} RingRests(s: Channel)
    requires Inv(s) && WriterStep(s).None? && ReaderStep(s).None?
    ensures s.reader.RWait? ==> s.reader.need > 0 && s.writer.WIdle? && s.recvd == s.put
    ensures s.reader.RIdle? ==> s.writer.WIdle? || (s.writer.WWait? && Pending(s) == |s.buf| - 1)
    ensures s.reader.RIdle? || s.reader.RWait?
  {
    WriterRests(s);
    ReaderRests(s);
    assert |s.buf| >= 2 && Pending(s) <= |s.buf| - 1 && s.recvd == s.sent[..|s.recvd|];
    assert s.put == s.sent + Unpublished(s.writer);
    hide Ring, ReaderOk, WriterOk;
  }

  /**
   At rest a get under way has been given everything that was flushed, and still wants more; with no get
   under way the sender is back from `Write`, or waits with the ring full.
   */
  lemma {:induction false} RestMeans(l: Link)
    requires LinkInv(l) && AtRest(l)
    ensures l.want > 0 ==> l.ring.writer.WIdle? && l.taken == l.ring.put
    ensures l.want == 0 ==> l.ring.writer.WIdle? || (l.ring.writer.WWait? && Pending(l.ring) == |l.ring.buf| - 1)
  {
    RingRests(l.ring);
    hide Inv, WriterStep, ReaderStep;
    if l.fetching { assert l.ring.recvd[..l.mark] == l.ring.recvd; }
  }

  /** Inside steps only, from any state. */
  ghost predicate IsInsideRun(states: seq<Link>, acts: seq<Act>) {
    && |states| == |acts| + 1
    && forall i :: 0 <= i < |acts| ==> Inside(acts[i]) && Next(states[i], acts[i]) == Some(states[i + 1])
  }

  /** What inside steps leave alone. */
  ghost predicate Same(l: Link, m: Link) {
    m.ring.put == l.ring.put && m.given == l.given && |m.taken| + m.want == |l.taken| + l.want
  }

  lemma {:induction false} InsideKeeps(l: Link, a: Act)
    requires LinkInv(l) && Inside(a) && Next(l, a).Some?
    ensures Same(l, Next(l, a).value)
  {
    hide Inv, ReceiverOk;
    match a
    case WriterActs => WriterEffect(l.ring);
    case ReaderActs => ReaderKeepsWriter(l.ring);
    case _ =>
  }

  lemma {:induction false} InsideRunKeeps(states: seq<Link>, acts: seq<Act>, i: nat)
    requires IsInsideRun(states, acts) && LinkInv(states[0]) && i < |states|
    ensures LinkInv(states[i]) && Same(states[0], states[i])
  {
    if i > 0 {
      hide LinkInv, Next;
      InsideRunKeeps(states, acts, i - 1);
      assert Next(states[i - 1], acts[i - 1]) == Some(states[i - 1 + 1]);
      ActKeepsInv(states[i - 1], acts[i - 1]);
      InsideKeeps(states[i - 1], acts[i - 1]);
    }
  }

  /**
   A get completes by itself: however the inside steps interleave, once they have come to an end the get has
   taken as many bytes as it asked for, the next ones in order, if so many have been flushed; otherwise all
   that have been, and it goes on waiting for the others.
   */
  lemma {:induction false} GetsComplete(states: seq<Link>, acts: seq<Act>)
    requires IsInsideRun(states, acts) && LinkInv(states[0]) && AtRest(states[|acts|])
    ensures var l, m := states[0], states[|acts|];
      && |m.taken| == Min(|l.taken| + l.want, |l.ring.put|) && m.taken <= l.given
      && (m.want == 0 <==> |l.taken| + l.want <= |l.ring.put|)
  {
    InsideRunKeeps(states, acts, |acts|);
    var m := states[|acts|];
    RestMeans(m);
    TakenIsGiven(m);
    hide LinkInv, AtRest, IsInsideRun;
  }

  lemma {:induction false} TakenIsGiven(l: Link)
    requires LinkInv(l)
    ensures l.taken <= l.ring.put <= l.given
  {
    var s := l.ring;
    assert |s.recvd| <= |s.sent| && s.recvd == s.sent[..|s.recvd|] && s.sent <= s.put;
    hide Inv;
  }

  /** And they do come to an end, whichever is taken next. */
  lemma {:induction false} ComesToRest(l: Link, choose: Link -> Act) returns (states: seq<Link>, acts: seq<Act>)
    requires LinkInv(l)
    requires forall m: Link :: !AtRest(m) ==> Inside(choose(m)) && Next(m, choose(m)).Some?
    ensures IsInsideRun(states, acts) && states[0] == l && AtRest(states[|acts|])
    ensures forall i :: 0 <= i < |acts| ==> acts[i] == choose(states[i])
    decreases Travelling(l), l.want, 1 - One(l.fetching), Signals(l.ring), Stage(l.ring), ToCopy(l.ring)
  {
    if AtRest(l) {
      states, acts := [l], [];
    } else {
      var m := Next(l, choose(l)).value;
      InsideLowers(l, choose(l));
      ActKeepsInv(l, choose(l));
      hide LinkInv, Next, AtRest;
      var rest, more := ComesToRest(m, choose);
      states, acts := [l] + rest, [choose(l)] + more;
      forall i | 0 <= i < |acts|
        ensures Inside(acts[i]) && Next(states[i], acts[i]) == Some(states[i + 1]) && acts[i] == choose(states[i])
      {
        if i > 0 { assert states[i] == rest[i - 1] && acts[i] == more[i - 1] && states[i + 1] == rest[i]; }
      }
    }
  }
}
