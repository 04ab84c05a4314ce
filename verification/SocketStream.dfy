/**
 The stream buffers at the two ends of a socket. Put and get areas are arrays that are filled and
 emptied in place. Transfers succeed; a read blocks until at least one byte has come or the peer has
 closed.
 */
module SocketStream {
  import opened LocalChannel

  const EOF := -1

  /** One direction of a connected socket: the bytes written and not yet read. */
  class Wire {
    var bytes: seq<Byte>
    var closed: bool

    constructor ()
      ensures bytes == [] && !closed
    {
      bytes, closed := [], false;
    }

    method Write(data: seq<Byte>)
      requires !closed
      modifies this`bytes
      ensures bytes == old(bytes) + data
    {
      bytes := bytes + data;
    }

    method Close()
      modifies this`closed
      ensures closed
    {
      closed := true;
    }

    /** The call blocks: meanwhile the peer writes something or closes. */
    method Await() returns (arrived: seq<Byte>)
      requires bytes == [] && !closed
      modifies this
      ensures bytes == arrived && (arrived == [] ==> closed)
    {
      arrived, closed := *, *;
      if arrived == [] { closed := true; }
      bytes := arrived;
    }

    /** Any number of bytes that the socket has and the caller asked for; none only when the peer has closed. */
    method Read(buf: array<Byte>) returns (n: int, arrived: seq<Byte>)
      requires buf.Length > 0
      modifies this, buf
      ensures old(bytes) != [] || old(closed) ==> arrived == [] && closed == old(closed)
      ensures old(bytes) + arrived == [] ==> n == EOF && closed && bytes == [] && buf[..] == old(buf[..])
      ensures old(bytes) + arrived != [] ==> 0 < n <= buf.Length && buf[..n] + bytes == old(bytes) + arrived
    {
      arrived := [];
      if bytes == [] && !closed {
        arrived := Await();
      }
      if bytes == [] { return EOF, arrived; }
      var most := Min(|bytes|, buf.Length);
      n := *;
      if !(0 < n <= most) { n := most; }
      ghost var there, isClosed := bytes, closed;
      for i := 0 to n
        invariant bytes == there && closed == isClosed && buf[..i] == bytes[..i]
      {
        buf[i] := bytes[i];
      }
      bytes := bytes[n..];
    }
  }

  /** A get that goes on after waiting: `arrived`, then `later`, came behind what was there. */
  lemma Continued(all: seq<Byte>, s: seq<Byte>, rest: seq<Byte>, arrived: seq<Byte>, there: seq<Byte>,
                  more: seq<Byte>, coming: seq<Byte>, later: seq<Byte>)
    requires s + rest == all && there == rest + arrived && more + coming == there + later
    ensures (s + more) + coming == all + (arrived + later)
  {
    assert (s + more) + coming == s + (more + coming);
    assert s + (there + later) == (s + rest) + (arrived + later);
  }

  class SocketBuffer {
    const outWire: Wire
    const inWire: Wire
    const outBuffer: array<Byte>
    const inBuffer: array<Byte>
    /** Put area: bytes below `pptr` are to be written. Get area: bytes from `gptr` to `egptr` are to be read. */
    var pptr: nat
    var gptr: nat
    var egptr: nat

    ghost predicate Valid()
      reads this
    {
      && outWire != inWire && outBuffer != inBuffer && outBuffer.Length == inBuffer.Length > 0
      && pptr <= outBuffer.Length && gptr <= egptr <= inBuffer.Length
    }

    constructor (outWire: Wire, inWire: Wire, bufferSize: nat)
      requires outWire != inWire && bufferSize > 0
      ensures Valid() && fresh(outBuffer) && fresh(inBuffer) && this.outWire == outWire && this.inWire == inWire
      ensures outBuffer.Length == bufferSize && pptr == 0 && gptr == egptr
    {
      this.outWire, this.inWire := outWire, inWire;
      inBuffer := new Byte[bufferSize];
      outBuffer := new Byte[bufferSize];
      gptr, egptr := bufferSize, bufferSize;
      pptr := 0;
    }

    /** Bytes put and not yet written to the socket. */
    ghost function Waiting(): seq<Byte>
      requires Valid()
      reads this, outBuffer
    {
      outBuffer[..pptr]
    }

    /** Bytes that can be got without blocking: those in the get area, then those of the socket. */
    ghost function Coming(): seq<Byte>
      requires Valid()
      reads this, inBuffer, inWire
    {
      inBuffer[gptr..egptr] + inWire.bytes
    }

    // -------------------------------------------------------------- putting

    method Sync() returns (r: int)
      requires Valid() && !outWire.closed
      modifies this`pptr, outWire`bytes
      ensures Valid() && r == 0 && Waiting() == []
      ensures outWire.bytes == old(outWire.bytes + Waiting())
    {
      if 0 < pptr <= outBuffer.Length {
        outWire.Write(outBuffer[..pptr]);
        pptr := 0;
      }
      return 0;
    }

    method Overflow(ch: int) returns (r: int)
      requires Valid() && !outWire.closed
      modifies this`pptr, outBuffer, outWire`bytes
      ensures Valid()
      ensures pptr == if ch == EOF then 0 else if old(pptr) == outBuffer.Length then 1 else old(pptr) + 1
      ensures ch == EOF ==> r == 0 && Waiting() == []
      ensures outWire.bytes + Waiting() == old(outWire.bytes + Waiting()) + if ch == EOF then [] else [ch % 256]
      ensures ch != EOF ==> r == ch
    {
      if ch == EOF {
        r := Sync();
        return;
      }
      if pptr == outBuffer.Length {
        var _ := Sync();
      }
      outBuffer[pptr] := ch % 256;
      pptr := pptr + 1;
      return ch;
    }

    /** Appends to the put area; the caller has seen to it that there is room. */
    method Copy(s: seq<Byte>)
      requires Valid() && pptr + |s| <= outBuffer.Length
      modifies this`pptr, outBuffer
      ensures Valid() && pptr == old(pptr) + |s| && Waiting() == old(Waiting()) + s
    {
      for i := 0 to |s|
        invariant pptr == old(pptr) && outBuffer[..pptr + i] == old(Waiting()) + s[..i]
      {
        outBuffer[pptr + i] := s[i];
      }
      pptr := pptr + |s|;
    }

    /** On a full put area nothing is copied before the recursive call, but then the area is empty. */
    method Xsputn(s: seq<Byte>) returns (count: int)
      requires Valid() && !outWire.closed
      modifies this`pptr, outBuffer, outWire`bytes
      ensures Valid() && count == |s| && pptr == Held(old(pptr), |s|, outBuffer.Length)
      ensures outWire.bytes + Waiting() == old(outWire.bytes + Waiting()) + s
      decreases |s|, if pptr == outBuffer.Length then 1 else 0
    {
      var room := outBuffer.Length - pptr;
      if |s| <= room {
        Copy(s);
        return |s|;
      }
      Copy(s[..room]);
      var flushed := Overflow(EOF);
      assert s == s[..room] + s[room..];
      if flushed != EOF {
        var more := Xsputn(s[room..]);
        return room + more;
      }
      return room;
    }

    // -------------------------------------------------------------- getting

    /** The next byte without taking it; `arrived` is what the peer wrote if the call had to wait. */
    method Underflow() returns (r: int, arrived: seq<Byte>)
      requires Valid()
      modifies this`gptr, this`egptr, inBuffer, inWire
      ensures Valid() && Coming() == old(Coming()) + arrived
      ensures old(Coming()) != [] || old(inWire.closed) ==> arrived == [] && inWire.closed == old(inWire.closed)
      ensures r == if Coming() == [] then EOF else Coming()[0]
      ensures r == EOF <==> gptr == egptr
      ensures r == EOF ==> inWire.closed
    {
      if gptr < egptr { return inBuffer[gptr], []; }
      var n: int;
      n, arrived := inWire.Read(inBuffer);
      if n <= 0 { return EOF, arrived; }
      gptr, egptr := 0, n;
      return inBuffer[gptr], arrived;
    }

    /** Takes the next byte; the end only when the peer has closed and nothing is left. */
    method Uflow() returns (r: int, arrived: seq<Byte>)
      requires Valid()
      modifies this`gptr, this`egptr, inBuffer, inWire
      ensures Valid()
      ensures old(Coming()) != [] || old(inWire.closed) ==> arrived == [] && inWire.closed == old(inWire.closed)
      ensures var all := old(Coming()) + arrived;
        if all == [] then r == EOF && inWire.closed && Coming() == [] else r == all[0] && Coming() == all[1..]
    {
      r, arrived := Underflow();
      if r == EOF { return; }
      gptr := gptr + 1;
    }

    /** Takes as many bytes as asked for, waiting for them; fewer only when the peer has closed. */
    method Xsgetn(n: nat) returns (s: seq<Byte>, arrived: seq<Byte>)
      requires Valid()
      modifies this`gptr, this`egptr, inBuffer, inWire
      ensures Valid() && s + Coming() == old(Coming()) + arrived
      ensures |s| == n || (|s| < n && inWire.closed && Coming() == [])
      ensures n <= |old(Coming())| || old(inWire.closed) ==> arrived == [] && inWire.closed == old(inWire.closed)
      decreases n, if gptr == egptr then 1 else 0
    {
      var have := if gptr < egptr then egptr - gptr else 0;
      if have >= n {
        s, arrived := inBuffer[gptr..gptr + n], [];
        gptr := gptr + n;
        return;
      }
      s := inBuffer[gptr..egptr];
      gptr := gptr + have;
      ghost var rest := Coming();
      assert s + rest == old(Coming());
      var next: int;
      next, arrived := Underflow();
      if next != EOF {
        ghost var there := Coming();
        var more, later := Xsgetn(n - have);
        Continued(old(Coming()), s, rest, arrived, there, more, Coming(), later);
        s, arrived := s + more, arrived + later;
      } else {
        Continued(old(Coming()), s, rest, arrived, Coming(), [], Coming(), []);
      }
    }
  }

  // ---------------------------------------------------------------- end to end

  datatype Op = PutByte(ch: Byte) | PutBytes(s: seq<Byte>) | Flush | Shut | Peek | GetByte | GetBytes(n: nat)

  /** Bytes in a put area of `size` slots that held `p` when `n` more have been put. */
  function Held(p: nat, n: nat, size: nat): (r: nat)
    requires p <= size && size > 0
    ensures r <= size
    decreases n, if p == size then 1 else 0
  {
    if n <= size - p then p + n else Held(0, n - (size - p), size)
  }

  lemma OneHeld(p: nat, size: nat)
    requires p <= size && size > 0
    ensures Held(p, 1, size) == if p == size then 1 else p + 1
  {
    assert Held(0, 1, size) == 1;
  }

  /** How many bytes wait in the put area, can be got, and have been got. */
  datatype Tally = Tally(waiting: nat, coming: nat, closed: bool, got: nat)

  /** An operation of the sender after the end of its stream, or of the receiver that would block, does nothing. */
  function Performs(t: Tally, op: Op, size: nat): (r: Tally)
    requires t.waiting <= size && size > 0
    ensures r.waiting <= size
  {
    match op
    case PutByte(_) => if t.closed then t else Puts(t, 1, size)
    case PutBytes(s) => if t.closed then t else Puts(t, |s|, size)
    case Flush => if t.closed then t else t.(waiting := 0, coming := t.coming + t.waiting)
    case Shut => if t.closed then t else t.(waiting := 0, coming := t.coming + t.waiting, closed := true)
    case Peek => t
    case GetByte => Gets(t, 1)
    case GetBytes(n) => Gets(t, n)
  }

  function Puts(t: Tally, n: nat, size: nat): (r: Tally)
    requires t.waiting <= size && size > 0
    ensures r.waiting <= size
  {
    var held := Held(t.waiting, n, size);
    HeldBelow(t.waiting, n, size);
    t.(waiting := held, coming := t.coming + t.waiting + n - held)
  }

  lemma HeldBelow(p: nat, n: nat, size: nat)
    requires p <= size && size > 0
    ensures Held(p, n, size) <= p + n
    decreases n, if p == size then 1 else 0
  {}

  function Gets(t: Tally, n: nat): Tally {
    if n <= t.coming then t.(coming := t.coming - n, got := t.got + n)
    else if t.closed then t.(coming := 0, got := t.got + t.coming)
    else t
  }

  function PerformsAll(t: Tally, ops: seq<Op>, size: nat): (r: Tally)
    requires t.waiting <= size && size > 0
    ensures r.waiting <= size
    decreases |ops|
  {
    if ops == [] then t else PerformsAll(Performs(t, ops[0], size), ops[1..], size)
  }

  /** The bytes handed over by puts before the end of the sender's stream. */
  function BytesPut(ops: seq<Op>, closed: bool): seq<Byte>
    decreases |ops|
  {
    if ops == [] || closed then []
    else
      (match ops[0]
       case PutByte(ch) => [ch]
       case PutBytes(s) => s
       case _ => []) + BytesPut(ops[1..], ops[0].Shut?)
  }

  lemma {:induction false} BytesPutStep(ops: seq<Op>, closed: bool)
    requires ops != []
    ensures BytesPut(ops, closed) ==
            (if closed then [] else BytesPut([ops[0]], false)) + BytesPut(ops[1..], closed || ops[0].Shut?)
  {
    assert [ops[0]][1..] == [];
    assert BytesPut([], ops[0].Shut?) == [];
  }

  lemma Associate(a: seq<Byte>, b: seq<Byte>, c: seq<Byte>)
    ensures (a + b) + c == a + (b + c)
  {}

  lemma PerformsClosed(t: Tally, op: Op, size: nat)
    requires t.waiting <= size && size > 0
    ensures Performs(t, op, size).closed == (t.closed || op.Shut?)
  {}

  /** No byte is lost or made up: what is got, can be got and waits is what was put. */
  lemma {:induction false} TallyConserves(t: Tally, ops: seq<Op>, size: nat)
    requires t.waiting <= size && size > 0
    ensures var r := PerformsAll(t, ops, size);
      r.got + r.coming + r.waiting == t.got + t.coming + t.waiting + |BytesPut(ops, t.closed)| && t.got <= r.got
    decreases |ops|
  {
    if ops != [] { TallyConserves(Performs(t, ops[0], size), ops[1..], size); }
  }

  lemma {:induction false} Regrouped(was: seq<Byte>, s: seq<Byte>, coming: seq<Byte>, before: seq<Byte>)
    requires s + coming == before
    ensures was + s + coming == was + before
  {
    assert was + s + coming == was + (s + coming);
  }

  /** Two stream buffers, one at each end of a wire, and what went in and came out so far. */
  class Connection {
    const sender: SocketBuffer
    const receiver: SocketBuffer
    ghost var put: seq<Byte>
    var delivered: seq<Byte>

    ghost predicate Valid()
      reads this, sender, receiver, sender.outBuffer, receiver.inBuffer, receiver.inWire
    {
      && sender != receiver && sender.outBuffer != receiver.inBuffer && sender.outWire == receiver.inWire
      && sender.Valid() && receiver.Valid()
      && put == delivered + receiver.Coming() + sender.Waiting()
    }

    ghost function Count(): (t: Tally)
      requires Valid()
      reads this, sender, receiver, sender.outBuffer, receiver.inBuffer, receiver.inWire
      ensures t.waiting <= sender.outBuffer.Length
    {
      Tally(sender.pptr, |receiver.Coming()|, receiver.inWire.closed, |delivered|)
    }

    constructor (bufferSize: nat)
      requires bufferSize > 0
      ensures Valid() && put == [] && delivered == [] && Count() == Tally(0, 0, false, 0)
      ensures sender.outBuffer.Length == bufferSize
      ensures fresh(sender) && fresh(receiver) && fresh(sender.outBuffer) && fresh(receiver.inBuffer)
        && fresh(sender.outWire)
    {
      var there := new Wire();
      var back := new Wire();
      sender := new SocketBuffer(there, back, bufferSize);
      receiver := new SocketBuffer(back, there, bufferSize);
      put, delivered := [], [];
    }

    method SendByte(ch: Byte)
      requires Valid() && !sender.outWire.closed
      modifies this`put, sender`pptr, sender.outBuffer, sender.outWire`bytes
      ensures Valid() && put == old(put) + [ch]
      ensures Count() == Puts(old(Count()), 1, sender.outBuffer.Length)
    {
      Regroup();
      OneHeld(sender.pptr, sender.outBuffer.Length);
      var _ := sender.Overflow(ch);
      put := put + [ch];
      Ungroup();
    }

    method Send(s: seq<Byte>)
      requires Valid() && !sender.outWire.closed
      modifies this`put, sender`pptr, sender.outBuffer, sender.outWire`bytes
      ensures Valid() && put == old(put) + s
      ensures Count() == Puts(old(Count()), |s|, sender.outBuffer.Length)
    {
      Regroup();
      var _ := sender.Xsputn(s);
      put := put + s;
      Ungroup();
    }

    method FlushAll()
      requires Valid() && !sender.outWire.closed
      modifies sender`pptr, sender.outWire`bytes
      ensures Valid() && sender.Waiting() == []
      ensures Count() == Performs(old(Count()), Flush, sender.outBuffer.Length)
    {
      Regroup();
      var _ := sender.Sync();
      Ungroup();
    }

    /** The sender's stream ends: what still waits is written, then the socket is closed. */
    method CloseAfterFlush()
      requires Valid() && !sender.outWire.closed
      modifies sender`pptr, sender.outWire
      ensures Valid() && sender.Waiting() == [] && sender.outWire.closed
      ensures Count() == Performs(old(Count()), Shut, sender.outBuffer.Length)
    {
      FlushAll();
      sender.outWire.Close();
    }

    ghost function Fetched(): seq<Byte>
      requires receiver.Valid()
      reads receiver, receiver.inBuffer
    {
      receiver.inBuffer[receiver.gptr..receiver.egptr]
    }

    lemma Regroup()
      requires Valid()
      ensures put == delivered + Fetched() + (sender.outWire.bytes + sender.Waiting())
    {}

    lemma Ungroup()
      requires sender.Valid() && receiver.Valid() && sender.outWire == receiver.inWire
      requires put == delivered + Fetched() + (sender.outWire.bytes + sender.Waiting())
      ensures put == delivered + receiver.Coming() + sender.Waiting()
    {}

    /** The receiver can take `n` bytes without blocking. */
    predicate Ready(n: nat)
      requires receiver.gptr <= receiver.egptr
      reads receiver, receiver.inWire
    {
      n <= receiver.egptr - receiver.gptr + |receiver.inWire.bytes| || receiver.inWire.closed
    }

    method ReceiveByte() returns (r: int)
      requires Valid() && Ready(1)
      modifies this`delivered, receiver`gptr, receiver`egptr, receiver.inBuffer, sender.outWire
      ensures Valid() && sender.Waiting() == old(sender.Waiting())
      ensures delivered + receiver.Coming() == old(delivered + receiver.Coming()) && old(delivered) <= delivered
      ensures Count() == Gets(old(Count()), 1) && (r == EOF <==> old(receiver.Coming()) == [])
    {
      var arrived: seq<Byte>;
      r, arrived := receiver.Uflow();
      if r != EOF { delivered := delivered + [r]; }
    }

    method Receive(n: nat)
      requires Valid() && Ready(n)
      modifies this`delivered, receiver`gptr, receiver`egptr, receiver.inBuffer, sender.outWire
      ensures Valid() && sender.Waiting() == old(sender.Waiting())
      ensures delivered + receiver.Coming() == old(delivered + receiver.Coming()) && old(delivered) <= delivered
      ensures Count() == Gets(old(Count()), n)
    {
      ghost var was, coming := delivered, receiver.Coming();
      var s, arrived := receiver.Xsgetn(n);
      Regrouped(was, s, receiver.Coming(), coming);
      delivered := delivered + s;
    }

    /**
     Whatever the mix of operations: the bytes put are those handed over, in order; the bytes delivered
     are a prefix of them, as many as the receiver asked for and the flushes of the sender let through;
     once the sender has flushed and the receiver has nothing more to get, they are all of them.
     */
    method PerformAll(ops: seq<Op>)
      requires Valid()
      modifies this, sender, receiver, sender.outBuffer, receiver.inBuffer, sender.outWire
      ensures Valid() && put == old(put) + BytesPut(ops, old(sender.outWire.closed))
      ensures Count() == PerformsAll(old(Count()), ops, sender.outBuffer.Length)
      ensures old(delivered) <= delivered && delivered == put[..Count().got]
      ensures sender.Waiting() == [] && receiver.Coming() == [] ==> delivered == put
    {
      var i := 0;
      assert ops[0..] == ops;
      while i < |ops|
        invariant 0 <= i <= |ops| && Valid() && old(delivered) <= delivered
        invariant old(put) + BytesPut(ops, old(sender.outWire.closed))
                  == put + BytesPut(ops[i..], sender.outWire.closed)
        invariant PerformsAll(old(Count()), ops, sender.outBuffer.Length) ==
                  PerformsAll(Count(), ops[i..], sender.outBuffer.Length)
      {
        assert ops[i..][0] == ops[i] && ops[i..][1..] == ops[i + 1..];
        ghost var before, were, t := put, sender.outWire.closed, Count();
        BytesPutStep(ops[i..], were);
        PerformsClosed(t, ops[i], sender.outBuffer.Length);
        Perform(ops[i]);
        Associate(before, if were then [] else BytesPut([ops[i]], false),
                  BytesPut(ops[i + 1..], sender.outWire.closed));
        i := i + 1;
      }
      assert ops[i..] == [];
    }

    /** One operation, unless it comes after the end of the sender's stream or would block. */
    method Perform(op: Op)
      requires Valid()
      modifies this, sender, receiver, sender.outBuffer, receiver.inBuffer, sender.outWire
      ensures Valid() && old(delivered) <= delivered
      ensures put == old(put) + if old(sender.outWire.closed) then [] else BytesPut([op], false)
      ensures Count() == Performs(old(Count()), op, sender.outBuffer.Length)
    {
      match op
      case PutByte(ch) => if !sender.outWire.closed { SendByte(ch); }
      case PutBytes(s) => if !sender.outWire.closed { Send(s); }
      case Flush => if !sender.outWire.closed { FlushAll(); }
      case Shut => if !sender.outWire.closed { CloseAfterFlush(); }
      case Peek => if Ready(1) { var _, _ := receiver.Underflow(); }
      case GetByte => if Ready(1) { var _ := ReceiveByte(); }
      case GetBytes(n) => if Ready(n) { Receive(n); }
    }

    /** After the sender's stream has ended, getting until the end delivers everything that was put. */
    method CloseAndDrain()
      requires Valid() && !sender.outWire.closed
      modifies this`delivered, sender`pptr, receiver`gptr, receiver`egptr, receiver.inBuffer, sender.outWire
      ensures Valid() && delivered == put
    {
      CloseAfterFlush();
      var next := 0;
      while next != EOF
        invariant Valid() && sender.Waiting() == [] && sender.outWire.closed
        invariant next == EOF ==> receiver.Coming() == []
        decreases |receiver.Coming()|, next != EOF
      {
        next := ReceiveByte();
      }
    }
  }
}
