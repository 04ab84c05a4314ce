/**
 Both directions of a local socket. A writer that wakes from a wait for space clears the wait flag of
 the buffer it reads from, not of the one it writes to. This never disturbs the bytes, but it can cost
 the other end its wake-up: exactly when, and what callers can do about it.
 */
module LocalDuplex {
  import opened Wrappers
  import opened LocalChannel

  /** The buffer from A to B, and the one from B to A. */
  datatype Duplex = Duplex(ab: Channel, ba: Channel)

  datatype Move = OnAB(a: Action) | OnBA(a: Action)

  function Cleared(s: Channel): Channel {
    s.(sendWaitFlag := false)
  }

  /** The end that woke up clears the flag of its other buffer. */
  function DuplexStep(d: Duplex, m: Move): Option<Duplex> {
    match m
    case OnAB(a) =>
      var s := Step(d.ab, a);
      if s.None? then None
      else Some(Duplex(s.value, if a.WriterMoves? && d.ab.writer.WWoken? then Cleared(d.ba) else d.ba))
    case OnBA(a) =>
      var s := Step(d.ba, a);
      if s.None? then None
      else Some(Duplex(if a.WriterMoves? && d.ba.writer.WWoken? then Cleared(d.ab) else d.ab, s.value))
  }

  ghost predicate IsDuplexRun(states: seq<Duplex>, moves: seq<Move>) {
    && |states| == |moves| + 1
    && |states[0].ab.buf| >= 2 && states[0].ab == Start(|states[0].ab.buf|, states[0].ab.buf)
    && |states[0].ba.buf| >= 2 && states[0].ba == Start(|states[0].ba.buf|, states[0].ba.buf)
    && forall i :: 0 <= i < |moves| ==> DuplexStep(states[i], moves[i]) == Some(states[i + 1])
  }

  // ---------------------------------------------------------------- runs of one direction

  /** The channel after some actions, if they are possible. */
  function After(s: Channel, acts: seq<Action>): Option<Channel>
    decreases |acts|
  {
    if acts == [] then Some(s)
    else
      match Step(s, acts[0])
      case None => None
      case Some(next) => After(next, acts[1..])
  }

  /** No writer wakes up on the way, so the other direction is left alone. */
  predicate Quiet(s: Channel, acts: seq<Action>)
    decreases |acts|
  {
    acts == [] ||
    (!(acts[0].WriterMoves? && s.writer.WWoken?) && Step(s, acts[0]).Some? && Quiet(Step(s, acts[0]).value, acts[1..]))
  }

  ghost predicate LeadsTo(s: Channel, s': Channel) {
    exists acts :: After(s, acts) == Some(s')
  }

  ghost predicate LeadsQuietly(s: Channel, s': Channel) {
    exists acts :: After(s, acts) == Some(s') && Quiet(s, acts)
  }

  lemma {:induction false} Stay(s: Channel)
    ensures LeadsQuietly(s, s)
  {
    var none: seq<Action> := [];
    assert After(s, none) == Some(s) && Quiet(s, none);
  }

  lemma {:induction false} First(s: Channel, a: Action, s': Channel)
    requires Step(s, a).Some? && !(a.WriterMoves? && s.writer.WWoken?) && LeadsQuietly(Step(s, a).value, s')
    ensures LeadsQuietly(s, s')
  {
    var acts :| After(Step(s, a).value, acts) == Some(s') && Quiet(Step(s, a).value, acts);
    assert ([a] + acts)[1..] == acts;
    assert After(s, [a] + acts) == Some(s') && Quiet(s, [a] + acts);
  }

  lemma {:induction false} Append(s: Channel, acts: seq<Action>, a: Action)
    requires Quiet(s, acts) && After(s, acts).Some? && Step(After(s, acts).value, a).Some?
    requires !(a.WriterMoves? && After(s, acts).value.writer.WWoken?)
    ensures After(s, acts + [a]) == Step(After(s, acts).value, a) && Quiet(s, acts + [a])
    decreases |acts|
  {
    if acts == [] {
      assert acts + [a] == [a];
    } else {
      assert (acts + [a])[1..] == acts[1..] + [a];
      Append(Step(s, acts[0]).value, acts[1..], a);
    }
  }

  lemma {:induction false} Then(s: Channel, m: Channel, a: Action)
    requires LeadsQuietly(s, m) && Step(m, a).Some? && !(a.WriterMoves? && m.writer.WWoken?)
    ensures LeadsQuietly(s, Step(m, a).value)
  {
    var acts :| After(s, acts) == Some(m) && Quiet(s, acts);
    Append(s, acts, a);
  }

  lemma {:induction false} AfterKeepsInv(s: Channel, acts: seq<Action>)
    requires Inv(s) && After(s, acts).Some?
    ensures Inv(After(s, acts).value)
    decreases |acts|
  {
    if acts != [] {
      hide Inv, Step;
      StepKeepsInv(s, acts[0]);
      AfterKeepsInv(Step(s, acts[0]).value, acts[1..]);
    }
  }

  // ---------------------------------------------------------------- a direction that is dead

  /** Both sides wait on an empty ring, and no event is set. */
  predicate Dead(s: Channel) {
    s.writer.WWait? && s.reader.RWait? && !s.rd && !s.rtt && s.recvd == s.sent
  }

  /** No action of its own is possible, and what happens in the other direction does not help. */
  lemma {:induction false} DeadForEver(d: Duplex, m: Move)
    requires DuplexStep(d, m).Some?
    ensures Dead(d.ab) ==> Dead(DuplexStep(d, m).value.ab) && m.OnBA?
    ensures Dead(d.ba) ==> Dead(DuplexStep(d, m).value.ba) && m.OnAB?
  {}

  lemma {:induction false} InvIsAlive(s: Channel)
    requires Inv(s)
    ensures !Dead(s)
  {}

  // ---------------------------------------------------------------- what holds whatever is cleared

  /** The invariant but for the writer's wake-up. */
  ghost predicate Sound(s: Channel) {
    Inv(s.(rtt := true))
  }

  lemma {:induction false} SoundFromInv(s: Channel)
    requires Inv(s)
    ensures Sound(s)
  {
    SameRing(s, s.(rtt := true));
    hide Ring;
  }

  lemma {:induction false} ClearedIsSound(s: Channel)
    requires Sound(s)
    ensures Sound(Cleared(s))
  {
    SameRing(s.(rtt := true), Cleared(s).(rtt := true));
    hide Ring;
  }

  lemma {:induction false} StepKeepsSound(s: Channel, a: Action)
    requires Sound(s) && Step(s, a).Some?
    ensures Sound(Step(s, a).value)
  {
    var t := s.(rtt := true);
    hide Inv;
    if a.WriterMoves? && s.writer.WWait? {
      assert t == s;
      StepKeepsInv(s, a);
      SoundFromInv(Step(s, a).value);
    } else {
      SameButEvent(s, a);
      hide Step;
      StepKeepsInv(t, a);
    }
  }

  lemma {:induction false} SameButEvent(s: Channel, a: Action)
    requires Step(s, a).Some? && !(a.WriterMoves? && s.writer.WWait?)
    ensures Step(s.(rtt := true), a) == Some(Step(s, a).value.(rtt := true))
  {
    match a
    case WriterMoves => WriterSameButEvent(s);
    case ReaderMoves => ReaderSameButEvent(s);
    case _ =>
  }

  lemma {:induction false} WriterSameButEvent(s: Channel)
    requires WriterStep(s).Some? && !s.writer.WWait?
    ensures WriterStep(s.(rtt := true)) == Some(WriterStep(s).value.(rtt := true))
  {
    match s.writer
    case WCopy(_, _, _, _) =>
    case WEnd(_, _, _) =>
    case _ =>
  }

  lemma {:induction false} ReaderSameButEvent(s: Channel)
    requires ReaderStep(s).Some?
    ensures ReaderStep(s.(rtt := true)) == Some(ReaderStep(s).value.(rtt := true))
  {
    match s.reader
    case RCopy(_, _, _, _, _) =>
    case REnd(_, _, _, _) =>
    case _ =>
  }

  lemma {:induction false} DuplexSound(states: seq<Duplex>, moves: seq<Move>, i: nat)
    requires IsDuplexRun(states, moves) && i < |states|
    ensures Sound(states[i].ab) && Sound(states[i].ba)
  {
    if i > 0 {
      DuplexSound(states, moves, i - 1);
      var d := states[i - 1];
      assert DuplexStep(d, moves[i - 1]) == Some(states[i - 1 + 1]);
      hide Sound, Step;
      match moves[i - 1]
      case OnAB(a) => StepKeepsSound(d.ab, a); ClearedIsSound(d.ba);
      case OnBA(a) => StepKeepsSound(d.ba, a); ClearedIsSound(d.ab);
    }
  }

  /** In every run of both directions the bytes of each arrive in order, and none is overwritten. */
  lemma {:induction false} BothInOrder(states: seq<Duplex>, moves: seq<Move>, i: nat)
    requires IsDuplexRun(states, moves) && i < |states|
    ensures forall s :: s in [states[i].ab, states[i].ba] ==>
      && s.dataBeg < |s.buf| && s.dataEnd < |s.buf|
      && s.recvd + Contents(s.buf, s.dataBeg, s.dataEnd) == s.sent && s.sent + Unpublished(s.writer) == s.put
  {
    DuplexSound(states, moves, i);
    forall s | s in [states[i].ab, states[i].ba]
      ensures s.dataBeg < |s.buf| && s.dataEnd < |s.buf|
      ensures s.recvd + Contents(s.buf, s.dataBeg, s.dataEnd) == s.sent && s.sent + Unpublished(s.writer) == s.put
    {
      var t := s.(rtt := true);
      ContentsAreUnread(t);
      assert s.sent == s.sent[..|s.recvd|] + s.sent[|s.recvd|..];
    }
  }

  // ---------------------------------------------------------------- when clearing the flag is fatal

  /** The writer waits or is about to, and nothing but its flag would wake it. */
  predicate LosesWakeUp(s: Channel) {
    BelievesFull(s) && !s.rtt && !s.reader.RSignal?
  }

  lemma {:induction false} ClearingKeepsInv(s: Channel)
    requires Inv(s)
    ensures Inv(Cleared(s)) <==> !LosesWakeUp(s)
  {
    SameRing(s, Cleared(s));
    hide Ring;
  }

  function WriterRank(w: Writer): nat {
    match w
    case WTest(_) => 8
    case WSignal(_) => 7
    case WLoop(_) => 6
    case WFlagged(_) => 5
    case WBegin(_, _) => 4
    case WEnd(_, _, _) => 3
    case WCopy(_, _, _, _) => 2
    case _ => 0
  }

  function ReaderRank(r: Reader): nat {
    match r
    case RTest(_, _) => 13
    case RSignal(_, _) => 12
    case RWoken(_, _) => 11
    case RLoop(need, _) => if need <= 0 then 10 else 6
    case RIdle => 9
    case RFlagged(_, _) => 5
    case RBegin(_, _, _) => 4
    case REnd(_, _, _, _) => 3
    case RCopy(_, _, _, _, _) => 2
    case RWait(_, _) => 1
  }

  /** Without its flag the writer goes to sleep, and the reader empties the ring without a signal. */
  lemma {:induction false} Dies(s: Channel) returns (s': Channel)
    requires Sound(s) && LosesWakeUp(s) && !s.sendWaitFlag
    ensures LeadsQuietly(s, s') && Dead(s') && s'.put == s.put && |s'.buf| == |s.buf|
    decreases WriterRank(s.writer), |s.sent| - |s.recvd|, s.rd, ReaderRank(s.reader), BytesLeft(s.reader)
  {
    if Dead(s) {
      s' := s;
      Stay(s);
    } else {
      var a := if !s.writer.WWait? then WriterMoves else if s.reader.RIdle? then StartRead(1, 1) else ReaderMoves;
      Wanes(s, a);
      StepKeepsSound(s, a);
      hide *;
      s' := Dies(Step(s, a).value);
      First(s, a, s');
    }
  }

  predicate ReaderWanes(s: Channel, t: Channel) {
    || Pending(t) < Pending(s)
    || (Pending(t) == Pending(s) && s.rd && !t.rd)
    || (Pending(t) == Pending(s) && t.rd == s.rd && ReaderRank(t.reader) < ReaderRank(s.reader))
    || (Pending(t) == Pending(s) && t.rd == s.rd && ReaderRank(t.reader) == ReaderRank(s.reader)
        && BytesLeft(t.reader) < BytesLeft(s.reader))
  }

  /** A step towards the end that neither raises the flag nor sets the event. */
  ghost predicate Closer(s: Channel, t: Channel) {
    && LosesWakeUp(t) && !t.sendWaitFlag && t.put == s.put && |t.buf| == |s.buf|
    && 0 <= Pending(t) && 0 <= Pending(s)
    && (if t.writer == s.writer then ReaderWanes(s, t) else WriterRank(t.writer) < WriterRank(s.writer))
  }

  lemma {:induction false} Wanes(s: Channel, a: Action)
    requires Sound(s) && LosesWakeUp(s) && !s.sendWaitFlag && !Dead(s)
    requires a == if !s.writer.WWait? then WriterMoves else if s.reader.RIdle? then StartRead(1, 1) else ReaderMoves
    ensures Step(s, a).Some? && !s.writer.WWoken? && Closer(s, Step(s, a).value)
  {
    hide Sound, Closer, LosesWakeUp, Dead;
    if !s.writer.WWait? {
      WriterDozes(s);
    } else if s.reader.RIdle? {
      ReaderCalled(s);
    } else if s.reader.RCopy? {
      ReaderEmpties(s);
    } else {
      ReaderDrains(s);
    }
  }

  lemma {:induction false} WriterDozes(s: Channel)
    requires Sound(s) && LosesWakeUp(s) && !s.sendWaitFlag && !s.writer.WWait?
    ensures WriterStep(s).Some? && !s.writer.WWoken? && Closer(s, WriterStep(s).value)
  {
    TrueSnapshot(s.(rtt := true));
    assert 0 <= Pending(s);
    hide Ring, ReaderOk, NoLostWakeUp, Space;
  }

  lemma {:induction false} ReaderCalled(s: Channel)
    requires Sound(s) && LosesWakeUp(s) && !s.sendWaitFlag && s.writer.WWait? && s.reader.RIdle?
    ensures Step(s, StartRead(1, 1)).Some? && Closer(s, Step(s, StartRead(1, 1)).value)
  {
    assert 0 <= Pending(s);
    hide Ring, WriterOk, NoLostWakeUp;
  }

  lemma {:induction false} ReaderEmpties(s: Channel)
    requires Sound(s) && LosesWakeUp(s) && !s.sendWaitFlag && s.writer.WWait? && s.reader.RCopy?
    ensures ReaderStep(s).Some? && Closer(s, ReaderStep(s).value)
  {
    var r := s.reader;
    assert s.dataBeg < |s.buf| && 0 <= Pending(s) && |r.got| <= r.n <= Pending(s) && r.begin + r.n <= |s.buf|;
    assert 0 < r.n;
    assert |s.recvd + r.got| == |s.recvd| + |r.got|;
    hide Sound;
  }

  lemma {:induction false} ReaderDrains(s: Channel)
    requires Sound(s) && LosesWakeUp(s) && !s.sendWaitFlag && s.writer.WWait? && !s.reader.RIdle? && !s.reader.RCopy?
    requires !Dead(s)
    ensures ReaderStep(s).Some? && Closer(s, ReaderStep(s).value)
  {
    assert 0 <= Pending(s) && s.recvd == s.sent[..|s.recvd|] && (s.reader.RWait? && Pending(s) > 0 ==> s.rd);
    hide Sound;
  }

  /**
   Once the flag is cleared, some schedule of the two sides leaves the direction dead exactly when the
   writer waits or is about to, its event is not set and the reader is not about to set it.
   */
  lemma {:induction false} ClearingIsFatal(s: Channel)
    requires Inv(s)
    ensures (exists s' :: LeadsTo(Cleared(s), s') && Dead(s')) <==> LosesWakeUp(s)
  {
    ClearingKeepsInv(s);
    if LosesWakeUp(s) {
      SoundFromInv(s);
      ClearedIsSound(s);
      var s' := Dies(Cleared(s));
      assert LeadsTo(Cleared(s), s');
    } else {
      forall s' | LeadsTo(Cleared(s), s') ensures !Dead(s') {
        var acts :| After(Cleared(s), acts) == Some(s');
        AfterKeepsInv(Cleared(s), acts);
        InvIsAlive(s');
      }
    }
  }

  // ---------------------------------------------------------------- which runs are safe

  /** In move `m` one end wakes up and takes the other end's only way to be woken. */
  predicate Robs(d: Duplex, m: Move) {
    match m
    case OnAB(a) => a.WriterMoves? && d.ab.writer.WWoken? && LosesWakeUp(d.ba)
    case OnBA(a) => a.WriterMoves? && d.ba.writer.WWoken? && LosesWakeUp(d.ab)
  }

  lemma {:induction false} MoveKeepsInv(d: Duplex, m: Move)
    requires Inv(d.ab) && Inv(d.ba) && DuplexStep(d, m).Some?
    ensures var d' := DuplexStep(d, m).value; Inv(d'.ab) && Inv(d'.ba) <==> !Robs(d, m)
  {
    hide Inv, LosesWakeUp, Step;
    match m
    case OnAB(a) => StepKeepsInv(d.ab, a); ClearingKeepsInv(d.ba);
    case OnBA(a) => StepKeepsInv(d.ba, a); ClearingKeepsInv(d.ab);
  }

  lemma {:induction false} SafeUpTo(states: seq<Duplex>, moves: seq<Move>, i: nat)
    requires IsDuplexRun(states, moves) && i < |states|
    requires forall k :: 0 <= k < i ==> !Robs(states[k], moves[k])
    ensures Inv(states[i].ab) && Inv(states[i].ba)
  {
    if i > 0 {
      SafeUpTo(states, moves, i - 1);
      assert DuplexStep(states[i - 1], moves[i - 1]) == Some(states[i - 1 + 1]);
      assert !Robs(states[i - 1], moves[i - 1]);
      hide Inv, Robs, DuplexStep;
      MoveKeepsInv(states[i - 1], moves[i - 1]);
    }
  }

  /** Both directions keep the invariant, and with it their wake-ups, exactly in the runs without such a move. */
  lemma {:induction false} SafeExactly(states: seq<Duplex>, moves: seq<Move>)
    requires IsDuplexRun(states, moves)
    ensures (forall i :: 0 <= i < |states| ==> Inv(states[i].ab) && Inv(states[i].ba))
            <==> (forall k :: 0 <= k < |moves| ==> !Robs(states[k], moves[k]))
  {
    if forall k :: 0 <= k < |moves| ==> !Robs(states[k], moves[k]) {
      forall i | 0 <= i < |states| ensures Inv(states[i].ab) && Inv(states[i].ba) { SafeUpTo(states, moves, i); }
    }
    if forall i :: 0 <= i < |states| ==> Inv(states[i].ab) && Inv(states[i].ba) {
      forall k | 0 <= k < |moves| ensures !Robs(states[k], moves[k]) {
        assert DuplexStep(states[k], moves[k]) == Some(states[k + 1]);
        hide Inv, Robs, DuplexStep;
        MoveKeepsInv(states[k], moves[k]);
      }
    }
  }

  /** A rule for callers: no Write is begun at one end while a Write of the other end is in progress. */
  ghost predicate TakingTurns(states: seq<Duplex>, moves: seq<Move>)
    requires |states| == |moves| + 1
  {
    forall i :: 0 <= i < |moves| ==>
      && (moves[i].OnAB? && moves[i].a.StartWrite? ==> states[i].ba.writer.WIdle?)
      && (moves[i].OnBA? && moves[i].a.StartWrite? ==> states[i].ab.writer.WIdle?)
  }

  lemma {:induction false} OneWriter(states: seq<Duplex>, moves: seq<Move>, i: nat)
    requires IsDuplexRun(states, moves) && TakingTurns(states, moves) && i < |states|
    ensures states[i].ab.writer.WIdle? || states[i].ba.writer.WIdle?
  {
    if i > 0 {
      OneWriter(states, moves, i - 1);
      var d, m := states[i - 1], moves[i - 1];
      assert DuplexStep(d, m) == Some(states[i - 1 + 1]);
      assert m.OnAB? && m.a.StartWrite? ==> d.ba.writer.WIdle?;
      assert m.OnBA? && m.a.StartWrite? ==> d.ab.writer.WIdle?;
      hide IsDuplexRun, TakingTurns, DuplexStep;
      IdleStays(d, m);
    }
  }

  lemma {:induction false} IdleStays(d: Duplex, m: Move)
    requires DuplexStep(d, m).Some?
    ensures d.ab.writer.WIdle? && !(m.OnAB? && m.a.StartWrite?) ==> DuplexStep(d, m).value.ab.writer.WIdle?
    ensures d.ba.writer.WIdle? && !(m.OnBA? && m.a.StartWrite?) ==> DuplexStep(d, m).value.ba.writer.WIdle?
  {}

  /** Callers who keep to the rule lose no wake-up, in any interleaving. */
  lemma {:induction false} TakingTurnsIsSafe(states: seq<Duplex>, moves: seq<Move>, i: nat)
    requires IsDuplexRun(states, moves) && TakingTurns(states, moves) && i < |states|
    ensures Inv(states[i].ab) && Inv(states[i].ba) && !Dead(states[i].ab) && !Dead(states[i].ba)
  {
    forall k | 0 <= k < i ensures !Robs(states[k], moves[k]) { OneWriter(states, moves, k); }
    SafeUpTo(states, moves, i);
    InvIsAlive(states[i].ab);
    InvIsAlive(states[i].ba);
  }

  // ---------------------------------------------------------------- reachable states

  ghost predicate CanReach(d: Duplex) {
    exists states, moves :: IsDuplexRun(states, moves) && states[|moves|] == d
  }

  lemma {:induction false} ReachSound(d: Duplex)
    requires CanReach(d)
    ensures Sound(d.ab) && Sound(d.ba)
  {
    var states, moves :| IsDuplexRun(states, moves) && states[|moves|] == d;
    DuplexSound(states, moves, |moves|);
  }

  /** One more move. */
  lemma {:induction false} Go(d: Duplex, m: Move) returns (d': Duplex)
    requires CanReach(d) && DuplexStep(d, m).Some?
    ensures DuplexStep(d, m) == Some(d') && CanReach(d')
  {
    d' := DuplexStep(d, m).value;
    var states, moves :| IsDuplexRun(states, moves) && states[|moves|] == d;
    var states', moves' := states + [d'], moves + [m];
    forall i | 0 <= i < |moves'| ensures DuplexStep(states'[i], moves'[i]) == Some(states'[i + 1]) {
      if i < |moves| { assert DuplexStep(states[i], moves[i]) == Some(states[i + 1]); }
    }
    assert IsDuplexRun(states', moves') && states'[|moves'|] == d';
  }

  lemma {:induction false} GoOnAB(d: Duplex, acts: seq<Action>)
    requires CanReach(d) && After(d.ab, acts).Some? && Quiet(d.ab, acts)
    ensures CanReach(d.(ab := After(d.ab, acts).value))
    decreases |acts|
  {
    if acts != [] {
      hide CanReach;
      var d1 := Go(d, OnAB(acts[0]));
      assert d1 == d.(ab := Step(d.ab, acts[0]).value);
      GoOnAB(d1, acts[1..]);
    } else {
      assert d.(ab := d.ab) == d;
    }
  }

  lemma {:induction false} GoOnBA(d: Duplex, acts: seq<Action>)
    requires CanReach(d) && After(d.ba, acts).Some? && Quiet(d.ba, acts)
    ensures CanReach(d.(ba := After(d.ba, acts).value))
    decreases |acts|
  {
    if acts != [] {
      hide CanReach;
      var d1 := Go(d, OnBA(acts[0]));
      assert d1 == d.(ba := Step(d.ba, acts[0]).value);
      GoOnBA(d1, acts[1..]);
    } else {
      assert d.(ba := d.ba) == d;
    }
  }

  lemma {:induction false} OnlyAB(d: Duplex, s: Channel)
    requires CanReach(d) && LeadsQuietly(d.ab, s)
    ensures CanReach(d.(ab := s))
  {
    hide CanReach;
    var acts :| After(d.ab, acts) == Some(s) && Quiet(d.ab, acts);
    GoOnAB(d, acts);
  }

  lemma {:induction false} OnlyBA(d: Duplex, s: Channel)
    requires CanReach(d) && LeadsQuietly(d.ba, s)
    ensures CanReach(d.(ba := s))
  {
    hide CanReach;
    var acts :| After(d.ba, acts) == Some(s) && Quiet(d.ba, acts);
    GoOnBA(d, acts);
  }

  /** Whenever one end is about to take the other's wake-up, a state with a dead direction is reachable. */
  lemma {:induction false} LostWakeUpIsFatal(d: Duplex)
    requires CanReach(d)
    ensures d.ab.writer.WWoken? && LosesWakeUp(d.ba) ==> exists d' :: CanReach(d') && Dead(d'.ba)
    ensures d.ba.writer.WWoken? && LosesWakeUp(d.ab) ==> exists d' :: CanReach(d') && Dead(d'.ab)
  {
    ReachSound(d);
    hide CanReach, Sound;
    if d.ab.writer.WWoken? && LosesWakeUp(d.ba) {
      var d1 := Go(d, OnAB(WriterMoves));
      ClearedIsSound(d.ba);
      var s := Dies(d1.ba);
      OnlyBA(d1, s);
      assert CanReach(d1.(ba := s));
    }
    if d.ba.writer.WWoken? && LosesWakeUp(d.ab) {
      var d1 := Go(d, OnBA(WriterMoves));
      ClearedIsSound(d.ab);
      var s := Dies(d1.ab);
      OnlyAB(d1, s);
      assert CanReach(d1.(ab := s));
    }
  }

  // ---------------------------------------------------------------- two calls that do it

  /** The writer runs alone until its call returns or the ring is full. */
  lemma {:induction false} WriterRuns(s: Channel) returns (s': Channel)
    requires Inv(s) && s.reader.RIdle? && !s.rtt && !s.writer.WWoken?
    ensures LeadsQuietly(s, s') && Inv(s') && s'.reader.RIdle? && !s'.rtt
    ensures s'.put == s.put && s'.recvd == s.recvd && |s'.buf| == |s.buf|
    ensures s'.writer.WIdle? || s'.writer.WWait?
    decreases |Unpublished(s.writer)|, WriterRank(s.writer), CopiesLeft(s.writer)
  {
    if s.writer.WIdle? || s.writer.WWait? {
      s' := s;
      Stay(s);
    } else {
      WriterAdvances(s);
      StepKeepsInv(s, WriterMoves);
      hide *;
      s' := WriterRuns(Step(s, WriterMoves).value);
      First(s, WriterMoves, s');
    }
  }

  predicate WriterWanes(w: Writer, w': Writer) {
    || |Unpublished(w')| < |Unpublished(w)|
    || (|Unpublished(w')| == |Unpublished(w)| && WriterRank(w') < WriterRank(w))
    || (|Unpublished(w')| == |Unpublished(w)| && WriterRank(w') == WriterRank(w) && CopiesLeft(w') < CopiesLeft(w))
  }

  lemma {:induction false} WriterAdvances(s: Channel)
    requires Inv(s) && s.reader.RIdle? && !s.rtt && !s.writer.WIdle? && !s.writer.WWait? && !s.writer.WWoken?
    ensures Step(s, WriterMoves).Some?
    ensures var t := Step(s, WriterMoves).value;
      && t.reader.RIdle? && !t.rtt && !t.writer.WWoken? && t.put == s.put && t.recvd == s.recvd && |t.buf| == |s.buf|
      && WriterWanes(s.writer, t.writer)
  {}

  /** A call that hands over more than the ring can hold waits with the ring full. */
  lemma {:induction false} WriteFills(s: Channel, bytes: seq<Byte>) returns (s': Channel)
    requires Inv(s) && s.writer.WIdle? && s.reader.RIdle? && !s.rtt && s.recvd == s.sent && |bytes| >= |s.buf|
    ensures LeadsQuietly(s, s') && Inv(s') && s'.reader.RIdle? && !s'.rtt && s'.writer.WWait?
    ensures s'.put == s.put + bytes && s'.recvd == s.recvd && |s'.buf| == |s.buf| && Pending(s') == |s'.buf| - 1
  {
    StepKeepsInv(s, StartWrite(bytes));
    s' := WriterRuns(Step(s, StartWrite(bytes)).value);
    First(s, StartWrite(bytes), s');
  }

  /** One more step of the reader. */
  lemma {:induction false} ReadStep(s: Channel, m: Channel) returns (m': Channel)
    requires LeadsQuietly(s, m) && Inv(m) && ReaderStep(m).Some?
    ensures ReaderStep(m) == Some(m') && LeadsQuietly(s, m') && Inv(m')
  {
    m' := ReaderStep(m).value;
    hide Inv, LeadsQuietly, ReaderStep;
    assert Step(m, ReaderMoves) == ReaderStep(m);
    StepKeepsInv(m, ReaderMoves);
    Then(s, m, ReaderMoves);
  }

  /** A read of one byte from a full ring tells the waiting writer. */
  lemma {:induction false} ReadsOne(s: Channel) returns (s': Channel)
    requires Inv(s) && s.reader.RIdle? && !s.rtt && s.writer.WWait?
    ensures LeadsQuietly(s, s') && Inv(s') && s'.reader.RIdle? && s'.rtt && s'.writer == s.writer
    ensures s'.put == s.put && s'.sent == s.sent && |s'.recvd| == |s.recvd| + 1 && |s'.buf| == |s.buf|
  {
    TrueSnapshot(s);
    assert s.sendWaitFlag && Available(|s.buf|, s.dataBeg, s.dataEnd) > 0 && s.dataBeg < |s.buf|;
    hide Inv, LeadsQuietly, Available, Advance;
    var m := TakesOne(s);
    var s5 := ReadStep(s, m);
    AdvanceInRing(|s.buf|, s.dataBeg);
    var s6 := ReadStep(s, s5);
    var s7 := ReadStep(s, s6);
    var s8 := ReadStep(s, s7);
    s' := ReadStep(s, s8);
  }

  lemma {:induction false} AdvanceInRing(size: int, index: int)
    requires 0 <= index < size
    ensures 0 <= Advance(size, index, 1)
  {}

  lemma {:induction false} TakesOne(s: Channel) returns (m: Channel)
    requires Inv(s) && s.reader.RIdle? && Available(|s.buf|, s.dataBeg, s.dataEnd) > 0
    ensures LeadsQuietly(s, m) && Inv(m)
    ensures m == s.(recvWaitFlag := false, reader := RCopy(1, 1, s.dataBeg, 1, []))
  {
    hide LeadsQuietly, Available, Inv, WriterStep;
    StepKeepsInv(s, StartRead(1, 1));
    Stay(s);
    Then(s, s, StartRead(1, 1));
    var s1 := ReadStep(s, s.(reader := RLoop(1, 1)));
    assert s1 == s.(recvWaitFlag := true, reader := RFlagged(1, 1));
    var s2 := ReadStep(s, s1);
    var s3 := ReadStep(s, s2);
    assert s3 == s.(recvWaitFlag := true, reader := REnd(1, 1, s.dataBeg, s.dataEnd));
    m := ReadStep(s, s3);
  }

  /**
   For rings of every size: A writes as many bytes as the ring has slots, B reads one of them and writes
   at least as many itself, A wakes up and its call returns. Then the direction from B to A can die: A
   waits for B's next byte, and B for the space that is there.
   */
  lemma {:induction false} OverlapIsFatal(zeros: seq<Byte>, a: seq<Byte>, b: seq<Byte>)
    requires |zeros| >= 2 && |a| == |zeros| && |b| >= |zeros|
    ensures exists d :: CanReach(d) && Dead(d.ba) && d.ab.writer.WIdle? && |d.ab.buf| == |d.ba.buf| == |zeros|
                        && d.ab.put == a && d.ba.put == b
  {
    var d := FromStart(zeros);
    hide CanReach, LeadsQuietly, Inv;
    var s := WriteFills(d.ab, a);
    OnlyAB(d, s);
    var s1 := ReadsOne(s);
    OnlyAB(d.(ab := s), s1);
    var t := WriteFills(d.ba, b);
    OnlyBA(d.(ab := s1), t);
    hide Step;
    var s2 := WakesAndReturns(Duplex(s1, t));
    SoundFromInv(t);
    ClearedIsSound(t);
    var t1 := Dies(Cleared(t));
    OnlyBA(Duplex(s2, Cleared(t)), t1);
    assert CanReach(Duplex(s2, t1));
  }

  /** A wakes up, clears the flag of the other direction, and finishes its call. */
  lemma {:induction false} WakesAndReturns(d: Duplex) returns (s: Channel)
    requires CanReach(d) && Inv(d.ab) && d.ab.writer.WWait? && d.ab.rtt && d.ab.reader.RIdle?
    requires |d.ab.put| - |d.ab.recvd| < |d.ab.buf|
    ensures CanReach(Duplex(s, Cleared(d.ba))) && s.writer.WIdle? && s.put == d.ab.put && |s.buf| == |d.ab.buf|
  {
    hide CanReach, LeadsQuietly, Inv, ReaderStep;
    var d1 := Go(d, OnAB(WriterMoves));
    assert d1 == d.(ab := d.ab.(rtt := false, writer := WWoken(d.ab.writer.src)));
    var d2 := Go(d1, OnAB(WriterMoves));
    assert d2 == Duplex(d1.ab.(writer := WLoop(d.ab.writer.src)), Cleared(d.ba));
    StepKeepsInv(d.ab, WriterMoves);
    StepKeepsInv(d1.ab, WriterMoves);
    s := WriterRuns(d2.ab);
    CallReturned(s);
    OnlyAB(d2, s);
  }

  lemma {:induction false} FromStart(zeros: seq<Byte>) returns (d: Duplex)
    requires |zeros| >= 2
    ensures CanReach(d) && Inv(d.ab) && Inv(d.ba) && d == Duplex(Start(|zeros|, zeros), Start(|zeros|, zeros))
  {
    d := Duplex(Start(|zeros|, zeros), Start(|zeros|, zeros));
    var none: seq<Move> := [];
    assert IsDuplexRun([d], none) && [d][|none|] == d;
  }

  /** A call whose bytes fit into the ring does not wait. */
  lemma {:induction false} CallReturned(s: Channel)
    requires Inv(s) && s.reader.RIdle? && !s.rtt && (s.writer.WIdle? || s.writer.WWait?)
    requires |s.put| - |s.recvd| < |s.buf|
    ensures s.writer.WIdle?
  {}
}
