/**
 The registrar: a serial loop that obeys commands on four tables. The entries of a multimap are kept in
 a list; what the commands mean is said with multisets.
 */
module Registrar {

  type User = string
  type Database = string
  type ProcessId = int

  datatype State = State(
    users: multiset<(User, ProcessId)>, register: multiset<(Database, User)>, locks: map<Database, User>,
    msgs: seq<string>)

  datatype Command =
    | Register(db: Database, user: User)
    | Unregister(db: Database, user: User)
    | Lock(db: Database, user: User)
    | Unlock(db: Database, user: User)
    | Login(user: User, pid: ProcessId)
    | Logout(user: User, pid: ProcessId)
    | LogMsg(msg: string)
    | ShowMsgs

  /** The answer starts with 0 on success; `shown` are the messages it contains. */
  datatype Answer = Answer(rc: int, shown: seq<string>)

  const OK := Answer(0, [])
  const REFUSED := Answer(-1, [])

  predicate IsRegistered(s: State, db: Database) {
    exists e :: e in s.register && e.0 == db
  }

  /** Who unlocks is not asked. */
  function Step(s: State, c: Command): (Answer, State) {
    match c
    case Register(db, user) =>
      if db in s.locks then (REFUSED, s) else (OK, s.(register := s.register + multiset{(db, user)}))
    case Unregister(db, user) =>
      if (db, user) in s.register then (OK, s.(register := s.register - multiset{(db, user)})) else (REFUSED, s)
    case Lock(db, user) =>
      if db in s.locks || IsRegistered(s, db) then (REFUSED, s) else (OK, s.(locks := s.locks[db := user]))
    case Unlock(db, _) => if db in s.locks then (OK, s.(locks := s.locks - {db})) else (REFUSED, s)
    case Login(user, pid) => (OK, s.(users := s.users + multiset{(user, pid)}))
    case Logout(user, pid) =>
      if (user, pid) in s.users then (OK, s.(users := s.users - multiset{(user, pid)})) else (REFUSED, s)
    case LogMsg(msg) => (OK, s.(msgs := s.msgs + [msg]))
    case ShowMsgs => (Answer(0, s.msgs), s.(msgs := []))
  }

  const EMPTY := State(multiset{}, multiset{}, map[], [])

  /** Commands and answers of a run from empty tables, and the state after the last one. */
  datatype Event = Event(command: Command, answer: Answer)

  ghost predicate Runs(events: seq<Event>, s: State) {
    if events == [] then s == EMPTY
    else
      var last := events[|events| - 1];
      exists before :: Runs(events[..|events| - 1], before) && Step(before, last.command) == (last.answer, s)
  }

  // ---------------------------------------------------------------- what a run has done

  /** How often a command has been obeyed. */
  function Obeyed(events: seq<Event>, c: Command): nat {
    if events == [] then 0
    else
      var last := events[|events| - 1];
      Obeyed(events[..|events| - 1], c) + if last.command == c && last.answer.rc == 0 then 1 else 0
  }

  function Logged(events: seq<Event>): seq<string> {
    if events == [] then []
    else
      var last := events[|events| - 1];
      Logged(events[..|events| - 1]) + if last.command.LogMsg? then [last.command.msg] else []
  }

  function Shown(events: seq<Event>): seq<string> {
    if events == [] then []
    else Shown(events[..|events| - 1]) + events[|events| - 1].answer.shown
  }

  // ---------------------------------------------------------------- safety of every run

  ghost predicate NotLockedAndUsed(s: State) {
    forall e :: e in s.register ==> e.0 !in s.locks
  }

  lemma {:induction false} StepNotLockedAndUsed(s: State, c: Command)
    requires NotLockedAndUsed(s)
    ensures NotLockedAndUsed(Step(s, c).1)
  {
    var s' := Step(s, c).1;
    forall e | e in s'.register ensures e.0 !in s'.locks {
      if c.Lock? && e.0 == c.db { assert IsRegistered(s, c.db); }
    }
  }

  /** After no run is a database both locked and registered. */
  lemma {:induction false} NeverLockedAndRegistered(events: seq<Event>, s: State, db: Database, user: User)
    requires Runs(events, s) && db in s.locks
    ensures (db, user) !in s.register
  {
    RunNotLockedAndUsed(events, s);
  }

  lemma {:induction false} RunNotLockedAndUsed(events: seq<Event>, s: State)
    requires Runs(events, s)
    ensures NotLockedAndUsed(s)
  {
    if events != [] {
      var front, last := events[..|events| - 1], events[|events| - 1];
      var before :| Runs(front, before) && Step(before, last.command) == (last.answer, s);
      RunNotLockedAndUsed(front, before);
      StepNotLockedAndUsed(before, last.command);
    }
  }

  function Once(b: bool): int {
    if b then 1 else 0
  }

  lemma {:induction false} StepCounts(s: State, c: Command, db: Database, user: User, pid: ProcessId)
    ensures var (answer, s') := Step(s, c);
      && s'.register[(db, user)] == s.register[(db, user)] + Once(c == Register(db, user) && answer.rc == 0)
                                    - Once(c == Unregister(db, user) && answer.rc == 0)
      && s'.users[(user, pid)] == s.users[(user, pid)] + Once(c == Login(user, pid) && answer.rc == 0)
                                  - Once(c == Logout(user, pid) && answer.rc == 0)
  {}

  /** Every table entry stands for an addition that was obeyed and not taken back. */
  lemma {:induction false} TablesCount(events: seq<Event>, s: State, db: Database, user: User, pid: ProcessId)
    requires Runs(events, s)
    ensures s.register[(db, user)] == Obeyed(events, Register(db, user)) - Obeyed(events, Unregister(db, user))
    ensures s.users[(user, pid)] == Obeyed(events, Login(user, pid)) - Obeyed(events, Logout(user, pid))
  {
    if events != [] {
      hide Step;
      var front, last := events[..|events| - 1], events[|events| - 1];
      var before :| Runs(front, before) && Step(before, last.command) == (last.answer, s);
      TablesCount(front, before, db, user, pid);
      StepCounts(before, last.command, db, user, pid);
    }
  }

  lemma {:induction false} StepConserves(s: State, c: Command, shown: seq<string>)
    ensures var (answer, s') := Step(s, c);
      shown + answer.shown + s'.msgs == shown + s.msgs + if c.LogMsg? then [c.msg] else []
  {}

  /** No message is lost, shown twice, or shown out of order. */
  lemma {:induction false} MessagesConserved(events: seq<Event>, s: State)
    requires Runs(events, s)
    ensures Shown(events) + s.msgs == Logged(events)
  {
    if events != [] {
      hide Step;
      var front, last := events[..|events| - 1], events[|events| - 1];
      var before :| Runs(front, before) && Step(before, last.command) == (last.answer, s);
      MessagesConserved(front, before);
      StepConserves(before, last.command, Shown(front));
    }
  }

  // ---------------------------------------------------------------- when commands are obeyed

  predicate Concerns(c: Command, db: Database) {
    (c.Lock? || c.Unlock?) && c.db == db
  }

  /** The last Lock or Unlock of the database that was obeyed is a Lock by this user. */
  ghost predicate LockedBy(events: seq<Event>, db: Database, user: User) {
    exists i :: 0 <= i < |events|
      && events[i].command == Lock(db, user) && events[i].answer.rc == 0
      && forall j :: i < j < |events| && Concerns(events[j].command, db) ==> events[j].answer.rc != 0
  }

  ghost predicate Locked(events: seq<Event>, db: Database) {
    exists user :: LockedBy(events, db, user)
  }

  /** Some user has been registered for the database more often than unregistered. */
  ghost predicate InUse(events: seq<Event>, db: Database) {
    exists user :: Obeyed(events, Register(db, user)) > Obeyed(events, Unregister(db, user))
  }

  lemma {:induction false} LockedByLast(events: seq<Event>, db: Database, user: User)
    requires events != []
    ensures var front, last := events[..|events| - 1], events[|events| - 1];
      LockedBy(events, db, user) <==>
      if Concerns(last.command, db) && last.answer.rc == 0 then last.command == Lock(db, user)
      else LockedBy(front, db, user)
  {
    var n := |events| - 1;
    var front, last := events[..n], events[n];
    if LockedBy(events, db, user) {
      var i :| 0 <= i <= n && events[i].command == Lock(db, user) && events[i].answer.rc == 0
        && forall j :: i < j <= n && Concerns(events[j].command, db) ==> events[j].answer.rc != 0;
      if i < n { assert front[i] == events[i] && forall j :: i < j < n ==> front[j] == events[j]; }
    }
    if LockedBy(front, db, user) && !(Concerns(last.command, db) && last.answer.rc == 0) {
      var i :| 0 <= i < n && front[i].command == Lock(db, user) && front[i].answer.rc == 0
        && forall j :: i < j < n && Concerns(front[j].command, db) ==> front[j].answer.rc != 0;
      assert events[i] == front[i] && forall j :: i < j < n ==> front[j] == events[j];
    }
    if last.command == Lock(db, user) && last.answer.rc == 0 { assert events[n] == last; }
  }

  lemma {:induction false} StepLocks(s: State, c: Command, db: Database, user: User)
    ensures var (answer, s') := Step(s, c);
      (db in s'.locks && s'.locks[db] == user) <==>
      if Concerns(c, db) && answer.rc == 0 then c == Lock(db, user) else db in s.locks && s.locks[db] == user
  {}

  /** After a run a database is locked exactly when its last obeyed Lock or Unlock is a Lock, by that user. */
  lemma {:induction false} LocksAreHeld(events: seq<Event>, s: State, db: Database, user: User)
    requires Runs(events, s)
    ensures (db in s.locks && s.locks[db] == user) <==> LockedBy(events, db, user)
  {
    if events != [] {
      hide Step;
      var front, last := events[..|events| - 1], events[|events| - 1];
      var before :| Runs(front, before) && Step(before, last.command) == (last.answer, s);
      LocksAreHeld(front, before, db, user);
      StepLocks(before, last.command, db, user);
      LockedByLast(events, db, user);
      hide LockedBy, Runs;
    }
  }

  lemma {:induction false} LocksExactly(events: seq<Event>, s: State, db: Database)
    requires Runs(events, s)
    ensures db in s.locks <==> Locked(events, db)
  {
    if db in s.locks { LocksAreHeld(events, s, db, s.locks[db]); }
    if Locked(events, db) {
      var user :| LockedBy(events, db, user);
      LocksAreHeld(events, s, db, user);
    }
  }

  lemma {:induction false} UsedExactly(events: seq<Event>, s: State, db: Database)
    requires Runs(events, s)
    ensures IsRegistered(s, db) <==> InUse(events, db)
  {
    if IsRegistered(s, db) {
      var e :| e in s.register && e.0 == db;
      TablesCount(events, s, db, e.1, 0);
      assert e == (db, e.1);
    }
    if InUse(events, db) {
      var user :| Obeyed(events, Register(db, user)) > Obeyed(events, Unregister(db, user));
      TablesCount(events, s, db, user, 0);
      assert (db, user) in s.register;
    }
  }

  lemma {:induction false} NothingDone(s: State)
    requires s == EMPTY
    ensures Runs([], s)
  {}

  lemma {:induction false} RunGoesOn(events: seq<Event>, s: State, c: Command, answer: Answer, s': State)
    requires Runs(events, s) && Step(s, c) == (answer, s')
    ensures Runs(events + [Event(c, answer)], s')
  {
    hide Step;
    var all := events + [Event(c, answer)];
    assert all[..|all| - 1] == events && all[|all| - 1] == Event(c, answer);
    assert Runs(all[..|all| - 1], s);
  }

  /** Every beginning of a run is a run, and the next answer is given in its state. */
  lemma {:induction false} RunBefore(events: seq<Event>, s: State, i: nat) returns (before: State)
    requires Runs(events, s) && i < |events|
    ensures Runs(events[..i], before) && Step(before, events[i].command).0 == events[i].answer
    decreases |events|
  {
    var n := |events| - 1;
    var last :| Runs(events[..n], last) && Step(last, events[n].command) == (events[n].answer, s);
    if i == n {
      before := last;
    } else {
      before := RunBefore(events[..n], last, i);
      assert events[..n][..i] == events[..i];
    }
  }

  /**
   Which commands are obeyed, from what was obeyed before: Lock exactly when the database is neither locked
   nor in use, Register when it is not locked, Unlock when it is, whoever asks; Unregister and Logout when
   there is an addition not taken back; the others always.
   */
  ghost predicate MayBeObeyed(past: seq<Event>, c: Command) {
    match c
    case Register(db, _) => !Locked(past, db)
    case Unregister(db, user) => Obeyed(past, Register(db, user)) > Obeyed(past, Unregister(db, user))
    case Lock(db, _) => !Locked(past, db) && !InUse(past, db)
    case Unlock(db, _) => Locked(past, db)
    case Logout(user, pid) => Obeyed(past, Login(user, pid)) > Obeyed(past, Logout(user, pid))
    case _ => true
  }

  lemma {:induction false} ObeyedExactly(events: seq<Event>, s: State, i: nat)
    requires Runs(events, s) && i < |events|
    ensures events[i].answer.rc == 0 <==> MayBeObeyed(events[..i], events[i].command)
  {
    var before := RunBefore(events, s, i);
    var past := events[..i];
    match events[i].command
    case Register(db, _) => LocksExactly(past, before, db);
    case Unregister(db, user) => TablesCount(past, before, db, user, 0);
    case Lock(db, _) =>
      LocksExactly(past, before, db);
      UsedExactly(past, before, db);
    case Unlock(db, _) => LocksExactly(past, before, db);
    case Logout(user, pid) => TablesCount(past, before, "", user, pid);
    case _ =>
  }

  /** Every command is answered as those obeyed before it say. */
  ghost predicate AnsweredRightly(events: seq<Event>) {
    forall i :: 0 <= i < |events| ==> (events[i].answer.rc == 0 <==> MayBeObeyed(events[..i], events[i].command))
  }

  lemma {:induction false} RunAnsweredRightly(events: seq<Event>, s: State)
    requires Runs(events, s)
    ensures AnsweredRightly(events)
  {
    hide Runs, MayBeObeyed;
    forall i | 0 <= i < |events| ensures events[i].answer.rc == 0 <==> MayBeObeyed(events[..i], events[i].command) {
      ObeyedExactly(events, s, i);
    }
  }

  // ---------------------------------------------------------------- the command loop

  class SecondoRegistrar {
    var dbUsers: seq<(User, ProcessId)>
    var dbRegister: seq<(Database, User)>
    var dbLocks: map<Database, User>
    var logMsgs: seq<string>

    constructor ()
      ensures Tables() == EMPTY
    {
      dbUsers, dbRegister, dbLocks, logMsgs := [], [], map[], [];
    }

    ghost function Tables(): State
      reads this
    {
      State(multiset(dbUsers), multiset(dbRegister), dbLocks, logMsgs)
    }

    method ExecRegister(db: Database, user: User) returns (answer: Answer)
      modifies this`dbRegister
      ensures (answer, Tables()) == Step(old(Tables()), Register(db, user))
    {
      if db !in dbLocks {
        dbRegister := dbRegister + [(db, user)];
        answer := OK;
      } else {
        answer := REFUSED;
      }
    }

    method ExecUnregister(db: Database, user: User) returns (answer: Answer)
      modifies this`dbRegister
      ensures (answer, Tables()) == Step(old(Tables()), Unregister(db, user))
    {
      answer := REFUSED;
      var pos := Find(dbRegister, (db, user));
      if pos < |dbRegister| {
        Erased(dbRegister, pos);
        dbRegister := dbRegister[..pos] + dbRegister[pos + 1..];
        answer := OK;
      }
    }

    method ExecLock(db: Database, user: User) returns (answer: Answer)
      modifies this`dbLocks
      ensures (answer, Tables()) == Step(old(Tables()), Lock(db, user))
    {
      answer := REFUSED;
      if db !in dbLocks {
        var pos := 0;
        while pos < |dbRegister| && dbRegister[pos].0 != db
          invariant pos <= |dbRegister| && forall i :: 0 <= i < pos ==> dbRegister[i].0 != db
        {
          pos := pos + 1;
        }
        if pos == |dbRegister| {
          dbLocks := dbLocks[db := user];
          answer := OK;
        } else {
          assert dbRegister[pos] in multiset(dbRegister);
        }
      }
    }

    method ExecUnlock(db: Database, user: User) returns (answer: Answer)
      modifies this`dbLocks
      ensures (answer, Tables()) == Step(old(Tables()), Unlock(db, user))
    {
      if db in dbLocks {
        dbLocks := dbLocks - {db};
        answer := OK;
      } else {
        answer := REFUSED;
      }
    }

    method ExecLogin(user: User, pid: ProcessId) returns (answer: Answer)
      modifies this`dbUsers
      ensures (answer, Tables()) == Step(old(Tables()), Login(user, pid))
    {
      dbUsers := dbUsers + [(user, pid)];
      answer := OK;
    }

    method ExecLogout(user: User, pid: ProcessId) returns (answer: Answer)
      modifies this`dbUsers
      ensures (answer, Tables()) == Step(old(Tables()), Logout(user, pid))
    {
      answer := REFUSED;
      var pos := Find(dbUsers, (user, pid));
      if pos < |dbUsers| {
        Erased(dbUsers, pos);
        dbUsers := dbUsers[..pos] + dbUsers[pos + 1..];
        answer := OK;
      }
    }

    method ExecLogMsg(msg: string) returns (answer: Answer)
      modifies this`logMsgs
      ensures (answer, Tables()) == Step(old(Tables()), LogMsg(msg))
    {
      logMsgs := logMsgs + [msg];
      answer := OK;
    }

    method ExecShowMsgs() returns (answer: Answer)
      modifies this`logMsgs
      ensures (answer, Tables()) == Step(old(Tables()), ShowMsgs)
    {
      var shown := [];
      while |logMsgs| > 0
        invariant shown + logMsgs == old(logMsgs)
      {
        shown := shown + [logMsgs[0]];
        logMsgs := logMsgs[1..];
      }
      assert shown == old(logMsgs) && logMsgs == [];
      answer := Answer(0, shown);
    }

    /** The switch of the command loop. */
    method ProcessCommand(c: Command) returns (answer: Answer)
      modifies this
      ensures (answer, Tables()) == Step(old(Tables()), c)
    {
      match c
      case Register(db, user) => answer := ExecRegister(db, user);
      case Unregister(db, user) => answer := ExecUnregister(db, user);
      case Lock(db, user) => answer := ExecLock(db, user);
      case Unlock(db, user) => answer := ExecUnlock(db, user);
      case Login(user, pid) => answer := ExecLogin(user, pid);
      case Logout(user, pid) => answer := ExecLogout(user, pid);
      case LogMsg(msg) => answer := ExecLogMsg(msg);
      case ShowMsgs => answer := ExecShowMsgs();
    }

    /** The command loop on a fresh registrar. */
    method ProcessCommands(commands: seq<Command>) returns (events: seq<Event>)
      requires Tables() == EMPTY
      modifies this
      ensures Runs(events, Tables()) && AnsweredRightly(events)
      ensures |events| == |commands| && forall i :: 0 <= i < |commands| ==> events[i].command == commands[i]
    {
      hide *;
      events := [];
      NothingDone(Tables());
      for i := 0 to |commands|
        invariant |events| == i && Runs(events, Tables())
        invariant forall k :: 0 <= k < i ==> events[k].command == commands[k]
      {
        ghost var before := Tables();
        var answer := ProcessCommand(commands[i]);
        RunGoesOn(events, before, commands[i], answer, Tables());
        events := events + [Event(commands[i], answer)];
      }
      RunAnsweredRightly(events, Tables());
    }
  }

  /** The first entry with this key and value, or the end. */
  method Find<V(==)>(entries: seq<(string, V)>, entry: (string, V)) returns (pos: nat)
    ensures pos <= |entries| && forall i :: 0 <= i < pos ==> entries[i] != entry
    ensures pos < |entries| ==> entries[pos] == entry
    ensures pos < |entries| <==> entry in multiset(entries)
  {
    pos := 0;
    while pos < |entries| && !(entries[pos].0 == entry.0 && entries[pos].1 == entry.1)
      invariant pos <= |entries| && forall i :: 0 <= i < pos ==> entries[i] != entry
    {
      pos := pos + 1;
    }
    if pos < |entries| { assert entries[pos] == entry; }
  }

  lemma {:induction false} Erased<T>(s: seq<T>, pos: nat)
    requires pos < |s|
    ensures multiset(s[..pos] + s[pos + 1..]) == multiset(s) - multiset{s[pos]}
  {
    assert s == s[..pos] + [s[pos]] + s[pos + 1..];
  }
}
