/**
  The world the server program runs in: the operating system, the network and the players.

  A `World` carries one run of the protocol. The server program sees it only through its I/O methods. Before
  each of them the players may do anything they can; the method then takes the one step of the protocol that
  stands for the call. The preconditions say which call the protocol expects next, so a program that calls
  in another order, on another descriptor or with other contents does not verify. `Skip`, `Pass` and
  `Announce` stand for no call: they tell the protocol's own server that a loop or a turn of one needed no
  I/O, and what was drawn.
*/
module World {
  import opened Shuffle
  import opened Machine
  import opened Protocol
  import opened ProtocolInvariant
  import opened ProtocolPreservation
  import opened ProtocolTheorems

  datatype Option<T> = None | Some(value: T)

  /** DELAI_CONNEXION. */
  const CONNECTION_DELAY := 5 * SECOND

  /** What the last select() said of the listening socket, as long as nothing has been done about it. */
  datatype Report = Nothing | Failure | Silence | Asking

  /** Between s and t only players have moved. */
  predicate PlayersMoved(s: System, t: System) {
    && t == s.(slots := t.slots) && |t.slots| == |s.slots|
    && forall j :: 0 <= j < |s.slots| ==> SameSlot(s.slots[j], t.slots[j])
  }

  predicate SameSlot(x: Slot, y: Slot) {
    y == x.(conn := y.conn) && y.conn.fd == x.conn.fd && y.conn.open == x.conn.open && y.conn.closes == x.conn.closes
  }

  lemma {:induction false} ActsMovePlayers(N: nat, s: System, acts: seq<(nat, ClientAct)>)
    ensures PlayersMoved(s, AfterActs(N, s, acts))
    decreases |acts|
  {
    if acts != [] {
      var a := ClientStep(acts[0].0, acts[0].1);
      var t := if Enabled(N, s, a) then Next(N, s, a) else s;
      ActsMovePlayers(N, t, acts[1..]);
      var u := AfterActs(N, t, acts[1..]);
      forall j | 0 <= j < |s.slots| ensures SameSlot(s.slots[j], u.slots[j]) {
        assert SameSlot(t.slots[j], u.slots[j]);
      }
    }
  }

  lemma RunGrows(N: nat, run: seq<System>, a: Action)
    requires IsRun(N, run) && Enabled(N, run[|run| - 1], a)
    ensures IsRun(N, run + [Next(N, run[|run| - 1], a)])
  {
    var longer := run + [Next(N, run[|run| - 1], a)];
    forall i | 0 <= i < |longer| - 1 ensures Step(N, longer[i], longer[i + 1]) {
      if i < |run| - 1 { assert Step(N, run[i], run[i + 1]); }
    }
  }

  /** The send() the protocol expects next: descriptor and contents. */
  function ToSend(s: System): Option<(int, Payload)> {
    var i := LoopSlot(s.phase);
    if SentStep(s.phase) < 0 || i >= |s.slots| || !s.slots[i].active then None
    else Some((s.slots[i].fd, DownBody(s.table, SentStep(s.phase))))
  }

  /** The close() the protocol expects next. */
  function ToClose(s: System): Option<int> {
    var i := LoopSlot(s.phase);
    if InLoop(s) && i < |s.slots| && (s.closing || (s.phase.Final? && s.slots[i].active)) then Some(s.slots[i].fd)
    else None
  }

  /** After the arrival of nobody or of one more player, the reading loop begins. */
  predicate AfterAdmission(s: System, t: System) {
    && s.phase.Admit? && |s.slots| <= |t.slots|
    && t.phase == Read(0, s.phase.readable, |s.slots|)
    && PlayersMoved(s, t.(phase := s.phase, slots := t.slots[..|s.slots|]))
  }

  /** One more player at the end of the table. */
  predicate Welcomed(s: System, t: System, fd: int) {
    && t.phase == Welcome && t.closing == s.closing && t.round == s.round && |t.slots| == |s.slots| + 1
    && t.slots[|s.slots|].fd == fd && t.slots[|s.slots|].active
    && forall j :: 0 <= j < |s.slots| ==> SameSlot(s.slots[j], t.slots[j])
  }

  /** The server's next step needs no I/O. */
  predicate Silent(s: System) {
    InLoop(s) && WaitsFor(s) < 0 && ToSend(s) == None && ToClose(s) == None
  }

  /** A player who asks to connect, with the descriptor the system gives the connection. */
  predicate CanCome(slots: seq<Slot>, who: (int, Client, seq<Message>)) {
    who.0 >= 0 && Fresh(slots, who.0) && Newcomer(who.1, who.2)
  }

  function SomebodyNew(slots: seq<Slot>): (who: (int, Client, seq<Message>))
    ensures CanCome(slots, who)
  {
    (UnusedFd(slots), Client(Playing, 0, 0, 0, [], 0, false, 0, 0, 0), [])
  }

  /** The program's own columns of the table are the same; only what is under way may differ. */
  predicate SameRow(x: Slot, y: Slot) {
    y.(conn := x.conn) == x
  }

  predicate SameRows(a: seq<Slot>, b: seq<Slot>) {
    |a| == |b| && forall j :: 0 <= j < |a| ==> SameRow(a[j], b[j])
  }

  /** Row i has become `x`, and the others are the same. */
  predicate RowBecomes(a: seq<Slot>, b: seq<Slot>, i: nat, x: Slot) {
    && i < |a| == |b| && SameRow(x, b[i])
    && forall j :: 0 <= j < |a| && j != i ==> SameRow(a[j], b[j])
  }

  /** What recv() and the protocol's reaction to its result do to the table, in each of the receiving loops. */
  predicate AfterRecv(s: System, t: System, r: Option<Payload>) {
    && WaitsFor(s) >= 0 && t.round == s.round && t.table == s.table
    && match s.phase
       case Read(i, readable, before) => AfterRecvRead(s, t, r, i, readable, before)
       case Gather(i, part) => AfterRecvGather(s, t, r, i, part)
       case Choices(i) => AfterRecvChoices(s, t, r, i)
       case _ => true
  }

  predicate AfterRecvRead(s: System, t: System, r: Option<Payload>, i: nat, readable: set<int>, before: nat)
    requires i < |s.slots|
  {
    var x := s.slots[i];
    match r
    case Some(b) =>
      && RowBecomes(s.slots, t.slots, i, if b == Byte('1') then x.(ready := true) else x)
      && !t.closing && t.phase == Read(i + 1, readable, before)
    case None => RowBecomes(s.slots, t.slots, i, x.(active := false)) && t.closing && t.phase == s.phase
  }

  predicate AfterRecvGather(s: System, t: System, r: Option<Payload>, i: nat, part: nat)
    requires i < |s.slots|
  {
    var x := s.slots[i];
    match r
    case Some(b) =>
      && !t.closing && t.phase == (if part == 0 then Gather(i, 1) else Gather(i + 1, 0))
      && RowBecomes(s.slots, t.slots, i, if part == 0 then x.(correct := b == Word(1)) else x.(time := WordOf(b)))
    case None =>
      && t.closing && t.phase == s.phase
      && RowBecomes(s.slots, t.slots, i,
           if part == 0 then x.(active := false) else x.(active := false, time := 100, correct := false))
  }

  predicate AfterRecvChoices(s: System, t: System, r: Option<Payload>, i: nat)
    requires i < |s.slots|
  {
    if r == Some(Byte('o'))
    then SameRows(s.slots, t.slots) && !t.closing && t.phase == Choices(i + 1) && t.replays == s.replays + 1
    else RowBecomes(s.slots, t.slots, i, s.slots[i].(active := false)) && t.closing && t.phase == s.phase
         && t.replays == s.replays
  }

  /** Where the server is after its send(). */
  function PhaseAfterSend(p: Phase): Phase {
    match p
    case Start(i) => Start(i + 1)
    case Deal(i, part) => if part == 0 then Deal(i, 1) else Deal(i + 1, 0)
    case Results(i, part) => if part == 0 then Results(i, 1) else Results(i + 1, 0)
    case _ => p
  }

  predicate AfterSend(s: System, t: System) {
    SameRows(s.slots, t.slots) && t == s.(slots := t.slots, phase := PhaseAfterSend(s.phase))
  }

  /** Where the server is after its close(). */
  function PhaseAfterClose(p: Phase): Phase {
    match p
    case Read(i, readable, before) => Read(i + 1, readable, before)
    case Gather(i, _) => Gather(i + 1, 0)
    case Choices(i) => Choices(i + 1)
    case Final(i) => Final(i + 1)
    case _ => p
  }

  /** Where the server is after a turn of a loop on a slot that needs nothing. */
  function PhaseAfterSkip(p: Phase): Phase {
    match p
    case Start(i) => Start(i + 1)
    case Deal(i, _) => Deal(i + 1, 0)
    case Results(i, _) => Results(i + 1, 0)
    case _ => PhaseAfterClose(p)
  }

  predicate AfterClose(s: System, t: System) {
    SameRows(s.slots, t.slots) && t == s.(slots := t.slots, closing := false, phase := PhaseAfterClose(s.phase))
  }

  /** What the server receives, in the form the program sees it. */
  function Bytes(r: Received): Option<Payload> {
    match r
    case Got(m) => Some(m.body)
    case _ => None
  }

  lemma PoppedKeepsRows(slots: seq<Slot>, fd: int)
    ensures SameRows(slots, Popped(slots, fd))
  {
  }

  lemma RecvEffectRead(s: System, mid: System)
    requires PlayersMoved(s, mid) && CanAdvance(mid) && WaitsFor(s) >= 0 && !s.closing && s.phase.Read?
    ensures AfterRecv(s, StepRead(mid), Bytes(Receive(mid.slots, s.slots[WaitsFor(s)].fd)))
  {
    hide Popped, Receive;
    PoppedKeepsRows(mid.slots, s.slots[WaitsFor(s)].fd);
  }

  lemma RecvEffectGather(s: System, mid: System)
    requires PlayersMoved(s, mid) && CanAdvance(mid) && WaitsFor(s) >= 0 && !s.closing && s.phase.Gather?
    ensures AfterRecv(s, StepGather(mid), Bytes(Receive(mid.slots, s.slots[WaitsFor(s)].fd)))
  {
    hide Popped, Receive;
    PoppedKeepsRows(mid.slots, s.slots[WaitsFor(s)].fd);
  }

  lemma RecvEffectChoices(s: System, mid: System)
    requires PlayersMoved(s, mid) && CanAdvance(mid) && WaitsFor(s) >= 0 && !s.closing && s.phase.Choices?
    ensures AfterRecv(s, StepChoices(mid), Bytes(Receive(mid.slots, s.slots[WaitsFor(s)].fd)))
  {
    hide Popped, Receive;
    PoppedKeepsRows(mid.slots, s.slots[WaitsFor(s)].fd);
  }

  lemma RecvEffect(s: System, mid: System)
    requires PlayersMoved(s, mid) && CanAdvance(mid) && WaitsFor(s) >= 0 && !s.closing
    ensures AfterRecv(s, Advanced(mid), Bytes(Receive(mid.slots, s.slots[WaitsFor(s)].fd)))
  {
    hide AfterRecv, StepRead, StepGather, StepChoices, CanAdvance, Receive;
    match s.phase
    case Read(_, _, _) => RecvEffectRead(s, mid);
    case Gather(_, _) => RecvEffectGather(s, mid);
    case Choices(_) => RecvEffectChoices(s, mid);
  }

  lemma SendEffect(s: System, mid: System)
    requires PlayersMoved(s, mid) && CanAdvance(mid) && ToSend(s).Some?
    requires s.phase.Deal? || s.phase.Results? ==> s.phase.part <= 1
    ensures AfterSend(s, Advanced(mid))
  {
    hide Sent, Best, Worst;
    var i := LoopSlot(s.phase);
    SentKeepsRows(mid.slots, mid.slots[i].fd, Label(mid, i, SentStep(s.phase), DownBody(s.table, SentStep(s.phase))));
  }

  lemma SentKeepsRows(slots: seq<Slot>, fd: int, m: Message)
    ensures SameRows(slots, Sent(slots, fd, m))
  {
  }

  lemma CloseEffect(s: System, mid: System)
    requires PlayersMoved(s, mid) && CanAdvance(mid) && ToClose(s).Some? && (s.closing ==> LoopIndex(s.phase) >= 0)
    requires s.phase.Final? ==> !s.closing
    ensures AfterClose(s, Advanced(mid))
  {
  }

  /** A step that asks for no call does nothing to any connection. */
  lemma SilentStepsDoNothing(s: System)
    requires Silent(s) && CanAdvance(s)
    ensures forall j :: 0 <= j < |s.slots| ==> Advanced(s).slots[j].conn == s.slots[j].conn
  {
    hide Tenant, Best, Worst;
  }

  /** A step that asks for a send() puts exactly those contents on the connection with that descriptor. */
  lemma SendingStepsSend(s: System, fd: int, b: Payload)
    requires ToSend(s) == Some((fd, b)) && CanAdvance(s)
    requires s.phase.Deal? || s.phase.Results? ==> s.phase.part <= 1
    ensures Advanced(s).slots == Sent(s.slots, fd, Label(s, LoopSlot(s.phase), SentStep(s.phase), b))
  {
    hide Sent, Best, Worst;
  }

  /** A step that asks for a close() closes the connection with that descriptor. */
  lemma ClosingStepsClose(s: System, fd: int)
    requires ToClose(s) == Some(fd) && CanAdvance(s) && (s.closing ==> LoopIndex(s.phase) >= 0)
    requires s.phase.Final? ==> !s.closing
    ensures Advanced(s).slots == CloseFd(s.slots, fd)
  {
    hide CloseFd, Best, Worst;
  }

  class World {
    const N: nat
    var sys: System
    ghost var run: seq<System>
    /** What select() has reported; the program may act on it, but not make it up. */
    var report: Report
    /** How many more calls of select() in the barrier succeed before one fails. */
    var patience: nat
    /** What is left of the delay for further players at the welcome. */
    ghost var window: nat
    /** A descriptor accepted while the table was full; it must be closed next. -1 if there is none. */
    var refused: int

    ghost predicate Valid()
      reads this
    {
      IsRun(N, run) && run[|run| - 1] == sys && N > 0
    }

    constructor (N: nat, patience: nat)
      requires N > 0
      ensures this.N == N && this.patience == patience && report == Nothing && refused == -1
      ensures Valid() && sys.phase == Welcome && sys.slots == [] && !sys.closing
      ensures fresh(this)
    {
      this.N := N;
      var s := System(Welcome, false, 0, Table(0, [], 100, 0), 0, []);
      sys := s;
      run := [s];
      refused := -1;
      report := Nothing;
      this.patience := patience;
      window := 0;
    }

    /** One step of the protocol. */
    method Take(a: Action)
      requires Valid() && Enabled(N, sys, a)
      modifies this`sys, this`run
      ensures Valid() && sys == Next(N, old(sys), a) && old(run) < run
    {
      RunGrows(N, run, a);
      sys := Next(N, sys, a);
      run := run + [sys];
    }

    /** Any number of acts of the players. */
    method LetPlayersAct(acts: seq<(nat, ClientAct)>)
      requires Valid()
      modifies this`sys, this`run
      ensures Valid() && sys == AfterActs(N, old(sys), acts) && PlayersMoved(old(sys), sys) && old(run) <= run
    {
      ActsMovePlayers(N, sys, acts);
      var k := 0;
      assert acts[k..] == acts;
      while k < |acts|
        invariant 0 <= k <= |acts| && Valid() && old(run) <= run
        invariant AfterActs(N, sys, acts[k..]) == AfterActs(N, old(sys), acts)
      {
        var a := ClientStep(acts[k].0, acts[k].1);
        assert acts[k..][1..] == acts[k + 1..] && acts[k..][0] == acts[k];
        if Enabled(N, sys, a) {
          Take(a);
        }
        k := k + 1;
      }
    }

    /** accept() while nobody is there yet; it returns when somebody has connected. */
    method AcceptFirst() returns (fd: int)
      requires Valid() && refused == -1 && sys.phase == Welcome && sys.slots == []
      modifies this`sys, this`run, this`window
      ensures Valid() && old(run) < run && fd >= 0 && Welcomed(old(sys), sys, fd) && window == CONNECTION_DELAY
    {
      fd := TakeIn();
      window := CONNECTION_DELAY;
    }

    /** accept() for one more player, when select() has reported one; it may fail with -1. */
    method AcceptMore() returns (fd: int)
      requires Valid() && refused == -1 && sys.phase == Welcome && |sys.slots| < N && report == Asking
      modifies this`sys, this`run, this`window, this`report
      ensures Valid() && old(run) <= run && fd >= -1 && report == Nothing
      ensures if fd >= 0 then Welcomed(old(sys), sys, fd) && window == CONNECTION_DELAY
              else sys == old(sys) && window == old(window)
    {
      fd := -1;
      var gives: bool :| true;
      if gives {
        fd := TakeIn();
        window := CONNECTION_DELAY;
      }
      report := Nothing;
    }

    /** Somebody connects and gets a descriptor. */
    method TakeIn() returns (fd: int)
      requires Valid() && sys.phase == Welcome && |sys.slots| < N
      modifies this`sys, this`run
      ensures Valid() && old(run) < run && fd >= 0 && Welcomed(old(sys), sys, fd)
    {
      var acts: seq<(nat, ClientAct)> :| true;
      LetPlayersAct(acts);
      assert CanCome(sys.slots, SomebodyNew(sys.slots));
      var who :| CanCome(sys.slots, who);
      assert CanCome(sys.slots, who);
      Take(WelcomeNew(who.0, who.1, who.2));
      fd := who.0;
    }

    /** The welcome is over: the table is full, or nobody came in time or select() failed. */
    method EndWelcome()
      requires Valid() && sys.phase == Welcome && |sys.slots| > 0 && (|sys.slots| == N || report == Silence)
      modifies this`sys, this`run
      ensures Valid() && old(run) < run && sys == old(sys).(phase := Select)
    {
      Take(WelcomeDone);
    }

    /**
      select() in the barrier, on the server socket and `fds`: what is readable, and in `report` whether
      somebody asks to connect, or that the call has failed.
    */
    method SelectFds(ghost fds: set<int>) returns (readable: set<int>)
      requires Valid() && refused == -1 && sys.phase == Select && report != Failure
      requires fds == set j | 0 <= j < |sys.slots| && sys.slots[j].active :: sys.slots[j].fd
      modifies this`sys, this`run, this`report, this`patience
      ensures Valid() && readable <= fds
      ensures if old(patience) == 0
              then report == Failure && sys == old(sys) && run == old(run) && patience == 0
              else (report == Asking || report == Silence) && patience == old(patience) - 1 && old(run) < run
                   && sys.phase == Admit(readable) && PlayersMoved(old(sys), sys.(phase := Select))
    {
      if patience == 0 {
        report := Failure;
        return {};
      }
      patience := patience - 1;
      var acts: seq<(nat, ClientAct)> :| true;
      LetPlayersAct(acts);
      readable := ReadableFds(sys.slots);
      forall f | f in readable ensures f in fds {
        var j :| 0 <= j < |sys.slots| && sys.slots[j].active && sys.slots[j].fd == f;
        assert SameSlot(old(sys).slots[j], sys.slots[j]);
      }
      Take(SelectReturns);
      var b: bool :| true;
      report := if b then Asking else Silence;
    }

    /** The program gives up after a select() that has failed. */
    method SelectError()
      requires Valid() && refused == -1 && sys.phase == Select && report == Failure
      modifies this`sys, this`run
      ensures Valid() && old(run) < run && sys == old(sys).(phase := Final(0))
    {
      Take(SelectFails);
    }

    /** accept() in the barrier; it may fail with -1. On a full table the new descriptor must be closed next. */
    method Accept() returns (fd: int)
      requires Valid() && refused == -1 && sys.phase.Admit? && report == Asking
      modifies this`sys, this`run, this`refused, this`report
      ensures Valid() && old(run) < run && fd >= -1 && report == Nothing
      ensures refused == if |old(sys).slots| < N then -1 else fd
      ensures var admitted := fd >= 0 && |old(sys).slots| < N;
              && |sys.slots| == |old(sys).slots| + (if admitted then 1 else 0)
              && AfterAdmission(old(sys), sys)
              && (admitted ==> var x := sys.slots[|sys.slots| - 1]; x.fd == fd && x.active && !x.ready)
    {
      var acts: seq<(nat, ClientAct)> :| true;
      LetPlayersAct(acts);
      report := Nothing;
      var gives: bool :| true;
      if gives {
        assert CanCome(sys.slots, SomebodyNew(sys.slots));
        var who :| CanCome(sys.slots, who);
        assert CanCome(sys.slots, who);
        fd := who.0;
        refused := if |sys.slots| < N then -1 else fd;
        Take(AdmitNew(who.0, who.1, who.2));
      } else {
        fd := -1;
        Take(AdmitNone);
      }
    }

    /** Nobody asked to connect in this turn of the barrier. */
    method NoArrival()
      requires Valid() && refused == -1 && sys.phase.Admit? && report == Silence
      modifies this`sys, this`run, this`report
      ensures Valid() && old(run) < run && report == Nothing
      ensures |sys.slots| == |old(sys).slots| && AfterAdmission(old(sys), sys)
    {
      report := Nothing;
      Take(AdmitNone);
    }

    /**
      select() at the welcome, on the server socket alone, for as long as the delay still allows: Asking and
      what is left of it, or Silence when it has run out or the call has failed.
    */
    method SelectWithin(timeout: nat) returns (left: nat)
      requires sys.phase == Welcome && timeout == window
      modifies this`report, this`window
      ensures window == left && (report == Silence || (report == Asking && left < timeout))
    {
      var b: bool :| true;
      if b && timeout > 0 {
        left :| 0 <= left < timeout;
        report := Asking;
      } else {
        left := 0;
        report := Silence;
      }
      window := left;
    }

    /** close() on a refused connection. */
    method CloseRefused(fd: int)
      requires fd == refused
      modifies this`refused
      ensures refused == -1
    {
      refused := -1;
    }

    /**
      recv(): waits as long as it takes for the player to send, and gives the bytes or None for the end of
      the stream. That the wait can end is deadlock freedom of the protocol.
    */
    method Recv(fd: int) returns (r: Option<Payload>)
      requires Valid() && refused == -1 && !sys.closing && WaitsFor(sys) >= 0 && sys.slots[WaitsFor(sys)].fd == fd
      modifies this`sys, this`run
      ensures Valid() && old(run) < run
      ensures AfterRecv(old(sys), sys, r)
    {
      ghost var wake := PlayerWake();
      assert CanAdvance(AfterActs(N, sys, wake));
      var acts: seq<(nat, ClientAct)> :| CanAdvance(AfterActs(N, sys, acts));
      LetPlayersAct(acts);
      RecvEffect(old(sys), sys);
      r := Bytes(Receive(sys.slots, fd));
      Take(Action.Server);
    }

    lemma PlayerWake() returns (acts: seq<(nat, ClientAct)>)
      requires Valid() && InLoop(sys)
      ensures CanAdvance(AfterActs(N, sys, acts))
    {
      RunsKeepInvariant(N, run, |run| - 1);
      acts := PlayerWakesServer(N, sys);
    }

    /** send(). */
    method Send(fd: int, b: Payload)
      requires Valid() && refused == -1 && ToSend(sys) == Some((fd, b))
      modifies this`sys, this`run
      ensures Valid() && old(run) < run
      ensures AfterSend(old(sys), sys)
    {
      var acts: seq<(nat, ClientAct)> :| true;
      LetPlayersAct(acts);
      RunsKeepInvariant(N, run, |run| - 1);
      SendEffect(old(sys), sys);
      Take(Action.Server);
    }

    /** close(). */
    method Close(fd: int)
      requires Valid() && refused == -1 && ToClose(sys) == Some(fd)
      modifies this`sys, this`run
      ensures Valid() && old(run) < run
      ensures AfterClose(old(sys), sys)
    {
      var acts: seq<(nat, ClientAct)> :| true;
      LetPlayersAct(acts);
      RunsKeepInvariant(N, run, |run| - 1);
      CloseEffect(old(sys), sys);
      Take(Action.Server);
    }

    /** A turn of a loop that needs no I/O. */
    method Skip()
      requires Valid() && Silent(sys) && LoopSlot(sys.phase) < |sys.slots|
      modifies this`sys, this`run
      ensures Valid() && old(run) < run
      ensures sys == old(sys).(phase := PhaseAfterSkip(old(sys.phase)))
    {
      Take(Action.Server);
    }

    /** The end of a loop. */
    method Pass()
      requires Valid() && Silent(sys)
      modifies this`sys, this`run
      ensures Valid() && old(run) < run && CanAdvance(old(sys)) && sys == Advanced(old(sys))
    {
      Take(Action.Server);
    }

    /** What the server has drawn for this round. */
    method Announce(shape: int, ghost draws: seq<nat>, order: seq<int>)
      requires Valid() && sys.phase == Draw && 0 <= shape < 16
      requires IsDraws(draws, 16) && order == Mix(Identity(16), draws)
      modifies this`sys, this`run
      ensures Valid() && old(run) < run
      ensures sys == old(sys).(table := old(sys.table).(shape := shape, order := order), phase := Deal(0, 0))
    {
      RunGrows(N, run, DrawRound(shape, draws));
      sys := sys.(table := sys.table.(shape := shape, order := order), phase := Deal(0, 0));
      run := run + [sys];
    }
  }
}
