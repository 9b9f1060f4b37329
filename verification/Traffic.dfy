/**
  What goes over each connection in a run, in messages and in bytes.

  The logs below list every message either end has ever put on a connection, read off the run itself. Each end
  takes them by its own program: the sizes of its receives follow from how many it has done, and from nothing
  in the stream. That both agree, wherever the stream stands, is proved from the protocol's invariant.
*/
module Traffic {
  import opened Shuffle
  import opened Protocol
  import opened ProtocolInvariant
  import opened ProtocolPreservation
  import opened Scores
  import opened Machine
  import opened Wire

  // ---------------------------------------------------------------- the logs

  /** The message that a step has put at the end of a channel, if it has. */
  function Appended(before: seq<Message>, after: seq<Message>): seq<Message> {
    if |after| == |before| + 1 && before <= after then [after[|before|]] else []
  }

  /** Everything the server has sent on connection j. */
  function DownLog(run: seq<System>, j: nat): seq<Message> {
    if run == [] || j >= |run[|run| - 1].slots| then []
    else
      var n := |run| - 1;
      var c := run[n].slots[j].conn;
      if n == 0 || j >= |run[n - 1].slots| then c.down
      else DownLog(run[..n], j) + Appended(run[n - 1].slots[j].conn.down, c.down)
  }

  /** Everything the player has sent on connection j, before it was accepted too. */
  function UpLog(run: seq<System>, j: nat): seq<Message> {
    if run == [] || j >= |run[|run| - 1].slots| then []
    else
      var n := |run| - 1;
      var c := run[n].slots[j].conn;
      if n == 0 || j >= |run[n - 1].slots| then c.up
      else UpLog(run[..n], j) + Appended(run[n - 1].slots[j].conn.up, c.up)
  }

  // ---------------------------------------------------------------- the two programs' receives

  const DOWN_STEPS := [1, 2, 3, 6, 7]
  const UP_STEPS := [0, 4, 5, 8]

  /** The n-th message from the server is for this round and step of the client's program. */
  predicate IsDown(m: Message, n: nat) {
    m.round == n / 5 && m.step == DOWN_STEPS[n % 5]
  }

  /** The n-th message from the client is for this round and step of the server's program. */
  predicate IsUp(m: Message, n: nat) {
    m.round == n / 4 && m.step == UP_STEPS[n % 4]
  }

  /** How many receives a client has done when it is at this place of its program. */
  function DownBefore(round: int, step: int): int {
    5 * round + if step <= 1 then 0 else if step <= 3 then step - 1 else if step <= 6 then 3 else step - 3
  }

  /** How many receives from one client the server has done when it is at this place of its program. */
  function UpBefore(round: int, step: int): int {
    4 * round + if step <= 0 then 0 else if step <= 4 then 1 else if step <= 5 then 2 else if step <= 8 then 3 else 4
  }

  /** What a receive of client.c at this step asks for: the start byte, the order, or one int. */
  function ClientAsks(n: nat): Kind {
    if n % 5 == 0 then OneByte else if n % 5 == 2 then SixteenWords else OneWord
  }

  /** What a receive of serveur.c asks for: the ready byte, the answer, the time, or the choice. */
  function ServerAsks(n: nat): Kind {
    if n % 4 == 0 || n % 4 == 3 then OneByte else OneWord
  }

  function ClientKinds(n: nat): (k: seq<Kind>)
    ensures |k| == n
  {
    seq(n, i requires 0 <= i < n => ClientAsks(i))
  }

  function ServerKinds(n: nat): (k: seq<Kind>)
    ensures |k| == n
  {
    seq(n, i requires 0 <= i < n => ServerAsks(i))
  }

  // ---------------------------------------------------------------- one step

  /** A server step puts at most one message on a channel, the next of the script, and never takes one back. */
  predicate DownGrows(c: Conn, d: Conn) {
    && d.client == c.client
    && (d.down == c.down || (c.client.status == Playing && |d.down| == |c.down| + 1 && c.down <= d.down))
  }

  /** Nothing but its player puts anything on a channel to the server. */
  predicate UpOnlyTaken(c: Conn, d: Conn) {
    d.client == c.client && (d.up == c.up || (c.up != [] && d.up == c.up[1..]))
  }

  predicate ServerMoves(a: seq<Slot>, b: seq<Slot>) {
    |a| == |b| && forall j :: 0 <= j < |a| ==> DownGrows(a[j].conn, b[j].conn) && UpOnlyTaken(a[j].conn, b[j].conn)
  }

  /** Nothing has been sent to anybody. */
  predicate SameDown(a: seq<Slot>, b: seq<Slot>) {
    |a| == |b| && forall j :: 0 <= j < |a| ==> a[j].conn.down == b[j].conn.down
  }

  lemma IoMoves(slots: seq<Slot>, fd: int)
    ensures ServerMoves(slots, Popped(slots, fd)) && ServerMoves(slots, CloseFd(slots, fd))
    ensures SameDown(slots, CloseFd(slots, fd)) && SameDown(slots, Popped(slots, fd))
  {
  }

  lemma SendMoves(slots: seq<Slot>, fd: int, m: Message)
    ensures ServerMoves(slots, Sent(slots, fd, m))
  {
  }

  /** Phases whose loop sends. */
  predicate Sends(p: Phase) {
    p.Start? || p.Deal? || p.Results?
  }

  lemma SendingMoves(s: System)
    requires CanAdvance(s) && Sends(s.phase)
    ensures ServerMoves(s.slots, Advanced(s).slots)
    ensures !Sends(Advanced(s).phase) ==> SameDown(s.slots, Advanced(s).slots)
  {
    hide Sent, Best, Worst;
    forall fd, m ensures ServerMoves(s.slots, Sent(s.slots, fd, m)) {
      SendMoves(s.slots, fd, m);
    }
  }

  lemma ReceivingMoves(s: System)
    requires CanAdvance(s) && (s.phase.Read? || s.phase.Gather? || s.phase.Choices?)
    ensures ServerMoves(s.slots, Advanced(s).slots) && SameDown(s.slots, Advanced(s).slots)
  {
    hide Popped, CloseFd, Receive, Best, Worst, SomeActive, AllReady;
    var i := LoopIndex(s.phase);
    if 0 <= i < |s.slots| {
      var t, fd := Advanced(s), s.slots[i].fd;
      IoMoves(s.slots, fd);
      assert t.slots[i].conn == s.slots[i].conn || t.slots[i].conn == Popped(s.slots, fd)[i].conn
             || t.slots[i].conn == CloseFd(s.slots, fd)[i].conn;
    }
  }

  lemma FinalMoves(s: System)
    requires CanAdvance(s) && s.phase.Final?
    ensures ServerMoves(s.slots, Advanced(s).slots) && SameDown(s.slots, Advanced(s).slots)
  {
    hide CloseFd;
    if s.phase.i < |s.slots| { IoMoves(s.slots, s.slots[s.phase.i].fd); }
  }

  /** In a step of the whole system connection j is left to the server, or its own player acts. */
  lemma StepOnConn(N: nat, s: System, a: Action, j: nat)
    requires Enabled(N, s, a) && j < |s.slots|
    ensures var c, d := s.slots[j].conn, Next(N, s, a).slots[j].conn;
            if a.ClientStep? && a.j == j then CanAct(c, a.act) && d == Act(c, a.act)
            else DownGrows(c, d) && UpOnlyTaken(c, d)
                 && (!Sends(Next(N, s, a).phase) ==> d.down == c.down)
  {
    hide Act, CanAct, Advanced, Mix, ReadableFds;
    if a.Server? {
      if Sends(s.phase) { SendingMoves(s); } else if s.phase.Final? { FinalMoves(s); } else { ReceivingMoves(s); }
    }
  }

  // ---------------------------------------------------------------- the log to the client

  /** The log follows the script, and of a live player the unread messages are its end. */
  predicate DownInStep(log: seq<Message>, c: Conn) {
    && c.client.round >= 0
    && (forall n :: 0 <= n < |log| ==> IsDown(log[n], n) && Fits(log[n]))
    && (c.client.status == Playing ==>
          && 0 <= DownBefore(c.client.round, c.client.step) <= |log|
          && c.down == log[DownBefore(c.client.round, c.client.step)..])
  }

  /** The last message under way to a live player is the next of the script, counted from the player's place. */
  lemma NextDown(c: Conn, m: int, q: int, t: Table)
    requires Aligned(c, m, q, t) && c.client.status == Playing && c.down != [] && c.client.round >= 0
    ensures q - 1 in {1, 2, 3, 6, 7} && c.down[|c.down| - 1] == DownMsg(t, m, q - 1)
    ensures DownBefore(c.client.round, c.client.step) + |c.down| - 1 >= 0
    ensures IsDown(c.down[|c.down| - 1], DownBefore(c.client.round, c.client.step) + |c.down| - 1)
  {
    var e := q - 1;
    assert c.client.round == m && Place(c.client, m) == c.client.step;
    assert c.down[|c.down| - 1] == DownMsg(t, m, e);
    var n := DownBefore(c.client.round, c.client.step) + |c.down| - 1;
    assert n == 5 * m + if e <= 3 then e - 1 else e - 3;
  }

  /** The contents are of the sort that goes with the script step, and fit their bytes. */
  predicate Fits(m: Message) {
    KindOf(m.body) == StepKind(m.step) && Sendable(m.body)
  }

  function StepKind(step: int): Kind {
    if step == 0 || step == 1 || step == 8 then OneByte else if step == 3 then SixteenWords else OneWord
  }

  /** Whatever a player measures fits an int. */
  predicate TimesFit(run: seq<System>) {
    forall i, j :: 0 <= i < |run| && 0 <= j < |run[i].slots| ==> IsInt32(run[i].slots[j].conn.client.time)
  }

  /** What the server sends fits: shape and order from the draw, the extremes from what the players measured. */
  lemma SentFits(N: nat, run: seq<System>, n: nat, m: int, e: int)
    requires IsRun(N, run) && n < |run| && TimesFit(run) && e in {1, 2, 3, 6, 7}
    requires e == 1 || (e <= 3 && run[n].phase.Deal?) || (e >= 6 && run[n].phase.Results?)
    ensures Fits(DownMsg(run[n].table, m, e))
  {
    hide IsRun;
    RunsKeepInvariant(N, run, n);
    if e >= 6 {
      ResultsAreRight(N, run, n);
    }
  }

  lemma ClientActKeepsDown(log: seq<Message>, c: Conn, a: ClientAct)
    requires DownInStep(log, c) && CanAct(c, a)
    ensures DownInStep(log, Act(c, a)) && Appended(c.down, Act(c, a).down) == []
  {
  }

  lemma LogGrows(log: seq<Message>, c: Conn, d: Conn)
    requires DownInStep(log, c) && d.client == c.client && c.client.status == Playing
    requires |d.down| == |c.down| + 1 && c.down <= d.down
    requires IsDown(d.down[|c.down|], |log|) && Fits(d.down[|c.down|])
    ensures DownInStep(log + Appended(c.down, d.down), d)
  {
    hide Fits, IsDown, DownBefore;
    var m := d.down[|c.down|];
    assert d.down == c.down + [m];
  }

  /** Whoever is sent something is in the game, so the invariant says what is under way. */
  lemma SentIsNext(N: nat, run: seq<System>, n: nat, j: nat, a: Action)
    requires IsRun(N, run) && 0 < n < |run| && TimesFit(run) && j < |run[n - 1].slots| && j < |run[n].slots|
    requires Enabled(N, run[n - 1], a) && Next(N, run[n - 1], a) == run[n] && !(a.ClientStep? && a.j == j)
    requires run[n].slots[j].conn.down != run[n - 1].slots[j].conn.down && run[n].slots[j].conn.client.round >= 0
    ensures var d := run[n].slots[j].conn;
            && d.down != [] && Fits(d.down[|d.down| - 1])
            && DownBefore(d.client.round, d.client.step) + |d.down| - 1 >= 0
            && IsDown(d.down[|d.down| - 1], DownBefore(d.client.round, d.client.step) + |d.down| - 1)
  {
    hide IsRun, Act, CanAct, Enabled, Next, Aligned, Informed, DownBefore, IsDown, Fits, TimesFit;
    StepOnConn(N, run[n - 1], a, j);
    RunsKeepInvariant(N, run, n);
    var s := run[n];
    var x := s.slots[j];
    assert SlotOk(s, j, x);
    NextDown(x.conn, s.round - x.base, Expected(s.phase, j, x.ready), s.table);
    SentFits(N, run, n, s.round - x.base, Expected(s.phase, j, x.ready) - 1);
  }

  lemma DownLogOneMore(N: nat, run: seq<System>, j: nat, a: Action)
    requires IsRun(N, run) && TimesFit(run) && |run| > 1 && j < |run[|run| - 2].slots| && j < |run[|run| - 1].slots|
    requires DownInStep(DownLog(run[..|run| - 1], j), run[|run| - 2].slots[j].conn)
    requires Enabled(N, run[|run| - 2], a) && Next(N, run[|run| - 2], a) == run[|run| - 1]
    ensures DownInStep(DownLog(run, j), run[|run| - 1].slots[j].conn)
  {
    hide IsRun, TimesFit, Inv, Act, CanAct, Enabled, Next, DownBefore, IsDown, Fits;
    var n := |run| - 1;
    var log, c, d := DownLog(run[..n], j), run[n - 1].slots[j].conn, run[n].slots[j].conn;
    StepOnConn(N, run[n - 1], a, j);
    if a.ClientStep? && a.j == j {
      ClientActKeepsDown(log, c, a.act);
    } else if d.down != c.down {
      SentIsNext(N, run, n, j, a);
      LogGrows(log, c, d);
    } else {
      assert Appended(c.down, d.down) == [];
    }
  }

  /**
    In every run, the n-th message the server has sent a client is the one for the n-th receive of that
    client's program; it is of the sort that receive asks for; and a live player has taken exactly as many as
    its program has receives behind it.
  */
  lemma {:induction false} DownLogFollowsScript(N: nat, run: seq<System>, j: nat)
    requires IsRun(N, run) && TimesFit(run) && j < |run[|run| - 1].slots|
    ensures DownInStep(DownLog(run, j), run[|run| - 1].slots[j].conn)
    decreases |run|
  {
    hide Inv, Enabled, Next, DownInStep;
    var n := |run| - 1;
    assert n > 0;
    var a := StepOf(N, run, n - 1);
    if j < |run[n - 1].slots| {
      PrefixIsRun(N, run);
      DownLogFollowsScript(N, run[..n], j);
      DownLogOneMore(N, run, j, a);
    } else {
      NewcomersLogs(N, run, j, a);
    }
  }

  lemma PrefixIsRun(N: nat, run: seq<System>)
    requires IsRun(N, run) && |run| > 1
    ensures IsRun(N, run[..|run| - 1]) && (TimesFit(run) ==> TimesFit(run[..|run| - 1]))
  {
    var p := run[..|run| - 1];
    forall i | 0 <= i < |p| - 1 ensures Step(N, p[i], p[i + 1]) {
      assert Step(N, run[i], run[i + 1]);
    }
  }

  lemma NewcomersLogs(N: nat, run: seq<System>, j: nat, a: Action)
    requires |run| > 1 && |run[|run| - 2].slots| <= j < |run[|run| - 1].slots|
    requires Enabled(N, run[|run| - 2], a) && Next(N, run[|run| - 2], a) == run[|run| - 1]
    ensures DownInStep(DownLog(run, j), run[|run| - 1].slots[j].conn)
    ensures UpInStep(UpLog(run, j), run[|run| - 1].slots[j].conn)
  {
    hide Act, CanAct, Mix, Advanced, Newcomer, DownInStep, UpInStep;
    assert a.WelcomeNew? || a.AdmitNew?;
    NewcomerInStep(a.fd, run[|run| - 2].round, a.k, a.up);
  }

  lemma NewcomerInStep(fd: int, round: int, k: Client, up: seq<Message>)
    requires Newcomer(k, up)
    ensures DownInStep([], NewSlot(fd, round, k, up).conn) && UpInStep(up, NewSlot(fd, round, k, up).conn)
  {
  }

  // ---------------------------------------------------------------- the log from the client

  /** The log follows the script, and of a player who has not vanished the unread messages are its end. */
  predicate UpInStep(log: seq<Message>, c: Conn) {
    && c.client.round >= 0
    && (forall n :: 0 <= n < |log| ==> IsUp(log[n], n) && Fits(log[n]))
    && (c.client.status == Playing || c.client.status == Quit ==>
          && |log| == UpBefore(c.client.round, c.client.step)
          && |c.up| <= |log| && c.up == log[|log| - |c.up|..])
  }

  lemma UpPlace(round: nat, c: nat)
    requires c < 4
    ensures (4 * round + c) / 4 == round && (4 * round + c) % 4 == c
  {
  }

  /** What the player's act sends: nothing, or the message of its program's place. */
  lemma ActSends(c: Conn, a: ClientAct)
    requires CanAct(c, a) && c.client.round >= 0 && IsInt32(c.client.time)
    ensures var d := Act(c, a); var n := UpBefore(c.client.round, c.client.step);
            && d.client.round >= 0
            && (a.Die? ==> d.client.status == Dead && Appended(c.up, d.up) == [])
            && (a.ReceiveNext? ==> d.up == c.up && UpBefore(d.client.round, d.client.step) == n)
            && (!a.Die? && !a.ReceiveNext? ==>
                  && n >= 0 && d.up == c.up + [d.up[|c.up|]] && IsUp(d.up[|c.up|], n) && Fits(d.up[|c.up|])
                  && UpBefore(d.client.round, d.client.step) == n + 1)
  {
    UpPlace(c.client.round, if c.client.step == 0 then 0 else if c.client.step == 4 then 1
                            else if c.client.step == 5 then 2 else 3);
  }

  /** An act of the player appends what its program sends at that place. */
  lemma ClientActKeepsUp(log: seq<Message>, c: Conn, a: ClientAct)
    requires UpInStep(log, c) && CanAct(c, a) && IsInt32(c.client.time)
    ensures UpInStep(log + Appended(c.up, Act(c, a).up), Act(c, a))
  {
    ActSends(c, a);
    var d := Act(c, a);
    hide Act, CanAct, IsUp, Fits, UpBefore;
    assert c.client.status == Playing by { CanActPlaying(c, a); }
    if a.Die? || a.ReceiveNext? {
      assert log + [] == log;
    } else {
      assert Appended(c.up, d.up) == [d.up[|c.up|]];
    }
  }

  lemma CanActPlaying(c: Conn, a: ClientAct)
    requires CanAct(c, a)
    ensures c.client.status == Playing
  {
  }

  lemma TakenKeepsUp(log: seq<Message>, c: Conn, d: Conn)
    requires UpInStep(log, c) && UpOnlyTaken(c, d)
    ensures UpInStep(log + Appended(c.up, d.up), d)
  {
    assert Appended(c.up, d.up) == [];
    assert log + [] == log;
  }

  /**
    In every run, the n-th message a client has sent is the one for the n-th receive the server's program does
    on that connection, and it is of the sort that receive asks for.
  */
  lemma {:induction false} UpLogFollowsScript(N: nat, run: seq<System>, j: nat)
    requires IsRun(N, run) && TimesFit(run) && j < |run[|run| - 1].slots|
    ensures UpInStep(UpLog(run, j), run[|run| - 1].slots[j].conn)
    decreases |run|
  {
    hide Inv, Enabled, Next, Act, CanAct, UpInStep, Appended, UpOnlyTaken;
    var n := |run| - 1;
    assert n > 0;
    var a := StepOf(N, run, n - 1);
    if j < |run[n - 1].slots| {
      PrefixIsRun(N, run);
      UpLogFollowsScript(N, run[..n], j);
      var log, c := UpLog(run[..n], j), run[n - 1].slots[j].conn;
      StepOnConn(N, run[n - 1], a, j);
      if a.ClientStep? && a.j == j {
        ClientActKeepsUp(log, c, a.act);
      } else {
        TakenKeepsUp(log, c, run[n].slots[j].conn);
      }
    } else {
      NewcomersLogs(N, run, j, a);
    }
  }

  /** The server has taken exactly as many messages of a player as its own program has receives behind it. */
  lemma ServerHasTaken(N: nat, run: seq<System>, j: nat)
    requires IsRun(N, run) && TimesFit(run) && j < |run[|run| - 1].slots|
    requires run[|run| - 1].slots[j].active && run[|run| - 1].slots[j].conn.open
    requires run[|run| - 1].slots[j].conn.client.status != Dead
    ensures var s := run[|run| - 1]; var x := s.slots[j];
            var taken := UpBefore(s.round - x.base, Expected(s.phase, j, x.ready));
            0 <= taken <= |UpLog(run, j)| && x.conn.up == UpLog(run, j)[taken..]
  {
    hide IsRun, TimesFit, Inv, UpInStep, UpBefore, Expected;
    UpLogFollowsScript(N, run, j);
    LastState(N, run);
    SlotHasTaken(N, run[|run| - 1], j, UpLog(run, j));
  }

  lemma LastState(N: nat, run: seq<System>)
    requires IsRun(N, run)
    ensures run != [] && Inv(N, run[|run| - 1])
  {
    RunsKeepInvariant(N, run, |run| - 1);
  }

  lemma SlotHasTaken(N: nat, s: System, j: nat, log: seq<Message>)
    requires Inv(N, s) && j < |s.slots| && s.slots[j].active && s.slots[j].conn.open
    requires s.slots[j].conn.client.status != Dead && UpInStep(log, s.slots[j].conn)
    ensures var x := s.slots[j];
            var taken := UpBefore(s.round - x.base, Expected(s.phase, j, x.ready));
            0 <= taken <= |log| && x.conn.up == log[taken..]
  {
    hide Aligned, Informed, UpInStep, UpBefore;
    var x := s.slots[j];
    assert SlotOk(s, j, x);
    UnreadFromPlace(log, x.conn, s.round - x.base, Expected(s.phase, j, x.ready), s.table);
  }

  lemma UnreadFromPlace(log: seq<Message>, c: Conn, m: int, q: int, t: Table)
    requires Aligned(c, m, q, t) && UpInStep(log, c) && c.client.status != Dead && 0 <= q <= 9
    ensures 0 <= UpBefore(m, q) <= |log| && c.up == log[UpBefore(m, q)..]
  {
    SendsBetween(c.client, m, q);
    hide Aligned, UpBefore, IsUp, Fits;
    assert |c.up| == UpBefore(c.client.round, c.client.step) - UpBefore(m, q);
  }

  /** From the server's place to a client's that is ahead, the script has sends of the client only. */
  lemma SendsBetween(k: Client, m: int, q: int)
    requires 0 <= q <= 9 && 0 <= k.step < 9 && Low(q) <= Place(k, m) <= High(q)
    ensures UpBefore(k.round, k.step) - UpBefore(m, q) == if Place(k, m) > q then Place(k, m) - q else 0
  {
  }

  /** The right sort of contents for a script step, whatever the values. */
  predicate HasKind(k: Kind, b: Payload) {
    KindOf(b) == k && (b.Order? ==> IsPermutation(b.g, 16))
  }

  /**
    In every run, every message under way to or from an active slot has the sort of contents its script step
    calls for, so both ends agree on its size, whatever the players measured.
  */
  lemma MessagesHaveTheKindOfTheirStep(N: nat, run: seq<System>, i: nat, j: nat)
    requires IsRun(N, run) && i < |run| && j < |run[i].slots|
    requires run[i].slots[j].active && run[i].slots[j].conn.open
    ensures forall m :: m in run[i].slots[j].conn.up ==> HasKind(StepKind(m.step), m.body)
    ensures forall m :: m in run[i].slots[j].conn.down ==> HasKind(StepKind(m.step), m.body)
  {
    RunsKeepInvariant(N, run, i);
    var s := run[i];
    assert SlotOk(s, j, s.slots[j]);
  }

  // ---------------------------------------------------------------- the bytes

  function Bodies(log: seq<Message>): (b: seq<Payload>)
    ensures |b| == |log|
  {
    seq(|log|, i requires 0 <= i < |log| => log[i].body)
  }

  lemma DownAsked(log: seq<Message>, n: nat)
    requires forall i :: 0 <= i < |log| ==> IsDown(log[i], i) && Fits(log[i])
    ensures AllSendable(Bodies(log)) && SameKinds(ClientKinds(n), Bodies(log))
  {
    forall i | 0 <= i < |log| ensures ClientAsks(i) == KindOf(log[i].body) && Sendable(log[i].body) {
      assert IsDown(log[i], i) && Fits(log[i]);
    }
  }

  lemma UpAsked(log: seq<Message>, n: nat)
    requires forall i :: 0 <= i < |log| ==> IsUp(log[i], i) && Fits(log[i])
    ensures AllSendable(Bodies(log)) && SameKinds(ServerKinds(n), Bodies(log))
  {
    forall i | 0 <= i < |log| ensures ServerAsks(i) == KindOf(log[i].body) && Sendable(log[i].body) {
      assert IsUp(log[i], i) && Fits(log[i]);
    }
  }

  /**
    Downstream, in every run and on every connection: take the bytes of everything the server has sent, broken
    off anywhere and cut into any chunks. The first n receives of client.c give the messages sent, in order, as
    far as they came through whole.
  */
  lemma DownstreamIsRecovered(N: nat, run: seq<System>, j: nat, n: nat, p: nat, chunks: seq<seq<Octet>>)
    requires IsRun(N, run) && TimesFit(run) && j < |run[|run| - 1].slots|
    ensures AllSendable(Bodies(DownLog(run, j)))
    ensures p <= |Written(Bodies(DownLog(run, j)))| && Joined(chunks) == Written(Bodies(DownLog(run, j)))[..p] ==>
              var bodies := Bodies(DownLog(run, j));
              ReadAll(ClientKinds(n), [], chunks) == bodies[..Least(n, Whole(bodies, p))]
  {
    hide IsRun, TimesFit, Written, Joined, ReadAll, Whole, AllSendable, SameKinds;
    var log := DownLog(run, j);
    DownLogFollowsScript(N, run, j);
    DownAsked(log, n);
    if p <= |Written(Bodies(log))| && Joined(chunks) == Written(Bodies(log))[..p] {
      assert [] + Joined(chunks) == Joined(chunks);
      StreamRoundTrip(ClientKinds(n), Bodies(log), p, [], chunks);
    }
  }

  /** Upstream likewise, with the receives serveur.c does on that connection. */
  lemma UpstreamIsRecovered(N: nat, run: seq<System>, j: nat, n: nat, p: nat, chunks: seq<seq<Octet>>)
    requires IsRun(N, run) && TimesFit(run) && j < |run[|run| - 1].slots|
    ensures AllSendable(Bodies(UpLog(run, j)))
    ensures p <= |Written(Bodies(UpLog(run, j)))| && Joined(chunks) == Written(Bodies(UpLog(run, j)))[..p] ==>
              var bodies := Bodies(UpLog(run, j));
              ReadAll(ServerKinds(n), [], chunks) == bodies[..Least(n, Whole(bodies, p))]
  {
    hide IsRun, TimesFit, Written, Joined, ReadAll, Whole, AllSendable, SameKinds;
    var log := UpLog(run, j);
    UpLogFollowsScript(N, run, j);
    UpAsked(log, n);
    if p <= |Written(Bodies(log))| && Joined(chunks) == Written(Bodies(log))[..p] {
      assert [] + Joined(chunks) == Joined(chunks);
      StreamRoundTrip(ServerKinds(n), Bodies(log), p, [], chunks);
    }
  }
}
