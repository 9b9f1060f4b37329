/**
  What the protocol guarantees in every run: each receive gets its own message, nobody waits forever on
  somebody who waits for him, the barrier is safe and makes progress, all players of a round see the same
  board, scores are right end to end, and no descriptor is leaked, shared or closed twice.
*/
module ProtocolTheorems {
  import opened Shuffle
  import opened Protocol
  import opened ProtocolInvariant
  import opened ProtocolPreservation

  // ---------------------------------------------------------------- phase alignment

  /** The script step of the message the server is waiting for. */
  function AwaitedStep(p: Phase): int {
    match p
    case Gather(_, part) => 4 + part
    case Choices(_) => 8
    case _ => 0
  }

  /**
    Whatever recv() hands the server was sent by the client of that very slot, for the very round and step
    the server has reached, even when a fast client has queued its choice and the next ready byte.
  */
  lemma ServerReceivesWhatItAwaits(N: nat, run: seq<System>, i: nat)
    requires IsRun(N, run) && i < |run| && WaitsFor(run[i]) >= 0
    ensures var s := run[i]; var x := s.slots[WaitsFor(s)];
            && Tenant(s.slots, x.fd) == WaitsFor(s)
            && (forall m :: Receive(s.slots, x.fd) == Got(m) ==>
                  && m == x.conn.up[0]
                  && m.round == s.round - x.base && m.step == AwaitedStep(s.phase)
                  && (s.phase.Read? ==> m.body == Byte('1'))
                  && (s.phase.Gather? ==> m.body == Word(if s.phase.part == 1 then x.conn.client.time
                                                         else if x.conn.client.correct then 1 else 0))
                  && (s.phase.Choices? ==> m.body == Byte(if x.conn.client.status == Quit then 'n' else 'o')))
  {
    hide Aligned, Informed, IsRun, Tenant;
    RunsKeepInvariant(N, run, i);
    var s := run[i];
    var j := WaitsFor(s);
    assert SlotOk(s, j, s.slots[j]);
    SelfTenant(s.slots, j);
    if s.slots[j].conn.up != [] {
      ServerReceives(s.slots[j].conn, s.round - s.slots[j].base, AwaitedStep(s.phase), s.table);
    }
  }

  /** Whatever a client receives was sent for its own current round and step; so none ever loses step. */
  lemma ClientReceivesWhatItAwaits(N: nat, run: seq<System>, i: nat, j: nat)
    requires IsRun(N, run) && i < |run| && j < |run[i].slots|
    ensures var c := run[i].slots[j].conn;
            && c.client.status != Lost
            && (CanAct(c, ReceiveNext) ==>
                  && c.down[0].round == c.client.round && c.down[0].step == c.client.step
                  && c.down[0].body == (match c.client.step
                                        case 1 => Byte('1')
                                        case 2 => Word(run[i].table.shape)
                                        case 3 => Order(run[i].table.order)
                                        case 6 => Word(run[i].table.best)
                                        case _ => Word(run[i].table.worst)))
  {
    RunsKeepInvariant(N, run, i);
    var s := run[i];
    assert SlotOk(s, j, s.slots[j]);
    var x := s.slots[j];
    if CanAct(x.conn, ReceiveNext) {
      ClientReceives(x.conn, s.round - x.base, Expected(s.phase, j, x.ready), s.table);
    }
  }

  /**
    On every connection of a live player, the unread messages are exactly the sends between the two places
    on the script: at most two from the player, or at most three from the server, never both.
  */
  lemma UnreadIsTheGap(N: nat, run: seq<System>, i: nat, j: nat)
    requires IsRun(N, run) && i < |run| && j < |run[i].slots|
    requires run[i].slots[j].active && run[i].slots[j].conn.open
    requires run[i].slots[j].conn.client.status == Playing
    ensures var s := run[i]; var x := s.slots[j]; var m := s.round - x.base;
            var q, r := Expected(s.phase, j, x.ready), Place(x.conn.client, m);
            && |x.conn.up| - |x.conn.down| == r - q
            && (|x.conn.up| == 0 || |x.conn.down| == 0) && |x.conn.up| <= 2 && |x.conn.down| <= 3
            && (forall n :: 0 <= n < |x.conn.up| ==> x.conn.up[n] == UpMsg(x.conn.client, m, q + n))
            && (forall n :: 0 <= n < |x.conn.down| ==> x.conn.down[n] == DownMsg(s.table, m, r + n))
  {
    RunsKeepInvariant(N, run, i);
    assert SlotOk(run[i], j, run[i].slots[j]);
  }

  // ---------------------------------------------------------------- no deadlock

  /** A descriptor number above all the ones in use. */
  function UnusedFd(slots: seq<Slot>): (fd: int)
    ensures fd >= 0 && forall j :: 0 <= j < |slots| ==> slots[j].conn.fd < fd
  {
    if slots == [] then 0
    else
      var k, fd := |slots| - 1, UnusedFd(slots[..|slots| - 1]);
      if slots[k].conn.fd < fd then fd else slots[k].conn.fd + 1
  }

  ghost predicate ServerCanMove(N: nat, s: System) {
    exists a: Action :: !a.ClientStep? && Enabled(N, s, a)
  }

  /** The act by which a player goes on: read what has come, or send what is due. */
  function Onward(k: Client): (a: ClientAct)
    ensures !a.Die?
  {
    if k.step in {1, 2, 3, 6, 7} then ReceiveNext
    else if k.step == 4 then Play(0, 0)
    else if k.step == 8 then Choose(true)
    else SendNext
  }

  /** How far the player the server waits for is behind the send it waits for. */
  function Lag(s: System): int {
    var w := WaitsFor(s);
    if w < 0 then 0 else AwaitedStep(s.phase) - Place(s.slots[w].conn.client, s.round - s.slots[w].base)
  }

  /** A blocked server waits for a live player who is not blocked and whose next act brings it nearer. */
  lemma BlockedPlayerGoesOn(N: nat, s: System)
    requires Inv(N, s) && InLoop(s) && !CanAdvance(s)
    ensures var w := WaitsFor(s); var c := s.slots[w].conn; var a := Onward(c.client);
            && w >= 0 && c.client.status == Playing && CanAct(c, a)
            && var t := Next(N, s, ClientStep(w, a));
               && WaitsFor(t) == w && InLoop(t) && (CanAdvance(t) || 0 <= Lag(t) < Lag(s))
  {
    hide Aligned, Informed, Act, CanAct;
    var w := WaitsFor(s);
    var x := s.slots[w];
    assert SlotOk(s, w, x);
    ReceiveReadsSlot(N, s, w);
    OnwardIsNearer(x.conn, s.round - x.base, AwaitedStep(s.phase), s.table);
    var a := Onward(x.conn.client);
    ClientKeeps(N, s, w, a);
    ReceiveReadsSlot(N, Next(N, s, ClientStep(w, a)), w);
  }

  lemma OnwardIsNearer(c: Conn, m: int, q: int, t: Table)
    requires Aligned(c, m, q, t) && c.open && c.client.status == Playing && c.up == [] && q in {0, 4, 5, 8}
    ensures var a := Onward(c.client);
            && CanAct(c, a)
            && var d := Act(c, a);
               d.up != [] || (Place(d.client, m) == Place(c.client, m) + 1 && Place(d.client, m) <= q)
  {
  }

  /** The state after players have done `acts` in order; an act that is not possible when its turn comes is skipped. */
  function AfterActs(N: nat, s: System, acts: seq<(nat, ClientAct)>): System
    decreases |acts|
  {
    if acts == [] then s
    else
      var a := ClientStep(acts[0].0, acts[0].1);
      AfterActs(N, if Enabled(N, s, a) then Next(N, s, a) else s, acts[1..])
  }

  /** All of `acts` are done by player j, and none is a crash. */
  predicate OnlyBy(acts: seq<(nat, ClientAct)>, j: int) {
    forall a :: a in acts ==> a.0 == j && !a.1.Die?
  }

  /** Whoever the server waits for can wake it alone: a few acts of that player end the wait. */
  lemma {:induction false} PlayerWakesServer(N: nat, s: System) returns (acts: seq<(nat, ClientAct)>)
    requires Inv(N, s) && InLoop(s)
    ensures CanAdvance(AfterActs(N, s, acts))
    ensures OnlyBy(acts, WaitsFor(s))
    decreases !CanAdvance(s), Lag(s)
  {
    hide Inv, Next, Advanced, Act, CanAct;
    if CanAdvance(s) {
      acts := [];
    } else {
      BlockedPlayerGoesOn(N, s);
      var w := WaitsFor(s);
      var a := Onward(s.slots[w].conn.client);
      NextKeeps(N, s, ClientStep(w, a));
      var rest := PlayerWakesServer(N, Next(N, s, ClientStep(w, a)));
      acts := [(w, a)] + rest;
      assert acts[1..] == rest;
    }
  }

  /**
    In every reachable state before the end, either the server can move, or it waits in recv() for a live
    player whose own next acts, without help from anyone, end that wait.
  */
  lemma NoDeadlock(N: nat, run: seq<System>, i: nat)
    requires N > 0 && IsRun(N, run) && i < |run| && run[i].phase != Stopped
    ensures var s := run[i];
            || ServerCanMove(N, s)
            || (&& WaitsFor(s) >= 0 && s.slots[WaitsFor(s)].conn.client.status == Playing
                && exists acts :: CanAdvance(AfterActs(N, s, acts)) && OnlyBy(acts, WaitsFor(s)))
  {
    RunsKeepInvariant(N, run, i);
    var s := run[i];
    if InLoop(s) {
      if CanAdvance(s) {
        assert Enabled(N, s, Server);
      } else {
        BlockedPlayerGoesOn(N, s);
        var acts := PlayerWakesServer(N, s);
        assert OnlyBy(acts, WaitsFor(s));
      }
    } else {
      QuietPhaseCanMove(N, s);
    }
  }

  lemma QuietPhaseCanMove(N: nat, s: System)
    requires N > 0 && !InLoop(s) && s.phase != Stopped
    ensures ServerCanMove(N, s)
  {
    if s.phase == Welcome {
      if s.slots == [] {
        var k := Client(Playing, 0, 0, 0, [], 0, false, 0, 0, 0);
        assert Newcomer(k, []);
        assert Enabled(N, s, WelcomeNew(UnusedFd(s.slots), k, []));
      } else {
        assert Enabled(N, s, WelcomeDone);
      }
    } else if s.phase == Select {
      assert Enabled(N, s, SelectReturns);
    } else if s.phase.Admit? {
      assert Enabled(N, s, AdmitNone);
    } else {
      assert Enabled(N, s, DrawRound(0, seq(16, n => 0)));
    }
  }

  /** The server and a live player never wait for each other. */
  lemma NeverBothWait(N: nat, run: seq<System>, i: nat)
    requires IsRun(N, run) && i < |run| && WaitsFor(run[i]) >= 0
    ensures var s := run[i]; var c := s.slots[WaitsFor(s)].conn;
            Receive(s.slots, c.fd).Blocked? ==> CanAct(c, Onward(c.client))
  {
    RunsKeepInvariant(N, run, i);
    var s := run[i];
    var w := WaitsFor(s);
    assert SlotOk(s, w, s.slots[w]);
    ReceiveReadsSlot(N, s, w);
  }

  // ---------------------------------------------------------------- a round ends

  predicate InRound(p: Phase) {
    p.Start? || p.Draw? || p.Deal? || p.Gather? || p.Results? || p.Choices? || p.Final?
  }

  /** How far a loop over n slots has come: at most three server steps a slot. */
  function LoopLeft(n: int, i: int, part: int, closing: bool): int {
    3 * (n - i) - if closing then 2 else part
  }

  /** A bound on the server's own steps until the next barrier or the end. */
  function RoundMeasure(s: System): int {
    var n := |s.slots|;
    match s.phase
    case Start(i) => 6 * (3 * n + 4) + LoopLeft(n, i, 0, s.closing)
    case Draw => 5 * (3 * n + 4)
    case Deal(i, part) => 4 * (3 * n + 4) + LoopLeft(n, i, part, s.closing)
    case Gather(i, part) => 3 * (3 * n + 4) + LoopLeft(n, i, part, s.closing)
    case Results(i, part) => 2 * (3 * n + 4) + LoopLeft(n, i, part, s.closing)
    case Choices(i) => 3 * n + 4 + LoopLeft(n, i, 0, s.closing)
    case Final(i) => LoopLeft(n, i, 0, s.closing)
    case _ => 0
  }

  predicate Nearer(s: System, t: System) {
    && (InRound(t.phase) ==> 0 <= RoundMeasure(t) < RoundMeasure(s))
    && (InRound(t.phase) || t.phase == Select || t.phase == Stopped)
  }

  lemma SendingStepDecreases(N: nat, s: System)
    requires Inv(N, s) && CanAdvance(s) && (s.phase.Start? || s.phase.Deal? || s.phase.Results? || s.phase.Final?)
    ensures Nearer(s, Advanced(s))
  {
    hide Aligned, Informed, SlotOk, SomeActive, Best, Worst, Tenant;
  }

  lemma GatherStepDecreases(N: nat, s: System)
    requires Inv(N, s) && CanAdvance(s) && s.phase.Gather?
    ensures Nearer(s, Advanced(s))
  {
    hide Aligned, Informed, SlotOk, SomeActive, Best, Worst, Tenant;
  }

  lemma ChoicesStepDecreases(N: nat, s: System)
    requires Inv(N, s) && CanAdvance(s) && s.phase.Choices?
    ensures Nearer(s, Advanced(s))
  {
    hide Aligned, Informed, SlotOk, SomeActive, Best, Worst, Tenant;
  }

  /** Every step of the server inside a round brings it nearer the next barrier or the end. */
  lemma RoundStepDecreases(N: nat, s: System, a: Action)
    requires Inv(N, s) && Enabled(N, s, a) && InRound(s.phase) && (a.Server? || a.DrawRound?)
    ensures Nearer(s, Next(N, s, a))
  {
    if a.Server? {
      match s.phase
      case Gather(_, _) => GatherStepDecreases(N, s);
      case Choices(_) => ChoicesStepDecreases(N, s);
      case _ => SendingStepDecreases(N, s);
    }
  }

  /** The state after `acts` in order; what is not possible when its turn comes is skipped. */
  function AfterActions(N: nat, s: System, acts: seq<Action>): System
    decreases |acts|
  {
    if acts == [] then s else AfterActions(N, if Enabled(N, s, acts[0]) then Next(N, s, acts[0]) else s, acts[1..])
  }

  lemma {:induction false} ActionsAppend(N: nat, s: System, a: seq<Action>, b: seq<Action>)
    ensures AfterActions(N, s, a + b) == AfterActions(N, AfterActions(N, s, a), b)
    decreases |a|
  {
    if a == [] {
      assert a + b == b;
    } else {
      assert (a + b)[1..] == a[1..] + b;
      ActionsAppend(N, if Enabled(N, s, a[0]) then Next(N, s, a[0]) else s, a[1..], b);
    }
  }

  /** Nobody arrives, crashes or is cut off by a failing select(): the server and its players just go on. */
  predicate Cooperative(a: Action) {
    a.Server? || a.DrawRound? || (a.ClientStep? && !a.act.Die?)
  }

  /** Player acts, as actions of the whole system. */
  function AsActions(acts: seq<(nat, ClientAct)>): (r: seq<Action>)
    ensures |r| == |acts|
  {
    seq(|acts|, i requires 0 <= i < |acts| => ClientStep(acts[i].0, acts[i].1))
  }

  lemma {:induction false} PlayerActions(N: nat, s: System, acts: seq<(nat, ClientAct)>)
    requires Inv(N, s)
    ensures var t := AfterActions(N, s, AsActions(acts));
            t == AfterActs(N, s, acts) && Inv(N, t) && t.phase == s.phase && t.closing == s.closing
            && |t.slots| == |s.slots|
    decreases |acts|
  {
    hide Inv;
    if acts != [] {
      var a := ClientStep(acts[0].0, acts[0].1);
      assert AsActions(acts)[1..] == AsActions(acts[1..]) && AsActions(acts)[0] == a;
      var t := if Enabled(N, s, a) then Next(N, s, a) else s;
      if Enabled(N, s, a) { NextKeeps(N, s, a); }
      PlayerActions(N, t, acts[1..]);
    }
  }

  /** Cooperative acts that lead from s to the next barrier or to the end. */
  predicate FinishRound(N: nat, s: System, acts: seq<Action>) {
    && (forall a :: a in acts ==> Cooperative(a))
    && (AfterActions(N, s, acts).phase == Select || AfterActions(N, s, acts).phase == Stopped)
  }

  /**
    From every reachable state inside a round, the server and the players it has can finish the round by
    going on: no interleaving leads to a state from which the next barrier, or the end, is out of reach.
  */
  lemma EveryRoundCanFinish(N: nat, run: seq<System>, i: nat)
    requires IsRun(N, run) && i < |run| && InRound(run[i].phase)
    ensures exists acts :: FinishRound(N, run[i], acts)
  {
    RunsKeepInvariant(N, run, i);
    var acts := RoundCanFinish(N, run[i]);
  }

  lemma {:induction false} RoundCanFinish(N: nat, s: System) returns (acts: seq<Action>)
    requires Inv(N, s) && InRound(s.phase)
    ensures FinishRound(N, s, acts)
    decreases RoundMeasure(s)
  {
    hide Inv, Next, RoundMeasure;
    var wake: seq<Action>, a: Action := [], DrawRound(0, seq(16, n => 0));
    if s.phase != Draw {
      var players := PlayerWakesServer(N, s);
      wake, a := AsActions(players), Action.Server;
      PlayerActions(N, s, players);
    }
    var t := AfterActions(N, s, wake);
    assert Enabled(N, t, a);
    RoundStepDecreases(N, t, a);
    NextKeeps(N, t, a);
    var u := Next(N, t, a);
    MeasureOfPhase(s, t);
    var rest: seq<Action> := [];
    if InRound(u.phase) {
      rest := RoundCanFinish(N, u);
    }
    acts := wake + ([a] + rest);
    ActionsAppend(N, s, wake, [a] + rest);
    assert ([a] + rest)[1..] == rest;
  }

  lemma MeasureOfPhase(s: System, t: System)
    requires t.phase == s.phase && t.closing == s.closing && |t.slots| == |s.slots|
    ensures RoundMeasure(t) == RoundMeasure(s)
  {
  }

  // ---------------------------------------------------------------- the barrier

  /** Active slots whose ready byte has not been read. */
  function Missing(slots: seq<Slot>): nat {
    if slots == [] then 0
    else Missing(slots[..|slots| - 1]) + if slots[|slots| - 1].active && !slots[|slots| - 1].ready then 1 else 0
  }

  function BarrierMeasure(N: nat, s: System): int {
    2 * (N - |s.slots|) + Missing(s.slots)
  }

  predicate InBarrier(p: Phase) {
    p.Select? || p.Admit? || p.Read?
  }

  /** The barrier's own state: how many slots there are, which are active and which are ready. */
  predicate SameTable(a: seq<Slot>, b: seq<Slot>) {
    |a| == |b| && forall j :: 0 <= j < |a| ==> a[j].active == b[j].active && a[j].ready == b[j].ready
  }

  lemma {:induction false} MissingOfSameTable(a: seq<Slot>, b: seq<Slot>)
    requires SameTable(a, b)
    ensures Missing(a) == Missing(b)
  {
    if a != [] {
      assert SameTable(a[..|a| - 1], b[..|b| - 1]);
      MissingOfSameTable(a[..|a| - 1], b[..|b| - 1]);
    }
  }

  lemma {:induction false} MissingOneLess(a: seq<Slot>, b: seq<Slot>, i: nat)
    requires i < |a| == |b| && a[i].active && !a[i].ready && !(b[i].active && !b[i].ready)
    requires forall j :: 0 <= j < |a| && j != i ==> a[j].active == b[j].active && a[j].ready == b[j].ready
    ensures Missing(b) == Missing(a) - 1
  {
    if i == |a| - 1 {
      assert SameTable(a[..i], b[..i]);
      MissingOfSameTable(a[..i], b[..i]);
    } else {
      MissingOneLess(a[..|a| - 1], b[..|b| - 1], i);
    }
  }

  /** Inside the barrier every step leaves the table as it is or makes the measure smaller. */
  lemma BarrierStepDecreases(N: nat, s: System, a: Action)
    requires Inv(N, s) && Enabled(N, s, a) && InBarrier(s.phase)
    ensures var t := Next(N, s, a);
            if SameTable(s.slots, t.slots) then BarrierMeasure(N, t) == BarrierMeasure(N, s)
            else 0 <= BarrierMeasure(N, t) < BarrierMeasure(N, s)
  {
    hide SlotOk, PhaseOk, DistinctFds, StepRead, StepStart, StepDeal, StepGather, StepResults, StepChoices, StepFinal;
    hide Act, CanAct, SomeActive, ReadableFds, Newcomer, Fresh, Mix;
    NextKeeps(N, s, a);
    var t := Next(N, s, a);
    if SameTable(s.slots, t.slots) {
      MissingOfSameTable(s.slots, t.slots);
    } else if a.AdmitNew? {
      assert t.slots[..|t.slots| - 1] == s.slots;
    } else {
      BarrierReadDecreases(N, s);
    }
  }

  lemma BarrierReadDecreases(N: nat, s: System)
    requires Inv(N, s) && CanAdvance(s) && s.phase.Read?
    ensures SameTable(s.slots, StepRead(s).slots) || Missing(StepRead(s).slots) < Missing(s.slots)
    ensures |StepRead(s).slots| == |s.slots|
  {
    hide Aligned, Informed;
    var i, t := s.phase.i, StepRead(s);
    if s.closing {
      assert SlotOk(s, i, s.slots[i]);
      CloseEndsSlot(N, s, i);
      assert SameTable(s.slots, t.slots);
    } else if WaitsFor(s) == i {
      ReceiveReadsSlot(N, s, i);
      if !SameTable(s.slots, t.slots) { MissingOneLess(s.slots, t.slots, i); }
    }
  }

  /** Steps of a run that change the barrier's table. */
  ghost function Changes(run: seq<System>): nat {
    if |run| < 2 then 0
    else Changes(run[..|run| - 1])
         + if SameTable(run[|run| - 2].slots, run[|run| - 1].slots) then 0 else 1
  }

  /**
    However long the barrier spins, only boundedly many of its steps change anything: arrivals, ready bytes
    and departures together are at most the measure at its start.
  */
  lemma {:induction false} BarrierChangesAreBounded(N: nat, run: seq<System>, first: nat, last: nat)
    requires IsRun(N, run) && first <= last < |run|
    requires forall i :: first <= i < last ==> InBarrier(run[i].phase)
    ensures Changes(run[first..last + 1]) + BarrierMeasure(N, run[last]) <= BarrierMeasure(N, run[first])
    ensures BarrierMeasure(N, run[last]) >= 0
    decreases last
  {
    hide Inv, Next, Enabled, SameTable;
    RunsKeepInvariant(N, run, last);
    if first < last {
      BarrierChangesAreBounded(N, run, first, last - 1);
      RunsKeepInvariant(N, run, last - 1);
      assert Step(N, run[last - 1], run[last - 1 + 1]);
      var a :| Enabled(N, run[last - 1], a) && Next(N, run[last - 1], a) == run[last];
      BarrierStepDecreases(N, run[last - 1], a);
      assert run[first..last + 1][..last - first] == run[first..last];
    }
  }

  /** A start byte (script step 1) is put on the channel to the client. */
  predicate GetsStartByte(before: Conn, after: Conn) {
    |after.down| == |before.down| + 1 && before.down <= after.down && after.down[|before.down|].step == 1
  }

  /** A start byte put on a channel comes from the sending loop after the barrier, and from nowhere else. */
  lemma StartByteComesFromBarrier(N: nat, s: System, a: Action, j: nat)
    requires Inv(N, s) && Enabled(N, s, a) && j < |s.slots|
    requires GetsStartByte(s.slots[j].conn, Next(N, s, a).slots[j].conn)
    ensures s.phase.Start? && s.phase.i == j && s.slots[j].active
  {
    hide Aligned, Informed, Tenant, Best, Worst, Mix;
    if a.Server? {
      var i := LoopSlot(s.phase);
      hide Advanced;
      if WaitsFor(s) >= 0 {
        ReceivingSendsNothing(N, s, j);
      } else if i < |s.slots| {
        ServerSendIsOfItsPhase(N, s, i);
      } else {
        LoopEndSendsNothing(s, j);
      }
    }
  }

  lemma ReceivingSendsNothing(N: nat, s: System, j: nat)
    requires Inv(N, s) && CanAdvance(s) && WaitsFor(s) >= 0 && j < |s.slots|
    ensures Advanced(s).slots[j].conn.down == s.slots[j].conn.down
  {
    hide Aligned, Informed, Tenant, SlotOk, PhaseOk;
    ReceiveReadsSlot(N, s, WaitsFor(s));
  }

  lemma LoopEndSendsNothing(s: System, j: nat)
    requires CanAdvance(s) && WaitsFor(s) < 0 && j < |s.slots| <= LoopSlot(s.phase)
    ensures Advanced(s).slots[j].conn.down == s.slots[j].conn.down
  {
    hide Tenant, Best, Worst;
  }

  /** The script step of the message that goes out on the slot the server's loop has reached. */
  function SentStep(p: Phase): int {
    match p
    case Start(_) => 1
    case Deal(_, part) => 2 + part
    case Results(_, part) => 6 + part
    case _ => -1
  }

  function LoopSlot(p: Phase): nat {
    match p
    case Read(i, _, _) => i
    case Start(i) => i
    case Deal(i, _) => i
    case Gather(i, _) => i
    case Results(i, _) => i
    case Choices(i) => i
    case Final(i) => i
    case _ => 0
  }

  /** Outside its receives the server touches one slot, and what it sends there carries that phase's step. */
  lemma ServerSendIsOfItsPhase(N: nat, s: System, i: nat)
    requires Inv(N, s) && CanAdvance(s) && i == LoopSlot(s.phase) < |s.slots| && WaitsFor(s) < 0
    ensures var t := Advanced(s);
            && |t.slots| == |s.slots|
            && (forall j :: 0 <= j < |s.slots| && j != i ==> t.slots[j].conn == s.slots[j].conn)
            && var c, d := s.slots[i].conn, t.slots[i].conn;
               || d.down == c.down
               || (s.slots[i].active && |d.down| == |c.down| + 1 && d.down[|c.down|].step == SentStep(s.phase))
  {
    hide Aligned, Informed;
    assert SlotOk(s, i, s.slots[i]);
    if s.closing || s.phase.Final? {
      if s.slots[i].conn.open { CloseEndsSlot(N, s, i); }
    } else if s.slots[i].active && SentStep(s.phase) > 0 {
      SendReachesSlot(N, s, i, SentStep(s.phase), DownBody(s.table, SentStep(s.phase)));
    }
  }

  /** Player k has sent its ready byte of round m. */
  predicate SentReady(k: Client, m: int) {
    Place(k, m) >= 1
  }

  /**
    Barrier safety: when a start byte goes out, at least one slot is active and the player of every active
    slot has sent '1' in this same round.
  */
  lemma BarrierIsSafe(N: nat, run: seq<System>, i: nat, a: Action, j: nat)
    requires IsRun(N, run) && i < |run| && Enabled(N, run[i], a) && j < |run[i].slots|
    requires GetsStartByte(run[i].slots[j].conn, Next(N, run[i], a).slots[j].conn)
    ensures SomeActive(run[i].slots)
    ensures forall k :: 0 <= k < |run[i].slots| && run[i].slots[k].active ==>
                          run[i].slots[k].ready
                          && SentReady(run[i].slots[k].conn.client, run[i].round - run[i].slots[k].base)
  {
    RunsKeepInvariant(N, run, i);
    StartByteComesFromBarrier(N, run[i], a, j);
    forall k | 0 <= k < |run[i].slots| && run[i].slots[k].active
      ensures SentReady(run[i].slots[k].conn.client, run[i].round - run[i].slots[k].base)
    {
      assert SlotOk(run[i], k, run[i].slots[k]);
    }
  }

  /** A ready byte is still under way. */
  predicate ReadyByteUnread(c: Conn) {
    exists n :: 0 <= n < |c.up| && c.up[n].step == 0
  }

  /**
    A ready flag seen in the barrier stands for a byte of this round that has been read: flags never carry
    over. Of a player who has not vanished, such a byte always sets the flag.
  */
  lemma ReadyIsOfThisRound(N: nat, run: seq<System>, i: nat, j: nat)
    requires IsRun(N, run) && i < |run| && j < |run[i].slots|
    requires InBarrier(run[i].phase) && run[i].slots[j].active
    ensures var x := run[i].slots[j];
            x.ready ==> SentReady(x.conn.client, run[i].round - x.base) && !ReadyByteUnread(x.conn)
    ensures var x := run[i].slots[j];
            x.conn.client.status != Dead && SentReady(x.conn.client, run[i].round - x.base) ==>
              x.ready || ReadyByteUnread(x.conn)
  {
    RunsKeepInvariant(N, run, i);
    assert SlotOk(run[i], j, run[i].slots[j]);
    var x := run[i].slots[j];
    if !x.ready && SentReady(x.conn.client, run[i].round - x.base) && x.conn.client.status != Dead {
      assert x.conn.up[0] == UpMsg(x.conn.client, run[i].round - x.base, 0);
    }
  }

  /** A connection accepted in a turn of the barrier loop is not read in that turn. */
  lemma NewcomerIsNotRead(N: nat, run: seq<System>, i: nat)
    requires IsRun(N, run) && i < |run| && run[i].phase.Read?
    ensures WaitsFor(run[i]) < run[i].phase.before
  {
    RunsKeepInvariant(N, run, i);
  }

  // ---------------------------------------------------------------- descriptors

  /**
    While the game runs, the open descriptors are those of the active slots, one each and all different,
    although numbers are reused; only a slot just marked inactive is still to be closed.
  */
  lemma DescriptorsMatchActiveSlots(N: nat, run: seq<System>, i: nat)
    requires IsRun(N, run) && i < |run| && !run[i].phase.Final? && !run[i].phase.Stopped?
    ensures |run[i].slots| <= N
    ensures forall j :: 0 <= j < |run[i].slots| ==>
              var x := run[i].slots[j];
              && (x.active ==> x.conn.open && Tenant(run[i].slots, x.fd) == j)
              && (x.conn.open && !x.active ==> run[i].closing && LoopIndex(run[i].phase) == j)
    ensures forall j, k :: 0 <= j < k < |run[i].slots| && run[i].slots[j].active && run[i].slots[k].active ==>
                             run[i].slots[j].fd != run[i].slots[k].fd
  {
    RunsKeepInvariant(N, run, i);
    var s := run[i];
    forall j | 0 <= j < |s.slots| && s.slots[j].active
      ensures s.slots[j].conn.open && Tenant(s.slots, s.slots[j].fd) == j
    {
      assert SlotOk(s, j, s.slots[j]);
      SelfTenant(s.slots, j);
    }
    forall j | 0 <= j < |s.slots| && s.slots[j].conn.open && !s.slots[j].active
      ensures s.closing && LoopIndex(s.phase) == j
    {
      assert SlotOk(s, j, s.slots[j]);
    }
    forall j, k | 0 <= j < k < |s.slots| && s.slots[j].active && s.slots[k].active
      ensures s.slots[j].fd != s.slots[k].fd
    {
      assert SlotOk(s, j, s.slots[j]) && SlotOk(s, k, s.slots[k]);
    }
  }

  /** Nothing is closed twice, and once the server has stopped everything has been closed once. */
  lemma EachConnectionClosedOnce(N: nat, run: seq<System>, i: nat, j: nat)
    requires IsRun(N, run) && i < |run| && j < |run[i].slots|
    ensures run[i].slots[j].conn.closes == if run[i].slots[j].conn.open then 0 else 1
    ensures run[i].phase == Stopped ==> run[i].slots[j].conn.closes == 1
  {
    RunsKeepInvariant(N, run, i);
    assert SlotOk(run[i], j, run[i].slots[j]);
  }

  /** The table only grows, and slots keep their connection's identity. */
  lemma TableOnlyGrows(N: nat, s: System, a: Action)
    requires Inv(N, s) && Enabled(N, s, a)
    ensures |s.slots| <= |Next(N, s, a).slots| <= N
    ensures forall j :: 0 <= j < |s.slots| ==>
              Next(N, s, a).slots[j].base == s.slots[j].base && Next(N, s, a).slots[j].fd == s.slots[j].fd
  {
    hide Aligned, Informed, PhaseOk, SlotOk, Act, Mix, Advanced;
    NextKeeps(N, s, a);
    if a.Server? {
      ServerKeepsSlots(s);
    }
  }

  lemma ServerKeepsSlots(s: System)
    requires CanAdvance(s)
    ensures forall j :: 0 <= j < |s.slots| ==>
              Advanced(s).slots[j].base == s.slots[j].base && Advanced(s).slots[j].fd == s.slots[j].fd
  {
    hide Tenant, Best, Worst, Receive;
  }

  /** A slot leaves the game only because its player has: the server never drops a live player. */
  lemma OnlyTheGoneAreDropped(N: nat, run: seq<System>, i: nat, j: nat)
    requires IsRun(N, run) && i < |run| && j < |run[i].slots| && !run[i].slots[j].active
    ensures run[i].slots[j].conn.client.status in {Quit, Dead}
  {
    RunsKeepInvariant(N, run, i);
    assert SlotOk(run[i], j, run[i].slots[j]);
  }

  // ---------------------------------------------------------------- who plays on

  /** Player k answered 'o' in round m. */
  predicate WantsMore(k: Client, m: int) {
    Place(k, m) >= 9 && k.status != Quit
  }

  /**
    When every choice is in, the active slots are those whose player answered 'o'; the count that decides
    whether to go on is positive exactly when there is one; and whoever is out has quit or died.
  */
  lemma ActiveAfterChoices(N: nat, run: seq<System>, i: nat)
    requires IsRun(N, run) && i < |run| && run[i].phase == Choices(|run[i].slots|)
    ensures run[i].replays > 0 <==> SomeActive(run[i].slots)
    ensures forall j :: 0 <= j < |run[i].slots| ==>
              var x := run[i].slots[j];
              && (x.active ==> WantsMore(x.conn.client, run[i].round - x.base))
              && (!x.active ==> x.conn.client.status in {Quit, Dead})
  {
    RunsKeepInvariant(N, run, i);
    forall j | 0 <= j < |run[i].slots|
      ensures var x := run[i].slots[j];
              && (x.active ==> WantsMore(x.conn.client, run[i].round - x.base))
              && (!x.active ==> x.conn.client.status in {Quit, Dead})
    {
      assert SlotOk(run[i], j, run[i].slots[j]);
    }
  }

  /** Every turn of the barrier, so every round, starts with an active player. */
  lemma RoundsStartWithAPlayer(N: nat, run: seq<System>, i: nat)
    requires IsRun(N, run) && i < |run|
    requires run[i].phase.Select? || run[i].phase.Start? || run[i].phase.Draw? || run[i].phase.Deal?
    ensures SomeActive(run[i].slots)
  {
    RunsKeepInvariant(N, run, i);
  }

  /** When nobody plays on, the server stops with nothing left for its final close loop. */
  lemma NothingLeftToClose(N: nat, run: seq<System>, i: nat)
    requires IsRun(N, run) && i < |run| && CanAdvance(run[i])
    requires !run[i].phase.Final? && Advanced(run[i]).phase.Final?
    ensures !SomeActive(Advanced(run[i]).slots)
    ensures forall j :: 0 <= j < |run[i].slots| ==> !Advanced(run[i]).slots[j].conn.open
  {
    RunsKeepInvariant(N, run, i);
    var t := Advanced(run[i]);
    ServerKeeps(N, run[i]);
    forall j | 0 <= j < |run[i].slots| ensures !t.slots[j].conn.open && !t.slots[j].active {
      assert SlotOk(t, j, t.slots[j]);
      assert SlotOk(run[i], j, run[i].slots[j]);
    }
  }
}
