/**
  Players who leave without a word, and when the server notices.

  The barrier reads a slot only until it is ready. So a player who sends its ready byte and then vanishes is
  not missed before the server gathers answers: the round starts with it, and its slot is dropped there.
*/
module Departures {
  import opened Shuffle
  import opened Protocol
  import opened ProtocolInvariant
  import opened ProtocolPreservation
  import opened ProtocolTheorems

  // ---------------------------------------------------------------- where a departure can be noticed

  /** Loops that receive from slots whether they are ready or not. */
  predicate Gathers(p: Phase) {
    p.Gather? || p.Choices?
  }

  /** A ready slot keeps its place and its flag under every action outside the gathering loops. */
  lemma ReadyStays(N: nat, s: System, a: Action, j: nat)
    requires Inv(N, s) && Enabled(N, s, a) && j < |s.slots| && !Gathers(s.phase)
    requires s.slots[j].active && s.slots[j].ready
    ensures Next(N, s, a).slots[j].active && Next(N, s, a).slots[j].ready
  {
    hide Inv, Act, Mix, Advanced;
    if a.Server? { ReadyStaysInServer(N, s, j); }
  }

  lemma ReadyStaysInServer(N: nat, s: System, j: nat)
    requires Inv(N, s) && CanAdvance(s) && j < |s.slots| && !Gathers(s.phase)
    requires s.slots[j].active && s.slots[j].ready
    ensures Advanced(s).slots[j].active && Advanced(s).slots[j].ready
  {
    hide Inv, Tenant, Receive, Best, Worst;
  }

  /** So over any stretch of a run outside those loops, whatever happens to its player. */
  lemma {:induction false} ReadyStaysOverRun(N: nat, run: seq<System>, first: nat, last: nat, j: nat)
    requires IsRun(N, run) && first <= last < |run| && j < |run[first].slots|
    requires run[first].slots[j].active && run[first].slots[j].ready
    requires forall i :: first <= i < last ==> !Gathers(run[i].phase)
    ensures j < |run[last].slots| && run[last].slots[j].active && run[last].slots[j].ready
    decreases last
  {
    hide Inv, Enabled, Next, IsRun;
    if first < last {
      ReadyStaysOverRun(N, run, first, last - 1, j);
      var a := StepOf(N, run, last - 1);
      ReadyStays(N, run[last - 1], a, j);
    }
  }

  /**
    The exact condition in the barrier. When the reading loop reaches an active slot whose player has
    vanished, it drops that slot if and only if select() reported it, it is not ready, and no ready byte is
    left to read.
  */
  lemma VanishedIsDroppedWhen(N: nat, s: System)
    requires Inv(N, s) && s.phase.Read? && s.phase.i < |s.slots| && !s.closing && CanAdvance(s)
    requires s.slots[s.phase.i].active && s.slots[s.phase.i].conn.client.status == Dead
    ensures var i, x := s.phase.i, s.slots[s.phase.i];
            !StepRead(s).slots[i].active <==> !x.ready && x.fd in s.phase.readable && x.conn.up == []
  {
    hide Aligned, Informed, Receive;
    ReceiveReadsSlot(N, s, s.phase.i);
  }

  /**
    In the gathering loops the flag plays no part: a slot whose player has vanished is dropped there if and
    only if nothing it sent is left to read, or in the last loop if what is left is not an 'o'.
  */
  lemma VanishedIsDroppedInGathering(N: nat, s: System, i: nat)
    requires Inv(N, s) && CanAdvance(s) && Gathers(s.phase) && i == WaitsFor(s)
    requires s.slots[i].conn.client.status == Dead
    ensures var x := s.slots[i];
            !Advanced(s).slots[i].active <==> x.conn.up == [] || (s.phase.Choices? && x.conn.up[0].body != Byte('o'))
  {
    hide Aligned, Informed, Receive;
    ReceiveReadsSlot(N, s, i);
  }

  /** A slot that the barrier will carry into the round: it is ready, or a ready byte is there to be read. */
  predicate Carried(x: Slot) {
    x.active && (x.ready || x.conn.up != [])
  }

  /** Once its player has vanished, no step of the barrier makes a slot carried or stops it being so. */
  lemma CarriedStays(N: nat, s: System, a: Action, j: nat)
    requires Inv(N, s) && Enabled(N, s, a) && InBarrier(s.phase) && j < |s.slots|
    requires s.slots[j].conn.client.status == Dead
    ensures Carried(Next(N, s, a).slots[j]) == Carried(s.slots[j])
  {
    hide Inv, Act, Mix, StepRead, ReadableFds, Newcomer;
    if a.Server? { CarriedStaysInReading(N, s, j); }
  }

  lemma CarriedStaysInReading(N: nat, s: System, j: nat)
    requires Inv(N, s) && CanAdvance(s) && s.phase.Read? && j < |s.slots|
    requires s.slots[j].conn.client.status == Dead
    ensures Carried(StepRead(s).slots[j]) == Carried(s.slots[j])
  {
    hide Aligned, Informed, SomeActive, AllReady;
    var i := s.phase.i;
    if i < |s.slots| {
      assert SlotOk(s, i, s.slots[i]);
      if s.closing {
        CloseEndsSlot(N, s, i);
      } else if WaitsFor(s) == i {
        ReceiveReadsSlot(N, s, i);
        if s.slots[i].conn.up != [] { ReceiveAdvancesSlot(N, s, i, 0); }
      }
    }
  }

  /**
    The exact condition over a whole barrier: of a player who has vanished, the slot is still in the game when
    the round starts if and only if it was ready, or its ready byte had come and was still to be read.
  */
  lemma VanishedIsInAtStart(N: nat, run: seq<System>, first: nat, last: nat, j: nat)
    requires IsRun(N, run) && first < last < |run| && j < |run[first].slots|
    requires forall i :: first <= i < last ==> InBarrier(run[i].phase)
    requires run[first].slots[j].active && run[first].slots[j].conn.client.status == Dead
    requires run[last].phase == Start(0)
    ensures j < |run[last].slots|
    ensures run[last].slots[j].active <==> run[first].slots[j].ready || run[first].slots[j].conn.up != []
  {
    hide IsRun, SlotOk;
    VanishedStaysOverRun(N, run, first, last, j);
    CarriedStaysOverRun(N, run, first, last, j);
    RunsKeepInvariant(N, run, last);
  }

  lemma {:induction false} CarriedStaysOverRun(N: nat, run: seq<System>, first: nat, last: nat, j: nat)
    requires IsRun(N, run) && first <= last < |run| && j < |run[first].slots|
    requires forall i :: first <= i < last ==> InBarrier(run[i].phase)
    requires run[first].slots[j].conn.client.status == Dead
    ensures j < |run[last].slots| && Carried(run[last].slots[j]) == Carried(run[first].slots[j])
    decreases last
  {
    hide IsRun, Inv, Enabled, Next, Carried;
    if first < last {
      CarriedStaysOverRun(N, run, first, last - 1, j);
      VanishedStaysOverRun(N, run, first, last - 1, j);
      var a := StepOf(N, run, last - 1);
      CarriedStays(N, run[last - 1], a, j);
    }
  }

  // ---------------------------------------------------------------- what has become of them by the results

  /** The vanished stay as they were: same step, same answers. */
  lemma VanishedStays(N: nat, s: System, a: Action, j: nat)
    requires Inv(N, s) && Enabled(N, s, a) && j < |s.slots| && s.slots[j].conn.client.status != Playing
    ensures Next(N, s, a).slots[j].conn.client == s.slots[j].conn.client
  {
    hide Inv, Act, Mix, Advanced;
    if a.Server? { ServerLeavesClients(N, s); }
  }

  /** No step of the server changes a player. */
  lemma ServerLeavesClients(N: nat, s: System)
    requires CanAdvance(s)
    ensures forall j :: 0 <= j < |s.slots| ==> Advanced(s).slots[j].conn.client == s.slots[j].conn.client
  {
    hide Popped, Sent, CloseFd, Receive, Best, Worst;
    forall fd ensures SameClients(s.slots, Popped(s.slots, fd)) && SameClients(s.slots, CloseFd(s.slots, fd)) {
      IoLeavesClients(s.slots, fd);
    }
    forall fd, m ensures SameClients(s.slots, Sent(s.slots, fd, m)) {
      SendLeavesClients(s.slots, fd, m);
    }
  }

  predicate SameClients(a: seq<Slot>, b: seq<Slot>) {
    |a| == |b| && forall j :: 0 <= j < |a| ==> a[j].conn.client == b[j].conn.client
  }

  lemma IoLeavesClients(slots: seq<Slot>, fd: int)
    ensures SameClients(slots, Popped(slots, fd)) && SameClients(slots, CloseFd(slots, fd))
  {
  }

  lemma SendLeavesClients(slots: seq<Slot>, fd: int, m: Message)
    ensures SameClients(slots, Sent(slots, fd, m))
  {
  }

  lemma {:induction false} VanishedStaysOverRun(N: nat, run: seq<System>, first: nat, last: nat, j: nat)
    requires IsRun(N, run) && first <= last < |run| && j < |run[first].slots|
    requires run[first].slots[j].conn.client.status != Playing
    ensures j < |run[last].slots| && run[last].slots[j].conn.client == run[first].slots[j].conn.client
    ensures run[last].slots[j].base == run[first].slots[j].base
    decreases last
  {
    hide Inv, Enabled, Next, IsRun;
    if first < last {
      VanishedStaysOverRun(N, run, first, last - 1, j);
      var a := StepOf(N, run, last - 1);
      VanishedStays(N, run[last - 1], a, j);
      TableOnlyGrows(N, run[last - 1], a);
    }
  }

  /** Before the server gathers answers: the round has begun and no answer has been read. */
  predicate BeforeAnswers(p: Phase) {
    p.Start? || p.Draw? || p.Deal?
  }

  /**
    Whoever has vanished before the server gathers answers is out by the time results are sent, unless it had
    already been dealt the board and answered in full.
  */
  lemma VanishedIsOutByResults(N: nat, run: seq<System>, first: nat, last: nat, j: nat)
    requires IsRun(N, run) && first <= last < |run| && j < |run[first].slots|
    requires BeforeAnswers(run[first].phase)
    requires run[first].slots[j].active && run[first].slots[j].conn.client.status == Dead
    requires run[last].phase.Results? && run[last].round == run[first].round
    ensures j < |run[last].slots|
    ensures run[last].slots[j].active ==>
              Place(run[first].slots[j].conn.client, run[first].round - run[first].slots[j].base) == 6
  {
    hide IsRun;
    VanishedStaysOverRun(N, run, first, last, j);
    RunsKeepInvariant(N, run, first);
    RunsKeepInvariant(N, run, last);
    assert SlotOk(run[first], j, run[first].slots[j]);
    assert SlotOk(run[last], j, run[last].slots[j]);
  }

  /** In particular whoever was gone when the round was drawn, so before it could know the board. */
  lemma GoneAtTheDrawIsOutByResults(N: nat, run: seq<System>, first: nat, last: nat, j: nat)
    requires IsRun(N, run) && first <= last < |run| && j < |run[first].slots|
    requires (run[first].phase.Start? || run[first].phase.Draw?) && run[first].slots[j].conn.client.status == Dead
    requires run[first].slots[j].active
    requires run[last].phase.Results? && run[last].round == run[first].round
    ensures j < |run[last].slots| && !run[last].slots[j].active
  {
    hide IsRun;
    VanishedIsOutByResults(N, run, first, last, j);
    RunsKeepInvariant(N, run, first);
    assert SlotOk(run[first], j, run[first].slots[j]);
  }

  // ---------------------------------------------------------------- an input that shows it

  /** One player, ready before it is welcomed, at descriptor 3. */
  const EAGER := Client(Playing, 0, 1, 0, [], 0, false, 0, 0, 0)
  const READY_BYTE := Message(0, 0, Byte('1'))

  /** The barrier with this player's slot; `ready` once its byte has been read, and then it may have vanished. */
  function OnePlayer(phase: Phase, ready: bool, status: Status): System {
    var up := if ready then [] else [READY_BYTE];
    var c := Conn(3, true, 0, EAGER.(status := status), up, []);
    System(phase, false, 0, Table(0, [], 100, 0), 0, [Slot(3, true, ready, 100, false, 0, c)])
  }

  /** Welcome, select, read, vanish: and the round starts all the same. */
  function LateCrash(): seq<System> {
    [System(Welcome, false, 0, Table(0, [], 100, 0), 0, []),
     OnePlayer(Welcome, false, Playing),
     OnePlayer(Select, false, Playing),
     OnePlayer(Admit({3}), false, Playing),
     OnePlayer(Read(0, {3}, 1), false, Playing),
     OnePlayer(Read(1, {3}, 1), true, Playing),
     OnePlayer(Read(1, {3}, 1), true, Dead),
     OnePlayer(Start(0), true, Dead)]
  }

  /** For any size of the table there is a run in which a round starts and its only player has vanished. */
  lemma RoundMayStartWithoutItsPlayer(N: nat)
    requires N > 0
    ensures IsRun(N, LateCrash())
    ensures var s := LateCrash()[7];
            s.phase == Start(0) && s.slots[0].active && s.slots[0].conn.client.status == Dead
  {
    var run := LateCrash();
    assert Step(N, run[0], run[1]) by { LateCrashArrives(N); }
    assert Step(N, run[1], run[2]) by { assert Next(N, run[1], WelcomeDone) == run[2]; }
    assert Step(N, run[2], run[3]) by { LateCrashIsReported(N); }
    assert Step(N, run[3], run[4]) by { assert Next(N, run[3], AdmitNone) == run[4]; }
    assert Step(N, run[4], run[5]) by { LateCrashIsRead(N); }
    assert Step(N, run[5], run[6]) by { assert Next(N, run[5], ClientStep(0, Die(0))) == run[6]; }
    assert Step(N, run[6], run[7]) by { LateCrashStarts(N); }
  }

  lemma LateCrashArrives(N: nat)
    requires N > 0
    ensures Step(N, LateCrash()[0], LateCrash()[1])
  {
    var a := WelcomeNew(3, EAGER, [READY_BYTE]);
    assert Newcomer(EAGER, [READY_BYTE]);
    assert Enabled(N, LateCrash()[0], a) && Next(N, LateCrash()[0], a) == LateCrash()[1];
  }

  lemma LateCrashIsReported(N: nat)
    ensures Step(N, LateCrash()[2], LateCrash()[3])
  {
    var s := LateCrash()[2];
    SelfTenant(s.slots, 0);
    assert s.slots[0].active && !Receive(s.slots, s.slots[0].fd).Blocked?;
    assert ReadableFds(s.slots) == {3};
    assert Next(N, s, SelectReturns) == LateCrash()[3];
  }

  lemma LateCrashIsRead(N: nat)
    ensures Step(N, LateCrash()[4], LateCrash()[5])
  {
    var s := LateCrash()[4];
    SelfTenant(s.slots, 0);
    assert Receive(s.slots, 3) == Got(READY_BYTE);
    assert Enabled(N, s, Action.Server);
    assert [READY_BYTE][1..] == [];
    assert StepRead(s).slots == LateCrash()[5].slots;
    assert Next(N, s, Action.Server) == LateCrash()[5];
  }

  lemma LateCrashStarts(N: nat)
    ensures Step(N, LateCrash()[6], LateCrash()[7])
  {
    var s := LateCrash()[6];
    assert s.slots[0].active && SomeActive(s.slots) && AllReady(s.slots);
    assert Enabled(N, s, Action.Server);
    assert Next(N, s, Action.Server) == LateCrash()[7];
  }
}
