/**
  Rounds end. Every interleaving inside a round is finite: whatever the server, the players and crashes do and
  in whatever order, a round takes no more than a fixed number of steps for each slot of the table.
*/
module RoundBound {
  import opened Protocol
  import opened ProtocolInvariant
  import opened ProtocolPreservation
  import opened ProtocolTheorems
  import opened Departures

  /** How many acts a player can do before the server's next barrier: it never passes place 10. */
  function LeftFor(x: Slot, round: int): int {
    if x.conn.open && x.conn.client.status == Playing then 11 - Place(x.conn.client, round - x.base) else 0
  }

  function ActsLeft(slots: seq<Slot>, round: int): int {
    if slots == [] then 0 else ActsLeft(slots[..|slots| - 1], round) + LeftFor(slots[|slots| - 1], round)
  }

  /** A bound on the steps of everybody until the next barrier or the end. */
  function StepsLeft(s: System): int {
    RoundMeasure(s) + ActsLeft(s.slots, s.round)
  }

  // ---------------------------------------------------------------- sums over slots

  lemma {:induction false} ActsLeftMonotone(a: seq<Slot>, b: seq<Slot>, round: int)
    requires |a| == |b| && forall j :: 0 <= j < |a| ==> LeftFor(b[j], round) <= LeftFor(a[j], round)
    ensures ActsLeft(b, round) <= ActsLeft(a, round)
  {
    if a != [] { ActsLeftMonotone(a[..|a| - 1], b[..|b| - 1], round); }
  }

  lemma {:induction false} ActsLeftLess(a: seq<Slot>, b: seq<Slot>, round: int, i: nat)
    requires i < |a| == |b| && LeftFor(b[i], round) < LeftFor(a[i], round)
    requires forall j :: 0 <= j < |a| && j != i ==> b[j] == a[j]
    ensures ActsLeft(b, round) < ActsLeft(a, round)
  {
    if i == |a| - 1 {
      assert a[..i] == b[..i];
    } else {
      ActsLeftLess(a[..|a| - 1], b[..|b| - 1], round, i);
    }
  }

  lemma {:induction false} ActsLeftBound(slots: seq<Slot>, round: int)
    requires forall j :: 0 <= j < |slots| ==> 0 <= LeftFor(slots[j], round) <= 11
    ensures 0 <= ActsLeft(slots, round) <= 11 * |slots|
  {
    if slots != [] { ActsLeftBound(slots[..|slots| - 1], round); }
  }

  // ---------------------------------------------------------------- one step

  /** A player in the game has at least one act left, and at most eleven. */
  lemma LeftForBounds(N: nat, s: System, j: nat)
    requires Inv(N, s) && j < |s.slots|
    ensures 0 <= LeftFor(s.slots[j], s.round) <= 11
    ensures s.slots[j].conn.open && s.slots[j].conn.client.status == Playing ==> LeftFor(s.slots[j], s.round) > 0
  {
    assert SlotOk(s, j, s.slots[j]);
  }

  /** An act takes its player one place further, or out of the game. */
  lemma ActIsOneLess(x: Slot, round: int, a: ClientAct)
    requires CanAct(x.conn, a) && LeftFor(x, round) > 0
    ensures LeftFor(x.(conn := Act(x.conn, a)), round) < LeftFor(x, round)
  {
  }

  lemma PlayerStepIsOneLess(N: nat, s: System, j: nat, act: ClientAct)
    requires Inv(N, s) && Enabled(N, s, ClientStep(j, act))
    ensures StepsLeft(Next(N, s, ClientStep(j, act))) < StepsLeft(s)
  {
    hide Inv, Act, LeftFor, RoundMeasure, CanAct;
    var t := Next(N, s, ClientStep(j, act));
    InTheGame(s.slots[j].conn, act);
    LeftForBounds(N, s, j);
    ActIsOneLess(s.slots[j], s.round, act);
    ActsLeftLess(s.slots, t.slots, s.round, j);
    MeasureOfPhase(s, t);
  }

  lemma InTheGame(c: Conn, act: ClientAct)
    requires CanAct(c, act)
    ensures c.open && c.client.status == Playing
  {
  }

  /** The server's own steps leave the players where they are; a connection it closes has no acts left. */
  lemma ServerStepIsOneLess(N: nat, s: System, a: Action)
    requires Inv(N, s) && Enabled(N, s, a) && InRound(s.phase) && (a.Server? || a.DrawRound?)
    requires InRound(Next(N, s, a).phase)
    ensures StepsLeft(Next(N, s, a)) < StepsLeft(s)
  {
    hide Inv, Advanced, RoundMeasure, Place;
    var t := Next(N, s, a);
    RoundStepDecreases(N, s, a);
    if a.Server? { AdvancedInRound(N, s); }
    forall j | 0 <= j < |s.slots| ensures LeftFor(t.slots[j], s.round) <= LeftFor(s.slots[j], s.round) {
      LeftForBounds(N, s, j);
    }
    ActsLeftMonotone(s.slots, t.slots, s.round);
  }

  lemma AdvancedInRound(N: nat, s: System)
    requires Inv(N, s) && CanAdvance(s) && InRound(s.phase) && InRound(Advanced(s).phase)
    ensures var t := Advanced(s);
            t.round == s.round
            && forall j :: 0 <= j < |s.slots| ==> OnlyCloses(s.slots[j], t.slots[j])
  {
    hide Inv;
    ServerLeavesClients(N, s);
    ServerKeepsSlots(s);
    ServerOnlyCloses(s);
  }

  /** The player and the slot's identity are the same, and nothing is opened. */
  predicate OnlyCloses(x: Slot, y: Slot) {
    y.conn.client == x.conn.client && y.base == x.base && (y.conn.open ==> x.conn.open)
  }

  lemma ServerOnlyCloses(s: System)
    requires CanAdvance(s)
    ensures forall j :: 0 <= j < |s.slots| ==> Advanced(s).slots[j].conn.open ==> s.slots[j].conn.open
    ensures InRound(s.phase) && InRound(Advanced(s).phase) ==> Advanced(s).round == s.round
  {
    hide Popped, Sent, CloseFd, Receive, Best, Worst;
    forall fd ensures NothingOpened(s.slots, Popped(s.slots, fd)) && NothingOpened(s.slots, CloseFd(s.slots, fd)) {
      IoOpensNothing(s.slots, fd);
    }
    forall fd, m ensures NothingOpened(s.slots, Sent(s.slots, fd, m)) {
      SendOpensNothing(s.slots, fd, m);
    }
  }

  predicate NothingOpened(a: seq<Slot>, b: seq<Slot>) {
    |a| == |b| && forall j :: 0 <= j < |a| ==> b[j].conn.open ==> a[j].conn.open
  }

  lemma IoOpensNothing(slots: seq<Slot>, fd: int)
    ensures NothingOpened(slots, Popped(slots, fd)) && NothingOpened(slots, CloseFd(slots, fd))
  {
  }

  lemma SendOpensNothing(slots: seq<Slot>, fd: int, m: Message)
    ensures NothingOpened(slots, Sent(slots, fd, m))
  {
  }

  /** Whoever moves inside a round, one step less is left. */
  lemma EveryStepIsOneLess(N: nat, s: System, a: Action)
    requires Inv(N, s) && Enabled(N, s, a) && InRound(s.phase) && InRound(Next(N, s, a).phase)
    ensures StepsLeft(Next(N, s, a)) < StepsLeft(s) && |Next(N, s, a).slots| == |s.slots|
  {
    hide Inv, Advanced, Act, CanAct, StepsLeft;
    if a.ClientStep? {
      PlayerStepIsOneLess(N, s, a.j, a.act);
    } else {
      ServerStepIsOneLess(N, s, a);
    }
  }

  // ---------------------------------------------------------------- a whole stretch

  lemma StepsLeftBounds(N: nat, s: System)
    requires Inv(N, s) && InRound(s.phase)
    ensures 0 <= StepsLeft(s) <= 32 * |s.slots| + 24
  {
    forall j | 0 <= j < |s.slots| ensures 0 <= LeftFor(s.slots[j], s.round) <= 11 {
      LeftForBounds(N, s, j);
    }
    ActsLeftBound(s.slots, s.round);
    RoundMeasureBounds(N, s);
  }

  lemma RoundMeasureBounds(N: nat, s: System)
    requires Inv(N, s) && InRound(s.phase)
    ensures 0 <= RoundMeasure(s) <= 21 * |s.slots| + 24
  {
    hide SlotOk, SomeActive, AllReady, Best, Worst, TableOk;
  }

  lemma {:induction false} StretchIsBounded(N: nat, run: seq<System>, first: nat, last: nat)
    requires IsRun(N, run) && first <= last < |run|
    requires forall i :: first <= i <= last ==> InRound(run[i].phase)
    ensures last - first + StepsLeft(run[last]) <= StepsLeft(run[first])
    ensures |run[last].slots| == |run[first].slots|
    decreases last
  {
    hide IsRun, Inv, Enabled, Next, StepsLeft;
    if first < last {
      StretchIsBounded(N, run, first, last - 1);
      var a := StepOf(N, run, last - 1);
      EveryStepIsOneLess(N, run[last - 1], a);
    }
  }

  /**
    Main result: a stretch of a run inside a round, with any interleaving and any crashes, has at most 32 steps
    for each slot and 24 more. So no player and no order of events can keep a round going.
  */
  lemma RoundsAreFinite(N: nat, run: seq<System>, first: nat, last: nat)
    requires IsRun(N, run) && first <= last < |run|
    requires forall i :: first <= i <= last ==> InRound(run[i].phase)
    ensures last - first <= StepsLeft(run[first]) <= 32 * |run[first].slots| + 24 <= 32 * N + 24
  {
    hide IsRun, StepsLeft;
    StretchIsBounded(N, run, first, last);
    RunsKeepInvariant(N, run, first);
    RunsKeepInvariant(N, run, last);
    StepsLeftBounds(N, run[first]);
    StepsLeftBounds(N, run[last]);
  }
}
