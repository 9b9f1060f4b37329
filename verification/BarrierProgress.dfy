/**
  The barrier can always be passed: from wherever an interleaving has led, the players present and the server
  can reach the start of a round, or the end if nobody is left, without another arrival and without a crash.
*/
module BarrierProgress {
  import opened Protocol
  import opened ProtocolInvariant
  import opened ProtocolPreservation
  import opened ProtocolTheorems

  /** The server goes on, select() works, nobody arrives, and no player crashes. */
  predicate Undisturbed(a: Action) {
    Cooperative(a) || a.SelectReturns? || a.AdmitNone?
  }

  predicate AllUndisturbed(acts: seq<Action>) {
    forall a :: a in acts ==> Undisturbed(a)
  }

  /** The barrier is over: the round starts, or the server ends. */
  predicate BarrierOver(p: Phase) {
    p == Start(0) || p == Final(0)
  }

  /** Undisturbed acts that lead from s past the barrier. */
  predicate PassBarrier(N: nat, s: System, acts: seq<Action>) {
    AllUndisturbed(acts) && BarrierOver(AfterActions(N, s, acts).phase)
  }

  /** A slot whose ready byte this turn of the reading loop will still take, or whose end it will notice. */
  predicate WillBeRead(s: System, j: nat) {
    && s.phase.Read? && s.phase.i <= j < |s.slots|
    && s.slots[j].active && !s.slots[j].ready && s.slots[j].fd in s.phase.readable
  }

  /** A slot that is not ready and that select() reports. */
  predicate Reported(s: System, j: nat) {
    j < |s.slots| && s.slots[j].active && !s.slots[j].ready && s.slots[j].fd in ReadableFds(s.slots)
  }

  /** How far the reading loop is from its end. */
  function TurnLeft(s: System): int {
    if s.phase.Read? then 2 * (|s.slots| - s.phase.i) + (if s.closing then 0 else 1) else 0
  }

  /** One more act in front. */
  lemma ActsFrom(N: nat, s: System, a: Action, rest: seq<Action>)
    requires Enabled(N, s, a)
    ensures AfterActions(N, s, [a] + rest) == AfterActions(N, Next(N, s, a), rest)
  {
    assert ([a] + rest)[1..] == rest;
  }

  /** One step of the reading loop: nearer its end, and nobody who is yet to be read is passed over. */
  lemma ReadStep(N: nat, s: System)
    requires Inv(N, s) && s.phase.Read?
    ensures CanAdvance(s)
    ensures var t := Advanced(s);
            && Inv(N, t) && Missing(t.slots) <= Missing(s.slots)
            && (if s.phase.i < |s.slots| then t.phase.Read? && 0 <= TurnLeft(t) < TurnLeft(s)
                else t.slots == s.slots && (BarrierOver(t.phase) || (t.phase.Select? && !AllReady(t.slots))))
            && forall j :: WillBeRead(s, j) ==> WillBeRead(t, j) || Missing(t.slots) < Missing(s.slots)
  {
    hide Aligned, Informed, Tenant, Receive;
    if WaitsFor(s) >= 0 { ReceiveReadsSlot(N, s, WaitsFor(s)); }
    ServerKeeps(N, s);
    if s.phase.i < |s.slots| {
      BarrierReadDecreases(N, s);
      ReadStepMoves(s);
      if SameTable(s.slots, Advanced(s).slots) { MissingOfSameTable(s.slots, Advanced(s).slots); }
      forall j | WillBeRead(s, j) && SameTable(s.slots, Advanced(s).slots) ensures WillBeRead(Advanced(s), j) {
        ReadStepTakes(N, s, j);
      }
    }
  }

  lemma ReadStepMoves(s: System)
    requires s.phase.Read? && CanAdvance(s) && s.phase.i < |s.slots|
    ensures StepRead(s).phase.Read? && 0 <= TurnLeft(StepRead(s)) < TurnLeft(s)
  {
    hide Tenant, Receive;
  }

  /** A slot that will be read is not passed over. */
  lemma ReadStepTakes(N: nat, s: System, j: nat)
    requires Inv(N, s) && CanAdvance(s) && s.phase.Read? && s.phase.i < |s.slots|
    requires WillBeRead(s, j) && SameTable(s.slots, StepRead(s).slots)
    ensures WillBeRead(StepRead(s), j)
  {
    hide Aligned, Informed;
    var i := s.phase.i;
    assert SlotOk(s, i, s.slots[i]);
    if s.closing {
      CloseEndsSlot(N, s, i);
    } else if WaitsFor(s) == i {
      ReceiveReadsSlot(N, s, i);
      ReadByteIsReady(N, s);
    }
  }

  /** The byte read in the barrier is the ready byte: the slot becomes ready or inactive. */
  lemma ReadByteIsReady(N: nat, s: System)
    requires Inv(N, s) && s.phase.Read? && CanAdvance(s) && WaitsFor(s) >= 0
    ensures !SameTable(s.slots, StepRead(s).slots)
  {
    hide Aligned, Informed;
    var i := WaitsFor(s);
    assert SlotOk(s, i, s.slots[i]);
    ReceiveReadsSlot(N, s, i);
    if s.slots[i].conn.up != [] { ReceiveAdvancesSlot(N, s, i, 0); }
    assert StepRead(s).slots[i].active ==> StepRead(s).slots[i].ready;
  }

  /**
    The rest of a turn: it ends past the barrier, or at select() with somebody not ready, and with fewer of
    them than before if a slot was to be read.
  */
  lemma {:induction false} FinishTurn(N: nat, s: System) returns (acts: seq<Action>)
    requires Inv(N, s) && s.phase.Read?
    ensures AllUndisturbed(acts)
    ensures var t := AfterActions(N, s, acts);
            && Inv(N, t) && Missing(t.slots) <= Missing(s.slots)
            && (BarrierOver(t.phase) || (t.phase.Select? && !AllReady(t.slots)))
            && ((exists j :: WillBeRead(s, j)) ==> Missing(t.slots) < Missing(s.slots))
    decreases TurnLeft(s)
  {
    hide Inv, Advanced, CanAdvance, AllReady;
    ReadStep(N, s);
    var t := Advanced(s);
    var rest := [];
    if t.phase.Read? {
      rest := FinishTurn(N, t);
    }
    acts := [Action.Server] + rest;
    ActsFrom(N, s, Action.Server, rest);
  }

  /** Somebody who is not ready can be made to be reported: the ready byte is there, or one act sends it. */
  lemma Rouse(N: nat, s: System, j: nat) returns (acts: seq<Action>)
    requires Inv(N, s) && s.phase.Select? && j < |s.slots| && s.slots[j].active && !s.slots[j].ready
    ensures AllUndisturbed(acts)
    ensures var t := AfterActions(N, s, acts);
            && Inv(N, t) && t.phase.Select? && |t.slots| == |s.slots| && Missing(t.slots) == Missing(s.slots)
            && Reported(t, j)
  {
    hide Inv, Act, CanAct, ReadableFds;
    acts := [];
    if ReceiveOn(s.slots[j].conn).Blocked? {
      var a := ClientStep(j, SendNext);
      CanSendReady(N, s, j);
      NextKeeps(N, s, a);
      var t := Next(N, s, a);
      MissingOfSameTable(s.slots, t.slots);
      ReportedIfNotBlocked(N, t, j);
      acts := [a];
      ActsFrom(N, s, a, []);
      assert acts == [a] + [];
    } else {
      ReportedIfNotBlocked(N, s, j);
    }
  }

  lemma CanSendReady(N: nat, s: System, j: nat)
    requires Inv(N, s) && s.phase.Select? && j < |s.slots| && s.slots[j].active && !s.slots[j].ready
    requires ReceiveOn(s.slots[j].conn).Blocked?
    ensures CanAct(s.slots[j].conn, SendNext) && !ReceiveOn(Act(s.slots[j].conn, SendNext)).Blocked?
  {
    assert SlotOk(s, j, s.slots[j]);
  }

  lemma ReportedIfNotBlocked(N: nat, s: System, j: nat)
    requires Inv(N, s) && s.phase.Select? && j < |s.slots| && s.slots[j].active
    requires !ReceiveOn(s.slots[j].conn).Blocked?
    ensures s.slots[j].fd in ReadableFds(s.slots)
  {
    hide Aligned, Informed;
    ReceiveReadsSlot(N, s, j);
  }

  /** A whole turn from select(), in which every slot that is reported and not ready is read. */
  lemma WholeTurn(N: nat, s: System) returns (acts: seq<Action>)
    requires Inv(N, s) && s.phase.Select?
    ensures AllUndisturbed(acts)
    ensures var t := AfterActions(N, s, acts);
            && Inv(N, t) && Missing(t.slots) <= Missing(s.slots)
            && (BarrierOver(t.phase) || (t.phase.Select? && !AllReady(t.slots)))
            && ((exists j :: Reported(s, j)) ==> Missing(t.slots) < Missing(s.slots))
  {
    hide Inv, ReadableFds, AllReady;
    var r := Next(N, s, SelectReturns);
    NextKeeps(N, s, SelectReturns);
    var m := Next(N, r, AdmitNone);
    NextKeeps(N, r, AdmitNone);
    forall j | Reported(s, j) ensures WillBeRead(m, j) {
    }
    var rest := FinishTurn(N, m);
    acts := [SelectReturns] + ([AdmitNone] + rest);
    ActsFrom(N, s, SelectReturns, [AdmitNone] + rest);
    ActsFrom(N, r, AdmitNone, rest);
  }

  lemma {:induction false} SomebodyMissing(slots: seq<Slot>) returns (j: nat)
    requires Missing(slots) > 0
    ensures j < |slots| && slots[j].active && !slots[j].ready
  {
    j := |slots| - 1;
    if !(slots[j].active && !slots[j].ready) {
      j := SomebodyMissing(slots[..j]);
    }
  }

  lemma {:induction false} NobodyMissing(slots: seq<Slot>)
    requires Missing(slots) == 0
    ensures AllReady(slots)
  {
    if slots != [] {
      var n := |slots| - 1;
      NobodyMissing(slots[..n]);
      assert forall j :: 0 <= j < n ==> slots[j] == slots[..n][j];
    }
  }

  /** From select(): each turn leaves fewer who are not ready. */
  lemma {:induction false} PassFromSelect(N: nat, s: System) returns (acts: seq<Action>)
    requires Inv(N, s) && s.phase.Select?
    ensures PassBarrier(N, s, acts)
    decreases Missing(s.slots)
  {
    hide Inv, Missing, ReadableFds, AllReady;
    var wake := [];
    var m := s;
    if Missing(s.slots) > 0 {
      var j := SomebodyMissing(s.slots);
      wake := Rouse(N, s, j);
      m := AfterActions(N, s, wake);
    }
    var turn := WholeTurn(N, m);
    var t := AfterActions(N, m, turn);
    var rest := [];
    if !BarrierOver(t.phase) {
      if Missing(t.slots) == 0 { NobodyMissing(t.slots); }
      rest := PassFromSelect(N, t);
    }
    acts := wake + (turn + rest);
    ActionsAppend(N, s, wake, turn + rest);
    ActionsAppend(N, m, turn, rest);
  }

  /** From any turn of the barrier. */
  lemma PassFromTurn(N: nat, s: System) returns (acts: seq<Action>)
    requires Inv(N, s) && InBarrier(s.phase)
    ensures PassBarrier(N, s, acts)
  {
    hide Inv, AllReady;
    if s.phase.Select? {
      acts := PassFromSelect(N, s);
      return;
    }
    var first := if s.phase.Admit? then [AdmitNone] else [];
    var m := AfterActions(N, s, first);
    if s.phase.Admit? {
      NextKeeps(N, s, AdmitNone);
      ActsFrom(N, s, AdmitNone, []);
      assert first == [AdmitNone] + [];
    }
    var turn := FinishTurn(N, m);
    var t := AfterActions(N, m, turn);
    var rest := [];
    if !BarrierOver(t.phase) {
      rest := PassFromSelect(N, t);
    }
    acts := first + (turn + rest);
    ActionsAppend(N, s, first, turn + rest);
    ActionsAppend(N, m, turn, rest);
  }

  /**
    Main result: from every reachable state of the barrier, undisturbed acts of the players present and of
    the server lead to the start of a round or, if nobody is left, to the end.
  */
  lemma BarrierCanBePassed(N: nat, run: seq<System>, i: nat)
    requires IsRun(N, run) && i < |run| && InBarrier(run[i].phase)
    ensures exists acts :: PassBarrier(N, run[i], acts)
  {
    RunsKeepInvariant(N, run, i);
    var acts := PassFromTurn(N, run[i]);
  }
}
