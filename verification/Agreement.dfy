/**
  All players of a round see the same board: the table of the server does not change between two draws, and
  whoever has been dealt holds what it says. Players are compared across time, so one who read its board,
  vanished and was dropped agrees with one who reads its board only afterwards.
*/
module Agreement {
  import opened Shuffle
  import opened Board
  import opened Protocol
  import opened ProtocolInvariant
  import opened ProtocolPreservation

  /** Player k holds the board of round m. */
  predicate Dealt(k: Client, m: int) {
    Place(k, m) >= 4
  }

  /** What player k was dealt is what table t says. */
  predicate HoldsBoard(k: Client, t: Table) {
    k.shape == t.shape && k.order == t.order && k.position == PositionOf(t.shape, t.order)
  }

  /** From the draw to the end of the round. */
  predicate AfterDraw(p: Phase) {
    p.Deal? || p.Gather? || p.Results? || p.Choices?
  }

  /** Whoever has been dealt the present round, and is still in it, holds the server's own board. */
  lemma DealtHoldsTheBoard(N: nat, run: seq<System>, i: nat, j: nat)
    requires IsRun(N, run) && i < |run| && j < |run[i].slots|
    requires run[i].slots[j].active && run[i].slots[j].conn.open
    requires Dealt(run[i].slots[j].conn.client, run[i].round - run[i].slots[j].base)
    ensures AfterDraw(run[i].phase) && HoldsBoard(run[i].slots[j].conn.client, run[i].table)
    ensures var k := run[i].slots[j].conn.client;
            && 0 <= k.shape < 16 && IsPermutation(k.order, 16)
            && 1 <= k.position <= 16 && k.order[k.position - 1] == k.shape
  {
    hide IsRun;
    RunsKeepInvariant(N, run, i);
    var s := run[i];
    assert SlotOk(s, j, s.slots[j]);
    assert TableOk(s.table);
    PositionOnPermutation(s.table.shape, s.table.order);
  }

  /** Only the draw changes the board; the end of the choices alone begins a new round. */
  lemma StepKeepsTable(N: nat, s: System, a: Action)
    requires Enabled(N, s, a)
    ensures var t := Next(N, s, a);
            && (s.phase != Draw ==> t.table.shape == s.table.shape && t.table.order == s.table.order)
            && s.round <= t.round <= s.round + 1
            && (t.round == s.round && AfterDraw(s.phase) ==> AfterDraw(t.phase) || t.phase == Final(0))
            && (s.phase.Final? || s.phase.Stopped? ==> t.round == s.round && (t.phase.Final? || t.phase.Stopped?))
  {
    hide Tenant, Best, Worst, Popped, Sent, CloseFd, Receive, Act, Mix, ReadableFds;
  }

  /** No draw, no change: between two draws every state has the same board. */
  lemma {:induction false} BoardStandsBetweenDraws(N: nat, run: seq<System>, first: nat, last: nat)
    requires IsRun(N, run) && first <= last < |run|
    requires forall i :: first <= i < last ==> run[i].phase != Draw
    ensures run[last].table.shape == run[first].table.shape && run[last].table.order == run[first].table.order
    decreases last
  {
    hide IsRun, Inv, Enabled, Next;
    if first < last {
      BoardStandsBetweenDraws(N, run, first, last - 1);
      var a := StepOf(N, run, last - 1);
      StepKeepsTable(N, run[last - 1], a);
    }
  }

  /** After its draw a round sees no second one, and rounds are never taken back. */
  lemma {:induction false} OneDrawARound(N: nat, run: seq<System>, first: nat, last: nat)
    requires IsRun(N, run) && first <= last < |run|
    ensures run[first].round <= run[last].round
    ensures run[first].round == run[last].round && AfterDraw(run[first].phase) ==>
              || AfterDraw(run[last].phase) || run[last].phase.Final? || run[last].phase.Stopped?
    decreases last
  {
    hide IsRun, Inv, Enabled, Next;
    if first < last {
      OneDrawARound(N, run, first, last - 1);
      var a := StepOf(N, run, last - 1);
      StepKeepsTable(N, run[last - 1], a);
    }
  }

  /**
    Agreement over a round: player j at one moment and player k at the same or a later moment of the same
    round, each dealt and in the game at its own moment, hold the same shape, the same permutation and the
    same position in 1..16.
  */
  lemma PlayersAgree(N: nat, run: seq<System>, i: nat, j: nat, l: nat, k: nat)
    requires IsRun(N, run) && i <= l < |run| && j < |run[i].slots| && k < |run[l].slots|
    requires run[i].round == run[l].round
    requires run[i].slots[j].active && run[i].slots[j].conn.open
    requires run[l].slots[k].active && run[l].slots[k].conn.open
    requires Dealt(run[i].slots[j].conn.client, run[i].round - run[i].slots[j].base)
    requires Dealt(run[l].slots[k].conn.client, run[l].round - run[l].slots[k].base)
    ensures var a, b := run[i].slots[j].conn.client, run[l].slots[k].conn.client;
            && a.shape == b.shape && a.order == b.order && a.position == b.position
            && 0 <= a.shape < 16 && IsPermutation(a.order, 16)
            && 1 <= a.position <= 16 && a.order[a.position - 1] == a.shape
  {
    hide IsRun, IsPermutation, PositionOf;
    DealtHoldsTheBoard(N, run, i, j);
    DealtHoldsTheBoard(N, run, l, k);
    forall n | i <= n < l ensures run[n].phase != Draw {
      OneDrawARound(N, run, i, n);
      OneDrawARound(N, run, n, l);
    }
    BoardStandsBetweenDraws(N, run, i, l);
  }
}
