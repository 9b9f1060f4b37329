/**
  The two extremes the server sends back (serveur.c, `recevoir_temps` and `envoyer_resultats`), what they mean
  for the server's table, and what they mean for the players at the far ends.
*/
module Scores {
  import opened Protocol
  import opened ProtocolInvariant
  import opened ProtocolPreservation

  /** An entry that can be the best: active, correct, and under ten seconds. */
  predicate Eligible(x: Slot) {
    x.active && x.correct && x.time < 100
  }

  ghost predicate IsBest(slots: seq<Slot>, b: int) {
    && b <= 100
    && (b < 100 ==> exists x :: x in slots && Eligible(x) && x.time == b)
    && (forall x :: x in slots && Eligible(x) ==> b <= x.time)
  }

  ghost predicate IsWorst(slots: seq<Slot>, w: int) {
    && w >= 0
    && (w > 0 ==> exists x :: x in slots && x.active && x.time == w)
    && (forall x :: x in slots && x.active ==> x.time <= w)
  }

  lemma {:induction false} BestIsBest(slots: seq<Slot>)
    ensures IsBest(slots, Best(slots))
  {
    if slots != [] {
      var k := |slots| - 1;
      BestIsBest(slots[..k]);
      assert slots == slots[..k] + [slots[k]];
      var b := Best(slots);
      if b < 100 && b == Best(slots[..k]) {
        var x :| x in slots[..k] && Eligible(x) && x.time == b;
        assert x in slots;
      }
    }
  }

  lemma {:induction false} WorstIsWorst(slots: seq<Slot>)
    ensures IsWorst(slots, Worst(slots))
  {
    if slots != [] {
      var k := |slots| - 1;
      WorstIsWorst(slots[..k]);
      assert slots == slots[..k] + [slots[k]];
      var w := Worst(slots);
      if w > 0 && w == Worst(slots[..k]) {
        var x :| x in slots[..k] && x.active && x.time == w;
        assert x in slots;
      }
    }
  }

  lemma ExtremesAreUnique(slots: seq<Slot>, b: int, c: int, v: int, w: int)
    requires IsBest(slots, b) && IsBest(slots, c) && IsWorst(slots, v) && IsWorst(slots, w)
    ensures b == c && v == w
  {
  }

  /** The extremes do not depend on the order in which players were given slots. */
  lemma ExtremesIgnoreSlotOrder(a: seq<Slot>, b: seq<Slot>)
    requires multiset(a) == multiset(b)
    ensures Best(a) == Best(b) && Worst(a) == Worst(b)
  {
    BestIsBest(a);
    BestIsBest(b);
    WorstIsWorst(a);
    WorstIsWorst(b);
    assert forall x :: x in a <==> x in multiset(a);
    assert forall x :: x in b <==> x in multiset(b);
    assert IsBest(b, Best(a)) && IsWorst(b, Worst(a));
    ExtremesAreUnique(b, Best(a), Best(b), Worst(a), Worst(b));
  }

  /** meilleur_temps <= pire_temps exactly when somebody is correct in time, or somebody took ten seconds. */
  lemma WhenBestIsBelowWorst(slots: seq<Slot>)
    ensures Best(slots) <= Worst(slots) <==> exists x :: x in slots && (Eligible(x) || (x.active && x.time >= 100))
  {
    BestIsBest(slots);
    WorstIsWorst(slots);
    if x :| x in slots && (Eligible(x) || (x.active && x.time >= 100)) {
      assert x.time <= Worst(slots);
    }
  }

  /** Somebody plays, and nobody is correct under ten seconds. */
  predicate NobodyInTime(slots: seq<Slot>) {
    SomeActive(slots) && forall x :: x in slots ==> !Eligible(x)
  }

  /**
    The best time is 100 exactly when nobody is correct under ten seconds; "no correct answer" is printed
    exactly when, besides, somebody is still active.
  */
  lemma WhenBestIsHundred(slots: seq<Slot>)
    ensures Best(slots) == 100 <==> forall x :: x in slots ==> !Eligible(x)
    ensures Best(slots) == 100 && SomeActive(slots) <==> NobodyInTime(slots)
  {
    BestIsBest(slots);
  }

  const SOMEBODY := Client(Playing, 0, 6, 0, [], 1, true, 100, 0, 0)

  /** A correct press at ten seconds gives 100 as well, so 100 does not mean that nobody was correct. */
  lemma HundredWithACorrectAnswer()
    ensures exists x: Slot :: x.active && x.correct && Best([x]) == 100
  {
    var x := Slot(4, true, true, 100, true, 0, Conn(4, true, 0, SOMEBODY, [], []));
    assert [x][..0] == [];
    assert x.active && x.correct && Best([x]) == 100;
  }

  const QUICK_AND_WRONG := Client(Playing, 0, 6, 0, [], 1, false, 20, 0, 0)

  /** With one quick wrong answer the best time is sent as 10.0 s and the worst as less. */
  lemma BestAboveWorst()
    ensures exists x: Slot :: x.active && Best([x]) > Worst([x])
  {
    var x := Slot(4, true, true, 20, false, 0, Conn(4, true, 0, QUICK_AND_WRONG, [], []));
    assert [x][..0] == [];
    assert x.active && Best([x]) > Worst([x]);
  }

  /** The branch of client.c that shows a time and waits for the result: correct, and not over 9.9 s. */
  predicate TookSuccessBranch(k: Client) {
    k.time <= 99 && k.correct
  }

  /**
    End to end: when results go out, every inactive slot carries (100, false), every active one what its
    player measured; the best is under 100 exactly when an active player took its success branch, and then it
    is the least of their times; the worst is the greatest time of the active players, or 0.
  */
  lemma ResultsAreRight(N: nat, run: seq<System>, i: nat)
    requires IsRun(N, run) && i < |run| && run[i].phase.Results?
    ensures var s := run[i];
            && (forall x :: x in s.slots && !x.active ==> x.time == 100 && !x.correct)
            && (forall x :: x in s.slots && x.active ==>
                              x.time == x.conn.client.time && x.correct == x.conn.client.correct)
            && (s.table.best < 100 <==> exists x :: x in s.slots && x.active && TookSuccessBranch(x.conn.client))
            && (s.table.best < 100 ==>
                  exists x :: x in s.slots && x.active && TookSuccessBranch(x.conn.client)
                              && x.conn.client.time == s.table.best)
            && (forall x :: x in s.slots && x.active && TookSuccessBranch(x.conn.client) ==>
                              s.table.best <= x.conn.client.time)
            && (forall x :: x in s.slots && x.active ==> x.conn.client.time <= s.table.worst)
            && (s.table.worst == 0
                || exists x :: x in s.slots && x.active && x.conn.client.time == s.table.worst)
  {
    RunsKeepInvariant(N, run, i);
    var s := run[i];
    forall x | x in s.slots ensures Recorded(x) {
      var j :| 0 <= j < |s.slots| && s.slots[j] == x;
      assert SlotOk(s, j, x);
    }
    BestIsBest(s.slots);
    WorstIsWorst(s.slots);
    forall x | x in s.slots && x.active ensures Eligible(x) <==> TookSuccessBranch(x.conn.client) {
    }
  }

  /** What a player is shown as best and worst at the end of its round is what the server computed. */
  lemma PlayersSeeTheResults(N: nat, run: seq<System>, i: nat, j: nat)
    requires IsRun(N, run) && i < |run| && j < |run[i].slots|
    requires run[i].slots[j].active && run[i].slots[j].conn.open
    requires 8 <= Place(run[i].slots[j].conn.client, run[i].round - run[i].slots[j].base)
    ensures run[i].slots[j].conn.client.best == run[i].table.best
    ensures run[i].slots[j].conn.client.worst == run[i].table.worst
    ensures run[i].phase.Results? || run[i].phase.Choices?
  {
    RunsKeepInvariant(N, run, i);
    assert SlotOk(run[i], j, run[i].slots[j]);
  }
}
