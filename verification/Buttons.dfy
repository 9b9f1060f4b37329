/**
  The 4x4 button matrix (lib/my_matrice_btn.c). A pressed button joins its row to its column; columns are
  pulled up, so a column reads low exactly when a button on it is pressed in a row that is driven low.
*/
module Buttons {

  /** The buttons held down: (row line, column line), both from 0. */
  type Held = set<(int, int)>

  predicate IsKey(k: (int, int)) {
    0 <= k.0 < 4 && 0 <= k.1 < 4
  }

  /** Scan order: row by row, and column line by column line. */
  predicate Before(a: (int, int), b: (int, int)) {
    a.0 < b.0 || (a.0 == b.0 && a.1 < b.1)
  }

  /** The number of a button. Column lines run from right to left, numbers from left to right. */
  function NumberOf(k: (int, int)): int {
    k.0 * 4 + 4 - k.1
  }

  /** What a scan reports: the first held button in scan order, or 0. */
  ghost predicate IsReading(held: Held, button: int) {
    if button == 0 then forall k :: k in held ==> !IsKey(k)
    else exists k :: k in held && IsKey(k) && button == NumberOf(k)
                     && forall o :: o in held && IsKey(o) && o != k ==> Before(k, o)
  }

  /** The row and column of a button on the board, or (-1, -1). */
  function BoardPosition(button: int): (p: (int, int))
    ensures button <= 0 || button > 16 <==> p == (-1, -1)
    ensures 1 <= button <= 16 ==> 0 <= p.0 < 4 && 0 <= p.1 < 4 && button == 4 * p.0 + p.1 + 1
  {
    if button <= 0 || button > 16 then (-1, -1) else ((button - 1) / 4, (button - 1) % 4)
  }

  /** A reading is determined by what is held. */
  lemma ReadingIsUnique(held: Held, a: int, b: int)
    requires IsReading(held, a) && IsReading(held, b)
    ensures a == b
  {
  }

  /** A button alone reads as its own number, and its board position is its row and its mirrored column. */
  lemma SinglePress(k: (int, int))
    requires IsKey(k)
    ensures IsReading({k}, NumberOf(k))
    ensures 1 <= NumberOf(k) <= 16 && BoardPosition(NumberOf(k)) == (k.0, 3 - k.1)
  {
  }

  /** Of several buttons the upmost row is read, and in that row the button with the highest number. */
  lemma ReadingPrefers(held: Held, button: int, k: (int, int))
    requires IsReading(held, button) && k in held && IsKey(k)
    ensures 1 <= button <= 16
    ensures BoardPosition(button).0 < BoardPosition(NumberOf(k)).0
            || (BoardPosition(button).0 == BoardPosition(NumberOf(k)).0 && NumberOf(k) <= button)
  {
    var r :| r in held && IsKey(r) && button == NumberOf(r)
             && forall o :: o in held && IsKey(o) && o != r ==> Before(r, o);
    SinglePress(r);
    SinglePress(k);
  }

  /** Numbers and board positions correspond one to one. */
  lemma PositionRoundTrip(row: int, col: int)
    requires 0 <= row < 4 && 0 <= col < 4
    ensures BoardPosition(4 * row + col + 1) == (row, col)
    ensures NumberOf((row, 3 - col)) == 4 * row + col + 1
  {
  }

  /** The first button that is down in the first row with one is the reading. */
  lemma FirstInRow(held: Held, row: int, column: int)
    requires IsKey((row, column)) && (row, column) in held
    requires forall k :: k in held && IsKey(k) ==> k.0 >= row
    requires forall c :: 0 <= c < column ==> (row, c) !in held
    ensures IsReading(held, NumberOf((row, column))) && 1 <= NumberOf((row, column)) <= 16
  {
    forall o | o in held && IsKey(o) && o != (row, column) ensures Before((row, column), o) {
      assert o == (o.0, o.1);
    }
  }

  class Keypad {
    /** Levels of the four row lines; true is high. */
    const rows: array<bool>

    constructor ()
      ensures rows.Length == 4 && fresh(rows)
    {
      rows := new bool[4](i => false);
    }

    /** digitalRead on a column line, with `held` down: true is high. */
    function ReadColumn(held: Held, column: int): bool
      reads rows
      requires rows.Length == 4
    {
      !exists r :: 0 <= r < 4 && !rows[r] && (r, column) in held
    }

    /** With one row low, a column reads low exactly when its button in that row is down. */
    lemma OneRowLow(held: Held, ligne: int)
      requires rows.Length == 4 && 0 <= ligne < 4
      requires forall r :: 0 <= r < 4 ==> (rows[r] <==> r != ligne)
      ensures forall c :: ReadColumn(held, c) <==> (ligne, c) !in held
    {
    }

    method SetAllRows()
      requires rows.Length == 4
      modifies rows
      ensures forall r :: 0 <= r < 4 ==> rows[r]
    {
      rows[0], rows[1], rows[2], rows[3] := true, true, true, true;
    }

    /** One scan: drives the rows low in turn and stops at the first row with a button down. */
    method Lire(held: Held) returns (bouton: int)
      requires rows.Length == 4
      modifies rows
      ensures IsReading(held, bouton) && 0 <= bouton <= 16
      ensures forall r :: 0 <= r < 4 ==> rows[r]
    {
      bouton := 0;
      var ligne := 0;
      while ligne < 4 && bouton == 0
        invariant 0 <= ligne <= 4
        invariant bouton == 0 ==> forall k :: k in held && IsKey(k) ==> k.0 >= ligne
        invariant bouton != 0 ==> IsReading(held, bouton) && 1 <= bouton <= 16
        decreases 4 - ligne, bouton == 0
      {
        bouton := LireLigne(held, ligne);
        ligne := ligne + 1;
      }
      SetAllRows();
    }

    /** One row: the first column line that reads low decides. */
    method LireLigne(held: Held, ligne: int) returns (bouton: int)
      requires rows.Length == 4 && 0 <= ligne < 4
      requires forall k :: k in held && IsKey(k) ==> k.0 >= ligne
      modifies rows
      ensures bouton == 0 ==> forall k :: k in held && IsKey(k) ==> k.0 > ligne
      ensures bouton != 0 ==> IsReading(held, bouton) && 1 <= bouton <= 16
    {
      SetAllRows();
      rows[ligne] := false;
      bouton := 0;
      OneRowLow(held, ligne);
      hide ReadColumn, IsReading;
      if !ReadColumn(held, 0) {
        bouton := ligne * 4 + 4;
        FirstInRow(held, ligne, 0);
      } else if !ReadColumn(held, 1) {
        bouton := ligne * 4 + 3;
        FirstInRow(held, ligne, 1);
      } else if !ReadColumn(held, 2) {
        bouton := ligne * 4 + 2;
        FirstInRow(held, ligne, 2);
      } else if !ReadColumn(held, 3) {
        bouton := ligne * 4 + 1;
        FirstInRow(held, ligne, 3);
      } else {
        forall k | k in held && IsKey(k) ensures k.0 > ligne {
          assert k.0 == ligne ==> k == (ligne, k.1);
        }
      }
    }

    /** matrice_btn_obtenir_position. */
    method ObtenirPosition(bouton: int) returns (ligne: int, colonne: int)
      ensures (ligne, colonne) == BoardPosition(bouton)
    {
      if bouton <= 0 || bouton > 16 {
        return -1, -1;
      }
      ligne := (bouton - 1) / 4;
      colonne := (bouton - 1) % 4;
    }

    /**
      Waits for a press at most `timeout` milliseconds, in steps of 10; `states` are the buttons held at the
      successive scans. Without a time limit some state must hold a button.
    */
    method AttendreAppuiTimeout(timeout: int, states: seq<Held>) returns (bouton: int, ghost scans: nat)
      requires rows.Length == 4
      requires timeout > 0 ==> 10 * |states| >= timeout
      requires timeout <= 0 ==> exists i :: 0 <= i < |states| && exists k :: k in states[i] && IsKey(k)
      modifies rows
      ensures scans <= |states| && (timeout > 0 ==> 10 * (scans - 1) < timeout)
      ensures forall i :: 0 <= i < (if bouton == 0 then scans else scans - 1) ==> IsReading(states[i], 0)
      ensures bouton != 0 ==> scans > 0 && IsReading(states[scans - 1], bouton)
      ensures bouton == 0 ==> timeout > 0 && 10 * scans >= timeout
    {
      scans := 0;
      var ecoule := 0;
      while ecoule < timeout || timeout <= 0
        invariant ecoule == 10 * scans && scans <= |states|
        invariant timeout > 0 ==> 10 * (scans - 1) < timeout
        invariant forall i :: 0 <= i < scans ==> IsReading(states[i], 0)
        decreases |states| - scans
      {
        if timeout <= 0 {
          ghost var i :| 0 <= i < |states| && exists k :: k in states[i] && IsKey(k);
          assert !IsReading(states[i], 0);
        }
        bouton := Lire(states[ecoule / 10]);
        scans := scans + 1;
        if bouton != 0 {
          return;
        }
        ecoule := ecoule + 10;
      }
      bouton := 0;
    }

    /** Waits for a release in the same way: 1 as soon as a scan reports no button, 0 when time is up. */
    method AttendreRelacheTimeout(timeout: int, states: seq<Held>) returns (r: int, ghost scans: nat)
      requires rows.Length == 4
      requires timeout > 0 ==> 10 * |states| >= timeout
      requires timeout <= 0 ==> exists i :: 0 <= i < |states| && IsReading(states[i], 0)
      modifies rows
      ensures scans <= |states| && (timeout > 0 ==> 10 * (scans - 1) < timeout)
      ensures r == 1 || r == 0
      ensures forall i :: 0 <= i < (if r == 0 then scans else scans - 1) ==> !IsReading(states[i], 0)
      ensures r == 1 ==> scans > 0 && IsReading(states[scans - 1], 0)
      ensures r == 0 ==> timeout > 0 && 10 * scans >= timeout
    {
      scans := 0;
      var ecoule := 0;
      while ecoule < timeout || timeout <= 0
        invariant ecoule == 10 * scans && scans <= |states|
        invariant timeout > 0 ==> 10 * (scans - 1) < timeout
        invariant forall i :: 0 <= i < scans ==> !IsReading(states[i], 0)
        decreases |states| - scans
      {
        var bouton := Lire(states[ecoule / 10]);
        scans := scans + 1;
        if bouton == 0 {
          return 1, scans;
        }
        NotBoth(states[scans - 1], bouton);
        ecoule := ecoule + 10;
      }
      r := 0;
    }
  }

  lemma NotBoth(held: Held, button: int)
    requires IsReading(held, button) && button != 0
    ensures !IsReading(held, 0)
  {
  }
}
