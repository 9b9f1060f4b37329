/**
  Waiting until the touch sensor has been held for one second (lib/jeu.c, `attendre_contact_tactile`), with
  the progress bar it draws on the second row of the display.

  Times are whole microseconds. A sample is one pass of the loop: the level read, and the two clock readings
  of that pass; the first one is used only when a contact begins.
*/
module Touch {
  import opened Machine
  import opened Lcd


  const HASH := 35
  const DOT := 46

  datatype Sample = Sample(touched: bool, start: int, now: int)

  predicate ClockRuns(s: seq<Sample>) {
    && (forall i :: 0 <= i < |s| ==> s[i].start <= s[i].now)
    && (forall i, j :: 0 <= i < j < |s| ==> s[i].now <= s[j].start)
  }

  /** Where the unbroken run of touched samples that ends before p begins; p itself if there is none. */
  function RunStart(s: seq<Sample>, p: nat): (q: nat)
    requires p <= |s|
    ensures q <= p && (forall i :: q <= i < p ==> s[i].touched) && (q == 0 || !s[q - 1].touched)
  {
    if p == 0 || !s[p - 1].touched then p else RunStart(s, p - 1)
  }

  /** How long the contact has lasted after p passes. */
  function HeldFor(s: seq<Sample>, p: nat): int
    requires p <= |s|
  {
    var q := RunStart(s, p);
    if q == p then 0 else s[p - 1].now - s[q].start
  }

  lemma HeldIsNotNegative(s: seq<Sample>, p: nat)
    requires ClockRuns(s) && p <= |s|
    ensures HeldFor(s, p) >= 0
  {
  }

  /** Cell i of the progress bar after a contact of `held` microseconds. */
  function BarCell(held: int, i: int): int {
    if i < held * 16 / SECOND then HASH else DOT
  }

  predicate ShowsBar(text: seq<int>, held: int) {
    |text| == 32 && forall c :: 16 <= c < 32 ==> text[c] == BarCell(held, c - 16)
  }

  /** The '#' cells are a prefix whose length is the number of sixteenths of a second, up to sixteen. */
  lemma BarIsPrefix(text: seq<int>, held: int)
    requires ShowsBar(text, held) && held >= 0
    ensures var n := if held >= SECOND then 16 else held * 16 / SECOND;
            && 0 <= n <= 16
            && (forall c :: 16 <= c < 16 + n ==> text[c] == HASH)
            && (forall c :: 16 + n <= c < 32 ==> text[c] == DOT)
  {
  }

  function Ascii(s: string): (b: seq<int>)
    ensures |b| == |s|
  {
    seq(|s|, i requires 0 <= i < |s| => s[i] as int)
  }

  lemma BarCharacters()
    ensures Ascii("#.") == [HASH, DOT]
  {
  }

  /** Draws the sixteen cells of the bar on the second row and leaves the first row alone. */
  method DessinerBarre(lcd: Display, held: int)
    requires lcd.Ready()
    modifies lcd`rs, lcd`data, lcd`strobe, lcd`chip, lcd`cx, lcd`cy
    ensures lcd.Synced() && lcd.Position() == 0
    ensures ShowsBar(lcd.Text(), held) && lcd.Text()[..16] == old(lcd.Text()[..16])
  {
    hide Typed, View;
    ghost var first := lcd.Text()[..16];
    var barres := held * 16 / SECOND;
    lcd.PositionTo(0, 1);
    for i := 0 to 16
      invariant lcd.Synced() && lcd.Position() == (16 + i) % 32
      invariant lcd.Text()[..16] == first
      invariant forall c :: 16 <= c < 16 + i ==> lcd.Text()[c] == BarCell(held, c - 16)
    {
      lcd.Caractere(if i < barres then HASH else DOT);
    }
  }

  /** The first row asks the player to touch. */
  predicate ShowsInvitation(text: seq<int>) {
    |text| == 32 && text[..16] == Ascii("Maintenez TOUCH ")
  }

  lemma InvitationInPlace(haut: seq<int>, bas: seq<int>)
    requires haut == Ascii("Maintenez TOUCH") && bas == Ascii("pendant 1s")
    ensures IsText(haut) && IsText(bas)
    ensures var blank := BlankText();
            var t := Typed(Typed(blank, 0, haut), 16, bas);
            |t| == 32 && t[..16] == Ascii("Maintenez TOUCH ")
  {
    var blank := BlankText();
    TypedInPlace(blank, 0, haut);
    var first := Typed(blank, 0, haut);
    TypedInPlace(first, 16, bas);
    assert Typed(first, 16, bas)[..16] == first[..16];
    AsciiAppends("Maintenez TOUCH", " ");
    assert "Maintenez TOUCH" + " " == "Maintenez TOUCH ";
    assert Ascii(" ") == [BLANK];
    assert first[..16] == haut + [BLANK];
  }

  lemma AsciiAppends(a: string, b: string)
    ensures Ascii(a + b) == Ascii(a) + Ascii(b)
  {
  }

  /** The message and the empty bar. */
  method Inviter(lcd: Display)
    requires lcd.Ready()
    modifies lcd`rs, lcd`data, lcd`strobe, lcd`chip, lcd`cx, lcd`cy
    ensures lcd.Synced() && ShowsBar(lcd.Text(), 0) && ShowsInvitation(lcd.Text())
  {
    var haut, bas := Ascii("Maintenez TOUCH"), Ascii("pendant 1s");
    InvitationInPlace(haut, bas);
    hide Typed, View, Terminal, ShowsBar, Ascii, IsText, WroteAll, CanTypeAll;
    lcd.DeuxLignes(haut, bas);
    DessinerPoints(lcd);
  }

  /** The empty bar, cell by cell. */
  method DessinerPoints(lcd: Display)
    requires lcd.Synced()
    modifies lcd`rs, lcd`data, lcd`strobe, lcd`chip, lcd`cx, lcd`cy
    ensures lcd.Synced() && ShowsBar(lcd.Text(), 0) && lcd.Text()[..16] == old(lcd.Text()[..16])
  {
    for i := 0 to 16
      invariant lcd.Synced() && lcd.Text()[..16] == old(lcd.Text()[..16])
      invariant forall c :: 16 <= c < 16 + i ==> lcd.Text()[c] == DOT
    {
      lcd.PositionTo(i, 1);
      lcd.Caractere(DOT);
    }
  }

  /** One more sample: a touched one keeps the run going or begins one, a released one ends it. */
  lemma HeldStep(s: seq<Sample>, k: nat)
    requires k < |s|
    ensures var r := RunStart(s, k); var t := RunStart(s, k + 1);
            if s[k].touched then t == r && HeldFor(s, k + 1) == s[k].now - s[r].start
            else t == k + 1 && HeldFor(s, k + 1) == 0
    ensures RunStart(s, k) == k ==> HeldFor(s, k) == 0
  {
  }

  lemma HeldAtStart(s: seq<Sample>)
    ensures RunStart(s, 0) == 0 && HeldFor(s, 0) == 0
  {
  }

  /**
    Returns only after an unbroken run of touched samples that spans at least one second, and at the first
    pass where there is one. `done` is false when the samples run out before that.
  */
  method AttendreContactTactile(lcd: Display, samples: seq<Sample>) returns (done: bool, ghost passes: nat)
    requires lcd.Ready() && ClockRuns(samples)
    modifies lcd`rs, lcd`data, lcd`strobe, lcd`chip, lcd`cx, lcd`cy
    ensures lcd.Synced() && passes <= |samples|
    ensures done <==> HeldFor(samples, passes) >= SECOND
    ensures !done ==> passes == |samples|
    ensures forall p :: 0 <= p < passes ==> HeldFor(samples, p) < SECOND
    ensures ShowsBar(lcd.Text(), HeldFor(samples, passes)) && ShowsInvitation(lcd.Text())
  {
    hide HeldFor, RunStart, ShowsBar, View;
    Inviter(lcd);
    ghost var first := lcd.Text()[..16];
    HeldAtStart(samples);
    var cumul := 0;
    var actif := false;
    var debut := 0;
    var k := 0;
    passes := 0;
    while cumul < SECOND && k < |samples|
      invariant 0 <= k <= |samples| && passes == k && lcd.Synced()
      invariant cumul == HeldFor(samples, k)
      invariant actif <==> RunStart(samples, k) < k
      invariant actif ==> debut == samples[RunStart(samples, k)].start
      invariant forall p :: 0 <= p < k ==> HeldFor(samples, p) < SECOND
      invariant ShowsBar(lcd.Text(), cumul) && lcd.Text()[..16] == first
      decreases |samples| - k
    {
      HeldStep(samples, k);
      if samples[k].touched {
        if !actif {
          actif := true;
          debut := samples[k].start;
        }
        cumul := samples[k].now - debut;
      } else if actif {
        actif := false;
        cumul := 0;
      }
      DessinerBarre(lcd, cumul);
      k := k + 1;
      passes := passes + 1;
    }
    done := cumul >= SECOND;
  }

  /** What "held" means: over a second exactly when some stretch of touched samples up to p spans a second. */
  lemma HeldMeansUnbroken(s: seq<Sample>, p: nat)
    requires ClockRuns(s) && p <= |s|
    ensures HeldFor(s, p) >= SECOND <==>
              exists q :: 0 <= q < p && (forall i :: q <= i < p ==> s[i].touched) && s[p - 1].now - s[q].start >= SECOND
  {
    var r := RunStart(s, p);
    if q :| 0 <= q < p && (forall i :: q <= i < p ==> s[i].touched) && s[p - 1].now - s[q].start >= SECOND {
      assert r <= q;
      if r < q { assert s[r].now <= s[q].start; }
    }
    if HeldFor(s, p) >= SECOND { assert 0 <= r < p; }
  }
}
