/**
  client.c as a program: one round after another, with the touch sensor, the board, the displays and the
  buttons, over a line to the server.

  The devices and the line are those of a `Console`. The server may send anything: the round below follows the
  protocol's client whatever arrives.
*/
module ClientProgram {
  import opened Machine
  import opened Shuffle
  import opened Board
  import opened Protocol
  import opened Buttons
  import opened LedMatrix
  import opened SevenSegment
  import opened Screen
  import opened Game
  import opened Lcd
  import opened Touch
  import opened Scores
  import opened Console

  // ---------------------------------------------------------------- the chronometer

  /**
    One pass of the chronometer: the buttons held, and the time since the start in microseconds. `after` is
    what the clock says when the final time is taken, if this pass turns out to be the last.
  */
  datatype Tick = Tick(held: Held, now: int, after: int)

  const TENTH := 100000

  /** Ten tenths are a second, and the clock stops at ten seconds. */
  lemma HundredTenths(t: int)
    ensures 10 * TENTH == SECOND && (t / TENTH >= 100 <==> t >= 10 * SECOND)
  {
  }

  predicate ClockGoesOn(t: seq<Tick>) {
    forall i :: 0 <= i < |t| ==> 0 <= t[i].now <= t[i].after && t[i].after / TENTH < 0x8000_0000
  }

  /** At some pass a button is down or the ten seconds are over. */
  ghost predicate WillStop(t: seq<Tick>) {
    exists i :: 0 <= i < |t| && (t[i].now / TENTH >= 100 || !IsReading(t[i].held, 0))
  }

  /** The pass at which the loop stops: the first that sees a button or the end of the ten seconds. */
  ghost predicate StopsAt(t: seq<Tick>, n: nat, rep: int) {
    && n < |t| && IsReading(t[n].held, rep) && (rep != 0 || t[n].now / TENTH >= 100)
    && forall i :: 0 <= i < n ==> IsReading(t[i].held, 0) && t[i].now / TENTH < 100
  }

  /** The cells that show the tenths of a pass; before the first they show 0. */
  function TenthsShown(t: seq<Tick>, n: nat): seq<int>
    requires n <= |t|
  {
    NumberCells(if n == 0 then 0 else t[n - 1].now / TENTH)
  }

  /**
    What happens in n passes: each looks at the buttons while the digits still show the pass before, and then
    pauses with its own tenths on show. Screen, LED matrix and line are all the time as in `s`.
  */
  function PassEvents(t: seq<Tick>, n: nat, s: Scene): seq<Event>
    requires n <= |t|
  {
    if n == 0 then []
    else PassEvents(t, n - 1, s) + [Scan(t[n - 1].held, s.(digits := TenthsShown(t, n - 1))),
                                    Wait(s.(digits := TenthsShown(t, n)))]
  }

  /** Pass i, one by one: the look at the buttons and the pause, and what there was to be seen. */
  lemma {:induction false} EveryPass(t: seq<Tick>, n: nat, s: Scene, i: nat)
    requires i < n <= |t|
    ensures |PassEvents(t, n, s)| == 2 * n
    ensures var look, pause := PassEvents(t, n, s)[2 * i], PassEvents(t, n, s)[2 * i + 1];
            && look.Scan? && look.held == t[i].held && pause.Wait?
            && look.scene == s.(digits := look.scene.digits) && pause.scene == s.(digits := pause.scene.digits)
            && ShowsNumber(look.scene.digits, if i == 0 then 0 else t[i - 1].now / TENTH)
            && ShowsNumber(pause.scene.digits, t[i].now / TENTH)
  {
    hide ShowsNumber, NumberCells;
    PassCount(t, n - 1, s);
    if i < n - 1 {
      EveryPass(t, n - 1, s, i);
    } else {
      NumberCellsShow(if i == 0 then 0 else t[i - 1].now / TENTH);
      NumberCellsShow(t[i].now / TENTH);
    }
  }

  lemma {:induction false} PassCount(t: seq<Tick>, n: nat, s: Scene)
    requires n <= |t|
    ensures |PassEvents(t, n, s)| == 2 * n
  {
    if n > 0 { PassCount(t, n - 1, s); }
  }

  /** Counts tenths on the 7-segment display until a button is seen or ten seconds are over. */
  method Chronometre(c: Console, ticks: seq<Tick>) returns (rep: int, stop: nat)
    requires c.Valid() && ClockGoesOn(ticks) && WillStop(ticks) && c.Sees().digits == NumberCells(0)
    modifies c.pad.rows, c.seg`ram, c.seg.buffer, c`journal
    ensures c.Valid() && StopsAt(ticks, stop, rep) && stop < |ticks| && 0 <= rep <= 16
    ensures c.journal == old(c.journal) + PassEvents(ticks, stop + 1, old(c.Sees()))
    ensures c.Sees() == old(c.Sees()).(digits := TenthsShown(ticks, stop + 1))
  {
    hide NumberCells, ShowsNumber;
    hide c.Valid, c.Sees;
    rep := 0;
    var affiche, precedent, k := 0, -1, 0;
    ghost var start := c.Sees();
    stop := 0;
    while rep == 0 && affiche < 100
      invariant 0 <= k <= |ticks| && c.Valid() && 0 <= rep <= 16
      invariant c.Sees() == start.(digits := TenthsShown(ticks, k))
      invariant c.journal == old(c.journal) + PassEvents(ticks, k, start)
      invariant k == 0 ==> rep == 0 && affiche == 0 && precedent == -1
      invariant k > 0 ==> stop == k - 1 && affiche == precedent == ticks[stop].now / TENTH
      invariant k > 0 ==> IsReading(ticks[stop].held, rep)
      invariant forall i :: 0 <= i < k - 1 ==> IsReading(ticks[i].held, 0) && ticks[i].now / TENTH < 100
      decreases |ticks| - k
    {
      StillRunning(ticks, k);
      rep := c.Scanner(ticks[k].held);
      affiche := ticks[k].now / TENTH;
      if affiche != precedent {
        c.Compter(affiche);
        precedent := affiche;
      }
      c.Patienter();
      stop := k;
      k := k + 1;
    }
  }

  lemma StopIsATick(t: seq<Tick>, n: nat, rep: int)
    requires StopsAt(t, n, rep)
    ensures n < |t|
  {
  }

  lemma StillRunning(t: seq<Tick>, k: nat)
    requires WillStop(t) && k <= |t|
    requires forall i :: 0 <= i < k ==> IsReading(t[i].held, 0) && t[i].now / TENTH < 100
    ensures k < |t|
  {
  }

  /** What the client tells its player before the results arrive. */
  datatype Verdict = TooSlow | Wrong | Success

  function VerdictOf(correct: bool, time: int): Verdict {
    if time > 99 then TooSlow else if !correct then Wrong else Success
  }

  /** The first scan that reports button 1 or button 2. */
  ghost predicate FirstChoice(choices: seq<Held>, n: nat, choix: int) {
    && n < |choices| && IsReading(choices[n], choix) && (choix == 1 || choix == 2)
    && forall i :: 0 <= i < n ==> !IsReading(choices[i], 1) && !IsReading(choices[i], 2)
  }

  ghost predicate FirstPressIs(choices: seq<Held>, choix: int) {
    exists n: nat :: FirstChoice(choices, n, choix)
  }

  ghost predicate WillChoose(choices: seq<Held>) {
    exists i :: 0 <= i < |choices| && (IsReading(choices[i], 1) || IsReading(choices[i], 2))
  }

  /** What happens in n turns of the menu, where nothing changes that the player can see. */
  function MenuEvents(choices: seq<Held>, n: nat, s: Scene): seq<Event>
    requires n <= |choices|
  {
    if n == 0 then [] else MenuEvents(choices, n - 1, s) + [Scan(choices[n - 1], s), Wait(s)]
  }

  /** Turn i, one by one. */
  lemma {:induction false} EveryTurn(choices: seq<Held>, n: nat, s: Scene, i: nat)
    requires i < n <= |choices|
    ensures |MenuEvents(choices, n, s)| == 2 * n
    ensures MenuEvents(choices, n, s)[2 * i] == Scan(choices[i], s) && MenuEvents(choices, n, s)[2 * i + 1] == Wait(s)
  {
    TurnCount(choices, n - 1, s);
    if i < n - 1 { EveryTurn(choices, n - 1, s, i); }
  }

  lemma {:induction false} TurnCount(choices: seq<Held>, n: nat, s: Scene)
    requires n <= |choices|
    ensures |MenuEvents(choices, n, s)| == 2 * n
  {
    if n > 0 { TurnCount(choices, n - 1, s); }
  }

  /** Scans until button 1 or button 2 is seen. */
  method LireChoix(c: Console, choices: seq<Held>) returns (choix: int, ghost n: nat)
    requires c.Valid() && WillChoose(choices)
    modifies c.pad.rows, c`journal
    ensures c.Valid() && c.Sees() == old(c.Sees()) && FirstChoice(choices, n, choix) && n < |choices|
    ensures c.journal == old(c.journal) + MenuEvents(choices, n + 1, c.Sees())
  {
    hide c.Valid, c.Sees;
    choix := 0;
    var k := 0;
    n := 0;
    while choix != 1 && choix != 2
      invariant 0 <= k <= |choices| && c.Valid()
      invariant c.Sees() == old(c.Sees()) && c.journal == old(c.journal) + MenuEvents(choices, k, c.Sees())
      invariant k == 0 ==> choix == 0
      invariant k > 0 ==> n == k - 1 && IsReading(choices[n], choix)
      invariant forall i :: 0 <= i < k - 1 ==> !IsReading(choices[i], 1) && !IsReading(choices[i], 2)
      decreases |choices| - k
    {
      if k > 0 {
        OnlyOneReading(choices[k - 1], choix);
      }
      StillToCome(choices, k);
      choix := c.Scanner(choices[k]);
      c.Patienter();
      n := k;
      k := k + 1;
    }
  }

  lemma OnlyOneReading(held: Held, a: int)
    requires IsReading(held, a)
    ensures forall b :: b != a ==> !IsReading(held, b)
  {
    forall b | IsReading(held, b) ensures b == a { ReadingIsUnique(held, a, b); }
  }

  lemma StillToCome(choices: seq<Held>, k: nat)
    requires WillChoose(choices) && k <= |choices|
    requires forall i :: 0 <= i < k ==> !IsReading(choices[i], 1) && !IsReading(choices[i], 2)
    ensures k < |choices|
  {
  }

  // ---------------------------------------------------------------- one round

  /**
    What a player does in a round: the samples of the touch sensor, the passes of the chronometer, and the
    presses of the menu.
  */
  datatype Round = Round(samples: seq<Sample>, ticks: seq<Tick>, choices: seq<Held>)

  ghost predicate RoundOk(r: Round) {
    ClockRuns(r.samples) && ClockGoesOn(r.ticks) && WillStop(r.ticks) && WillChoose(r.choices)
  }

  /** The touch sensor is held for a second at some point. */
  predicate Touches(r: Round) {
    exists p :: 0 <= p <= |r.samples| && HeldFor(r.samples, p) >= SECOND
  }

  /** The time sent when the chronometer stops at pass n, in tenths. */
  function TimeSent(r: Round, n: nat): int
    requires n < |r.ticks|
  {
    r.ticks[n].after / TENTH
  }

  /** The board a server sends. */
  predicate BoardOk(k: Client) {
    0 <= k.shape < 16 && IsBoard(k.order)
  }

  /** The acts of a full round in which the player saw button `rep` and played on or not. */
  function RoundActs(rep: int, time: int, again: bool): seq<ClientAct> {
    [SendNext, ReceiveNext, ReceiveNext, ReceiveNext, Play(rep, time), SendNext, ReceiveNext, ReceiveNext,
     Choose(again)]
  }

  /** Ready, start byte, shape, order: the first half of a round. False if the start byte is not '1'. */
  method RecevoirPartie(c: Console) returns (ok: bool, forme: int, indices: seq<int>)
    requires c.Valid() && c.line.Up() && c.line.conn.client.step == 0
    modifies c.line
    ensures c.Valid() && c.Sees() == old(c.Sees()).(said := c.line.acts)
    ensures ok ==> c.line.Up() && c.line.conn.client.step == 4
                   && c.line.conn.client.round == old(c.line.conn.client.round)
    ensures ok ==> c.line.conn.client.shape == forme && c.line.conn.client.order == indices
                   && c.line.conn.client.position == PositionOf(forme, indices)
    ensures ok ==> c.line.acts == old(c.line.acts) + BoardActs()
    ensures !ok ==> c.line.conn.client.status == Lost && c.line.acts == old(c.line.acts) + [SendNext, ReceiveNext]
  {
    hide c.Valid, c.Sees;
    forme, indices := 0, [];
    c.Envoyer(Byte('1'), SendNext);
    var synchro := c.Recevoir();
    if synchro != Byte('1') {
      return false, forme, indices;
    }
    var b := c.Recevoir();
    forme := WordOf(b);
    b := c.Recevoir();
    indices := OrderOf(b);
    ok := true;
  }

  /** What the client sends and receives between the board and the menu. */
  function AnswerActs(rep: int, time: int): seq<ClientAct> {
    [Play(rep, time), SendNext, ReceiveNext, ReceiveNext]
  }

  /** Answer, time and results. */
  method EchangerResultats(c: Console, rep: int, correct: bool, time: int) returns (meilleur: int, pire: int)
    requires c.Valid() && c.line.Up() && c.line.conn.client.step == 4
    requires correct == (rep == c.line.conn.client.position)
    modifies c.line
    ensures c.Valid() && c.line.conn.open && c.Sees() == old(c.Sees()).(said := c.line.acts)
    ensures c.line.conn.client
              == old(c.line.conn.client).(step := 8, correct := correct, time := time, best := meilleur, worst := pire)
    ensures c.line.acts == old(c.line.acts) + AnswerActs(rep, time)
  {
    hide c.Valid, c.Sees;
    c.Envoyer(Word(if correct then 1 else 0), Play(rep, time));
    c.Envoyer(Word(time), SendNext);
    var b := c.Recevoir();
    meilleur := WordOf(b);
    b := c.Recevoir();
    pire := WordOf(b);
  }

  /** The choice: what the first press of button 1 or 2 says. */
  method EnvoyerChoix(c: Console, choices: seq<Held>) returns (again: bool, ghost n: nat)
    requires c.Valid() && c.line.Up() && c.line.conn.client.step == 8 && WillChoose(choices)
    modifies c.line, c.pad.rows, c`journal
    ensures c.Valid() && c.line.conn.open && c.Sees() == old(c.Sees()).(said := c.line.acts)
    ensures c.line.conn.client == old(c.line.conn.client).(status := if again then Playing else Quit, step := 0,
                                                           round := old(c.line.conn.client.round) + 1)
    ensures c.line.acts == old(c.line.acts) + [Choose(again)]
    ensures FirstChoice(choices, n, if again then 1 else 2) && n < |choices|
    ensures c.journal == old(c.journal) + MenuEvents(choices, n + 1, old(c.Sees()))
  {
    hide c.Valid, c.Sees;
    var choix;
    choix, n := LireChoix(c, choices);
    again := choix == 1;
    c.Envoyer(Byte(if again then 'o' else 'n'), Choose(again));
  }

  /** From a picture of the screen and of the LED matrix: which answer counts as correct. */
  ghost predicate Settles(f: Frame, w: Window, lit: seq<int>, position: int)
    requires |lit| == 16
  {
    forall key :: IsKey(key) ==> (NumberOf(key) == position <==> LooksRight(f, w.startY, w.startX, key, lit))
  }

  /** Answer `rep` is the number of a button whose cell looks like the LED matrix. */
  ghost predicate RightCell(f: Frame, w: Window, lit: seq<int>, rep: int)
    requires |lit| == 16
  {
    exists key :: IsKey(key) && NumberOf(key) == rep && LooksRight(f, w.startY, w.startX, key, lit)
  }

  /** So the answer is correct exactly when it is such a number; without a press it is none. */
  lemma AnswerSettled(f: Frame, w: Window, lit: seq<int>, forme: int, indices: seq<int>, rep: int)
    requires |lit| == 16 && IsPermutation(indices, 16) && 0 <= forme < 16
    requires Settles(f, w, lit, PositionOf(forme, indices))
    ensures rep == PositionOf(forme, indices) <==> RightCell(f, w, lit, rep)
  {
    hide LooksRight;
    PositionOnPermutation(forme, indices);
    if rep == PositionOf(forme, indices) {
      PositionRoundTrip((rep - 1) / 4, (rep - 1) % 4);
      var key := ((rep - 1) / 4, 3 - (rep - 1) % 4);
      assert IsKey(key) && NumberOf(key) == rep;
    }
  }

  /**
    Puts the target on the LED matrix and the board on the screen. From then on, the answer is the number of
    exactly that button whose cell looks like the LED matrix.
  */
  method Montrer(c: Console, forme: int, indices: seq<int>) returns (position: int, ghost bare: Frame)
    requires c.Valid() && 0 <= forme < 16 && IsBoard(indices)
    modifies c.w.cells, c.w`frames, c.led
    ensures c.Valid() && position == PositionOf(forme, indices)
    ensures BoardShown(c.w, indices) && Shows(c.led.regs, FORMES[forme])
    ensures c.w.frames == old(c.w.frames) + [bare, c.w.Now()]
    ensures BareGrid(bare, old(c.w.Now()), c.w.startY, c.w.startX)
    ensures c.Sees() == old(c.Sees()).(shown := c.w.Now(), lit := c.led.regs)
    ensures OnScreenWhole(c.w) && IsPermutation(indices, 16) ==> Settles(c.w.Now(), c.w, c.led.regs, position)
  {
    hide BoardShown, LooksRight, IsPermutation, BareGrid;
    FormesAreGlyphs();
    c.led.AfficherMotif(FORMES[forme]);
    position, bare := AfficherGrillePredefinie(c.w, forme, indices);
    if OnScreenWhole(c.w) && IsPermutation(indices, 16) {
      forall key | IsKey(key)
        ensures NumberOf(key) == position <==> LooksRight(c.w.Now(), c.w.startY, c.w.startX, key, c.led.regs)
      {
        RightButtonShowsTarget(c.w, c.led.regs, indices, forme, key);
      }
    }
  }

  /**
    What is to be known of a full round afterwards: the button seen, the pass at which the clock stopped, the
    choice and the scan that made it, and what was shown: the bare grid, the board, and the LED matrix.
  */
  datatype Played = Played(rep: int, stop: nat, again: bool, chosen: nat, bare: Frame, seen: Frame, lit: seq<int>)

  const NOT_PLAYED := Played(0, 0, false, 0, [], [], [])

  /** The digits, the LED matrix and the cells of the board are blank, and that is what is shown. */
  ghost predicate Cleared(c: Console)
    reads c, c.w, c.w.cells, c.line, c.lcd, c.led, c.seg, c.seg.buffer, c.pad.rows
    requires c.Valid()
  {
    && CellsBlank(c.w) && Shows(c.led.regs, seq(8, i => 0))
    && c.Sees() == Scene(c.w.Now(), c.led.regs, [0, 0, 0, 0], c.line.acts)
  }

  /**
    The part of a round that needs no server: show, time, clear. Three pictures are shown: the bare grid, the
    board, and the cleared board. While the clock runs, every look at the buttons and every pause has the board
    on the screen and the target on the LED matrix; these settle which button is the right one.
  */
  method Chercher(c: Console, forme: int, indices: seq<int>, ticks: seq<Tick>)
    returns (rep: int, position: int, stop: nat, ghost h: Played)
    requires c.Valid() && 0 <= forme < 16 && IsBoard(indices) && ClockGoesOn(ticks) && WillStop(ticks)
    modifies c.w.cells, c.w`frames, c.led, c.seg`ram, c.seg.buffer, c.pad.rows, c`journal
    ensures c.Valid() && StopsAt(ticks, stop, rep) && stop < |ticks| && h.stop == stop && h.rep == rep
    ensures position == PositionOf(forme, indices)
    ensures c.w.frames == old(c.w.frames) + [h.bare, h.seen, c.w.Now()]
    ensures BareGrid(h.bare, old(c.w.Now()), c.w.startY, c.w.startX)
    ensures Shows(h.lit, FORMES[forme])
    ensures OnScreenWhole(c.w) && IsPermutation(indices, 16) ==> Settles(h.seen, c.w, h.lit, position)
    ensures c.journal == old(c.journal)
              + PassEvents(ticks, stop + 1, Scene(h.seen, h.lit, NumberCells(0), c.line.acts))
    ensures Cleared(c)
  {
    hide BoardShown, Settles, IsPermutation, StopsAt, WillStop, BareGrid, CellsBlank, NumberCells, ShowsNumber;
    hide c.Valid, c.Sees;
    h := NOT_PLAYED;
    ghost var bare;
    position, bare := Montrer(c, forme, indices);
    h := h.(bare := bare, seen := c.w.Now(), lit := c.led.regs);
    c.Vider();
    c.Compter(0);
    c.SeesTheLine();
    rep, stop := Chronometre(c, ticks);
    h := h.(rep := rep, stop := stop);
    c.Vider();
    c.Eteindre();
    c.EffacerGrille();
  }

  /** The answer of the present round was `rep`, seen when the clock stopped at pass `stop`. */
  ghost predicate Answered(k: Client, r: Round, rep: int, stop: nat, verdict: Verdict) {
    && StopsAt(r.ticks, stop, rep) && stop < |r.ticks|
    && k.time == TimeSent(r, stop) && k.correct == (rep == PositionOf(k.shape, k.order))
    && verdict == VerdictOf(k.correct, k.time) && (verdict == Success <==> TookSuccessBranch(k))
  }

  /** It was given to the board in picture `seen`, with the LED matrix in state `lit`. */
  ghost predicate GivenTo(k: Client, w: Window, rep: int, seen: Frame, lit: seq<int>) {
    && BoardOk(k) && Shows(lit, FORMES[k.shape])
    && (OnScreenWhole(w) && IsPermutation(k.order, 16) ==> (k.correct <==> RightCell(seen, w, lit, rep)))
  }

  /** The choice of the present round was the first press of button 1 or 2, and it is what the client goes by. */
  ghost predicate Chose(k: Client, r: Round, h: Played) {
    && FirstChoice(r.choices, h.chosen, if h.again then 1 else 2) && h.chosen < |r.choices|
    && k.status == if h.again then Playing else Quit
  }

  /**
    Everything the player could see when the program looked at the buttons or paused: first, with `said` on the
    line, the board and the target while the tenths go up; then, with the answer sent and the results received,
    the menu on cleared devices.
  */
  function RoundEvents(r: Round, h: Played, said: seq<ClientAct>, end: Scene): seq<Event>
    requires h.stop < |r.ticks| && h.chosen < |r.choices|
  {
    PassEvents(r.ticks, h.stop + 1, Scene(h.seen, h.lit, NumberCells(0), said))
    + MenuEvents(r.choices, h.chosen + 1, end.(said := said + AnswerActs(h.rep, TimeSent(r, h.stop))))
  }

  /**
    While the clock runs the board is on the screen, the target on the LED matrix and nothing has been answered;
    at the menu the answer has been sent and the results received.
  */
  lemma WhatIsSeenWhen(r: Round, h: Played, said: seq<ClientAct>, end: Scene, i: nat, j: nat)
    requires h.stop < |r.ticks| && h.chosen < |r.choices| && i <= h.stop && j <= h.chosen
    ensures |RoundEvents(r, h, said, end)| == 2 * (h.stop + 1) + 2 * (h.chosen + 1)
    ensures var look := RoundEvents(r, h, said, end)[2 * i];
            && look.Scan? && look.held == r.ticks[i].held
            && look.scene.shown == h.seen && look.scene.lit == h.lit && look.scene.said == said
    ensures var look := RoundEvents(r, h, said, end)[2 * (h.stop + 1) + 2 * j];
            && look.Scan? && look.held == r.choices[j]
            && look.scene.shown == end.shown && look.scene.lit == end.lit && look.scene.digits == end.digits
            && look.scene.said
                 == said + [Play(h.rep, r.ticks[h.stop].after / TENTH), SendNext, ReceiveNext, ReceiveNext]
  {
    hide PassEvents, MenuEvents, ShowsNumber, NumberCells;
    var s := Scene(h.seen, h.lit, NumberCells(0), said);
    EveryPass(r.ticks, h.stop + 1, s, i);
    EveryTurn(r.choices, h.chosen + 1, end.(said := said + AnswerActs(h.rep, TimeSent(r, h.stop))), j);
  }

  /** From the board on: show it, time the answer, send it, take the results, and choose. */
  method Repondre(c: Console, forme: int, indices: seq<int>, r: Round)
    returns (again: bool, verdict: Verdict, ghost h: Played)
    requires c.Valid() && c.line.Up() && c.line.conn.client.step == 4 && 0 <= forme < 16 && IsBoard(indices)
    requires c.line.conn.client.shape == forme && c.line.conn.client.order == indices
    requires c.line.conn.client.position == PositionOf(forme, indices) && RoundOk(r)
    modifies c.line, c.w.cells, c.w`frames, c.led, c.seg`ram, c.seg.buffer, c.pad.rows, c`journal
    ensures c.Valid() && c.line.conn.open && c.line.conn.client.step == 0
    ensures Answered(c.line.conn.client, r, h.rep, h.stop, verdict)
    ensures GivenTo(c.line.conn.client, c.w, h.rep, h.seen, h.lit)
    ensures h.again == again && Chose(c.line.conn.client, r, h)
    ensures c.line.acts == old(c.line.acts) + AnswerActs(h.rep, TimeSent(r, h.stop)) + [Choose(again)]
    ensures c.line.conn.client.round == old(c.line.conn.client.round) + 1
    ensures c.w.frames == old(c.w.frames) + [h.bare, h.seen, c.w.Now()] && Cleared(c)
    ensures BareGrid(h.bare, old(c.w.Now()), c.w.startY, c.w.startX)
    ensures c.journal == old(c.journal) + RoundEvents(r, h, old(c.line.acts), c.Sees())
  {
    hide IsPermutation, IsBoard, StopsAt, Settles, RightCell, FirstChoice, PassEvents, MenuEvents;
    hide CellsBlank, BoardShown, BareGrid, WillStop, WillChoose, NumberCells;
    hide c.Valid, c.Sees;
    var rep, position, stop;
    rep, position, stop, h := Chercher(c, forme, indices, r.ticks);
    if OnScreenWhole(c.w) && IsPermutation(indices, 16) {
      AnswerSettled(h.seen, c.w, h.lit, forme, indices, rep);
    }
    var temps := r.ticks[stop].after / TENTH;
    verdict := VerdictOf(rep == position, temps);
    var meilleur, pire := EchangerResultats(c, rep, rep == position, temps);
    ghost var n;
    again, n := EnvoyerChoix(c, r.choices);
    h := h.(again := again, chosen := n);
  }

  /**
    How a round ends: in full; before its first message, as the sensor is never held for a second; on a start
    byte that is not '1'; or on a board that is none, which client.c takes for granted.
  */
  datatype Outcome = Full | NeverTouched | BadStart | NoBoard

  ghost predicate EndsWith(o: Outcome, line: Line, before: seq<ClientAct>)
    reads line
  {
    match o
    case Full => line.conn.client.status != Lost
    case NeverTouched => line.acts == before
    case BadStart => line.conn.client.status == Lost && line.acts == before + [SendNext, ReceiveNext]
    case NoBoard => !BoardOk(line.conn.client) && line.acts == before + BoardActs()
  }

  /** What the client sends and receives before it has its board. */
  function BoardActs(): seq<ClientAct> {
    [SendNext, ReceiveNext, ReceiveNext, ReceiveNext]
  }

  /**
    One round of client.c on its devices. Nothing is sent before the touch sensor has been held for a second.
    Then, whatever the server sends, the client does exactly the acts of the protocol's client, in order, and
    ends in the state they lead to. The journal says what was to be seen meanwhile. The answer is the first
    button seen, and counts as correct exactly when the cell at that button's place looked like the LED matrix;
    the choice is the first press in the menu.
  */
  method Manche(c: Console, r: Round)
    returns (outcome: Outcome, again: bool, verdict: Verdict, ghost h: Played)
    requires c.Valid() && c.line.Up() && c.line.conn.client.step == 0 && RoundOk(r)
    modifies c.line, c.w.cells, c.w`frames, c.led, c.seg`ram, c.seg.buffer, c.pad.rows, c`journal
    modifies c.lcd`rs, c.lcd`data, c.lcd`strobe, c.lcd`chip, c.lcd`cx, c.lcd`cy
    ensures c.Valid()
    ensures EndsWith(outcome, c.line, old(c.line.acts)) && (outcome == NeverTouched <==> !Touches(r))
    ensures outcome != Full ==> c.journal == old(c.journal)
    ensures outcome == Full ==>
              && c.line.conn.open && c.line.conn.client.step == 0
              && Answered(c.line.conn.client, r, h.rep, h.stop, verdict)
              && GivenTo(c.line.conn.client, c.w, h.rep, h.seen, h.lit)
              && h.again == again && Chose(c.line.conn.client, r, h)
    ensures outcome == Full ==>
              && c.line.acts == old(c.line.acts) + RoundActs(h.rep, TimeSent(r, h.stop), again)
              && c.line.conn.client.round == old(c.line.conn.client.round) + 1
              && c.w.frames == old(c.w.frames) + [h.bare, h.seen, c.w.Now()] && Cleared(c)
              && BareGrid(h.bare, old(c.w.Now()), c.w.startY, c.w.startX)
              && c.journal == old(c.journal) + RoundEvents(r, h, old(c.line.acts) + BoardActs(), c.Sees())
  {
    hide IsPermutation, Answered, GivenTo, FirstChoice, Cleared, RoundEvents;
    hide BareGrid, HeldFor, WillStop, WillChoose, ShowsBar, View, ShowsInvitation;
    hide c.Valid, c.Sees;
    again, verdict, h := false, TooSlow, NOT_PLAYED;
    var touched := c.Toucher(r.samples);
    if !touched {
      outcome := NeverTouched;
      return;
    }
    var ok, forme, indices := RecevoirPartie(c);
    if !ok {
      outcome := BadStart;
      return;
    }
    if !(0 <= forme < 16 && IsBoard(indices)) {
      outcome := NoBoard;
      return;
    }
    outcome := Full;
    again, verdict, h := Repondre(c, forme, indices, r);
  }

  /** Without a press the ten seconds are over, so the answer is neither in time nor correct. */
  lemma NoPressIsTooSlow(r: Round, stop: nat, shape: int, order: seq<int>)
    requires RoundOk(r) && StopsAt(r.ticks, stop, 0) && IsPermutation(order, 16) && 0 <= shape < 16
    ensures TimeSent(r, stop) >= 100 && PositionOf(shape, order) != 0
    ensures VerdictOf(0 == PositionOf(shape, order), TimeSent(r, stop)) == TooSlow
  {
    PositionOnPermutation(shape, order);
  }

  /** A round that ends well: the player answers by the first button seen, before the clock says ten seconds. */
  predicate InTime(r: Round, stop: nat)
    requires stop < |r.ticks|
  {
    r.ticks[stop].after < 100 * TENTH
  }

  /** The verdict, from the pass at which the clock stops and the button seen there. */
  lemma WhichVerdict(r: Round, stop: nat, rep: int, shape: int, order: seq<int>)
    requires RoundOk(r) && StopsAt(r.ticks, stop, rep) && IsPermutation(order, 16) && 0 <= shape < 16
    ensures var v := VerdictOf(rep == PositionOf(shape, order), TimeSent(r, stop));
            && (v == TooSlow <==> !InTime(r, stop))
            && (v == Success <==> InTime(r, stop) && 1 <= rep <= 16 && order[rep - 1] == shape)
            && (v == Wrong <==> InTime(r, stop) && 1 <= rep <= 16 && order[rep - 1] != shape)
  {
    PositionOnPermutation(shape, order);
    if rep == 0 { NoPressIsTooSlow(r, stop, shape, order); }
  }

  /** One press of `key` at a time of so many tenths, after a second of touch; then "play again". */
  function OnePress(key: (int, int), tenths: int): Round {
    Round([Sample(true, 0, SECOND)], [Tick({key}, tenths * TENTH, tenths * TENTH)], [{(0, 3)}])
  }

  /** Every button at every time is the answer of some round, so each verdict is reached on every board. */
  lemma EveryAnswerIsPossible(key: (int, int), tenths: int)
    requires IsKey(key) && 0 <= tenths < 0x8000_0000
    ensures var r := OnePress(key, tenths);
            RoundOk(r) && Touches(r) && StopsAt(r.ticks, 0, NumberOf(key)) && TimeSent(r, 0) == tenths
  {
    var r := OnePress(key, tenths);
    SinglePress(key);
    SinglePress((0, 3));
    assert NumberOf((0, 3)) == 1 && IsReading(r.choices[0], 1);
    if IsReading({key}, 0) { ReadingIsUnique({key}, 0, NumberOf(key)); }
    assert RunStart(r.samples, 1) == 0 && HeldFor(r.samples, 1) == SECOND;
    assert WillStop(r.ticks) by { assert !IsReading(r.ticks[0].held, 0); }
  }

  /** On the board in its first order, with the first glyph to be found: each verdict, by a round that has it. */
  lemma EachVerdictIsReached()
    ensures VerdictOf(1 == PositionOf(0, Identity(16)), TimeSent(OnePress((0, 3), 5), 0)) == Success
    ensures VerdictOf(2 == PositionOf(0, Identity(16)), TimeSent(OnePress((0, 2), 5), 0)) == Wrong
    ensures VerdictOf(1 == PositionOf(0, Identity(16)), TimeSent(OnePress((0, 3), 100), 0)) == TooSlow
  {
    PositionOnPermutation(0, Identity(16));
    EveryAnswerIsPossible((0, 3), 5);
    EveryAnswerIsPossible((0, 2), 5);
    EveryAnswerIsPossible((0, 3), 100);
  }

  /** The acts of successive full rounds: what was pressed, the time, and the choice. */
  function ManyActs(plays: seq<(int, int, bool)>): seq<ClientAct> {
    if plays == [] then []
    else
      var n := |plays| - 1;
      ManyActs(plays[..n]) + RoundActs(plays[n].0, plays[n].1, plays[n].2)
  }

  lemma ManyActsAppend(plays: seq<(int, int, bool)>, p: (int, int, bool))
    ensures ManyActs(plays + [p]) == ManyActs(plays) + RoundActs(p.0, p.1, p.2)
  {
    assert (plays + [p])[..|plays|] == plays;
  }

  /** A round was played like this: the button seen, the time sent, and the choice. */
  ghost predicate PlayedAs(r: Round, p: (int, int, bool)) {
    && Touches(r)
    && (exists n: nat :: n < |r.ticks| && StopsAt(r.ticks, n, p.0) && p.1 == TimeSent(r, n))
    && FirstPressIs(r.choices, if p.2 then 1 else 2)
  }

  /**
    The main loop of client.c, for at most as many rounds as the player has in store: full rounds, each with
    all nine acts in order, answered and ended as the player pressed; it stops after the first 'n', and
    otherwise only if the player never touches or the server breaks the rules.
  */
  method Jouer(c: Console, rounds: seq<Round>) returns (outcome: Outcome, ghost plays: seq<(int, int, bool)>)
    requires c.Valid() && c.line.Up() && c.line.conn.client.step == 0 && c.line.acts == []
    requires forall i :: 0 <= i < |rounds| ==> RoundOk(rounds[i])
    modifies c.line, c.w.cells, c.w`frames, c.led, c.seg`ram, c.seg.buffer, c.pad.rows, c`journal
    modifies c.lcd`rs, c.lcd`data, c.lcd`strobe, c.lcd`chip, c.lcd`cx, c.lcd`cy
    ensures c.Valid() && |plays| <= |rounds|
    ensures EndsWith(outcome, c.line, ManyActs(plays))
    ensures forall i :: 0 <= i < |plays| ==> PlayedAs(rounds[i], plays[i])
    ensures forall i :: 0 <= i < |plays| - 1 ==> plays[i].2
    ensures outcome == NeverTouched ==> |plays| < |rounds| && !Touches(rounds[|plays|])
    ensures outcome == Full ==>
              && c.line.acts == ManyActs(plays)
              && c.line.conn.client.round == old(c.line.conn.client.round) + |plays|
              && (c.line.conn.client.status == Playing ==> |plays| == |rounds|)
              && (c.line.conn.client.status != Playing ==> c.line.conn.client.status == Quit && plays != []
                                                           && !plays[|plays| - 1].2)
  {
    hide StopsAt, RoundOk, Cleared, Touches, TimeSent, BoardOk, VerdictOf, ManyActs, RoundActs;
    hide RoundEvents, BareGrid, GivenTo, TookSuccessBranch, PositionOf;
    hide c.Valid, c.Sees;
    plays := [];
    outcome := Full;
    ManyActsOfNone();
    var continuer, k := true, 0;
    while continuer && k < |rounds|
      invariant 0 <= k <= |rounds| && outcome == Full && |plays| == k && c.Valid()
      invariant c.line.conn.open && c.line.conn.client.step == 0 && c.line.acts == ManyActs(plays)
      invariant c.line.conn.client.round == old(c.line.conn.client.round) + k
      invariant c.line.conn.client.status == if continuer then Playing else Quit
      invariant forall i :: 0 <= i < k ==> PlayedAs(rounds[i], plays[i])
      invariant forall i :: 0 <= i < k - 1 ==> plays[i].2
      invariant k > 0 ==> plays[k - 1].2 == continuer
      invariant k == 0 ==> continuer
      decreases |rounds| - k
    {
      var again, verdict;
      ghost var h;
      outcome, again, verdict, h := Manche(c, rounds[k]);
      if outcome != Full {
        return;
      }
      ghost var p := (h.rep, TimeSent(rounds[k], h.stop), again);
      ManyActsAppend(plays, p);
      plays := plays + [p];
      continuer := again;
      k := k + 1;
    }
  }

  lemma ManyActsOfNone()
    ensures ManyActs([]) == []
  {
  }
}
