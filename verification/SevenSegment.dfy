/**
  The 7-segment driver (lib/my_7_segment.c) with the HT16K33: its display memory and its mode.

  The driver keeps eight buffer words and copies all of them, low byte and high byte, after every change.
  Digits 0 to 3 from the left are buffer words 0, 1, 3 and 4; word 2 holds the colon.
*/
module SevenSegment {
  import opened Machine

  const MAX_DIGITS := 4
  const CMD_SYSTEM := 0x20
  const CMD_DISPLAY := 0x80
  const CMD_BRIGHTNESS := 0xE0
  const MINUS := 0x40
  const DECIMAL_BIT := 0x80

  /** Segment patterns of the digits 0 to 9. */
  const DIGIT_SEGMENTS := [0x3F, 0x06, 0x5B, 0x4F, 0x66, 0x6D, 0x7D, 0x07, 0x7F, 0x6F]

  const POSITION_MAP := [0, 1, 3, 4]

  predicate BufferOk(b: seq<int>) {
    |b| == 8 && forall i :: 0 <= i < 8 ==> 0 <= b[i] < 256
  }

  /** Display memory that holds the buffer, two bytes a word. */
  predicate Mirrors(ram: seq<int>, b: seq<int>)
    requires |b| == 8
  {
    |ram| == 16 && forall i :: 0 <= i < 8 ==> ram[2 * i] == b[i] % 256 && ram[2 * i + 1] == b[i] / 256
  }

  /** The four digit cells, from the left. */
  function Cells(b: seq<int>): (c: seq<int>)
    requires |b| == 8
    ensures |c| == 4
  {
    [b[0], b[1], b[3], b[4]]
  }

  // ---------------------------------------------------------------- what patterns look like

  /** A digit as seven strokes, drawn in three rows of three characters; a blank is a stroke that is dark. */
  const PICTURES: seq<string> := [
    " _ | ||_|", "     |  |", " _  _||_ ", " _  _| _|", "   |_|  |",
    " _ |_  _|", " _ |_ |_|", " _   |  |", " _ |_||_|", " _ |_| _|"
  ]

  const MINUS_PICTURE := "    _    "

  /** A pattern lights exactly the strokes of a picture: bits 0 to 6 are segments a to g; bit 7, the point, is dark. */
  predicate Draws(segments: int, p: string)
    requires |p| == 9
  {
    && 0 <= segments < 128
    && (segments % 2 == 1 <==> p[1] != ' ')
    && (segments / 2 % 2 == 1 <==> p[5] != ' ')
    && (segments / 4 % 2 == 1 <==> p[8] != ' ')
    && (segments / 8 % 2 == 1 <==> p[7] != ' ')
    && (segments / 16 % 2 == 1 <==> p[6] != ' ')
    && (segments / 32 % 2 == 1 <==> p[3] != ' ')
    && (segments / 64 % 2 == 1 <==> p[4] != ' ')
  }

  /** Each digit is shown by its usual picture, and the minus by the stroke in the middle. */
  lemma DigitsLookRight(d: nat)
    requires d < 10
    ensures |PICTURES[d]| == 9 && Draws(DIGIT_SEGMENTS[d], PICTURES[d])
    ensures Draws(MINUS, MINUS_PICTURE)
  {
  }

  // ---------------------------------------------------------------- numbers on four cells

  /** Decimal digit k of a, from the right. */
  function Digit(a: nat, k: nat): (d: nat)
    ensures d < 10
  {
    if k == 0 then a % 10 else Digit(a / 10, k - 1)
  }

  /** How many decimal digits a has; 1 for 0. */
  function Length(a: nat): (n: nat)
    ensures n >= 1
  {
    if a < 10 then 1 else 1 + Length(a / 10)
  }

  function Magnitude(n: int): nat {
    if n < 0 then -n else n
  }

  /** What the cell k places from the right shows for n: a digit, the minus just left of them, or nothing. */
  function CellFor(n: int, k: nat): int {
    var a := Magnitude(n);
    if k < Length(a) then DIGIT_SEGMENTS[Digit(a, k)]
    else if n < 0 && k == Length(a) then MINUS
    else 0
  }

  /** A reader of the display: the digit a pattern shows, or -1. */
  function DigitOf(segments: int): (d: int)
    ensures -1 <= d < 10
    ensures d >= 0 ==> DIGIT_SEGMENTS[d] == segments
  {
    if segments == 0x3F then 0 else if segments == 0x06 then 1 else if segments == 0x5B then 2
    else if segments == 0x4F then 3 else if segments == 0x66 then 4 else if segments == 0x6D then 5
    else if segments == 0x7D then 6 else if segments == 0x07 then 7 else if segments == 0x7F then 8
    else if segments == 0x6F then 9 else -1
  }

  lemma DigitOfSegments(d: nat)
    requires d < 10
    ensures DigitOf(DIGIT_SEGMENTS[d]) == d
  {
  }

  /** The number on cells 0..i-1 and its sign, read from the left: blanks first, then a minus, then digits. */
  function ReadCells(c: seq<int>): int
    requires |c| == 4
  {
    ReadFrom(c, 0, 0, false)
  }

  function ReadFrom(c: seq<int>, i: nat, value: int, negative: bool): int
    requires |c| == 4 && i <= 4
    decreases 4 - i
  {
    if i == 4 then if negative then -value else value
    else if c[i] == MINUS then ReadFrom(c, i + 1, value, true)
    else if DigitOf(c[i]) >= 0 then ReadFrom(c, i + 1, 10 * value + DigitOf(c[i]), negative)
    else ReadFrom(c, i + 1, value, negative)
  }

  predicate ShowsNumber(c: seq<int>, n: int) {
    |c| == 4 && forall p :: 0 <= p < 4 ==> c[p] == CellFor(n, 3 - p)
  }

  /** The cells that show n. */
  function NumberCells(n: int): seq<int> {
    [CellFor(n, 3), CellFor(n, 2), CellFor(n, 1), CellFor(n, 0)]
  }

  lemma CellsOfNumber(c: seq<int>, n: int)
    requires ShowsNumber(c, n)
    ensures c == NumberCells(n)
  {
    assert c[0] == CellFor(n, 3) && c[1] == CellFor(n, 2) && c[2] == CellFor(n, 1) && c[3] == CellFor(n, 0);
  }

  lemma NumberCellsShow(n: int)
    ensures ShowsNumber(NumberCells(n), n)
  {
  }

  /** From -999 to 9999 the display reads back as the number. */
  lemma NumberRoundTrip(c: seq<int>, n: int)
    requires ShowsNumber(c, n) && -999 <= n <= 9999
    ensures ReadCells(c) == n
  {
    var a := Magnitude(n);
    DigitsOfSmall(a);
    assert c[3] == CellFor(n, 0) && c[2] == CellFor(n, 1) && c[1] == CellFor(n, 2) && c[0] == CellFor(n, 3);
    forall d: nat | d < 10 ensures DigitOf(DIGIT_SEGMENTS[d]) == d && DIGIT_SEGMENTS[d] != MINUS {
      DigitOfSegments(d);
    }
  }

  lemma UnitsDigit(a: nat)
    ensures a == 10 * (a / 10) + Digit(a, 0)
    ensures a < 10 ==> Digit(a, 0) == a && Length(a) == 1
  {
  }

  lemma DigitsOfSmall(a: nat)
    requires a <= 9999
    ensures a == Digit(a, 0) + 10 * Digit(a, 1) + 100 * Digit(a, 2) + 1000 * Digit(a, 3)
    ensures Length(a) == if a < 10 then 1 else if a < 100 then 2 else if a < 1000 then 3 else 4
  {
    var b := a / 10;
    var c := b / 10;
    var d := c / 10;
    DigitsShift(a, 0);
    DigitsShift(a, 1);
    DigitsShift(b, 0);
    DigitsShift(a, 2);
    DigitsShift(b, 1);
    DigitsShift(c, 0);
    hide Digit, Length;
    UnitsDigit(a);
    UnitsDigit(b);
    UnitsDigit(c);
    UnitsDigit(d);
  }

  /** One pass of the digit loop: what is left of the number, and how many places remain. */
  lemma DigitsShift(a: nat, k: nat)
    ensures Digit(a, k + 1) == Digit(a / 10, k)
    ensures a >= 10 ==> Length(a) == 1 + Length(a / 10)
  {
  }

  /** The number left after k passes of the digit loop. */
  function Left(a: nat, k: nat): nat {
    if k == 0 then a else Left(a, k - 1) / 10
  }

  lemma {:induction false} LeftGivesDigit(a: nat, k: nat)
    ensures Left(a, k) % 10 == Digit(a, k)
    ensures Left(a, k) > 0 <==> (a > 0 && k < Length(a))
  {
    if k > 0 {
      LeftGivesDigit(a / 10, k - 1);
      LeftCommutes(a, k - 1);
    }
  }

  lemma {:induction false} LeftCommutes(a: nat, k: nat)
    ensures Left(a / 10, k) == Left(a, k + 1)
  {
    if k > 0 { LeftCommutes(a, k - 1); }
  }

  /** Cells in the middle of the digit loop: n digits of a stand at the right, the rest is blank. */
  predicate Partial(c: seq<int>, a: nat, n: nat) {
    && |c| == 4 && n <= 4 && n <= Length(a)
    && forall p :: 0 <= p < 4 ==> c[p] == if 3 - p < n then DIGIT_SEGMENTS[Digit(a, 3 - p)] else 0
  }

  lemma PartialStep(c: seq<int>, a: nat, n: nat, d: int)
    requires Partial(c, a, n) && n < 4 && n < Length(a) && d == Digit(a, n)
    ensures c[3 - n] == 0 && Partial(c[3 - n := DIGIT_SEGMENTS[d]], a, n + 1)
  {
    hide Digit, Length;
    var e := c[3 - n := DIGIT_SEGMENTS[d]];
    forall p | 0 <= p < 4
      ensures e[p] == if 3 - p < n + 1 then DIGIT_SEGMENTS[Digit(a, 3 - p)] else 0
    {
      if p != 3 - n { assert e[p] == c[p]; }
    }
  }

  lemma BlankIsPartial(c: seq<int>, a: nat)
    requires |c| == 4 && c[0] == 0 && c[1] == 0 && c[2] == 0 && c[3] == 0
    ensures Partial(c, a, 0)
  {
  }

  /** The end of the digit loop: every cell is written or every digit is. */
  lemma PartialDone(c: seq<int>, number: int, n: nat)
    requires Partial(c, Magnitude(number), n) && (n == 4 || n >= Length(Magnitude(number)))
    ensures n == 4 || number >= 0 ==> ShowsNumber(c, number)
    ensures n < 4 && number < 0 ==> ShowsNumber(c[3 - n := MINUS], number)
  {
    assert forall p :: 0 <= p < 4 && p != 3 - n ==> c[p] == CellFor(number, 3 - p);
  }

  /** What commands set: whether the oscillator runs, whether the display is on, and its brightness. */
  datatype Mode = Mode(running: bool, lit: bool, brightness: int)

  /** Carries out one command; its high half says which. */
  function Obey(m: Mode, command: int): Mode
    requires 0 <= command < 256
  {
    if command / 16 == 2 then m.(running := command % 2 == 1)
    else if command / 16 == 8 then m.(lit := command % 2 == 1)
    else if command / 16 == 14 then m.(brightness := command % 16)
    else m
  }

  /** The codes of the data sheet: oscillator on and off, display on and off, and sixteen levels of brightness. */
  lemma CommandCodes(m: Mode, level: int)
    requires 0 <= level < 16
    ensures Obey(m, 0x21) == m.(running := true) && Obey(m, 0x20) == m.(running := false)
    ensures Obey(m, 0x81) == m.(lit := true) && Obey(m, 0x80) == m.(lit := false)
    ensures Obey(m, 0xE0 + level) == m.(brightness := level)
  {
  }

  /** The colon is bit 1 of its word; setting or clearing it leaves the other bits. */
  lemma ColonBit(w: int, on: bool)
    requires 0 <= w < 256
    ensures var v := if on == (w / 2 % 2 == 1) then w else if on then w + 2 else w - 2;
            0 <= v < 256 && (v / 2 % 2 == 1 <==> on) && v % 2 == w % 2 && v / 4 == w / 4
  {
    var q, r := w / 4, w % 4;
    assert w / 2 % 2 == r / 2 && w % 2 == r % 2;
  }

  class Segments {
    var buffer: array<int>
    /** The descriptor of the bus, negative when it is closed. */
    var fd: int
    /** The chip: its display memory and its mode. */
    var ram: seq<int>
    var mode: Mode

    ghost predicate Valid()
      reads this, buffer
    {
      buffer.Length == 8 && BufferOk(buffer[..]) && |ram| == 16
      && (fd >= 0 ==> Mirrors(ram, buffer[..]))
    }

    /** Everything but the mirror: what holds between a change of the buffer and the copy that follows it. */
    ghost predicate Shaped()
      reads this, buffer
    {
      buffer.Length == 8 && BufferOk(buffer[..]) && |ram| == 16
    }

    constructor ()
      ensures Valid() && fd < 0 && buffer[..] == seq(8, i => 0) && fresh(buffer)
    {
      mode := Mode(false, false, 0);
      buffer := new int[8](i => 0);
      fd := -1;
      ram := seq(16, i => 0);
    }

    /** wiringPiI2CWriteReg8: one byte of display memory; the bus carries the low byte of `value`. */
    method WriteReg(reg: nat, value: int)
      requires |ram| == 16 && reg < 16
      modifies this`ram
      ensures ram == old(ram)[reg := value % 256]
    {
      ram := ram[reg := value % 256];
    }

    /** Copies the whole buffer, if the bus is open. */
    method MajAffichage()
      requires Shaped()
      modifies this`ram
      ensures Valid() && (fd < 0 ==> ram == old(ram))
      ensures fd >= 0 ==> forall i :: 0 <= i < 8 ==> ram[2 * i] == buffer[i] % 256 && ram[2 * i + 1] == buffer[i] / 256
    {
      if fd < 0 {
        return;
      }
      for i := 0 to 8
        invariant |ram| == 16
        invariant forall k :: 0 <= k < i ==> ram[2 * k] == buffer[k] % 256 && ram[2 * k + 1] == buffer[k] / 256
      {
        WriteReg(i * 2, buffer[i] % 256);
        WriteReg(i * 2 + 1, buffer[i] / 256);
      }
    }

    /** With the bus open, the four digits stand in the chip's memory at the addresses the display reads. */
    lemma ChipShowsCells()
      requires Valid() && fd >= 0
      ensures [ram[0], ram[2], ram[6], ram[8]] == Cells(buffer[..]) && ram[4] == buffer[2]
    {
      assert buffer[..][0] == buffer[0] && buffer[..][1] == buffer[1] && buffer[..][2] == buffer[2];
      assert buffer[..][3] == buffer[3] && buffer[..][4] == buffer[4];
      assert ram[2 * 0] == ram[0] && ram[2 * 1] == ram[2] && ram[2 * 2] == ram[4] && ram[2 * 3] == ram[6];
      assert ram[2 * 4] == ram[8];
    }

    /** A command to the chip, if the bus is open. */
    method EnvoyerCommande(cmd: int)
      requires 0 <= cmd < 256
      modifies this`mode
      ensures mode == if fd >= 0 then Obey(old(mode), cmd) else old(mode)
    {
      if fd >= 0 {
        mode := Obey(mode, cmd);
      }
    }

    /** Sets the brightness, held between 0 and 15. */
    method Luminosite(luminosite: int)
      modifies this`mode
      ensures fd < 0 ==> mode == old(mode)
      ensures fd >= 0 ==> mode == old(mode).(brightness := if luminosite > 15 then 15
                                                           else if luminosite < 0 then 0 else luminosite)
    {
      var niveau := luminosite;
      if niveau > 15 {
        niveau := 15;
      }
      if niveau < 0 {
        niveau := 0;
      }
      EnvoyerCommande(CMD_BRIGHTNESS + niveau);
    }

    /** Opens the bus: the chip runs at full brightness and is blank. A negative descriptor leaves it as it was. */
    method Init(descripteur: int)
      requires Valid()
      modifies this`fd, this`ram, this`mode, buffer
      ensures Valid() && fd == descripteur && buffer == old(buffer)
      ensures fd >= 0 ==> buffer[..] == seq(8, i => 0) && ram == seq(16, i => 0) && mode == Mode(true, true, 15)
      ensures fd < 0 ==> buffer[..] == old(buffer[..]) && ram == old(ram) && mode == old(mode)
    {
      fd := descripteur;
      if fd < 0 {
        return;
      }
      EnvoyerCommande(CMD_SYSTEM + 1);
      EnvoyerCommande(CMD_DISPLAY + 1);
      Luminosite(15);
      Effacer();
      assert ram == seq(16, i => 0) by {
        forall r | 0 <= r < 16 ensures ram[r] == 0 {
          assert ram[2 * (r / 2)] == 0 && ram[2 * (r / 2) + 1] == 0;
        }
      }
    }

    method Effacer()
      requires Shaped()
      modifies this`ram, buffer
      ensures Valid() && buffer[..] == seq(8, i => 0) && (fd < 0 ==> ram == old(ram))
    {
      for i := 0 to 8
        invariant Shaped() && ram == old(ram) && forall k :: 0 <= k < i ==> buffer[k] == 0
      {
        buffer[i] := 0;
      }
      assert buffer[..] == seq(8, i => 0);
      MajAffichage();
    }

    /** One digit; its decimal point is kept. Positions and values out of range are ignored. */
    method EcrireChiffre(position: int, valeur: int)
      requires Valid()
      modifies this`ram, buffer
      ensures Valid()
      ensures var ok := 0 <= position < MAX_DIGITS && 0 <= valeur <= 9;
              && (!ok ==> buffer[..] == old(buffer[..]) && ram == old(ram))
              && (ok ==> var p := POSITION_MAP[position];
                         buffer[..] == old(buffer[..])[p := DIGIT_SEGMENTS[valeur] + old(buffer[p]) / 128 * 128])
    {
      if position < 0 || position >= MAX_DIGITS || valeur < 0 || valeur > 9 {
        return;
      }
      var p := POSITION_MAP[position];
      var decimal := if buffer[p] / 128 % 2 == 1 then DECIMAL_BIT else 0;
      buffer[p] := DIGIT_SEGMENTS[valeur] + decimal;
      MajAffichage();
    }

    /** The decimal point of one digit. */
    method Decimal(position: int, actif: bool)
      requires Valid()
      modifies this`ram, buffer
      ensures Valid()
      ensures var ok := 0 <= position < MAX_DIGITS;
              && (!ok ==> buffer[..] == old(buffer[..]) && ram == old(ram))
              && (ok ==> var p := POSITION_MAP[position];
                         buffer[..] == old(buffer[..])[p := old(buffer[p]) % 128 + if actif then 128 else 0])
    {
      if position < 0 || position >= MAX_DIGITS {
        return;
      }
      var p := POSITION_MAP[position];
      if actif {
        if buffer[p] / 128 % 2 == 0 {
          buffer[p] := buffer[p] + DECIMAL_BIT;
        }
      } else {
        if buffer[p] / 128 % 2 == 1 {
          buffer[p] := buffer[p] - DECIMAL_BIT;
        }
      }
      MajAffichage();
    }

    /** The colon, bit 1 of word 2. */
    method DeuxPoints(actif: bool)
      requires Valid()
      modifies this`ram, buffer
      ensures Valid()
      ensures forall i :: 0 <= i < 8 && i != 2 ==> buffer[i] == old(buffer[i])
      ensures (buffer[2] / 2 % 2 == 1 <==> actif)
      ensures buffer[2] % 2 == old(buffer[2]) % 2 && buffer[2] / 4 == old(buffer[2]) / 4
    {
      ColonBit(buffer[2], actif);
      if actif {
        if buffer[2] / 2 % 2 == 0 {
          buffer[2] := buffer[2] + 2;
        }
      } else {
        if buffer[2] / 2 % 2 == 1 {
          buffer[2] := buffer[2] - 2;
        }
      }
      MajAffichage();
    }

    /** One digit of a number, on a cell that is still blank. */
    method EcrireSuivant(position: nat, valeur: nat, ghost a: nat)
      requires Valid() && position < 4 && Partial(Cells(buffer[..]), a, 3 - position)
      requires 3 - position < Length(a) && valeur == Digit(a, 3 - position)
      requires buffer[2] == 0 && buffer[5] == 0 && buffer[6] == 0 && buffer[7] == 0
      modifies this`ram, buffer
      ensures Valid() && Partial(Cells(buffer[..]), a, 4 - position)
      ensures buffer[2] == 0 && buffer[5] == 0 && buffer[6] == 0 && buffer[7] == 0
    {
      hide Partial, Mirrors, Digit, Length;
      ghost var c := Cells(buffer[..]);
      PartialStep(c, a, 3 - position, valeur);
      EcrireChiffre(position, valeur);
      assert Cells(buffer[..]) == c[position := DIGIT_SEGMENTS[valeur]];
    }

    /** The digit 0 at the right of a blank display. */
    method AfficherZero()
      requires Valid() && buffer[..] == seq(8, i => 0)
      modifies this`ram, buffer
      ensures Valid() && ShowsNumber(Cells(buffer[..]), 0)
      ensures buffer[2] == 0 && buffer[5] == 0 && buffer[6] == 0 && buffer[7] == 0
    {
      hide Mirrors;
      EcrireChiffre(MAX_DIGITS - 1, 0);
    }

    /** Shows a number: its low four digits, right-aligned, and a minus just left of them if there is room. */
    method AfficherNombre(nombre: int)
      requires Valid() && IsInt32(nombre) && nombre != -0x8000_0000
      modifies this`ram, buffer
      ensures Valid() && ShowsNumber(Cells(buffer[..]), nombre)
      ensures buffer[2] == 0 && buffer[5] == 0 && buffer[6] == 0 && buffer[7] == 0
    {
      hide Partial, ShowsNumber, Mirrors, Digit, Length, CellFor;
      Effacer();
      if nombre == 0 {
        AfficherZero();
        return;
      }
      var negatif := nombre < 0;
      var reste := if negatif then -nombre else nombre;
      var position := MAX_DIGITS - 1;
      ghost var a := Magnitude(nombre);
      BlankIsPartial(Cells(buffer[..]), a);
      while reste > 0 && position >= 0
        invariant Valid() && -1 <= position <= 3 && reste == Left(a, 3 - position)
        invariant buffer[2] == 0 && buffer[5] == 0 && buffer[6] == 0 && buffer[7] == 0
        invariant Partial(Cells(buffer[..]), a, 3 - position)
      {
        LeftGivesDigit(a, 3 - position);
        EcrireSuivant(position, reste % 10, a);
        reste := reste / 10;
        position := position - 1;
      }
      LeftGivesDigit(a, 3 - position);
      ghost var c := Cells(buffer[..]);
      PartialDone(c, nombre, 3 - position);
      if negatif && position >= 0 {
        buffer[POSITION_MAP[position]] := MINUS;
        assert Cells(buffer[..]) == c[position := MINUS];
        MajAffichage();
      }
    }

    /** Blanks the display, puts the chip on standby and closes the bus. */
    method Cleanup()
      requires Valid()
      modifies this`fd, this`ram, this`mode, buffer
      ensures Valid() && fd < 0 && buffer[..] == seq(8, i => 0)
      ensures old(fd) >= 0 ==> ram == seq(16, i => 0) && mode == old(mode).(running := false, lit := false)
      ensures old(fd) < 0 ==> ram == old(ram) && mode == old(mode)
    {
      Effacer();
      assert fd >= 0 ==> ram == seq(16, i => 0) by {
        forall r | 0 <= r < 16 && fd >= 0 ensures ram[r] == 0 {
          assert ram[2 * (r / 2)] == 0 && ram[2 * (r / 2) + 1] == 0;
        }
      }
      EnvoyerCommande(CMD_SYSTEM);
      EnvoyerCommande(CMD_DISPLAY);
      if fd >= 0 {
        fd := -1;
      }
    }
  }
}
