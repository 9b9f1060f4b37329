/**
  The character display driver (lib/my_lcd.c) with the HD44780U it drives over four data lines.

  The chip reads its data lines at the falling edge of E. In 8-bit mode the four lines that are not connected
  may carry anything. In 4-bit mode two edges make one byte, high half first. With RS low the byte is an
  instruction, with RS high it is data for the memory at the address counter.
*/
module Lcd {

  const ROWS := 2
  const COLS := 16
  const LCD_CLEAR := 1
  const LCD_HOME := 2
  const LCD_ENTRY_INCREMENT := 6
  const LCD_CTRL := 8
  const LCD_SHIFT_RIGHT := 20
  const LCD_FUNC := 32
  const LCD_CGRAM := 64
  const LCD_DGRAM := 128
  const BLANK := 32

  /** Address of the first character of each row. */
  const ROW_OFF := [0, 64, 20, 84]

  datatype Half = NoHalf | High(h: int)

  /**
    The chip: interface width, the half byte read so far, the address counter `ac`, whether it addresses the
    character generator, the data memory, the character generator's own memory of eight patterns of eight
    lines, and the registers set by instructions: whether it counts up, whether the display follows the cursor,
    two lines or one, tall characters, how far the display is shifted, and the control bits.
  */
  datatype Chip = Chip(eightBit: bool, half: Half, ac: int, cg: bool, ddram: seq<int>, cgram: seq<int>,
                       increment: bool, follows: bool,
                       twoLines: bool, tall: bool, shift: int, control: int)

  predicate ChipOk(c: Chip) {
    && 0 <= c.ac < 128 && |c.ddram| == 128 && |c.cgram| == 64
    && (c.half.High? ==> !c.eightBit && 0 <= c.half.h < 16)
  }

  /** The address after `a`, in the two-line arrangement of the memory. */
  function Following(a: int): int {
    if a == 39 then 64 else if a == 103 then 0 else (a + 1) % 128
  }

  function Preceding(a: int): int {
    if a == 64 then 39 else if a == 0 then 103 else (a - 1) % 128
  }

  function Moved(a: int, forward: bool): int {
    if forward then Following(a) else Preceding(a)
  }

  /** Carries out one instruction; the highest set bit says which. */
  function Instruct(c: Chip, b: int): Chip
    requires 0 <= b < 256 && ChipOk(c)
    ensures ChipOk(Instruct(c, b).(half := NoHalf)) && Instruct(c, b).half == c.half
  {
    if b >= 128 then c.(ac := b - 128, cg := false)
    else if b >= 64 then c.(ac := b - 64, cg := true)
    else if b >= 32 then c.(eightBit := b / 16 % 2 == 1, twoLines := b / 8 % 2 == 1, tall := b / 4 % 2 == 1)
    else if b >= 16 then
      if b / 8 % 2 == 1 then c.(shift := c.shift + (if b / 4 % 2 == 1 then 1 else -1))
      else c.(ac := Moved(c.ac, b / 4 % 2 == 1))
    else if b >= 8 then c.(control := b % 8)
    else if b >= 4 then c.(increment := b / 2 % 2 == 1, follows := b % 2 == 1)
    else if b >= 2 then c.(ac := 0, shift := 0, cg := false)
    else if b == 1 then
      c.(ddram := seq(128, i => BLANK), ac := 0, shift := 0, cg := false, increment := true)
    else c
  }

  /** The codes of the data sheet, as far as the driver uses them. */
  lemma InstructionCodes(c: Chip, a: int)
    requires ChipOk(c) && 0 <= a < 128
    ensures Instruct(c, 0x01) == c.(ddram := BlankText() + BlankText() + BlankText() + BlankText(), ac := 0, shift := 0,
                                    cg := false, increment := true)
    ensures Instruct(c, 0x02) == c.(ac := 0, shift := 0, cg := false)
    ensures Instruct(c, 0x06) == c.(increment := true, follows := false)
    ensures Instruct(c, 0x0C) == c.(control := 4) && Instruct(c, 0x0E) == c.(control := 6)
    ensures Instruct(c, 0x14) == c.(ac := Following(c.ac))
    ensures Instruct(c, 0x28) == c.(eightBit := false, twoLines := true, tall := false)
    ensures Instruct(c, 0x38) == c.(eightBit := true, twoLines := true, tall := false)
    ensures a < 64 ==> Instruct(c, 0x40 + a) == c.(ac := a, cg := true)
    ensures Instruct(c, 0x80 + a) == c.(ac := a, cg := false)
  {
  }

  lemma ControlCode(c: Chip, control: int)
    requires ChipOk(c) && 0 <= control < 8
    ensures Instruct(c, LCD_CTRL + control) == c.(control := control)
  {
  }

  /** Takes in one byte of data. */
  function Store(c: Chip, b: int): Chip
    requires ChipOk(c)
    ensures ChipOk(Store(c, b)) && Store(c, b).half == c.half
  {
    if c.cg then
      var a := c.ac % 64;
      c.(cgram := c.cgram[a := b], ac := (if c.increment then a + 1 else a - 1) % 64)
    else
      var d := c.(ddram := c.ddram[c.ac := b], ac := Moved(c.ac, c.increment));
      if c.follows then d.(shift := d.shift + (if c.increment then -1 else 1)) else d
  }

  function Execute(c: Chip, rs: bool, b: int): Chip
    requires 0 <= b < 256 && ChipOk(c) && c.half == NoHalf
    ensures ChipOk(Execute(c, rs, b)) && Execute(c, rs, b).half == NoHalf
  {
    if rs then Store(c, b) else Instruct(c, b)
  }

  /** A falling edge of E with `nibble` on the connected lines and `noise` on the others. */
  function Edge(c: Chip, rs: bool, nibble: int, noise: int): Chip
    requires ChipOk(c) && 0 <= nibble < 16 && 0 <= noise < 16
    ensures ChipOk(Edge(c, rs, nibble, noise))
  {
    if c.eightBit then Execute(c, rs, 16 * nibble + noise)
    else if c.half == NoHalf then c.(half := High(nibble))
    else Execute(c.(half := NoHalf), rs, 16 * c.half.h + nibble)
  }

  // ---------------------------------------------------------------- synchronisation at start-up

  /**
    The nibbles 3, 3, 3, 2 leave the chip in 4-bit mode between two bytes, from whatever state it was in:
    8-bit, 4-bit between bytes, or 4-bit in the middle of a byte with any half pending.
  */
  lemma InitSynchronises(c: Chip, n1: int, n2: int, n3: int, n4: int)
    requires ChipOk(c)
    requires 0 <= n1 < 16 && 0 <= n2 < 16 && 0 <= n3 < 16 && 0 <= n4 < 16
    ensures var d := Edge(Edge(Edge(Edge(c, false, 3, n1), false, 3, n2), false, 3, n3), false, 2, n4);
            !d.eightBit && d.half == NoHalf
  {
    var c1 := Edge(c, false, 3, n1);
    var c2 := Edge(c1, false, 3, n2);
    var c3 := Edge(c2, false, 3, n3);
    assert c3.eightBit && c3.half == NoHalf by {
      if c.eightBit {
        EightBitSet(c, n1);
        EightBitSet(c1, n2);
        EightBitSet(c2, n3);
      } else if c.half == NoHalf {
        assert c2.eightBit;
        EightBitSet(c2, n3);
      } else if c1.eightBit {
        EightBitSet(c1, n2);
        EightBitSet(c2, n3);
      } else {
        assert c2 == c1.(half := High(3));
      }
    }
    assert 32 <= 16 * 2 + n4 < 48;
  }

  lemma EightBitSet(c: Chip, noise: int)
    requires ChipOk(c) && c.eightBit && c.half == NoHalf && 0 <= noise < 16
    ensures Edge(c, false, 3, noise).eightBit && Edge(c, false, 3, noise).half == NoHalf
  {
    assert 48 <= 16 * 3 + noise < 64;
  }

  /** In 4-bit mode between bytes, the two halves of a byte make the chip carry out that byte. */
  lemma TwoEdges(c: Chip, rs: bool, b: int, n1: int, n2: int)
    requires ChipOk(c) && !c.eightBit && c.half == NoHalf && 0 <= b < 256
    requires 0 <= n1 < 16 && 0 <= n2 < 16
    ensures Edge(Edge(c, rs, b / 16, n1), rs, b % 16, n2) == Execute(c, rs, b)
  {
    assert 16 * (b / 16) + b % 16 == b;
    assert c.(half := High(b / 16)).(half := NoHalf) == c;
  }

  // ---------------------------------------------------------------- the text on display

  function BlankText(): (t: seq<int>)
    ensures |t| == 32 && forall i :: 0 <= i < 32 ==> t[i] == BLANK
  {
    seq(32, i => BLANK)
  }

  /** The 32 visible characters, row after row. */
  function View(ddram: seq<int>): (v: seq<int>)
    requires |ddram| == 128
    ensures |v| == 32
  {
    ddram[0..16] + ddram[64..80]
  }

  /** The first row shows addresses 0 to 15, the second 64 to 79. */
  lemma RowsOfView(ddram: seq<int>, c: int)
    requires |ddram| == 128 && 0 <= c < 16
    ensures View(ddram)[c] == ddram[c] && View(ddram)[16 + c] == ddram[64 + c]
  {
  }

  /** `text` written from linear position `pos`, wrapping from the end of the display to its start. */
  function Typed(view: seq<int>, pos: int, text: seq<int>): (v: seq<int>)
    requires |view| == 32 && 0 <= pos < 32
    ensures |v| == 32
    decreases |text|
  {
    if text == [] then view else Typed(view[pos := text[0]], (pos + 1) % 32, text[1..])
  }

  /** The last character of `text`, if any, whose linear position is congruent to k modulo 32. */
  function LastAt(pos: int, text: seq<int>, k: int, otherwise: int): int
    decreases |text|
  {
    if text == [] then otherwise
    else if (pos + |text| - 1) % 32 == k then text[|text| - 1]
    else LastAt(pos, text[..|text| - 1], k, otherwise)
  }

  lemma {:induction false} TypedAppends(view: seq<int>, pos: int, text: seq<int>, c: int)
    requires |view| == 32 && 0 <= pos < 32
    ensures Typed(view, pos, text + [c]) == Typed(view, pos, text)[(pos + |text|) % 32 := c]
    decreases |text|
  {
    if text == [] {
      assert (text + [c])[1..] == [];
    } else {
      assert (text + [c])[1..] == text[1..] + [c];
      TypedAppends(view[pos := text[0]], (pos + 1) % 32, text[1..], c);
      WrapOnce(pos + 1, |text| - 1);
    }
  }

  /** Text that stays within one pass of the display replaces what was there and leaves the rest. */
  lemma {:induction false} TypedInPlace(view: seq<int>, pos: int, text: seq<int>)
    requires |view| == 32 && 0 <= pos < 32 && pos + |text| <= 32
    ensures Typed(view, pos, text) == view[..pos] + text + view[pos + |text|..]
    decreases |text|
  {
    if |text| == 1 {
      assert text[1..] == [];
    } else if text != [] {
      TypedInPlace(view[pos := text[0]], pos + 1, text[1..]);
      assert text == [text[0]] + text[1..];
    }
  }

  lemma WrapOnce(a: int, b: int)
    ensures (a % 32 + b) % 32 == (a + b) % 32
  {
    assert a + b == 32 * (a / 32) + (a % 32 + b);
  }

  lemma TypeOneMore(view: seq<int>, pos: int, text: seq<int>, i: nat)
    requires |view| == 32 && 0 <= pos < 32 && i < |text|
    ensures Typed(view, pos, text[..i + 1]) == Typed(view, pos, text[..i])[(pos + i) % 32 := text[i]]
    ensures ((pos + i) % 32 + 1) % 32 == (pos + (i + 1)) % 32
  {
    assert text[..i + 1] == text[..i] + [text[i]];
    TypedAppends(view, pos, text[..i], text[i]);
    WrapOnce(pos + i, 1);
  }

  /** Every visible cell holds the last character written to a position congruent to it, or what it held. */
  lemma {:induction false} LastWriteIsSeen(view: seq<int>, pos: int, text: seq<int>, k: int)
    requires |view| == 32 && 0 <= pos < 32 && 0 <= k < 32
    ensures Typed(view, pos, text)[k] == LastAt(pos, text, k, view[k])
    decreases |text|
  {
    if text != [] {
      var n := |text| - 1;
      assert text == text[..n] + [text[n]];
      TypedAppends(view, pos, text[..n], text[n]);
      LastWriteIsSeen(view, pos, text[..n], k);
    }
  }

  // ---------------------------------------------------------------- typing from anywhere

  /** The chip and the driver's cursor: all that typing depends on. */
  datatype Pen = Pen(chip: Chip, cx: int, cy: int)

  predicate PenOk(p: Pen) {
    ChipOk(p.chip) && !p.chip.eightBit && p.chip.half == NoHalf && 0 <= p.cx && 0 <= p.cy < 4
  }

  /** The row the cursor goes to from the end of row `cy`. */
  function NextRow(cy: int): int {
    if cy + 1 == ROWS then 0 else cy + 1
  }

  /** There is an address for the row the next character leads to. */
  predicate CanType(p: Pen) {
    PenOk(p) && (p.cx + 1 == COLS ==> NextRow(p.cy) < 4)
  }

  /** After one character: the chip stores it; at the end of a row the cursor is set to the next one. */
  function Wrote(p: Pen, c: int): (q: Pen)
    requires CanType(p) && 0 <= c < 256
    ensures PenOk(q)
  {
    var d := Store(p.chip, c);
    if p.cx + 1 == COLS then Pen(d.(ac := ROW_OFF[NextRow(p.cy)], cg := false), 0, NextRow(p.cy))
    else Pen(d, p.cx + 1, p.cy)
  }

  predicate IsText(text: seq<int>) {
    forall i :: 0 <= i < |text| ==> 0 < text[i] < 256
  }

  predicate CanTypeAll(p: Pen, text: seq<int>)
    requires IsText(text)
    decreases |text|
  {
    text == [] || (CanType(p) && CanTypeAll(Wrote(p, text[0]), text[1..]))
  }

  function WroteAll(p: Pen, text: seq<int>): (q: Pen)
    requires IsText(text) && PenOk(p) && CanTypeAll(p, text)
    ensures PenOk(q)
    decreases |text|
  {
    if text == [] then p else WroteAll(Wrote(p, text[0]), text[1..])
  }

  /** The first i characters can be typed, and then the next. */
  lemma {:induction false} WroteOneMore(p: Pen, text: seq<int>, i: nat)
    requires IsText(text) && PenOk(p) && CanTypeAll(p, text) && i < |text|
    ensures CanTypeAll(p, text[..i]) && CanType(WroteAll(p, text[..i]))
    ensures CanTypeAll(p, text[..i + 1]) && WroteAll(p, text[..i + 1]) == Wrote(WroteAll(p, text[..i]), text[i])
    decreases i
  {
    if i == 0 {
      assert text[..1][1..] == [] && text[..0] == [];
    } else {
      WroteOneMore(Wrote(p, text[0]), text[1..], i - 1);
      assert text[..i][1..] == text[1..][..i - 1] && text[..i + 1][1..] == text[1..][..i];
    }
  }

  lemma NothingYet(p: Pen)
    requires PenOk(p)
    ensures CanTypeAll(p, []) && WroteAll(p, []) == p
  {
  }

  /** Typing changes neither the chip's modes nor the way it counts. */
  lemma {:induction false} WroteAllKeepsMode(p: Pen, text: seq<int>)
    requires IsText(text) && PenOk(p) && CanTypeAll(p, text) && !p.chip.follows
    ensures var d := WroteAll(p, text).chip;
            d == p.chip.(ac := d.ac, cg := d.cg, ddram := d.ddram, cgram := d.cgram)
    decreases |text|
  {
    if text != [] { WroteAllKeepsMode(Wrote(p, text[0]), text[1..]); }
  }

  /** The pen is at a visible cell, counting up: from there the display is a terminal of 32 cells. */
  predicate Visible(p: Pen) {
    && PenOk(p) && p.chip.increment && !p.chip.follows && !p.chip.cg
    && p.cx < COLS && p.cy < ROWS && p.chip.ac == ROW_OFF[p.cy] + p.cx
  }

  function Linear(p: Pen): int {
    COLS * p.cy + p.cx
  }

  lemma WroteVisible(p: Pen, c: int)
    requires Visible(p) && 0 <= c < 256
    ensures CanType(p) && Visible(Wrote(p, c)) && Linear(Wrote(p, c)) == (Linear(p) + 1) % 32
    ensures View(Wrote(p, c).chip.ddram) == View(p.chip.ddram)[Linear(p) := c]
  {
  }

  /** A string of any length from a visible cell is typed with wrap-around. */
  lemma {:induction false} WroteAllVisible(p: Pen, text: seq<int>)
    requires Visible(p) && IsText(text)
    ensures CanTypeAll(p, text) && Visible(WroteAll(p, text))
    ensures View(WroteAll(p, text).chip.ddram) == Typed(View(p.chip.ddram), Linear(p), text)
    ensures Linear(WroteAll(p, text)) == (Linear(p) + |text|) % 32
    decreases |text|
  {
    if text != [] {
      WroteVisible(p, text[0]);
      WroteAllVisible(Wrote(p, text[0]), text[1..]);
      WrapOnce(Linear(p) + 1, |text| - 1);
    }
  }

  /** Column 16, which the driver lets through: the cursor is past the end of its row, and never wraps. */
  predicate PastTheEnd(p: Pen) {
    && PenOk(p) && p.chip.increment && !p.chip.cg
    && COLS <= p.cx < 40 && p.cy < ROWS && p.chip.ac == ROW_OFF[p.cy] + p.cx
  }

  /** From there the characters go to memory that is not shown, up to the fortieth of the row. */
  lemma {:induction false} PastTheEndIsNotShown(p: Pen, text: seq<int>)
    requires PastTheEnd(p) && IsText(text) && p.cx + |text| <= 40
    ensures CanTypeAll(p, text) && View(WroteAll(p, text).chip.ddram) == View(p.chip.ddram)
    decreases |text|
  {
    if text != [] {
      var q := Wrote(p, text[0]);
      assert View(q.chip.ddram) == View(p.chip.ddram);
      if |text| > 1 {
        PastTheEndIsNotShown(q, text[1..]);
      } else {
        assert text[1..] == [];
      }
    }
  }

  /** The character after that comes out at the start of the other row. */
  lemma ThenTheOtherRow(p: Pen, c: int)
    requires PenOk(p) && p.chip.increment && !p.chip.cg && 0 <= c < 256
    requires p.cx == 39 && p.cy < ROWS && p.chip.ac == ROW_OFF[p.cy] + 39
    ensures Wrote(p, c).chip.ac == ROW_OFF[1 - p.cy]
  {
  }

  /** Row 2, which the driver lets through as well, and row 3, to which it leads: not shown either. */
  predicate Below(p: Pen) {
    && PenOk(p) && p.chip.increment && !p.chip.cg
    && p.cx < COLS && ROWS <= p.cy && p.chip.ac == ROW_OFF[p.cy] + p.cx
  }

  /** How many characters there is an address for, from a cell below the display. */
  function RoomBelow(p: Pen): int {
    (3 - p.cy) * COLS + (COLS - 1 - p.cx)
  }

  lemma {:induction false} BelowIsNotShown(p: Pen, text: seq<int>)
    requires Below(p) && IsText(text)
    ensures CanTypeAll(p, text) <==> |text| <= RoomBelow(p)
    ensures CanTypeAll(p, text) ==> View(WroteAll(p, text).chip.ddram) == View(p.chip.ddram)
    decreases |text|
  {
    if text != [] && CanType(p) {
      var q := Wrote(p, text[0]);
      assert View(q.chip.ddram) == View(p.chip.ddram);
      BelowIsNotShown(q, text[1..]);
    }
  }

  lemma EdgesAreNotShown(p: Pen, x: int, y: int, text: seq<int>)
    requires PenOk(p) && IsText(text) && p.chip.increment
    requires 0 <= x <= COLS && 0 <= y <= ROWS ==> !p.chip.cg && p.cx == x && p.cy == y && p.chip.ac == ROW_OFF[y] + x
    ensures x == COLS && 0 <= y < ROWS && |text| <= 24 ==>
              CanTypeAll(p, text) && View(WroteAll(p, text).chip.ddram) == View(p.chip.ddram)
    ensures 0 <= x < COLS && y == ROWS ==> (CanTypeAll(p, text) <==> |text| <= 31 - x)
    ensures 0 <= x < COLS && y == ROWS && |text| <= 31 - x ==>
              View(WroteAll(p, text).chip.ddram) == View(p.chip.ddram)
  {
    if x == COLS && 0 <= y < ROWS && |text| <= 24 { PastTheEndIsNotShown(p, text); }
    if 0 <= x < COLS && y == ROWS { BelowIsNotShown(p, text); }
  }

  /** What a caller asks of the display. */
  datatype Op = Move(x: int, y: int) | Clear | Home | Write(text: seq<int>)

  /** Moves go to a visible cell or are ignored; the two edges the driver lets through are left out. */
  predicate OpOk(op: Op) {
    match op
    case Move(x, y) => (0 <= x < COLS && 0 <= y < ROWS) || x < 0 || x > COLS || y < 0 || y > ROWS
    case Write(text) => IsText(text)
    case _ => true
  }

  /** A terminal of 32 cells that wraps around: its text and its position after one call. */
  function AfterOp(view: seq<int>, pos: int, op: Op): (r: (seq<int>, int))
    requires |view| == 32 && 0 <= pos < 32
    ensures |r.0| == 32 && 0 <= r.1 < 32
  {
    match op
    case Move(x, y) => (view, if 0 <= x < COLS && 0 <= y < ROWS then COLS * y + x else pos)
    case Clear => (BlankText(), 0)
    case Home => (view, 0)
    case Write(text) => (Typed(view, pos, text), (pos + |text|) % 32)
  }

  /** The same after `ops`. */
  function Terminal(view: seq<int>, pos: int, ops: seq<Op>): (r: (seq<int>, int))
    requires |view| == 32 && 0 <= pos < 32
    ensures |r.0| == 32 && 0 <= r.1 < 32
    decreases |ops|
  {
    if ops == [] then (view, pos)
    else
      var r := AfterOp(view, pos, ops[0]);
      Terminal(r.0, r.1, ops[1..])
  }

  function Nibble(d: seq<bool>): (n: int)
    requires |d| == 4
    ensures 0 <= n < 16
  {
    (if d[0] then 1 else 0) + (if d[1] then 2 else 0) + (if d[2] then 4 else 0) + (if d[3] then 8 else 0)
  }

  /** v after i passes of the loop that halves it. */
  function Halved(v: int, i: nat): int {
    if i == 0 then v else Halved(v, i - 1) / 2
  }

  lemma NibbleRoundTrip(d: seq<bool>, v: int)
    requires |d| == 4 && 0 <= v < 16 && forall k :: 0 <= k < 4 ==> d[k] == (Halved(v, k) % 2 == 1)
    ensures Nibble(d) == v
  {
    assert Halved(v, 0) == v && Halved(v, 1) == v / 2 && Halved(v, 2) == v / 2 / 2 && Halved(v, 3) == v / 2 / 2 / 2;
  }

  /** Whether a control bit is on. */
  predicate Has(control: int, bit: int) {
    if bit == 1 then control % 2 == 1 else if bit == 2 then control / 2 % 2 == 1 else control / 4 % 2 == 1
  }

  lemma BitTurned(control: int, bit: int, on: bool)
    requires 0 <= control < 8 && bit in {1, 2, 4}
    ensures var v := if on == Has(control, bit) then control else if on then control + bit else control - bit;
            && 0 <= v < 8 && (Has(v, bit) <==> on)
            && forall b :: b in {1, 2, 4} && b != bit ==> Has(v, b) == Has(control, b)
  {
    assert control in {0, 1, 2, 3, 4, 5, 6, 7};
  }

  class Display {
    /** The pins: register select, strobe E, and the four connected data lines, lowest first. */
    var rs: bool
    var strobe: bool
    var data: seq<bool>
    var chip: Chip
    /** The driver's own record of the cursor, and of the control bits. */
    var cx: int
    var cy: int
    var lcdControl: int

    ghost predicate Wired()
      reads this
    {
      |data| == 4 && ChipOk(chip) && 0 <= lcdControl < 8
    }

    /** The chip is in 4-bit, two-line mode between bytes. */
    ghost predicate Linked()
      reads this
    {
      Wired() && !strobe && !chip.eightBit && chip.half == NoHalf && chip.twoLines && !chip.tall
      && chip.control == lcdControl
    }

    /** Besides, it counts up and shows the memory unshifted. */
    ghost predicate Ready()
      reads this
    {
      Linked() && chip.increment && !chip.follows && chip.shift == 0
    }

    /** The driver's cursor is on the display and is the chip's address. */
    ghost predicate Synced()
      reads this
    {
      Ready() && Visible(ThePen())
    }

    ghost function Text(): seq<int>
      reads this
      requires Wired()
    {
      View(chip.ddram)
    }

    ghost function ThePen(): Pen
      reads this
    {
      Pen(chip, cx, cy)
    }

    ghost function Position(): int
      reads this
    {
      Linear(ThePen())
    }

    // ------------------------------------------------------------ pins

    /** E up and down: the chip takes one nibble. */
    method Strobe() returns (ghost noise: int)
      requires Wired()
      modifies this`strobe, this`chip
      ensures Wired() && !strobe
      ensures 0 <= noise < 16 && chip == Edge(old(chip), rs, Nibble(data), noise)
    {
      strobe := true;
      var free: int :| 0 <= free < 16;
      chip := Edge(chip, rs, Nibble(data), free);
      noise := free;
      strobe := false;
    }

    /** The loop that puts a nibble on the data lines, lowest bit first. */
    method PutNibble(v: int)
      requires Wired() && 0 <= v < 16
      modifies this`data
      ensures Wired() && Nibble(data) == v
    {
      var d4 := v;
      for i := 0 to 4
        invariant |data| == 4 && d4 == Halved(v, i)
        invariant forall k :: 0 <= k < i ==> data[k] == (Halved(v, k) % 2 == 1)
      {
        data := data[i := d4 % 2 == 1];
        d4 := d4 / 2;
      }
      NibbleRoundTrip(data, v);
    }

    /** One byte in two nibbles, high half first. */
    method SendDataCmd(b: int)
      requires Wired() && !chip.eightBit && chip.half == NoHalf && 0 <= b < 256
      modifies this`data, this`strobe, this`chip
      ensures Wired() && !strobe && chip == Execute(old(chip), rs, b)
    {
      PutNibble(b / 16);
      ghost var n1 := Strobe();
      PutNibble(b % 16);
      ghost var n2 := Strobe();
      TwoEdges(old(chip), rs, b, n1, n2);
    }

    method PutCommand(command: int)
      requires Wired() && !chip.eightBit && chip.half == NoHalf && 0 <= command < 256
      modifies this`rs, this`data, this`strobe, this`chip
      ensures Wired() && !strobe && chip == Execute(old(chip), false, command)
    {
      rs := false;
      SendDataCmd(command);
    }

    /** A single nibble, used before the interface width is known. */
    method Put4Command(command: int) returns (ghost noise: int)
      requires Wired() && 0 <= command < 16
      modifies this`rs, this`data, this`strobe, this`chip
      ensures Wired() && !strobe
      ensures 0 <= noise < 16 && chip == Edge(old(chip), false, command, noise)
    {
      rs := false;
      PutNibble(command);
      noise := Strobe();
    }

    // ------------------------------------------------------------ public functions

    method Origine()
      requires Ready()
      modifies this`rs, this`data, this`strobe, this`chip, this`cx, this`cy
      ensures Synced() && Position() == 0 && Text() == old(Text())
    {
      PutCommand(LCD_HOME);
      cx, cy := 0, 0;
    }

    /** Clears the display; this also brings the chip back to counting up, unshifted. */
    method Effacer()
      requires Linked()
      modifies this`rs, this`data, this`strobe, this`chip, this`cx, this`cy
      ensures Linked() && Position() == 0 && Text() == BlankText()
      ensures chip.increment && chip.shift == 0 && !chip.cg && chip.ac == 0 && chip.follows == old(chip.follows)
      ensures cx == 0 && cy == 0
      ensures !old(chip.follows) ==> Synced()
    {
      PutCommand(LCD_CLEAR);
      PutCommand(LCD_HOME);
      cx, cy := 0, 0;
    }

    /** Turns one control bit (1, 2 or 4) on or off. */
    method SetControl(bit: int, on: bool)
      requires Wired() && !chip.eightBit && chip.half == NoHalf && bit in {1, 2, 4}
      modifies this`lcdControl, this`rs, this`data, this`strobe, this`chip
      ensures Wired() && !strobe && (Has(lcdControl, bit) <==> on)
      ensures forall b :: b in {1, 2, 4} && b != bit ==> Has(lcdControl, b) == Has(old(lcdControl), b)
      ensures chip == old(chip).(control := lcdControl)
    {
      hide Has, Instruct;
      BitTurned(lcdControl, bit, on);
      if on && !Has(lcdControl, bit) {
        lcdControl := lcdControl + bit;
      } else if !on && Has(lcdControl, bit) {
        lcdControl := lcdControl - bit;
      }
      ControlCode(chip, lcdControl);
      PutCommand(LCD_CTRL + lcdControl);
    }

    /**
      Moves the cursor. Calls outside 0..16 by 0..2 are ignored; the others are sent to the chip. The record
      agrees with a visible cell afterwards exactly when the call was ignored or strictly inside.
    */
    method PositionTo(x: int, y: int)
      requires Ready()
      modifies this`rs, this`data, this`strobe, this`chip, this`cx, this`cy
      ensures Ready() && Text() == old(Text())
      ensures var taken := 0 <= x <= COLS && 0 <= y <= ROWS;
              && (taken ==> ThePen() == Pen(old(chip).(ac := ROW_OFF[y] + x, cg := false), x, y))
              && (!taken ==> cx == old(cx) && cy == old(cy) && chip == old(chip))
              && (old(Synced()) ==> (Synced() <==> !taken || (x < COLS && y < ROWS)))
              && (taken && x < COLS && y < ROWS ==> Synced() && Position() == COLS * y + x)
    {
      if x > COLS || x < 0 {
        return;
      }
      if y > ROWS || y < 0 {
        return;
      }
      PutCommand(x + (LCD_DGRAM + ROW_OFF[y]));
      cx := x;
      cy := y;
    }

    /**
      Stores a pattern of eight lines. The visible text stays, but the chip is left in the character
      generator: its address counter no longer follows the cursor.
    */
    method DefCaractere(index: int, motif: seq<int>)
      requires Ready() && |motif| == 8 && forall i :: 0 <= i < 8 ==> 0 <= motif[i] < 256
      modifies this`rs, this`data, this`strobe, this`chip, this`cx, this`cy
      ensures Ready() && !Synced() && chip.cg && chip.ddram == old(chip.ddram) && Text() == old(Text())
      ensures forall k :: 0 <= k < 64 ==>
                chip.cgram[k] == if k / 8 == index % 8 then motif[k % 8] else old(chip.cgram)[k]
    {
      var base := index % 8 * 8;
      PutCommand(LCD_CGRAM + base);
      rs := true;
      for i := 0 to 8
        invariant Ready() && chip.cg && chip.ddram == old(chip.ddram) && rs
        invariant chip.ac == (base + i) % 64
        invariant forall k :: 0 <= k < 64 ==>
                    chip.cgram[k] == if base <= k < base + i then motif[k - base] else old(chip.cgram)[k]
      {
        SendDataCmd(motif[i]);
      }
    }

    /** One character where the chip is, be it on the display or not; at a visible cell the cursor wraps around. */
    method Caractere(c: int)
      requires CanType(ThePen()) && 0 <= lcdControl < 8 && |data| == 4 && 0 <= c < 256
      modifies this`rs, this`data, this`strobe, this`chip, this`cx, this`cy
      ensures Wired() && !strobe && ThePen() == Wrote(old(ThePen()), c)
      ensures old(Synced()) ==> Synced() && Text() == old(Text())[old(Position()) := c]
      ensures old(Synced()) ==> Position() == (old(Position()) + 1) % 32
    {
      ghost var p := ThePen();
      if Synced() { WroteVisible(p, c); }
      rs := true;
      SendDataCmd(c);
      cx := cx + 1;
      if cx == COLS {
        cx := 0;
        cy := cy + 1;
        if cy == ROWS {
          cy := 0;
        }
        PutCommand(cx + (LCD_DGRAM + ROW_OFF[cy]));
      }
    }

    /** A string of any length, from anywhere there are addresses for it. */
    method Chaine(texte: seq<int>)
      requires PenOk(ThePen()) && 0 <= lcdControl < 8 && |data| == 4 && IsText(texte)
      requires Synced() || CanTypeAll(ThePen(), texte)
      modifies this`rs, this`data, this`strobe, this`chip, this`cx, this`cy
      ensures Wired() && (texte != [] ==> !strobe) && (texte == [] ==> strobe == old(strobe))
      ensures CanTypeAll(old(ThePen()), texte) && ThePen() == WroteAll(old(ThePen()), texte)
      ensures old(Synced()) ==> Synced() && Text() == Typed(old(Text()), old(Position()), texte)
      ensures old(Synced()) ==> Position() == (old(Position()) + |texte|) % 32
    {
      hide WroteAll, CanTypeAll, Visible, View, Typed, ChipOk;
      ghost var p := ThePen();
      if Synced() { WroteAllVisible(p, texte); }
      NothingYet(p);
      var i := 0;
      while i < |texte|
        invariant 0 <= i <= |texte| && Wired() && PenOk(ThePen())
        invariant CanTypeAll(p, texte[..i]) && ThePen() == WroteAll(p, texte[..i])
        invariant if i == 0 then strobe == old(strobe) else !strobe
      {
        WroteOneMore(p, texte, i);
        Caractere(texte[i]);
        i := i + 1;
      }
      assert texte[..i] == texte;
      if !p.chip.follows { WroteAllKeepsMode(p, texte); }
    }

    /** Where a message begins: at the cell asked for, or where the cursor is if the move is ignored. */
    ghost function Start(colonne: int, ligne: int): Pen
      reads this
    {
      if 0 <= colonne <= COLS && 0 <= ligne <= ROWS
      then Pen(chip.(ac := ROW_OFF[ligne] + colonne, cg := false), colonne, ligne)
      else ThePen()
    }

    /**
      A string from a given cell; a move out of range is ignored, and the string goes on from the cursor. From
      a visible cell it is typed with wrap-around. From the two edges the move lets through, column 16 and row 2,
      it goes to memory that is not shown: up to 24 characters from the one, all there are addresses for from
      the other.
    */
    method Ecrire(colonne: int, ligne: int, message: seq<int>)
      requires Ready() && PenOk(Start(colonne, ligne)) && IsText(message)
      requires Visible(Start(colonne, ligne)) || CanTypeAll(Start(colonne, ligne), message)
      modifies this`rs, this`data, this`strobe, this`chip, this`cx, this`cy
      ensures CanTypeAll(old(Start(colonne, ligne)), message)
      ensures Ready() && ThePen() == WroteAll(old(Start(colonne, ligne)), message)
      ensures old(Visible(Start(colonne, ligne))) ==>
                && Synced() && Text() == Typed(old(Text()), old(Linear(Start(colonne, ligne))), message)
                && Position() == (old(Linear(Start(colonne, ligne))) + |message|) % 32
      ensures colonne == COLS && 0 <= ligne < ROWS && |message| <= 24 ==> Text() == old(Text())
      ensures 0 <= colonne < COLS && ligne == ROWS ==> Text() == old(Text())
    {
      ghost var p := Start(colonne, ligne);
      EdgesAreNotShown(p, colonne, ligne, message);
      hide WroteAll, CanTypeAll, Visible, View, Typed;
      PositionTo(colonne, ligne);
      assert ThePen() == p;
      Chaine(message);
      WroteAllKeepsMode(p, message);
    }

    /** The two rows of a message on a blank display. */
    method DeuxLignes(haut: seq<int>, bas: seq<int>)
      requires Ready() && IsText(haut) && IsText(bas)
      modifies this`rs, this`data, this`strobe, this`chip, this`cx, this`cy
      ensures Synced() && Text() == Typed(Typed(BlankText(), 0, haut), COLS, bas)
    {
      hide View, Typed, WroteAll, CanTypeAll, Store;
      Effacer();
      Ecrire(0, 0, haut);
      Ecrire(0, 1, bas);
    }

    /** One call. */
    method Run(op: Op)
      requires Synced() && OpOk(op)
      modifies this`rs, this`data, this`strobe, this`chip, this`cx, this`cy
      ensures Synced() && (Text(), Position()) == AfterOp(old(Text()), old(Position()), op)
    {
      match op {
        case Move(x, y) => PositionTo(x, y);
        case Clear => Effacer();
        case Home => Origine();
        case Write(text) => Chaine(text);
      }
    }

    /** Any sequence of calls: the driver and the chip together are the wrap-around terminal. */
    method RunAll(ops: seq<Op>)
      requires Synced() && forall i :: 0 <= i < |ops| ==> OpOk(ops[i])
      modifies this`rs, this`data, this`strobe, this`chip, this`cx, this`cy
      ensures Synced() && (Text(), Position()) == Terminal(old(Text()), old(Position()), ops)
    {
      hide AfterOp, OpOk, View;
      var i := 0;
      assert ops[i..] == ops;
      while i < |ops|
        invariant 0 <= i <= |ops| && Synced()
        invariant Terminal(Text(), Position(), ops[i..]) == Terminal(old(Text()), old(Position()), ops)
      {
        assert ops[i..][0] == ops[i] && ops[i..][1..] == ops[i + 1..];
        Run(ops[i]);
        i := i + 1;
      }
    }

    /**
      lcd_init, from any state of chip and pins: the chip is ready and blank. Its last command shifts the
      cursor, so the chip is then one cell ahead of the driver's record, until the next move or clear.
    */
    method Init()
      requires Wired()
      modifies this
      ensures Ready() && Text() == BlankText()
      ensures lcdControl == 4
      ensures cx == 0 && cy == 0 && chip.ac == 1 && !Synced()
    {
      cx, cy := 0, 0;
      rs, strobe := false, false;
      data := [false, false, false, false];
      Handshake();
      PutCommand(LCD_FUNC + 8);
      ShowOnly();
      Effacer();
      PutCommand(LCD_ENTRY_INCREMENT);
      PutCommand(LCD_SHIFT_RIGHT);
    }

    /** Display on, cursor off, blinking off. */
    method ShowOnly()
      requires Wired() && !chip.eightBit && chip.half == NoHalf && chip.twoLines && !chip.tall
      modifies this`lcdControl, this`rs, this`data, this`strobe, this`chip
      ensures Linked() && lcdControl == 4
    {
      SetControl(4, true);
      SetControl(2, false);
      SetControl(1, false);
    }

    /** The four nibbles of the start-up sequence. */
    method Handshake()
      requires Wired()
      modifies this`rs, this`data, this`strobe, this`chip
      ensures Wired() && !strobe && !chip.eightBit && chip.half == NoHalf
    {
      ghost var c := chip;
      ghost var n1 := Put4Command((LCD_FUNC + 16) / 16);
      ghost var n2 := Put4Command((LCD_FUNC + 16) / 16);
      ghost var n3 := Put4Command((LCD_FUNC + 16) / 16);
      ghost var n4 := Put4Command(LCD_FUNC / 16);
      InitSynchronises(c, n1, n2, n3, n4);
    }
  }
}
