/**
  The LED matrix driver (lib/my_matrice_led.c) with the MAX7219 it talks to.

  The chip shifts MOSI into a 16-bit register at each rising edge of SCLK and, at a rising edge of the load
  pin, writes the low byte of that register to the register named by bits 8 to 11 (0 is "no operation").
  C's two's complement integers and `%`, `/` by a power of two here read the same bits.
*/
module LedMatrix {

  const REG_DIGIT0 := 1
  const REG_DECODE_MODE := 9
  const REG_INTENSITY := 10
  const REG_SCAN_LIMIT := 11
  const REG_SHUTDOWN := 12
  const REG_DISPLAY_TEST := 15

  datatype Pin = Mosi | Sclk | Load

  /** Eight passes of the shift loop: bit 7 of `d` goes in first. */
  function ShiftIn(shift: int, d: int, n: nat): int
    decreases n
  {
    if n == 0 then shift else ShiftIn((2 * shift + d / 128 % 2) % 65536, 2 * d, n - 1)
  }

  lemma TwoBits(shift: int, d: int, n: nat)
    requires n >= 2
    ensures ShiftIn(shift, d, n) == ShiftIn((4 * shift + d / 64 % 4) % 65536, 4 * d, n - 2)
  {
    var s := (2 * shift + d / 128 % 2) % 65536;
    assert ShiftIn(shift, d, n) == ShiftIn((2 * s + 2 * d / 128 % 2) % 65536, 4 * d, n - 2);
    BitPair(d);
    ModTwice(shift, d / 128 % 2, d / 64 % 2);
  }

  lemma BitPair(d: int)
    ensures 2 * d / 128 == d / 64
    ensures d / 64 % 4 == 2 * (d / 128 % 2) + d / 64 % 2
  {
  }

  lemma ModTwice(s: int, b: int, c: int)
    ensures (2 * ((2 * s + b) % 65536) + c) % 65536 == (4 * s + 2 * b + c) % 65536
  {
  }

  lemma FourBits(shift: int, d: int, n: nat)
    requires n >= 4
    ensures ShiftIn(shift, d, n) == ShiftIn((16 * shift + d / 16 % 16) % 65536, 16 * d, n - 4)
  {
    hide ShiftIn;
    TwoBits(shift, d, n);
    TwoBits((4 * shift + d / 64 % 4) % 65536, 4 * d, n - 2);
    FourBitsSum(shift, d);
  }

  lemma FourBitsSum(shift: int, d: int)
    ensures (4 * ((4 * shift + d / 64 % 4) % 65536) + 4 * d / 64 % 4) % 65536 == (16 * shift + d / 16 % 16) % 65536
    ensures 4 * (4 * d) == 16 * d
  {
    NibbleParts(d);
    ModScaled(4 * shift + d / 64 % 4, d / 16 % 4, 4);
  }

  lemma NibbleParts(d: int)
    ensures 4 * d / 64 == d / 16
    ensures d / 16 % 16 == 4 * (d / 64 % 4) + d / 16 % 4
  {
    var e := d / 16;
    assert d / 64 == e / 4;
    assert e % 16 == 4 * (e / 4 % 4) + e % 4;
  }

  lemma ByteParts(d: int)
    ensures 16 * d / 16 == d
    ensures d % 256 == 16 * (d / 16 % 16) + d % 16
  {
  }

  lemma ModScaled(a: int, b: int, k: int)
    requires k == 4 || k == 16
    ensures (k * (a % 65536) + b) % 65536 == (k * a + b) % 65536
  {
    var q := a / 65536;
    assert a == 65536 * q + a % 65536;
    if k == 4 { assert 4 * a + b == 65536 * (4 * q) + (4 * (a % 65536) + b); }
    else { assert 16 * a + b == 65536 * (16 * q) + (16 * (a % 65536) + b); }
  }

  /** The loop appends the low byte of its argument to the shift register, whatever was in there. */
  lemma ShiftInAppendsByte(shift: int, d: int)
    ensures ShiftIn(shift, d, 8) == (256 * shift + d % 256) % 65536
  {
    hide ShiftIn;
    FourBits(shift, d, 8);
    FourBits((16 * shift + d / 16 % 16) % 65536, 16 * d, 4);
    ByteParts(d);
    ShiftInNothing((16 * ((16 * shift + d / 16 % 16) % 65536) + d % 16) % 65536, 256 * d);
    ModScaled(16 * shift + d / 16 % 16, d % 16, 16);
  }

  lemma ShiftInNothing(shift: int, d: int)
    ensures ShiftIn(shift, d, 0) == shift
  {
  }

  /** The register file after a write of (address, data) reaches the load edge. */
  function Written(regs: seq<int>, address: int, data: int): (r: seq<int>)
    requires |regs| == 16
    ensures |r| == 16
  {
    if address % 16 == 0 then regs else regs[address % 16 := data % 256]
  }

  class Max7219 {
    var mosi: bool
    var sclk: bool
    var load: bool
    var shift: int
    /** Registers 0 to 15; register 0 is never written. */
    var regs: seq<int>
    /** Rising edges seen on SCLK and on the load pin. */
    ghost var clocks: nat
    ghost var latches: nat

    ghost predicate Valid()
      reads this
    {
      0 <= shift < 65536 && |regs| == 16
    }

    /** digitalWrite() on one of the three pins, and what the chip does about it. */
    method DigitalWrite(pin: Pin, high: bool)
      requires Valid()
      modifies this
      ensures Valid()
      ensures pin.Mosi? ==> mosi == high && sclk == old(sclk) && load == old(load)
      ensures pin.Sclk? ==> sclk == high && mosi == old(mosi) && load == old(load)
      ensures pin.Load? ==> load == high && mosi == old(mosi) && sclk == old(sclk)
      ensures var rises := pin.Sclk? && high && !old(sclk);
              && clocks == old(clocks) + (if rises then 1 else 0)
              && shift == if rises then (2 * old(shift) + if old(mosi) then 1 else 0) % 65536 else old(shift)
      ensures var rises := pin.Load? && high && !old(load);
              && latches == old(latches) + (if rises then 1 else 0)
              && regs == if rises then Written(old(regs), old(shift) / 256, old(shift)) else old(regs)
    {
      match pin {
        case Mosi => mosi := high;
        case Sclk =>
          if high && !sclk {
            shift := (2 * shift + if mosi then 1 else 0) % 65536;
            clocks := clocks + 1;
          }
          sclk := high;
        case Load =>
          if high && !load {
            regs := Written(regs, shift / 256, shift);
            latches := latches + 1;
          }
          load := high;
      }
    }

    /** bit_write: eight clocked bits, most significant first. */
    method BitWrite(donnee: int)
      requires Valid()
      modifies this
      ensures Valid() && load == old(load) && regs == old(regs) && latches == old(latches)
      ensures clocks == old(clocks) + 8
      ensures shift == (256 * old(shift) + donnee % 256) % 65536
    {
      var d := donnee;
      ShiftInAppendsByte(shift, donnee);
      for i := 0 to 8
        invariant Valid() && load == old(load) && regs == old(regs) && latches == old(latches)
        invariant clocks == old(clocks) + i
        invariant ShiftIn(shift, d, 8 - i) == ShiftIn(old(shift), donnee, 8)
      {
        DigitalWrite(Sclk, false);
        DigitalWrite(Mosi, d / 128 % 2 == 1);
        d := 2 * d;
        DigitalWrite(Sclk, true);
      }
    }

    /**
      One command. From any pin levels and any contents of the shift register: sixteen clock edges, one load
      edge, and exactly the addressed register changes.
    */
    method EnvoyerCmd(adresse: int, donnee: int)
      requires Valid()
      modifies this
      ensures Valid() && load && clocks == old(clocks) + 16 && latches == old(latches) + 1
      ensures regs == Written(old(regs), adresse, donnee)
    {
      DigitalWrite(Load, false);
      BitWrite(adresse);
      BitWrite(donnee);
      CommandBytes(old(shift), adresse, donnee);
      DigitalWrite(Load, true);
    }

    /** Writes one line; lines from 8 on are ignored. */
    method EcrireLigne(ligne: int, motif: int)
      requires Valid()
      modifies this
      ensures Valid()
      ensures regs == if ligne < 8 then Written(old(regs), REG_DIGIT0 + ligne, motif) else old(regs)
      ensures latches == old(latches) + if ligne < 8 then 1 else 0
    {
      if ligne < 8 {
        EnvoyerCmd(REG_DIGIT0 + ligne, motif);
      }
    }

    /** Writes all eight lines: digit registers 1 to 8 hold the pattern, every other register is unchanged. */
    method AfficherMotif(motif: seq<int>)
      requires Valid() && |motif| == 8
      modifies this
      ensures Valid() && latches == old(latches) + 8
      ensures Shows(regs, motif)
      ensures forall r :: 0 <= r < 16 && !(1 <= r <= 8) ==> regs[r] == old(regs)[r]
    {
      for i := 0 to 8
        invariant Valid() && latches == old(latches) + i
        invariant forall k :: 0 <= k < i ==> regs[k + 1] == motif[k] % 256
        invariant forall r :: 0 <= r < 16 && !(1 <= r <= i) ==> regs[r] == old(regs)[r]
      {
        EcrireLigne(i, motif[i]);
      }
    }

    /** Blanks the matrix. */
    method Effacer()
      requires Valid()
      modifies this
      ensures Valid() && Shows(regs, seq(8, i => 0))
      ensures forall r :: 0 <= r < 16 && !(1 <= r <= 8) ==> regs[r] == old(regs)[r]
    {
      AfficherMotif(seq(8, i => 0));
    }

    /** Sets the brightness; values above 15 count as 15. */
    method Luminosite(intensite: int)
      requires Valid()
      modifies this
      ensures Valid()
      ensures regs == old(regs)[REG_INTENSITY := (if intensite > 15 then 15 else intensite) % 256]
    {
      var v := intensite;
      if v > 15 {
        v := 15;
      }
      EnvoyerCmd(REG_INTENSITY, v);
    }

    /** The set-up sequence: normal operation, no decoding, all digits, full brightness, no test, blank. */
    method Init()
      requires Valid()
      modifies this
      ensures Valid() && Shows(regs, seq(8, i => 0))
      ensures SetUp(regs)
    {
      EnvoyerCmd(REG_SHUTDOWN, 1);
      EnvoyerCmd(REG_DECODE_MODE, 0);
      EnvoyerCmd(REG_SCAN_LIMIT, 7);
      EnvoyerCmd(REG_INTENSITY, 15);
      EnvoyerCmd(REG_DISPLAY_TEST, 0);
      Effacer();
    }
  }

  /** The two bytes of a command, whatever the shift register held. */
  lemma CommandBytes(shift: int, adresse: int, donnee: int)
    ensures var s := (256 * ((256 * shift + adresse % 256) % 65536) + donnee % 256) % 65536;
            s / 256 == adresse % 256 && s % 256 == donnee % 256
    ensures adresse % 256 % 16 == adresse % 16 && donnee % 256 % 256 == donnee % 256
  {
    LowBytes(shift, adresse % 256, donnee % 256);
    LowNibble(adresse);
    var a, d := adresse % 256, donnee % 256;
    assert (256 * a + d) / 256 == a && (256 * a + d) % 256 == d;
  }

  lemma LowNibble(v: int)
    ensures v % 256 % 16 == v % 16
  {
    assert v == 16 * (16 * (v / 256) + v % 256 / 16) + v % 256 % 16;
  }

  lemma LowBytes(shift: int, a: int, d: int)
    requires 0 <= a < 256 && 0 <= d < 256
    ensures (256 * ((256 * shift + a) % 65536) + d) % 65536 == 256 * a + d
  {
    assert (256 * shift + a) % 65536 == 256 * (shift % 256) + a;
    assert 256 * (256 * (shift % 256) + a) + d == 65536 * (shift % 256) + 256 * a + d;
  }

  /** The pixel in column c, counted from the left, of a line of eight. */
  predicate Bit(line: int, c: int)
    requires 0 <= c < 8
  {
    line / [128, 64, 32, 16, 8, 4, 2, 1][c] % 2 == 1
  }

  /** A line is the number that its eight pixels spell, the leftmost first. */
  lemma PixelsSpellLine(line: int)
    requires 0 <= line < 256
    ensures line == Spelt(seq(8, c requires 0 <= c < 8 => Bit(line, c)))
  {
    var p := seq(8, c requires 0 <= c < 8 => Bit(line, c));
    BitsOfLine(line);
    hide Bit, Spelt, One;
    EightDigits(p, line);
  }

  lemma EightDigits(p: seq<bool>, v: int)
    requires |p| == 8 && 0 <= v < 256
    requires One(p[0]) == v / 128 % 2 && One(p[1]) == v / 64 % 2 && One(p[2]) == v / 32 % 2
    requires One(p[3]) == v / 16 % 2 && One(p[4]) == v / 8 % 2 && One(p[5]) == v / 4 % 2
    requires One(p[6]) == v / 2 % 2 && One(p[7]) == v % 2
    ensures Spelt(p) == v
  {
    hide Spelt, One;
    SpeltOfEight(p);
    Halves(v);
  }

  lemma BitsOfLine(v: int)
    ensures One(Bit(v, 0)) == v / 128 % 2 && One(Bit(v, 1)) == v / 64 % 2
    ensures One(Bit(v, 2)) == v / 32 % 2 && One(Bit(v, 3)) == v / 16 % 2
    ensures One(Bit(v, 4)) == v / 8 % 2 && One(Bit(v, 5)) == v / 4 % 2
    ensures One(Bit(v, 6)) == v / 2 % 2 && One(Bit(v, 7)) == v % 2
  {
  }

  /** The number that binary digits spell. */
  function Spelt(p: seq<bool>): int {
    if p == [] then 0 else 2 * Spelt(p[..|p| - 1]) + if p[|p| - 1] then 1 else 0
  }

  lemma SpeltOfEight(p: seq<bool>)
    requires |p| == 8
    ensures Spelt(p) == 128 * One(p[0]) + 64 * One(p[1]) + 32 * One(p[2]) + 16 * One(p[3])
                        + 8 * One(p[4]) + 4 * One(p[5]) + 2 * One(p[6]) + One(p[7])
  {
    SpeltOneMore(p, 7);
    SpeltOneMore(p, 6);
    SpeltOneMore(p, 5);
    SpeltOneMore(p, 4);
    SpeltOneMore(p, 3);
    SpeltOneMore(p, 2);
    SpeltOneMore(p, 1);
    SpeltOneMore(p, 0);
    assert p[..8] == p && p[..0] == [];
  }

  function One(b: bool): int {
    if b then 1 else 0
  }

  lemma SpeltOneMore(p: seq<bool>, n: nat)
    requires n < |p|
    ensures Spelt(p[..n + 1]) == 2 * Spelt(p[..n]) + One(p[n])
  {
    assert p[..n + 1][..n] == p[..n];
  }

  lemma Halves(v: int)
    requires 0 <= v < 256
    ensures v == 128 * (v / 128 % 2) + 64 * (v / 64 % 2) + 32 * (v / 32 % 2) + 16 * (v / 16 % 2)
                 + 8 * (v / 8 % 2) + 4 * (v / 4 % 2) + 2 * (v / 2 % 2) + v % 2
  {
    LowHalves(v);
    LowHalves(v / 16);
    var u := v / 16;
    assert u / 8 == v / 128 && u / 4 == v / 64 && u / 2 == v / 32;
    assert u / 16 == 0;
  }

  lemma LowHalves(v: int)
    ensures v == 16 * (v / 16) + 8 * (v / 8 % 2) + 4 * (v / 4 % 2) + 2 * (v / 2 % 2) + v % 2
  {
    var a, b, c, d := v / 2, v / 4, v / 8, v / 16;
    assert b == a / 2 && c == b / 2 && d == c / 2;
  }

  /**
    Whether the lamp in a line and column is lit, by the data sheet: the chip runs, is not in display test,
    shows its digit registers undecoded, scans that line, and has the bit set.
  */
  predicate Lamp(regs: seq<int>, line: int, c: int)
    requires |regs| == 16 && 0 <= line < 8 && 0 <= c < 8
  {
    if regs[15] % 2 == 1 then true
    else regs[12] % 2 == 1 && regs[9] == 0 && line <= regs[11] % 8 && Bit(regs[1 + line], c)
  }

  /** Once set up, the chip lights exactly the pattern in its digit registers, at full brightness. */
  predicate SetUp(regs: seq<int>) {
    |regs| == 16 && regs[15] == 0 && regs[12] == 1 && regs[9] == 0 && regs[11] == 7 && regs[10] == 15
  }

  lemma SetUpShowsThePattern(regs: seq<int>, motif: seq<int>, line: int, c: int)
    requires SetUp(regs) && Shows(regs, motif) && 0 <= line < 8 && 0 <= c < 8
    ensures Lamp(regs, line, c) <==> Bit(motif[line] % 256, c)
  {
  }

  /** The digit registers show a pattern of eight lines. */
  predicate Shows(regs: seq<int>, motif: seq<int>) {
    |regs| == 16 && |motif| == 8 && forall k :: 0 <= k < 8 ==> regs[k + 1] == motif[k] % 256
  }
}
