/**
  The board game itself (formes.c, lib/jeu.c): the sixteen glyphs, how one is drawn in a cell, how the board
  is painted in a given order, and why pressing the right button is pressing the cell that looks like the
  LED matrix.
*/
module Game {
  import opened Shuffle
  import opened Board
  import opened Buttons
  import opened LedMatrix
  import opened Screen

  /** formes: eight lines of eight pixels each. */
  const FORMES: seq<seq<int>> := [
    [0xFF, 0x81, 0x81, 0x81, 0x81, 0x81, 0x81, 0xFF],
    [0x00, 0x00, 0x3C, 0x24, 0x24, 0x3C, 0x00, 0x00],
    [0x3C, 0x24, 0x24, 0x24, 0x24, 0x24, 0x24, 0x3C],
    [0x00, 0x00, 0xFF, 0x81, 0x81, 0xFF, 0x00, 0x00],
    [0x00, 0x00, 0x18, 0x3C, 0x7E, 0xFF, 0x00, 0x00],
    [0x00, 0x00, 0xFF, 0x7E, 0x3C, 0x18, 0x00, 0x00],
    [0x20, 0x30, 0x38, 0x3C, 0x3C, 0x38, 0x30, 0x20],
    [0x04, 0x0C, 0x1C, 0x3C, 0x3C, 0x1C, 0x0C, 0x04],
    [0x3C, 0x42, 0x81, 0x81, 0x81, 0x81, 0x42, 0x3C],
    [0x18, 0x24, 0x42, 0x81, 0x81, 0x42, 0x24, 0x18],
    [0x80, 0x40, 0x20, 0x10, 0x08, 0x04, 0x02, 0x01],
    [0x01, 0x02, 0x04, 0x08, 0x10, 0x20, 0x40, 0x80],
    [0x81, 0x42, 0x24, 0x18, 0x18, 0x24, 0x42, 0x81],
    [0x00, 0x00, 0x00, 0xFF, 0xFF, 0x00, 0x00, 0x00],
    [0x18, 0x18, 0x18, 0x18, 0x18, 0x18, 0x18, 0x18],
    [0x18, 0x18, 0x18, 0xFF, 0xFF, 0x18, 0x18, 0x18]
  ]

  /** The same sixteen glyphs, drawn: 'x' for a pixel that is set. */
  const DRAWINGS: seq<seq<string>> := [
    ["xxxxxxxx", "x......x", "x......x", "x......x", "x......x", "x......x", "x......x", "xxxxxxxx"],
    ["........", "........", "..xxxx..", "..x..x..", "..x..x..", "..xxxx..", "........", "........"],
    ["..xxxx..", "..x..x..", "..x..x..", "..x..x..", "..x..x..", "..x..x..", "..x..x..", "..xxxx.."],
    ["........", "........", "xxxxxxxx", "x......x", "x......x", "xxxxxxxx", "........", "........"],
    ["........", "........", "...xx...", "..xxxx..", ".xxxxxx.", "xxxxxxxx", "........", "........"],
    ["........", "........", "xxxxxxxx", ".xxxxxx.", "..xxxx..", "...xx...", "........", "........"],
    ["..x.....", "..xx....", "..xxx...", "..xxxx..", "..xxxx..", "..xxx...", "..xx....", "..x....."],
    [".....x..", "....xx..", "...xxx..", "..xxxx..", "..xxxx..", "...xxx..", "....xx..", ".....x.."],
    ["..xxxx..", ".x....x.", "x......x", "x......x", "x......x", "x......x", ".x....x.", "..xxxx.."],
    ["...xx...", "..x..x..", ".x....x.", "x......x", "x......x", ".x....x.", "..x..x..", "...xx..."],
    ["x.......", ".x......", "..x.....", "...x....", "....x...", ".....x..", "......x.", ".......x"],
    [".......x", "......x.", ".....x..", "....x...", "...x....", "..x.....", ".x......", "x......."],
    ["x......x", ".x....x.", "..x..x..", "...xx...", "...xx...", "..x..x..", ".x....x.", "x......x"],
    ["........", "........", "........", "xxxxxxxx", "xxxxxxxx", "........", "........", "........"],
    ["...xx...", "...xx...", "...xx...", "...xx...", "...xx...", "...xx...", "...xx...", "...xx..."],
    ["...xx...", "...xx...", "...xx...", "xxxxxxxx", "xxxxxxxx", "...xx...", "...xx...", "...xx..."]
  ]

  /** The number that a drawn line spells, the leftmost pixel first. */
  function Drawn(s: string): int
    requires |s| == 8
  {
    128 * Ink(s[0]) + 64 * Ink(s[1]) + 32 * Ink(s[2]) + 16 * Ink(s[3])
    + 8 * Ink(s[4]) + 4 * Ink(s[5]) + 2 * Ink(s[6]) + Ink(s[7])
  }

  function Ink(c: char): int {
    if c == 'x' then 1 else 0
  }

  /** Each line of each glyph is as drawn. */
  lemma GlyphsAreAsDrawn(k: int, y: int)
    requires 0 <= k < 16 && 0 <= y < 8
    ensures |DRAWINGS[k]| == 8 && |DRAWINGS[k][y]| == 8 && FORMES[k][y] == Drawn(DRAWINGS[k][y])
  {
    hide Drawn;
    if k < 5 {
      FirstGlyphs(k, y);
    } else if k < 11 {
      MiddleGlyphs(k, y);
    } else {
      LastGlyphs(k, y);
    }
  }

  lemma FirstGlyphs(k: int, y: int)
    requires 0 <= k < 5 && 0 <= y < 8
    ensures |DRAWINGS[k]| == 8 && |DRAWINGS[k][y]| == 8 && FORMES[k][y] == Drawn(DRAWINGS[k][y])
  {
  }

  lemma MiddleGlyphs(k: int, y: int)
    requires 5 <= k < 11 && 0 <= y < 8
    ensures |DRAWINGS[k]| == 8 && |DRAWINGS[k][y]| == 8 && FORMES[k][y] == Drawn(DRAWINGS[k][y])
  {
  }

  lemma LastGlyphs(k: int, y: int)
    requires 11 <= k < 16 && 0 <= y < 8
    ensures |DRAWINGS[k]| == 8 && |DRAWINGS[k][y]| == 8 && FORMES[k][y] == Drawn(DRAWINGS[k][y])
  {
  }

  lemma FormesAreGlyphs()
    ensures |FORMES| == 16
    ensures forall k, y :: 0 <= k < 16 && 0 <= y < 8 ==> |FORMES[k]| == 8 && 0 <= FORMES[k][y] < 256
  {
  }

  /** No two glyphs agree on their first and fourth lines. */
  lemma GlyphsAreDistinct(a: int, b: int)
    requires 0 <= a < 16 && 0 <= b < 16
    requires FORMES[a][0] == FORMES[b][0] && FORMES[a][3] == FORMES[b][3]
    ensures a == b
  {
  }

  function PictureChar(line: int, c: int): char
    requires 0 <= c < 8
  {
    if Bit(line, c) then 'x' else ' '
  }

  /** The eight pixels of a line determine it. */
  lemma PixelsDetermineLine(u: int, v: int)
    requires 0 <= u < 256 && 0 <= v < 256
    requires forall c :: 0 <= c < 8 ==> (Bit(u, c) <==> Bit(v, c))
    ensures u == v
  {
    HighPixels(u);
    HighPixels(v);
    LowPixels(u);
    LowPixels(v);
    assert Bit(u, 0) == Bit(v, 0) && Bit(u, 1) == Bit(v, 1) && Bit(u, 2) == Bit(v, 2) && Bit(u, 3) == Bit(v, 3);
    assert Bit(u, 4) == Bit(v, 4) && Bit(u, 5) == Bit(v, 5) && Bit(u, 6) == Bit(v, 6) && Bit(u, 7) == Bit(v, 7);
    hide Bit;
    FourPixels(u / 16, v / 16);
    FourPixels(u % 16, v % 16);
  }

  lemma FourPixels(m: int, n: int)
    requires 0 <= m < 16 && 0 <= n < 16
    requires (m / 8 % 2 == 1 <==> n / 8 % 2 == 1) && (m / 4 % 2 == 1 <==> n / 4 % 2 == 1)
    requires (m / 2 % 2 == 1 <==> n / 2 % 2 == 1) && (m % 2 == 1 <==> n % 2 == 1)
    ensures m == n
  {
  }

  lemma HighPixels(v: int)
    requires 0 <= v < 256
    ensures Bit(v, 0) <==> v / 16 / 8 % 2 == 1
    ensures Bit(v, 1) <==> v / 16 / 4 % 2 == 1
    ensures Bit(v, 2) <==> v / 16 / 2 % 2 == 1
    ensures Bit(v, 3) <==> v / 16 % 2 == 1
  {
  }

  lemma LowPixels(v: int)
    requires 0 <= v < 256
    ensures Bit(v, 4) <==> v % 16 / 8 % 2 == 1
    ensures Bit(v, 5) <==> v % 16 / 4 % 2 == 1
    ensures Bit(v, 6) <==> v % 16 / 2 % 2 == 1
    ensures Bit(v, 7) <==> v % 16 % 2 == 1
  {
    var h, l := v / 16, v % 16;
    assert v / 8 == 2 * h + l / 8 && v / 4 == 4 * h + l / 4 && v / 2 == 8 * h + l / 2;
  }

  /** convertir_forme: the glyph as eight lines of eight characters. */
  method ConvertirForme(forme: seq<int>, resultat: array2<char>)
    requires |forme| == 8 && resultat.Length0 == 8 && resultat.Length1 == 8
    modifies resultat
    ensures forall y, x :: 0 <= y < 8 && 0 <= x < 8 ==> resultat[y, x] == PictureChar(forme[y], x)
  {
    for i := 0 to 8
      invariant forall y, x :: 0 <= y < i && 0 <= x < 8 ==> resultat[y, x] == PictureChar(forme[y], x)
    {
      for j := 0 to 8
        invariant forall y, x :: 0 <= y < i && 0 <= x < 8 ==> resultat[y, x] == PictureChar(forme[y], x)
        invariant forall x :: 0 <= x < j ==> resultat[i, x] == PictureChar(forme[i], x)
      {
        resultat[i, j] := if Bit(forme[i], j) then 'x' else ' ';
      }
    }
  }

  /** The screen shows glyph k in cell (row, col), as far as the cell lies on the screen. */
  ghost predicate CellShows(w: Window, row: int, col: int, k: int)
    reads w.cells
    requires 0 <= k < 16
  {
    forall y, x :: w.OnScreen(y, x) && InCell(row, col, y - w.startY, x - w.startX) ==>
                     w.cells[y, x] == Char(PictureChar(FORMES[k][y - w.startY - PITCH * row - 1],
                                                       x - w.startX - PITCH * col - 1))
  }

  /** The screen shows the lines of the board. */
  ghost predicate BorderShown(w: Window)
    reads w.cells
  {
    forall y, x :: w.OnScreen(y, x) && OnBorder(y - w.startY, x - w.startX) ==>
                     w.cells[y, x] == BorderGlyph(y - w.startY, x - w.startX)
  }

  /** Sixteen glyph numbers. Shuffled boards are permutations, but the painter takes repetitions as well. */
  predicate IsBoard(order: seq<int>) {
    |order| == 16 && forall k :: 0 <= k < 16 ==> 0 <= order[k] < 16
  }

  /** Cell number k, in reading order, shows glyph order[k]. */
  ghost predicate BoardShown(w: Window, order: seq<int>)
    reads w.cells
    requires IsBoard(order)
  {
    BorderShown(w) && forall k :: 0 <= k < 16 ==> CellShows(w, k / 4, k % 4, order[k])
  }

  /** The empty board: its lines, drawn over the screen `before`. */
  predicate BareGrid(bare: Frame, before: Frame, top: int, left: int) {
    && |bare| == |before|
    && forall y :: 0 <= y < |bare| ==>
         && |bare[y]| == |before[y]|
         && forall x :: 0 <= x < |bare[y]| ==>
              bare[y][x] == if OnBorder(y - top, x - left) then BorderGlyph(y - top, x - left) else before[y][x]
  }

  /**
    afficher_grille_predefinie: draws the lines and shows them, paints the glyphs in the given order, shows
    the board and returns where `forme` lies, from 1 to 16: its last cell if there are several, -1 if there is
    none. `bare` is the first of the two pictures shown.
  */
  method AfficherGrillePredefinie(w: Window, forme: int, order: seq<int>)
    returns (position: int, ghost bare: Frame)
    requires w.Valid() && IsBoard(order)
    modifies w.cells, w`frames
    ensures BoardShown(w, order) && position == PositionOf(forme, order)
    ensures w.frames == old(w.frames) + [bare, w.Now()]
    ensures BareGrid(bare, old(w.Now()), w.startY, w.startX)
    ensures forall y, x :: w.OnScreen(y, x) && !(0 <= y - w.startY <= SPAN && 0 <= x - w.startX <= SPAN) ==>
                             w.cells[y, x] == old(w.cells[y, x])
  {
    hide CellShows, BorderShown, PictureChar, PositionOf, BareGrid;
    DessinerGrille(w);
    bare := w.Now();
    var picture := new char[8, 8]((i, j) => ' ');
    position := -1;
    var k := 0;
    while k < 16
      invariant 0 <= k <= 16 && BorderShown(w) && w.frames == old(w.frames) + [bare]
      invariant forall n :: 0 <= n < k ==> CellShows(w, n / 4, n % 4, order[n])
      invariant position == PositionOf(forme, order[..k])
      invariant forall y, x :: w.OnScreen(y, x) && !(0 <= y - w.startY <= SPAN && 0 <= x - w.startX <= SPAN) ==>
                                 w.cells[y, x] == old(w.cells[y, x])
    {
      PeindreForme(w, k, order, picture);
      PositionStep(forme, order, k);
      if order[k] == forme {
        position := k / 4 * 4 + k % 4 + 1;
      }
      k := k + 1;
    }
    assert order[..16] == order;
    w.Refresh();
  }

  lemma PositionStep(forme: int, order: seq<int>, k: nat)
    requires k < |order|
    ensures PositionOf(forme, order[..k + 1]) == if order[k] == forme then k + 1 else PositionOf(forme, order[..k])
    ensures k / 4 * 4 + k % 4 == k
  {
    assert order[..k + 1][..k] == order[..k];
  }

  /** Draws the lines and nothing outside the board, and shows them. */
  method DessinerGrille(w: Window)
    requires w.Valid()
    modifies w.cells, w`frames
    ensures BorderShown(w) && BareGrid(w.Now(), old(w.Now()), w.startY, w.startX)
    ensures w.frames == old(w.frames) + [w.Now()]
    ensures forall y, x :: w.OnScreen(y, x) && !(0 <= y - w.startY <= SPAN && 0 <= x - w.startX <= SPAN) ==>
                             w.cells[y, x] == old(w.cells[y, x])
  {
    hide BorderGlyph;
    w.DrawGrid();
  }

  /** Paints cell k, after the cells before it, with the glyph that `order` puts there. */
  method PeindreForme(w: Window, k: int, order: seq<int>, picture: array2<char>)
    requires 0 <= k < 16 && IsBoard(order)
    requires BorderShown(w) && picture.Length0 == 8 && picture.Length1 == 8
    requires forall n :: 0 <= n < k ==> CellShows(w, n / 4, n % 4, order[n])
    modifies w.cells, picture
    ensures BorderShown(w)
    ensures forall n :: 0 <= n <= k ==> CellShows(w, n / 4, n % 4, order[n])
    ensures forall y, x :: w.OnScreen(y, x) && !(0 <= y - w.startY <= SPAN && 0 <= x - w.startX <= SPAN) ==>
                             w.cells[y, x] == old(w.cells[y, x])
  {
    hide CellShows, BorderShown, PictureChar;
    ConvertirForme(FORMES[order[k]], picture);
    PeindreCase(w, k / 4, k % 4, order[k], picture);
  }

  /** Paints one cell; the border and every other cell keep what they show. */
  method PeindreCase(w: Window, row: int, col: int, glyph: int, picture: array2<char>)
    requires IsCell(row, col) && 0 <= glyph < 16 && picture.Length0 == 8 && picture.Length1 == 8
    requires forall y, x :: 0 <= y < 8 && 0 <= x < 8 ==> picture[y, x] == PictureChar(FORMES[glyph][y], x)
    modifies w.cells
    ensures CellShows(w, row, col, glyph)
    ensures old(BorderShown(w)) ==> BorderShown(w)
    ensures forall r, c, g :: !(r == row && c == col) && 0 <= g < 16 && old(CellShows(w, r, c, g)) ==>
                                CellShows(w, r, c, g)
    ensures forall y, x :: w.OnScreen(y, x) && !(0 <= y - w.startY <= SPAN && 0 <= x - w.startX <= SPAN) ==>
                             w.cells[y, x] == old(w.cells[y, x])
  {
    w.DisplayPattern(row, col, picture);
    assert forall y, x :: w.OnScreen(y, x) && !InCell(row, col, y - w.startY, x - w.startX) ==>
                            w.cells[y, x] == old(w.cells[y, x]);
    hide PictureChar, BorderGlyph;
    if old(BorderShown(w)) {
      forall y, x | w.OnScreen(y, x) && OnBorder(y - w.startY, x - w.startX)
        ensures w.cells[y, x] == BorderGlyph(y - w.startY, x - w.startX)
      {
        BorderAndCellsTile(y - w.startY, x - w.startX);
      }
    }
  }

  // ---------------------------------------------------------------- the right button

  /** The whole board fits on the screen. */
  ghost predicate OnScreenWhole(w: Window) {
    w.Valid() && 0 <= w.startY && w.startY + SPAN < w.height && 0 <= w.startX && w.startX + SPAN < w.width
  }

  /** In picture f, pixel (y, x) of a cell is an 'x' exactly where the LED matrix is lit. */
  predicate SamePixel(f: Frame, top: int, left: int, row: int, col: int, regs: seq<int>, y: int, x: int)
    requires |regs| == 16 && 0 <= y < 8 && 0 <= x < 8
  {
    var v, u := top + PITCH * row + 1 + y, left + PITCH * col + 1 + x;
    && 0 <= v < |f| && 0 <= u < |f[v]|
    && (f[v][u] == Char('x') <==> Bit(regs[REG_DIGIT0 + y], x))
  }

  /** In picture f, with the board's corner at (top, left), a cell and the LED matrix show the same. */
  predicate SamePicture(f: Frame, top: int, left: int, row: int, col: int, regs: seq<int>)
    requires |regs| == 16
  {
    forall y, x :: 0 <= y < 8 && 0 <= x < 8 ==> SamePixel(f, top, left, row, col, regs, y, x)
  }

  /** The cell at the place of button `key` looks like the LED matrix. */
  predicate LooksRight(f: Frame, top: int, left: int, key: (int, int), regs: seq<int>)
    requires |regs| == 16 && IsKey(key)
  {
    SamePicture(f, top, left, BoardPosition(NumberOf(key)).0, BoardPosition(NumberOf(key)).1, regs)
  }

  /** The cell at the place of a button shows the picture on the matrix exactly when it holds the target. */
  lemma CellLooksLikeTarget(w: Window, regs: seq<int>, order: seq<int>, forme: int, key: (int, int))
    requires OnScreenWhole(w) && IsBoard(order) && 0 <= forme < 16 && IsKey(key)
    requires BoardShown(w, order) && Shows(regs, FORMES[forme])
    ensures 1 <= NumberOf(key) <= 16
    ensures LooksRight(w.Now(), w.startY, w.startX, key, regs) <==> order[NumberOf(key) - 1] == forme
  {
    hide CellShows, SamePicture, BorderShown;
    SinglePress(key);
    var (row, col) := BoardPosition(NumberOf(key));
    var k := 4 * row + col;
    assert k / 4 == row && k % 4 == col && k == NumberOf(key) - 1;
    assert CellShows(w, k / 4, k % 4, order[k]);
    if order[k] == forme {
      PicturesOfSameGlyph(w, row, col, regs, forme);
    } else if SamePicture(w.Now(), w.startY, w.startX, row, col, regs) {
      SamePictureSameGlyph(w, row, col, regs, order[k], forme);
    }
  }

  /**
    Game correctness: with the board painted in any order and the target on the LED matrix, pressing one
    button answers correctly exactly when the cell at that button's place shows the picture on the matrix.
  */
  lemma RightButtonShowsTarget(w: Window, regs: seq<int>, order: seq<int>, forme: int, key: (int, int))
    requires OnScreenWhole(w) && IsPermutation(order, 16) && 0 <= forme < 16 && IsKey(key)
    requires BoardShown(w, order) && Shows(regs, FORMES[forme])
    ensures NumberOf(key) == PositionOf(forme, order) <==> LooksRight(w.Now(), w.startY, w.startX, key, regs)
  {
    hide LooksRight, BoardShown, Shows;
    PositionOnPermutation(forme, order);
    CellLooksLikeTarget(w, regs, order, forme, key);
  }

  lemma PicturesOfSameGlyph(w: Window, row: int, col: int, regs: seq<int>, g: int)
    requires OnScreenWhole(w) && IsCell(row, col) && 0 <= g < 16
    requires CellShows(w, row, col, g) && Shows(regs, FORMES[g])
    ensures SamePicture(w.Now(), w.startY, w.startX, row, col, regs)
  {
    FormesAreGlyphs();
    forall y, x | 0 <= y < 8 && 0 <= x < 8
      ensures SamePixel(w.Now(), w.startY, w.startX, row, col, regs, y, x)
    {
      PixelOfGlyph(w, row, col, g, y, x);
      assert regs[y + 1] == FORMES[g][y];
    }
  }

  /** A pixel of a shown glyph is on the screen. */
  lemma PixelOfGlyph(w: Window, row: int, col: int, g: int, y: int, x: int)
    requires OnScreenWhole(w) && IsCell(row, col) && 0 <= g < 16 && 0 <= y < 8 && 0 <= x < 8
    requires CellShows(w, row, col, g)
    ensures var v, u := w.startY + PITCH * row + 1 + y, w.startX + PITCH * col + 1 + x;
            w.OnScreen(v, u) && (w.Now()[v][u] == Char('x') <==> Bit(FORMES[g][y], x))
  {
    var v, u := w.startY + PITCH * row + 1 + y, w.startX + PITCH * col + 1 + x;
    assert InCell(row, col, v - w.startY, u - w.startX);
    assert w.cells[v, u] == Char(PictureChar(FORMES[g][y], x));
  }

  lemma SamePictureSameGlyph(w: Window, row: int, col: int, regs: seq<int>, g: int, forme: int)
    requires OnScreenWhole(w) && IsCell(row, col) && 0 <= g < 16 && 0 <= forme < 16
    requires CellShows(w, row, col, g) && Shows(regs, FORMES[forme])
    requires SamePicture(w.Now(), w.startY, w.startX, row, col, regs)
    ensures g == forme
  {
    FormesAreGlyphs();
    hide CellShows, PictureChar;
    forall y | 0 <= y < 8 ensures FORMES[g][y] == FORMES[forme][y] {
      forall x | 0 <= x < 8 ensures Bit(FORMES[g][y], x) <==> Bit(FORMES[forme][y], x) {
        assert SamePixel(w.Now(), w.startY, w.startX, row, col, regs, y, x);
        PixelOfGlyph(w, row, col, g, y, x);
        assert regs[y + 1] == FORMES[forme][y];
      }
      PixelsDetermineLine(FORMES[g][y], FORMES[forme][y]);
    }
    GlyphsAreDistinct(g, forme);
  }
}
