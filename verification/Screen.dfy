/**
  The board painter (lib/my_ncurses.c) on a character screen.

  `mvaddch` outside the screen fails and writes nothing. So what is shown below holds on a screen of any
  size: every position that exists holds what the board says. From 37 rows and columns on, all of it exists.
*/
module Screen {

  const GRID_SIZE := 4
  const CELL := 8
  const PITCH := 9
  const SPAN := 36

  /** A character or one of the line-drawing characters. */
  datatype Glyph = Char(c: char) | HLine | VLine
                 | ULCorner | URCorner | LLCorner | LRCorner | LTee | RTee | TTee | BTee | Plus

  /** Offsets from the board's corner that belong to its lines. */
  predicate OnBorder(dy: int, dx: int) {
    0 <= dy <= SPAN && 0 <= dx <= SPAN && (dy % PITCH == 0 || dx % PITCH == 0)
  }

  /** A horizontal line with its own ends and crossings. */
  function LineGlyph(dx: int, left: Glyph, cross: Glyph, right: Glyph): Glyph {
    if dx == 0 then left else if dx == SPAN then right else if dx % PITCH == 0 then cross else HLine
  }

  /** One pass of the line loop: eight strokes, then a crossing unless the right end comes next. */
  lemma LineGlyphs(i: int, left: Glyph, cross: Glyph, right: Glyph)
    requires 0 <= i < GRID_SIZE
    ensures LineGlyph(0, left, cross, right) == left && LineGlyph(SPAN, left, cross, right) == right
    ensures forall dx :: PITCH * i < dx < PITCH * (i + 1) ==> LineGlyph(dx, left, cross, right) == HLine
    ensures i < GRID_SIZE - 1 ==> LineGlyph(PITCH * (i + 1), left, cross, right) == cross
  {
  }

  /** What stands at a border position. */
  function BorderGlyph(dy: int, dx: int): Glyph {
    if dy == 0 then LineGlyph(dx, ULCorner, TTee, URCorner)
    else if dy == SPAN then LineGlyph(dx, LLCorner, BTee, LRCorner)
    else if dy % PITCH == 0 then LineGlyph(dx, LTee, Plus, RTee)
    else VLine
  }

  /** The arms of a line character: from its middle up, down, to the left, to the right. */
  datatype Arms = Arms(up: bool, down: bool, left: bool, right: bool)

  function ArmsOf(g: Glyph): Arms {
    match g
    case Char(_) => Arms(false, false, false, false)
    case HLine => Arms(false, false, true, true)
    case VLine => Arms(true, true, false, false)
    case ULCorner => Arms(false, true, false, true)
    case URCorner => Arms(false, true, true, false)
    case LLCorner => Arms(true, false, false, true)
    case LRCorner => Arms(true, false, true, false)
    case LTee => Arms(true, true, false, true)
    case RTee => Arms(true, true, true, false)
    case TTee => Arms(false, true, true, true)
    case BTee => Arms(true, false, true, true)
    case Plus => Arms(true, true, true, true)
  }

  /** The lines join up: a character has an arm towards a neighbour exactly when that neighbour is on a line. */
  lemma LinesJoin(dy: int, dx: int)
    requires OnBorder(dy, dx)
    ensures ArmsOf(BorderGlyph(dy, dx)) == Arms(OnBorder(dy - 1, dx), OnBorder(dy + 1, dx),
                                                OnBorder(dy, dx - 1), OnBorder(dy, dx + 1))
  {
  }

  /** The arms say which character it is, among those that lines are drawn with. */
  lemma ArmsDecide(g: Glyph, h: Glyph)
    requires !g.Char? && !h.Char? && ArmsOf(g) == ArmsOf(h)
    ensures g == h
  {
  }

  /** Offsets inside cell (row, col). */
  predicate InCell(row: int, col: int, dy: int, dx: int) {
    PITCH * row + 1 <= dy <= PITCH * row + CELL && PITCH * col + 1 <= dx <= PITCH * col + CELL
  }

  predicate IsCell(row: int, col: int) {
    0 <= row < GRID_SIZE && 0 <= col < GRID_SIZE
  }

  /** Cells do not overlap each other. */
  lemma CellsAreDisjoint(r1: int, c1: int, r2: int, c2: int, dy: int, dx: int)
    requires InCell(r1, c1, dy, dx) && InCell(r2, c2, dy, dx)
    ensures r1 == r2 && c1 == c2
  {
  }

  /** Border and cells share no position, and together they are the whole board. */
  lemma BorderAndCellsTile(dy: int, dx: int)
    requires 0 <= dy <= SPAN && 0 <= dx <= SPAN
    ensures OnBorder(dy, dx) <==> !InCell(dy / PITCH, dx / PITCH, dy, dx)
    ensures !OnBorder(dy, dx) ==> IsCell(dy / PITCH, dx / PITCH)
    ensures OnBorder(dy, dx) ==> forall row, col :: !InCell(row, col, dy, dx)
  {
    forall row, col | InCell(row, col, dy, dx) ensures row == dy / PITCH && col == dx / PITCH && !OnBorder(dy, dx) {
    }
  }

  /** C division truncates toward zero. */
  function TruncatedHalf(a: int): int {
    if a >= 0 then a / 2 else -(-a / 2)
  }

  /** A picture of the whole screen, by row and column. */
  type Frame = seq<seq<Glyph>>

  class Window {
    const height: nat
    const width: nat
    /** The characters on the screen, by row and column. */
    const cells: array2<Glyph>
    /** Where the board's corner lies. */
    const startY: int
    const startX: int

    /** What the player has been shown: refresh() brings the characters to the terminal. */
    ghost var frames: seq<Frame>

    ghost predicate Valid() {
      cells.Length0 == height && cells.Length1 == width
    }

    /** The screen as it is now. */
    ghost function Now(): (f: Frame)
      reads cells
      ensures |f| == cells.Length0 && forall y :: 0 <= y < |f| ==> |f[y]| == cells.Length1
      ensures forall y, x :: OnScreen(y, x) ==> f[y][x] == cells[y, x]
    {
      seq(cells.Length0, y requires 0 <= y < cells.Length0 reads cells =>
        seq(cells.Length1, x requires 0 <= x < cells.Length1 reads cells => cells[y, x]))
    }

    /** refresh_display. */
    method Refresh()
      modifies this`frames
      ensures frames == old(frames) + [Now()]
    {
      frames := frames + [Now()];
    }

    /** Centres the board on a blank screen: the margins on opposite sides differ by one at most. */
    constructor (height: nat, width: nat)
      ensures Valid() && this.height == height && this.width == width && fresh(cells) && frames == []
      ensures -1 <= (height - (startY + SPAN + 1)) - startY <= 1 && -1 <= (width - (startX + SPAN + 1)) - startX <= 1
      ensures height >= SPAN + 1 ==> 0 <= startY && startY + SPAN < height
      ensures width >= SPAN + 1 ==> 0 <= startX && startX + SPAN < width
      ensures forall y, x :: OnScreen(y, x) ==> cells[y, x] == Char(' ')
    {
      this.height := height;
      this.width := width;
      cells := new Glyph[height, width]((y, x) => Char(' '));
      startX := TruncatedHalf(width - (CELL + 1) * GRID_SIZE - 1);
      startY := TruncatedHalf(height - (CELL + 1) * GRID_SIZE - 1);
      frames := [];
    }

    predicate OnScreen(y: int, x: int) {
      0 <= y < cells.Length0 && 0 <= x < cells.Length1
    }

    method MvAddCh(y: int, x: int, g: Glyph)
      modifies cells
      ensures OnScreen(y, x) ==> cells[y, x] == g
      ensures forall v, u :: OnScreen(v, u) && !(v == y && u == x) ==> cells[v, u] == old(cells[v, u])
    {
      if 0 <= y < cells.Length0 && 0 <= x < cells.Length1 {
        cells[y, x] := g;
      }
    }

    /** The stroke above or below one cell. */
    method Segment(y: int, x: int)
      modifies cells
      ensures forall v, u :: OnScreen(v, u) ==>
                cells[v, u] == if v == y && x <= u < x + CELL then HLine else old(cells[v, u])
    {
      for j := 0 to CELL
        invariant forall v, u :: OnScreen(v, u) ==>
                    cells[v, u] == if v == y && x <= u < x + j then HLine else old(cells[v, u])
      {
        MvAddCh(y, x + j, HLine);
      }
    }

    /** One horizontal line of the board, with its left end, crossings and right end. */
    method HorizontalLine(dy: int, left: Glyph, cross: Glyph, right: Glyph)
      modifies cells
      ensures forall y, x :: OnScreen(y, x) ==>
                cells[y, x] == if y == startY + dy && 0 <= x - startX <= SPAN
                               then LineGlyph(x - startX, left, cross, right) else old(cells[y, x])
    {
      LineGlyphs(0, left, cross, right);
      hide LineGlyph;
      MvAddCh(startY + dy, startX, left);
      for i := 0 to GRID_SIZE
        invariant forall y, x :: OnScreen(y, x) ==>
                    cells[y, x] == if y == startY + dy
                                      && 0 <= x - startX <= (if i < GRID_SIZE then PITCH * i else SPAN - 1)
                                   then LineGlyph(x - startX, left, cross, right) else old(cells[y, x])
      {
        LineGlyphs(i, left, cross, right);
        Segment(startY + dy, startX + 1 + i * PITCH);
        if i < GRID_SIZE - 1 {
          MvAddCh(startY + dy, startX + (i + 1) * PITCH, cross);
        }
      }
      MvAddCh(startY + dy, startX + GRID_SIZE * PITCH, right);
    }

    /** Positions of the vertical lines passed by the loop when it has come to line i, offset j and band `row`. */
    predicate Passed(i: int, j: int, row: int, dy: int, dx: int) {
      && 0 <= dy <= SPAN && 0 <= dx <= SPAN && dx % PITCH == 0 && dy % PITCH != 0
      && (dx / PITCH < i || (dx / PITCH == i && (dy % PITCH < j || (dy % PITCH == j && dy / PITCH < row))))
    }

    method VerticalLines()
      modifies cells
      ensures forall y, x :: OnScreen(y, x) ==>
                cells[y, x] == if 0 <= y - startY <= SPAN && 0 <= x - startX <= SPAN
                                  && (x - startX) % PITCH == 0 && (y - startY) % PITCH != 0
                               then VLine else old(cells[y, x])
    {
      for i := 0 to GRID_SIZE + 1
        invariant forall y, x :: OnScreen(y, x) ==>
                    cells[y, x] == if Passed(i, 0, 0, y - startY, x - startX) then VLine else old(cells[y, x])
      {
        for j := 1 to CELL + 1
          invariant forall y, x :: OnScreen(y, x) ==>
                      cells[y, x] == if Passed(i, j, 0, y - startY, x - startX) then VLine else old(cells[y, x])
        {
          for row := 0 to GRID_SIZE
            invariant forall y, x :: OnScreen(y, x) ==>
                        cells[y, x] == if Passed(i, j, row, y - startY, x - startX) then VLine else old(cells[y, x])
          {
            MvAddCh(startY + row * PITCH + j, startX + i * PITCH, VLine);
          }
        }
      }
    }

    /** Writes exactly the border positions, and shows the screen. */
    method DrawGrid()
      modifies cells, this`frames
      ensures forall y, x :: OnScreen(y, x) ==>
                cells[y, x] == if OnBorder(y - startY, x - startX)
                               then BorderGlyph(y - startY, x - startX) else old(cells[y, x])
      ensures frames == old(frames) + [Now()]
    {
      HorizontalLine(0, ULCorner, TTee, URCorner);
      for i := 0 to GRID_SIZE - 1
        invariant frames == old(frames)
        invariant forall y, x :: OnScreen(y, x) ==>
                    cells[y, x] == if 0 <= y - startY <= PITCH * i && (y - startY) % PITCH == 0
                                      && 0 <= x - startX <= SPAN
                                   then BorderGlyph(y - startY, x - startX) else old(cells[y, x])
      {
        HorizontalLine((i + 1) * PITCH, LTee, Plus, RTee);
      }
      HorizontalLine(GRID_SIZE * PITCH, LLCorner, BTee, LRCorner);
      VerticalLines();
      Refresh();
    }

    /** Paints a picture inside one cell; a cell off the board is ignored. */
    method DisplayPattern(row: int, col: int, pattern: array2<char>)
      requires pattern.Length0 == CELL && pattern.Length1 == CELL
      modifies cells
      ensures forall y, x :: OnScreen(y, x) ==>
                var dy, dx := y - startY, x - startX;
                cells[y, x] == if IsCell(row, col) && InCell(row, col, dy, dx)
                               then Char(pattern[dy - PITCH * row - 1, dx - PITCH * col - 1]) else old(cells[y, x])
    {
      if row < 0 || row >= GRID_SIZE || col < 0 || col >= GRID_SIZE {
        return;
      }
      var y0, x0 := startY + row * PITCH + 1, startX + col * PITCH + 1;
      for i := 0 to CELL
        invariant forall y, x :: OnScreen(y, x) ==>
                    cells[y, x] == if InCell(row, col, y - startY, x - startX) && y < y0 + i
                                   then Char(pattern[y - y0, x - x0]) else old(cells[y, x])
      {
        for j := 0 to CELL
          invariant forall y, x :: OnScreen(y, x) ==>
                      cells[y, x] == if InCell(row, col, y - startY, x - startX)
                                        && (y < y0 + i || (y == y0 + i && x < x0 + j))
                                     then Char(pattern[y - y0, x - x0]) else old(cells[y, x])
        {
          MvAddCh(y0 + i, x0 + j, Char(pattern[i, j]));
        }
      }
    }

    /** Blanks one cell and nothing else; a cell off the board is ignored. */
    method ClearCell(row: int, col: int)
      modifies cells
      ensures forall y, x :: OnScreen(y, x) ==>
                cells[y, x] == if IsCell(row, col) && InCell(row, col, y - startY, x - startX)
                               then Char(' ') else old(cells[y, x])
    {
      if row < 0 || row >= GRID_SIZE || col < 0 || col >= GRID_SIZE {
        return;
      }
      var y0, x0 := startY + row * PITCH + 1, startX + col * PITCH + 1;
      for i := 0 to CELL
        invariant forall y, x :: OnScreen(y, x) ==>
                    cells[y, x] == if InCell(row, col, y - startY, x - startX) && y < y0 + i
                                   then Char(' ') else old(cells[y, x])
      {
        for j := 0 to CELL
          invariant forall y, x :: OnScreen(y, x) ==>
                      cells[y, x] == if InCell(row, col, y - startY, x - startX)
                                        && (y < y0 + i || (y == y0 + i && x < x0 + j))
                                     then Char(' ') else old(cells[y, x])
        {
          MvAddCh(y0 + i, x0 + j, Char(' '));
        }
      }
    }

    /** Blanks all sixteen cells, as the client does after each round; the border and the rest stay. */
    method ClearAllCells()
      modifies cells
      ensures forall y, x :: OnScreen(y, x) ==>
                cells[y, x] == if 0 <= y - startY <= SPAN && 0 <= x - startX <= SPAN
                                  && !OnBorder(y - startY, x - startX) then Char(' ') else old(cells[y, x])
    {
      for i := 0 to GRID_SIZE
        invariant forall y, x :: OnScreen(y, x) ==>
                    cells[y, x] == if Cleared(i, 0, y - startY, x - startX) then Char(' ') else old(cells[y, x])
      {
        for j := 0 to GRID_SIZE
          invariant forall y, x :: OnScreen(y, x) ==>
                      cells[y, x] == if Cleared(i, j, y - startY, x - startX) then Char(' ') else old(cells[y, x])
        {
          ClearCell(i, j);
        }
      }
    }

    /** Inside a cell that comes before cell (i, j) in reading order. */
    predicate Cleared(i: int, j: int, dy: int, dx: int) {
      && 0 <= dy <= SPAN && 0 <= dx <= SPAN && dy % PITCH != 0 && dx % PITCH != 0
      && (dy / PITCH < i || (dy / PITCH == i && dx / PITCH < j))
    }
  }
}
