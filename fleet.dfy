/** The fleet as a sequence of alien rectangles, in the order the game adds
    them: the spawn grid that `_create_fleet` lays out, the drop that a side
    edge provokes, and the horizontal march of every alien. */
module Fleet {
  import opened Rects
  import opened Aliens

  /** How many aliens fit across: the screen less one alien width of margin
      on each side, divided into cells two alien widths wide. Floor division
      as in Python; a negative available width gives a negative count. */
  function Columns(screenWidth: int, size: Size): int
    requires 0 < size.width
  {
    (screenWidth - 2 * size.width) / (2 * size.width)
  }

  /** How many rows fit: the screen less three alien heights and the ship's
      height, divided into cells two alien heights tall. */
  function Rows(screenHeight: int, size: Size, shipHeight: int): int
    requires 0 < size.height
  {
    (screenHeight - 3 * size.height - shipHeight) / (2 * size.height)
  }

  /** The rectangle of alien number `col` in row `row`. */
  function Slot(size: Size, col: int, row: int): Rect {
    Rect(size.width + 2 * size.width * col, size.height + 2 * size.height * row,
         size.width, size.height)
  }

  /** The first `cols` aliens of row `row`, left to right. */
  function Row(size: Size, row: int, cols: int): seq<Rect>
    decreases cols
  {
    if cols <= 0 then [] else Row(size, row, cols - 1) + [Slot(size, cols - 1, row)]
  }

  /** The first `rows` rows, top to bottom, `cols` aliens each. */
  function Grid(size: Size, rows: int, cols: int): seq<Rect>
    decreases rows
  {
    if rows <= 0 then [] else Grid(size, rows - 1, cols) + Row(size, rows - 1, cols)
  }

  /** The fleet `_create_fleet` adds for a screen, an alien image size and a
      ship height. */
  function Layout(screenWidth: int, screenHeight: int, size: Size, shipHeight: int): seq<Rect>
    requires 0 < size.width && 0 < size.height
  {
    Grid(size, Rows(screenHeight, size, shipHeight), Columns(screenWidth, size))
  }

  lemma {:induction false} RowShape(size: Size, row: int, cols: int)
    ensures |Row(size, row, cols)| == if cols <= 0 then 0 else cols
    ensures forall c :: 0 <= c < cols ==> Row(size, row, cols)[c] == Slot(size, c, row)
  {
    if cols > 0 {
      RowShape(size, row, cols - 1);
    }
  }

  lemma {:induction false} GridSize(size: Size, rows: int, cols: int)
    ensures |Grid(size, rows, cols)| == if rows <= 0 || cols <= 0 then 0 else rows * cols
  {
    if rows > 0 {
      GridSize(size, rows - 1, cols);
      RowShape(size, rows - 1, cols);
      if cols > 0 {
        assert (rows - 1) * cols + cols == rows * cols;
      }
    }
  }

  lemma MulLeft(a: nat, b: int, c: int)
    requires b <= c
    ensures a * b <= a * c
  {
    assert a * c - a * b == a * (c - b);
  }

  lemma {:induction false} GridAt(size: Size, rows: int, cols: int, r: int, c: int)
    requires 0 <= r < rows && 0 <= c < cols
    ensures r * cols + c < |Grid(size, rows, cols)|
    ensures Grid(size, rows, cols)[r * cols + c] == Slot(size, c, r)
  {
    GridSize(size, rows - 1, cols);
    RowShape(size, rows - 1, cols);
    GridSize(size, rows, cols);
    if r < rows - 1 {
      GridAt(size, rows - 1, cols, r, c);
    } else {
      assert r * cols + c == |Grid(size, rows - 1, cols)| + c;
    }
  }

  /** Every rectangle of a grid has the alien size and lies inside the box
      that the grid's cells cover, one margin in from the top-left corner. */
  predicate InBox(a: Rect, size: Size, rows: int, cols: int) {
    a.width == size.width && a.height == size.height &&
    size.width <= a.Left() && a.Right() <= 2 * size.width * cols &&
    size.height <= a.Top() && a.Bottom() <= 2 * size.height * rows
  }

  lemma {:induction false} RowInBox(size: Size, row: int, rows: int, cols: int)
    requires 0 <= row < rows
    ensures forall k :: 0 <= k < |Row(size, row, cols)| ==> InBox(Row(size, row, cols)[k], size, rows, cols)
  {
    RowShape(size, row, cols);
    forall k | 0 <= k < |Row(size, row, cols)|
      ensures InBox(Row(size, row, cols)[k], size, rows, cols)
    {
      MulLeft(2 * size.width, 0, k);
      MulLeft(2 * size.width, k + 1, cols);
      MulLeft(2 * size.height, 0, row);
      MulLeft(2 * size.height, row + 1, rows);
    }
  }

  lemma {:induction false} GridInBox(size: Size, rows: int, cols: int)
    ensures forall k :: 0 <= k < |Grid(size, rows, cols)| ==> InBox(Grid(size, rows, cols)[k], size, rows, cols)
  {
    if rows > 0 {
      var g, last := Grid(size, rows - 1, cols), Row(size, rows - 1, cols);
      GridInBox(size, rows - 1, cols);
      RowInBox(size, rows - 1, rows, cols);
      forall k | 0 <= k < |g + last|
        ensures InBox((g + last)[k], size, rows, cols)
      {
        if k < |g| {
          MulLeft(2 * size.height, rows - 1, rows);
        } else {
          assert (g + last)[k] == last[k - |g|];
        }
      }
    }
  }

  lemma DivFloor(a: int, d: int)
    requires 0 < d
    ensures (a / d) * d <= a
  {
  }

  /** The counts are the most that fit: the cells two alien widths wide fill
      the screen width less two widths without overflowing it, and one more
      column would overflow it; likewise for the rows, in the screen height
      less three alien heights and the ship's height. */
  lemma CountsAreMaximal(screenWidth: int, screenHeight: int, size: Size, shipHeight: int)
    requires 0 < size.width && 0 < size.height
    ensures var cols, cell := Columns(screenWidth, size), 2 * size.width;
            cols * cell <= screenWidth - 2 * size.width < (cols + 1) * cell
    ensures var rows, cell := Rows(screenHeight, size, shipHeight), 2 * size.height;
            rows * cell <= screenHeight - 3 * size.height - shipHeight < (rows + 1) * cell
  {
    var across, cellX := screenWidth - 2 * size.width, 2 * size.width;
    assert across == (across / cellX) * cellX + across % cellX;
    var down, cellY := screenHeight - 3 * size.height - shipHeight, 2 * size.height;
    assert down == (down / cellY) * cellY + down % cellY;
  }

  /** The spawn grid holds `Columns * Rows` aliens, and none when either
      count is not positive (a screen too small for one alien). */
  lemma LayoutCount(screenWidth: int, screenHeight: int, size: Size, shipHeight: int)
    requires 0 < size.width && 0 < size.height
    ensures var cols, rows := Columns(screenWidth, size), Rows(screenHeight, size, shipHeight);
            |Layout(screenWidth, screenHeight, size, shipHeight)|
              == if cols <= 0 || rows <= 0 then 0 else cols * rows
  {
    GridSize(size, Rows(screenHeight, size, shipHeight), Columns(screenWidth, size));
  }

  /** Alien `col` of row `row` sits at x = w + 2w*col, y = h + 2h*row, and is
      the `row * Columns + col`-th alien added. */
  lemma LayoutPosition(screenWidth: int, screenHeight: int, size: Size, shipHeight: int, col: int, row: int)
    requires 0 < size.width && 0 < size.height
    requires 0 <= col < Columns(screenWidth, size) && 0 <= row < Rows(screenHeight, size, shipHeight)
    ensures var k := row * Columns(screenWidth, size) + col;
            var fleet := Layout(screenWidth, screenHeight, size, shipHeight);
            k < |fleet| &&
            fleet[k] == Rect(size.width + 2 * size.width * col, size.height + 2 * size.height * row,
                             size.width, size.height)
  {
    GridAt(size, Rows(screenHeight, size, shipHeight), Columns(screenWidth, size), row, col);
  }

  /** Every alien of a fresh fleet keeps one alien width clear of the left
      edge, two clear of the right edge, one height below the top and three
      heights plus the ship's height above the bottom. */
  lemma LayoutMargins(screenWidth: int, screenHeight: int, size: Size, shipHeight: int)
    requires 0 < size.width && 0 < size.height
    ensures var fleet := Layout(screenWidth, screenHeight, size, shipHeight);
            forall k :: 0 <= k < |fleet| ==>
              size.width <= fleet[k].Left() && fleet[k].Right() <= screenWidth - 2 * size.width &&
              size.height <= fleet[k].Top() &&
              fleet[k].Bottom() <= screenHeight - 3 * size.height - shipHeight
  {
    var cols, rows := Columns(screenWidth, size), Rows(screenHeight, size, shipHeight);
    GridInBox(size, rows, cols);
    DivFloor(screenWidth - 2 * size.width, 2 * size.width);
    DivFloor(screenHeight - 3 * size.height - shipHeight, 2 * size.height);
    assert 2 * size.width * cols == cols * (2 * size.width);
    assert 2 * size.height * rows == rows * (2 * size.height);
  }

  /** Some alien of `fleet` touches a side of the screen. */
  predicate AnyAtEdge(fleet: seq<Rect>, screen: Rect) {
    exists k :: 0 <= k < |fleet| && AtEdge(fleet[k], screen)
  }

  /** Some alien of `fleet` has reached the bottom of the screen. */
  predicate AnyAtBottom(fleet: seq<Rect>, screen: Rect) {
    exists k :: 0 <= k < |fleet| && fleet[k].Bottom() >= screen.Bottom()
  }

  /** Some alien of `fleet` overlaps the ship (`spritecollideany`). */
  predicate AnyOverlaps(ship: Rect, fleet: seq<Rect>) {
    exists k :: 0 <= k < |fleet| && Overlaps(ship, fleet[k])
  }

  /** A fresh fleet has no alien at a side edge and none at the bottom of a
      screen whose size it was laid out for. */
  lemma LayoutClearOfScreenEdges(screenWidth: nat, screenHeight: nat, size: Size, shipHeight: nat)
    requires 0 < size.width && 0 < size.height
    ensures var fleet := Layout(screenWidth, screenHeight, size, shipHeight);
            var screen := Rect(0, 0, screenWidth, screenHeight);
            !AnyAtEdge(fleet, screen) && !AnyAtBottom(fleet, screen)
  {
    LayoutMargins(screenWidth, screenHeight, size, shipHeight);
  }

  /** The fleet after every alien moved down by `drop`. */
  function Dropped(fleet: seq<Rect>, drop: int): (r: seq<Rect>)
    ensures |r| == |fleet|
  {
    seq(|fleet|, i requires 0 <= i < |fleet| => fleet[i].(y := fleet[i].y + drop))
  }

  /** The fleet after every alien moved across by `dx`. */
  function Shifted(fleet: seq<Rect>, dx: int): (r: seq<Rect>)
    ensures |r| == |fleet|
  {
    seq(|fleet|, i requires 0 <= i < |fleet| => fleet[i].(x := fleet[i].x + dx))
  }

  /** Moving horizontally leaves every alien's vertical extent, so it
      neither makes a fleet reach the bottom nor takes it away. */
  lemma ShiftedKeepsBottom(fleet: seq<Rect>, dx: int, screen: Rect)
    ensures AnyAtBottom(Shifted(fleet, dx), screen) == AnyAtBottom(fleet, screen)
  {
    if AnyAtBottom(fleet, screen) {
      var k :| 0 <= k < |fleet| && fleet[k].Bottom() >= screen.Bottom();
      assert Shifted(fleet, dx)[k].Bottom() >= screen.Bottom();
    }
  }

  /** For example, with a 1200 x 800 screen, 40 x 24 aliens and a 60-pixel
      ship, the fleet has 14 columns and 13 rows. */
  lemma ExampleLayout()
    ensures Columns(1200, Size(40, 24)) == 14
    ensures Rows(800, Size(40, 24), 60) == 13
    ensures |Layout(1200, 800, Size(40, 24), 60)| == 182
  {
    var size := Size(40, 24);
    assert Columns(1200, size) == (1200 - 80) / 80 == 14;
    assert Rows(800, size, 60) == (800 - 72 - 60) / 48 == 13;
    LayoutCount(1200, 800, size, 60);
  }
}
