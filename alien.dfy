/** One alien of the fleet (alien.py): the colour chosen from the level, the
    spawn position near the top-left corner, the side-edge query and the
    horizontal step in the fleet's direction. */
module Aliens {
  import opened Rects
  import opened Configuration

  /** The alien images, one per colour; levels cycle through them. */
  const Colors: seq<string> := ["images/alien_green.bmp", "images/alien_yellow.bmp",
                                "images/alien_orange.bmp", "images/alien_red.bmp"]

  /** The pixel size of a loaded image. */
  datatype Size = Size(width: nat, height: nat)

  /** The colour used at `level`: `(level - 1) % len(colors)`. Python's `%`
      with a positive divisor agrees with Dafny's. */
  function ColorIndex(level: int): (i: nat)
    ensures i < |Colors|
    ensures (level - 1 - i) % |Colors| == 0
    ensures 1 <= level <= |Colors| ==> i == level - 1
  {
    (level - 1) % |Colors|
  }

  /** A level four steps on uses the same colour. */
  lemma ColorIndexCycles(level: int)
    ensures ColorIndex(level + |Colors|) == ColorIndex(level)
  {
    var i := ColorIndex(level);
    assert level + |Colors| - 1 == (level - 1 - i) + |Colors| + i;
  }

  /** Where a new alien starts: one of its widths from the left edge and one
      of its heights from the top. */
  function SpawnRect(size: Size): (r: Rect)
    ensures r.width == size.width && r.height == size.height
    ensures r.Left() == size.width && r.Top() == size.height
  {
    Rect(size.width, size.height, size.width, size.height)
  }

  /** True when `r` touches either side of the screen (`check_edges`). */
  predicate AtEdge(r: Rect, screen: Rect) {
    r.Right() >= screen.Right() || r.Left() <= 0
  }

  /** An alien at its spawn position is clear of both side edges whenever
      two of its widths are positive and fit inside the screen width. */
  lemma SpawnNotAtEdge(size: Size, screenWidth: nat, screenHeight: nat)
    requires 0 < 2 * size.width < screenWidth
    ensures !AtEdge(SpawnRect(size), Rect(0, 0, screenWidth, screenHeight))
  {
  }

  class Alien {
    const settings: Settings
    const screen: Rect
    const colorIndex: nat
    var rect: Rect
    /** The exact horizontal position; `rect.x` follows it. */
    var x: int

    ghost predicate Valid()
      reads this
    {
      x == rect.x
    }

    /** `images` gives the size of each colour's image file. */
    constructor (settings: Settings, screen: Rect, level: int, images: seq<Size>)
      requires |images| == |Colors|
      ensures Valid()
      ensures this.settings == settings && this.screen == screen
      ensures colorIndex == ColorIndex(level)
      ensures rect == SpawnRect(images[colorIndex])
    {
      this.settings := settings;
      this.screen := screen;
      colorIndex := ColorIndex(level);
      var size := images[ColorIndex(level)];
      rect := Rect(0, 0, size.width, size.height);
      new;
      rect := rect.(x := rect.width);
      rect := rect.(y := rect.height);
      x := rect.x;
    }

    /** `check_edges`: does this alien touch a side of the screen? */
    predicate CheckEdges()
      reads this
    {
      AtEdge(rect, screen)
    }

    /** One horizontal step of `speed` in the fleet's direction; the vertical
        position is left alone. */
    method Update(speed: int)
      requires Valid() && settings.Valid()
      modifies this`x, this`rect
      ensures Valid()
      ensures x == old(x) + speed * settings.fleetDirection
      ensures rect == old(rect).(x := x)
      ensures 0 < speed ==> (old(rect.x) < rect.x <==> settings.fleetDirection == 1)
    {
      x := x + speed * settings.fleetDirection;
      rect := rect.(x := x);
    }
  }
}
