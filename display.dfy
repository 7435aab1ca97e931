/** The frame buffer of the display peripheral: a flat array of 64 x 32 booleans,
    pixel (x, y) at index x + y * COLS. Only the state and its three operations are
    modelled here; drawing to a canvas is not. */
module Display {

  const ROWS: nat := 32
  const COLS: nat := 64
  const SIZE: nat := COLS * ROWS

  /** Wraps an out-of-bounds coordinate back by one screen width or height.
      Note the bounds: COLS itself and ROWS itself are left alone. */
  function NormalizePixel(x: int, y: int): (r: (int, int))
    ensures 0 <= x <= COLS ==> r.0 == x
    ensures x > COLS ==> r.0 == x - COLS
    ensures x < 0 ==> r.0 == x + COLS
    ensures 0 <= y <= ROWS ==> r.1 == y
    ensures y > ROWS ==> r.1 == y - ROWS
    ensures y < 0 ==> r.1 == y + ROWS
    ensures -(COLS as int) <= x <= 2 * COLS ==> 0 <= r.0 <= COLS
    ensures -(ROWS as int) <= y <= 2 * ROWS ==> 0 <= r.1 <= ROWS
  {
    var x1 := if x > COLS then x - COLS else x;
    var x2 := if x1 < 0 then x1 + COLS else x1;
    var y1 := if y > ROWS then y - ROWS else y;
    var y2 := if y1 < 0 then y1 + ROWS else y1;
    (x2, y2)
  }

  /** The array slot togglePixel touches for (x, y). */
  function PixelIndex(x: int, y: int): (r: int)
    ensures 0 <= x <= COLS && 0 <= y <= ROWS ==> r == x + y * COLS
  {
    var (nx, ny) := NormalizePixel(x, y);
    nx + ny * COLS
  }

  /** A coordinate on the screen names its own slot, which lies inside the buffer. */
  lemma PixelIndexOnScreen(x: int, y: int)
    requires 0 <= x < COLS && 0 <= y < ROWS
    ensures PixelIndex(x, y) == x + y * COLS
    ensures 0 <= PixelIndex(x, y) < SIZE
  {
  }

  /** togglePixel: flips one slot and reports whether that pixel was lit,
      i.e. whether this toggle erased it. */
  function Toggle(pixels: seq<bool>, x: int, y: int): (r: (seq<bool>, bool))
    requires 0 <= PixelIndex(x, y) < |pixels|
    ensures |r.0| == |pixels|
    ensures r.0[PixelIndex(x, y)] == !pixels[PixelIndex(x, y)]
    ensures forall q :: 0 <= q < |pixels| && q != PixelIndex(x, y) ==> r.0[q] == pixels[q]
    ensures r.1 <==> pixels[PixelIndex(x, y)]
  {
    var p := PixelIndex(x, y);
    var flipped := pixels[p := !pixels[p]];
    (flipped, !flipped[p])
  }

  /** On the screen, toggling flips exactly slot x + y * COLS, leaves every other
      slot alone, and reports whether that pixel was lit. */
  lemma ToggleOnScreen(pixels: seq<bool>, x: int, y: int)
    requires |pixels| == SIZE && 0 <= x < COLS && 0 <= y < ROWS
    ensures 0 <= x + y * COLS < SIZE
    ensures Toggle(pixels, x, y).0 == pixels[x + y * COLS := !pixels[x + y * COLS]]
    ensures Toggle(pixels, x, y).1 <==> pixels[x + y * COLS]
  {
    PixelIndexOnScreen(x, y);
  }

  /** Toggling the same coordinate twice restores the buffer, and the two calls
      report opposite results. */
  lemma ToggleTwice(pixels: seq<bool>, x: int, y: int)
    requires 0 <= PixelIndex(x, y) < |pixels|
    ensures Toggle(Toggle(pixels, x, y).0, x, y).0 == pixels
    ensures Toggle(Toggle(pixels, x, y).0, x, y).1 == !Toggle(pixels, x, y).1
  {
    var once := Toggle(pixels, x, y).0;
    var twice := Toggle(once, x, y).0;
    assert forall q :: 0 <= q < |pixels| ==> twice[q] == pixels[q];
  }

  /** The buffer as `new Array(COLS * ROWS).fill(false)` and `clear` leave it. */
  function Cleared(): (r: seq<bool>)
    ensures |r| == SIZE
    ensures forall q :: 0 <= q < |r| ==> !r[q]
  {
    seq(SIZE, _ => false)
  }
}
