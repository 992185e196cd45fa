/** The overview's arithmetic: windows are drawn at one tenth of their real
    size, placed relative to their monitor's origin, and their icon is half
    the shorter side of the drawn button. Sizes and positions are exact reals
    here; the source computes them in floating point. */
module Geometry {

  /** Shrink factor from compositor pixels to overview pixels. */
  const SCALE: real := 0.1

  datatype Size = Size(width: real, height: real)

  datatype Point = Point(x: real, y: real)

  function Min(a: real, b: real): real
  {
    if a <= b then a else b
  }

  function Abs(n: int): nat
  {
    if n < 0 then -n else n
  }

  /** A window's drawn size: both sides scaled by SCALE. */
  function ScaledSize(width: int, height: int): Size
  {
    Size(width as real * SCALE, height as real * SCALE)
  }

  /** Where a window sits inside its workspace box: its distance from the
      origin of its monitor, on each axis, scaled by SCALE. */
  function Position(atX: int, atY: int, monitorX: int, monitorY: int): (p: Point)
    ensures p.x >= 0.0 && p.y >= 0.0
  {
    Point(Abs(atX - monitorX) as real * SCALE, Abs(atY - monitorY) as real * SCALE)
  }

  /** Python's `int()` on a number: truncation toward zero. */
  function Truncate(x: real): (r: int)
    ensures x >= 0.0 ==> r >= 0 && r as real <= x < r as real + 1.0
    ensures x < 0.0 ==> r <= 0 && r as real - 1.0 < x <= r as real
  {
    if x >= 0.0 then x.Floor else -((-x).Floor)
  }

  /** The transform a window button keeps: the monitor's transform modulo 4
      (Python's `%`, which agrees with Dafny's for a positive divisor). */
  function StoredTransform(transform: int): (r: int)
    ensures 0 <= r < 4
    ensures (transform - r) % 4 == 0
  {
    transform % 4
  }

  /** True when the size a button keeps is its drawn size with width and
      height exchanged. The test is made on the monitor's transform as
      given, before it is reduced modulo 4. */
  predicate SwapsSides(transform: int)
  {
    transform != 0 && transform != 2
  }

  /** The size a button keeps for its icon. */
  function StoredSize(size: Size, transform: int): Size
  {
    if SwapsSides(transform) then Size(size.height, size.width) else size
  }

  /** Side of a button's square icon: half the shorter side, truncated. */
  function IconSize(size: Size): int
  {
    Truncate(Min(size.width, size.height) * 0.5)
  }

  /** Turning the size a quarter turn never changes the icon size, so the
      icon is the same whatever the monitor's transform. */
  lemma IconSizeIgnoresTransform(size: Size, transform: int)
    ensures IconSize(StoredSize(size, transform)) == IconSize(size)
  {
    if SwapsSides(transform) {
      assert Min(size.height, size.width) == Min(size.width, size.height);
    }
  }

  /** The swap looks at the unreduced transform: a flipped-only transform
      (4) is kept as 0, yet the sides are still exchanged. */
  lemma FlippedTransformSwaps(size: Size)
    ensures StoredTransform(4) == 0
    ensures StoredSize(size, 4) == Size(size.height, size.width)
    ensures StoredSize(size, 0) == size
  {
  }

  lemma {:induction false} FloorOfQuotient(n: nat, d: nat)
    requires d > 0
    ensures (n as real / d as real).Floor == n / d
  {
    var q := n / d;
    var r := n % d;
    assert n == d * q + r;
    assert n as real == d as real * q as real + r as real;
    assert 0.0 <= r as real < d as real;
    assert n as real / d as real == q as real + r as real / d as real;
    assert 0.0 <= r as real / d as real < 1.0;
  }

  /** For a window of `width` × `height` compositor pixels the icon side is
      the shorter side divided by 20, rounded down. */
  lemma IconSizeOfWindow(width: nat, height: nat)
    ensures IconSize(ScaledSize(width, height)) == (if width <= height then width else height) / 20
  {
    var m: nat := if width <= height then width else height;
    var s := ScaledSize(width, height);
    assert Min(s.width, s.height) == m as real * SCALE;
    assert Min(s.width, s.height) * 0.5 == m as real / 20.0;
    FloorOfQuotient(m, 20);
  }

  /** Moving a window and its monitor by the same offset leaves the window
      where it was in the overview. */
  lemma PositionIsMonitorRelative(atX: int, atY: int, monitorX: int, monitorY: int, dx: int, dy: int)
    ensures Position(atX + dx, atY + dy, monitorX + dx, monitorY + dy)
         == Position(atX, atY, monitorX, monitorY)
  {
  }

  /** A window at the monitor's origin is drawn at the box's corner; a
      window 100 by 200 pixels from it at (10, 20). */
  lemma PositionExamples()
    ensures Position(1920, 0, 1920, 0) == Point(0.0, 0.0)
    ensures Position(100, 200, 0, 0) == Point(10.0, 20.0)
    ensures Position(0, 0, 100, 200) == Point(10.0, 20.0)
  {
  }
}
