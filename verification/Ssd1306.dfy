/** Line drawing into the page-packed frame buffer of the SSD1306 display (i2c/ssd1306_i2c/ssd1306_i2c.c). */
module Ssd1306 {
  const WIDTH := 128
  const HEIGHT := 32
  const PAGE_HEIGHT := 8
  const BUF_LEN := (HEIGHT / PAGE_HEIGHT) * WIDTH

  // ----- Pixels in the buffer

  predicate OnScreen(x: int, y: int) {
    0 <= x < WIDTH && 0 <= y < HEIGHT
  }

  /** `1 << row` */
  function Mask(row: nat): bv8
    requires row < PAGE_HEIGHT
  {
    match row
    case 0 => 1
    case 1 => 2
    case 2 => 4
    case 3 => 8
    case 4 => 16
    case 5 => 32
    case 6 => 64
    case _ => 128
  }

  function ByteIndex(x: int, y: int): (k: nat)
    requires OnScreen(x, y)
    ensures k < BUF_LEN
  {
    (y / 8) * WIDTH + x
  }

  /** Whether a pixel is lit: byte 0 of a page holds column 0, its lowest bit the top row. */
  predicate Lit(buffer: seq<bv8>, x: int, y: int)
    requires |buffer| == BUF_LEN && OnScreen(x, y)
  {
    buffer[ByteIndex(x, y)] & Mask(y % 8) != 0
  }

  /** The layout of the display in horizontal mode: 128 columns to a page of eight rows, a byte to a column, the top
      row lowest. */
  lemma Layout(buffer: seq<bv8>, x: int, y: int)
    requires |buffer| == 512 && 0 <= x < 128 && 0 <= y < 32
    ensures 0 <= 128 * (y / 8) + x < 512
    ensures Lit(buffer, x, y) <==> (buffer[128 * (y / 8) + x] >> (y % 8)) & 1 == 1
  {
    var byte := buffer[128 * (y / 8) + x];
    match y % 8
    case 0 =>
    case 1 =>
    case 2 =>
    case 3 =>
    case 4 =>
    case 5 =>
    case 6 =>
    case _ =>
  }

  /** `after` is `before` with exactly these pixels set to `on`. */
  ghost predicate Painted(before: seq<bv8>, after: seq<bv8>, points: seq<(int, int)>, on: bool)
    requires |before| == |after| == BUF_LEN
  {
    forall x, y :: OnScreen(x, y) ==>
      Lit(after, x, y) == if (x, y) in points then on else Lit(before, x, y)
  }

  lemma MaskApart(a: nat, b: nat)
    requires a < PAGE_HEIGHT && b < PAGE_HEIGHT
    ensures Mask(a) != 0 && (a != b ==> Mask(a) & Mask(b) == 0)
  {
  }

  lemma SetMask(byte: bv8, m: bv8, other: bv8)
    requires m != 0 && m & other == 0
    ensures (byte | m) & m != 0 && (byte & !m) & m == 0
    ensures (byte | m) & other == byte & other && (byte & !m) & other == byte & other
  {
  }

  lemma IndexApart(x: int, y: int, x': int, y': int)
    requires OnScreen(x, y) && OnScreen(x', y') && ByteIndex(x, y) == ByteIndex(x', y')
    ensures x == x' && y / 8 == y' / 8
    ensures y % 8 == y' % 8 ==> y == y'
  {
  }

  method SetPixel(buffer: array<bv8>, x: int, y: int, on: bool)
    requires buffer.Length == BUF_LEN && OnScreen(x, y)
    modifies buffer
    ensures Painted(old(buffer[..]), buffer[..], [(x, y)], on)
  {
    var k := ByteIndex(x, y);
    var byte := buffer[k];
    var mask := Mask(y % 8);
    if on { byte := byte | mask; } else { byte := byte & !mask; }
    buffer[k] := byte;
    assert buffer[..] == Written(old(buffer[..]), x, y, on);
    OnePainted(old(buffer[..]), x, y, on);
  }

  function Written(before: seq<bv8>, x: int, y: int, on: bool): (after: seq<bv8>)
    requires |before| == BUF_LEN && OnScreen(x, y)
    ensures |after| == BUF_LEN
  {
    var k := ByteIndex(x, y);
    before[k := if on then before[k] | Mask(y % 8) else before[k] & !Mask(y % 8)]
  }

  lemma OnePainted(before: seq<bv8>, x: int, y: int, on: bool)
    requires |before| == BUF_LEN && OnScreen(x, y)
    ensures Painted(before, Written(before, x, y, on), [(x, y)], on)
  {
    hide Written, Lit, Mask;
    forall x', y' | OnScreen(x', y')
      ensures Lit(Written(before, x, y, on), x', y') == if (x', y') in [(x, y)] then on else Lit(before, x', y')
    {
      PixelWritten(before, x, y, on, x', y');
    }
  }

  lemma PixelWritten(before: seq<bv8>, x: int, y: int, on: bool, x': int, y': int)
    requires |before| == BUF_LEN && OnScreen(x, y) && OnScreen(x', y')
    ensures Lit(Written(before, x, y, on), x', y') == if (x', y') == (x, y) then on else Lit(before, x', y')
  {
    var k, m, other := ByteIndex(x, y), Mask(y % 8), Mask(y' % 8);
    if ByteIndex(x', y') == k {
      IndexApart(x, y, x', y');
      MaskApart(y % 8, y' % 8);
      if y == y' { SetMask(before[k], m, 0); } else { SetMask(before[k], m, other); }
    }
  }

  // ----- The line

  function Abs(v: int): nat {
    if v < 0 then -v else v
  }

  function Max(a: nat, b: nat): nat {
    if a < b then b else a
  }

  /** `p / q` to the nearest whole number, halves upwards. */
  function Nearest(p: nat, q: nat): nat {
    if q == 0 then 0 else (2 * p + q) / (2 * q)
  }

  /** How far the `n`-th pixel of a line is from its start: one step at a time along the longer axis, the
      rounded height of the ideal line along the other. */
  function Offset(dx: nat, dy: nat, n: nat): (nat, nat) {
    if dx >= dy then (n, Nearest(n * dy, dx)) else (Nearest(n * dx, dy), n)
  }

  function Toward(a: int, b: int): int {
    if a < b then 1 else -1
  }

  function Point(x0: int, y0: int, x1: int, y1: int, n: nat): (int, int) {
    var (i, j) := Offset(Abs(x1 - x0), Abs(y1 - y0), n);
    (x0 + Toward(x0, x1) * i, y0 + Toward(y0, y1) * j)
  }

  function Line(x0: int, y0: int, x1: int, y1: int, count: nat): (points: seq<(int, int)>)
    ensures |points| == count && forall n :: 0 <= n < count ==> points[n] == Point(x0, y0, x1, y1, n)
  {
    seq(count, n requires 0 <= n < count => Point(x0, y0, x1, y1, n))
  }

  /** The rounded height is the one within half a step of the ideal line, the upper one at a tie. */
  lemma NearestUnique(p: nat, q: nat, j: int)
    requires q > 0 && -(q as int) < 2 * (j * q - p) <= q
    ensures j == Nearest(p, q)
  {
    assert 2 * q * j <= 2 * p + q < 2 * q * (j + 1);
    Quotient(2 * p + q, 2 * q, j);
  }

  lemma TimesGrows(b: nat, k: int)
    requires k >= 1
    ensures b * k >= b
  {
  }

  lemma Spread(b: nat, low: int, high: int)
    requires low < high
    ensures b * high >= b * low + b
  {
    TimesGrows(b, high - low);
    assert b * (high - low) == b * high - b * low;
  }

  lemma Quotient(a: nat, b: nat, q: int)
    requires b > 0 && b * q <= a < b * (q + 1)
    ensures a / b == q
  {
    var q' := a / b;
    assert b * q' <= a < b * q' + b;
    assert b * (q + 1) == b * q + b;
    if q' < q { Spread(b, q', q); } else if q' > q { Spread(b, q, q'); }
  }

  lemma NearestBounds(p: nat, q: nat)
    requires q > 0
    ensures -(q as int) < 2 * (Nearest(p, q) * q - p) <= q
  {
    var a, b := 2 * p + q, 2 * q;
    assert a == b * (a / b) + a % b;
  }

  /** Every pixel is within half a pixel of the ideal line, measured along the shorter axis. */
  lemma HalfPixel(dx: nat, dy: nat, n: nat)
    requires n <= Max(dx, dy)
    ensures var (i, j) := Offset(dx, dy, n); 2 * Abs(j * dx - i * dy) <= Max(dx, dy)
  {
    if dx >= dy {
      if dx > 0 { NearestBounds(n * dy, dx); }
    } else {
      NearestBounds(n * dx, dy);
    }
  }

  /** No other pixel in its column (or row, for a steep line) is closer. */
  lemma ClosestPixel(dx: nat, dy: nat, n: nat, other: int)
    requires n <= Max(dx, dy)
    ensures var (i, j) := Offset(dx, dy, n);
            if dx >= dy then Abs(j * dx - i * dy) <= Abs(other * dx - i * dy)
            else Abs(j * dx - i * dy) <= Abs(j * dx - other * dy)
  {
    var (i, j) := Offset(dx, dy, n);
    HalfPixel(dx, dy, n);
    if dx >= dy {
      if other != j { Apart(other, j, dx); }
    } else {
      if other != i { Apart(other, i, dy); }
    }
  }

  lemma Apart(a: int, b: int, q: nat)
    requires a != b
    ensures Abs(a * q - b * q) >= q
  {
    if a > b { Spread(q, b, a); } else { Spread(q, a, b); }
  }

  /** The line begins at its start and ends on its target. */
  lemma EndsOnTarget(dx: nat, dy: nat)
    ensures Offset(dx, dy, 0) == (0, 0) && Offset(dx, dy, Max(dx, dy)) == (dx, dy)
  {
    if dx >= dy {
      if dx > 0 {
        NearestUnique(0, dx, 0);
        NearestUnique(dx * dy, dx, dy);
      }
    } else {
      NearestUnique(0, dy, 0);
      NearestUnique(dy * dx, dy, dx);
    }
  }

  /** One pixel to the next: a full step along the longer axis, at most one along the other, never
      backwards. */
  lemma Connected(dx: nat, dy: nat, n: nat)
    requires n < Max(dx, dy)
    ensures var (i, j), (i', j') := Offset(dx, dy, n), Offset(dx, dy, n + 1);
            && i <= i' <= i + 1 && j <= j' <= j + 1 && (i', j') != (i, j)
  {
    if dx >= dy { NearestSteps(n, dx, dy); } else { NearestSteps(n, dy, dx); }
  }

  lemma NearestSteps(n: nat, long: nat, short: nat)
    requires short <= long && long > 0
    ensures Nearest(n * short, long) <= Nearest((n + 1) * short, long) <= Nearest(n * short, long) + 1
  {
    var p := n * short;
    var j := Nearest(p, long);
    assert (n + 1) * short == p + short;
    NearestBounds(p, long);
    if 2 * (j * long - (p + short)) > -(long as int) {
      NearestUnique(p + short, long, j);
    } else {
      assert (j + 1) * long == j * long + long;
      NearestUnique(p + short, long, j + 1);
    }
  }

  lemma {:induction false} WithinBox(dx: nat, dy: nat, n: nat)
    requires n <= Max(dx, dy)
    ensures var (i, j) := Offset(dx, dy, n); i <= dx && j <= dy
    decreases Max(dx, dy) - n
  {
    EndsOnTarget(dx, dy);
    if n < Max(dx, dy) {
      Connected(dx, dy, n);
      WithinBox(dx, dy, n + 1);
    }
  }

  lemma PaintedMore(a: seq<bv8>, b: seq<bv8>, c: seq<bv8>, points: seq<(int, int)>, p: (int, int), on: bool)
    requires |a| == |b| == |c| == BUF_LEN && Painted(a, b, points, on) && Painted(b, c, [p], on)
    ensures Painted(a, c, points + [p], on)
  {
    hide Lit;
  }

  /** Where the loop stands after `n` steps: the pixel, and the error term. */
  predicate Standing(x0: int, y0: int, x1: int, y1: int, n: nat, x: int, y: int, err: int) {
    var dx, dy := Abs(x1 - x0), Abs(y1 - y0);
    var (i, j) := Offset(dx, dy, n);
    n <= Max(dx, dy) && (x, y) == Point(x0, y0, x1, y1, n) && err == (j + 1) * dx - (i + 1) * dy
  }

  /** The two tests of the loop step to the next pixel. */
  lemma OffsetStep(dx: nat, dy: nat, n: nat)
    requires n < Max(dx, dy)
    ensures var (i, j) := Offset(dx, dy, n);
            var err := (j + 1) * dx - (i + 1) * dy;
            && Offset(dx, dy, n + 1) == (if 2 * err >= 0 - dy then i + 1 else i, if 2 * err <= dx then j + 1 else j)
  {
    var (i, j) := Offset(dx, dy, n);
    assert (j + 1) * dx == j * dx + dx && (i + 1) * dy == i * dy + dy;
    var err := (j + 1) * dx - (i + 1) * dy;
    if dx >= dy {
      NearestBounds(n * dy, dx);
      assert (n + 1) * dy == n * dy + dy;
      NearestUnique((n + 1) * dy, dx, if 2 * err <= dx then j + 1 else j);
    } else {
      NearestBounds(n * dx, dy);
      assert (n + 1) * dx == n * dx + dx;
      NearestUnique((n + 1) * dx, dy, if 2 * err >= 0 - dy then i + 1 else i);
    }
  }

  lemma ErrorMoves(dx: nat, dy: nat, i: nat, j: nat, right: bool, down: bool)
    ensures (j + 1) * dx - (i + 1) * dy + (if right then 0 - dy else 0) + (if down then dx else 0) ==
            ((if down then j + 1 else j) + 1) * dx - ((if right then i + 1 else i) + 1) * dy
  {
    assert (j + 2) * dx == (j + 1) * dx + dx && (i + 2) * dy == (i + 1) * dy + dy;
  }

  lemma PlaceMoves(a: int, b: int, k: nat, on: bool)
    ensures a + Toward(a, b) * (if on then k + 1 else k) ==
            (a + Toward(a, b) * k) + if on then Toward(a, b) else 0
  {
  }

  lemma StandingStep(x0: int, y0: int, x1: int, y1: int, n: nat, x: int, y: int, err: int)
    requires Standing(x0, y0, x1, y1, n, x, y, err) && n < Max(Abs(x1 - x0), Abs(y1 - y0))
    ensures var dx, dy := Abs(x1 - x0), 0 - Abs(y1 - y0);
            var right, down := 2 * err >= dy, 2 * err <= dx;
            Standing(x0, y0, x1, y1, n + 1,
                     if right then x + Toward(x0, x1) else x, if down then y + Toward(y0, y1) else y,
                     err + (if right then dy else 0) + (if down then dx else 0))
  {
    hide Offset, Abs, Toward;
    var dx, dy := Abs(x1 - x0), Abs(y1 - y0);
    OffsetStep(dx, dy, n);
    var (i, j) := Offset(dx, dy, n);
    var right, down := 2 * err + dy >= 0, 2 * err <= dx;
    ErrorMoves(dx, dy, i, j, right, down);
    PlaceMoves(x0, x1, i, right);
    PlaceMoves(y0, y1, j, down);
  }

  lemma PointOnScreen(x0: int, y0: int, x1: int, y1: int, n: nat)
    requires OnScreen(x0, y0) && OnScreen(x1, y1) && n <= Max(Abs(x1 - x0), Abs(y1 - y0))
    ensures var (x, y) := Point(x0, y0, x1, y1, n);
            && OnScreen(x, y)
            && ((x, y) == (x1, y1) <==> n == Max(Abs(x1 - x0), Abs(y1 - y0)))
  {
    var dx, dy := Abs(x1 - x0), Abs(y1 - y0);
    WithinBox(dx, dy, n);
    EndsOnTarget(dx, dy);
  }

  lemma StandingStart(x0: int, y0: int, x1: int, y1: int)
    ensures Standing(x0, y0, x1, y1, 0, x0, y0, Abs(x1 - x0) - Abs(y1 - y0))
  {
    EndsOnTarget(Abs(x1 - x0), Abs(y1 - y0));
  }

  /** Bresenham's algorithm for every direction: it sets exactly the pixels of the line, one for each step
      along its longer axis and the first. */
  method DrawLine(buffer: array<bv8>, x0: int, y0: int, x1: int, y1: int, on: bool)
    requires buffer.Length == BUF_LEN && OnScreen(x0, y0) && OnScreen(x1, y1)
    modifies buffer
    ensures Painted(old(buffer[..]), buffer[..], Line(x0, y0, x1, y1, Max(Abs(x1 - x0), Abs(y1 - y0)) + 1), on)
  {
    hide Painted, Offset, Point, OnScreen, Abs;
    var dx: int := Abs(x1 - x0);
    var sx := if x0 < x1 then 1 else -1;
    var dy: int := 0 - Abs(y1 - y0);
    var sy := if y0 < y1 then 1 else -1;
    var err := dx + dy;
    var x, y := x0, y0;
    ghost var steps := Max(Abs(x1 - x0), Abs(y1 - y0));
    ghost var n := 0;
    StandingStart(x0, y0, x1, y1);
    NothingPainted(buffer[..], on);
    while true
      invariant 0 <= n <= steps && Standing(x0, y0, x1, y1, n, x, y, err)
      invariant Painted(old(buffer[..]), buffer[..], Line(x0, y0, x1, y1, n), on)
      decreases steps - n
    {
      PointOnScreen(x0, y0, x1, y1, n);
      ghost var before := buffer[..];
      SetPixel(buffer, x, y, on);
      PaintedMore(old(buffer[..]), before, buffer[..], Line(x0, y0, x1, y1, n), (x, y), on);
      assert Line(x0, y0, x1, y1, n + 1) == Line(x0, y0, x1, y1, n) + [(x, y)];
      if x == x1 && y == y1 {
        break;
      }
      StandingStep(x0, y0, x1, y1, n, x, y, err);
      var e2 := 2 * err;
      if e2 >= dy {
        err := err + dy;
        x := x + sx;
      }
      if e2 <= dx {
        err := err + dx;
        y := y + sy;
      }
      n := n + 1;
    }
  }

  lemma NothingPainted(buffer: seq<bv8>, on: bool)
    requires |buffer| == BUF_LEN
    ensures Painted(buffer, buffer, [], on)
  {
  }
}
