/** Bit-sliced brightness and dither for up to 32 strips of WS2812 pixels (pio/ws2812/ws2812_parallel.c).
    A value is stored as 12 planes, most significant first; bit `i` of a plane belongs to strip `i`. */
module Ws2812 {
  import opened Wrappers

  const PLANES := 12    // VALUE_PLANE_COUNT: eight bits and four of fraction
  const UINT := 0x1_0000_0000

  type Uint = u: int | 0 <= u < UINT

  // ----- Lanes

  predicate Lane(w: bv32, i: bv5) {
    (w >> i) & 1 == 1
  }

  function Bit(w: bv32, i: bv5): (b: nat)
    ensures b <= 1
  {
    Digit(Lane(w, i))
  }

  lemma LaneZero(i: bv5)
    ensures !Lane(0, i)
  {
  }

  function Digit(b: bool): nat {
    if b then 1 else 0
  }

  lemma Digits(e: bool, s: bool, c: bool)
    ensures Digit((e != s) != c) + 2 * Digit(if e == s then e else c) == Digit(e) + Digit(s) + Digit(c)
  {
  }

  /** The two planes a full adder makes of three. */
  function SumOf(e: bv32, s: bv32, c: bv32): bv32 {
    (e ^ s) ^ c
  }

  function CarryOf(e: bv32, s: bv32, c: bv32): bv32 {
    (e & s) | (c & (s ^ e))
  }

  lemma XorLanes(e: bv32, s: bv32, c: bv32, i: bv5)
    ensures Lane((e ^ s) ^ c, i) == ((Lane(e, i) != Lane(s, i)) != Lane(c, i))
  {
  }

  lemma MajorityLanes(e: bv32, s: bv32, c: bv32, i: bv5)
    ensures Lane((e & s) | (c & (s ^ e)), i) == if Lane(e, i) == Lane(s, i) then Lane(e, i) else Lane(c, i)
  {
  }

  lemma AdderSum(e: bv32, s: bv32, c: bv32, i: bv5)
    ensures Lane(SumOf(e, s, c), i) == ((Lane(e, i) != Lane(s, i)) != Lane(c, i))
  {
    hide Lane;
    XorLanes(e, s, c, i);
  }

  lemma AdderCarry(e: bv32, s: bv32, c: bv32, i: bv5)
    ensures Lane(CarryOf(e, s, c), i) == if Lane(e, i) == Lane(s, i) then Lane(e, i) else Lane(c, i)
  {
    hide Lane;
    MajorityLanes(e, s, c, i);
  }

  /** One position of the adder, in every lane. */
  lemma FullAdder(e: bv32, s: bv32, c: bv32, i: bv5)
    ensures Bit(SumOf(e, s, c), i) + 2 * Bit(CarryOf(e, s, c), i) == Bit(e, i) + Bit(s, i) + Bit(c, i)
  {
    hide Lane, Digit, SumOf, CarryOf;
    AdderSum(e, s, c, i);
    AdderCarry(e, s, c, i);
    Digits(Lane(e, i), Lane(s, i), Lane(c, i));
  }

  function RippleSum(s: bv32, c: bv32): bv32 {
    s ^ c
  }

  function RippleCarry(s: bv32, c: bv32): bv32 {
    c & s
  }

  /** Rippling a carry is adding nothing. */
  lemma Ripple(s: bv32, c: bv32)
    ensures SumOf(0, s, c) == RippleSum(s, c) && CarryOf(0, s, c) == RippleCarry(s, c)
  {
  }

  // ----- Values

  function Weight(p: nat): nat
    requires p <= PLANES
  {
    match p
    case 0 => 2048
    case 1 => 1024
    case 2 => 512
    case 3 => 256
    case 4 => 128
    case 5 => 64
    case 6 => 32
    case 7 => 16
    case 8 => 8
    case 9 => 4
    case 10 => 2
    case 11 => 1
    case _ => 0
  }

  type Planes = p: seq<bv32> | |p| == PLANES witness seq(PLANES, _ => 0)

  /** What planes `p` and below say in one lane. */
  function Low(planes: Planes, p: nat, i: bv5): nat
    requires p <= PLANES
    decreases PLANES - p
  {
    if p == PLANES then 0 else Bit(planes[p], i) * Weight(p) + Low(planes, p + 1, i)
  }

  function Value(planes: Planes, i: bv5): nat {
    Low(planes, 0, i)
  }

  lemma {:induction false} LowFrame(a: Planes, b: Planes, p: nat, i: bv5)
    requires p <= PLANES && forall q :: p <= q < PLANES ==> a[q] == b[q]
    ensures Low(a, p, i) == Low(b, p, i)
    decreases PLANES - p
  {
    if p < PLANES { LowFrame(a, b, p + 1, i); }
  }

  lemma {:induction false} LowBound(planes: Planes, p: nat, i: bv5)
    requires p <= PLANES
    ensures Low(planes, p, i) < if p == 0 then 4096 else if p == PLANES then 1 else 2 * Weight(p)
    decreases PLANES - p
  {
    if p < PLANES { LowBound(planes, p + 1, i); }
  }

  lemma LowStep(planes: Planes, p: nat, i: bv5)
    requires p < PLANES
    ensures Low(planes, p, i) == Bit(planes[p], i) * Weight(p) + Low(planes, p + 1, i)
  {
  }

  /** The byte the eight planes sent to the strips spell in one lane, most significant first. */
  function Sent(planes: Planes, i: bv5): nat {
    Bit(planes[0], i) * 128 + Bit(planes[1], i) * 64 + Bit(planes[2], i) * 32 + Bit(planes[3], i) * 16
    + Bit(planes[4], i) * 8 + Bit(planes[5], i) * 4 + Bit(planes[6], i) * 2 + Bit(planes[7], i)
  }

  /** The fraction is what the four low planes hold, and what is sent is the rest. */
  lemma Fraction(planes: Planes, i: bv5)
    ensures Value(planes, i) % 16 == Low(planes, 8, i) && Value(planes, i) / 16 == Sent(planes, i)
    ensures Value(planes, i) < 4096
  {
    Unrolled(planes, i);
    LowBound(planes, 8, i);
    LowBound(planes, 0, i);
    hide Low, Sent;
  }

  lemma Unrolled(planes: Planes, i: bv5)
    ensures Value(planes, i) == 16 * Sent(planes, i) + Low(planes, 8, i)
  {
    hide Bit, Low;
    LowStep(planes, 0, i);
    LowStep(planes, 1, i);
    LowStep(planes, 2, i);
    LowStep(planes, 3, i);
    LowStep(planes, 4, i);
    LowStep(planes, 5, i);
    LowStep(planes, 6, i);
    LowStep(planes, 7, i);
  }

  // ----- The bit-sliced adder

  /** The weight of a carry out of planes `p` and below. */
  function CarryWeight(p: nat): nat
    requires p <= PLANES
  {
    if p == 0 then 4096 else Weight(p - 1)
  }

  /** Planes `p` and below of `d` and the carry plane hold the sum, in one lane; only the low four planes of
      `e` take part. */
  predicate SummedIn(d: Planes, s: Planes, e: Planes, p: nat, carry: bv32, i: bv5)
    requires p <= PLANES
  {
    Low(d, p, i) + Bit(carry, i) * CarryWeight(p) == Low(s, p, i) + Low(e, if p < 8 then 8 else p, i)
  }

  ghost predicate Summed(d: Planes, s: Planes, e: Planes, p: nat, carry: bv32)
    requires p <= PLANES
  {
    forall i: bv5 :: SummedIn(d, s, e, p, carry, i)
  }

  lemma Scaled(x: nat, y: nat, a: nat, b: nat, c: nat, w: nat)
    requires x + 2 * y == a + b + c
    ensures x * w + y * (2 * w) == a * w + b * w + c * w
  {
    assert (x + 2 * y) * w == x * w + y * (2 * w);
    assert (a + b + c) * w == a * w + b * w + c * w;
  }

  lemma Weights(p: nat)
    requires p < PLANES
    ensures CarryWeight(p + 1) == Weight(p) && CarryWeight(p) == 2 * Weight(p)
  {
  }

  /** The plane of `e` that takes part at position `p`. */
  function Addend(e: Planes, p: nat): bv32
    requires p < PLANES
  {
    if p < 8 then 0 else e[p]
  }

  lemma AddendLow(e: Planes, p: nat, i: bv5)
    requires p < PLANES
    ensures Low(e, if p < 8 then 8 else p, i)
         == Bit(Addend(e, p), i) * Weight(p) + Low(e, if p + 1 < 8 then 8 else p + 1, i)
  {
    LaneZero(i);
    hide Lane;
  }

  lemma SummedNext(d: Planes, s: Planes, e: Planes, p: nat, c: bv32, i: bv5)
    requires p < PLANES && SummedIn(d, s, e, p + 1, c, i)
    ensures SummedIn(d[p := SumOf(Addend(e, p), s[p], c)], s, e, p, CarryOf(Addend(e, p), s[p], c), i)
  {
    hide Bit, Low, Weight, CarryWeight, SumOf, CarryOf, Addend;
    var a := Addend(e, p);
    var d', c' := d[p := SumOf(a, s[p], c)], CarryOf(a, s[p], c);
    LowFrame(d, d', p + 1, i);
    FullAdder(a, s[p], c, i);
    Scaled(Bit(SumOf(a, s[p], c), i), Bit(c', i), Bit(a, i), Bit(s[p], i), Bit(c, i), Weight(p));
    LowStep(d', p, i);
    LowStep(s, p, i);
    AddendLow(e, p, i);
    Weights(p);
  }

  /** `d` is `s` plus the fraction of `e`, in one lane. */
  predicate ErrorAddedIn(d: Planes, s: Planes, e: Planes, i: bv5) {
    Value(d, i) == (Value(s, i) + Value(e, i) % 16) % 4096
  }

  ghost predicate ErrorAdded(d: Planes, s: Planes, e: Planes) {
    forall i: bv5 :: ErrorAddedIn(d, s, e, i)
  }

  lemma Carried(x: nat, carry: nat, y: nat)
    requires x < 4096 && x + carry * 4096 == y
    ensures x == y % 4096
  {
  }

  lemma SummedAll(d: Planes, s: Planes, e: Planes, carry: bv32)
    requires Summed(d, s, e, 0, carry)
    ensures ErrorAdded(d, s, e)
  {
    hide Bit, Low;
    forall i: bv5 ensures ErrorAddedIn(d, s, e, i) {
      assert SummedIn(d, s, e, 0, carry, i);
      Fraction(d, i);
      Fraction(e, i);
      Carried(Value(d, i), Bit(carry, i), Value(s, i) + Low(e, 8, i));
    }
  }

  // ----- Values in memory: an array of structures of 12 words

  function Slot(values: array2<bv32>, k: nat): (planes: Planes)
    requires values.Length1 == PLANES && k < values.Length0
    reads values
    ensures forall q :: 0 <= q < PLANES ==> planes[q] == values[k, q]
  {
    seq(PLANES, q requires 0 <= q < PLANES reads values => values[k, q])
  }

  lemma SummedStart(d: Planes, s: Planes, e: Planes)
    ensures Summed(d, s, e, PLANES, 0)
  {
    forall i: bv5 ensures SummedIn(d, s, e, PLANES, 0, i) { LaneZero(i); }
  }

  lemma SummedStep(d: Planes, s: Planes, e: Planes, p: nat, c: bv32)
    requires p < PLANES && Summed(d, s, e, p + 1, c)
    ensures Summed(d[p := SumOf(Addend(e, p), s[p], c)], s, e, p, CarryOf(Addend(e, p), s[p], c))
  {
    hide SummedIn, SumOf, CarryOf, Addend;
    var sum, carry := d[p := SumOf(Addend(e, p), s[p], c)], CarryOf(Addend(e, p), s[p], c);
    forall i: bv5 ensures SummedIn(sum, s, e, p, carry, i) {
      assert SummedIn(d, s, e, p + 1, c, i);
      SummedNext(d, s, e, p, c, i);
    }
  }

  /** add_error: `d` may be the same structure as `s` or `e`. */
  method AddError(d: array2<bv32>, dk: nat, s: array2<bv32>, sk: nat, e: array2<bv32>, ek: nat)
    requires d.Length1 == s.Length1 == e.Length1 == PLANES && dk < d.Length0 && sk < s.Length0 && ek < e.Length0
    modifies d
    ensures ErrorAdded(Slot(d, dk), old(Slot(s, sk)), old(Slot(e, ek)))
    ensures forall k, q :: 0 <= k < d.Length0 && 0 <= q < PLANES && k != dk ==> d[k, q] == old(d[k, q])
  {
    hide Summed, ErrorAdded, SumOf, CarryOf, RippleSum, RippleCarry;
    ghost var sum, first, second := Slot(d, dk), Slot(s, sk), Slot(e, ek);
    var carry: bv32 := 0;
    SummedStart(sum, first, second);
    for p := PLANES downto 8
      invariant 8 <= p <= PLANES && Summed(sum, first, second, p, carry)
      invariant forall q :: 0 <= q < PLANES ==> d[dk, q] == sum[q]
      invariant forall q :: 0 <= q < p ==> s[sk, q] == first[q] && e[ek, q] == second[q]
      invariant forall k, q :: 0 <= k < d.Length0 && 0 <= q < PLANES && k != dk ==> d[k, q] == old(d[k, q])
    {
      var ePlane := e[ek, p];
      var sPlane := s[sk, p];
      SummedStep(sum, first, second, p, carry);
      d[dk, p] := SumOf(ePlane, sPlane, carry);
      sum := sum[p := SumOf(ePlane, sPlane, carry)];
      carry := CarryOf(ePlane, sPlane, carry);
    }
    for p := 8 downto 0
      invariant 0 <= p <= 8 && Summed(sum, first, second, p, carry)
      invariant forall q :: 0 <= q < PLANES ==> d[dk, q] == sum[q]
      invariant forall q :: 0 <= q < p ==> s[sk, q] == first[q]
      invariant forall k, q :: 0 <= k < d.Length0 && 0 <= q < PLANES && k != dk ==> d[k, q] == old(d[k, q])
    {
      var sPlane := s[sk, p];
      SummedStep(sum, first, second, p, carry);
      Ripple(sPlane, carry);
      d[dk, p] := RippleSum(sPlane, carry);
      sum := sum[p := RippleSum(sPlane, carry)];
      carry := RippleCarry(sPlane, carry);
    }
    SummedAll(sum, first, second, carry);
    assert Slot(d, dk) == sum;
  }

  // ----- Colours into planes

  /** One LED strip's bytes and its brightness, 256 being full. */
  datatype Strip = Strip(data: seq<Byte>, brightness: Uint)

  function LaneOf(k: nat): bv5
    requires k < 32
  {
    k as bv5
  }

  function IndexOf(i: bv5): nat {
    i as nat
  }

  lemma LaneIndex(k: nat, i: bv5)
    requires k < 32
    ensures LaneOf(k) == i <==> IndexOf(i) == k
  {
  }

  /** `w | 1u << i` */
  function WithLane(w: bv32, i: bv5): bv32 {
    w | ((1 as bv32) << i)
  }

  lemma SetLane(w: bv32, k: bv5, i: bv5)
    ensures Lane(WithLane(w, k), i) == (i == k || Lane(w, i))
  {
  }

  /** The value of one colour byte, scaled twice in 32-bit arithmetic; nothing past the strip's end. */
  function Scaled12(strip: Strip, v: nat, brightness: Uint): nat {
    if v < |strip.data| then
      var value := (strip.data[v] * strip.brightness) % UINT / 256;
      (value * brightness) % UINT / 256
    else 0
  }

  function Requested(strips: seq<Strip>, v: nat, brightness: Uint, i: bv5): nat {
    if IndexOf(i) < |strips| then Scaled12(strips[IndexOf(i)], v, brightness) else 0
  }

  /** One lane is the same in both. */
  ghost predicate SameLane(a: Planes, b: Planes, i: bv5) {
    forall p :: 0 <= p < PLANES ==> Lane(a[p], i) == Lane(b[p], i)
  }

  ghost predicate ClearFrom(planes: Planes, top: nat, i: bv5) {
    forall p :: 0 <= p < top && p < PLANES ==> !Lane(planes[p], i)
  }

  lemma {:induction false} SameLow(a: Planes, b: Planes, p: nat, i: bv5)
    requires p <= PLANES && SameLane(a, b, i)
    ensures Low(a, p, i) == Low(b, p, i)
    decreases PLANES - p
  {
    hide Lane;
    if p < PLANES { SameLow(a, b, p + 1, i); }
  }

  lemma {:induction false} ClearLow(planes: Planes, top: nat, p: nat, i: bv5)
    requires p <= top <= PLANES && ClearFrom(planes, top, i)
    ensures Low(planes, p, i) == Low(planes, top, i)
    decreases top - p
  {
    hide Lane, Weight;
    if p < top {
      ClearLow(planes, top, p + 1, i);
      assert Bit(planes[p], i) == 0;
    }
  }

  /** The low bits of `whole` are in the planes from `p` on, the rest is still to be stored. */
  predicate Stored(planes: Planes, p: nat, rest: nat, whole: nat, i: bv5)
    requires p <= PLANES
  {
    CarryWeight(p) * rest + Low(planes, p, i) == whole
  }

  lemma Halved(w: nat, rest: nat)
    ensures w * rest == 2 * w * (rest / 2) + w * (rest % 2)
  {
    assert rest == 2 * (rest / 2) + rest % 2;
    assert w * (2 * (rest / 2) + rest % 2) == w * (2 * (rest / 2)) + w * (rest % 2);
  }

  lemma StoredNext(planes: Planes, p: nat, rest: nat, whole: nat, i: bv5)
    requires p < PLANES && Stored(planes, p + 1, rest, whole, i) && !Lane(planes[p], i)
    ensures Stored(if rest % 2 == 1 then planes[p := WithLane(planes[p], i)] else planes, p, rest / 2, whole, i)
  {
    hide Lane, Low, Weight, CarryWeight, WithLane;
    var planes' := if rest % 2 == 1 then planes[p := WithLane(planes[p], i)] else planes;
    SetLane(planes[p], i, i);
    LowFrame(planes, planes', p + 1, i);
    LowStep(planes', p, i);
    Weights(p);
    Halved(Weight(p), rest);
  }

  lemma OtherLanes(planes: Planes, p: nat, k: bv5, i: bv5)
    requires p < PLANES && i != k
    ensures SameLane(planes, planes[p := WithLane(planes[p], k)], i)
  {
    hide Lane, WithLane;
    SetLane(planes[p], k, i);
  }

  lemma AllStored(planes: Planes, p: nat, rest: nat, whole: nat, i: bv5)
    requires p <= PLANES && Stored(planes, p, rest, whole, i) && ClearFrom(planes, p, i) && (p == 0 || rest == 0)
    ensures Value(planes, i) == whole % 4096
  {
    hide Lane, Low, Weight;
    ClearLow(planes, p, 0, i);
    LowBound(planes, 0, i);
    if p > 0 { assert CarryWeight(p) * rest == 0; }
  }

  /** The inner loop of transform_strips: one value into one lane. */
  method StoreValue(values: array2<bv32>, v: nat, lane: bv5, value: nat)
    requires values.Length1 == PLANES && v < values.Length0
    requires ClearFrom(Slot(values, v), PLANES, lane)
    modifies values
    ensures Value(Slot(values, v), lane) == value % 4096
    ensures forall i: bv5 :: i != lane ==> SameLane(old(Slot(values, v)), Slot(values, v), i)
    ensures forall k, q :: 0 <= k < values.Length0 && 0 <= q < PLANES && k != v ==> values[k, q] == old(values[k, q])
  {
    hide Lane, Low, Weight, CarryWeight, WithLane, ClearFrom, SameLane, Stored;
    ghost var before := Slot(values, v);
    ghost var planes := before;
    var rest := value;
    var j := 0;
    StoredStart(planes, value, lane);
    SameLanes(planes);
    while j < PLANES && rest != 0
      invariant 0 <= j <= PLANES
      invariant forall q :: 0 <= q < PLANES ==> values[v, q] == planes[q]
      invariant Stored(planes, PLANES - j, rest, value, lane) && ClearFrom(planes, PLANES - j, lane)
      invariant forall i: bv5 :: i != lane ==> SameLane(before, planes, i)
      invariant forall k, q :: 0 <= k < values.Length0 && 0 <= q < PLANES && k != v ==>
                  values[k, q] == old(values[k, q])
      decreases PLANES - j
    {
      ghost var p := PLANES - 1 - j;
      ghost var next := if rest % 2 == 1 then planes[p := WithLane(planes[p], lane)] else planes;
      ClearNext(planes, p, lane);
      StoredNext(planes, p, rest, value, lane);
      OthersKept(before, planes, planes[p := WithLane(planes[p], lane)], p, lane);
      if rest % 2 == 1 {
        values[v, PLANES - 1 - j] := WithLane(values[v, PLANES - 1 - j], lane);
      }
      planes := next;
      j := j + 1;
      rest := rest / 2;
    }
    AllStored(planes, PLANES - j, rest, value, lane);
    assert Slot(values, v) == planes;
  }

  lemma StoredStart(planes: Planes, value: nat, i: bv5)
    ensures Stored(planes, PLANES, value, value, i)
  {
  }

  lemma SameLanes(planes: Planes)
    ensures forall i: bv5 :: SameLane(planes, planes, i)
  {
    hide Lane;
  }

  lemma ClearNext(planes: Planes, p: nat, i: bv5)
    requires p < PLANES && ClearFrom(planes, p + 1, i)
    ensures !Lane(planes[p], i) && ClearFrom(planes, p, i) && ClearFrom(planes[p := WithLane(planes[p], i)], p, i)
  {
    hide Lane, WithLane;
  }

  lemma OthersKept(before: Planes, planes: Planes, next: Planes, p: nat, k: bv5)
    requires p < PLANES && next == planes[p := WithLane(planes[p], k)]
    requires forall i: bv5 :: i != k ==> SameLane(before, planes, i)
    ensures forall i: bv5 :: i != k ==> SameLane(before, next, i)
  {
    hide Lane, WithLane;
    forall i: bv5 | i != k ensures SameLane(before, next, i) {
      assert SameLane(before, planes, i);
      OtherLanes(planes, p, k, i);
    }
  }

  /** One value of every strip is in its planes: the first `n` strips have been stored. */
  ghost predicate Transformed(planes: Planes, strips: seq<Strip>, v: nat, brightness: Uint) {
    forall i: bv5 :: Value(planes, i) == Requested(strips, v, brightness, i) % 4096
  }

  ghost predicate Unused(planes: Planes, n: nat) {
    forall i: bv5 :: IndexOf(i) >= n ==> ClearFrom(planes, PLANES, i)
  }

  lemma NextStrip(before: Planes, after: Planes, strips: seq<Strip>, n: nat, v: nat, brightness: Uint)
    requires n < |strips| <= 32
    requires Transformed(before, strips[..n], v, brightness) && Unused(before, n)
    requires Value(after, LaneOf(n)) == Scaled12(strips[n], v, brightness) % 4096
    requires forall i: bv5 :: i != LaneOf(n) ==> SameLane(before, after, i)
    ensures Transformed(after, strips[..n + 1], v, brightness) && Unused(after, n + 1)
  {
    hide Lane, LaneOf, IndexOf, Scaled12, Low;
    forall i: bv5
      ensures Value(after, i) == Requested(strips[..n + 1], v, brightness, i) % 4096
      ensures IndexOf(i) >= n + 1 ==> ClearFrom(after, PLANES, i)
    {
      LaneIndex(n, i);
      if i != LaneOf(n) {
        SameLow(before, after, 0, i);
        assert Value(before, i) == Requested(strips[..n], v, brightness, i) % 4096;
      }
    }
  }

  lemma NoStrips(planes: Planes, strips: seq<Strip>, v: nat, brightness: Uint)
    requires forall p :: 0 <= p < PLANES ==> planes[p] == 0
    ensures Transformed(planes, strips[..0], v, brightness) && Unused(planes, 0)
  {
    hide Low;
    forall i: bv5
      ensures Value(planes, i) == 0 && ClearFrom(planes, PLANES, i)
    {
      LaneZero(i);
      ClearLow(planes, PLANES, 0, i);
      assert Low(planes, PLANES, i) == 0 by { LowEnd(planes, i); }
    }
  }

  lemma LowEnd(planes: Planes, i: bv5)
    ensures Low(planes, PLANES, i) == 0
  {
  }

  /** The body of the outer loop of transform_strips. */
  method TransformValue(strips: seq<Strip>, values: array2<bv32>, v: nat, brightness: Uint)
    requires |strips| <= 32 && values.Length1 == PLANES && v < values.Length0
    modifies values
    ensures Transformed(Slot(values, v), strips, v, brightness)
    ensures forall k, q :: 0 <= k < values.Length0 && 0 <= q < PLANES && k != v ==> values[k, q] == old(values[k, q])
  {
    hide Transformed, Unused, SameLane, Lane, Low, LaneOf;
    for p := 0 to PLANES
      invariant forall q :: 0 <= q < p ==> values[v, q] == 0
      invariant forall k, q :: 0 <= k < values.Length0 && 0 <= q < PLANES && k != v ==>
                  values[k, q] == old(values[k, q])
    {
      values[v, p] := 0;
    }
    NoStrips(Slot(values, v), strips, v, brightness);
    for n := 0 to |strips|
      invariant Transformed(Slot(values, v), strips[..n], v, brightness) && Unused(Slot(values, v), n)
      invariant forall k, q :: 0 <= k < values.Length0 && 0 <= q < PLANES && k != v ==>
                  values[k, q] == old(values[k, q])
    {
      ghost var before := Slot(values, v);
      UnusedLane(before, n);
      SameLanes(before);
      if v < |strips[n].data| {
        var value := (strips[n].data[v] * strips[n].brightness) % UINT / 256;
        value := (value * brightness) % UINT / 256;
        StoreValue(values, v, LaneOf(n), value);
      }
      NextStrip(before, Slot(values, v), strips, n, v, brightness);
    }
    assert strips[..|strips|] == strips;
  }

  lemma UnusedLane(planes: Planes, n: nat)
    requires n < 32 && Unused(planes, n)
    ensures ClearFrom(planes, PLANES, LaneOf(n)) && Value(planes, LaneOf(n)) == 0
  {
    LaneIndex(n, LaneOf(n));
    hide Lane, Low, LaneOf, IndexOf;
    ClearLow(planes, PLANES, 0, LaneOf(n));
    LowEnd(planes, LaneOf(n));
  }

  lemma Product(a: nat, b: nat, x: nat, y: nat)
    requires a <= x && b <= y
    ensures a * b <= x * y
  {
    assert a * b <= a * y by { assert a * (y - b) >= 0; }
    assert a * y <= x * y by { assert (x - a) * y >= 0; }
  }

  /** What scaling by two brightnesses comes to: `mid` is the byte scaled by the strip's, `value` that scaled by the
      frame's, each a product of 32 bits in 256ths, rounded down. */
  predicate ScaledTwice(byte: Byte, stripBrightness: Uint, brightness: Uint, mid: nat, value: nat) {
    && 256 * mid <= (byte * stripBrightness) % UINT < 256 * (mid + 1)
    && 256 * value <= (mid * brightness) % UINT < 256 * (value + 1)
  }

  /** In one lane of a value is the byte of its strip, so scaled, modulo 4096; past the strip's end and in lanes
      without a strip nothing. */
  ghost predicate LaneScaled(planes: Planes, strips: seq<Strip>, v: nat, brightness: Uint, i: bv5) {
    if IndexOf(i) < |strips| && v < |strips[IndexOf(i)].data| then
      var strip := strips[IndexOf(i)];
      exists mid: nat, value: nat ::
        ScaledTwice(strip.data[v], strip.brightness, brightness, mid, value) && Value(planes, i) == value % 4096
    else Value(planes, i) == 0
  }

  lemma TransformedScaled(planes: Planes, strips: seq<Strip>, v: nat, brightness: Uint, i: bv5)
    requires Transformed(planes, strips, v, brightness)
    ensures LaneScaled(planes, strips, v, brightness, i)
  {
    hide Low;
    assert Value(planes, i) == Requested(strips, v, brightness, i) % 4096;
    if IndexOf(i) < |strips| && v < |strips[IndexOf(i)].data| {
      var strip := strips[IndexOf(i)];
      var mid := (strip.data[v] * strip.brightness) % UINT / 256;
      assert ScaledTwice(strip.data[v], strip.brightness, brightness, mid, Scaled12(strip, v, brightness));
    }
  }

  /** There is only one such value. */
  lemma ScaledOnce(byte: Byte, stripBrightness: Uint, brightness: Uint, mid: nat, value: nat, mid': nat, value': nat)
    requires ScaledTwice(byte, stripBrightness, brightness, mid, value)
    requires ScaledTwice(byte, stripBrightness, brightness, mid', value')
    ensures mid == mid' && value == value'
  {
    assert mid == mid';
  }

  lemma RoundedTimes(product: nat, mid: nat, b: nat)
    requires 256 * mid <= product < 256 * (mid + 1)
    ensures 256 * (mid * b) <= product * b <= 256 * (mid * b) + 255 * b
  {
    var r := product - 256 * mid;
    assert product * b == (256 * mid) * b + r * b;
    assert (256 * mid) * b == 256 * (mid * b);
    Product(r, b, 255, b);
  }

  /** Unless a product overflows 32 bits it is the byte times both brightnesses in 65536ths, short of it by less than
      one unit for the last rounding and one 256th of the frame's brightness for the first. */
  lemma ScaledBounds(byte: Byte, stripBrightness: Uint, brightness: Uint, mid: nat, value: nat)
    requires ScaledTwice(byte, stripBrightness, brightness, mid, value)
    requires byte * stripBrightness < UINT && mid * brightness < UINT
    ensures 65536 * value <= byte * stripBrightness * brightness < 65536 * (value + 1) + 256 * brightness
  {
    hide ScaledTwice;
    var product, scaled: nat := byte * stripBrightness, mid * brightness;
    ScaledSmall(byte, stripBrightness, brightness, mid, value);
    RoundedTimes(product, mid, brightness);
  }

  lemma ScaledSmall(byte: Byte, stripBrightness: Uint, brightness: Uint, mid: nat, value: nat)
    requires ScaledTwice(byte, stripBrightness, brightness, mid, value)
    requires byte * stripBrightness < UINT && mid * brightness < UINT
    ensures 256 * mid <= byte * stripBrightness < 256 * (mid + 1)
    ensures 256 * value <= mid * brightness < 256 * (value + 1)
  {
    var product, scaled: nat := byte * stripBrightness, mid * brightness;
    assert product % UINT == product && scaled % UINT == scaled;
  }

  /** At full brightness of both it is the byte. */
  lemma ScaledFull(byte: Byte, mid: nat, value: nat)
    requires ScaledTwice(byte, 256, 256, mid, value)
    ensures value == byte
  {
    assert mid == byte;
  }

  /** transform_strips: in every value, each strip's lane holds its twice-scaled byte modulo 4096, every
      other lane zero. */
  method TransformStrips(strips: seq<Strip>, values: array2<bv32>, length: nat, brightness: Uint)
    requires |strips| <= 32 && values.Length1 == PLANES && length <= values.Length0
    modifies values
    ensures forall v :: 0 <= v < length ==> Transformed(Slot(values, v), strips, v, brightness)
    ensures forall v, i: bv5 :: 0 <= v < length ==> LaneScaled(Slot(values, v), strips, v, brightness, i)
    ensures forall k, q :: length <= k < values.Length0 && 0 <= q < PLANES ==> values[k, q] == old(values[k, q])
  {
    hide Transformed, LaneScaled;
    ghost var rows: seq<Planes> := [];
    for v := 0 to length
      invariant |rows| == v
      invariant forall u :: 0 <= u < v ==> Transformed(rows[u], strips, u, brightness)
      invariant forall u, q :: 0 <= u < v && 0 <= q < PLANES ==> values[u, q] == rows[u][q]
      invariant forall k, q :: length <= k < values.Length0 && 0 <= q < PLANES ==> values[k, q] == old(values[k, q])
    {
      TransformValue(strips, values, v, brightness);
      rows := rows + [Slot(values, v)];
    }
    forall v | 0 <= v < length ensures Transformed(Slot(values, v), strips, v, brightness) {
      assert Slot(values, v) == rows[v];
    }
    forall v, i: bv5 | 0 <= v < length ensures LaneScaled(Slot(values, v), strips, v, brightness, i) {
      TransformedScaled(Slot(values, v), strips, v, brightness, i);
    }
  }

  /** With the brightness main uses, no value needs more than ten bits, and adding a fraction cannot
      overflow. */
  lemma MainValues(strip: Strip, v: nat, brightness: Uint)
    requires strip.brightness <= 256 && brightness < 0x20 * 16
    ensures Scaled12(strip, v, brightness) <= 509
  {
    if v < |strip.data| {
      var b: int := strip.data[v];
      Product(b, strip.brightness, 255, 256);
      var value := (b * strip.brightness) % UINT / 256;
      assert value <= 255;
      Product(value, brightness, 255, 511);
    }
  }

  lemma SafeValues(strip: Strip, v: nat, brightness: Uint)
    requires strip.brightness <= 256 && brightness <= 4097
    ensures Scaled12(strip, v, brightness) <= 4080
  {
    if v < |strip.data| {
      var b: int := strip.data[v];
      Product(b, strip.brightness, 255, 256);
      var value := (b * strip.brightness) % UINT / 256;
      assert value <= 255;
      Product(value, brightness, 255, 4097);
    }
  }

  /** A strip at full brightness, and a byte of it that asks for more than 4080. */
  function Glaring(brightness: Uint): Strip {
    Strip([if brightness < 0x100_0000 then 255 else 1], 256)
  }

  lemma GlaringValue(brightness: Uint)
    requires brightness > 4097
    ensures Scaled12(Glaring(brightness), 0, brightness) > 4080
  {
    var b := Glaring(brightness).data[0];
    assert (b * 256) % UINT / 256 == b;
    assert b * brightness < UINT && b * brightness >= 4081 * 256;
  }

  /** The brightness that is safe for every strip not brighter than full: up to 4097, no request exceeds 4080,
      and beyond it some byte asks for more. */
  lemma SafeBrightness(brightness: Uint)
    ensures brightness <= 4097 <==>
            forall strip: Strip, v: nat :: strip.brightness <= 256 ==> Scaled12(strip, v, brightness) <= 4080
  {
    if brightness <= 4097 {
      forall strip: Strip, v: nat | strip.brightness <= 256 ensures Scaled12(strip, v, brightness) <= 4080 {
        SafeValues(strip, v, brightness);
      }
    } else {
      GlaringValue(brightness);
    }
  }

  // ----- Dithering

  /** dither_values */
  method DitherValues(colors: array2<bv32>, state: array2<bv32>, before: array2<bv32>, length: nat)
    requires colors.Length1 == state.Length1 == before.Length1 == PLANES && state != colors && state != before
    requires length <= colors.Length0 && length <= state.Length0 && length <= before.Length0
    modifies state
    ensures forall v :: 0 <= v < length ==> ErrorAdded(Slot(state, v), Slot(colors, v), Slot(before, v))
    ensures forall k, q :: length <= k < state.Length0 && 0 <= q < PLANES ==> state[k, q] == old(state[k, q])
  {
    hide ErrorAdded;
    ghost var rows: seq<Planes> := [];
    for v := 0 to length
      invariant |rows| == v
      invariant forall u :: 0 <= u < v ==> ErrorAdded(rows[u], Slot(colors, u), Slot(before, u))
      invariant forall u, q :: 0 <= u < v && 0 <= q < PLANES ==> state[u, q] == rows[u][q]
      invariant forall k, q :: length <= k < state.Length0 && 0 <= q < PLANES ==> state[k, q] == old(state[k, q])
    {
      AddError(state, v, colors, v, before, v);
      rows := rows + [Slot(state, v)];
    }
    forall v | 0 <= v < length ensures ErrorAdded(Slot(state, v), Slot(colors, v), Slot(before, v)) {
      assert Slot(state, v) == rows[v];
    }
  }

  // ----- Frame after frame

  /** What main asks for in one frame. */
  datatype Frame = Frame(strips: seq<Strip>, brightness: Uint)

  function Rows(values: array2<bv32>, length: nat): (rows: seq<Planes>)
    requires values.Length1 == PLANES && length <= values.Length0
    reads values
    ensures |rows| == length && forall v :: 0 <= v < length ==> rows[v] == Slot(values, v)
  {
    seq(length, v requires 0 <= v < length reads values => Slot(values, v))
  }

  /** In every lane of every value, a frame's state is what it asked for plus the last state's fraction. */
  ghost predicate Dithered(state: seq<Planes>, before: seq<Planes>, frame: Frame, length: nat)
    requires |state| == |before| == length
  {
    forall v, i: bv5 :: 0 <= v < length ==>
      Value(state[v], i) == (Requested(frame.strips, v, frame.brightness, i) % 4096 + Value(before[v], i) % 16) % 4096
  }

  /** The frame loop: each frame is built in one of the two state buffers from the other one, and sent. */
  method Animate(frames: seq<Frame>, colors: array2<bv32>, states: seq<array2<bv32>>, length: nat)
    returns (shown: seq<seq<Planes>>)
    requires |states| == 2 && colors != states[0] && colors != states[1] && states[0] != states[1]
    requires colors.Length1 == states[0].Length1 == states[1].Length1 == PLANES
    requires length <= colors.Length0 && length <= states[0].Length0 && length <= states[1].Length0
    requires forall f <- frames :: |f.strips| <= 32
    modifies colors, states[0], states[1]
    ensures |shown| == 1 + |frames| && (forall k :: 0 <= k < |shown| ==> |shown[k]| == length)
    ensures shown[0] == old(Rows(states[1], length))
    ensures forall k :: 0 <= k < |frames| ==> Dithered(shown[k + 1], shown[k], frames[k], length)
    ensures forall v, i: bv5 :: 0 <= v < length ==> (Balanced(frames, shown, v, i) <==> Fitting(frames, shown, v, i))
    ensures (forall frame <- frames :: SafeFrame(frame)) ==>
              forall v, i: bv5 :: 0 <= v < length ==> Balanced(frames, shown, v, i) && Close(frames, shown, v, i)
  {
    hide Dithered, SafeFrame, Balanced, Fitting, Close;
    var current := 0;
    shown := [Rows(states[1], length)];
    for k := 0 to |frames|
      invariant current == 0 || current == 1
      invariant |shown| == 1 + k && forall j :: 0 <= j < |shown| ==> |shown[j]| == length
      invariant shown[0] == old(Rows(states[1], length)) && shown[k] == Rows(states[1 - current], length)
      invariant forall j :: 0 <= j < k ==> Dithered(shown[j + 1], shown[j], frames[j], length)
    {
      TransformStrips(frames[k].strips, colors, length, frames[k].brightness);
      assert Rows(states[1 - current], length) == shown[k];
      DitherValues(colors, states[current], states[1 - current], length);
      shown := shown + [Rows(states[current], length)];
      FrameDithered(Rows(states[current], length), shown[k], Rows(colors, length), frames[k], length);
      current := 1 - current;
    }
    forall v, i: bv5 | 0 <= v < length
      ensures Balanced(frames, shown, v, i) <==> Fitting(frames, shown, v, i)
      ensures (forall frame <- frames :: SafeFrame(frame)) ==>
                Balanced(frames, shown, v, i) && Close(frames, shown, v, i)
    {
      RunExact(frames, shown, length, v, i);
      if forall frame <- frames :: SafeFrame(frame) { RunConserved(frames, shown, length, v, i); }
    }
  }

  lemma FrameDithered(state: seq<Planes>, before: seq<Planes>, colors: seq<Planes>, frame: Frame, length: nat)
    requires |state| == |before| == |colors| == length
    requires forall v :: 0 <= v < length ==> Transformed(colors[v], frame.strips, v, frame.brightness)
    requires forall v :: 0 <= v < length ==> ErrorAdded(state[v], colors[v], before[v])
    ensures Dithered(state, before, frame, length)
  {
    hide Low, Requested;
    forall v, i: bv5 | 0 <= v < length
      ensures Value(state[v], i)
           == (Requested(frame.strips, v, frame.brightness, i) % 4096 + Value(before[v], i) % 16) % 4096
    {
      assert Transformed(colors[v], frame.strips, v, frame.brightness) && ErrorAdded(state[v], colors[v], before[v]);
      assert ErrorAddedIn(state[v], colors[v], before[v], i);
    }
  }

  function Sum(xs: seq<nat>): nat {
    if xs == [] then 0 else Sum(xs[..|xs| - 1]) + xs[|xs| - 1]
  }

  /** The eight whole-number planes, as sent. */
  function Output(state: nat): nat {
    state / 16
  }

  function Outputs(states: seq<nat>): (out: seq<nat>)
    ensures |out| == |states| && forall k :: 0 <= k < |states| ==> out[k] == Output(states[k])
  {
    seq(|states|, k requires 0 <= k < |states| => Output(states[k]))
  }

  /** One lane of one value, frame by frame. */
  predicate Chain(states: seq<nat>, requests: seq<nat>) {
    |states| == |requests| + 1
    && forall k :: 0 <= k < |requests| ==> states[k + 1] == (requests[k] % 4096 + states[k] % 16) % 4096
  }

  predicate Bounded(requests: seq<nat>) {
    forall k :: 0 <= k < |requests| ==> requests[k] <= 4080
  }

  /** Everything asked for has been sent or is still held as a fraction. */
  predicate Balance(states: seq<nat>, requests: seq<nat>)
    requires |states| == |requests| + 1
  {
    16 * Sum(Outputs(states[1..])) + states[|requests|] % 16 == Sum(requests) + states[0] % 16
  }

  /** In every frame the request and the fraction held fit in twelve bits. */
  predicate Fits(states: seq<nat>, requests: seq<nat>)
    requires |states| == |requests| + 1
  {
    forall k :: 0 <= k < |requests| ==> requests[k] + states[k] % 16 < 4096
  }

  /** The overflows out of twelve bits, frame by frame. */
  function Lost(states: seq<nat>, requests: seq<nat>): (lost: seq<nat>)
    requires |states| == |requests| + 1
    ensures |lost| == |requests|
    ensures forall k :: 0 <= k < |requests| ==> lost[k] == (requests[k] + states[k] % 16) / 4096
  {
    seq(|requests|, k requires 0 <= k < |requests| => (requests[k] + states[k] % 16) / 4096)
  }

  lemma ChainStep(state: nat, before: nat, request: nat)
    requires state == (request % 4096 + before % 16) % 4096
    ensures 16 * Output(state) + state % 16 + 4096 * ((request + before % 16) / 4096) == request + before % 16
  {
    assert request == request / 4096 * 4096 + request % 4096;
    assert (request + before % 16) / 4096 == request / 4096 + (request % 4096 + before % 16) / 4096;
  }

  lemma LastOf(xs: seq<nat>, front: seq<nat>)
    requires xs != [] && front == xs[..|xs| - 1]
    ensures Sum(xs) == Sum(front) + xs[|xs| - 1]
  {
  }

  /** The sums of a chain and of the chain without its last frame. */
  lemma LastFrame(states: seq<nat>, requests: seq<nat>, n: nat)
    requires n == |requests| > 0 && |states| == n + 1
    ensures Sum(Outputs(states[1..])) == Sum(Outputs(states[..n][1..])) + Output(states[n])
    ensures Sum(Lost(states, requests))
         == Sum(Lost(states[..n], requests[..n - 1])) + (requests[n - 1] + states[n - 1] % 16) / 4096
    ensures Sum(requests) == Sum(requests[..n - 1]) + requests[n - 1]
  {
    hide Output, Sum;
    assert Outputs(states[1..])[..n - 1] == Outputs(states[..n][1..]);
    assert Lost(states, requests)[..n - 1] == Lost(states[..n], requests[..n - 1]);
    LastOf(Outputs(states[1..]), Outputs(states[..n][1..]));
    LastOf(Lost(states, requests), Lost(states[..n], requests[..n - 1]));
    LastOf(requests, requests[..n - 1]);
  }

  lemma ChainFront(states: seq<nat>, requests: seq<nat>, n: nat)
    requires Chain(states, requests) && n == |requests| > 0
    ensures Chain(states[..n], requests[..n - 1])
    ensures states[n] == (requests[n - 1] % 4096 + states[n - 1] % 16) % 4096
  {
  }

  /** Sixteen times what has been sent, the fraction still held and the overflows are together what has been
      asked for and the fraction held at first. */
  lemma {:induction false} Ledger(states: seq<nat>, requests: seq<nat>)
    requires Chain(states, requests)
    ensures |states| == |requests| + 1
    ensures 16 * Sum(Outputs(states[1..])) + states[|requests|] % 16 + 4096 * Sum(Lost(states, requests))
         == Sum(requests) + states[0] % 16
  {
    var n := |requests|;
    if n > 0 {
      ChainFront(states, requests, n);
      ChainStep(states[n], states[n - 1], requests[n - 1]);
      LastFrame(states, requests, n);
      Ledger(states[..n], requests[..n - 1]);
      hide *;
    }
  }

  lemma {:induction false} SumZero(xs: seq<nat>)
    ensures Sum(xs) == 0 <==> forall k :: 0 <= k < |xs| ==> xs[k] == 0
  {
    if xs != [] { SumZero(xs[..|xs| - 1]); }
  }

  /** A run never sends more than it is asked for, and keeps the balance exactly when in every frame request and
      fraction fit in twelve bits. */
  lemma BalanceExact(states: seq<nat>, requests: seq<nat>)
    requires Chain(states, requests)
    ensures 16 * Sum(Outputs(states[1..])) + states[|requests|] % 16 <= Sum(requests) + states[0] % 16
    ensures Balance(states, requests) <==> Fits(states, requests)
  {
    Ledger(states, requests);
    SumZero(Lost(states, requests));
    hide Output, Sum;
    var lost := Lost(states, requests);
    assert Fits(states, requests) <==> forall k :: 0 <= k < |lost| ==> lost[k] == 0 by {
      forall k | 0 <= k < |requests| ensures requests[k] + states[k] % 16 < 4096 <==> lost[k] == 0 {}
    }
  }

  /** Nothing is lost while no request exceeds 4080. */
  lemma {:induction false} Conserved(states: seq<nat>, requests: seq<nat>)
    requires Chain(states, requests) && Bounded(requests)
    ensures 16 * Sum(Outputs(states[1..])) + states[|requests|] % 16 == Sum(requests) + states[0] % 16
  {
    BalanceExact(states, requests);
    hide Output, Sum;
  }

  /** So the total sent is never as much as one output step away from the total asked for. */
  lemma ErrorBound(states: seq<nat>, requests: seq<nat>)
    requires Chain(states, requests) && Bounded(requests)
    ensures -15 <= 16 * Sum(Outputs(states[1..])) - Sum(requests) <= 15
  {
    Conserved(states, requests);
  }

  /** The chain a first state and the requests make. */
  function ChainFrom(first: nat, requests: seq<nat>): (states: seq<nat>)
    ensures Chain(states, requests) && states[0] == first
  {
    if requests == [] then [first]
    else
      var n := |requests| - 1;
      var states := ChainFrom(first, requests[..n]);
      states + [(requests[n] % 4096 + states[n] % 16) % 4096]
  }

  /** The fraction held follows the requests alone. */
  lemma {:induction false} FractionOf(states: seq<nat>, requests: seq<nat>, k: nat)
    requires Chain(states, requests) && k <= |requests|
    ensures states[k] % 16 == (states[0] + Sum(requests[..k])) % 16
  {
    if k > 0 {
      FractionOf(states, requests, k - 1);
      assert requests[..k][..k - 1] == requests[..k - 1];
      Sixteenths(requests[k - 1], states[k - 1], states[0] + Sum(requests[..k - 1]));
    }
  }

  lemma Sixteenths(request: nat, before: nat, total: nat)
    requires before % 16 == total % 16
    ensures (request % 4096 + before % 16) % 4096 % 16 == (total + request) % 16
  {
    var x := request % 4096 + before % 16;
    assert request == request / 4096 * 4096 + request % 4096;
    assert x == x / 4096 * 4096 + x % 4096;
  }

  /** Whatever is held at first, requests up to 4080 and no others are certain to be conserved. */
  lemma SafeExactly(requests: seq<nat>)
    ensures Bounded(requests) <==> forall states :: Chain(states, requests) ==> Balance(states, requests)
  {
    if Bounded(requests) {
      forall states | Chain(states, requests) ensures Balance(states, requests) { Conserved(states, requests); }
    } else {
      var k :| 0 <= k < |requests| && requests[k] > 4080;
      var first := (15 - Sum(requests[..k])) % 16;
      var states := ChainFrom(first, requests);
      FractionOf(states, requests, k);
      assert (first + Sum(requests[..k])) % 16 == 15;
      BalanceExact(states, requests);
      assert !Fits(states, requests);
    }
  }

  // ----- Whole runs

  /** What one lane of one value shows, frame by frame, and what is asked of it. */
  function Shown(shown: seq<seq<Planes>>, v: nat, i: bv5): (states: seq<nat>)
    requires forall k :: 0 <= k < |shown| ==> v < |shown[k]|
    ensures |states| == |shown| && forall k :: 0 <= k < |shown| ==> states[k] == Value(shown[k][v], i)
  {
    seq(|shown|, k requires 0 <= k < |shown| => Value(shown[k][v], i))
  }

  function Asked(frames: seq<Frame>, v: nat, i: bv5): (requests: seq<nat>)
    ensures |requests| == |frames|
    ensures forall k :: 0 <= k < |frames| ==> requests[k] == Requested(frames[k].strips, v, frames[k].brightness, i)
  {
    seq(|frames|, k requires 0 <= k < |frames| => Requested(frames[k].strips, v, frames[k].brightness, i))
  }

  /** Every lane of a run is such a chain. */
  lemma LaneChain(frames: seq<Frame>, shown: seq<seq<Planes>>, length: nat, v: nat, i: bv5)
    requires |shown| == 1 + |frames| && v < length && forall k :: 0 <= k < |shown| ==> |shown[k]| == length
    requires forall k :: 0 <= k < |frames| ==> Dithered(shown[k + 1], shown[k], frames[k], length)
    ensures Chain(Shown(shown, v, i), Asked(frames, v, i))
  {
    hide Requested, Low;
    forall k | 0 <= k < |frames|
      ensures Shown(shown, v, i)[k + 1] == (Asked(frames, v, i)[k] % 4096 + Shown(shown, v, i)[k] % 16) % 4096
    {
      assert Dithered(shown[k + 1], shown[k], frames[k], length);
    }
  }

  /** Frames as main makes them: no strip brighter than full, and a frame's brightness below 32 * 16. */
  predicate MainFrame(frame: Frame) {
    |frame.strips| <= 32 && frame.brightness < 0x20 * 16 && forall strip <- frame.strips :: strip.brightness <= 256
  }

  /** Frames that cannot lose anything. */
  predicate SafeFrame(frame: Frame) {
    frame.brightness <= 4097 && forall strip <- frame.strips :: strip.brightness <= 256
  }

  lemma MainSafe(frames: seq<Frame>)
    requires forall frame <- frames :: MainFrame(frame)
    ensures forall frame <- frames :: SafeFrame(frame)
  {
    forall frame <- frames ensures SafeFrame(frame) { assert MainFrame(frame); }
  }

  lemma SafeAsked(frames: seq<Frame>, v: nat, i: bv5)
    requires forall frame <- frames :: SafeFrame(frame)
    ensures Bounded(Asked(frames, v, i))
  {
    hide Scaled12;
    forall k | 0 <= k < |frames| ensures Asked(frames, v, i)[k] <= 4080 {
      var frame := frames[k];
      assert SafeFrame(frame);
      if IndexOf(i) < |frame.strips| { SafeValues(frame.strips[IndexOf(i)], v, frame.brightness); }
    }
  }

  /** In one lane of one value, everything asked for has been sent or is still held as a fraction. */
  predicate Balanced(frames: seq<Frame>, shown: seq<seq<Planes>>, v: nat, i: bv5)
    requires |shown| == 1 + |frames| && forall k :: 0 <= k < |shown| ==> v < |shown[k]|
  {
    Balance(Shown(shown, v, i), Asked(frames, v, i))
  }

  /** In one lane of one value, no frame overflows twelve bits. */
  predicate Fitting(frames: seq<Frame>, shown: seq<seq<Planes>>, v: nat, i: bv5)
    requires |shown| == 1 + |frames| && forall k :: 0 <= k < |shown| ==> v < |shown[k]|
  {
    Fits(Shown(shown, v, i), Asked(frames, v, i))
  }

  /** In one lane of one value, the total sent is less than one output step from the total asked for. */
  predicate Close(frames: seq<Frame>, shown: seq<seq<Planes>>, v: nat, i: bv5)
    requires |shown| == 1 + |frames| && forall k :: 0 <= k < |shown| ==> v < |shown[k]|
  {
    -15 <= 16 * Sum(Outputs(Shown(shown, v, i)[1..])) - Sum(Asked(frames, v, i)) <= 15
  }

  /** A lane of a run keeps the balance exactly when it never overflows. */
  lemma RunExact(frames: seq<Frame>, shown: seq<seq<Planes>>, length: nat, v: nat, i: bv5)
    requires |shown| == 1 + |frames| && v < length && forall k :: 0 <= k < |shown| ==> |shown[k]| == length
    requires forall k :: 0 <= k < |frames| ==> Dithered(shown[k + 1], shown[k], frames[k], length)
    ensures Balanced(frames, shown, v, i) <==> Fitting(frames, shown, v, i)
  {
    hide Dithered, Chain, Balance, Fits, Value, Requested;
    LaneChain(frames, shown, length, v, i);
    BalanceExact(Shown(shown, v, i), Asked(frames, v, i));
  }

  /** In a run of safe frames every lane of every value keeps it, and what is sent stays within 15/16 of an
      output step of what is asked for. */
  lemma RunConserved(frames: seq<Frame>, shown: seq<seq<Planes>>, length: nat, v: nat, i: bv5)
    requires |shown| == 1 + |frames| && v < length && forall k :: 0 <= k < |shown| ==> |shown[k]| == length
    requires forall k :: 0 <= k < |frames| ==> Dithered(shown[k + 1], shown[k], frames[k], length)
    requires forall frame <- frames :: SafeFrame(frame)
    ensures Balanced(frames, shown, v, i) && Close(frames, shown, v, i)
  {
    hide Dithered, SafeFrame, Chain, Bounded, Value, Requested, Output, Sum;
    LaneChain(frames, shown, length, v, i);
    SafeAsked(frames, v, i);
    Conserved(Shown(shown, v, i), Asked(frames, v, i));
    ErrorBound(Shown(shown, v, i), Asked(frames, v, i));
  }

  // ----- A run that loses something

  /** One full white byte at full brightness, the frame scaled to the largest twelve-bit value. */
  function BrightFrame(): Frame {
    Frame([Strip([255], 256)], 4112)
  }

  lemma BrightAsked(i: bv5)
    ensures Requested(BrightFrame().strips, 0, BrightFrame().brightness, i) == if i == 0 then 4095 else 0
  {
    assert IndexOf(0) == 0 && (i != 0 ==> IndexOf(i) > 0);
    assert (255 * 256) % UINT / 256 == 255 && (255 * 4112) % UINT / 256 == 4095;
  }

  /** Two such frames from cleared states: the first is shown in full, and the second wraps to almost nothing. */
  method LossyRun() returns (shown: seq<seq<Planes>>)
    ensures |shown| == 3 && forall k :: 0 <= k < 3 ==> |shown[k]| == 1
    ensures forall k :: 0 <= k < 2 ==> Dithered(shown[k + 1], shown[k], BrightFrame(), 1)
    ensures Shown(shown, 0, 0) == [0, 4095, 14] && !Balanced([BrightFrame(), BrightFrame()], shown, 0, 0)
  {
    hide Dithered, Low, Requested, BrightFrame, Balance, Fits;
    var frames := [BrightFrame(), BrightFrame()];
    var colors := new bv32[1, PLANES]((k, q) => 0);
    var first := new bv32[1, PLANES]((k, q) => 0);
    var second := new bv32[1, PLANES]((k, q) => 0);
    assert |BrightFrame().strips| <= 32 by { BrightStrips(); }
    assert Rows(second, 1)[0] == Slot(second, 0);
    ClearedValue(Slot(second, 0), 0);
    shown := Animate(frames, colors, [first, second], 1);
    LossyLane(shown);
  }

  lemma BrightStrips()
    ensures |BrightFrame().strips| == 1
  {
  }

  lemma ClearedValue(planes: Planes, i: bv5)
    requires forall p :: 0 <= p < PLANES ==> planes[p] == 0
    ensures Value(planes, i) == 0
  {
    LaneZero(i);
    hide Lane, Low;
    ClearLow(planes, PLANES, 0, i);
    LowEnd(planes, i);
  }

  lemma LossyLane(shown: seq<seq<Planes>>)
    requires |shown| == 3 && (forall k :: 0 <= k < 3 ==> |shown[k]| == 1) && Value(shown[0][0], 0) == 0
    requires forall k :: 0 <= k < 2 ==> Dithered(shown[k + 1], shown[k], BrightFrame(), 1)
    ensures Shown(shown, 0, 0) == [0, 4095, 14] && !Balanced([BrightFrame(), BrightFrame()], shown, 0, 0)
  {
    hide Value, Requested, BrightFrame;
    var frames := [BrightFrame(), BrightFrame()];
    BrightAsked(0);
    LaneChain(frames, shown, 1, 0, 0);
    RunExact(frames, shown, 1, 0, 0);
    var states, requests := Shown(shown, 0, 0), Asked(frames, 0, 0);
    assert requests[0] == 4095 && requests[1] == 4095;
    assert states[1] == 4095 && states[2] == 14;
    assert !Fits(states, requests);
  }
}
