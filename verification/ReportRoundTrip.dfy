/** The report layouts from the sender's side: what a contact's bytes are, and that the decoder reads
    back what was put into them. */
module ReportRoundTrip {
  import opened Bits
  import opened Decoder
  import opened Reports
  import opened Refinement
  import opened ReportProperties

  // ---------- contacts ----------

  /** A contact as the firmware has it: position, the two width counts in traces, pressure. */
  datatype Finger = Finger(x: nat, y: nat, tracesX: nat, tracesY: nat, pressure: nat)

  predicate Sendable(f: Finger, hp: bool) {
    var limit := if hp then 65536 else 4096;
    f.x < limit && f.y < limit && f.tracesX < 16 && f.tracesY < 16 && f.pressure < 256
  }

  /** The five bytes: the high nibbles of a standard position share the first byte, x above y. */
  function Packed(f: Finger, hp: bool): (bytes: seq<byte>)
    requires Sendable(f, hp)
    ensures |bytes| == 5
  {
    if hp then [f.x / 256, f.x % 256, f.y / 256, f.y % 256, f.pressure]
    else [f.x / 256 * 16 + f.y / 256, f.x % 256, f.y % 256, f.tracesY * 16 + f.tracesX, f.pressure]
  }

  /** The touch bit of a slot: the five above the button bits. */
  predicate Down(touches: byte, slot: nat) {
    touches / Pow2(3 + slot) % 2 == 1
  }

  /** The touched slots below n. */
  function Downs(touches: byte, n: nat): set<nat> {
    set j: nat | j < n && Down(touches, j)
  }

  /** Report r carries this finger in slot k: its touch bit is set, its bytes follow those of the
      touched slots below it, and in high precision its widths are in the slot's own byte. */
  ghost predicate Carries(r: seq<byte>, hp: bool, k: nat, f: Finger) {
    && Sendable(f, hp) && 3 < |r| && k < 5 && Down(r[3], k)
    && r[2] == (if hp then 0x60 else 0x5d)
    && var o := 4 + 5 * |Downs(r[3], k)|;
       && o + 5 <= |r| && r[o..o + 5] == Packed(f, hp)
       && (hp && 33 + k < |r| ==> r[33 + k] == f.tracesY * 16 + f.tracesX)
  }

  /** The extent of so many traces, each counted without its border. */
  function Extent(traces: nat, width: u32): nat {
    var net := if width < 90 then 0 else width - 90;
    if traces * net > 0xFFFF_FFFF then 0xFFFF_FFFF else traces * net
  }

  /** What the input core is to be told of it: nothing if it lies outside the axes. */
  function Told(f: Finger, ctx: Context): Contact
    requires f.tracesX < 16 && f.tracesY < 16
  {
    if f.x > ctx.maxX || f.y > ctx.maxY then EMPTY else
    var sum := f.pressure + ctx.adjustment;
    var pressure: u32 := if sum < 0 || sum > 0x7FFF_FFFF then 0 else if sum > 255 then 255 else sum;
    var ex, ey := Extent(f.tracesX, ctx.widthX), Extent(f.tracesY, ctx.widthY);
    if ctx.features % 2 == 1
    then Contact(true, f.x, ctx.maxY - f.y, pressure, f.tracesX, if ex < ey then ey else ex, if ex < ey then ex else ey)
    else Contact(true, f.x, ctx.maxY - f.y, pressure, 0, 0, 0)
  }

  lemma DownIsTouched(touches: byte, slot: nat)
    ensures Touched(touches, slot) <==> Down(touches, slot)
  {}

  lemma OffsetIs(r: seq<byte>, k: nat)
    requires 3 < |r|
    ensures DataOffset(r[3], k) == 4 + 5 * |Downs(r[3], k)|
  {
    OffsetCountsTouches(r[3], k);
    forall j: nat ensures Touched(r[3], j) <==> Down(r[3], j) {
      DownIsTouched(r[3], j);
    }
    hide Down, Touched;
    assert (set j: nat | j < k && Touched(r[3], j)) == Downs(r[3], k);
  }

  lemma Halves(n: nat)
    requires n < 65536
    ensures n / 256 < 256 && n / 256 * 256 + n % 256 == n
  {}

  lemma Nibbles(high: nat, low: nat)
    requires high < 16 && low < 16
    ensures (high * 16 + low) / 16 == high && (high * 16 + low) % 16 == low
  {}

  lemma PositionsRead(r: seq<byte>, o: nat, hp: bool, f: Finger)
    requires Sendable(f, hp) && o + 5 <= |r| && r[o..o + 5] == Packed(f, hp)
    ensures PositionX(r, o, hp) == f.x && PositionY(r, o, hp) == f.y && r[o + 4] == f.pressure
    ensures !hp ==> r[o + 3] == f.tracesY * 16 + f.tracesX
  {
    var b := r[o..o + 5];
    assert b[0] == r[o] && b[1] == r[o + 1] && b[2] == r[o + 2] && b[3] == r[o + 3] && b[4] == r[o + 4];
    Halves(f.x);
    Halves(f.y);
    if !hp {
      Nibbles(f.x / 256, f.y / 256);
    }
  }

  lemma PressureIs(raw: nat, adjustment: i32)
    requires raw < 256
    ensures var sum := raw + adjustment;
      ScaledPressure(raw, adjustment) == if sum < 0 || sum > 0x7FFF_FFFF then 0 else if sum > 255 then 255 else sum
  {
    var sum := raw + adjustment;
    if sum > 0x7FFF_FFFF {
      assert WrapI32(sum) == sum - 0x1_0000_0000;
    } else {
      assert WrapI32(sum) == sum;
    }
  }

  lemma ExtentIs(traces: u32, width: u32)
    requires traces < 16
    ensures Area(traces, width) == Extent(traces, width)
  {
  }

  /** Whatever else the report holds: if it carries a finger in slot k and is accepted, the frame has
      exactly what is to be told of that finger in slot k. */
  lemma ContactRoundTrip(ctx: Context, r: seq<byte>, hp: bool, k: nat, f: Finger)
    requires Carries(r, hp, k, f) && Status(ctx, r) == 0
    ensures FrameOf(ctx, r).kind == Absolute && |FrameOf(ctx, r).contacts| == 5
    ensures FrameOf(ctx, r).contacts[k] == Told(f, ctx)
  {
    OffsetIs(r, k);
    DownIsTouched(r[3], k);
    FrameIs(ctx, r, hp);
    SlotRoundTrip(ctx, r, hp, k, f);
  }

  lemma FrameIs(ctx: Context, r: seq<byte>, hp: bool)
    requires Status(ctx, r) == 0 && r[2] == if hp then 0x60 else 0x5d
    ensures AbsoluteFits(ctx, r, hp) && FrameOf(ctx, r) == AbsoluteFrame(ctx, r, hp)
    ensures forall k: nat :: k < 5 ==> SlotFits(ctx, r, hp, k) && FrameOf(ctx, r).contacts[k] == ContactOf(ctx, r, hp, k)
  {
  }

  lemma SlotRoundTrip(ctx: Context, r: seq<byte>, hp: bool, k: nat, f: Finger)
    requires Sendable(f, hp) && 3 < |r| && k < 5 && SlotFits(ctx, r, hp, k) && Touched(r[3], k)
    requires var o := DataOffset(r[3], k); o + 5 <= |r| && r[o..o + 5] == Packed(f, hp)
    requires hp && 33 + k < |r| ==> r[33 + k] == f.tracesY * 16 + f.tracesX
    ensures ContactOf(ctx, r, hp, k) == Told(f, ctx)
  {
    hide PositionX, PositionY, ScaledPressure, WrapI32, Area, Extent, DataOffset, Touched, ReportsMk, Packed, Bit;
    PositionsRead(r, DataOffset(r[3], k), hp, f);
    PressureIs(f.pressure, ctx.adjustment);
    Nibbles(f.tracesY, f.tracesX);
    ExtentIs(f.tracesX, ctx.widthX);
    ExtentIs(f.tracesY, ctx.widthY);
    FeatureIs(ctx.features);
  }

  lemma FeatureIs(features: u32)
    ensures ReportsMk(features) <==> features % 2 == 1
  {
    assert Pow2(0) == 1;
  }

  /** A slot without its touch bit is told of nothing. */
  lemma UntouchedIsEmpty(ctx: Context, r: seq<byte>, k: nat)
    requires Status(ctx, r) == 0 && r[2] in {0x5d, 0x60} && k < 5 && !Down(r[3], k)
    ensures FrameOf(ctx, r).contacts[k] == EMPTY
  {
    var hp := r[2] == 0x60;
    DownIsTouched(r[3], k);
    FrameIs(ctx, r, hp);
  }

  /** The buttons are the low bits of the touch byte, left, right and middle; hover is bit 6 of byte 30. */
  lemma ButtonsAndHover(ctx: Context, r: seq<byte>, i: Input)
    requires Status(ctx, r) == 0 && r[2] in {0x5d, 0x60} && |i.slots| == 5
    ensures FrameOf(ctx, r).kind == Absolute && |FrameOf(ctx, r).contacts| == 5
    ensures var e := Emitted(i, FrameOf(ctx, r), ctx.features);
      && (e.left <==> r[3] % 2 == 1) && (e.right <==> r[3] / 2 % 2 == 1) && (e.middle <==> r[3] / 4 % 2 == 1)
      && e.distance == if |r| > 30 && r[30] / 64 % 2 == 1 then 1 else 0
  {
    FrameIs(ctx, r, r[2] == 0x60);
    LowBits(r[3]);
    assert Pow2(6) == 64;
  }

  lemma LowBits(b: byte)
    ensures (Bit(b % 8, 0) <==> b % 2 == 1) && (Bit(b % 8, 1) <==> b / 2 % 2 == 1) && (Bit(b % 8, 2) <==> b / 4 % 2 == 1)
  {
    LowThreeBits(b);
    assert Pow2(0) == 1 && Pow2(1) == 2 && Pow2(2) == 4;
  }

  // ---------- the trackpoint ----------

  /** The byte pair of a motion: its sign byte counts half steps below 0x80, its other byte adds the rest. */
  function SignByte(motion: int): byte
    requires -510 <= motion <= 255
  {
    var halves := if motion >= 0 then 0 else (1 - motion) / 2;
    if halves < 128 then halves + 128 else halves - 128
  }

  function RestByte(motion: int): byte
    requires -510 <= motion <= 255
  {
    if motion >= 0 then motion else motion + 2 * ((1 - motion) / 2)
  }

  /** A motion packet with the buttons in its first byte; y counts the other way. */
  ghost predicate Moves(r: seq<byte>, left: bool, right: bool, middle: bool, x: int, y: int)
    requires -510 <= x <= 255 && -255 <= y <= 510
  {
    && 9 <= |r| && r[2] in {0x5e, 0x5f}
    && r[3] % 8 == (if left then 1 else 0) + (if right then 2 else 0) + (if middle then 4 else 0)
    && r[6] % 16 == 6
    && r[4] == SignByte(x) && r[7] == RestByte(x) && r[5] == SignByte(-y) && r[8] == RestByte(-y)
  }

  lemma MotionIs(motion: int)
    requires -510 <= motion <= 255
    ensures RestByte(motion) - Flip(SignByte(motion)) * 2 == motion
  {
    FlipBack(if motion >= 0 then 0 else (1 - motion) / 2);
    hide Flip;
  }

  lemma FlipBack(halves: nat)
    requires halves < 256
    ensures Flip(if halves < 128 then halves + 128 else halves - 128) == halves
  {}

  lemma ButtonBits(left: bool, right: bool, middle: bool)
    ensures var b := (if left then 1 else 0) + (if right then 2 else 0) + (if middle then 4 else 0);
      Bit(b, 0) == left && Bit(b, 1) == right && Bit(b, 2) == middle
  {
    assert Pow2(0) == 1 && Pow2(1) == 2 && Pow2(2) == 4;
  }

  /** Such a packet is accepted, and the trackpoint device gets its buttons and exactly its motion. */
  lemma MotionRoundTrip(ctx: Context, r: seq<byte>, p: Point, left: bool, right: bool, middle: bool, x: int, y: int)
    requires -510 <= x <= 255 && -255 <= y <= 510 && Moves(r, left, right, middle, x, y)
    ensures Status(ctx, r) == 0 && FrameOf(ctx, r).kind == Trackpoint
    ensures EmittedPoint(p, FrameOf(ctx, r)) == Point(left, middle, right, p.motion + [(x, y)])
  {
    MotionIs(x);
    MotionIs(-y);
    ButtonBits(left, right, middle);
  }

  /** A packet of another kind reports no motion. */
  lemma NoMotion(ctx: Context, r: seq<byte>, p: Point)
    requires 9 <= |r| && r[2] in {0x5e, 0x5f} && r[6] % 16 != 6
    ensures Status(ctx, r) == 0 && EmittedPoint(p, FrameOf(ctx, r)).motion == p.motion
  {
  }

  // ---------- rejections ----------

  /** Which reports are rejected, and how: too short for a report number, for its fields, or of a
      number no device of this kind sends. */
  lemma RejectedExactly(ctx: Context, r: seq<byte>)
    ensures |r| <= 2 ==> Status(ctx, r) == -22
    ensures |r| > 2 && r[2] !in {0x5d, 0x5e, 0x5f, 0x60} ==> Status(ctx, r) == -71
    ensures |r| > 2 && r[2] in {0x5e, 0x5f} ==> Status(ctx, r) == if |r| < 9 then -22 else 0
    ensures |r| > 2 && r[2] in {0x5d, 0x60} ==> Status(ctx, r) == -22 || (Status(ctx, r) == 0 && |r| > 3)
  {
  }

  lemma {:induction false} MoreDowns(touches: byte, k: nat, n: nat)
    requires k < n
    ensures |Downs(touches, k)| + (if Down(touches, k) then 1 else 0) <= |Downs(touches, n)|
    decreases n
  {
    assert Downs(touches, n) == Downs(touches, n - 1) + if Down(touches, n - 1) then {n - 1} else {};
    if k < n - 1 { MoreDowns(touches, k, n - 1); }
  }

  lemma {:induction false} LastDown(touches: byte, n: nat) returns (k: nat)
    requires |Downs(touches, n)| > 0
    ensures k < n && Down(touches, k) && |Downs(touches, n)| == |Downs(touches, k)| + 1
  {
    assert n > 0;
    assert Downs(touches, n) == Downs(touches, n - 1) + if Down(touches, n - 1) then {n - 1} else {};
    if Down(touches, n - 1) { k := n - 1; } else { k := LastDown(touches, n - 1); }
  }

  /** The high-precision position in slot k's bytes lies inside the axes. */
  predicate Inside(ctx: Context, r: seq<byte>, k: nat)
    requires |r| > 3
  {
    var o := 4 + 5 * |Downs(r[3], k)|;
    o + 5 <= |r| && r[o] as int * 256 + r[o + 1] as int <= ctx.maxX && r[o + 2] as int * 256 + r[o + 3] as int <= ctx.maxY
  }

  /** The bytes of slot k's contact are there. */
  predicate Held(ctx: Context, r: seq<byte>, k: nat)
    requires |r| > 3
  {
    && 4 + 5 * |Downs(r[3], k)| + 5 <= |r|
    && (r[2] == 0x60 && ctx.features % 2 == 1 && Inside(ctx, r, k) ==> 33 + k < |r|)
  }

  lemma SlotNeeds(ctx: Context, r: seq<byte>, k: nat)
    requires |r| > 3 && r[2] in {0x5d, 0x60} && k < 5
    ensures SlotFits(ctx, r, r[2] == 0x60, k) <==> (Down(r[3], k) ==> Held(ctx, r, k))
  {
    FeatureIs(ctx.features);
    OffsetIs(r, k);
    DownIsTouched(r[3], k);
    hide Down, Downs, Touched, ReportsMk, DataOffset;
  }

  /** A contact report is accepted exactly when it has what its touched slots need: four bytes and
      five for each, and in high precision with widths the width byte of each that lies inside. */
  lemma AcceptedExactly(ctx: Context, r: seq<byte>)
    requires |r| > 3 && r[2] in {0x5d, 0x60}
    ensures Status(ctx, r) == 0 <==>
      && 4 + 5 * |Downs(r[3], 5)| <= |r|
      && (r[2] == 0x60 && ctx.features % 2 == 1 ==>
            forall k: nat :: k < 5 && Down(r[3], k) && Inside(ctx, r, k) ==> 33 + k < |r|)
  {
    var tp, hp := r[3], r[2] == 0x60;
    forall k: nat | k < 5 ensures SlotFits(ctx, r, hp, k) <==> (Down(tp, k) ==> Held(ctx, r, k)) {
      SlotNeeds(ctx, r, k);
    }
    hide SlotFits, Inside, Down, Downs;
    if AbsoluteFits(ctx, r, hp) && |Downs(tp, 5)| > 0 {
      var k := LastDown(tp, 5);
      assert SlotFits(ctx, r, hp, k);
    }
    if 4 + 5 * |Downs(tp, 5)| <= |r| {
      forall k: nat | k < 5 ensures Down(tp, k) ==> 4 + 5 * |Downs(tp, k)| + 5 <= |r| {
        MoreDowns(tp, k, 5);
      }
    }
  }
}
