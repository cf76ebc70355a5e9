/** The Rust decoder with the C shim against the C decoder it replaces. */
module Refinement {
  import opened Bits
  import opened Decoder
  import opened Reports

  // ---------- where the two kinds of arithmetic meet ----------

  predicate PressureAgrees(adjustment: i32) {
    0 <= adjustment <= 0x7FFF_FFFF - 255
  }

  lemma UnsignedIs(x: int)
    requires -0x1_0000_0000 <= x < 0x1_0000_0000
    ensures Unsigned(x) == if x < 0 then x + 0x1_0000_0000 else x
  {
  }

  lemma SignedIs(x: int)
    requires -0x8000_0000 <= x < 0x1_0000_0000
    ensures WrapI32(x) == if x < 0x8000_0000 then x else x - 0x1_0000_0000
  {
  }

  lemma PressuresOf(raw: nat, adjustment: i32)
    requires raw < 256
    ensures var sum := raw + adjustment;
      && ScaledPressure(raw, adjustment) == (if sum < 0 || sum > 0x7FFF_FFFF then 0 else Min(MAX_PRESSURE, sum))
      && OriginalPressure(raw, adjustment) == (if sum < 0 then MAX_PRESSURE else Min(MAX_PRESSURE, sum))
  {
    UnsignedIs(raw + adjustment);
    SignedIs(raw + adjustment);
  }

  /** The unsigned sum and the clamped signed one agree on every raw byte exactly for these
      adjustments. */
  lemma PressureExactly(adjustment: i32)
    ensures (forall raw: nat :: raw < 256 ==> ScaledPressure(raw, adjustment) == OriginalPressure(raw, adjustment))
      <==> PressureAgrees(adjustment)
  {
    if PressureAgrees(adjustment) {
      forall raw: nat | raw < 256 ensures ScaledPressure(raw, adjustment) == OriginalPressure(raw, adjustment) {
        PressuresOf(raw, adjustment);
      }
    } else {
      var raw := if adjustment < 0 then 0 else 255;
      PressuresOf(raw, adjustment);
      assert ScaledPressure(raw, adjustment) != OriginalPressure(raw, adjustment);
    }
  }

  predicate WidthAgrees(width: u32) {
    FINGER_WIDTH_REDUCE <= width && 15 * (width - FINGER_WIDTH_REDUCE) <= U32_MAX
  }

  lemma AtMostFifteen(nibble: nat, d: nat)
    requires nibble < 16
    ensures 0 <= nibble * d <= 15 * d
  {
  }

  lemma AreaAgrees(nibble: nat, width: u32)
    requires nibble < 16 && WidthAgrees(width)
    ensures Area(nibble, width) == OriginalArea(nibble, width)
  {
    var d := width - FINGER_WIDTH_REDUCE;
    UnsignedIs(d);
    AtMostFifteen(nibble, d);
    var product := nibble * d;
    UnsignedIs(product);
    assert SaturatingSub(width, FINGER_WIDTH_REDUCE) == d;
    assert OriginalArea(nibble, width) == Unsigned(product);
  }

  /** The wrapping product and the saturating one agree on every nibble exactly for these widths. */
  lemma AreaExactly(width: u32)
    ensures (forall n: nat :: n < 16 ==> Area(n, width) == OriginalArea(n, width)) <==> WidthAgrees(width)
  {
    if WidthAgrees(width) {
      forall n: nat | n < 16 ensures Area(n, width) == OriginalArea(n, width) {
        AreaAgrees(n, width);
      }
    } else {
      AreaDiffers(width);
    }
  }

  /** The nibble on which they differ. */
  function WidthWitness(width: u32): nat {
    if width < FINGER_WIDTH_REDUCE then 1 else 15
  }

  lemma AreaDiffers(width: u32)
    requires !WidthAgrees(width)
    ensures Area(WidthWitness(width), width) != OriginalArea(WidthWitness(width), width)
    ensures Area(WidthWitness(width), width) == 0 || OriginalArea(WidthWitness(width), width) != U32_MAX
  {
    if width < FINGER_WIDTH_REDUCE {
      UnsignedIs(width - FINGER_WIDTH_REDUCE);
    } else {
      var d := width - FINGER_WIDTH_REDUCE;
      UnsignedIs(d);
      assert 15 * d > U32_MAX;
    }
  }

  // ---------- the refinement ----------

  /** What the transports report: an adjustment of 0 or 25, features 0 or 1, and traces at
      least 90 units wide are inside this. */
  predicate GoodContext(ctx: Context) {
    && PressureAgrees(ctx.adjustment)
    && (ctx.features != 0 ==> ReportsMk(ctx.features))
    && (ReportsMk(ctx.features) ==> WidthAgrees(ctx.widthX) && WidthAgrees(ctx.widthY))
  }

  /** A report of `len` bytes in the handler's buffer, long enough to hold the hover byte, that
      the decoder accepts. */
  ghost predicate Accepted(ctx: Context, p: seq<byte>, len: nat, hp: bool) {
    |p| == MAX_REPORT_LEN && HOVER_INFO_OFFSET < len <= |p| && AbsoluteFits(ctx, p[..len], hp)
  }

  predicate OutOfRange(ctx: Context, p: seq<byte>, hp: bool, slot: nat)
    requires |p| == MAX_REPORT_LEN && slot < MAX_CONTACTS
  {
    TouchedBelowBound(p[TOUCH_INFO_OFFSET], slot);
    Touched(p[TOUCH_INFO_OFFSET], slot) && !InRange(ctx, p, DataOffset(p[TOUCH_INFO_OFFSET], slot), hp)
  }

  function ByShim(i: Input, ctx: Context, p: seq<byte>, len: nat, hp: bool): Input
    requires Accepted(ctx, p, len, hp) && |i.slots| == MAX_CONTACTS
  {
    Emitted(i, AbsoluteFrame(ctx, p[..len], hp), ctx.features)
  }

  lemma MkRefines(mk: byte, ctx: Context)
    requires WidthAgrees(ctx.widthX) && WidthAgrees(ctx.widthY)
    ensures Area(mk % 16, ctx.widthX) == OriginalArea(mk % 16, ctx.widthX)
    ensures Area(mk / 16, ctx.widthY) == OriginalArea(mk / 16, ctx.widthY)
  {
    AreaAgrees(mk % 16, ctx.widthX);
    AreaAgrees(mk / 16, ctx.widthY);
  }

  /** The decoder's prefix of the buffer and the buffer say the same about a packed contact. */
  lemma SameReading(ctx: Context, p: seq<byte>, len: nat, hp: bool, k: nat)
    requires Accepted(ctx, p, len, hp) && k < MAX_CONTACTS
    ensures p[..len][TOUCH_INFO_OFFSET] == p[TOUCH_INFO_OFFSET] && SlotFits(ctx, p[..len], hp, k)
    ensures DataOffset(p[TOUCH_INFO_OFFSET], k) + FINGER_DATA_LEN <= |p|
    ensures var o := DataOffset(p[TOUCH_INFO_OFFSET], k);
      Active(ctx, p[..len], hp, k) <==> Touched(p[TOUCH_INFO_OFFSET], k) && InRange(ctx, p, o, hp)
    ensures var o := DataOffset(p[TOUCH_INFO_OFFSET], k); Active(ctx, p[..len], hp, k) ==>
      && o + FINGER_DATA_LEN <= len && p[..len][o + 4] == p[o + 4]
      && PositionX(p[..len], o, hp) == PositionX(p, o, hp) && PositionY(p[..len], o, hp) == PositionY(p, o, hp)
      && (ReportsMk(ctx.features) ==>
            (hp ==> MK_DATA_OFFSET + k < len) && MkByte(p[..len], o, hp, k) == MkByte(p, o, hp, k))
  {
    TouchedBelowBound(p[TOUCH_INFO_OFFSET], k);
  }

  lemma SlotRefines(i: Slot, ctx: Context, p: seq<byte>, len: nat, hp: bool, k: nat)
    requires Accepted(ctx, p, len, hp) && GoodContext(ctx) && k < MAX_CONTACTS
    requires SlotFits(ctx, p[..len], hp, k)
    ensures EmittedSlot(i, ContactOf(ctx, p[..len], hp, k), ctx.features) ==
      if OutOfRange(ctx, p, hp, k) then i.(active := false) else OriginalSlot(i, ctx, p, hp, k)
    ensures OutOfRange(ctx, p, hp, k) ==> OriginalSlot(i, ctx, p, hp, k) == i
  {
    SameReading(ctx, p, len, hp, k);
    if Active(ctx, p[..len], hp, k) {
      ActiveRefines(i, ctx, p, len, hp, k);
    }
  }

  lemma ActiveRefines(i: Slot, ctx: Context, p: seq<byte>, len: nat, hp: bool, k: nat)
    requires Accepted(ctx, p, len, hp) && GoodContext(ctx) && k < MAX_CONTACTS
    requires SlotFits(ctx, p[..len], hp, k) && Active(ctx, p[..len], hp, k)
    ensures EmittedSlot(i, ContactOf(ctx, p[..len], hp, k), ctx.features) == OriginalSlot(i, ctx, p, hp, k)
  {
    SameReading(ctx, p, len, hp, k);
    var o := DataOffset(p[TOUCH_INFO_OFFSET], k);
    PressureExactly(ctx.adjustment);
    assert ScaledPressure(p[o + 4], ctx.adjustment) == OriginalPressure(p[o + 4], ctx.adjustment);
    if ReportsMk(ctx.features) {
      MkRefines(MkByte(p, o, hp, k), ctx);
      assert ctx.features != 0 by { assert Pow2(0) == 1; }
    }
  }

  lemma WidthStepRefines(w: int, ctx: Context, p: seq<byte>, len: nat, hp: bool, k: nat)
    requires Accepted(ctx, p, len, hp) && GoodContext(ctx) && k < MAX_CONTACTS && SlotFits(ctx, p[..len], hp, k)
    ensures OriginalWidthStep(w, ctx, p, hp, k) ==
      var c := ContactOf(ctx, p[..len], hp, k);
      if c.active && ctx.features != 0 then c.toolWidth else w
  {
    SameReading(ctx, p, len, hp, k);
    assert !Bit(0, 0) by { assert Pow2(0) == 1; }
  }

  lemma {:induction false} WidthRefines(w: int, ctx: Context, p: seq<byte>, len: nat, hp: bool, n: nat)
    requires Accepted(ctx, p, len, hp) && GoodContext(ctx) && n <= MAX_CONTACTS
    ensures EmittedWidth(w, ContactsOf(ctx, p[..len], hp), ctx.features, n) == OriginalWidth(w, ctx, p, hp, n)
  {
    if n > 0 {
      WidthRefines(w, ctx, p, len, hp, n - 1);
      SameReading(ctx, p, len, hp, n - 1);
      WidthStepRefines(OriginalWidth(w, ctx, p, hp, n - 1), ctx, p, len, hp, n - 1);
      assert ContactsOf(ctx, p[..len], hp)[n - 1] == ContactOf(ctx, p[..len], hp, n - 1);
    }
  }

  /** Every accepted report leaves the same buttons, hover and axes as the original decoder.  A
      slot differs only where a contact lies outside the axes: the original leaves that slot as
      it was, the shim releases it. */
  lemma ShimRefinesOriginal(i: Input, ctx: Context, p: seq<byte>, len: nat, hp: bool)
    requires Accepted(ctx, p, len, hp) && GoodContext(ctx) && |i.slots| == MAX_CONTACTS
    ensures var e, c := ByShim(i, ctx, p, len, hp), Original(i, ctx, p, hp);
      && e.(slots := c.slots) == c
      && forall k :: 0 <= k < MAX_CONTACTS ==>
           if OutOfRange(ctx, p, hp, k)
           then c.slots[k] == i.slots[k] && e.slots[k] == i.slots[k].(active := false)
           else e.slots[k] == c.slots[k]
  {
    var r := p[..len];
    assert r[TOUCH_INFO_OFFSET] == p[TOUCH_INFO_OFFSET] && r[HOVER_INFO_OFFSET] == p[HOVER_INFO_OFFSET];
    LowThreeBits(p[TOUCH_INFO_OFFSET]);
    WidthRefines(i.toolWidth, ctx, p, len, hp, MAX_CONTACTS);
    forall k | 0 <= k < MAX_CONTACTS
      ensures ByShim(i, ctx, p, len, hp).slots[k] == EmittedSlot(i.slots[k], ContactOf(ctx, r, hp, k), ctx.features)
    {
      assert ContactsOf(ctx, r, hp)[k] == ContactOf(ctx, r, hp, k);
    }
    forall k | 0 <= k < MAX_CONTACTS
      ensures OutOfRange(ctx, p, hp, k) ==> OriginalSlot(i.slots[k], ctx, p, hp, k) == i.slots[k]
      ensures EmittedSlot(i.slots[k], ContactOf(ctx, r, hp, k), ctx.features) ==
        if OutOfRange(ctx, p, hp, k) then i.slots[k].(active := false)
        else OriginalSlot(i.slots[k], ctx, p, hp, k)
    {
      SlotRefines(i.slots[k], ctx, p, len, hp, k);
    }
  }

  lemma LowThreeBits(n: nat)
    ensures Bit(n % 8, 0) == Bit(n, 0) && Bit(n % 8, 1) == Bit(n, 1) && Bit(n % 8, 2) == Bit(n, 2)
  {
    assert Pow2(0) == 1 && Pow2(1) == 2 && Pow2(2) == 4;
    EightfoldAway(n / 8, n % 8);
  }

  lemma EvenAway(m: nat, r: nat)
    ensures (2 * m + r) % 2 == r % 2
  {}

  lemma HalfOf(q: nat, r: nat)
    ensures (8 * q + r) / 2 == 4 * q + r / 2
  {}

  lemma QuarterOf(q: nat, r: nat)
    ensures (8 * q + r) / 4 == 2 * q + r / 4
  {}

  lemma EightfoldAway(q: nat, r: nat)
    ensures var n := 8 * q + r; n / 1 % 2 == r / 1 % 2 && n / 2 % 2 == r / 2 % 2 && n / 4 % 2 == r / 4 % 2
  {
    HalfOf(q, r);
    QuarterOf(q, r);
    EvenAway(4 * q, r);
    EvenAway(2 * q, r / 2);
    EvenAway(q, r / 4);
  }

  // ---------- exactly for which devices ----------

  ghost predicate AllInRange(ctx: Context, p: seq<byte>, hp: bool)
    requires |p| == MAX_REPORT_LEN
  {
    forall k :: 0 <= k < MAX_CONTACTS ==> !OutOfRange(ctx, p, hp, k)
  }

  /** On this report the two decoders leave the same input state. */
  ghost predicate SameResult(ctx: Context, i: Input, p: seq<byte>, len: nat, hp: bool) {
    Accepted(ctx, p, len, hp) && AllInRange(ctx, p, hp) && |i.slots| == MAX_CONTACTS
    ==> ByShim(i, ctx, p, len, hp) == Original(i, ctx, p, hp)
  }

  const START_SLOT := Slot(false, 0, 0, 0, 0, 0)
  const START_INPUT := Input([START_SLOT, START_SLOT, START_SLOT, START_SLOT, START_SLOT], 7, false, false, false, 0)

  /** One contact at the origin in slot 0, with the given width and pressure bytes. */
  function OneTouch(mk: byte, raw: byte): seq<byte> {
    seq(MAX_REPORT_LEN, k => if k == 3 then 8 else if k == 7 then mk else if k == 8 then raw else 0)
  }

  lemma Eight()
    ensures Touched(8, 0) && !Touched(8, 1) && !Touched(8, 2) && !Touched(8, 3) && !Touched(8, 4)
    ensures DataOffset(8, 0) == 4
  {
    assert Pow2(3) == 8 && Pow2(4) == 16 && Pow2(5) == 32 && Pow2(6) == 64 && Pow2(7) == 128;
  }

  lemma OneTouchAccepted(ctx: Context, mk: byte, raw: byte)
    ensures Accepted(ctx, OneTouch(mk, raw), 34, false) && AllInRange(ctx, OneTouch(mk, raw), false)
    ensures SlotFits(ctx, OneTouch(mk, raw)[..34], false, 0) && Active(ctx, OneTouch(mk, raw)[..34], false, 0)
    ensures forall k :: 1 <= k < MAX_CONTACTS ==>
      SlotFits(ctx, OneTouch(mk, raw)[..34], false, k) && !Active(ctx, OneTouch(mk, raw)[..34], false, k)
  {
    var p := OneTouch(mk, raw);
    var r := p[..34];
    Eight();
    assert r[3] == 8 && p[3] == 8 && r[4] == r[5] == r[6] == 0 && p[4] == p[5] == p[6] == 0;
    assert InRange(ctx, r, 4, false) && InRange(ctx, p, 4, false);
    forall k | 0 <= k < MAX_CONTACTS ensures SlotFits(ctx, r, false, k) && !OutOfRange(ctx, p, false, k) {
      assert k == 0 || !Touched(8, k);
    }
  }

  /** What the shim and the original make of it. */
  lemma OneTouchIs(ctx: Context, mk: byte, raw: byte)
    ensures Accepted(ctx, OneTouch(mk, raw), 34, false) && AllInRange(ctx, OneTouch(mk, raw), false)
    ensures SlotFits(ctx, OneTouch(mk, raw)[..34], false, 0)
    ensures ContactOf(ctx, OneTouch(mk, raw)[..34], false, 0) == OneContact(ctx, mk, raw)
    ensures ByShim(START_INPUT, ctx, OneTouch(mk, raw), 34, false).slots[0]
      == EmittedSlot(START_SLOT, OneContact(ctx, mk, raw), ctx.features)
    ensures var s := Original(START_INPUT, ctx, OneTouch(mk, raw), false).slots[0];
      && s.pressure == OriginalPressure(raw, ctx.adjustment)
      && (ReportsMk(ctx.features) ==>
            s.major == Max(OriginalArea(mk % 16, ctx.widthX), OriginalArea(mk / 16, ctx.widthY)))
  {
    var p := OneTouch(mk, raw);
    OneTouchAccepted(ctx, mk, raw);
    SameReading(ctx, p, 34, false, 0);
    Eight();
    assert p[3] == 8 && p[7] == mk && p[8] == raw && p[4] == p[5] == p[6] == 0;
    assert ContactsOf(ctx, p[..34], false)[0] == ContactOf(ctx, p[..34], false, 0);
  }

  function OneContact(ctx: Context, mk: byte, raw: byte): Contact {
    var c := Contact(true, 0, ctx.maxY, ScaledPressure(raw, ctx.adjustment), 0, 0, 0);
    if ReportsMk(ctx.features) then WithMk(c, mk, ctx) else c
  }

  /** The two decoders agree on every accepted report whose contacts are in range, from every
      input state, exactly when the context is good. */
  lemma RefinesExactly(ctx: Context)
    ensures (forall i, p, len, hp :: SameResult(ctx, i, p, len, hp)) <==> GoodContext(ctx)
  {
    if GoodContext(ctx) {
      forall i, p, len, hp ensures SameResult(ctx, i, p, len, hp) {
        if Accepted(ctx, p, len, hp) && AllInRange(ctx, p, hp) && |i.slots| == MAX_CONTACTS {
          ShimRefinesOriginal(i, ctx, p, len, hp);
          assert ByShim(i, ctx, p, len, hp).slots == Original(i, ctx, p, hp).slots;
        }
      }
    } else {
      var mk, raw := BadReport(ctx);
      assert !SameResult(ctx, START_INPUT, OneTouch(mk, raw), 34, false);
    }
  }

  lemma BadReport(ctx: Context) returns (mk: byte, raw: byte)
    requires !GoodContext(ctx)
    ensures !SameResult(ctx, START_INPUT, OneTouch(mk, raw), 34, false)
  {
    mk, raw := 0, 0;
    if !PressureAgrees(ctx.adjustment) {
      PressureExactly(ctx.adjustment);
      var n: nat :| n < 256 && ScaledPressure(n, ctx.adjustment) != OriginalPressure(n, ctx.adjustment);
      raw := n;
      OneTouchIs(ctx, mk, raw);
    } else if ctx.features != 0 && !ReportsMk(ctx.features) {
      UnusedFeature(ctx);
    } else if !WidthAgrees(ctx.widthX) {
      mk := WidthWitness(ctx.widthX);
      BadWidth(ctx, mk);
    } else {
      mk := (WidthWitness(ctx.widthY) * 16);
      BadWidth(ctx, mk);
    }
  }

  lemma {:induction false} NoWidths(w: int, ctx: Context, p: seq<byte>, hp: bool, n: nat)
    requires |p| == MAX_REPORT_LEN && n <= MAX_CONTACTS && !ReportsMk(ctx.features)
    ensures OriginalWidth(w, ctx, p, hp, n) == w
  {
    if n > 0 { NoWidths(w, ctx, p, hp, n - 1); }
  }

  lemma {:induction false} ZeroWidths(w: int, cs: seq<Contact>, features: u32, n: nat)
    requires 1 <= n <= |cs| && features != 0 && cs[0].active
    requires forall k :: 0 <= k < |cs| ==> cs[k].toolWidth == 0
    ensures EmittedWidth(w, cs, features, n) == 0
  {
    if n > 1 { ZeroWidths(w, cs, features, n - 1); }
  }

  /** A feature bit other than MK makes the shim report a tool width the original never does. */
  lemma UnusedFeature(ctx: Context)
    requires ctx.features != 0 && !ReportsMk(ctx.features)
    ensures !SameResult(ctx, START_INPUT, OneTouch(0, 0), 34, false)
  {
    OneTouchIs(ctx, 0, 0);
    var p := OneTouch(0, 0);
    var cs := ContactsOf(ctx, p[..34], false);
    OneTouchAccepted(ctx, 0, 0);
    forall k | 0 <= k < MAX_CONTACTS ensures cs[k].toolWidth == 0 && (k == 0 ==> cs[k].active) {
      assert cs[k] == ContactOf(ctx, p[..34], false, k);
    }
    ZeroWidths(7, cs, ctx.features, MAX_CONTACTS);
    NoWidths(7, ctx, p, false, MAX_CONTACTS);
  }

  lemma MajorDiffers(ctx: Context, mk: byte)
    requires || (!WidthAgrees(ctx.widthX) && mk == WidthWitness(ctx.widthX))
             || (!WidthAgrees(ctx.widthY) && mk == WidthWitness(ctx.widthY) * 16)
    ensures Max(Area(mk % 16, ctx.widthX), Area(mk / 16, ctx.widthY))
      != Max(OriginalArea(mk % 16, ctx.widthX), OriginalArea(mk / 16, ctx.widthY))
  {
    assert Area(0, ctx.widthX) == Area(0, ctx.widthY) == 0;
    assert OriginalArea(0, ctx.widthX) == OriginalArea(0, ctx.widthY) == 0;
    if !WidthAgrees(ctx.widthX) && mk == WidthWitness(ctx.widthX) {
      assert mk % 16 == WidthWitness(ctx.widthX) && mk / 16 == 0;
      AreaDiffers(ctx.widthX);
    } else {
      assert mk % 16 == 0 && mk / 16 == WidthWitness(ctx.widthY);
      AreaDiffers(ctx.widthY);
    }
  }

  lemma BadWidth(ctx: Context, mk: byte)
    requires ReportsMk(ctx.features)
    requires || (!WidthAgrees(ctx.widthX) && mk == WidthWitness(ctx.widthX))
             || (!WidthAgrees(ctx.widthY) && mk == WidthWitness(ctx.widthY) * 16)
    ensures !SameResult(ctx, START_INPUT, OneTouch(mk, 0), 34, false)
  {
    OneTouchIs(ctx, mk, 0);
    MajorDiffers(ctx, mk);
    var s, c := ByShim(START_INPUT, ctx, OneTouch(mk, 0), 34, false), Original(START_INPUT, ctx, OneTouch(mk, 0), false);
    assert ctx.features != 0 by { assert Pow2(0) == 1; }
    assert s.slots[0].major == Max(Area(mk % 16, ctx.widthX), Area(mk / 16, ctx.widthY));
    assert c.slots[0].major == Max(OriginalArea(mk % 16, ctx.widthX), OriginalArea(mk / 16, ctx.widthY));
  }
}
