/** What every decoded frame satisfies: its layout, its ranges, and which reports the two
    transports can deliver without a rejection. */
module ReportProperties {
  import opened Bits
  import opened Decoder
  import opened Refinement

  /** A contact's data starts after those of the touched slots below it. */
  lemma {:induction false} OffsetCountsTouches(tp: byte, slot: nat)
    ensures DataOffset(tp, slot) == FINGER_DATA_OFFSET + FINGER_DATA_LEN * |set j: nat | j < slot && Touched(tp, j)|
  {
    if slot > 0 {
      OffsetCountsTouches(tp, slot - 1);
      var below := set j: nat | j < slot - 1 && Touched(tp, j);
      var upto := set j: nat | j < slot && Touched(tp, j);
      if Touched(tp, slot - 1) {
        assert upto == below + {slot - 1};
      } else {
        assert upto == below;
      }
    }
  }

  lemma SumBits(a: bool, b: bool, c: bool, d: bool, e: bool)
    ensures var m := (if a then 1 else 0) + (if b then 2 else 0) + (if c then 4 else 0)
                     + (if d then 8 else 0) + (if e then 16 else 0);
      Bit(m, 0) == a && Bit(m, 1) == b && Bit(m, 2) == c && Bit(m, 3) == d && Bit(m, 4) == e
  {
    assert Pow2(0) == 1 && Pow2(1) == 2 && Pow2(2) == 4 && Pow2(3) == 8 && Pow2(4) == 16;
  }

  lemma SmallQuotient(m: nat, p: nat)
    requires m < p
    ensures m / p == 0
  {}

  lemma MaskStep(cs: seq<Contact>, n: nat, m: nat)
    requires n < |cs| && MaskOf(cs, n) == m && m < Pow2(n)
    ensures MaskOf(cs, n + 1) == m + if cs[n].active then Pow2(n) else 0
    ensures MaskOf(cs, n + 1) < Pow2(n + 1)
  {
    SmallQuotient(m, Pow2(n));
  }

  lemma MaskIsActive(cs: seq<Contact>)
    requires |cs| == MAX_CONTACTS
    ensures forall k :: 0 <= k < MAX_CONTACTS ==> (Bit(MaskOf(cs, MAX_CONTACTS), k) <==> cs[k].active)
  {
    assert Pow2(0) == 1 && Pow2(1) == 2 && Pow2(2) == 4 && Pow2(3) == 8 && Pow2(4) == 16;
    MaskStep(cs, 0, 0);
    MaskStep(cs, 1, MaskOf(cs, 1));
    MaskStep(cs, 2, MaskOf(cs, 2));
    MaskStep(cs, 3, MaskOf(cs, 3));
    MaskStep(cs, 4, MaskOf(cs, 4));
    SumBits(cs[0].active, cs[1].active, cs[2].active, cs[3].active, cs[4].active);
  }

  lemma ContactIsActive(ctx: Context, r: seq<byte>, hp: bool, k: nat)
    requires TOUCH_INFO_OFFSET < |r| && SlotFits(ctx, r, hp, k)
    ensures ContactOf(ctx, r, hp, k).active <==> Active(ctx, r, hp, k)
    ensures !Active(ctx, r, hp, k) ==> ContactOf(ctx, r, hp, k) == EMPTY
  {}

  /** In every accepted absolute frame, a contact is active, has its mask bit set, and is
      touched with its coordinates in range, all together or not at all; otherwise it is zero. */
  lemma ContactsAreConsistent(ctx: Context, r: seq<byte>, hp: bool, k: nat)
    requires AbsoluteFits(ctx, r, hp) && k < MAX_CONTACTS
    ensures var f := AbsoluteFrame(ctx, r, hp);
      && SlotFits(ctx, r, hp, k)
      && (f.contacts[k].active <==> Active(ctx, r, hp, k))
      && (Bit(f.contactMask, k) <==> f.contacts[k].active)
      && (!f.contacts[k].active ==> f.contacts[k] == EMPTY)
  {
    MaskIsActive(ContactsOf(ctx, r, hp));
    assert SlotFits(ctx, r, hp, k);
    ContactIsActive(ctx, r, hp, k);
  }

  // ---------- the declared axes ----------

  const FINGER_WIDTH := 15
  const I32_MAX := 0x7FFF_FFFF

  /** The ranges the driver declares: unsigned numbers that the input core stores as ints. */
  predicate InAxes(ctx: Context, c: Contact) {
    && c.x <= WrapI32(ctx.maxX) && c.y <= WrapI32(ctx.maxY) && c.pressure <= MAX_PRESSURE
    && if ReportsMk(ctx.features)
       then c.toolWidth <= FINGER_WIDTH
         && c.touchMajor <= WrapI32(FINGER_WIDTH * Max(ctx.widthX, ctx.widthY))
         && c.touchMinor <= WrapI32(FINGER_WIDTH * Min(ctx.widthX, ctx.widthY))
       else c.toolWidth == c.touchMajor == c.touchMinor == 0
  }

  /** The declared maxima fit an int. */
  predicate AxesFit(ctx: Context) {
    && ctx.maxX <= I32_MAX && ctx.maxY <= I32_MAX
    && (ReportsMk(ctx.features) ==> FINGER_WIDTH * Max(ctx.widthX, ctx.widthY) <= I32_MAX)
  }

  lemma AreaBound(nibble: u32, width: u32)
    requires nibble < 16
    ensures Area(nibble, width) <= FINGER_WIDTH * width
  {
    var d := SaturatingSub(width, FINGER_WIDTH_REDUCE);
    assert nibble * d <= 15 * d <= 15 * width;
  }

  lemma ContactsAreBounded(ctx: Context, r: seq<byte>, hp: bool, k: nat)
    requires AbsoluteFits(ctx, r, hp) && k < MAX_CONTACTS
    ensures var c := AbsoluteFrame(ctx, r, hp).contacts[k];
      && c.x <= ctx.maxX && c.y <= ctx.maxY && c.pressure <= MAX_PRESSURE && c.toolWidth <= FINGER_WIDTH
      && c.touchMajor <= FINGER_WIDTH * Max(ctx.widthX, ctx.widthY)
      && c.touchMinor <= FINGER_WIDTH * Min(ctx.widthX, ctx.widthY)
      && (!ReportsMk(ctx.features) ==> c.toolWidth == c.touchMajor == c.touchMinor == 0)
  {
    assert SlotFits(ctx, r, hp, k);
    var c := ContactOf(ctx, r, hp, k);
    if c.active && ReportsMk(ctx.features) {
      var mk := MkByte(r, DataOffset(r[TOUCH_INFO_OFFSET], k), hp, k);
      AreaBound(mk % 16, ctx.widthX);
      AreaBound(mk / 16, ctx.widthY);
    }
  }

  lemma FitsAnInt(x: nat)
    requires x <= I32_MAX
    ensures WrapI32(x) == x
  {}

  lemma BoundedIsInAxes(ctx: Context, c: Contact)
    requires AxesFit(ctx) && c.x <= ctx.maxX && c.y <= ctx.maxY && c.pressure <= MAX_PRESSURE && c.toolWidth <= FINGER_WIDTH
    requires c.touchMajor <= FINGER_WIDTH * Max(ctx.widthX, ctx.widthY)
    requires c.touchMinor <= FINGER_WIDTH * Min(ctx.widthX, ctx.widthY)
    requires !ReportsMk(ctx.features) ==> c.toolWidth == c.touchMajor == c.touchMinor == 0
    ensures InAxes(ctx, c)
  {
    FitsAnInt(ctx.maxX);
    FitsAnInt(ctx.maxY);
    if ReportsMk(ctx.features) {
      FitsAnInt(FINGER_WIDTH * Max(ctx.widthX, ctx.widthY));
      FitsAnInt(FINGER_WIDTH * Min(ctx.widthX, ctx.widthY));
    }
  }

  /** Past an int, the declared maximum falls below what fifteen traces measure. */
  lemma WideArea(width: u32)
    requires FINGER_WIDTH * width > I32_MAX
    ensures Area(15, width) > WrapI32(FINGER_WIDTH * width)
  {
  }

  lemma WideContact(ctx: Context)
    requires ReportsMk(ctx.features) && FINGER_WIDTH * Max(ctx.widthX, ctx.widthY) > I32_MAX
    ensures !InAxes(ctx, OneContact(ctx, 255, 0))
  {
    WideArea(Max(ctx.widthX, ctx.widthY));
    assert 255 % 16 == 15 && 255 / 16 == 15;
  }

  ghost predicate AlwaysInAxes(ctx: Context) {
    forall r, hp, k: nat :: AbsoluteFits(ctx, r, hp) && k < MAX_CONTACTS
      ==> InAxes(ctx, AbsoluteFrame(ctx, r, hp).contacts[k])
  }

  lemma ContactOutside(ctx: Context) returns (r: seq<byte>)
    requires !AxesFit(ctx)
    ensures AbsoluteFits(ctx, r, false) && !InAxes(ctx, AbsoluteFrame(ctx, r, false).contacts[0])
  {
    OneTouchIs(ctx, 255, 0);
    r := OneTouch(255, 0)[..34];
    assert AbsoluteFrame(ctx, r, false).contacts[0] == OneContact(ctx, 255, 0);
    OneContactOutside(ctx);
  }

  lemma OneContactOutside(ctx: Context)
    requires !AxesFit(ctx)
    ensures !InAxes(ctx, OneContact(ctx, 255, 0))
  {
    if ctx.maxX <= I32_MAX && ctx.maxY <= I32_MAX {
      WideContact(ctx);
    }
  }

  /** Every contact of every accepted frame lies in the declared ranges, exactly for the devices
      whose declared maxima fit an int. */
  lemma AxesExactly(ctx: Context)
    ensures AlwaysInAxes(ctx) <==> AxesFit(ctx)
  {
    if AxesFit(ctx) {
      forall r, hp, k: nat | AbsoluteFits(ctx, r, hp) && k < MAX_CONTACTS
        ensures InAxes(ctx, AbsoluteFrame(ctx, r, hp).contacts[k])
      {
        ContactsAreBounded(ctx, r, hp, k);
        BoundedIsInAxes(ctx, AbsoluteFrame(ctx, r, hp).contacts[k]);
      }
    } else {
      var r := ContactOutside(ctx);
    }
  }

  // ---------- what the transports deliver ----------

  datatype Transport = I2c | Smbus

  /** get_report_features: the features and the report length for a hardware pattern. */
  function Features(t: Transport, pattern: nat): u32 {
    if t == I2c then 1 else if pattern <= 1 then 1 else 0
  }

  function ReportLen(t: Transport, pattern: nat): nat {
    if t == Smbus then 32 else if pattern <= 1 then 34 else 39
  }

  /** On either transport the decoder never rejects a standard or a trackpoint report.  It
      accepts a high-precision one exactly when no contact in range has its width byte beyond
      the report: never a problem at length 39, and none without widths. */
  lemma TransportReports(t: Transport, pattern: nat, ctx: Context, r: seq<byte>)
    requires |r| == ReportLen(t, pattern) && ctx.features == Features(t, pattern)
    ensures r[REPORT_ID_OFFSET] in {REPORT_ID, TRACKPOINT_REPORT_ID, TRACKPOINT_REPORT_ID2} ==> Status(ctx, r) == 0
    ensures r[REPORT_ID_OFFSET] == REPORT_ID2 ==>
      (Status(ctx, r) == 0 <==>
        ctx.features == 0 || forall k :: 0 <= k < MAX_CONTACTS && MK_DATA_OFFSET + k >= |r| ==> !InRangeTouch(ctx, r, k))
    ensures r[REPORT_ID_OFFSET] == REPORT_ID2 && |r| == 39 ==> Status(ctx, r) == 0
  {
    assert Pow2(0) == 1;
    forall k | 0 <= k < MAX_CONTACTS
      ensures SlotFits(ctx, r, false, k)
      ensures SlotFits(ctx, r, true, k) <==>
        ctx.features == 0 || MK_DATA_OFFSET + k < |r| || !InRangeTouch(ctx, r, k)
    {
      TouchedBelowBound(r[TOUCH_INFO_OFFSET], k);
    }
  }

  predicate InRangeTouch(ctx: Context, r: seq<byte>, k: nat)
    requires 32 <= |r| && k < MAX_CONTACTS
  {
    TouchedBelowBound(r[TOUCH_INFO_OFFSET], k);
    Touched(r[TOUCH_INFO_OFFSET], k) && InRange(ctx, r, DataOffset(r[TOUCH_INFO_OFFSET], k), true)
  }
}
