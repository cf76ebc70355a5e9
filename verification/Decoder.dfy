/** The report decoder of the Rust core (elan_core.rs), and what one report means. */
module Decoder {

  import opened Bits

  const MAX_CONTACTS := 5
  const REPORT_ID_OFFSET := 2
  const TOUCH_INFO_OFFSET := 3
  const FINGER_DATA_OFFSET := 4
  const HOVER_INFO_OFFSET := 30
  const MK_DATA_OFFSET := 33
  const FINGER_DATA_LEN := 5

  const REPORT_ID: byte := 0x5d
  const TRACKPOINT_REPORT_ID: byte := 0x5e
  const TRACKPOINT_REPORT_ID2: byte := 0x5f
  const REPORT_ID2: byte := 0x60

  const MAX_PRESSURE := 255
  const FINGER_WIDTH_REDUCE := 90

  const EINVAL := -22
  const EPROTO := -71

  /** What the interrupt handler knows about the device. */
  datatype Context = Context(
    maxX: u32, maxY: u32, widthX: u32, widthY: u32, adjustment: i32, features: u32)

  datatype Contact = Contact(
    active: bool, x: u32, y: u32, pressure: u32, toolWidth: u32, touchMajor: u32, touchMinor: u32)

  const EMPTY := Contact(false, 0, 0, 0, 0, 0, 0)

  datatype Kind = NoFrame | Absolute | Trackpoint

  datatype Frame = Frame(
    kind: Kind, buttons: nat, hover: bool, contactMask: nat, contacts: seq<Contact>,
    relX: int, relY: int, relValid: bool)

  const ZEROED := Frame(NoFrame, 0, false, 0, [EMPTY, EMPTY, EMPTY, EMPTY, EMPTY], 0, 0, false)

  // ---------- arithmetic of the core ----------

  function SaturatingSub(a: u32, b: u32): u32 { if a < b then 0 else a - b }

  function SaturatingMul(a: u32, b: u32): u32
  {
    if a * b > U32_MAX then U32_MAX else Product(a, b)
  }

  function Product(a: u32, b: u32): u32
    requires a * b <= U32_MAX
  {
    assert 0 <= a * b;
    a * b
  }

  /** Two's-complement wrap-around: the core is built without overflow checks. */
  function WrapI32(x: int): i32 {
    (x + 0x8000_0000) % 0x1_0000_0000 - 0x8000_0000
  }

  function ScaledPressure(raw: nat, adjustment: i32): u32 {
    Max(0, Min(MAX_PRESSURE, WrapI32(raw + adjustment)))
  }

  predicate ReportsMk(features: u32) {
    Bit(features, 0)
  }

  // ---------- what a report says ----------

  predicate Touched(tp: byte, slot: nat) {
    Bit(tp, 3 + slot)
  }

  /** How many contacts are packed before this slot's. */
  function TouchedBelow(tp: byte, slot: nat): nat {
    if slot == 0 then 0
    else TouchedBelow(tp, slot - 1) + (if Touched(tp, slot - 1) then 1 else 0)
  }

  lemma {:induction false} TouchedBelowBound(tp: byte, slot: nat)
    ensures TouchedBelow(tp, slot) <= slot
  {
    if slot > 0 { TouchedBelowBound(tp, slot - 1); }
  }

  function DataOffset(tp: byte, slot: nat): nat {
    FINGER_DATA_OFFSET + FINGER_DATA_LEN * TouchedBelow(tp, slot)
  }

  function PositionX(r: seq<byte>, o: nat, hp: bool): u32
    requires o + FINGER_DATA_LEN <= |r|
  {
    if hp then Word(r[o], r[o + 1]) else Word(r[o] / 16, r[o + 1])
  }

  function PositionY(r: seq<byte>, o: nat, hp: bool): u32
    requires o + FINGER_DATA_LEN <= |r|
  {
    if hp then Word(r[o + 2], r[o + 3]) else Word(r[o] % 16, r[o + 2])
  }

  predicate InRange(ctx: Context, r: seq<byte>, o: nat, hp: bool)
    requires o + FINGER_DATA_LEN <= |r|
  {
    PositionX(r, o, hp) <= ctx.maxX && PositionY(r, o, hp) <= ctx.maxY
  }

  /** The bytes this slot's contact needs are there. */
  predicate SlotFits(ctx: Context, r: seq<byte>, hp: bool, slot: nat)
    requires TOUCH_INFO_OFFSET < |r|
  {
    var tp := r[TOUCH_INFO_OFFSET];
    var o := DataOffset(tp, slot);
    Touched(tp, slot) ==>
      && o + FINGER_DATA_LEN <= |r|
      && (hp && ReportsMk(ctx.features) && InRange(ctx, r, o, hp) ==> MK_DATA_OFFSET + slot < |r|)
  }

  predicate AbsoluteFits(ctx: Context, r: seq<byte>, hp: bool) {
    TOUCH_INFO_OFFSET < |r| && forall k :: 0 <= k < MAX_CONTACTS ==> SlotFits(ctx, r, hp, k)
  }

  /** The byte holding the two width nibbles of a contact. */
  function MkByte(r: seq<byte>, o: nat, hp: bool, slot: nat): byte
    requires o + FINGER_DATA_LEN <= |r| && (hp ==> MK_DATA_OFFSET + slot < |r|)
  {
    if hp then r[MK_DATA_OFFSET + slot] else r[o + 3]
  }

  function Area(nibble: u32, width: u32): u32 {
    SaturatingMul(nibble, SaturatingSub(width, FINGER_WIDTH_REDUCE))
  }

  function WithMk(c: Contact, mk: byte, ctx: Context): Contact {
    var ax, ay := Area(mk % 16, ctx.widthX), Area(mk / 16, ctx.widthY);
    c.(toolWidth := mk % 16, touchMajor := Max(ax, ay), touchMinor := Min(ax, ay))
  }

  predicate Active(ctx: Context, r: seq<byte>, hp: bool, slot: nat)
    requires TOUCH_INFO_OFFSET < |r| && SlotFits(ctx, r, hp, slot)
  {
    Touched(r[TOUCH_INFO_OFFSET], slot)
    && InRange(ctx, r, DataOffset(r[TOUCH_INFO_OFFSET], slot), hp)
  }

  function ContactOf(ctx: Context, r: seq<byte>, hp: bool, slot: nat): Contact
    requires TOUCH_INFO_OFFSET < |r| && SlotFits(ctx, r, hp, slot)
  {
    if !Active(ctx, r, hp, slot) then EMPTY else
    var o := DataOffset(r[TOUCH_INFO_OFFSET], slot);
    var c := Contact(true, PositionX(r, o, hp), ctx.maxY - PositionY(r, o, hp),
                     ScaledPressure(r[o + 4], ctx.adjustment), 0, 0, 0);
    if ReportsMk(ctx.features) then WithMk(c, MkByte(r, o, hp, slot), ctx) else c
  }

  /** The bits of the first `n` contacts that are active. */
  function MaskOf(cs: seq<Contact>, n: nat): nat
    requires n <= |cs|
  {
    if n == 0 then 0
    else if cs[n - 1].active then SetBit(MaskOf(cs, n - 1), n - 1) else MaskOf(cs, n - 1)
  }

  function Hover(r: seq<byte>): bool {
    HOVER_INFO_OFFSET < |r| && Bit(r[HOVER_INFO_OFFSET], 6)
  }

  function ContactsOf(ctx: Context, r: seq<byte>, hp: bool): (cs: seq<Contact>)
    requires AbsoluteFits(ctx, r, hp)
    ensures |cs| == MAX_CONTACTS
  {
    seq(MAX_CONTACTS, k requires 0 <= k < MAX_CONTACTS => ContactOf(ctx, r, hp, k))
  }

  function AbsoluteFrame(ctx: Context, r: seq<byte>, hp: bool): Frame
    requires AbsoluteFits(ctx, r, hp)
  {
    var cs := ContactsOf(ctx, r, hp);
    Frame(Absolute, r[TOUCH_INFO_OFFSET] % 8, Hover(r), MaskOf(cs, MAX_CONTACTS), cs, 0, 0, false)
  }

  function Flip(b: byte): nat {
    (b + 128) % 256
  }

  function TrackpointFrame(r: seq<byte>): Frame
    requires 9 <= |r|
  {
    var f := ZEROED.(kind := Trackpoint, buttons := r[3] % 8);
    if r[6] % 16 == 6
    then f.(relX := r[7] - Flip(r[4]) * 2, relY := Flip(r[5]) * 2 - r[8], relValid := true)
    else f
  }

  /** The status of a report: 0 exactly when the bytes its frame needs are there. */
  function Status(ctx: Context, r: seq<byte>): int {
    if REPORT_ID_OFFSET >= |r| then EINVAL
    else if r[REPORT_ID_OFFSET] == REPORT_ID || r[REPORT_ID_OFFSET] == REPORT_ID2 then
      if AbsoluteFits(ctx, r, r[REPORT_ID_OFFSET] == REPORT_ID2) then 0 else EINVAL
    else if r[REPORT_ID_OFFSET] == TRACKPOINT_REPORT_ID || r[REPORT_ID_OFFSET] == TRACKPOINT_REPORT_ID2 then
      if 9 <= |r| then 0 else EINVAL
    else EPROTO
  }

  function FrameOf(ctx: Context, r: seq<byte>): Frame
    requires Status(ctx, r) == 0
  {
    if r[REPORT_ID_OFFSET] == REPORT_ID then AbsoluteFrame(ctx, r, false)
    else if r[REPORT_ID_OFFSET] == REPORT_ID2 then AbsoluteFrame(ctx, r, true)
    else TrackpointFrame(r)
  }

  // ---------- the decoder ----------

  method Position(r: seq<byte>, o: nat, hp: bool) returns (x: u32, y: u32)
    requires o + FINGER_DATA_LEN <= |r|
    ensures x == PositionX(r, o, hp) && y == PositionY(r, o, hp)
  {
    if hp {
      x := BytePair(r[o], r[o + 1]);
      y := BytePair(r[o + 2], r[o + 3]);
    } else {
      x := HighNibbleWord(r[o], r[o + 1]);
      y := LowNibbleWord(r[o], r[o + 2]);
    }
  }

  method Widths(c: Contact, mk: byte, ctx: Context) returns (wide: Contact)
    ensures wide == WithMk(c, mk, ctx)
  {
    var mkX := LowNibble(mk);
    var mkY := HighNibble(mk);
    var areaX, areaY := Area(mkX, ctx.widthX), Area(mkY, ctx.widthY);
    wide := c.(toolWidth := mkX, touchMajor := Max(areaX, areaY), touchMinor := Min(areaX, areaY));
  }

  /** One caller-owned frame, filled in place. */
  class FrameBuffer {
    var kind: Kind
    var buttons: nat
    var hover: bool
    var contactMask: nat
    const contacts: array<Contact>
    var relX: int
    var relY: int
    var relValid: bool

    constructor ()
      ensures fresh(contacts) && contacts.Length == MAX_CONTACTS
    {
      contacts := new Contact[MAX_CONTACTS](_ => EMPTY);
    }

    ghost predicate Valid()
      reads this
    {
      contacts.Length == MAX_CONTACTS
    }

    function Value(): Frame
      reads this, contacts
    {
      Frame(kind, buttons, hover, contactMask, contacts[..], relX, relY, relValid)
    }

    method Clear()
      requires Valid()
      modifies this, contacts
      ensures Valid() && Value() == ZEROED
    {
      kind, buttons, hover, contactMask := NoFrame, 0, false, 0;
      relX, relY, relValid := 0, 0, false;
      for i := 0 to MAX_CONTACTS
        invariant kind == NoFrame && buttons == 0 && !hover && contactMask == 0
        invariant relX == 0 && relY == 0 && !relValid
        invariant forall k :: 0 <= k < i ==> contacts[k] == EMPTY
      {
        contacts[i] := EMPTY;
      }
      assert contacts[..] == ZEROED.contacts;
    }

    method DecodeAbsolute(ctx: Context, r: seq<byte>, hp: bool) returns (status: int)
      requires Valid() && Value() == ZEROED
      modifies this, contacts
      ensures Valid()
      ensures status == if AbsoluteFits(ctx, r, hp) then 0 else EINVAL
      ensures status == 0 ==> Value() == AbsoluteFrame(ctx, r, hp)
    {
      if TOUCH_INFO_OFFSET >= |r| { return EINVAL; }
      var tp := r[TOUCH_INFO_OFFSET];
      kind, hover := Absolute, false;
      buttons := ButtonBits(tp);
      if HOVER_INFO_OFFSET < |r| {
        hover := TestBit(r[HOVER_INFO_OFFSET], 6);
      }
      var offset := FINGER_DATA_OFFSET;
      for slot := 0 to MAX_CONTACTS
        invariant offset == DataOffset(tp, slot)
        invariant kind == Absolute && buttons == tp % 8 && hover == Hover(r)
        invariant relX == 0 && relY == 0 && !relValid
        invariant Decoded(ctx, r, hp, contacts[..], slot)
        invariant contactMask == MaskOf(contacts[..], slot)
      {
        var ok;
        ok, offset := DecodeSlot(ctx, r, hp, slot, offset);
        if !ok { return EINVAL; }
      }
      assert contacts[..] == ContactsOf(ctx, r, hp);
      status := 0;
    }

    /** One turn of the slot loop: where the next contact's data starts. */
    method DecodeSlot(ctx: Context, r: seq<byte>, hp: bool, slot: nat, offset: nat) returns (ok: bool, next: nat)
      requires Valid() && slot < MAX_CONTACTS && TOUCH_INFO_OFFSET < |r|
      requires offset == DataOffset(r[TOUCH_INFO_OFFSET], slot)
      requires Decoded(ctx, r, hp, contacts[..], slot) && contactMask == MaskOf(contacts[..], slot)
      modifies this`contactMask, contacts
      ensures ok == SlotFits(ctx, r, hp, slot)
      ensures ok ==> next == DataOffset(r[TOUCH_INFO_OFFSET], slot + 1)
      ensures ok ==> Decoded(ctx, r, hp, contacts[..], slot + 1) && contactMask == MaskOf(contacts[..], slot + 1)
    {
      ghost var before := contacts[..];
      next := offset;
      ok := true;
      var touched := TestBit(r[TOUCH_INFO_OFFSET], 3 + slot);
      if touched {
        next := offset + FINGER_DATA_LEN;
        if next > |r| { return false, next; }
        ok := DecodeContact(ctx, r, hp, slot, offset);
      }
      if ok {
        assert contacts[..] == before[slot := contacts[slot]];
        DecodedNext(ctx, r, hp, before, contacts[..], slot);
      }
    }

    /** The data of one touched slot, found at `offset`. */
    method DecodeContact(ctx: Context, r: seq<byte>, hp: bool, slot: nat, offset: nat) returns (ok: bool)
      requires Valid() && slot < MAX_CONTACTS && TOUCH_INFO_OFFSET < |r|
      requires Touched(r[TOUCH_INFO_OFFSET], slot) && offset == DataOffset(r[TOUCH_INFO_OFFSET], slot)
      requires offset + FINGER_DATA_LEN <= |r| && contacts[slot] == EMPTY
      modifies this`contactMask, contacts
      ensures ok == SlotFits(ctx, r, hp, slot)
      ensures ok ==> contacts[slot] == ContactOf(ctx, r, hp, slot)
      ensures ok ==> contactMask == (if contacts[slot].active then SetBit(old(contactMask), slot) else old(contactMask))
      ensures forall k :: 0 <= k < MAX_CONTACTS && k != slot ==> contacts[k] == old(contacts[k])
    {
      var x, y := Position(r, offset, hp);
      if x <= ctx.maxX && y <= ctx.maxY {
        var c := Contact(true, x, ctx.maxY - y, ScaledPressure(r[offset + 4], ctx.adjustment), 0, 0, 0);
        contacts[slot] := c;
        contactMask := SetBit(contactMask, slot);
        if ReportsMk(ctx.features) {
          if hp && MK_DATA_OFFSET + slot >= |r| { return false; }
          contacts[slot] := Widths(c, if hp then r[MK_DATA_OFFSET + slot] else r[offset + 3], ctx);
        }
      }
      ok := true;
    }

    method DecodeTrackpoint(r: seq<byte>) returns (status: int)
      requires Valid() && Value() == ZEROED
      modifies this
      ensures Valid()
      ensures status == if 9 <= |r| then 0 else EINVAL
      ensures status == 0 ==> Value() == TrackpointFrame(r)
    {
      if 9 > |r| { return EINVAL; }
      kind := Trackpoint;
      buttons := ButtonBits(r[3]);
      var mark := LowNibble(r[6]);
      if mark == 0x06 {
        var b1 := FlipTop(r[4]);
        var b2 := FlipTop(r[5]);
        relX := r[7] - b1 * 2;
        relY := b2 * 2 - r[8];
        relValid := true;
      }
      status := 0;
    }

    /** Whatever the frame held before, an accepted report leaves exactly what it says. */
    method Decode(ctx: Context, r: seq<byte>) returns (status: int)
      requires Valid()
      modifies this, contacts
      ensures Valid() && status == Status(ctx, r)
      ensures status == 0 ==> Value() == FrameOf(ctx, r)
      ensures status == EPROTO ==> Value() == ZEROED
    {
      if REPORT_ID_OFFSET >= |r| { return EINVAL; }
      Clear();
      var id := r[REPORT_ID_OFFSET];
      if id == REPORT_ID {
        status := DecodeAbsolute(ctx, r, false);
      } else if id == REPORT_ID2 {
        status := DecodeAbsolute(ctx, r, true);
      } else if id == TRACKPOINT_REPORT_ID || id == TRACKPOINT_REPORT_ID2 {
        status := DecodeTrackpoint(r);
      } else {
        status := EPROTO;
      }
    }
  }

  /** The first `n` contacts are decoded, the others still empty. */
  ghost predicate Decoded(ctx: Context, r: seq<byte>, hp: bool, cs: seq<Contact>, n: nat)
    requires TOUCH_INFO_OFFSET < |r| && |cs| == MAX_CONTACTS
  {
    && (forall k :: 0 <= k < n && k < MAX_CONTACTS ==> SlotFits(ctx, r, hp, k) && cs[k] == ContactOf(ctx, r, hp, k))
    && (forall k :: n <= k < MAX_CONTACTS ==> cs[k] == EMPTY)
  }

  lemma DecodedNext(ctx: Context, r: seq<byte>, hp: bool, a: seq<Contact>, b: seq<Contact>, n: nat)
    requires TOUCH_INFO_OFFSET < |r| && |a| == |b| == MAX_CONTACTS && n < MAX_CONTACTS
    requires Decoded(ctx, r, hp, a, n) && b == a[n := b[n]]
    requires SlotFits(ctx, r, hp, n) && b[n] == ContactOf(ctx, r, hp, n)
    ensures Decoded(ctx, r, hp, b, n + 1)
    ensures MaskOf(b, n + 1) == if b[n].active then SetBit(MaskOf(a, n), n) else MaskOf(a, n)
  {
    MaskPrefix(a, b, n);
  }

  lemma {:induction false} MaskPrefix(a: seq<Contact>, b: seq<Contact>, n: nat)
    requires n <= |a| && n <= |b| && a[..n] == b[..n]
    ensures MaskOf(a, n) == MaskOf(b, n)
  {
    if n > 0 {
      assert a[n - 1] == a[..n][n - 1] == b[n - 1];
      assert a[..n - 1] == a[..n][..n - 1] == b[..n - 1];
      MaskPrefix(a, b, n - 1);
    }
  }
}
