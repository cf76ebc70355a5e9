/** From a report to the input devices: the C shim that emits a decoded frame
    (elan_rs_shim.c), and the original C decoder it replaces (elan_i2c_core.c). */
module Reports {
  import opened Bits
  import opened Decoder

  const MAX_REPORT_LEN := 39

  datatype Slot = Slot(active: bool, x: int, y: int, pressure: int, major: int, minor: int)

  /** The touchpad's input state.  The tool width is one axis for the whole device. */
  datatype Input = Input(slots: seq<Slot>, toolWidth: int, left: bool, middle: bool, right: bool, distance: nat)

  /** The trackpoint's: its buttons and the motion reported so far. */
  datatype Point = Point(left: bool, middle: bool, right: bool, motion: seq<(int, int)>)

  const ENODEV := -19

  // ---------- the shim ----------

  function EmittedSlot(s: Slot, c: Contact, features: u32): Slot {
    if !c.active then s.(active := false)
    else
      var t := s.(active := true, x := c.x, y := c.y, pressure := c.pressure);
      if features != 0 then t.(major := c.touchMajor, minor := c.touchMinor) else t
  }

  function EmittedWidth(w: int, cs: seq<Contact>, features: u32, n: nat): int
    requires n <= |cs|
  {
    if n == 0 then w
    else if cs[n - 1].active && features != 0 then cs[n - 1].toolWidth
    else EmittedWidth(w, cs, features, n - 1)
  }

  function Emitted(i: Input, f: Frame, features: u32): Input
    requires |i.slots| == |f.contacts| == MAX_CONTACTS
  {
    Input(seq(MAX_CONTACTS, k requires 0 <= k < MAX_CONTACTS => EmittedSlot(i.slots[k], f.contacts[k], features)),
          EmittedWidth(i.toolWidth, f.contacts, features, MAX_CONTACTS),
          Bit(f.buttons, 0), Bit(f.buttons, 2), Bit(f.buttons, 1), if f.hover then 1 else 0)
  }

  // ---------- the original ----------

  function EmittedPoint(p: Point, f: Frame): Point {
    Point(Bit(f.buttons, 0), Bit(f.buttons, 2), Bit(f.buttons, 1),
          p.motion + if f.relValid then [(f.relX, f.relY)] else [])
  }

  /** unsigned int arithmetic */
  function Unsigned(x: int): u32 {
    x % 0x1_0000_0000
  }

  function OriginalPressure(raw: nat, adjustment: i32): u32 {
    var p := Unsigned(raw + adjustment);
    if p > MAX_PRESSURE then MAX_PRESSURE else p
  }

  function OriginalArea(nibble: nat, width: u32): u32 {
    Unsigned(nibble * Unsigned(width - FINGER_WIDTH_REDUCE))
  }

  function OriginalSlot(s: Slot, ctx: Context, p: seq<byte>, hp: bool, slot: nat): Slot
    requires |p| == MAX_REPORT_LEN && slot < MAX_CONTACTS
  {
    TouchedBelowBound(p[TOUCH_INFO_OFFSET], slot);
    var o := DataOffset(p[TOUCH_INFO_OFFSET], slot);
    if !Touched(p[TOUCH_INFO_OFFSET], slot) then s.(active := false)
    else if !InRange(ctx, p, o, hp) then s
    else
      var t := s.(active := true, x := PositionX(p, o, hp), y := ctx.maxY - PositionY(p, o, hp),
                  pressure := OriginalPressure(p[o + 4], ctx.adjustment));
      if !ReportsMk(ctx.features) then t else
      var mk := MkByte(p, o, hp, slot);
      var ax, ay := OriginalArea(mk % 16, ctx.widthX), OriginalArea(mk / 16, ctx.widthY);
      t.(major := Max(ax, ay), minor := Min(ax, ay))
  }

  function OriginalWidthStep(w: int, ctx: Context, p: seq<byte>, hp: bool, slot: nat): int
    requires |p| == MAX_REPORT_LEN && slot < MAX_CONTACTS
  {
    TouchedBelowBound(p[TOUCH_INFO_OFFSET], slot);
    var o := DataOffset(p[TOUCH_INFO_OFFSET], slot);
    if Touched(p[TOUCH_INFO_OFFSET], slot) && InRange(ctx, p, o, hp) && ReportsMk(ctx.features)
    then MkByte(p, o, hp, slot) % 16
    else w
  }

  function OriginalWidth(w: int, ctx: Context, p: seq<byte>, hp: bool, n: nat): int
    requires |p| == MAX_REPORT_LEN && n <= MAX_CONTACTS
  {
    if n == 0 then w else OriginalWidthStep(OriginalWidth(w, ctx, p, hp, n - 1), ctx, p, hp, n - 1)
  }

  function Original(i: Input, ctx: Context, p: seq<byte>, hp: bool): Input
    requires |p| == MAX_REPORT_LEN && |i.slots| == MAX_CONTACTS
  {
    var tp := p[TOUCH_INFO_OFFSET];
    Input(seq(MAX_CONTACTS, k requires 0 <= k < MAX_CONTACTS => OriginalSlot(i.slots[k], ctx, p, hp, k)),
          OriginalWidth(i.toolWidth, ctx, p, hp, MAX_CONTACTS),
          Bit(tp, 0), Bit(tp, 2), Bit(tp, 1), if Bit(p[HOVER_INFO_OFFSET], 6) then 1 else 0)
  }

  // ---------- both, as they update the device ----------

  class TrackpointDevice {
    var left: bool
    var middle: bool
    var right: bool
    var motion: seq<(int, int)>

    function Value(): Point
      reads this
    {
      Point(left, middle, right, motion)
    }

    /** elan_rs_emit_trackpoint, for a registered device */
    method Emit(frame: FrameBuffer)
      requires frame.Valid()
      modifies this
      ensures Value() == EmittedPoint(old(Value()), frame.Value())
    {
      left := Bit(frame.buttons, 0);
      right := Bit(frame.buttons, 1);
      middle := Bit(frame.buttons, 2);
      if frame.relValid {
        motion := motion + [(frame.relX, frame.relY)];
      }
    }
  }

  class InputDevice {
    const slots: array<Slot>
    var toolWidth: int
    var left: bool
    var middle: bool
    var right: bool
    var distance: nat

    constructor ()
      ensures slots.Length == MAX_CONTACTS && fresh(slots)
    {
      slots := new Slot[MAX_CONTACTS](_ => Slot(false, 0, 0, 0, 0, 0));
    }

    ghost predicate Valid()
      reads this
    {
      slots.Length == MAX_CONTACTS
    }

    function Value(): Input
      reads this, slots
    {
      Input(slots[..], toolWidth, left, middle, right, distance)
    }

    /** elan_rs_emit_absolute */
    method EmitAbsolute(frame: FrameBuffer, features: u32)
      requires Valid() && frame.Valid() && slots as object != frame.contacts
      modifies this, slots
      ensures Valid() && Value() == Emitted(old(Value()), frame.Value(), features)
    {
      ghost var before := Value();
      ghost var cs := frame.contacts[..];
      for slot := 0 to MAX_CONTACTS
        invariant forall k :: 0 <= k < slot ==> slots[k] == EmittedSlot(before.slots[k], cs[k], features)
        invariant forall k :: slot <= k < MAX_CONTACTS ==> slots[k] == before.slots[k]
        invariant toolWidth == EmittedWidth(before.toolWidth, cs, features, slot)
        invariant frame.contacts[..] == cs && frame.Value() == old(frame.Value())
      {
        var contact := frame.contacts[slot];
        if !contact.active {
          slots[slot] := slots[slot].(active := false);
          continue;
        }
        slots[slot] := slots[slot].(active := true, x := contact.x, y := contact.y, pressure := contact.pressure);
        if features != 0 {
          toolWidth := contact.toolWidth;
          slots[slot] := slots[slot].(major := contact.touchMajor, minor := contact.touchMinor);
        }
      }
      left := Bit(frame.buttons, 0);
      middle := Bit(frame.buttons, 2);
      right := Bit(frame.buttons, 1);
      distance := if frame.hover then 1 else 0;
      assert slots[..] == Emitted(before, frame.Value(), features).slots;
    }

    /** elan_rs_emit_report: a rejected report leaves both devices alone, an accepted one changes
        the device it is for; a trackpoint report needs a trackpoint. */
    method EmitReport(ctx: Context, r: seq<byte>, trackpoint: TrackpointDevice?) returns (status: int)
      requires Valid()
      modifies this, slots, trackpoint
      ensures Valid()
      ensures status == if Status(ctx, r) != 0 then Status(ctx, r)
                        else if FrameOf(ctx, r).kind == Trackpoint && trackpoint == null then ENODEV else 0
      ensures Value() == if Status(ctx, r) == 0 && FrameOf(ctx, r).kind == Absolute
                         then Emitted(old(Value()), FrameOf(ctx, r), ctx.features) else old(Value())
      ensures trackpoint != null && Status(ctx, r) == 0 && FrameOf(ctx, r).kind == Trackpoint
          ==> trackpoint.Value() == EmittedPoint(old(trackpoint.Value()), FrameOf(ctx, r))
      ensures trackpoint != null && !(Status(ctx, r) == 0 && FrameOf(ctx, r).kind == Trackpoint)
          ==> trackpoint.Value() == old(trackpoint.Value())
    {
      var frame := new FrameBuffer();
      status := frame.Decode(ctx, r);
      if status != 0 {
        return;
      }
      if frame.kind == Absolute {
        EmitAbsolute(frame, ctx.features);
      } else if trackpoint == null {
        status := ENODEV;
      } else {
        trackpoint.Emit(frame);
      }
    }

    /** elan_report_contact */
    method ReportContact(ctx: Context, p: seq<byte>, hp: bool, slot: nat, valid: bool, offset: nat)
      requires Valid() && |p| == MAX_REPORT_LEN && slot < MAX_CONTACTS
      requires valid == Touched(p[TOUCH_INFO_OFFSET], slot) && offset == DataOffset(p[TOUCH_INFO_OFFSET], slot)
      modifies this`toolWidth, slots
      ensures slots[slot] == OriginalSlot(old(slots[slot]), ctx, p, hp, slot)
      ensures forall k :: 0 <= k < MAX_CONTACTS && k != slot ==> slots[k] == old(slots[k])
      ensures toolWidth == OriginalWidthStep(old(toolWidth), ctx, p, hp, slot)
    {
      TouchedBelowBound(p[TOUCH_INFO_OFFSET], slot);
      if !valid {
        slots[slot] := slots[slot].(active := false);
        return;
      }
      var x, y := Position(p, offset, hp);
      if x > ctx.maxX || y > ctx.maxY { return; }
      slots[slot] := slots[slot].(active := true, x := x, y := ctx.maxY - y,
                                  pressure := OriginalPressure(p[offset + 4], ctx.adjustment));
      if ReportsMk(ctx.features) {
        var mk := if hp then p[MK_DATA_OFFSET + slot] else p[offset + 3];
        var mkX := LowNibble(mk);
        var mkY := HighNibble(mk);
        var areaX, areaY := OriginalArea(mkX, ctx.widthX), OriginalArea(mkY, ctx.widthY);
        toolWidth := mkX;
        slots[slot] := slots[slot].(major := Max(areaX, areaY), minor := Min(areaX, areaY));
      }
    }

    /** elan_report_absolute */
    method ReportAbsolute(ctx: Context, p: seq<byte>, hp: bool)
      requires Valid() && |p| == MAX_REPORT_LEN
      modifies this, slots
      ensures Valid() && Value() == Original(old(Value()), ctx, p, hp)
    {
      ghost var before := Value();
      var tp := p[TOUCH_INFO_OFFSET];
      var offset := FINGER_DATA_OFFSET;
      for i := 0 to MAX_CONTACTS
        invariant offset == DataOffset(tp, i)
        invariant forall k :: 0 <= k < i ==> slots[k] == OriginalSlot(before.slots[k], ctx, p, hp, k)
        invariant forall k :: i <= k < MAX_CONTACTS ==> slots[k] == before.slots[k]
        invariant toolWidth == OriginalWidth(before.toolWidth, ctx, p, hp, i)
      {
        var valid := TestBit(tp, 3 + i);
        ReportContact(ctx, p, hp, i, valid, offset);
        if valid { offset := offset + FINGER_DATA_LEN; }
      }
      left := TestBit(tp, 0);
      middle := TestBit(tp, 2);
      right := TestBit(tp, 1);
      var hover := TestBit(p[HOVER_INFO_OFFSET], 6);
      distance := if hover then 1 else 0;
      assert slots[..] == Original(before, ctx, p, hp).slots;
    }
  }
}
