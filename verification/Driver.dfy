/** The driver's sequential operations under the mutex (elan_i2c_core.c): initialization,
    health check, in-place recovery, calibration and baseline acquisition, as updates of one
    device structure over a bus that answers every call with an arbitrary status. */
module Driver {
  import opened Policy

  const EPROTO := -71
  const ETIMEDOUT := -110
  const CALIBRATE_TRIES := 20
  const MAX_FINGERS := 5

  datatype Call =
    | Reset | GetProductId | GetPattern | GetSmVersion | SleepControl(sleep: bool)
    | SetMode(mode: Mode) | HealthCheck | StartCalibration | CalibrateResult | GetBaseline(max: bool)

  /** A transport's answer: a status, and the value read if any. */
  datatype Reply = Reply(status: int, value: nat)

  datatype Event = Event(call: Call, reply: Reply)

  type Script = nat -> Reply
  type Log = seq<Event>

  // ---------- what each operation does to the log ----------

  function Issue(script: Script, log: Log, call: Call): (l: Log)
    ensures l != []
  {
    log + [Event(call, script(|log|))]
  }

  function Answer(log: Log): Reply
    requires log != []
  {
    log[|log| - 1].reply
  }

  /** Firmware that has to be woken before it is switched to absolute mode. */
  predicate AsusSpecial(icType: nat, productId: nat) {
    (icType == 0x0E && (productId in {0x05, 0x06, 0x07, 0x09, 0x13})) || (icType == 0x08 && productId == 0x26)
  }

  datatype Outcome = Outcome(log: Log, mode: Mode, status: int)

  /** The calls that reset and identify the controller, up to the first failure. */
  function Identify(script: Script, log: Log, skipReset: bool): (l: Log)
    ensures l != [] && (Answer(l).status == 0 ==> |l| >= 3)
  {
    var a := if skipReset then log else Issue(script, log, Reset);
    if !skipReset && Answer(a).status != 0 then a else
    var b := Issue(script, a, GetProductId);
    if Answer(b).status != 0 then b else
    var c := Issue(script, b, GetPattern);
    if Answer(c).status != 0 then c else Issue(script, c, GetSmVersion)
  }

  /** The calls that wake it and switch it to absolute mode. */
  function SwitchOn(script: Script, log: Log, mode: Mode, asus: bool): Outcome {
    var e := if asus then Issue(script, log, SleepControl(false)) else log;
    if asus && Answer(e).status != 0 then Outcome(e, mode, Answer(e).status) else
    var on := mode.(abs := true);
    var f := Issue(script, e, SetMode(on));
    if Answer(f).status != 0 then Outcome(f, on, Answer(f).status)
    else if asus then Outcome(f, on, 0) else
    var g := Issue(script, f, SleepControl(false));
    Outcome(g, on, Answer(g).status)
  }

  function InitOnce(script: Script, log: Log, mode: Mode, skipReset: bool): Outcome {
    var d := Identify(script, log, skipReset);
    if Answer(d).status != 0 then Outcome(d, mode, Answer(d).status)
    else SwitchOn(script, d, mode, AsusSpecial(Answer(d).value, d[|d| - 3].reply.value))
  }

  function Init(script: Script, log: Log, mode: Mode, skipReset: bool, tries: nat): Outcome
    requires tries >= 1
    decreases tries, |log|
  {
    var o := InitOnce(script, log, mode, skipReset);
    if o.status == 0 || tries == 1 then o else Init(script, o.log, o.mode, false, tries - 1)
  }

  function Ping(script: Script, log: Log, mode: Mode, tries: nat): Outcome
    requires tries >= 1
    decreases tries, |log|
  {
    var l := Issue(script, log, HealthCheck);
    if Answer(l).status == 0 || tries == 1 then Outcome(l, mode, Answer(l).status)
    else Ping(script, l, mode, tries - 1)
  }

  /** A recovery's outcome and the phases it went through. */
  datatype Recovery = Recovery(out: Outcome, phases: seq<Phase>)

  function Recover(script: Script, log: Log, mode: Mode): Recovery {
    var init := Init(script, log, mode, false, RETRY_COUNT);
    var p1 := RecoveryNext(Reinitialize, init.status);
    if p1 == Failed then Recovery(init, [ReleaseInput, Reinitialize, p1]) else
    var ping := Ping(script, init.log, init.mode, RETRY_COUNT);
    var p2 := RecoveryNext(p1, ping.status);
    if p2 == Failed then Recovery(ping, [ReleaseInput, Reinitialize, p1, p2]) else
    var l := Issue(script, ping.log, SetMode(ping.mode));
    var p3 := RecoveryNext(p2, Answer(l).status);
    Recovery(Outcome(l, ping.mode, if p3 == Failed then Answer(l).status else 0),
             [ReleaseInput, Reinitialize, p1, p2, p3])
  }

  function CalibrationDone(script: Script, log: Log, tries: nat): (Log, bool)
    decreases tries, |log|
  {
    if tries == 0 then (log, false) else
    var l := Issue(script, log, CalibrateResult);
    if Answer(l).status == 0 && Answer(l).value == 0 then (l, true)
    else CalibrationDone(script, l, tries - 1)
  }

  /** Leaves calibration mode after the work in the window returned `status`. */
  function LeaveCalibration(script: Script, log: Log, mode: Mode, status: int): Outcome {
    var off := mode.(cal := false);
    var l := Issue(script, log, SetMode(off));
    Outcome(l, off, if Answer(l).status != 0 && status == 0 then Answer(l).status else status)
  }

  function Calibrate(script: Script, log: Log, mode: Mode): Outcome {
    var on := mode.(cal := true);
    var a := Issue(script, log, SetMode(on));
    if Answer(a).status != 0 then Outcome(a, on.(cal := false), Answer(a).status) else
    var b := Issue(script, a, StartCalibration);
    if Answer(b).status != 0 then LeaveCalibration(script, b, on, Answer(b).status) else
    var (c, done) := CalibrationDone(script, b, CALIBRATE_TRIES);
    LeaveCalibration(script, c, on, if done then 0 else ETIMEDOUT)
  }

  function Acquire(script: Script, log: Log, mode: Mode): Outcome {
    var on := mode.(cal := true);
    var a := Issue(script, log, SetMode(on));
    if Answer(a).status != 0 then Outcome(a, on.(cal := false), Answer(a).status) else
    var b := Issue(script, a, GetBaseline(true));
    if Answer(b).status != 0 then LeaveCalibration(script, b, on, Answer(b).status) else
    var c := Issue(script, b, GetBaseline(false));
    LeaveCalibration(script, c, on, Answer(c).status)
  }

  // ---------- the operations ----------

  class Bus {
    const script: Script
    var log: Log

    constructor (script: Script)
      ensures this.script == script && log == []
    {
      this.script := script;
      log := [];
    }

    method Do(call: Call) returns (reply: Reply)
      modifies this
      ensures log == Issue(script, old(log), call) && reply == Answer(log)
    {
      reply := script(|log|);
      log := log + [Event(call, reply)];
    }
  }

  datatype Buttons = Buttons(left: bool, middle: bool, right: bool)

  const ALL_UP := Buttons(false, false, false)

  /** `trackpoint` says whether a trackpoint device was registered. */
  class TouchpadData {
    const bus: Bus
    var mode: Mode
    var reportErrors: nat
    var watchdogRecoveries: nat
    var baselineReady: bool
    var irqDepth: int
    const slots: array<bool>
    var buttons: Buttons
    const trackpoint: bool
    var pointButtons: Buttons
    ghost var phases: seq<Phase>

    constructor (bus: Bus, trackpoint: bool)
      ensures this.bus == bus && this.trackpoint == trackpoint && fresh(slots) && Valid()
      ensures watchdogRecoveries == reportErrors == 0 && irqDepth == 0
    {
      this.bus, this.trackpoint := bus, trackpoint;
      watchdogRecoveries, reportErrors, irqDepth := 0, 0, 0;
      slots := new bool[MAX_FINGERS](_ => false);
      mode := Mode(false, false);
    }

    ghost predicate Valid()
      reads this
    {
      slots.Length == MAX_FINGERS && watchdogRecoveries < U32
    }

    ghost predicate InputsReleased()
      requires Valid()
      reads this, slots
    {
      buttons == ALL_UP && (trackpoint ==> pointButtons == ALL_UP) && forall k :: 0 <= k < MAX_FINGERS ==> !slots[k]
    }

    /** __elan_initialize */
    method InitializeOnce(skipReset: bool) returns (status: int)
      modifies this`mode, bus
      ensures Outcome(bus.log, mode, status) == InitOnce(bus.script, old(bus.log), old(mode), skipReset)
    {
      var reply;
      if !skipReset {
        reply := bus.Do(Reset);
        if reply.status != 0 { return reply.status; }
      }
      var product := bus.Do(GetProductId);
      if product.status != 0 { return product.status; }
      reply := bus.Do(GetPattern);
      if reply.status != 0 { return reply.status; }
      var version := bus.Do(GetSmVersion);
      if version.status != 0 { return version.status; }
      var wokenUp := false;
      if AsusSpecial(version.value, product.value) {
        reply := bus.Do(SleepControl(false));
        if reply.status != 0 { return reply.status; }
        wokenUp := true;
      }
      mode := mode.(abs := true);
      reply := bus.Do(SetMode(mode));
      if reply.status != 0 { return reply.status; }
      if !wokenUp {
        reply := bus.Do(SleepControl(false));
        if reply.status != 0 { return reply.status; }
      }
      status := 0;
    }

    /** elan_initialize */
    method Initialize(skipReset: bool) returns (status: int)
      modifies this`mode, bus
      ensures Outcome(bus.log, mode, status) == Init(bus.script, old(bus.log), old(mode), skipReset, RETRY_COUNT)
    {
      var repeat := RETRY_COUNT;
      var skip := skipReset;
      while true
        invariant 1 <= repeat <= RETRY_COUNT
        invariant Init(bus.script, old(bus.log), old(mode), skipReset, RETRY_COUNT)
               == Init(bus.script, bus.log, mode, skip, repeat)
        decreases repeat
      {
        status := InitializeOnce(skip);
        if status == 0 { return; }
        skip := false;
        if repeat == 1 { return; }
        repeat := repeat - 1;
      }
    }

    /** elan_watchdog_ping */
    method WatchdogPing() returns (status: int)
      modifies bus
      ensures Outcome(bus.log, mode, status) == Ping(bus.script, old(bus.log), mode, RETRY_COUNT)
    {
      var retry := 0;
      while true
        invariant 0 <= retry < RETRY_COUNT
        invariant Ping(bus.script, old(bus.log), mode, RETRY_COUNT)
               == Ping(bus.script, bus.log, mode, RETRY_COUNT - retry)
        decreases RETRY_COUNT - retry
      {
        var reply := bus.Do(HealthCheck);
        status := reply.status;
        if status == 0 || retry == RETRY_COUNT - 1 { return; }
        retry := retry + 1;
      }
    }

    method ReleaseInputs()
      requires Valid()
      modifies this`buttons, this`pointButtons, slots
      ensures InputsReleased()
    {
      for i := 0 to MAX_FINGERS
        invariant forall k :: 0 <= k < i ==> !slots[k]
      {
        slots[i] := false;
      }
      buttons := ALL_UP;
      if trackpoint {
        pointButtons := ALL_UP;
      }
    }

    /** elan_recover_locked: whatever status it returns, the inputs are released and the error
        count is zero. */
    method RecoverLocked() returns (status: int)
      requires Valid()
      modifies this`mode, this`reportErrors, this`buttons, this`pointButtons, this`phases, slots, bus
      ensures InputsReleased() && reportErrors == 0
      ensures Recovery(Outcome(bus.log, mode, status), phases) == Recover(bus.script, old(bus.log), old(mode))
    {
      var phase := RecoveryNext(Idle, 0);
      phases := [phase];
      if phase != ReleaseInput { return EPROTO; }
      ReleaseInputs();
      reportErrors := 0;
      phase := RecoveryNext(phase, 0);
      phases := phases + [phase];
      assert phases == [ReleaseInput, phase];
      if phase != Reinitialize { return EPROTO; }
      status := Initialize(false);
      ghost var init := Outcome(bus.log, mode, status);
      phase := RecoveryNext(phase, status);
      phases := phases + [phase];
      assert phases == [ReleaseInput, Reinitialize, phase];
      if phase == Failed { return; }
      if phase != Verify { return EPROTO; }
      status := WatchdogPing();
      ghost var ping := Outcome(bus.log, mode, status);
      assert ping == Ping(bus.script, init.log, init.mode, RETRY_COUNT);
      phase := RecoveryNext(phase, status);
      phases := phases + [phase];
      assert phases == [ReleaseInput, Reinitialize, Verify, phase];
      if phase == Failed { return; }
      if phase != RestoreMode { return EPROTO; }
      var reply := bus.Do(SetMode(mode));
      phase := RecoveryNext(phase, reply.status);
      phases := phases + [phase];
      assert phases == [ReleaseInput, Reinitialize, Verify, RestoreMode, phase];
      if phase == Failed { return reply.status; }
      if phase != Complete { return EPROTO; }
      status := 0;
    }

    /** recover_store, once the mutex is held */
    method RecoverStore() returns (status: int)
      requires Valid()
      modifies this, slots, bus
      ensures Valid() && irqDepth == old(irqDepth) && InputsReleased() && reportErrors == 0
      ensures watchdogRecoveries == old(watchdogRecoveries)
      ensures Recovery(Outcome(bus.log, mode, status), phases) == Recover(bus.script, old(bus.log), old(mode))
    {
      irqDepth := irqDepth + 1;
      status := RecoverLocked();
      irqDepth := irqDepth - 1;
    }

    /** elan_watchdog_work, once the mutex is held: it recovers exactly when a node is open and three
        or more reads have failed, and counts only a recovery that returned zero. */
    method WatchdogWork(openCount: nat)
      requires Valid()
      modifies this, slots, bus
      ensures Valid() && irqDepth == old(irqDepth)
      ensures openCount > 0 && old(reportErrors) >= 3 ==>
        && InputsReleased() && reportErrors == 0
        && var r := Recover(bus.script, old(bus.log), old(mode));
           phases == r.phases && bus.log == r.out.log && mode == r.out.mode
           && watchdogRecoveries == (old(watchdogRecoveries) + if r.out.status == 0 then 1 else 0) % U32
      ensures openCount == 0 || old(reportErrors) < 3 ==> unchanged(this) && unchanged(slots) && unchanged(bus)
    {
      var action := WatchdogAction(openCount, 0, reportErrors, REPORT_ERROR_THRESHOLD);
      if action == RecoverNow {
        irqDepth := irqDepth + 1;
        var error := RecoverLocked();
        if error == 0 {
          watchdogRecoveries := (watchdogRecoveries + 1) % U32;
        }
        irqDepth := irqDepth - 1;
      }
    }

    /** calibrate_store, once the mutex is held */
    method CalibrateStore() returns (status: int)
      modifies this`mode, this`irqDepth, bus
      ensures irqDepth == old(irqDepth)
      ensures Outcome(bus.log, mode, status) == Calibrate(bus.script, old(bus.log), old(mode))
    {
      irqDepth := irqDepth + 1;
      mode := mode.(cal := true);
      var reply := bus.Do(SetMode(mode));
      status := reply.status;
      if status != 0 {
        mode := mode.(cal := false);
      } else {
        reply := bus.Do(StartCalibration);
        status := reply.status;
        if status == 0 {
          ghost var started := bus.log;
          var tries := CALIBRATE_TRIES;
          while tries > 0
            invariant 0 <= tries <= CALIBRATE_TRIES
            invariant irqDepth == old(irqDepth) + 1 && mode == old(mode).(cal := true)
            invariant CalibrationDone(bus.script, started, CALIBRATE_TRIES) == CalibrationDone(bus.script, bus.log, tries)
          {
            reply := bus.Do(CalibrateResult);
            status := reply.status;
            if status == 0 && reply.value == 0 { break; }
            tries := tries - 1;
          }
          if tries == 0 { status := ETIMEDOUT; }
        }
        mode := mode.(cal := false);
        var exit := bus.Do(SetMode(mode));
        if exit.status != 0 && status == 0 { status := exit.status; }
      }
      irqDepth := irqDepth - 1;
    }

    /** acquire_store, once the mutex is held: the baselines are ready exactly when both were
        read, whether or not leaving calibration mode succeeded. */
    method AcquireStore() returns (status: int)
      modifies this`mode, this`irqDepth, this`baselineReady, bus
      ensures irqDepth == old(irqDepth)
      ensures Outcome(bus.log, mode, status) == Acquire(bus.script, old(bus.log), old(mode))
      ensures status == 0 ==> baselineReady
      ensures baselineReady <==> |bus.log| == |old(bus.log)| + 4 && bus.log[|old(bus.log)| + 2].reply.status == 0
    {
      irqDepth := irqDepth + 1;
      baselineReady := false;
      mode := mode.(cal := true);
      var reply := bus.Do(SetMode(mode));
      status := reply.status;
      if status != 0 {
        mode := mode.(cal := false);
      } else {
        reply := bus.Do(GetBaseline(true));
        status := reply.status;
        if status == 0 {
          reply := bus.Do(GetBaseline(false));
          status := reply.status;
          baselineReady := status == 0;
        }
        mode := mode.(cal := false);
        var exit := bus.Do(SetMode(mode));
        if exit.status != 0 && status == 0 { status := exit.status; }
      }
      irqDepth := irqDepth - 1;
    }
  }

  // ---------- what they mean ----------

  /** The mode the device last acknowledged. */
  function LastAck(log: Log): Option<Mode> {
    if log == [] then None
    else
      var e := log[|log| - 1];
      if e.call.SetMode? && e.reply.status == 0 then Some(e.call.mode) else LastAck(log[..|log| - 1])
  }

  lemma IssueAck(script: Script, log: Log, call: Call)
    ensures LastAck(Issue(script, log, call)) ==
      if call.SetMode? && script(|log|).status == 0 then Some(call.mode) else LastAck(log)
  {
    assert Issue(script, log, call)[..|log|] == log;
  }

  ghost predicate Extends(log: Log, longer: Log, calls: nat) {
    |log| <= |longer| <= |log| + calls && longer[..|log|] == log
  }

  lemma InitOnceIsBounded(script: Script, log: Log, mode: Mode, skipReset: bool)
    ensures Extends(log, InitOnce(script, log, mode, skipReset).log, 6)
    ensures var m := InitOnce(script, log, mode, skipReset).mode; m == mode || m == mode.(abs := true)
  {}

  /** The calls of one initialization: reset unless skipped, identify, then wake and switch on, in
      the order the firmware needs. */
  ghost predicate IsPlan(plan: seq<Call>, skipReset: bool, asus: bool, on: Mode) {
    var n := if skipReset then 0 else 1;
    && |plan| == n + 5 && (n == 1 ==> plan[0] == Reset)
    && plan[n] == GetProductId && plan[n + 1] == GetPattern && plan[n + 2] == GetSmVersion
    && plan[n + 3..] == Ending(asus, on)
  }

  function Ending(asus: bool, on: Mode): (calls: seq<Call>)
    ensures |calls| == 2
  {
    if asus then [SleepControl(false), SetMode(on)] else [SetMode(on), SleepControl(false)]
  }

  /** The log grew by a prefix of the plan, in which every call but the last answered 0. */
  ghost predicate FollowsPlan(script: Script, log: Log, longer: Log, plan: seq<Call>) {
    && Extends(log, longer, |plan|) && |log| < |longer|
    && forall i :: |log| <= i < |longer| ==>
         longer[i] == Event(plan[i - |log|], script(i)) && (i < |longer| - 1 ==> script(i).status == 0)
  }

  /** So far every call answered 0. */
  ghost predicate OnTrack(script: Script, log: Log, longer: Log, plan: seq<Call>) {
    && Extends(log, longer, |plan|)
    && forall i :: |log| <= i < |longer| ==> longer[i] == Event(plan[i - |log|], script(i)) && script(i).status == 0
  }

  lemma PlanStep(script: Script, log: Log, longer: Log, plan: seq<Call>, call: Call)
    requires OnTrack(script, log, longer, plan) && |longer| - |log| < |plan| && call == plan[|longer| - |log|]
    ensures var l := Issue(script, longer, call);
      && FollowsPlan(script, log, l, plan) && Answer(l) == script(|longer|)
      && (script(|longer|).status == 0 ==> OnTrack(script, log, l, plan))
  {
    assert Issue(script, longer, call)[..|log|] == longer[..|log|];
  }

  lemma IdentifyFollows(script: Script, log: Log, skipReset: bool, asus: bool, on: Mode, plan: seq<Call>)
    requires IsPlan(plan, skipReset, asus, on)
    ensures var l := Identify(script, log, skipReset); var n := if skipReset then 3 else 4;
      && FollowsPlan(script, log, l, plan) && |l| <= |log| + n && Answer(l) == script(|l| - 1)
      && (Answer(l).status == 0 ==> OnTrack(script, log, l, plan) && |l| == |log| + n && l[|l| - 3].reply == script(|l| - 3))
  {
    var l := log;
    if !skipReset {
      PlanStep(script, log, l, plan, Reset);
      l := Issue(script, l, Reset);
    }
    if skipReset || Answer(l).status == 0 {
      PlanStep(script, log, l, plan, GetProductId);
      l := Issue(script, l, GetProductId);
      if Answer(l).status == 0 {
        PlanStep(script, log, l, plan, GetPattern);
        l := Issue(script, l, GetPattern);
        if Answer(l).status == 0 {
          PlanStep(script, log, l, plan, GetSmVersion);
        }
      }
    }
  }

  lemma SwitchFollows(script: Script, log: Log, l: Log, mode: Mode, asus: bool, plan: seq<Call>)
    requires OnTrack(script, log, l, plan) && |l| - |log| + 2 == |plan|
    requires plan[|plan| - 2..] == Ending(asus, mode.(abs := true))
    ensures var o := SwitchOn(script, l, mode, asus);
      && FollowsPlan(script, log, o.log, plan) && o.status == script(|o.log| - 1).status
      && (o.status == 0 ==> |o.log| == |log| + |plan|)
      && o.mode == if |o.log| > |l| + (if asus then 1 else 0) then mode.(abs := true) else mode
  {
    var on := mode.(abs := true);
    var tail := plan[|plan| - 2..];
    assert plan[|plan| - 2] == tail[0] && plan[|plan| - 1] == tail[1];
    PlanStep(script, log, l, plan, tail[0]);
    var e := Issue(script, l, tail[0]);
    if Answer(e).status == 0 {
      PlanStep(script, log, e, plan, tail[1]);
    }
  }

  /** The two halves of an initialization, `l` being the log after the first. */
  lemma HalvesFollow(script: Script, log: Log, l: Log, mode: Mode, asus: bool, plan: seq<Call>, o: Outcome)
    requires |plan| >= 2 && plan[|plan| - 2..] == Ending(asus, mode.(abs := true))
    requires FollowsPlan(script, log, l, plan) && |l| + 2 <= |log| + |plan| && Answer(l) == script(|l| - 1)
    requires Answer(l).status == 0 ==> OnTrack(script, log, l, plan) && |l| + 2 == |log| + |plan|
    requires o == if Answer(l).status != 0 then Outcome(l, mode, Answer(l).status) else SwitchOn(script, l, mode, asus)
    ensures FollowsPlan(script, log, o.log, plan) && o.status == script(|o.log| - 1).status
    ensures o.status == 0 ==> |o.log| == |log| + |plan|
    ensures o.mode == if |o.log| > |log| + |plan| - (if asus then 1 else 2) then mode.(abs := true) else mode
  {
    if Answer(l).status == 0 {
      SwitchFollows(script, log, l, mode, asus, plan);
    }
  }

  lemma TailIs(script: Script, log: Log, l: Log, mode: Mode, skipReset: bool, asus: bool)
    requires var id := |log| + if skipReset then 0 else 1; asus == AsusSpecial(script(id + 2).value, script(id).value)
    requires l == Identify(script, log, skipReset) && Answer(l).status == 0 && Answer(l) == script(|l| - 1)
    requires |l| == |log| + (if skipReset then 3 else 4) && l[|l| - 3].reply == script(|l| - 3)
    ensures InitOnce(script, log, mode, skipReset) == SwitchOn(script, l, mode, asus)
  {
  }

  /** An initialization follows its plan up to the first failure and returns that call's status;
      0 means that the whole plan was carried out.  ABS is recorded exactly if the switch was tried. */
  lemma InitFollowsPlan(script: Script, log: Log, mode: Mode, skipReset: bool, asus: bool, plan: seq<Call>)
    requires var id := |log| + if skipReset then 0 else 1; asus == AsusSpecial(script(id + 2).value, script(id).value)
    requires IsPlan(plan, skipReset, asus, mode.(abs := true))
    ensures var o := InitOnce(script, log, mode, skipReset);
      && FollowsPlan(script, log, o.log, plan) && o.status == script(|o.log| - 1).status
      && (o.status == 0 ==> |o.log| == |log| + |plan|)
      && o.mode == if |o.log| > |log| + |plan| - (if asus then 1 else 2) then mode.(abs := true) else mode
  {
    IdentifyFollows(script, log, skipReset, asus, mode.(abs := true), plan);
    var l := Identify(script, log, skipReset);
    var o := InitOnce(script, log, mode, skipReset);
    if Answer(l).status == 0 {
      TailIs(script, log, l, mode, skipReset, asus);
    }
    HalvesFollow(script, log, l, mode, asus, plan, o);
  }

  /** The firmware that has to be woken first, by controller type and product. */
  lemma AsusProducts(icType: nat, productId: nat)
    ensures AsusSpecial(icType, productId) <==>
      (icType, productId) in {(14, 5), (14, 6), (14, 7), (14, 9), (14, 19), (8, 38)}
  {
  }

  // ---------- retries, from the answers alone ----------

  /** The calls of one try all answer 0. */
  ghost predicate Clean(script: Script, from: nat, calls: nat) {
    forall i :: from <= i < from + calls ==> script(i).status == 0
  }

  /** The call after a try: after its first failure, or after all its calls. */
  function AfterTry(script: Script, from: nat, calls: nat): (next: nat)
    requires calls >= 1
    ensures from < next <= from + calls
    decreases calls, from
  {
    if calls == 1 || script(from).status != 0 then from + 1 else AfterTry(script, from + 1, calls - 1)
  }

  lemma {:induction false} AfterTryIs(script: Script, from: nat, calls: nat, next: nat)
    requires from < next <= from + calls && forall i :: from <= i < next - 1 ==> script(i).status == 0
    requires script(next - 1).status != 0 || next == from + calls
    ensures AfterTry(script, from, calls) == next
    ensures Clean(script, from, calls) <==> script(next - 1).status == 0
    decreases calls
  {
    if next > from + 1 { AfterTryIs(script, from + 1, calls - 1, next); }
  }

  /** How many calls a try makes: the same for all firmware, one less without the reset. */
  function Calls(skipReset: bool): nat {
    if skipReset then 5 else 6
  }

  predicate AsusAt(script: Script, from: nat, skipReset: bool) {
    var id := from + if skipReset then 0 else 1;
    AsusSpecial(script(id + 2).value, script(id).value)
  }

  /** The calls `from` to `to` of this log are one try: the plan up to its first failure. */
  ghost predicate Segment(script: Script, log: Log, from: nat, to: nat, skipReset: bool, on: Mode) {
    exists plan: seq<Call> :: IsPlan(plan, skipReset, AsusAt(script, from, skipReset), on) && Carried(script, log, from, to, plan)
  }

  ghost predicate Carried(script: Script, log: Log, from: nat, to: nat, plan: seq<Call>) {
    && from < to <= |log| && to <= from + |plan|
    && (forall j :: from <= j < to ==> log[j] == Event(plan[j - from], script(j)))
    && (forall j :: from <= j < to - 1 ==> script(j).status == 0)
    && (script(to - 1).status == 0 ==> to == from + |plan|)
  }

  lemma OneTry(script: Script, log: Log, mode: Mode, skipReset: bool)
    ensures var o := InitOnce(script, log, mode, skipReset); var n := Calls(skipReset);
      && |log| < |o.log| == AfterTry(script, |log|, n) && o.log[..|log|] == log
      && o.status == script(|o.log| - 1).status && (o.status == 0 <==> Clean(script, |log|, n))
      && Segment(script, o.log, |log|, |o.log|, skipReset, mode.(abs := true))
      && o.mode.(abs := true) == mode.(abs := true) && (o.status == 0 ==> o.mode == mode.(abs := true))
  {
    hide InitOnce, Segment, Clean, AfterTry, FollowsPlan;
    var on := mode.(abs := true);
    var plan := ThePlan(skipReset, AsusAt(script, |log|, skipReset), on);
    InitFollowsPlan(script, log, mode, skipReset, AsusAt(script, |log|, skipReset), plan);
    var o := InitOnce(script, log, mode, skipReset);
    FollowsIsCarried(script, log, o.log, skipReset, on, plan, o.status);
  }

  lemma ThePlan(skipReset: bool, asus: bool, on: Mode) returns (plan: seq<Call>)
    ensures IsPlan(plan, skipReset, asus, on)
  {
    var first := if skipReset then [] else [Reset];
    plan := first + [GetProductId, GetPattern, GetSmVersion] + Ending(asus, on);
  }

  lemma FollowsIsCarried(script: Script, log: Log, longer: Log, skipReset: bool, on: Mode, plan: seq<Call>, status: int)
    requires FollowsPlan(script, log, longer, plan) && IsPlan(plan, skipReset, AsusAt(script, |log|, skipReset), on)
    requires status == script(|longer| - 1).status && (status == 0 ==> |longer| == |log| + |plan|)
    ensures Segment(script, longer, |log|, |longer|, skipReset, on) && longer[..|log|] == log
    ensures |log| < |longer| == AfterTry(script, |log|, Calls(skipReset))
    ensures status == 0 <==> Clean(script, |log|, Calls(skipReset))
  {
    hide AsusSpecial;
    assert Carried(script, longer, |log|, |longer|, plan);
    AfterTryIs(script, |log|, Calls(skipReset), |longer|);
  }

  lemma SegmentStays(script: Script, log: Log, longer: Log, from: nat, to: nat, skipReset: bool, on: Mode)
    requires Segment(script, log, from, to, skipReset, on) && |log| <= |longer| && longer[..|log|] == log
    ensures Segment(script, longer, from, to, skipReset, on)
  {
    var plan: seq<Call> :| IsPlan(plan, skipReset, AsusAt(script, from, skipReset), on) && Carried(script, log, from, to, plan);
    forall j | from <= j < to ensures longer[j] == Event(plan[j - from], script(j)) {
      assert longer[j] == longer[..|log|][j];
    }
    assert Carried(script, longer, from, to, plan);
  }

  /** An initialization is one try or more, the later ones with a reset; every try but the last
      failed, its status is that of its last call, and if that is a failure all tries were made. */
  lemma {:induction false} InitTries(script: Script, log: Log, mode: Mode, skipReset: bool, tries: nat) returns (cuts: seq<nat>)
    requires tries >= 1
    ensures 2 <= |cuts| <= tries + 1 && cuts[0] == |log|
    ensures var o := Init(script, log, mode, skipReset, tries);
      && cuts[|cuts| - 1] == |o.log| > |log| && o.log[..|log|] == log
      && o.status == script(|o.log| - 1).status && (o.status != 0 ==> |cuts| == tries + 1)
      && (forall i :: 0 <= i < |cuts| - 1 ==>
            Segment(script, o.log, cuts[i], cuts[i + 1], skipReset && i == 0, mode.(abs := true)))
    ensures forall i :: 0 < i < |cuts| - 1 ==> cuts[i] > 0 && script(cuts[i] - 1).status != 0
    decreases tries
  {
    hide InitOnce, Segment;
    var one := InitOnce(script, log, mode, skipReset);
    OneTry(script, log, mode, skipReset);
    cuts := [|log|, |one.log|];
    if one.status != 0 && tries > 1 {
      var o := Init(script, one.log, one.mode, false, tries - 1);
      var more := InitTries(script, one.log, one.mode, false, tries - 1);
      cuts := [|log|] + more;
      assert o.log[..|log|] == o.log[..|one.log|][..|log|];
      SegmentStays(script, one.log, o.log, |log|, |one.log|, skipReset, mode.(abs := true));
      forall i | 0 <= i < |cuts| - 1
        ensures Segment(script, o.log, cuts[i], cuts[i + 1], skipReset && i == 0, mode.(abs := true))
      {
        if i > 0 { assert Segment(script, o.log, more[i - 1], more[i], false, one.mode.(abs := true)); }
      }
    }
  }

  /** It succeeds exactly when one of three tries is answered with 0 throughout, each beginning
      after the failure of the one before. */
  lemma InitSucceedsExactly(script: Script, log: Log, mode: Mode, skipReset: bool)
    ensures var first := |log|;
      var second := AfterTry(script, first, Calls(skipReset));
      var third := AfterTry(script, second, 6);
      Init(script, log, mode, skipReset, RETRY_COUNT).status == 0
      <==> Clean(script, first, Calls(skipReset)) || Clean(script, second, 6) || Clean(script, third, 6)
  {
    hide InitOnce, Clean;
    var a := InitOnce(script, log, mode, skipReset);
    OneTry(script, log, mode, skipReset);
    var b := InitOnce(script, a.log, a.mode, false);
    OneTry(script, a.log, a.mode, false);
    OneTry(script, b.log, b.mode, false);
    assert Init(script, b.log, b.mode, false, 1) == InitOnce(script, b.log, b.mode, false);
    assert Init(script, a.log, a.mode, false, 2) == if b.status == 0 then b else Init(script, b.log, b.mode, false, 1);
  }

  /** A health check is at most three calls, ending with the first 0; it returns 0 exactly when one of
      the next three answers is 0, and otherwise the third. */
  lemma PingSucceedsExactly(script: Script, log: Log, mode: Mode)
    ensures var o := Ping(script, log, mode, RETRY_COUNT); var n := |log|;
      && n < |o.log| <= n + 3 && o.log[..n] == log && o.mode == mode
      && (forall i :: n <= i < |o.log| ==> o.log[i] == Event(HealthCheck, script(i)))
      && (forall i :: n <= i < |o.log| - 1 ==> script(i).status != 0)
      && o.status == script(|o.log| - 1).status && (o.status != 0 ==> |o.log| == n + 3)
      && (o.status == 0 <==> script(n).status == 0 || script(n + 1).status == 0 || script(n + 2).status == 0)
  {
    PingIs(script, log, mode, 3);
  }

  lemma {:induction false} PingIs(script: Script, log: Log, mode: Mode, tries: nat)
    requires tries >= 1
    ensures var o := Ping(script, log, mode, tries); var n := |log|;
      && n < |o.log| <= n + tries && o.log[..n] == log && o.mode == mode
      && (forall i :: n <= i < |o.log| ==> o.log[i] == Event(HealthCheck, script(i)))
      && (forall i :: n <= i < |o.log| - 1 ==> script(i).status != 0)
      && o.status == script(|o.log| - 1).status && (o.status != 0 ==> |o.log| == n + tries)
    decreases tries
  {
    var l := Issue(script, log, HealthCheck);
    assert l[..|log|] == log;
    if Answer(l).status != 0 && tries > 1 {
      PingIs(script, l, mode, tries - 1);
      var o := Ping(script, l, mode, tries - 1);
      assert o.log[..|log|] == o.log[..|l|][..|log|];
      assert o.log[|log|] == o.log[..|l|][|log|];
    }
  }

  lemma {:induction false} InitIsBounded(script: Script, log: Log, mode: Mode, skipReset: bool, tries: nat)
    requires tries >= 1
    ensures Extends(log, Init(script, log, mode, skipReset, tries).log, 6 * tries)
    ensures var m := Init(script, log, mode, skipReset, tries).mode; m == mode || m == mode.(abs := true)
    decreases tries
  {
    var o := InitOnce(script, log, mode, skipReset);
    InitOnceIsBounded(script, log, mode, skipReset);
    if o.status != 0 && tries > 1 {
      InitIsBounded(script, o.log, o.mode, false, tries - 1);
      var l := Init(script, o.log, o.mode, false, tries - 1).log;
      assert l[..|log|] == l[..|o.log|][..|log|];
    }
  }

  lemma {:induction false} PingIsBounded(script: Script, log: Log, mode: Mode, tries: nat)
    requires tries >= 1
    ensures Extends(log, Ping(script, log, mode, tries).log, tries)
    ensures Ping(script, log, mode, tries).mode == mode
    decreases tries
  {
    var l := Issue(script, log, HealthCheck);
    if Answer(l).status != 0 && tries > 1 {
      PingIsBounded(script, l, mode, tries - 1);
      var m := Ping(script, l, mode, tries - 1).log;
      assert m[..|log|] == m[..|l|][..|log|];
    }
  }

  /** Every recovery ends within 22 bus calls, keeps what was logged before, and never touches
      the calibrate bit. */
  lemma RecoveryIsBounded(script: Script, log: Log, mode: Mode)
    ensures Extends(log, Recover(script, log, mode).out.log, 22)
    ensures var m := Recover(script, log, mode).out.mode; m == mode || m == mode.(abs := true)
  {
    var init := Init(script, log, mode, false, RETRY_COUNT);
    InitIsBounded(script, log, mode, false, RETRY_COUNT);
    PingIsBounded(script, init.log, init.mode, RETRY_COUNT);
    var ping := Ping(script, init.log, init.mode, RETRY_COUNT);
    assert ping.log[..|log|] == ping.log[..|init.log|][..|log|];
  }

  const ORDER: seq<Phase> := [ReleaseInput, Reinitialize, Verify, RestoreMode, Complete]

  /** The phases are visited in order and none is skipped; the first failure ends the sequence.
      A recovery returns 0 exactly when it reached the last one, and a negative status exactly
      when it failed, whatever the bus answers. */
  lemma PhasesInOrder(script: Script, log: Log, mode: Mode)
    ensures var r := Recover(script, log, mode);
      && (r.phases == ORDER || exists n :: 2 <= n < |ORDER| && r.phases == ORDER[..n] + [Failed])
      && (r.out.status == 0 <==> r.phases == ORDER)
      && (r.out.status < 0 <==> r.phases[|r.phases| - 1] == Failed)
      && r.out.status <= 0
  {
    var r := Recover(script, log, mode);
    if r.phases != ORDER {
      var n := |r.phases| - 1;
      assert r.phases == ORDER[..n] + [Failed];
    }
  }

  ghost predicate NeverPositive(script: Script) {
    forall i :: script(i).status <= 0
  }

  /** With transports that answer 0 or a negative status, a recovery that returns 0 has
      initialized the controller, has been answered by it, and leaves it in the mode the driver
      records, whatever any earlier operation left behind. */
  lemma RecoverySucceeds(script: Script, log: Log, mode: Mode)
    requires NeverPositive(script)
    ensures var r := Recover(script, log, mode);
      var init := Init(script, log, mode, false, RETRY_COUNT);
      var ping := Ping(script, init.log, init.mode, RETRY_COUNT);
      && (r.out.status == 0 <==>
            init.status == 0 && ping.status == 0 && script(|ping.log|).status == 0)
      && (r.out.status == 0 ==> LastAck(r.out.log) == Some(r.out.mode) && r.out.mode == mode.(abs := true))
  {
    var init := Init(script, log, mode, false, RETRY_COUNT);
    var ping := Ping(script, init.log, init.mode, RETRY_COUNT);
    InitNeverPositive(script, log, mode, false, RETRY_COUNT);
    PingNeverPositive(script, init.log, init.mode, RETRY_COUNT);
    PingIsBounded(script, init.log, init.mode, RETRY_COUNT);
    IssueAck(script, ping.log, SetMode(ping.mode));
  }

  lemma InitOnceNeverPositive(script: Script, log: Log, mode: Mode, skipReset: bool)
    requires NeverPositive(script)
    ensures var o := InitOnce(script, log, mode, skipReset);
      o.status <= 0 && (o.status == 0 ==> o.mode == mode.(abs := true)) && o.mode.(abs := true) == mode.(abs := true)
  {
    OneTry(script, log, mode, skipReset);
  }

  lemma {:induction false} InitNeverPositive(script: Script, log: Log, mode: Mode, skipReset: bool, tries: nat)
    requires NeverPositive(script) && tries >= 1
    ensures var o := Init(script, log, mode, skipReset, tries);
      o.status <= 0 && (o.status == 0 ==> o.mode == mode.(abs := true))
    decreases tries
  {
    var o := InitOnce(script, log, mode, skipReset);
    InitOnceNeverPositive(script, log, mode, skipReset);
    if o.status != 0 && tries > 1 {
      InitNeverPositive(script, o.log, o.mode, false, tries - 1);
    }
  }

  lemma {:induction false} PingNeverPositive(script: Script, log: Log, mode: Mode, tries: nat)
    requires NeverPositive(script) && tries >= 1
    ensures Ping(script, log, mode, tries).status <= 0
    decreases tries
  {
    var l := Issue(script, log, HealthCheck);
    if Answer(l).status != 0 && tries > 1 {
      PingNeverPositive(script, l, mode, tries - 1);
    }
  }

  /** Call n is answered with 0, the first to be since `from`. */
  ghost predicate FirstZero(script: Script, from: nat, n: nat) {
    from <= n && script(n).status == 0 && forall i :: from <= i < n ==> script(i).status != 0
  }

  lemma PingEnds(script: Script, from: nat, end: nat)
    requires from < end <= from + 3 && forall i :: from <= i < end - 1 ==> script(i).status != 0
    requires script(end - 1).status != 0 ==> end == from + 3
    ensures script(end - 1).status == 0 && script(end).status == 0
       <==> exists n: nat :: n < from + 3 && FirstZero(script, from, n) && script(n + 1).status == 0
  {
    if script(end - 1).status == 0 {
      assert FirstZero(script, from, end - 1);
      forall n: nat | FirstZero(script, from, n) ensures n == end - 1 {
        assert script(n).status == 0;
      }
    } else {
      forall n: nat | n < from + 3 ensures !FirstZero(script, from, n) {
        if from <= n < end - 1 {
          assert script(n).status != 0;
        }
      }
    }
  }

  /** With such transports a recovery's answer is decided by theirs alone: it returns 0 exactly when
      one of three initialization tries is clean, one of the next three health checks is answered
      with 0, and so is the mode switch after it. */
  lemma RecoveryFromAnswers(script: Script, log: Log, mode: Mode)
    requires NeverPositive(script)
    ensures var first := |log|; var second := AfterTry(script, first, 6); var third := AfterTry(script, second, 6);
      var init := |Init(script, log, mode, false, RETRY_COUNT).log|;
      Recover(script, log, mode).out.status == 0 <==>
        && (Clean(script, first, 6) || Clean(script, second, 6) || Clean(script, third, 6))
        && exists n: nat :: n < init + 3 && FirstZero(script, init, n) && script(n + 1).status == 0
  {
    hide Clean, Init, Ping, Recover, FirstZero;
    var init := Init(script, log, mode, false, RETRY_COUNT);
    var ping := Ping(script, init.log, init.mode, RETRY_COUNT);
    RecoverySucceeds(script, log, mode);
    InitSucceedsExactly(script, log, mode, false);
    PingSucceedsExactly(script, init.log, init.mode);
    PingEnds(script, |init.log|, |ping.log|);
  }

  /** Every stage of the recovery answered 0. */
  ghost predicate Done(script: Script, log: Log, mode: Mode) {
    var init := Init(script, log, mode, false, RETRY_COUNT);
    var ping := Ping(script, init.log, init.mode, RETRY_COUNT);
    init.status == 0 && ping.status == 0 && script(|ping.log|).status == 0
  }

  /** What 0 tells without any premise: no stage answered negatively. */
  lemma ZeroMeansNoFailure(script: Script, log: Log, mode: Mode)
    ensures var init := Init(script, log, mode, false, RETRY_COUNT);
      var ping := Ping(script, init.log, init.mode, RETRY_COUNT);
      Recover(script, log, mode).out.status == 0
      <==> init.status >= 0 && ping.status >= 0 && script(|ping.log|).status >= 0
  {
    var init := Init(script, log, mode, false, RETRY_COUNT);
    var ping := Ping(script, init.log, init.mode, RETRY_COUNT);
    PingIsBounded(script, init.log, init.mode, RETRY_COUNT);
    assert Answer(Issue(script, ping.log, SetMode(ping.mode))) == script(|ping.log|);
  }

  /** A transport that answers every call with the same status. */
  function Always(v: int): Script {
    (_: nat) => Reply(v, 0)
  }

  lemma {:induction false} AlwaysInit(v: int, log: Log, mode: Mode, tries: nat)
    requires v != 0 && tries >= 1
    ensures var o := Init(Always(v), log, mode, false, tries);
      o.status == v && o.mode == mode && LastAck(o.log) == LastAck(log)
    decreases tries
  {
    var a := Issue(Always(v), log, Reset);
    IssueAck(Always(v), log, Reset);
    assert InitOnce(Always(v), log, mode, false) == Outcome(a, mode, v);
    if tries > 1 { AlwaysInit(v, a, mode, tries - 1); }
  }

  lemma {:induction false} AlwaysPing(v: int, log: Log, mode: Mode, tries: nat)
    requires v != 0 && tries >= 1
    ensures var o := Ping(Always(v), log, mode, tries); o.status == v && LastAck(o.log) == LastAck(log)
    decreases tries
  {
    IssueAck(Always(v), log, HealthCheck);
    if tries > 1 { AlwaysPing(v, Issue(Always(v), log, HealthCheck), mode, tries - 1); }
  }

  /** Any positive status slips through: a transport that keeps answering it has carried out
      nothing, and the recovery returns 0. */
  lemma PositiveStatusSlipsThrough(v: int, log: Log, mode: Mode)
    requires v > 0
    ensures var r := Recover(Always(v), log, mode);
      r.out.status == 0 && !Done(Always(v), log, mode) && LastAck(r.out.log) == LastAck(log)
  {
    var init := Init(Always(v), log, mode, false, RETRY_COUNT);
    AlwaysInit(v, log, mode, RETRY_COUNT);
    var ping := Ping(Always(v), init.log, init.mode, RETRY_COUNT);
    AlwaysPing(v, init.log, init.mode, RETRY_COUNT);
    IssueAck(Always(v), ping.log, SetMode(ping.mode));
  }

  ghost predicate AnswersIn(script: Script, allowed: iset<int>) {
    forall i :: script(i).status in allowed
  }

  /** With these answers, 0 means that every stage answered 0. */
  ghost predicate ZeroMeansDone(allowed: iset<int>) {
    forall script: Script, log, mode :: AnswersIn(script, allowed) && Recover(script, log, mode).out.status == 0
      ==> Done(script, log, mode)
  }

  /** Exactly the transports that never answer positively can be trusted when a recovery returns 0. */
  lemma ZeroMeansDoneExactly(allowed: iset<int>)
    ensures ZeroMeansDone(allowed) <==> forall v :: v in allowed ==> v <= 0
  {
    if forall v :: v in allowed ==> v <= 0 {
      forall script: Script, log, mode | AnswersIn(script, allowed) && Recover(script, log, mode).out.status == 0
        ensures Done(script, log, mode)
      {
        RecoverySucceeds(script, log, mode);
      }
    } else {
      var v :| v in allowed && v > 0;
      PositiveStatusSlipsThrough(v, [], Mode(true, false));
      assert AnswersIn(Always(v), allowed);
    }
  }

  // ---------- calibration ----------

  /** Some poll of the calibration answered 0 with the value 0. */
  ghost predicate Finished(script: Script, from: nat, tries: nat) {
    exists i :: from <= i < from + tries && script(i) == Reply(0, 0)
  }

  lemma {:induction false} CalibrationPolls(script: Script, log: Log, tries: nat)
    ensures var (l, done) := CalibrationDone(script, log, tries);
      Extends(log, l, tries) && LastAck(l) == LastAck(log) && (done <==> Finished(script, |log|, tries))
    decreases tries
  {
    if tries > 0 {
      var l := Issue(script, log, CalibrateResult);
      IssueAck(script, log, CalibrateResult);
      if Answer(l) != Reply(0, 0) {
        CalibrationPolls(script, l, tries - 1);
        var m := CalibrationDone(script, l, tries - 1).0;
        assert m[..|log|] == m[..|l|][..|log|];
        assert Finished(script, |log|, tries) <==> Finished(script, |l|, tries - 1);
      } else {
        assert script(|log|) == Reply(0, 0);
      }
    }
  }

  /** On every path calibration and acquisition leave the calibrate bit of data->mode clear, the
      ABS bit as it was, within 23 and 4 bus calls. */
  lemma CalibrateBitIsTakenBack(script: Script, log: Log, mode: Mode)
    ensures Calibrate(script, log, mode).mode == mode.(cal := false)
    ensures Extends(log, Calibrate(script, log, mode).log, CALIBRATE_TRIES + 3)
    ensures Acquire(script, log, mode).mode == mode.(cal := false)
    ensures Extends(log, Acquire(script, log, mode).log, 4)
  {
    var a := Issue(script, log, SetMode(mode.(cal := true)));
    var b := Issue(script, a, StartCalibration);
    CalibrationPolls(script, b, CALIBRATE_TRIES);
    var c := CalibrationDone(script, b, CALIBRATE_TRIES).0;
    assert c[..|log|] == c[..|b|][..|log|];
  }

  /** Call i of this log is the given one, with the script's answer. */
  predicate Made(script: Script, log: Log, i: int, call: Call) {
    0 <= i < |log| && log[i] == Event(call, script(i))
  }

  lemma {:induction false} PollsAre(script: Script, log: Log, tries: nat)
    ensures var (l, done) := CalibrationDone(script, log, tries);
      && Extends(log, l, tries)
      && (forall i :: |log| <= i < |l| ==> Made(script, l, i, CalibrateResult))
      && (forall i :: |log| <= i < |l| - 1 ==> script(i) != Reply(0, 0))
      && (if done then |l| > |log| && script(|l| - 1) == Reply(0, 0)
          else |l| == |log| + tries && (tries > 0 ==> script(|l| - 1) != Reply(0, 0)))
    decreases tries
  {
    if tries > 0 {
      var l := Issue(script, log, CalibrateResult);
      assert l[..|log|] == log;
      if Answer(l) != Reply(0, 0) {
        PollsAre(script, l, tries - 1);
        var m := CalibrationDone(script, l, tries - 1).0;
        assert m[..|log|] == m[..|l|][..|log|] && m[|log|] == m[..|l|][|log|];
      }
    }
  }

  /** The calls of a calibration, up to its first failure: enter, start, poll until the end is
      reported or twenty times, leave.  Its status is that of the first failure, a timeout if no poll
      reported the end. */
  lemma CalibrateFollowsPlan(script: Script, log: Log, mode: Mode)
    ensures var o := Calibrate(script, log, mode); var n := |log|; var end := |o.log| - 1;
      && Extends(log, o.log, 23) && end >= n && Made(script, o.log, n, SetMode(mode.(cal := true)))
      && (script(n).status != 0 ==> end == n && o.status == script(n).status)
      && (script(n).status == 0 ==>
            end >= n + 2 && Made(script, o.log, n + 1, StartCalibration) && Made(script, o.log, end, SetMode(mode.(cal := false))))
      && (script(n).status == 0 && script(n + 1).status != 0 ==> end == n + 2 && o.status == script(n + 1).status)
      && (script(n).status == 0 && script(n + 1).status == 0 ==>
            && n + 3 <= end <= n + 22
            && (forall i :: n + 2 <= i < end ==> Made(script, o.log, i, CalibrateResult))
            && (forall i :: n + 2 <= i < end - 1 ==> script(i) != Reply(0, 0))
            && (if script(end - 1) == Reply(0, 0) then o.status == script(end).status else end == n + 22 && o.status == -110))
  {
    hide CalibrationDone;
    var n := |log|;
    var on := mode.(cal := true);
    var a := Issue(script, log, SetMode(on));
    var b := Issue(script, a, StartCalibration);
    assert a[..n] == log && b[..n] == log;
    if script(n).status == 0 {
      if script(n + 1).status == 0 {
        PollsAre(script, b, CALIBRATE_TRIES);
        var (c, done) := CalibrationDone(script, b, CALIBRATE_TRIES);
        PolledMade(script, b, c, n, on);
        LeaveMade(script, c, on, if done then 0 else ETIMEDOUT);
      } else {
        LeaveMade(script, b, on, script(n + 1).status);
      }
    }
  }

  lemma PolledMade(script: Script, b: Log, c: Log, n: nat, on: Mode)
    requires Extends(b, c, CALIBRATE_TRIES) && |b| == n + 2
    requires Made(script, b, n, SetMode(on)) && Made(script, b, n + 1, StartCalibration)
    ensures Made(script, c, n, SetMode(on)) && Made(script, c, n + 1, StartCalibration) && c[..n] == b[..n]
  {
    assert c[n] == c[..|b|][n] && c[n + 1] == c[..|b|][n + 1] && c[..n] == c[..|b|][..n];
  }

  /** Leaving keeps what was made, switches the mode back and keeps an earlier failure. */
  lemma LeaveMade(script: Script, log: Log, mode: Mode, status: int)
    ensures var o := LeaveCalibration(script, log, mode, status);
      && |o.log| == |log| + 1 && o.log[..|log|] == log && Made(script, o.log, |log|, SetMode(mode.(cal := false)))
      && (forall i, call :: Made(script, log, i, call) ==> Made(script, o.log, i, call))
      && o.status == if status != 0 then status else script(|log|).status
  {
  }

  /** The calls of an acquisition: enter, read both baselines, leave; its status is that of the first
      failure. */
  lemma AcquireFollowsPlan(script: Script, log: Log, mode: Mode)
    ensures var o := Acquire(script, log, mode); var n := |log|; var end := |o.log| - 1;
      && Extends(log, o.log, 4) && end >= n && Made(script, o.log, n, SetMode(mode.(cal := true)))
      && (script(n).status != 0 ==> end == n && o.status == script(n).status)
      && (script(n).status == 0 ==>
            end >= n + 2 && Made(script, o.log, n + 1, GetBaseline(true)) && Made(script, o.log, end, SetMode(mode.(cal := false))))
      && (script(n).status == 0 && script(n + 1).status != 0 ==> end == n + 2 && o.status == script(n + 1).status)
      && (script(n).status == 0 && script(n + 1).status == 0 ==>
            && end == n + 3 && Made(script, o.log, n + 2, GetBaseline(false))
            && o.status == (if script(n + 2).status != 0 then script(n + 2).status else script(end).status))
  {
    var n := |log|;
    var on := mode.(cal := true);
    var a := Issue(script, log, SetMode(on));
    var b := Issue(script, a, GetBaseline(true));
    var c := Issue(script, b, GetBaseline(false));
    assert a[..n] == log && b[..n] == log && c[..n] == log;
    LeaveMade(script, b, on, script(n + 1).status);
    LeaveMade(script, c, on, script(n + 2).status);
  }

  /** calibrate_store succeeds exactly when entering, starting and leaving succeeded and one of
      at most 20 polls reported the end. */
  lemma CalibrationSucceeds(script: Script, log: Log, mode: Mode)
    ensures var n := |log|;
      Calibrate(script, log, mode).status == 0 <==>
        && script(n).status == 0 && script(n + 1).status == 0
        && Finished(script, n + 2, CALIBRATE_TRIES)
        && script(|Calibrate(script, log, mode).log| - 1).status == 0
  {
    var a := Issue(script, log, SetMode(mode.(cal := true)));
    var b := Issue(script, a, StartCalibration);
    CalibrationPolls(script, b, CALIBRATE_TRIES);
  }

  /** The device can be left in calibration mode, and is exactly when it acknowledged entering
      and not leaving: then data->mode and the device disagree until a recovery succeeds. */
  lemma DeviceLeftCalibrating(script: Script, log: Log, mode: Mode)
    requires !mode.cal && (LastAck(log).Some? ==> !LastAck(log).value.cal)
    ensures var o := Calibrate(script, log, mode);
      (LastAck(o.log).Some? && LastAck(o.log).value.cal)
      <==> (script(|log|).status == 0 && script(|o.log| - 1).status != 0)
  {
    var on := mode.(cal := true);
    var a := Issue(script, log, SetMode(on));
    IssueAck(script, log, SetMode(on));
    var b := Issue(script, a, StartCalibration);
    IssueAck(script, a, StartCalibration);
    CalibrationPolls(script, b, CALIBRATE_TRIES);
    var c := CalibrationDone(script, b, CALIBRATE_TRIES).0;
    IssueAck(script, b, SetMode(on.(cal := false)));
    IssueAck(script, c, SetMode(on.(cal := false)));
  }

  /** The same holds of an acquisition. */
  lemma DeviceLeftAcquiring(script: Script, log: Log, mode: Mode)
    requires !mode.cal && (LastAck(log).Some? ==> !LastAck(log).value.cal)
    ensures var o := Acquire(script, log, mode);
      (LastAck(o.log).Some? && LastAck(o.log).value.cal)
      <==> (script(|log|).status == 0 && script(|o.log| - 1).status != 0)
  {
    var on := mode.(cal := true);
    var a := Issue(script, log, SetMode(on));
    IssueAck(script, log, SetMode(on));
    var b := Issue(script, a, GetBaseline(true));
    IssueAck(script, a, GetBaseline(true));
    var c := Issue(script, b, GetBaseline(false));
    IssueAck(script, b, GetBaseline(false));
    IssueAck(script, b, SetMode(on.(cal := false)));
    IssueAck(script, c, SetMode(on.(cal := false)));
  }
}
