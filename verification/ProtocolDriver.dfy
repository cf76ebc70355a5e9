/** The operations of the interleaving model, run by one thread undisturbed, are those of the
    sequential model: for every script of bus answers there are choices of the environment with which
    they leave the same mode, the same acknowledged mode and the same status. */
module ProtocolDriver {
  import opened Policy
  import opened Protocol
  import D = Driver

  /** What a thread has done after these choices if nothing else steps in between. */
  function Alone(cfg: Config, sh: Shared, t: nat, pc: Pc, cs: seq<Choice>): Effect
    decreases |cs|
  {
    if cs == [] then Go(sh, pc) else
    var e := Exec(cfg, sh, t, pc, cs[0]);
    if e.Wait? then Wait else Alone(cfg, e.sh, t, e.pc, cs[1..])
  }

  lemma {:induction false} Then(cfg: Config, sh: Shared, t: nat, pc: Pc, a: seq<Choice>, b: seq<Choice>)
    requires Alone(cfg, sh, t, pc, a).Go?
    ensures var e := Alone(cfg, sh, t, pc, a); Alone(cfg, sh, t, pc, a + b) == Alone(cfg, e.sh, t, e.pc, b)
    decreases |a|
  {
    hide Exec;
    if a == [] {
      assert a + b == b;
    } else {
      var e := Exec(cfg, sh, t, pc, a[0]);
      assert (a + b)[0] == a[0] && (a + b)[1..] == a[1..] + b;
      Then(cfg, e.sh, t, e.pc, a[1..], b);
    }
  }

  lemma First(cfg: Config, sh: Shared, t: nat, pc: Pc, c: Choice, cs: seq<Choice>)
    requires Exec(cfg, sh, t, pc, c).Go?
    ensures var e := Exec(cfg, sh, t, pc, c); Alone(cfg, sh, t, pc, [c] + cs) == Alone(cfg, e.sh, t, e.pc, cs)
  {
    hide Exec;
    assert ([c] + cs)[0] == c && ([c] + cs)[1..] == cs;
  }

  /** A bus call answered with this status. */
  function Says(status: int): Choice {
    Choice(status, false, false, ALL_UP)
  }

  const GO := Says(0)

  /** The mode the device last acknowledged, `before` being the one from before the log. */
  function Acked(log: D.Log, before: Mode): Mode {
    if D.LastAck(log).Some? then D.LastAck(log).value else before
  }

  /** The device after an operation of the driver. */
  function After(sh: Shared, o: D.Outcome, before: Mode): Shared {
    sh.(dev := sh.dev.(mode := o.mode, devMode := Acked(o.log, before)))
  }

  // ---------- initialization ----------

  /** One try as the interleaving model sees it: its status, whether it came to the mode switch, and
      whether the device acknowledged that. */
  lemma TryIs(script: D.Script, log: D.Log, mode: Mode, skipReset: bool) returns (c: Choice)
    requires D.NeverPositive(script)
    ensures var o := D.InitOnce(script, log, mode, skipReset); var on := mode.(abs := true);
      && c.status == o.status <= 0 && (c.flag || o.status != 0) && (o.status == 0 ==> c.ack)
      && o.mode == (if c.flag then on else mode)
      && D.LastAck(o.log) == (if c.flag && c.ack then Some(on) else D.LastAck(log))
  {
    hide D.AsusSpecial;
    var d := D.Identify(script, log, skipReset);
    IdentifyKeepsAck(script, log, skipReset);
    var o := D.InitOnce(script, log, mode, skipReset);
    D.InitOnceNeverPositive(script, log, mode, skipReset);
    if D.Answer(d).status != 0 {
      c := Says(o.status);
    } else {
      var asus := D.AsusSpecial(D.Answer(d).value, d[|d| - 3].reply.value);
      c := SwitchIs(script, d, mode, asus);
    }
  }

  lemma IdentifyKeepsAck(script: D.Script, log: D.Log, skipReset: bool)
    ensures D.LastAck(D.Identify(script, log, skipReset)) == D.LastAck(log)
  {
    hide D.LastAck;
    var a := if skipReset then log else D.Issue(script, log, D.Reset);
    D.IssueAck(script, log, D.Reset);
    var b := D.Issue(script, a, D.GetProductId);
    D.IssueAck(script, a, D.GetProductId);
    var c := D.Issue(script, b, D.GetPattern);
    D.IssueAck(script, b, D.GetPattern);
    D.IssueAck(script, c, D.GetSmVersion);
  }

  lemma SwitchIs(script: D.Script, d: D.Log, mode: Mode, asus: bool) returns (c: Choice)
    ensures var o := D.SwitchOn(script, d, mode, asus); var on := mode.(abs := true);
      && c.status == o.status && (c.flag || o.status != 0) && (o.status == 0 ==> c.ack)
      && o.mode == (if c.flag then on else mode)
      && D.LastAck(o.log) == (if c.flag && c.ack then Some(on) else D.LastAck(d))
  {
    hide D.LastAck;
    var o := D.SwitchOn(script, d, mode, asus);
    var e := if asus then D.Issue(script, d, D.SleepControl(false)) else d;
    var f := D.Issue(script, e, D.SetMode(mode.(abs := true)));
    D.IssueAck(script, d, D.SleepControl(false));
    D.IssueAck(script, e, D.SetMode(mode.(abs := true)));
    D.IssueAck(script, f, D.SleepControl(false));
    c := Choice(o.status, !asus || D.Answer(e).status == 0, D.Answer(f).status == 0, ALL_UP);
  }

  /** The three places that initialize: a recovery, the end of a firmware update, a resume. */
  datatype Place = InRecovery(op: Op) | InUpdate | InResume

  function Trying(p: Place, left: pos): Pc {
    match p
    case InRecovery(op) => Rec(op, Initialize(left))
    case InUpdate => Fw(FwInit(left))
    case InResume => Wake(Try(left))
  }

  function Tried(p: Place, status: int): Pc {
    match p
    case InRecovery(op) => Rec(op, if status == 0 then Ping(RETRY_COUNT) else Returned(status))
    case InUpdate => Fw(FwClear)
    case InResume => Wake(WakeUnmask)
  }

  /** One try, from where it starts to where the next starts or the tries are over. */
  lemma TryAlone(cfg: Config, sh: Shared, t: nat, p: Place, script: D.Script, log: D.Log, skipReset: bool, left: pos, before: Mode)
      returns (cs: seq<Choice>)
    requires D.NeverPositive(script) && sh.dev.devMode == Acked(log, before)
    ensures var o := D.InitOnce(script, log, sh.dev.mode, skipReset);
      Alone(cfg, sh, t, Trying(p, left), cs)
      == Go(After(sh, o, before), if o.status == 0 || left == 1 then Tried(p, o.status) else Trying(p, left - 1))
  {
    hide D.InitOnce, D.LastAck;
    var c := TryIs(script, log, sh.dev.mode, skipReset);
    var pc := Trying(p, left);
    if p.InResume? && c.flag {
      cs := [GO] + ([GO] + ([c] + []));
      var a := Exec(cfg, sh, t, pc, GO);
      First(cfg, sh, t, pc, GO, [GO] + ([c] + []));
      var b := Exec(cfg, a.sh, t, a.pc, GO);
      First(cfg, a.sh, t, a.pc, GO, [c] + []);
      First(cfg, b.sh, t, b.pc, c, []);
    } else {
      cs := [c] + [];
      First(cfg, sh, t, pc, c, []);
    }
  }

  /** Initialization retries, and ends, as in the sequential model. */
  lemma {:induction false} InitAlone(cfg: Config, sh: Shared, t: nat, p: Place, script: D.Script, log: D.Log, skipReset: bool, left: pos, before: Mode)
      returns (cs: seq<Choice>)
    requires D.NeverPositive(script) && sh.dev.devMode == Acked(log, before)
    ensures var o := D.Init(script, log, sh.dev.mode, skipReset, left);
      Alone(cfg, sh, t, Trying(p, left), cs) == Go(After(sh, o, before), Tried(p, o.status))
    decreases left
  {
    hide Exec, Alone, D.InitOnce, D.LastAck;
    cs := TryAlone(cfg, sh, t, p, script, log, skipReset, left, before);
    var o := D.InitOnce(script, log, sh.dev.mode, skipReset);
    if o.status != 0 && left > 1 {
      var more := InitAlone(cfg, After(sh, o, before), t, p, script, o.log, false, left - 1, before);
      Then(cfg, sh, t, Trying(p, left), cs, more);
      cs := cs + more;
    }
  }

  // ---------- recovery ----------

  lemma {:induction false} PingAlone(cfg: Config, sh: Shared, t: nat, op: Op, script: D.Script, log: D.Log, left: pos)
      returns (cs: seq<Choice>)
    requires D.NeverPositive(script)
    ensures var o := D.Ping(script, log, sh.dev.mode, left);
      && o.status <= 0 && D.LastAck(o.log) == D.LastAck(log) && o.mode == sh.dev.mode
      && Alone(cfg, sh, t, Rec(op, Ping(left)), cs) == Go(sh, Rec(op, if o.status == 0 then Restore else Returned(o.status)))
    decreases left
  {
    hide Alone, D.LastAck;
    var l := D.Issue(script, log, D.HealthCheck);
    D.IssueAck(script, log, D.HealthCheck);
    var c := Says(D.Answer(l).status);
    var more := [];
    if c.status != 0 && left > 1 {
      more := PingAlone(cfg, sh, t, op, script, l, left - 1);
    } else {
      Nothing(cfg, sh, t, Rec(op, if c.status == 0 then Restore else Returned(c.status)));
    }
    First(cfg, sh, t, Rec(op, Ping(left)), c, more);
    cs := [c] + more;
  }

  lemma Nothing(cfg: Config, sh: Shared, t: nat, pc: Pc)
    ensures Alone(cfg, sh, t, pc, []) == Go(sh, pc)
  {
  }

  /** What a recovery leaves behind: inputs up, no error counted, the modes of the sequential model. */
  function Recovered(sh: Shared, o: D.Outcome, before: Mode): Shared {
    sh.(dev := Device(o.mode, Acked(o.log, before), ALL_UP), count := sh.count.(errors := 0, streak := 0))
  }

  /** A recovery that runs undisturbed goes through the driver's: same calls' answers, same status,
      same mode, same acknowledged mode, for every script. */
  lemma RecoveryAlone(cfg: Config, sh: Shared, t: nat, op: Op, script: D.Script, log: D.Log, before: Mode)
      returns (cs: seq<Choice>)
    requires D.NeverPositive(script) && sh.dev.devMode == Acked(log, before)
    ensures var o := D.Recover(script, log, sh.dev.mode).out;
      Alone(cfg, sh, t, Rec(op, Release), cs) == Go(Recovered(sh, o, before), Rec(op, Returned(o.status)))
  {
    hide Alone, D.Init, D.Ping, D.LastAck;
    var clear := sh.(dev := sh.dev.(inputs := ALL_UP), count := sh.count.(errors := 0, streak := 0));
    First(cfg, sh, t, Rec(op, Release), GO, [GO]);
    First(cfg, sh.(dev := sh.dev.(inputs := ALL_UP)), t, Rec(op, ResetErrors), GO, []);
    Nothing(cfg, clear, t, Rec(op, Initialize(RETRY_COUNT)));
    cs := [GO] + [GO];
    assert [GO] + [] == [GO];
    var init := D.Init(script, log, sh.dev.mode, false, RETRY_COUNT);
    var more := InitAlone(cfg, clear, t, InRecovery(op), script, log, false, RETRY_COUNT, before);
    D.InitNeverPositive(script, log, sh.dev.mode, false, RETRY_COUNT);
    Then(cfg, sh, t, Rec(op, Release), cs, more);
    cs := cs + more;
    if init.status == 0 {
      var up := After(clear, init, before);
      var ping := D.Ping(script, init.log, init.mode, RETRY_COUNT);
      more := PingAlone(cfg, up, t, op, script, init.log, RETRY_COUNT);
      Then(cfg, sh, t, Rec(op, Release), cs, more);
      cs := cs + more;
      if ping.status == 0 {
        more := RestoreAlone(cfg, up, t, op, script, ping.log, before);
        Then(cfg, sh, t, Rec(op, Release), cs, more);
        cs := cs + more;
      }
    }
  }

  lemma RestoreAlone(cfg: Config, sh: Shared, t: nat, op: Op, script: D.Script, log: D.Log, before: Mode)
      returns (cs: seq<Choice>)
    requires D.NeverPositive(script) && sh.dev.devMode == Acked(log, before)
    ensures var l := D.Issue(script, log, D.SetMode(sh.dev.mode)); var status := script(|log|).status;
      && D.Answer(l).status == status <= 0
      && Alone(cfg, sh, t, Rec(op, Restore), cs)
         == Go(sh.(dev := sh.dev.(devMode := Acked(l, before))), Rec(op, Returned(status)))
  {
    hide Alone, D.LastAck;
    D.IssueAck(script, log, D.SetMode(sh.dev.mode));
    var c := Says(script(|log|).status);
    First(cfg, sh, t, Rec(op, Restore), c, []);
    var e := Exec(cfg, sh, t, Rec(op, Restore), c);
    Nothing(cfg, e.sh, t, e.pc);
    cs := [c] + [];
  }

  /** The work item as a whole, alone from its evaluation on: it recovers exactly with a node open and
      three failures, as the driver does, counts exactly a recovery that returned 0, and lets go of
      the mutex and the interrupt. */
  lemma WorkAlone(cfg: Config, sh: Shared, t: nat, script: D.Script, log: D.Log, before: Mode) returns (cs: seq<Choice>)
    requires D.NeverPositive(script) && sh.dev.devMode == Acked(log, before) && sh.isr == IIdle && sh.mutex == Some(t)
    ensures var o := D.Recover(script, log, sh.dev.mode).out; var n := sh.count;
      Alone(cfg, sh, t, Work(WorkEval), cs) == Go(
        if sh.work.openers != {} && n.errors >= 3
        then Recovered(sh, o, before).(mutex := None, count := n.(errors := 0, streak := 0, attempts := n.attempts + 1,
               recoveries := n.recoveries + if o.status == 0 then 1 else 0))
        else sh.(mutex := None), Work(WorkRet))
  {
    hide Alone, D.Recover, D.LastAck;
    var e := Exec(cfg, sh, t, Work(WorkEval), GO);
    assert sh.work.openers != {} <==> |sh.work.openers| > 0;
    if e.pc == Mask(Auto) {
      cs := MaskedAlone(cfg, e.sh, t, Auto, script, log, before);
    } else {
      cs := UnlockAlone(cfg, e.sh, t, Auto);
    }
    First(cfg, sh, t, Work(WorkEval), GO, cs);
    cs := [GO] + cs;
  }

  /** A recovery asked for through sysfs, from its lock to its return. */
  lemma RecoverStoreAlone(cfg: Config, sh: Shared, t: nat, script: D.Script, log: D.Log, before: Mode) returns (cs: seq<Choice>)
    requires D.NeverPositive(script) && sh.dev.devMode == Acked(log, before) && sh.isr == IIdle && sh.mutex == None
    ensures var o := D.Recover(script, log, sh.dev.mode).out;
      Alone(cfg, sh, t, Lock(Recover), cs) == Go(Recovered(sh, o, before), Done)
  {
    hide Alone, D.Recover, D.LastAck;
    var e := Exec(cfg, sh, t, Lock(Recover), GO);
    cs := MaskedAlone(cfg, e.sh, t, Recover, script, log, before);
    First(cfg, sh, t, Lock(Recover), GO, cs);
    cs := [GO] + cs;
  }

  function Return(op: Op): Pc {
    if op == Auto then Work(WorkRet) else Done
  }

  lemma UnlockAlone(cfg: Config, sh: Shared, t: nat, op: Op) returns (cs: seq<Choice>)
    ensures Alone(cfg, sh, t, Unlock(op), cs) == Go(sh.(mutex := None), Return(op))
  {
    hide Alone;
    First(cfg, sh, t, Unlock(op), GO, []);
    Nothing(cfg, sh.(mutex := None), t, Return(op));
    cs := [GO] + [];
  }

  lemma UnmaskAlone(cfg: Config, sh: Shared, t: nat, op: Op) returns (cs: seq<Choice>)
    ensures Alone(cfg, sh, t, Unmask(op), cs) == Go(sh.(depth := sh.depth - 1, mutex := None), Return(op))
  {
    hide Alone;
    cs := UnlockAlone(cfg, sh.(depth := sh.depth - 1), t, op);
    First(cfg, sh, t, Unmask(op), GO, cs);
    cs := [GO] + cs;
  }

  lemma MaskAlone(cfg: Config, sh: Shared, t: nat, op: Op) returns (cs: seq<Choice>)
    requires sh.isr == IIdle
    ensures Alone(cfg, sh, t, Mask(op), cs) == Go(sh.(depth := sh.depth + 1), Begin(op))
  {
    hide Alone, Begin;
    var down := sh.(depth := sh.depth + 1);
    First(cfg, down, t, Sync(op), GO, []);
    Nothing(cfg, down, t, Begin(op));
    First(cfg, sh, t, Mask(op), GO, [GO]);
    assert [GO] + [] == [GO];
    cs := [GO] + [GO];
  }

  lemma MaskedAlone(cfg: Config, sh: Shared, t: nat, op: Op, script: D.Script, log: D.Log, before: Mode) returns (cs: seq<Choice>)
    requires op == Recover || op == Auto
    requires D.NeverPositive(script) && sh.dev.devMode == Acked(log, before) && sh.isr == IIdle
    ensures var o := D.Recover(script, log, sh.dev.mode).out; var r := Recovered(sh, o, before);
      Alone(cfg, sh, t, Mask(op), cs) == Go(
        r.(mutex := None, count := r.count.(recoveries := r.count.recoveries + if op == Auto && o.status == 0 then 1 else 0)),
        Return(op))
  {
    hide Alone, D.Recover, D.LastAck;
    var down := sh.(depth := sh.depth + 1);
    cs := MaskAlone(cfg, sh, t, op);
    var more := RecoveryAlone(cfg, down, t, op, script, log, before);
    Then(cfg, sh, t, Mask(op), cs, more);
    cs := cs + more;
    var o := D.Recover(script, log, sh.dev.mode).out;
    var r := Recovered(down, o, before);
    var e := Exec(cfg, r, t, Rec(op, Returned(o.status)), GO);
    more := UnmaskAlone(cfg, e.sh, t, op);
    First(cfg, r, t, Rec(op, Returned(o.status)), GO, more);
    Then(cfg, sh, t, Mask(op), cs, [GO] + more);
    cs := cs + ([GO] + more);
  }

  // ---------- calibration and acquisition ----------

  /** The rest of the calibration window: leaving it. */
  lemma LeaveAlone(cfg: Config, sh: Shared, t: nat, op: Op, script: D.Script, log: D.Log, status: int, before: Mode)
      returns (cs: seq<Choice>)
    requires D.NeverPositive(script) && sh.dev.devMode == Acked(log, before)
    ensures var o := D.LeaveCalibration(script, log, sh.dev.mode, status);
      Alone(cfg, sh, t, Cal(op, CalClear), cs) == Go(After(sh, o, before), Unmask(op))
  {
    hide Alone, D.LastAck;
    var off := sh.dev.mode.(cal := false);
    D.IssueAck(script, log, D.SetMode(off));
    var c := Says(script(|log|).status);
    var e := Exec(cfg, sh, t, Cal(op, CalClear), GO);
    First(cfg, e.sh, t, e.pc, c, []);
    First(cfg, sh, t, Cal(op, CalClear), GO, [c] + []);
    var d := Exec(cfg, e.sh, t, e.pc, c);
    Nothing(cfg, d.sh, t, d.pc);
    cs := [GO] + ([c] + []);
  }

  /** Entering it: the switch answered 0, or the window is over. */
  lemma EnterAlone(cfg: Config, sh: Shared, t: nat, op: Op, script: D.Script, log: D.Log, before: Mode) returns (cs: seq<Choice>)
    requires D.NeverPositive(script) && sh.dev.devMode == Acked(log, before)
    ensures var on := sh.dev.mode.(cal := true); var l := D.Issue(script, log, D.SetMode(on)); var status := script(|log|).status;
      Alone(cfg, sh, t, Cal(op, CalEnter), cs) ==
        if status == 0 then Go(After(sh, D.Outcome(l, on, 0), before), Cal(op, CalRun(21)))
        else Go(After(sh, D.Outcome(l, on.(cal := false), status), before), Unmask(op))
  {
    hide Alone, D.LastAck;
    var on := sh.dev.mode.(cal := true);
    D.IssueAck(script, log, D.SetMode(on));
    var c := Says(script(|log|).status);
    var a := Exec(cfg, sh, t, Cal(op, CalEnter), GO);
    var b := Exec(cfg, a.sh, t, a.pc, c);
    if c.status == 0 {
      Nothing(cfg, b.sh, t, b.pc);
      First(cfg, a.sh, t, a.pc, c, []);
      First(cfg, sh, t, Cal(op, CalEnter), GO, [c] + []);
      cs := [GO] + ([c] + []);
    } else {
      var d := Exec(cfg, b.sh, t, b.pc, GO);
      Nothing(cfg, d.sh, t, d.pc);
      First(cfg, b.sh, t, b.pc, GO, []);
      First(cfg, a.sh, t, a.pc, c, [GO] + []);
      First(cfg, sh, t, Cal(op, CalEnter), GO, [c] + ([GO] + []));
      cs := [GO] + ([c] + ([GO] + []));
    }
  }

  /** One call in the window that is not its last. */
  lemma RunOn(cfg: Config, sh: Shared, t: nat, op: Op, left: pos, over: bool, cs: seq<Choice>)
    ensures Alone(cfg, sh, t, Cal(op, CalRun(left)), [GO.(flag := over)] + cs)
         == Alone(cfg, sh, t, Cal(op, if over || left == 1 then CalClear else CalRun(left - 1)), cs)
  {
    hide Alone;
    First(cfg, sh, t, Cal(op, CalRun(left)), GO.(flag := over), cs);
  }

  lemma {:induction false} PollsAlone(cfg: Config, sh: Shared, t: nat, script: D.Script, log: D.Log, tries: pos) returns (cs: seq<Choice>)
    ensures D.LastAck(D.CalibrationDone(script, log, tries).0) == D.LastAck(log)
    ensures Alone(cfg, sh, t, Cal(Calibrate, CalRun(tries)), cs) == Go(sh, Cal(Calibrate, CalClear))
    decreases tries
  {
    hide Alone, Exec;
    D.CalibrationPolls(script, log, tries);
    var l := D.Issue(script, log, D.CalibrateResult);
    var over := D.Answer(l).status == 0 && D.Answer(l).value == 0;
    cs := [];
    if !over && tries > 1 {
      cs := PollsAlone(cfg, sh, t, script, l, tries - 1);
    } else {
      Nothing(cfg, sh, t, Cal(Calibrate, CalClear));
    }
    RunOn(cfg, sh, t, Calibrate, tries, over, cs);
    cs := [GO.(flag := over)] + cs;
  }

  /** A calibration, from the entry of its masked section to the unmask. */
  lemma CalibrateAlone(cfg: Config, sh: Shared, t: nat, script: D.Script, log: D.Log, before: Mode) returns (cs: seq<Choice>)
    requires D.NeverPositive(script) && sh.dev.devMode == Acked(log, before)
    ensures var o := D.Calibrate(script, log, sh.dev.mode);
      Alone(cfg, sh, t, Begin(Calibrate), cs) == Go(After(sh, o, before), Unmask(Calibrate))
  {
    hide Alone, Exec, D.LastAck, D.CalibrationDone;
    cs := EnterAlone(cfg, sh, t, Calibrate, script, log, before);
    var on := sh.dev.mode.(cal := true);
    var a := D.Issue(script, log, D.SetMode(on));
    if D.Answer(a).status == 0 {
      var b := D.Issue(script, a, D.StartCalibration);
      D.IssueAck(script, a, D.StartCalibration);
      var up := After(sh, D.Outcome(a, on, 0), before);
      var more;
      if D.Answer(b).status != 0 {
        more := LeaveAlone(cfg, up, t, Calibrate, script, b, D.Answer(b).status, before);
        RunOn(cfg, up, t, Calibrate, 21, true, more);
        more := [GO.(flag := true)] + more;
      } else {
        var (c, done) := D.CalibrationDone(script, b, D.CALIBRATE_TRIES);
        var polls := PollsAlone(cfg, up, t, script, b, D.CALIBRATE_TRIES);
        more := LeaveAlone(cfg, up, t, Calibrate, script, c, if done then 0 else D.ETIMEDOUT, before);
        Then(cfg, up, t, Cal(Calibrate, CalRun(20)), polls, more);
        RunOn(cfg, up, t, Calibrate, 21, false, polls + more);
        more := [GO.(flag := false)] + (polls + more);
      }
      Then(cfg, sh, t, Begin(Calibrate), cs, more);
      cs := cs + more;
    }
  }

  /** And an acquisition. */
  lemma AcquireAlone(cfg: Config, sh: Shared, t: nat, script: D.Script, log: D.Log, before: Mode) returns (cs: seq<Choice>)
    requires D.NeverPositive(script) && sh.dev.devMode == Acked(log, before)
    ensures var o := D.Acquire(script, log, sh.dev.mode);
      Alone(cfg, sh, t, Begin(Acquire), cs) == Go(After(sh, o, before), Unmask(Acquire))
  {
    hide Alone, Exec, D.LastAck;
    cs := EnterAlone(cfg, sh, t, Acquire, script, log, before);
    var on := sh.dev.mode.(cal := true);
    var a := D.Issue(script, log, D.SetMode(on));
    if D.Answer(a).status == 0 {
      var b := D.Issue(script, a, D.GetBaseline(true));
      D.IssueAck(script, a, D.GetBaseline(true));
      var up := After(sh, D.Outcome(a, on, 0), before);
      var more;
      if D.Answer(b).status != 0 {
        more := LeaveAlone(cfg, up, t, Acquire, script, b, D.Answer(b).status, before);
        RunOn(cfg, up, t, Acquire, 21, true, more);
        more := [GO.(flag := true)] + more;
      } else {
        var c := D.Issue(script, b, D.GetBaseline(false));
        D.IssueAck(script, b, D.GetBaseline(false));
        more := LeaveAlone(cfg, up, t, Acquire, script, c, D.Answer(c).status, before);
        RunOn(cfg, up, t, Acquire, 20, true, more);
        more := [GO.(flag := true)] + more;
        RunOn(cfg, up, t, Acquire, 21, false, more);
        more := [GO.(flag := false)] + more;
      }
      Then(cfg, sh, t, Begin(Acquire), cs, more);
      cs := cs + more;
    }
  }
}
