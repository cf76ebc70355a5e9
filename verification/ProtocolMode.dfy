/** The calibrate bit of data->mode, and what a recovery restores. */
module ProtocolMode {
  import opened Policy
  import opened Protocol
  import opened ProtocolInvariant
  import opened ProtocolTheorems
  import opened ProtocolRuns

  /** data->mode always has ABS, and has CALIBRATE only while the mutex holder is inside the
      calibrate or acquire window. */
  predicate ModeSafe(s: State) {
    && s.sh.dev.mode.abs
    && (s.sh.dev.mode.cal ==>
          s.sh.mutex.Some? && s.sh.mutex.value < |s.th| && CalWindow(s.th[s.sh.mutex.value]))
  }

  predicate ModeThread(cfg: Config, sh: Shared, pc: Pc) {
    && (Locked(cfg, pc) ==> (sh.dev.mode.cal <==> CalWindow(pc)))
    && (pc.Wake? && pc.v.Store? ==> pc.v.loaded == Mode(true, false))
    && (pc.Rec? && pc.r == Returned(0) ==> sh.dev.devMode == sh.dev.mode)
  }

  ghost predicate ModeInv(cfg: Config, s: State) {
    && |s.th| > PM && s.sh.dev.mode.abs
    && (s.sh.mutex.None? ==> !s.sh.dev.mode.cal)
    && (s.th[PM] != Pm(Awake) ==> UsersAtRest(s))
    && (forall t :: 0 <= t < |s.th| ==> ModeThread(cfg, s.sh, s.th[t]))
  }

  /** Only the calibrate and acquire sections ever change the mode. */
  lemma ModeStep(cfg: Config, sh: Shared, t: nat, pc: Pc, c: Choice)
    requires Exec(cfg, sh, t, pc, c).Go? && sh.dev.mode.abs && !pc.Cal?
    requires pc.Wake? && pc.v.Store? ==> pc.v.loaded == sh.dev.mode
    ensures var d := Exec(cfg, sh, t, pc, c).sh.dev;
      d.mode == sh.dev.mode && (d.devMode == sh.dev.devMode || d.devMode == sh.dev.mode)
  {
    match pc
    case Rec(_, _) =>
    case Fw(_) =>
    case Pm(_) =>
    case Wake(_) =>
    case _ =>
  }

  lemma ModeRec(cfg: Config, sh: Shared, t: nat, op: Op, r: RecPc, c: Choice)
    requires ThreadOk(cfg, sh, t, Rec(op, r)) && ModeThread(cfg, sh, Rec(op, r)) && sh.dev.mode.abs
    ensures ModeThread(cfg, RecExec(sh, op, r, c).sh, RecExec(sh, op, r, c).pc)
  {
  }

  lemma ModeSleep(cfg: Config, sh: Shared, t: nat, pc: Pc, c: Choice)
    requires ThreadOk(cfg, sh, t, pc) && ModeThread(cfg, sh, pc) && Exec(cfg, sh, t, pc, c).Go?
    requires sh.dev.mode.abs && (pc.Pm? || pc.Wake?) && (sh.mutex.None? || pc.Wake? ==> !sh.dev.mode.cal)
    ensures ModeThread(cfg, Exec(cfg, sh, t, pc, c).sh, Exec(cfg, sh, t, pc, c).pc)
  {
    match pc
    case Pm(_) =>
    case Wake(_) =>
  }

  lemma ModeOther(cfg: Config, sh: Shared, t: nat, pc: Pc, c: Choice)
    requires ThreadOk(cfg, sh, t, pc) && ModeThread(cfg, sh, pc) && Exec(cfg, sh, t, pc, c).Go?
    requires sh.dev.mode.abs && !pc.Cal? && (sh.mutex.None? || pc.Wake? ==> !sh.dev.mode.cal)
    ensures ModeThread(cfg, Exec(cfg, sh, t, pc, c).sh, Exec(cfg, sh, t, pc, c).pc)
  {
    if pc.Rec? {
      ModeRec(cfg, sh, t, pc.op, pc.r, c);
    } else if pc.Pm? || pc.Wake? {
      ModeSleep(cfg, sh, t, pc, c);
    } else {
      ModeStep(cfg, sh, t, pc, c);
    }
  }

  lemma ModeCal(cfg: Config, sh: Shared, t: nat, op: Op, k: CalPc, c: Choice)
    requires ThreadOk(cfg, sh, t, Cal(op, k)) && ModeThread(cfg, sh, Cal(op, k)) && sh.dev.mode.abs
    ensures var e := CalExec(sh, op, k, c);
      ModeThread(cfg, e.sh, e.pc) && e.sh.dev.mode.abs && e.sh.mutex == Some(t)
  {}

  lemma ModeThreadKeeps(cfg: Config, s: State, t: nat, c: Choice)
    requires cfg.freezer && Inv(cfg, s) && ModeInv(cfg, s) && Next(cfg, s, ThreadGo(t, c)).Some?
    ensures ModeInv(cfg, Next(cfg, s, ThreadGo(t, c)).value)
  {
    var s' := Next(cfg, s, ThreadGo(t, c)).value;
    var pc := s.th[t];
    assert ThreadOk(cfg, s.sh, t, pc) && ModeThread(cfg, s.sh, pc);
    ThreadLocal(cfg, s.sh, t, pc, c);
    if s.sh.mutex.Some? {
      assert ThreadOk(cfg, s.sh, s.sh.mutex.value, s.th[s.sh.mutex.value]);
      assert ModeThread(cfg, s.sh, s.th[s.sh.mutex.value]);
    }
    if pc.Cal? { ModeCal(cfg, s.sh, t, pc.op, pc.k, c); }
    else { ModeOther(cfg, s.sh, t, pc, c); ModeStep(cfg, s.sh, t, pc, c); }
    forall u | 0 <= u < |s'.th| ensures ModeThread(cfg, s'.sh, s'.th[u]) {
      if u != t { assert ThreadOk(cfg, s.sh, u, s.th[u]) && ModeThread(cfg, s.sh, s.th[u]); }
    }
    assert ThreadOk(cfg, s'.sh, PM, s'.th[PM]) by {
      if t != PM {
        assert ThreadOk(cfg, s.sh, PM, s.th[PM]);
        OtherKept(cfg, s.sh, s'.sh, t, PM, s.th[PM]);
      }
    }
  }

  lemma ModeIsrKeeps(cfg: Config, s: State, c: Choice)
    requires ModeInv(cfg, s) && Next(cfg, s, IsrGo(c)).Some?
    ensures ModeInv(cfg, Next(cfg, s, IsrGo(c)).value)
  {
    var s' := Next(cfg, s, IsrGo(c)).value;
    assert s'.sh.mutex == s.sh.mutex && s'.sh.dev.mode == s.sh.dev.mode;
    forall t | 0 <= t < |s.th| ensures ModeThread(cfg, s'.sh, s.th[t]) {
      assert ModeThread(cfg, s.sh, s.th[t]);
    }
  }

  lemma ModeArrivalKeeps(cfg: Config, s: State, step: Step)
    requires cfg.freezer && Inv(cfg, s) && ModeInv(cfg, s) && Next(cfg, s, step).Some?
    requires !step.ThreadGo? && !step.IsrGo?
    ensures ModeInv(cfg, Next(cfg, s, step).value)
  {
    var s' := Next(cfg, s, step).value;
    forall t | 0 <= t < |s'.th| ensures ModeThread(cfg, s'.sh, s'.th[t]) {
      if t < |s.th| { assert ModeThread(cfg, s.sh, s.th[t]); }
    }
  }

  lemma ModeStepKeeps(cfg: Config, s: State, step: Step)
    requires cfg.freezer && Inv(cfg, s) && ModeInv(cfg, s) && Next(cfg, s, step).Some?
    ensures ModeInv(cfg, Next(cfg, s, step).value)
  {
    match step
    case ThreadGo(t, c) => ModeThreadKeeps(cfg, s, t, c);
    case IsrGo(c) => ModeIsrKeeps(cfg, s, c);
    case _ => ModeArrivalKeeps(cfg, s, step);
  }

  lemma {:induction false} ModeRun(cfg: Config, s: State, steps: seq<Step>)
    requires cfg.freezer && Inv(cfg, s) && ModeInv(cfg, s) && Run(cfg, s, steps).Some?
    ensures ModeInv(cfg, Run(cfg, s, steps).value)
    decreases |steps|
  {
    if steps != [] {
      StepKeeps(cfg, s, steps[0]);
      ModeStepKeeps(cfg, s, steps[0]);
      ModeRun(cfg, Next(cfg, s, steps[0]).value, steps[1..]);
    }
  }

  lemma FrozenResumeIsSafe(cfg: Config, steps: seq<Step>)
    requires cfg.freezer && Run(cfg, START, steps).Some?
    ensures ModeSafe(Run(cfg, START, steps).value)
  {
    StartInv(cfg);
    RunKeeps(cfg, START, steps);
    ModeRun(cfg, START, steps);
    var s := Run(cfg, START, steps).value;
    if s.sh.mutex.Some? {
      assert ThreadOk(cfg, s.sh, s.sh.mutex.value, s.th[s.sh.mutex.value]);
      assert ModeThread(cfg, s.sh, s.th[s.sh.mutex.value]);
    }
  }

  /** When a recovery returns 0, the mode the device last acknowledged is data->mode, whatever
      earlier calibrations left behind. */
  lemma RecoveryRestoresMode(cfg: Config, steps: seq<Step>, t: nat)
    requires cfg.freezer && Run(cfg, START, steps).Some?
    requires var s := Run(cfg, START, steps).value; t < |s.th| && s.th[t].Rec? && s.th[t].r == Returned(0)
    ensures var d := Run(cfg, START, steps).value.sh.dev; d.devMode == d.mode == Mode(true, false)
  {
    StartInv(cfg);
    RunKeeps(cfg, START, steps);
    ModeRun(cfg, START, steps);
    var s := Run(cfg, START, steps).value;
    assert ThreadOk(cfg, s.sh, t, s.th[t]) && ModeThread(cfg, s.sh, s.th[t]);
  }

  // ---------- without the freezer ----------

  /** One step of one of the two threads past the worker, in a two-thread race. */
  lemma Race(cfg: Config, sh: Shared, pm: Pc, user: Pc, byPm: bool, c: Choice, e: Effect)
    requires Reachable(cfg, State(sh, [Done, pm, user]))
    requires e == Exec(cfg, sh, if byPm then PM else 2, if byPm then pm else user, c) && e.Go?
    ensures Reachable(cfg, State(e.sh, if byPm then [Done, e.pc, user] else [Done, pm, e.pc]))
  {
    var s := State(sh, [Done, pm, user]);
    if byPm {
      ThreadGoes(cfg, s, PM, c, e.sh, e.pc);
      assert s.th[PM := e.pc] == [Done, e.pc, user];
    } else {
      ThreadGoes(cfg, s, 2, c, e.sh, e.pc);
      assert s.th[2 := e.pc] == [Done, pm, e.pc];
    }
  }

  lemma PmGoes(cfg: Config, sh: Shared, p: Pc, sh': Shared, p': Pc)
    requires Reachable(cfg, State(sh, [Done, p])) && Exec(cfg, sh, PM, p, OK) == Go(sh', p')
    ensures Reachable(cfg, State(sh', [Done, p']))
  {
    var s := State(sh, [Done, p]);
    ThreadGoes(cfg, s, PM, OK, sh', p');
    assert s.th[PM := p'] == [Done, p'];
  }

  /** Either order of a suspend with nothing else going on reaches its bus calls. */
  lemma Sleeping(cfg: Config)
    ensures Reachable(cfg, State(START.sh.(depth := 1, mutex := Some(PM)), [Done, Pm(PmSleep)]))
  {
    var a := START.sh;
    assert Run(cfg, START, []) == Some(START);
    assert START.th[PM := Pm(PmStart)] == [Done, Pm(PmStart)];
    Reach(cfg, START, Suspend, State(a, [Done, Pm(PmStart)]));
    if cfg.order == Patched {
      var m := a.(depth := 1);
      PmGoes(cfg, a, Pm(PmStart), a, Pm(PmMask));
      PmGoes(cfg, a, Pm(PmMask), m, Pm(PmSync));
      PmGoes(cfg, m, Pm(PmSync), m, Pm(PmCancel));
      Cancelling(cfg, m);
      PmGoes(cfg, m, Pm(PmLock), m.(mutex := Some(PM)), Pm(PmSleep));
    } else {
      var l := a.(mutex := Some(PM));
      PmGoes(cfg, a, Pm(PmStart), a, Pm(PmCancel));
      Cancelling(cfg, a);
      PmGoes(cfg, a, Pm(PmLock), l, Pm(PmMask));
      PmGoes(cfg, l, Pm(PmMask), l.(depth := 1), Pm(PmSync));
      PmGoes(cfg, l.(depth := 1), Pm(PmSync), l.(depth := 1), Pm(PmSleep));
    }
  }

  lemma Cancelling(cfg: Config, sh: Shared)
    requires Reachable(cfg, State(sh, [Done, Pm(PmCancel)])) && sh.work == START.sh.work
    ensures Reachable(cfg, State(sh, [Done, Pm(PmLock)]))
  {
    var w := sh.(work := sh.work.(cancellers := {PM}));
    PmGoes(cfg, sh, Pm(PmCancel), w, Pm(PmCancelWait));
    assert w.work.cancellers - {PM} == sh.work.cancellers;
    PmGoes(cfg, w, Pm(PmCancelWait), sh, Pm(PmLock));
  }

  /** The device is suspended and starts to resume. */
  lemma Resuming(cfg: Config) returns (sh: Shared)
    ensures Reachable(cfg, State(sh, [Done, Wake(Try(3))]))
    ensures sh == START.sh.(depth := 1)
  {
    Sleeping(cfg);
    sh := START.sh.(depth := 1);
    var locked := sh.(mutex := Some(PM));
    PmGoes(cfg, locked, Pm(PmSleep), locked, Pm(PmLeave(true)));
    PmGoes(cfg, locked, Pm(PmLeave(true)), sh, Wake(Suspended));
    var s := State(sh, [Done, Wake(Suspended)]);
    assert s.th[PM := Wake(Power)] == [Done, Wake(Power)];
    Reach(cfg, s, Resume, State(sh, [Done, Wake(Power)]));
    PmGoes(cfg, sh, Wake(Power), sh, Wake(Try(3)));
  }

  /** A calibration begins and sets its bit while the resume is under way. */
  lemma CalibrationBegins(cfg: Config) returns (sh: Shared)
    requires !cfg.freezer
    ensures sh == START.sh.(depth := 1)
    ensures Reachable(cfg, State(Calibrating(sh, 2, Mode(true, true)), [Done, Wake(Try(3)), Cal(Calibrate, CalSet)]))
  {
    sh := Resuming(cfg);
    var u := Lock(Calibrate);
    var pm := Wake(Try(3));
    assert [Done, pm] + [u] == [Done, pm, u];
    Reach(cfg, State(sh, [Done, pm]), Spawn(u), State(sh, [Done, pm, u]));
    var held := sh.(mutex := Some(2));
    var masked := Calibrating(sh, 2, Mode(true, false));
    Race(cfg, sh, pm, u, false, OK, Go(held, Mask(Calibrate)));
    Race(cfg, held, pm, Mask(Calibrate), false, OK, Go(masked, Sync(Calibrate)));
    Race(cfg, masked, pm, Sync(Calibrate), false, OK, Go(masked, Cal(Calibrate, CalEnter)));
    Race(cfg, masked, pm, Cal(Calibrate, CalEnter), false, OK,
         Go(Calibrating(sh, 2, Mode(true, true)), Cal(Calibrate, CalSet)));
  }

  function Calibrating(sh: Shared, depth: nat, mode: Mode): Shared {
    sh.(mutex := Some(2), depth := depth, dev := sh.dev.(mode := mode))
  }

  /** Its set_mode fails, so it takes the bit back and leaves; the resume read it before that. */
  lemma CalibrationEnds(cfg: Config, sh: Shared, pm: Pc)
    requires sh == START.sh.(depth := 1)
    requires Reachable(cfg, State(Calibrating(sh, 2, Mode(true, true)), [Done, pm, Cal(Calibrate, CalSet)]))
    ensures Reachable(cfg, State(sh, [Done, pm, Done]))
  {
    var cal := Calibrating(sh, 2, Mode(true, true));
    var masked := Calibrating(sh, 2, Mode(true, false));
    var held := sh.(mutex := Some(2));
    Race(cfg, cal, pm, Cal(Calibrate, CalSet), false, FAIL, Go(cal, Cal(Calibrate, CalUndo)));
    Race(cfg, cal, pm, Cal(Calibrate, CalUndo), false, OK, Go(masked, Unmask(Calibrate)));
    Race(cfg, masked, pm, Unmask(Calibrate), false, OK, Go(held, Unlock(Calibrate)));
    Race(cfg, held, pm, Unlock(Calibrate), false, OK, Go(sh, Done));
  }

  /** A resume that read the calibrate bit before the calibration took it back is about to write it. */
  lemma StaleResume(cfg: Config) returns (sh: Shared)
    requires !cfg.freezer
    ensures sh == START.sh.(depth := 1)
    ensures Reachable(cfg, State(sh, [Done, Wake(Store(3, Mode(true, true))), Done]))
  {
    sh := CalibrationBegins(cfg);
    var cal := Calibrating(sh, 2, Mode(true, true));
    var stored := Wake(Store(3, Mode(true, true)));
    Race(cfg, cal, Wake(Try(3)), Cal(Calibrate, CalSet), true, OK, Go(cal, stored));
    CalibrationEnds(cfg, sh, stored);
  }

  /** A resume that reads data->mode inside a calibration and writes it back afterwards leaves
      the calibrate bit set with nobody calibrating. */
  lemma ResumeRacesCalibration(cfg: Config) returns (s: State)
    requires !cfg.freezer
    ensures Reachable(cfg, s) && !ModeSafe(s)
  {
    var sh := StaleResume(cfg);
    var stored := Wake(Store(3, Mode(true, true)));
    var lost := sh.(dev := sh.dev.(mode := Mode(true, true)));
    Race(cfg, sh, stored, Done, true, OK, Go(lost, Wake(SetMode(3))));
    s := State(lost, [Done, Wake(SetMode(3)), Done]);
  }

  ghost predicate AlwaysModeSafe(cfg: Config) {
    forall steps :: Run(cfg, START, steps).Some? ==> ModeSafe(Run(cfg, START, steps).value)
  }

  /** The calibrate bit stays inside its window in every run exactly when user threads are
      frozen while the device resumes. */
  lemma ModeIsSafeExactly(cfg: Config)
    ensures AlwaysModeSafe(cfg) <==> cfg.freezer
  {
    if cfg.freezer {
      forall steps | Run(cfg, START, steps).Some? ensures ModeSafe(Run(cfg, START, steps).value) {
        FrozenResumeIsSafe(cfg, steps);
      }
    } else {
      var s := ResumeRacesCalibration(cfg);
      var steps :| Run(cfg, START, steps) == Some(s);
      UnsafeRun(cfg, steps);
    }
  }

  lemma UnsafeRun(cfg: Config, steps: seq<Step>)
    requires Run(cfg, START, steps).Some? && !ModeSafe(Run(cfg, START, steps).value)
    ensures !AlwaysModeSafe(cfg)
  {
  }

  // ---------- what a recovery leaves ----------

  /** Every recovery about to return 0 has left the device in data->mode. */
  predicate Restored(s: State) {
    forall t :: 0 <= t < |s.th| && s.th[t].Rec? && s.th[t].r == Returned(0) ==> s.sh.dev.devMode == s.sh.dev.mode
  }

  ghost predicate AlwaysRestored(cfg: Config) {
    forall steps :: Run(cfg, START, steps).Some? ==> Restored(Run(cfg, START, steps).value)
  }

  /** One step of a second user thread, beside a resume and a finished calibration. */
  lemma Recovering(cfg: Config, sh: Shared, pm: Pc, u: Pc, sh': Shared, u': Pc)
    requires Reachable(cfg, State(sh, [Done, pm, Done, u])) && Exec(cfg, sh, 3, u, OK) == Go(sh', u')
    ensures Reachable(cfg, State(sh', [Done, pm, Done, u']))
  {
    var s := State(sh, [Done, pm, Done, u]);
    ThreadGoes(cfg, s, 3, OK, sh', u');
    assert s.th[3 := u'] == [Done, pm, Done, u'];
  }

  /** A recovery begins meanwhile and has released the inputs. */
  lemma RecoveryBegins(cfg: Config, sh: Shared, pm: Pc)
    requires !cfg.freezer && sh == START.sh.(depth := 1) && Reachable(cfg, State(sh, [Done, pm, Done]))
    ensures Reachable(cfg, State(sh.(mutex := Some(3), depth := 2), [Done, pm, Done, Rec(Recover, Initialize(RETRY_COUNT))]))
  {
    var u := Lock(Recover);
    assert [Done, pm, Done] + [u] == [Done, pm, Done, u];
    Reach(cfg, State(sh, [Done, pm, Done]), Spawn(u), State(sh, [Done, pm, Done, u]));
    var held := sh.(mutex := Some(3));
    var masked := held.(depth := 2);
    Recovering(cfg, sh, pm, u, held, Mask(Recover));
    Recovering(cfg, held, pm, Mask(Recover), masked, Sync(Recover));
    Recovering(cfg, masked, pm, Sync(Recover), masked, Rec(Recover, Release));
    Recovering(cfg, masked, pm, Rec(Recover, Release), masked, Rec(Recover, ResetErrors));
    Recovering(cfg, masked, pm, Rec(Recover, ResetErrors), masked, Rec(Recover, Initialize(RETRY_COUNT)));
  }

  /** It succeeds in all its stages, and only then does the resume write. */
  lemma ResumeRacesRecovery(cfg: Config) returns (s: State)
    requires !cfg.freezer
    ensures Reachable(cfg, s) && !Restored(s)
  {
    var sh := StaleResume(cfg);
    var stored := Wake(Store(3, Mode(true, true)));
    RecoveryBegins(cfg, sh, stored);
    var masked := sh.(mutex := Some(3), depth := 2);
    Recovering(cfg, masked, stored, Rec(Recover, Initialize(RETRY_COUNT)), masked, Rec(Recover, Ping(RETRY_COUNT)));
    Recovering(cfg, masked, stored, Rec(Recover, Ping(RETRY_COUNT)), masked, Rec(Recover, Restore));
    Recovering(cfg, masked, stored, Rec(Recover, Restore), masked, Rec(Recover, Returned(0)));
    var lost := masked.(dev := masked.dev.(mode := Mode(true, true)));
    var before := State(masked, [Done, stored, Done, Rec(Recover, Returned(0))]);
    ThreadGoes(cfg, before, PM, OK, lost, Wake(SetMode(3)));
    s := State(lost, before.th[PM := Wake(SetMode(3))]);
    assert s.th[3] == Rec(Recover, Returned(0));
  }

  lemma UnrestoredRun(cfg: Config, steps: seq<Step>)
    requires Run(cfg, START, steps).Some? && !Restored(Run(cfg, START, steps).value)
    ensures !AlwaysRestored(cfg)
  {
  }

  /** A recovery that returns 0 leaves the device in data->mode, in every run, exactly when user
      threads are frozen while the device resumes. */
  lemma RecoveryRestoresExactly(cfg: Config)
    ensures AlwaysRestored(cfg) <==> cfg.freezer
  {
    if cfg.freezer {
      forall steps | Run(cfg, START, steps).Some? ensures Restored(Run(cfg, START, steps).value) {
        var s := Run(cfg, START, steps).value;
        forall t | 0 <= t < |s.th| && s.th[t].Rec? && s.th[t].r == Returned(0)
          ensures s.sh.dev.devMode == s.sh.dev.mode
        {
          RecoveryRestoresMode(cfg, steps, t);
        }
      }
    } else {
      var s := ResumeRacesRecovery(cfg);
      var steps :| Run(cfg, START, steps) == Some(s);
      UnrestoredRun(cfg, steps);
    }
  }
}
