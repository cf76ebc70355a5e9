/** What the driver's protocol guarantees in every reachable state and over whole runs. */
module ProtocolTheorems {
  import opened Policy
  import opened Protocol
  import opened ProtocolInvariant

  lemma Reached(cfg: Config, steps: seq<Step>)
    requires Run(cfg, START, steps).Some?
    ensures Inv(cfg, Run(cfg, START, steps).value)
  {
    StartInv(cfg);
    RunKeeps(cfg, START, steps);
  }

  // ---------- the masking depth ----------

  function MaskCount(cfg: Config, th: seq<Pc>): nat {
    if th == [] then 0 else MaskCount(cfg, th[..|th| - 1]) + MaskOf(cfg, th[|th| - 1])
  }

  /** A thread that neither holds the mutex nor is the power-management thread masks nothing. */
  lemma UnlockedIsUnmasked(cfg: Config, s: State, t: nat)
    requires Inv(cfg, s) && t < |s.th|
    ensures t != PM && s.sh.mutex != Some(t) ==> MaskOf(cfg, s.th[t]) == 0
    ensures t == PM && s.sh.mutex == Some(t) ==> HolderMask(cfg, s) == 0
  {
    assert ThreadOk(cfg, s.sh, t, s.th[t]);
  }

  lemma {:induction false} MaskCountIs(cfg: Config, s: State, n: nat)
    requires Inv(cfg, s) && n <= |s.th|
    ensures MaskCount(cfg, s.th[..n]) ==
      (if s.sh.mutex.Some? && s.sh.mutex.value < n then HolderMask(cfg, s) else 0)
      + (if PM < n then MaskOf(cfg, s.th[PM]) else 0)
  {
    if n > 0 {
      MaskCountIs(cfg, s, n - 1);
      assert s.th[..n][..n - 1] == s.th[..n - 1];
      UnlockedIsUnmasked(cfg, s, n - 1);
    }
  }

  /** The disable depth counts exactly the threads that hold a level: at most the mutex
      holder and the power-management thread.  It is never negative, and zero when the
      mutex is free and the device awake. */
  lemma DepthIsBalanced(cfg: Config, steps: seq<Step>)
    requires Run(cfg, START, steps).Some?
    ensures var s := Run(cfg, START, steps).value;
      && |s.th| > PM
      && s.sh.depth == MaskCount(cfg, s.th)
      && s.sh.depth == HolderMask(cfg, s) + MaskOf(cfg, s.th[PM])
      && 0 <= s.sh.depth <= 2
      && (s.sh.mutex.None? && s.th[PM] == Pm(Awake) ==> s.sh.depth == 0)
  {
    Reached(cfg, steps);
    var s := Run(cfg, START, steps).value;
    MaskCountIs(cfg, s, |s.th|);
    assert s.th[..|s.th|] == s.th;
  }

  // ---------- the error counter and the watchdog ----------

  /** Outside the handler's read-then-write, the counter is the number of failed reads since
      the last successful read or recovery reset, modulo 2^32: no update is ever lost. */
  lemma ErrorCounterIsExact(cfg: Config, steps: seq<Step>)
    requires Run(cfg, START, steps).Some?
    ensures var s := Run(cfg, START, steps).value;
      !s.sh.isr.IFailed? && !s.sh.isr.ILoaded? && !s.sh.isr.ISucceeded?
      ==> s.sh.count.errors == s.sh.count.streak % U32
  {
    Reached(cfg, steps);
  }

  /** Three failed reads pay for each automatic recovery; only those begun can succeed. */
  lemma RecoveriesArePaidFor(cfg: Config, steps: seq<Step>)
    requires Run(cfg, START, steps).Some?
    ensures var n := Run(cfg, START, steps).value.sh.count;
      3 * n.attempts <= n.failed && n.recoveries <= n.attempts
  {
    Reached(cfg, steps);
  }

  lemma OnlyEvalAttempts(cfg: Config, sh: Shared, t: nat, pc: Pc, c: Choice)
    requires ThreadOk(cfg, sh, t, pc) && Exec(cfg, sh, t, pc, c).Go?
    ensures var n := Exec(cfg, sh, t, pc, c).sh.count.attempts; n != sh.count.attempts ==>
      && t == WORKER && sh.mutex == Some(WORKER) && n == sh.count.attempts + 1
      && sh.work.openers != {} && sh.count.errors >= REPORT_ERROR_THRESHOLD
  {
    match pc
    case Work(w) =>
    case Rec(op, r) =>
    case _ => OtherCounts(cfg, sh, t, pc, c);
  }

  /** Each attempt begins with the work item holding the mutex, a node open, and the counter at
      the threshold; no other step of any thread begins one. */
  lemma AttemptsAreEvaluated(cfg: Config, s: State, step: Step)
    requires Inv(cfg, s) && Next(cfg, s, step).Some?
    requires Next(cfg, s, step).value.sh.count.attempts != s.sh.count.attempts
    ensures step.ThreadGo? && step.t == WORKER && s.sh.mutex == Some(WORKER)
    ensures s.sh.work.openers != {} && s.sh.count.errors >= 3
    ensures Next(cfg, s, step).value.sh.count.attempts == s.sh.count.attempts + 1
  {
    if step.ThreadGo? {
      assert ThreadOk(cfg, s.sh, step.t, s.th[step.t]);
      OnlyEvalAttempts(cfg, s.sh, step.t, s.th[step.t], step.c);
    }
  }

  /** The work item's evaluation begins an attempt exactly when a node is open and three or more
      reads have failed since the last success or reset; otherwise it leaves. */
  lemma EvaluationIsExact(cfg: Config, s: State, c: Choice)
    requires Inv(cfg, s) && s.th[WORKER] == Work(WorkEval) && c.status <= 0
    ensures Next(cfg, s, ThreadGo(WORKER, c)).Some?
    ensures var s' := Next(cfg, s, ThreadGo(WORKER, c)).value;
      if s.sh.work.openers != {} && s.sh.count.errors >= 3
      then s'.th[WORKER] == Mask(Auto) && s'.sh.count.attempts == s.sh.count.attempts + 1
      else s'.th[WORKER] == Unlock(Auto) && s'.sh.count.attempts == s.sh.count.attempts
  {
    assert s.sh.work.openers != {} <==> |s.sh.work.openers| > 0;
  }

  /** A handler that has stored its r-th failure goes on to queue the work exactly when the watchdog
      is on, a node is open and r is at least three; it then leaves the work pending exactly when it
      was, or the watchdog is on, a node is still open and nobody is cancelling. */
  lemma QueueingIsExact(cfg: Config, sh: Shared, r: nat, c: Choice)
    ensures sh.isr != IIdle ==> IsrExec(cfg, sh, c).Some?
    ensures sh.isr == IStored(r) ==>
      IsrExec(cfg, sh, c).value.isr == if cfg.watchdogEnabled && sh.work.openers != {} && r >= 3 then IQueue else IIdle
    ensures sh.isr == IQueue ==>
      IsrExec(cfg, sh, c).value.work == sh.work.(pending := sh.work.pending
        || (cfg.watchdogEnabled && sh.work.openers != {} && sh.work.cancellers == {}))
  {
    assert sh.work.openers != {} <==> |sh.work.openers| > 0;
  }

  ghost predicate AllClosed(s: State) {
    s.sh.work.openers == {} && forall t :: 0 <= t < |s.th| ==> !Closing(s.th[t])
  }

  predicate Opens(s: State, step: Step) {
    step.ThreadGo? && step.t < |s.th| && s.th[step.t] == Node(OpenInc)
  }

  predicate NeverOpens(cfg: Config, s: State, steps: seq<Step>)
    decreases |steps|
  {
    steps == [] || (!Opens(s, steps[0]) && Next(cfg, s, steps[0]).Some?
                    && NeverOpens(cfg, Next(cfg, s, steps[0]).value, steps[1..]))
  }

  lemma ClosedBriefly(cfg: Config, sh: Shared, t: nat, pc: Pc, c: Choice)
    requires ThreadOk(cfg, sh, t, pc) && Exec(cfg, sh, t, pc, c).Go? && (pc.Work? || pc.Node?)
    requires sh.work.openers == {} && !Closing(pc) && pc != Node(OpenInc)
    ensures var e := Exec(cfg, sh, t, pc, c);
      e.sh.work.openers == {} && !Closing(e.pc) && e.sh.count.attempts == sh.count.attempts
  {
  }

  lemma ClosedThread(cfg: Config, sh: Shared, t: nat, pc: Pc, c: Choice)
    requires ThreadOk(cfg, sh, t, pc) && Exec(cfg, sh, t, pc, c).Go?
    requires sh.work.openers == {} && !Closing(pc) && pc != Node(OpenInc)
    ensures var e := Exec(cfg, sh, t, pc, c);
      e.sh.work.openers == {} && !Closing(e.pc) && e.sh.count.attempts == sh.count.attempts
  {
    match pc
    case Work(w) => ClosedBriefly(cfg, sh, t, pc, c);
    case Node(n) => ClosedBriefly(cfg, sh, t, pc, c);
    case Rec(op, r) =>
    case _ => OtherCounts(cfg, sh, t, pc, c); OpenersKept(cfg, sh, t, pc, c);
  }

  lemma OpenersKept(cfg: Config, sh: Shared, t: nat, pc: Pc, c: Choice)
    requires Exec(cfg, sh, t, pc, c).Go? && !pc.Node? && !pc.Work? && !pc.Rec?
    ensures Exec(cfg, sh, t, pc, c).sh.work.openers == sh.work.openers && !Exec(cfg, sh, t, pc, c).pc.Node?
  {
    match pc
    case Cal(op, k) =>
    case Fw(f) =>
    case Pm(p) =>
    case Wake(v) =>
    case _ =>
  }

  lemma CloseNeedsAnOpener(cfg: Config, s: State, t: nat)
    requires Inv(cfg, s) && Next(cfg, s, Close(t)).Some?
    ensures s.sh.work.openers != {}
  {
    assert ThreadOk(cfg, s.sh, t, s.th[t]);
  }

  lemma ClosedThreadStep(cfg: Config, s: State, t: nat, c: Choice)
    requires Inv(cfg, s) && AllClosed(s) && !Opens(s, ThreadGo(t, c)) && Next(cfg, s, ThreadGo(t, c)).Some?
    ensures var s' := Next(cfg, s, ThreadGo(t, c)).value;
      AllClosed(s') && s'.sh.count.attempts == s.sh.count.attempts
  {
    assert ThreadOk(cfg, s.sh, t, s.th[t]);
    ClosedThread(cfg, s.sh, t, s.th[t], c);
  }

  lemma ClosedHandler(cfg: Config, sh: Shared, c: Choice)
    requires IsrExec(cfg, sh, c).Some?
    ensures IsrExec(cfg, sh, c).value.count.attempts == sh.count.attempts
  {
  }

  lemma ClosedOtherwise(cfg: Config, s: State, step: Step)
    requires Inv(cfg, s) && AllClosed(s) && !step.ThreadGo? && Next(cfg, s, step).Some?
    ensures var s' := Next(cfg, s, step).value;
      AllClosed(s') && s'.sh.count.attempts == s.sh.count.attempts
  {
    match step
    case Close(t) => CloseNeedsAnOpener(cfg, s, t);
    case IsrGo(c) => IsrFrame(cfg, s.sh, c); ClosedHandler(cfg, s.sh, c);
    case _ =>
  }

  lemma ClosedStaysClosed(cfg: Config, s: State, step: Step)
    requires Inv(cfg, s) && AllClosed(s) && !Opens(s, step) && Next(cfg, s, step).Some?
    ensures var s' := Next(cfg, s, step).value;
      AllClosed(s') && s'.sh.count.attempts == s.sh.count.attempts
  {
    if step.ThreadGo? {
      ClosedThreadStep(cfg, s, step.t, step.c);
    } else {
      ClosedOtherwise(cfg, s, step);
    }
  }

  /** Once the last close has returned, no automatic recovery is in progress, and none begins
      until a node is opened again, whatever the interrupt handler still queues. */
  lemma {:induction false} LastCloseEndsRecovery(cfg: Config, s: State, steps: seq<Step>)
    requires Inv(cfg, s) && AllClosed(s) && NeverOpens(cfg, s, steps)
    ensures |s.th| > PM && !Attempt(s.th[WORKER])
    ensures Run(cfg, s, steps).Some?
    ensures var s' := Run(cfg, s, steps).value;
      && s'.sh.count.attempts == s.sh.count.attempts
      && |s'.th| > PM && !Attempt(s'.th[WORKER])
    decreases |steps|
  {
    if steps != [] {
      StepKeeps(cfg, s, steps[0]);
      ClosedStaysClosed(cfg, s, steps[0]);
      LastCloseEndsRecovery(cfg, Next(cfg, s, steps[0]).value, steps[1..]);
    }
  }

  // ---------- what the input devices show ----------

  /** From the moment a recovery has released the inputs until its caller unmasks the
      interrupt, whatever the recovery returned, no slot is active, no button is held, and the
      handler is idle. */
  lemma RecoveryKeepsInputsReleased(cfg: Config, steps: seq<Step>, t: nat)
    requires Run(cfg, START, steps).Some?
    requires t < |Run(cfg, START, steps).value.th| && Released(Run(cfg, START, steps).value.th[t])
    ensures var s := Run(cfg, START, steps).value; s.sh.dev.inputs == ALL_UP && s.sh.isr == IIdle
  {
    Reached(cfg, steps);
    var s := Run(cfg, START, steps).value;
    assert ThreadOk(cfg, s.sh, t, s.th[t]);
  }

  /** While in_fw_update is set no step, of the handler or of any thread, emits input, reads a
      report or touches the error counter: not even where the interrupt is let through. */
  lemma FirmwareUpdateIsSilent(cfg: Config, s: State, step: Step)
    requires Inv(cfg, s) && s.sh.inFw && Next(cfg, s, step).Some?
    ensures var s' := Next(cfg, s, step).value;
      s'.sh.dev.inputs == s.sh.dev.inputs && s'.sh.count == s.sh.count
  {
    var o := s.sh.mutex.value;
    assert ThreadOk(cfg, s.sh, o, s.th[o]);
    if step.ThreadGo? {
      assert ThreadOk(cfg, s.sh, step.t, s.th[step.t]);
      match s.th[step.t]
      case Work(w) =>
      case Rec(op, r) =>
      case pc => OtherCounts(cfg, s.sh, step.t, pc, step.c);
    }
  }
}
