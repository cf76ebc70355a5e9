/** Whether a suspend leaves watchdog work behind: the two orders of elan_suspend differ. */
module ProtocolSuspend {
  import opened Policy
  import opened Protocol
  import opened ProtocolInvariant
  import opened ProtocolTheorems
  import opened ProtocolRuns

  // ---------- suspend and the work item ----------

  /** From a successful suspend until the resume unmasks, no watchdog work is queued or runs. */
  predicate NoWorkAsleep(s: State) {
    |s.th| > PM && (s.th[PM] == Pm(PmLeave(true)) || s.th[PM].Wake?)
    ==> !s.sh.work.pending && !s.sh.work.running
  }

  lemma PatchedSuspendIsQuiet(cfg: Config, steps: seq<Step>)
    requires cfg.order == Patched || !cfg.watchdogEnabled
    requires Run(cfg, START, steps).Some?
    ensures NoWorkAsleep(Run(cfg, START, steps).value)
  {
    Reached(cfg, steps);
    var s := Run(cfg, START, steps).value;
    assert ThreadOk(cfg, s.sh, PM, s.th[PM]);
  }

  /** One failed report read, from an idle handler to an idle handler or to the queueing. */
  lemma FailedRead(cfg: Config, s: State) returns (s': State)
    requires Reachable(cfg, s) && cfg.watchdogEnabled && |s.sh.work.openers| > 0
    requires s.sh.depth == 0 && s.sh.isr == IIdle && !s.sh.inFw && s.sh.count.errors < 3
    ensures Reachable(cfg, s') && s'.th == s.th
    ensures s'.sh == s.sh.(isr := s'.sh.isr, count := s'.sh.count)
    ensures s'.sh.count.errors == s.sh.count.errors + 1
    ensures s'.sh.isr == if s'.sh.count.errors < 3 then IIdle else IQueue
  {
    var n := s.sh.count;
    var sh := s.sh.(isr := IEntered);
    Reach(cfg, s, Fire, State(sh, s.th));
    IsrGoes(cfg, State(sh, s.th), OK, sh.(isr := ICall));
    sh := sh.(isr := ICall);
    n := n.(failed := n.failed + 1, streak := n.streak + 1);
    IsrGoes(cfg, State(sh, s.th), FAIL, sh.(isr := IFailed, count := n));
    sh := sh.(isr := IFailed, count := n);
    IsrGoes(cfg, State(sh, s.th), OK, sh.(isr := ILoaded(n.errors)));
    sh := sh.(isr := ILoaded(n.errors));
    n := n.(errors := n.errors + 1);
    IsrGoes(cfg, State(sh, s.th), OK, sh.(isr := IStored(n.errors), count := n));
    sh := sh.(isr := IStored(n.errors), count := n);
    s' := State(sh.(isr := if n.errors < 3 then IIdle else IQueue), s.th);
    IsrGoes(cfg, State(sh, s.th), OK, s'.sh);
  }

  /** A node is open and the handler, past its last check, is about to queue the work. */
  lemma AboutToQueue(cfg: Config) returns (s: State)
    requires cfg.watchdogEnabled
    ensures Reachable(cfg, s) && s.sh.isr == IQueue && s.sh.mutex.None?
    ensures s.sh.work == WorkItem({2}, false, false, {}) && s.th == [Done, Pm(Awake), Node(Opened)]
  {
    assert Run(cfg, START, []) == Some(START);
    var s0 := START.(th := START.th + [Node(OpenInc)]);
    Reach(cfg, START, Spawn(Node(OpenInc)), s0);
    var sh := START.sh.(work := WorkItem({2}, false, false, {}));
    ThreadGoes(cfg, s0, 2, OK, sh, Node(Opened));
    s := State(sh, s0.th[2 := Node(Opened)]);
    assert s.th == [Done, Pm(Awake), Node(Opened)];
    s := FailedRead(cfg, s);
    s := FailedRead(cfg, s);
    s := FailedRead(cfg, s);
  }

  /** One step of the power-management thread that leaves the shared state as it is. */
  lemma PmMoves(cfg: Config, sh: Shared, p: PmPc, q: PmPc)
    requires Reachable(cfg, State(sh, [Done, Pm(p), Node(Opened)])) && PmExec(cfg, sh, PM, p, OK).Go?
    requires PmExec(cfg, sh, PM, p, OK).pc == Pm(q)
    ensures Reachable(cfg, State(PmExec(cfg, sh, PM, p, OK).sh, [Done, Pm(q), Node(Opened)]))
  {
    var s := State(sh, [Done, Pm(p), Node(Opened)]);
    ThreadGoes(cfg, s, PM, OK, PmExec(cfg, sh, PM, p, OK).sh, Pm(q));
    assert s.th[PM := Pm(q)] == [Done, Pm(q), Node(Opened)];
  }

  /** The vendored order cancels the work, and finds none, before it masks the interrupt. */
  lemma CancelsTooEarly(cfg: Config, s: State)
    requires cfg.order == Vendored && Reachable(cfg, s) && s.sh.isr == IQueue && s.sh.mutex.None?
    requires s.sh.work == WorkItem({2}, false, false, {}) && s.th == [Done, Pm(Awake), Node(Opened)]
    ensures Reachable(cfg, State(s.sh, [Done, Pm(PmLock), Node(Opened)]))
  {
    var sh := s.sh;
    assert s.th[PM := Pm(PmStart)] == [Done, Pm(PmStart), Node(Opened)];
    Reach(cfg, s, Suspend, State(sh, [Done, Pm(PmStart), Node(Opened)]));
    PmMoves(cfg, sh, PmStart, PmCancel);
    PmMoves(cfg, sh, PmCancel, PmCancelWait);
    var cancelling := sh.(work := sh.work.(cancellers := {PM}));
    assert PmExec(cfg, sh, PM, PmCancel, OK).sh == cancelling;
    PmMoves(cfg, cancelling, PmCancelWait, PmLock);
    assert PmExec(cfg, cancelling, PM, PmCancelWait, OK).sh == sh;
  }

  /** A handler already past its checks then queues it again. */
  lemma VendoredSuspendRequeues(cfg: Config) returns (s: State)
    requires cfg.order == Vendored && cfg.watchdogEnabled
    ensures Reachable(cfg, s) && !NoWorkAsleep(s)
  {
    s := AboutToQueue(cfg);
    var sh := s.sh;
    CancelsTooEarly(cfg, s);
    var queued := sh.(isr := IIdle, work := sh.work.(pending := true));
    IsrGoes(cfg, State(sh, [Done, Pm(PmLock), Node(Opened)]), OK, queued);
    PmMoves(cfg, queued, PmLock, PmMask);
    var held := queued.(mutex := Some(PM));
    PmMoves(cfg, held, PmMask, PmSync);
    held := held.(depth := held.depth + 1);
    PmMoves(cfg, held, PmSync, PmSleep);
    PmMoves(cfg, held, PmSleep, PmLeave(true));
    s := State(held, [Done, Pm(PmLeave(true)), Node(Opened)]);
  }

  ghost predicate AlwaysQuiet(cfg: Config) {
    forall steps :: Run(cfg, START, steps).Some? ==> NoWorkAsleep(Run(cfg, START, steps).value)
  }

  lemma LoudRun(cfg: Config, steps: seq<Step>)
    requires Run(cfg, START, steps).Some? && !NoWorkAsleep(Run(cfg, START, steps).value)
    ensures !AlwaysQuiet(cfg)
  {
  }

  /** A suspend leaves no watchdog work behind in any run exactly when the driver masks the
      interrupt before it cancels the work, or the watchdog is off. */
  lemma SuspendIsQuietExactly(cfg: Config)
    ensures AlwaysQuiet(cfg) <==> (cfg.order == Patched || !cfg.watchdogEnabled)
  {
    if cfg.order == Patched || !cfg.watchdogEnabled {
      forall steps | Run(cfg, START, steps).Some?
        ensures NoWorkAsleep(Run(cfg, START, steps).value)
      {
        PatchedSuspendIsQuiet(cfg, steps);
      }
    } else {
      var s := VendoredSuspendRequeues(cfg);
      var steps :| Run(cfg, START, steps) == Some(s);
      LoudRun(cfg, steps);
    }
  }
}
