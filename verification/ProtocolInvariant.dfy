/** What every step of the protocol keeps. */
module ProtocolInvariant {
  import opened Policy
  import opened Protocol

  // ---------- where a thread stands ----------

  /** This thread holds sysfs_mutex. */
  predicate Locked(cfg: Config, pc: Pc) {
    match pc
    case Done => false
    case Node(_) => false
    case Work(w) => w == WorkEval
    case Lock(_) => false
    case Pm(p) =>
      p.PmSleep? || p.PmUndo? || p.PmLeave? || (cfg.order == Vendored && (p.PmMask? || p.PmSync?))
    case Wake(_) => false
    case _ => true
  }

  /** The stretch in which a firmware update lets the interrupt through. */
  predicate FwWindow(pc: Pc) {
    pc.Fw? && (pc.f.FwWait? || pc.f.FwClose?)
  }

  /** This thread holds one level of interrupt masking. */
  predicate Masked(cfg: Config, pc: Pc) {
    match pc
    case Sync(_) => true
    case Unmask(_) => true
    case Rec(_, _) => true
    case Cal(_, _) => true
    case Fw(_) => !FwWindow(pc)
    case Pm(p) =>
      p.PmSync? || p.PmSleep? || p.PmUndo? || p == PmLeave(true)
      || (cfg.order == Patched && (p.PmCancel? || p.PmCancelWait? || p.PmLock? || p.PmAbort?))
    case Wake(_) => true
    case _ => false
  }

  /** Masked, and disable_irq has returned. */
  predicate Quiet(cfg: Config, pc: Pc) {
    Masked(cfg, pc) && !pc.Sync? && pc != Pm(PmSync) && !(pc.Fw? && pc.f.FwSync?)
  }

  /** in_fw_update is set by this thread. */
  predicate FwSection(pc: Pc) {
    pc.Fw? && !pc.f.FwMark?
  }

  /** From the release of the inputs until the caller of elan_recover_locked unmasks. */
  predicate Released(pc: Pc) {
    (pc.Rec? && !pc.r.Release?) || (pc.Unmask? && (pc.op == Recover || pc.op == Auto))
  }

  predicate CalWindow(pc: Pc) {
    pc.Cal? && !pc.k.CalEnter? && !pc.k.CalExit?
  }

  /** The work item has decided to recover and has not unmasked yet. */
  predicate Attempt(pc: Pc) {
    (pc.Mask? || pc.Sync? || pc.Unmask? || pc.Rec?) && pc.op == Auto
  }

  predicate BeforeReset(pc: Pc) {
    Attempt(pc) && (pc.Mask? || pc.Sync? || (pc.Rec? && (pc.r.Release? || pc.r.ResetErrors?)))
  }

  predicate BeforeCount(pc: Pc) {
    Attempt(pc) && !pc.Unmask?
  }

  /** Past a cancelled work item on the way into or out of a suspend. */
  predicate Settled(pc: Pc) {
    pc.Wake?
    || (pc.Pm? && (pc.p.PmLock? || pc.p.PmAbort? || pc.p.PmSleep? || pc.p.PmUndo? || pc.p == PmLeave(true)))
  }

  predicate Role(t: nat, pc: Pc) {
    match pc
    case Done => t != PM
    case Node(_) => t > PM
    case Work(_) => t == WORKER
    case Lock(op) => t > PM && op != Auto
    case Unlock(op) => t != PM && (t == WORKER <==> op == Auto)
    case Rec(op, _) => (t == WORKER && op == Auto) || (t > PM && op == Recover)
    case Cal(op, _) => t > PM && (op == Calibrate || op == Acquire)
    case Fw(_) => t > PM
    case Pm(_) => t == PM
    case Wake(_) => t == PM
    case _ => t != PM && (t == WORKER <==> pc.op == Auto) && pc.op != Show
  }

  // ---------- the invariant ----------

  predicate ThreadOk(cfg: Config, sh: Shared, t: nat, pc: Pc) {
    && Role(t, pc)
    && (Locked(cfg, pc) <==> sh.mutex == Some(t))
    && (Quiet(cfg, pc) ==> sh.isr == IIdle)
    && (FwSection(pc) ==> sh.isr == IIdle || sh.isr == IEntered)
    && (Locked(cfg, pc) ==> (sh.inFw <==> FwSection(pc)))
    && (Released(pc) ==> sh.dev.inputs == ALL_UP)
    && (t in sh.work.openers <==> pc == Node(Opened) || pc == Node(CloseDec))
    && (t in sh.work.cancellers <==> pc == Node(CancelWait) || pc == Pm(PmCancelWait))
    && (t == WORKER ==> (sh.work.running <==> pc != Done))
    && (pc == Pm(PmAbort) ==> cfg.order == Patched)
    && (Settled(pc) && cfg.order == Patched ==> !sh.work.pending && !sh.work.running)
  }

  function MaskOf(cfg: Config, pc: Pc): int {
    if Masked(cfg, pc) then 1 else 0
  }

  /** The masking of the mutex holder, when that is not the power-management thread. */
  function HolderMask(cfg: Config, s: State): int {
    if s.sh.mutex.Some? && s.sh.mutex.value != PM && s.sh.mutex.value < |s.th|
    then MaskOf(cfg, s.th[s.sh.mutex.value]) else 0
  }

  predicate WorkOk(cfg: Config, sh: Shared) {
    && (sh.inFw ==> sh.mutex.Some?)
    && (sh.work.cancellers != {} ==> !sh.work.pending)
    && (sh.work.pending || sh.work.running ==> cfg.watchdogEnabled)
  }

  function Unwritten(isr: IsrPc): nat {
    if isr.IFailed? || isr.ILoaded? then 1 else 0
  }

  predicate ErrorsExact(sh: Shared) {
    && sh.count.errors < U32
    && (sh.isr.ILoaded? ==> sh.isr.seen == sh.count.errors)
    && (sh.isr.ISucceeded? ==> sh.count.streak == 0)
    && (Unwritten(sh.isr) == 1 ==> 1 <= sh.count.streak && sh.count.errors == (sh.count.streak - 1) % U32)
    && (!sh.isr.ISucceeded? && Unwritten(sh.isr) == 0 ==> sh.count.errors == sh.count.streak % U32)
  }

  predicate Conserved(sh: Shared, worker: Pc) {
    && 3 * sh.count.attempts + (if BeforeReset(worker) then 0 else sh.count.errors + Unwritten(sh.isr)) <= sh.count.failed
    && sh.count.recoveries + (if BeforeCount(worker) then 1 else 0) <= sh.count.attempts
  }

  predicate Closing(pc: Pc) {
    pc == Node(CancelBegin) || pc == Node(CancelWait)
  }

  ghost predicate SharedOk(cfg: Config, s: State) {
    && |s.th| > PM
    && (s.sh.mutex.Some? ==> s.sh.mutex.value < |s.th|)
    && WorkOk(cfg, s.sh)
    && (forall t :: t in s.sh.work.openers ==> t < |s.th|)
    && (forall t :: t in s.sh.work.cancellers ==> t < |s.th|)
    && s.sh.depth == HolderMask(cfg, s) + MaskOf(cfg, s.th[PM])
    && ErrorsExact(s.sh)
    && Conserved(s.sh, s.th[WORKER])
  }

  /** A recovery in progress is covered by an open node, or by a close that waits for it. */
  ghost predicate Covered(s: State)
    requires |s.th| > PM
  {
    Attempt(s.th[WORKER]) ==> s.sh.work.openers != {} || exists t :: 0 <= t < |s.th| && Closing(s.th[t])
  }

  ghost predicate Inv(cfg: Config, s: State) {
    && SharedOk(cfg, s)
    && (forall t :: 0 <= t < |s.th| ==> ThreadOk(cfg, s.sh, t, s.th[t]))
    && Covered(s)
  }

  // ---------- it is kept ----------

  lemma StartInv(cfg: Config)
    ensures Inv(cfg, START)
  {}

  /** What a step of thread `t` never does to another thread. */
  predicate Undisturbed(sh: Shared, sh': Shared, t: nat) {
    && (sh'.mutex == sh.mutex || (sh.mutex == None && sh'.mutex == Some(t)) || (sh.mutex == Some(t) && sh'.mutex == None))
    && sh'.isr == sh.isr
    && (sh'.inFw == sh.inFw || sh.mutex == Some(t))
    && (sh'.dev.inputs == sh.dev.inputs || sh'.dev.inputs == ALL_UP)
    && (sh'.work.openers == sh.work.openers || sh'.work.openers == sh.work.openers + {t} || sh'.work.openers == sh.work.openers - {t})
    && (sh'.work.cancellers == sh.work.cancellers || sh'.work.cancellers == sh.work.cancellers + {t}
        || sh'.work.cancellers == sh.work.cancellers - {t})
    && (sh'.work.running == sh.work.running || t == WORKER)
    && (sh'.work.pending ==> sh.work.pending) && (sh'.work.running ==> sh.work.running || sh.work.pending)
  }

  lemma OtherKept(cfg: Config, sh: Shared, sh': Shared, t: nat, u: nat, other: Pc)
    requires ThreadOk(cfg, sh, u, other) && u != t && Undisturbed(sh, sh', t)
    ensures ThreadOk(cfg, sh', u, other)
  {
  }

  /** A step's own part. */
  predicate Own(cfg: Config, t: nat, e: Effect)
    requires e.Go?
  {
    ThreadOk(cfg, e.sh, t, e.pc) && WorkOk(cfg, e.sh)
  }

  /** What it leaves to others; masking levels go up or down with the thread's own. */
  predicate Frame(cfg: Config, sh: Shared, t: nat, pc: Pc, e: Effect)
    requires e.Go?
  {
    && Undisturbed(sh, e.sh, t)
    && e.sh.depth - MaskOf(cfg, e.pc) == sh.depth - MaskOf(cfg, pc)
  }

  /** The counters and the worker's place among them are untouched. */
  predicate CountsKept(sh: Shared, pc: Pc, e: Effect)
    requires e.Go?
  {
    && e.sh.count == sh.count
    && BeforeReset(e.pc) == BeforeReset(pc) && BeforeCount(e.pc) == BeforeCount(pc)
  }

  lemma NodeOwn(cfg: Config, sh: Shared, t: nat, n: NodePc)
    requires ThreadOk(cfg, sh, t, Node(n)) && WorkOk(cfg, sh) && NodeExec(sh, t, n).Go?
    ensures Own(cfg, t, NodeExec(sh, t, n))
  {}

  lemma NodeFrame(cfg: Config, sh: Shared, t: nat, n: NodePc)
    requires ThreadOk(cfg, sh, t, Node(n)) && WorkOk(cfg, sh) && NodeExec(sh, t, n).Go?
    ensures Frame(cfg, sh, t, Node(n), NodeExec(sh, t, n))
  {}

  lemma WorkOwn(cfg: Config, sh: Shared, t: nat, w: WorkPc)
    requires ThreadOk(cfg, sh, t, Work(w)) && WorkOk(cfg, sh) && WorkExec(sh, t, w).Go?
    ensures Own(cfg, t, WorkExec(sh, t, w))
  {}

  lemma WorkFrame(cfg: Config, sh: Shared, t: nat, w: WorkPc)
    requires ThreadOk(cfg, sh, t, Work(w)) && WorkOk(cfg, sh) && WorkExec(sh, t, w).Go?
    ensures Frame(cfg, sh, t, Work(w), WorkExec(sh, t, w))
  {}

  lemma RecOwn(cfg: Config, sh: Shared, t: nat, op: Op, r: RecPc, c: Choice)
    requires ThreadOk(cfg, sh, t, Rec(op, r)) && WorkOk(cfg, sh) && RecExec(sh, op, r, c).Go?
    ensures Own(cfg, t, RecExec(sh, op, r, c))
  {}

  lemma RecFrame(cfg: Config, sh: Shared, t: nat, op: Op, r: RecPc, c: Choice)
    requires ThreadOk(cfg, sh, t, Rec(op, r)) && WorkOk(cfg, sh) && RecExec(sh, op, r, c).Go?
    ensures Frame(cfg, sh, t, Rec(op, r), RecExec(sh, op, r, c))
  {}

  lemma CalOwn(cfg: Config, sh: Shared, t: nat, op: Op, k: CalPc, c: Choice)
    requires ThreadOk(cfg, sh, t, Cal(op, k)) && WorkOk(cfg, sh) && CalExec(sh, op, k, c).Go?
    ensures Own(cfg, t, CalExec(sh, op, k, c))
  {}

  lemma CalFrame(cfg: Config, sh: Shared, t: nat, op: Op, k: CalPc, c: Choice)
    requires ThreadOk(cfg, sh, t, Cal(op, k)) && WorkOk(cfg, sh) && CalExec(sh, op, k, c).Go?
    ensures Frame(cfg, sh, t, Cal(op, k), CalExec(sh, op, k, c))
  {}

  lemma FwOwn(cfg: Config, sh: Shared, t: nat, f: FwPc, c: Choice)
    requires ThreadOk(cfg, sh, t, Fw(f)) && WorkOk(cfg, sh) && FwExec(cfg, sh, f, c).Go?
    ensures Own(cfg, t, FwExec(cfg, sh, f, c))
  {}

  lemma FwFrame(cfg: Config, sh: Shared, t: nat, f: FwPc, c: Choice)
    requires ThreadOk(cfg, sh, t, Fw(f)) && WorkOk(cfg, sh) && FwExec(cfg, sh, f, c).Go?
    ensures Frame(cfg, sh, t, Fw(f), FwExec(cfg, sh, f, c))
  {}

  lemma PmOwn(cfg: Config, sh: Shared, t: nat, p: PmPc, c: Choice)
    requires ThreadOk(cfg, sh, t, Pm(p)) && WorkOk(cfg, sh) && PmExec(cfg, sh, t, p, c).Go?
    ensures Own(cfg, t, PmExec(cfg, sh, t, p, c))
  {}

  lemma PmFrame(cfg: Config, sh: Shared, t: nat, p: PmPc, c: Choice)
    requires ThreadOk(cfg, sh, t, Pm(p)) && WorkOk(cfg, sh) && PmExec(cfg, sh, t, p, c).Go?
    ensures Frame(cfg, sh, t, Pm(p), PmExec(cfg, sh, t, p, c))
  {}

  lemma WakeOwn(cfg: Config, sh: Shared, t: nat, v: WakePc, c: Choice)
    requires ThreadOk(cfg, sh, t, Wake(v)) && WorkOk(cfg, sh) && WakeExec(sh, v, c).Go?
    ensures Own(cfg, t, WakeExec(sh, v, c))
  {}

  lemma WakeFrame(cfg: Config, sh: Shared, t: nat, v: WakePc, c: Choice)
    requires ThreadOk(cfg, sh, t, Wake(v)) && WorkOk(cfg, sh) && WakeExec(sh, v, c).Go?
    ensures Frame(cfg, sh, t, Wake(v), WakeExec(sh, v, c))
  {}

  lemma EdgeOwn(cfg: Config, sh: Shared, t: nat, pc: Pc, c: Choice)
    requires ThreadOk(cfg, sh, t, pc) && WorkOk(cfg, sh) && Exec(cfg, sh, t, pc, c).Go?
    requires pc.Done? || pc.Lock? || pc.Mask? || pc.Sync? || pc.Unmask? || pc.Unlock?
    ensures Own(cfg, t, Exec(cfg, sh, t, pc, c))
  {}

  lemma EdgeFrame(cfg: Config, sh: Shared, t: nat, pc: Pc, c: Choice)
    requires ThreadOk(cfg, sh, t, pc) && WorkOk(cfg, sh) && Exec(cfg, sh, t, pc, c).Go?
    requires pc.Done? || pc.Lock? || pc.Mask? || pc.Sync? || pc.Unmask? || pc.Unlock?
    ensures Frame(cfg, sh, t, pc, Exec(cfg, sh, t, pc, c))
  {}

  /** Only the work item and a recovery touch the counters. */
  lemma OtherCounts(cfg: Config, sh: Shared, t: nat, pc: Pc, c: Choice)
    requires Role(t, pc) && Exec(cfg, sh, t, pc, c).Go? && !pc.Work? && !pc.Rec?
    ensures CountsKept(sh, pc, Exec(cfg, sh, t, pc, c))
  {
    match pc
    case Node(n) =>
    case Cal(op, k) =>
    case Fw(f) =>
    case Pm(p) =>
    case Wake(v) =>
    case _ =>
  }

  lemma WorkCounts(cfg: Config, sh: Shared, t: nat, w: WorkPc)
    requires ThreadOk(cfg, sh, t, Work(w)) && WorkExec(sh, t, w).Go?
    requires ErrorsExact(sh) && Conserved(sh, Work(w))
    ensures ErrorsExact(WorkExec(sh, t, w).sh)
    ensures Conserved(WorkExec(sh, t, w).sh, WorkExec(sh, t, w).pc)
  {}

  lemma RecCounts(cfg: Config, sh: Shared, t: nat, op: Op, r: RecPc, c: Choice, worker: Pc)
    requires ThreadOk(cfg, sh, t, Rec(op, r)) && RecExec(sh, op, r, c).Go?
    requires t == WORKER ==> worker == Rec(op, r)
    requires ErrorsExact(sh) && Conserved(sh, worker)
    ensures ErrorsExact(RecExec(sh, op, r, c).sh)
    ensures Conserved(RecExec(sh, op, r, c).sh, if t == WORKER then RecExec(sh, op, r, c).pc else worker)
  {}

  // ---------- one step of the system ----------

  lemma ThreadLocal(cfg: Config, sh: Shared, t: nat, pc: Pc, c: Choice)
    requires ThreadOk(cfg, sh, t, pc) && WorkOk(cfg, sh) && Exec(cfg, sh, t, pc, c).Go?
    ensures Own(cfg, t, Exec(cfg, sh, t, pc, c)) && Frame(cfg, sh, t, pc, Exec(cfg, sh, t, pc, c))
  {
    match pc
    case Node(n) => NodeOwn(cfg, sh, t, n); NodeFrame(cfg, sh, t, n);
    case Work(w) => WorkOwn(cfg, sh, t, w); WorkFrame(cfg, sh, t, w);
    case Rec(op, r) => RecOwn(cfg, sh, t, op, r, c); RecFrame(cfg, sh, t, op, r, c);
    case Cal(op, k) => CalOwn(cfg, sh, t, op, k, c); CalFrame(cfg, sh, t, op, k, c);
    case Fw(f) => FwOwn(cfg, sh, t, f, c); FwFrame(cfg, sh, t, f, c);
    case Pm(p) => PmOwn(cfg, sh, t, p, c); PmFrame(cfg, sh, t, p, c);
    case Wake(v) => WakeOwn(cfg, sh, t, v, c); WakeFrame(cfg, sh, t, v, c);
    case _ => EdgeOwn(cfg, sh, t, pc, c); EdgeFrame(cfg, sh, t, pc, c);
  }

  lemma ThreadCounts(cfg: Config, sh: Shared, t: nat, pc: Pc, c: Choice, worker: Pc)
    requires ThreadOk(cfg, sh, t, pc) && Exec(cfg, sh, t, pc, c).Go?
    requires t == WORKER ==> worker == pc
    requires ErrorsExact(sh) && Conserved(sh, worker)
    ensures var e := Exec(cfg, sh, t, pc, c);
      e.sh.isr == sh.isr ==> ErrorsExact(e.sh) && Conserved(e.sh, if t == WORKER then e.pc else worker)
  {
    match pc
    case Work(w) => WorkCounts(cfg, sh, t, w);
    case Rec(op, r) => RecCounts(cfg, sh, t, op, r, c, worker);
    case _ => OtherCounts(cfg, sh, t, pc, c);
  }

  lemma DepthKept(cfg: Config, s: State, t: nat, s': State)
    requires |s.th| > PM && t < |s.th| == |s'.th| && s'.th == s.th[t := s'.th[t]]
    requires s.sh.mutex.Some? ==> s.sh.mutex.value < |s.th|
    requires ThreadOk(cfg, s.sh, t, s.th[t]) && ThreadOk(cfg, s'.sh, t, s'.th[t])
    requires Undisturbed(s.sh, s'.sh, t)
    requires s'.sh.depth - MaskOf(cfg, s'.th[t]) == s.sh.depth - MaskOf(cfg, s.th[t])
    requires s.sh.depth == HolderMask(cfg, s) + MaskOf(cfg, s.th[PM])
    ensures s'.sh.depth == HolderMask(cfg, s') + MaskOf(cfg, s'.th[PM])
  {}

  lemma CoverPasses(cfg: Config, s: State, t: nat, c: Choice)
    requires Inv(cfg, s) && Next(cfg, s, ThreadGo(t, c)).Some?
    ensures var s' := Next(cfg, s, ThreadGo(t, c)).value;
      Attempt(s'.th[WORKER]) && s'.sh.work.openers == {} && s.sh.work.openers != {}
      ==> s.th[t] == Node(CloseDec) && Closing(s'.th[t])
  {
    assert ThreadOk(cfg, s.sh, t, s.th[t]);
  }

  lemma CoveredKept(cfg: Config, s: State, t: nat, c: Choice)
    requires Inv(cfg, s) && Next(cfg, s, ThreadGo(t, c)).Some?
    ensures |s.th| > PM && Covered(Next(cfg, s, ThreadGo(t, c)).value)
  {
    var s' := Next(cfg, s, ThreadGo(t, c)).value;
    assert ThreadOk(cfg, s.sh, t, s.th[t]) && ThreadOk(cfg, s.sh, WORKER, s.th[WORKER]);
    if Attempt(s'.th[WORKER]) && s'.sh.work.openers == {} {
      if s.sh.work.openers != {} {
        CoverPasses(cfg, s, t, c);
      } else {
        var u :| 0 <= u < |s.th| && Closing(s.th[u]);
        assert Closing(s'.th[u]);
      }
    }
  }

  lemma ThreadKeeps(cfg: Config, s: State, t: nat, c: Choice)
    requires Inv(cfg, s) && Next(cfg, s, ThreadGo(t, c)).Some?
    ensures Inv(cfg, Next(cfg, s, ThreadGo(t, c)).value)
  {
    var s' := Next(cfg, s, ThreadGo(t, c)).value;
    assert ThreadOk(cfg, s.sh, t, s.th[t]);
    ThreadLocal(cfg, s.sh, t, s.th[t], c);
    ThreadCounts(cfg, s.sh, t, s.th[t], c, s.th[WORKER]);
    DepthKept(cfg, s, t, s');
    CoveredKept(cfg, s, t, c);
    forall u | 0 <= u < |s'.th| ensures ThreadOk(cfg, s'.sh, u, s'.th[u]) {
      if u != t { OtherKept(cfg, s.sh, s'.sh, t, u, s.th[u]); }
    }
  }

  lemma IsrLocal(cfg: Config, sh: Shared, c: Choice, t: nat, pc: Pc)
    requires ThreadOk(cfg, sh, t, pc) && WorkOk(cfg, sh) && IsrExec(cfg, sh, c).Some?
    requires sh.inFw ==> sh.isr == IEntered
    ensures ThreadOk(cfg, IsrExec(cfg, sh, c).value, t, pc)
  {}

  lemma CountsOn(n: nat)
    ensures (n % U32 + 1) % U32 == (n + 1) % U32 < U32
  {
    var r := n % U32;
    assert n == U32 * (n / U32) + r;
    if r == U32 - 1 {
      assert n + 1 == U32 * (n / U32 + 1);
    } else {
      assert n + 1 == U32 * (n / U32) + (r + 1);
    }
  }

  lemma IsrErrors(cfg: Config, sh: Shared, c: Choice)
    requires ErrorsExact(sh) && IsrExec(cfg, sh, c).Some?
    ensures ErrorsExact(IsrExec(cfg, sh, c).value)
  {
    match sh.isr
    case ILoaded(r) => CountsOn(sh.count.streak - 1);
    case ICall =>
    case ISucceeded =>
    case _ =>
  }

  lemma IsrConserved(cfg: Config, sh: Shared, c: Choice, worker: Pc)
    requires ErrorsExact(sh) && Conserved(sh, worker) && IsrExec(cfg, sh, c).Some?
    ensures Conserved(IsrExec(cfg, sh, c).value, worker)
  {}

  lemma IsrFrame(cfg: Config, sh: Shared, c: Choice)
    requires WorkOk(cfg, sh) && IsrExec(cfg, sh, c).Some?
    ensures var r := IsrExec(cfg, sh, c).value;
      && WorkOk(cfg, r) && r.mutex == sh.mutex && r.depth == sh.depth
      && r.work.openers == sh.work.openers && r.work.cancellers == sh.work.cancellers
  {}

  lemma IsrKeeps(cfg: Config, s: State, c: Choice)
    requires Inv(cfg, s) && Next(cfg, s, IsrGo(c)).Some?
    ensures Inv(cfg, Next(cfg, s, IsrGo(c)).value)
  {
    var s' := Next(cfg, s, IsrGo(c)).value;
    if s.sh.inFw {
      assert ThreadOk(cfg, s.sh, s.sh.mutex.value, s.th[s.sh.mutex.value]);
    }
    IsrErrors(cfg, s.sh, c);
    IsrConserved(cfg, s.sh, c, s.th[WORKER]);
    IsrFrame(cfg, s.sh, c);
    forall t | 0 <= t < |s.th| ensures ThreadOk(cfg, s'.sh, t, s.th[t]) {
      IsrLocal(cfg, s.sh, c, t, s.th[t]);
    }
  }

  lemma FireKeeps(cfg: Config, s: State)
    requires Inv(cfg, s) && Next(cfg, s, Fire).Some?
    ensures Inv(cfg, Next(cfg, s, Fire).value)
  {
    var s' := Next(cfg, s, Fire).value;
    forall u | 0 <= u < |s.th| ensures ThreadOk(cfg, s'.sh, u, s.th[u]) {
      assert ThreadOk(cfg, s.sh, u, s.th[u]) && ThreadOk(cfg, s.sh, PM, s.th[PM]);
      if s.sh.mutex.Some? { assert ThreadOk(cfg, s.sh, s.sh.mutex.value, s.th[s.sh.mutex.value]); }
    }
  }

  /** A closing node, a suspend or a resume only changes where one thread stands. */
  lemma MoveKeeps(cfg: Config, s: State, t: nat, pc: Pc)
    requires Inv(cfg, s) && t < |s.th| && t != WORKER
    requires ThreadOk(cfg, s.sh, t, pc) && MaskOf(cfg, pc) == MaskOf(cfg, s.th[t])
    requires !Closing(s.th[t])
    ensures Inv(cfg, s.(th := s.th[t := pc]))
  {
    var s' := s.(th := s.th[t := pc]);
    assert HolderMask(cfg, s') == HolderMask(cfg, s);
    if Attempt(s.th[WORKER]) && s.sh.work.openers == {} {
      var u :| 0 <= u < |s.th| && Closing(s.th[u]);
      assert Closing(s'.th[u]);
    }
  }

  lemma SpawnKeeps(cfg: Config, s: State, pc: Pc)
    requires Inv(cfg, s) && UserStart(pc)
    ensures Inv(cfg, s.(th := s.th + [pc]))
  {
    var s' := s.(th := s.th + [pc]);
    assert HolderMask(cfg, s') == HolderMask(cfg, s);
    assert ThreadOk(cfg, s.sh, |s.th|, pc);
    if Attempt(s.th[WORKER]) && s.sh.work.openers == {} {
      var u :| 0 <= u < |s.th| && Closing(s.th[u]);
      assert Closing(s'.th[u]);
    }
  }

  lemma ArrivalKeeps(cfg: Config, s: State, step: Step)
    requires Inv(cfg, s) && !step.IsrGo? && !step.ThreadGo? && Next(cfg, s, step).Some?
    ensures Inv(cfg, Next(cfg, s, step).value)
  {
    assert ThreadOk(cfg, s.sh, PM, s.th[PM]);
    match step
    case Fire => FireKeeps(cfg, s);
    case Spawn(pc) => SpawnKeeps(cfg, s, pc);
    case Close(t) => assert ThreadOk(cfg, s.sh, t, s.th[t]); MoveKeeps(cfg, s, t, Node(CloseDec));
    case Suspend => MoveKeeps(cfg, s, PM, Pm(PmStart));
    case Resume => MoveKeeps(cfg, s, PM, Wake(Power));
  }

  lemma StepKeeps(cfg: Config, s: State, step: Step)
    requires Inv(cfg, s) && Next(cfg, s, step).Some?
    ensures Inv(cfg, Next(cfg, s, step).value)
  {
    match step
    case IsrGo(c) => IsrKeeps(cfg, s, c);
    case ThreadGo(t, c) => ThreadKeeps(cfg, s, t, c);
    case _ => ArrivalKeeps(cfg, s, step);
  }

  lemma {:induction false} RunKeeps(cfg: Config, s: State, steps: seq<Step>)
    requires Inv(cfg, s) && Run(cfg, s, steps).Some?
    ensures Inv(cfg, Run(cfg, s, steps).value)
    decreases |steps|
  {
    if steps != [] {
      StepKeeps(cfg, s, steps[0]);
      RunKeeps(cfg, Next(cfg, s, steps[0]).value, steps[1..]);
    }
  }
}
