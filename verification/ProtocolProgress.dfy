/** Deadlock freedom, and more: without new arrivals everything under way finishes. */
module ProtocolProgress {
  import opened Policy
  import opened Protocol
  import opened ProtocolInvariant

  predicate Idle(pc: Pc) {
    pc == Done || pc == Node(Opened) || pc == Pm(Awake) || pc == Wake(Suspended)
  }

  /** Nothing is under way: the handler is idle, no work is queued, no thread is inside a call. */
  predicate AtRest(s: State) {
    s.sh.isr == IIdle && !s.sh.work.pending && forall t :: 0 <= t < |s.th| ==> Idle(s.th[t])
  }

  /** A step of the handler or of a thread, as opposed to an arrival. */
  predicate Progress(step: Step) {
    step.IsrGo? || step.ThreadGo?
  }

  /** Every bus call fails and nobody is interrupted by a signal. */
  const WORST := Choice(-1, false, false, ALL_UP)

  lemma Runnable(cfg: Config, sh: Shared, t: nat, pc: Pc)
    requires ThreadOk(cfg, sh, t, pc) && sh.isr == IIdle && !Idle(pc)
    requires sh.mutex == Some(t) || (sh.mutex == None && !(Waits(pc) && sh.work.running))
    ensures Exec(cfg, sh, t, pc, WORST).Go?
  {
    match pc
    case Rec(_, _) =>
    case Cal(_, _) =>
    case Fw(_) =>
    case Pm(_) =>
    case Wake(_) =>
    case _ =>
  }

  predicate Waits(pc: Pc) {
    pc == Node(CancelWait) || pc == Pm(PmCancelWait)
  }

  /** Unless the system is at rest, some thread or the handler can take a step, even when every
      bus call fails and no signal arrives: closes and suspends wait for the work item, the work
      item for the mutex, mutex holders for the handler, and nobody waits in a circle. */
  lemma NoDeadlock(cfg: Config, s: State) returns (step: Step)
    requires Inv(cfg, s) && !AtRest(s)
    ensures Progress(step) && step.c == WORST && Next(cfg, s, step).Some?
  {
    assert ThreadOk(cfg, s.sh, WORKER, s.th[WORKER]);
    if s.sh.isr != IIdle {
      step := IsrGo(WORST);
    } else if s.sh.mutex.Some? {
      var o := s.sh.mutex.value;
      assert ThreadOk(cfg, s.sh, o, s.th[o]);
      Runnable(cfg, s.sh, o, s.th[o]);
      step := ThreadGo(o, WORST);
    } else if s.sh.work.running || s.sh.work.pending {
      if s.th[WORKER] != Done { Runnable(cfg, s.sh, WORKER, s.th[WORKER]); }
      step := ThreadGo(WORKER, WORST);
    } else {
      var t :| 0 <= t < |s.th| && !Idle(s.th[t]);
      assert ThreadOk(cfg, s.sh, t, s.th[t]);
      Runnable(cfg, s.sh, t, s.th[t]);
      step := ThreadGo(t, WORST);
    }
  }

  // ---------- everything finishes ----------

  const QUEUED: nat := 33

  function IsrRank(isr: IsrPc): nat {
    match isr
    case IIdle => 0
    case IEmit => 1
    case ICounted => 2
    case ISucceeded => 3
    case IQueue => QUEUED + 1
    case IStored(_) => QUEUED + 2
    case ILoaded(_) => QUEUED + 3
    case IFailed => QUEUED + 4
    case ICall => QUEUED + 5
    case IEntered => QUEUED + 6
  }

  function NodeRank(n: NodePc): nat {
    match n
    case Opened => 0
    case OpenInc => 1
    case CancelWait => 1
    case CancelBegin => 2
    case CloseDec => 3
  }

  function RecRank(r: RecPc): nat {
    match r
    case Returned(_) => 4
    case Restore => 5
    case Ping(left) => 5 + left
    case Initialize(left) => 8 + left
    case ResetErrors => 12
    case Release => 13
  }

  function CalRank(k: CalPc): nat {
    match k
    case CalExit => 4
    case CalUndo => 4
    case CalClear => 5
    case CalRun(left) => 5 + left
    case CalSet => 27
    case CalEnter => 28
  }

  function FwRank(f: FwPc): nat {
    match f
    case FwClear => 4
    case FwAbort => 5
    case FwInit(left) => 4 + left
    case FwCheck => 8
    case FwSync(_) => 9
    case FwClose(_) => 10
    case FwWait => 11
    case FwOpen => 12
    case FwReinit => 13
    case FwWrite => 14
    case FwMark => 15
  }

  function PmRank(order: SuspendOrder, p: PmPc): nat {
    match p
    case Awake => 0
    case PmLeave(_) => 1
    case PmAbort => 1
    case PmUndo => 2
    case PmSleep => 3
    case PmLock => if order == Patched then 4 else 6
    case PmCancelWait => if order == Patched then 5 else 7
    case PmCancel => if order == Patched then 6 else 8
    case PmSync => if order == Patched then 7 else 4
    case PmMask => if order == Patched then 8 else 5
    case PmStart => 9
  }

  function WakeRank(v: WakePc): nat {
    match v
    case Suspended => 0
    case WakeUnmask => 1
    case SetMode(left) => 3 * left - 1
    case Store(left, _) => 3 * left
    case Try(left) => 3 * left + 1
    case Power => 11
  }

  /** How many steps a thread still has at most before it is idle. */
  function Rank(order: SuspendOrder, pc: Pc): nat {
    match pc
    case Done => 0
    case Node(n) => NodeRank(n)
    case Work(w) => if w == WorkRet then 1 else if w == WorkEval then 31 else 32
    case Unlock(_) => 2
    case Unmask(_) => 3
    case Sync(_) => 29
    case Mask(_) => 30
    case Lock(_) => 31
    case Rec(_, r) => RecRank(r)
    case Cal(_, k) => CalRank(k)
    case Fw(f) => FwRank(f)
    case Pm(p) => PmRank(order, p)
    case Wake(v) => WakeRank(v)
  }

  function SumRank(order: SuspendOrder, th: seq<Pc>): nat {
    if th == [] then 0 else Rank(order, th[0]) + SumRank(order, th[1..])
  }

  function TotalRank(cfg: Config, s: State): nat {
    IsrRank(s.sh.isr) + (if s.sh.work.pending then QUEUED else 0) + SumRank(cfg.order, s.th)
  }

  lemma {:induction false} SumRankUpdate(order: SuspendOrder, th: seq<Pc>, t: nat, pc: Pc)
    requires t < |th|
    ensures SumRank(order, th[t := pc]) == SumRank(order, th) - Rank(order, th[t]) + Rank(order, pc)
  {
    if t == 0 {
      assert th[t := pc][1..] == th[1..];
    } else {
      assert th[t := pc][1..] == th[1..][t - 1 := pc];
      SumRankUpdate(order, th[1..], t - 1, pc);
    }
  }

  /** A step spends rank; a queued work item counts as one whole run of the worker. */
  predicate Falls(order: SuspendOrder, sh: Shared, pc: Pc, e: Effect)
    requires e.Go?
  {
    && e.sh.isr == sh.isr
    && Rank(order, e.pc) + (if e.sh.work.pending then QUEUED else 0)
       < Rank(order, pc) + (if sh.work.pending then QUEUED else 0)
  }

  lemma NodeFalls(cfg: Config, sh: Shared, t: nat, n: NodePc)
    requires NodeExec(sh, t, n).Go?
    ensures Falls(cfg.order, sh, Node(n), NodeExec(sh, t, n))
  {}

  lemma WorkFalls(cfg: Config, sh: Shared, t: nat, w: WorkPc)
    requires WorkExec(sh, t, w).Go?
    ensures Falls(cfg.order, sh, Work(w), WorkExec(sh, t, w))
  {}

  lemma RecFalls(cfg: Config, sh: Shared, t: nat, op: Op, r: RecPc, c: Choice)
    requires RecExec(sh, op, r, c).Go?
    ensures Falls(cfg.order, sh, Rec(op, r), RecExec(sh, op, r, c))
  {}

  lemma CalFalls(cfg: Config, sh: Shared, t: nat, op: Op, k: CalPc, c: Choice)
    requires CalExec(sh, op, k, c).Go?
    ensures Falls(cfg.order, sh, Cal(op, k), CalExec(sh, op, k, c))
  {}

  lemma FwFalls(cfg: Config, sh: Shared, t: nat, f: FwPc, c: Choice)
    requires FwExec(cfg, sh, f, c).Go?
    ensures Falls(cfg.order, sh, Fw(f), FwExec(cfg, sh, f, c))
  {}

  lemma PmFalls(cfg: Config, sh: Shared, t: nat, p: PmPc, c: Choice)
    requires PmExec(cfg, sh, t, p, c).Go?
    requires p.PmAbort? ==> cfg.order == Patched
    ensures Falls(cfg.order, sh, Pm(p), PmExec(cfg, sh, t, p, c))
  {}

  lemma WakeFalls(cfg: Config, sh: Shared, t: nat, v: WakePc, c: Choice)
    requires WakeExec(sh, v, c).Go?
    ensures Falls(cfg.order, sh, Wake(v), WakeExec(sh, v, c))
  {}

  lemma EdgeFalls(cfg: Config, sh: Shared, t: nat, pc: Pc, c: Choice)
    requires Role(t, pc) && Exec(cfg, sh, t, pc, c).Go?
    requires pc.Done? || pc.Lock? || pc.Mask? || pc.Sync? || pc.Unmask? || pc.Unlock?
    ensures Falls(cfg.order, sh, pc, Exec(cfg, sh, t, pc, c))
  {}

  lemma ThreadFalls(cfg: Config, sh: Shared, t: nat, pc: Pc, c: Choice)
    requires ThreadOk(cfg, sh, t, pc) && Exec(cfg, sh, t, pc, c).Go?
    ensures Falls(cfg.order, sh, pc, Exec(cfg, sh, t, pc, c))
  {
    match pc
    case Node(n) => NodeFalls(cfg, sh, t, n);
    case Work(w) => WorkFalls(cfg, sh, t, w);
    case Rec(op, r) => RecFalls(cfg, sh, t, op, r, c);
    case Cal(op, k) => CalFalls(cfg, sh, t, op, k, c);
    case Fw(f) => FwFalls(cfg, sh, t, f, c);
    case Pm(p) => PmFalls(cfg, sh, t, p, c);
    case Wake(v) => WakeFalls(cfg, sh, t, v, c);
    case _ => EdgeFalls(cfg, sh, t, pc, c);
  }

  lemma IsrRankFalls(cfg: Config, sh: Shared, c: Choice)
    requires IsrExec(cfg, sh, c).Some?
    ensures var r := IsrExec(cfg, sh, c).value;
      IsrRank(r.isr) + (if r.work.pending then QUEUED else 0) < IsrRank(sh.isr) + (if sh.work.pending then QUEUED else 0)
  {
  }

  lemma IsrFalls(cfg: Config, s: State, c: Choice)
    requires Inv(cfg, s) && Progress(IsrGo(c)) && Next(cfg, s, IsrGo(c)).Some?
    ensures TotalRank(cfg, Next(cfg, s, IsrGo(c)).value) < TotalRank(cfg, s)
  {
    IsrRankFalls(cfg, s.sh, c);
  }

  lemma RankFalls(cfg: Config, s: State, step: Step)
    requires Inv(cfg, s) && Progress(step) && Next(cfg, s, step).Some?
    ensures TotalRank(cfg, Next(cfg, s, step).value) < TotalRank(cfg, s)
  {
    match step
    case IsrGo(c) => IsrFalls(cfg, s, c);
    case ThreadGo(t, c) =>
      assert ThreadOk(cfg, s.sh, t, s.th[t]);
      ThreadFalls(cfg, s.sh, t, s.th[t], c);
      SumRankUpdate(cfg.order, s.th, t, Exec(cfg, s.sh, t, s.th[t], c).pc);
  }

  predicate AllProgress(steps: seq<Step>) {
    forall i :: 0 <= i < |steps| ==> Progress(steps[i])
  }

  /** However the scheduler and the bus behave, a run without arrivals is bounded. */
  lemma {:induction false} RunsAreBounded(cfg: Config, s: State, steps: seq<Step>)
    requires Inv(cfg, s) && AllProgress(steps) && Run(cfg, s, steps).Some?
    ensures |steps| + TotalRank(cfg, Run(cfg, s, steps).value) <= TotalRank(cfg, s)
    decreases |steps|
  {
    if steps != [] {
      assert Progress(steps[0]);
      StepKeeps(cfg, s, steps[0]);
      RankFalls(cfg, s, steps[0]);
      assert forall i :: 0 <= i < |steps[1..]| ==> steps[1..][i] == steps[i + 1];
      RunsAreBounded(cfg, Next(cfg, s, steps[0]).value, steps[1..]);
    }
  }

  lemma HolderIsNotAtRest(cfg: Config, s: State)
    requires Inv(cfg, s)
    ensures s.sh.mutex.Some? ==> !AtRest(s)
  {
    if s.sh.mutex.Some? {
      assert ThreadOk(cfg, s.sh, s.sh.mutex.value, s.th[s.sh.mutex.value]);
    }
  }

  /** And where it can go no further, every call has returned: the mutex is free, no update is
      marked, the counter is exact, and the interrupt is masked only by a suspend. */
  lemma StuckMeansAtRest(cfg: Config, s: State)
    requires Inv(cfg, s)
    requires forall step :: Progress(step) ==> Next(cfg, s, step).None?
    ensures AtRest(s) && s.sh.mutex.None? && !s.sh.inFw && s.sh.count.errors == s.sh.count.streak % U32
    ensures s.sh.depth == if s.th[PM] == Wake(Suspended) then 1 else 0
  {
    if !AtRest(s) {
      var step := NoDeadlock(cfg, s);
    }
    assert ThreadOk(cfg, s.sh, PM, s.th[PM]);
    HolderIsNotAtRest(cfg, s);
  }
}
