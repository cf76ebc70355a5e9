/** The driver's counters as exact counts over runs: reads, emissions, recoveries. */
module ProtocolCounts {
  import opened Policy
  import opened Protocol
  import opened ProtocolInvariant
  import opened ProtocolTheorems

  // ---------- what is counted ----------

  /** A report is read successfully, or not. */
  predicate ReadsOk(s: State, step: Step) {
    step.IsrGo? && s.sh.isr == ICall && step.c.status == 0
  }

  predicate ReadFails(s: State, step: Step) {
    step.IsrGo? && s.sh.isr == ICall && step.c.status != 0
  }

  /** A report reaches the input devices, which then show what it says. */
  predicate Emits(s: State, step: Step, s': State) {
    step.IsrGo? && s.sh.isr == IEmit && s'.sh.dev.inputs == step.c.inputs
  }

  /** The last bus call of an automatic recovery, after which it returns 0. */
  predicate RecoversOk(s: State, step: Step) {
    step.ThreadGo? && step.t < |s.th| && s.th[step.t] == Rec(Auto, Restore) && step.c.status == 0
  }

  datatype Tally = Tally(received: nat, failures: nat, emissions: nat, recovered: nat)

  function One(b: bool): nat {
    if b then 1 else 0
  }

  function TallyOf(s: State, step: Step, s': State): Tally {
    Tally(One(ReadsOk(s, step)), One(ReadFails(s, step)), One(Emits(s, step, s')), One(RecoversOk(s, step)))
  }

  function Add(a: Tally, b: Tally): Tally {
    Tally(a.received + b.received, a.failures + b.failures, a.emissions + b.emissions, a.recovered + b.recovered)
  }

  /** How often each happened in a run. */
  function Counted(cfg: Config, s: State, steps: seq<Step>): Tally
    requires Run(cfg, s, steps).Some?
    decreases |steps|
  {
    if steps == [] then Tally(0, 0, 0, 0) else
    var s' := Next(cfg, s, steps[0]).value;
    Add(TallyOf(s, steps[0], s'), Counted(cfg, s', steps[1..]))
  }

  // ---------- and how it is accounted for ----------

  /** A report read but not emitted yet; not counted yet. */
  function Unemitted(isr: IsrPc): nat {
    One(isr == ISucceeded || isr == ICounted || isr == IEmit)
  }

  function Uncounted(isr: IsrPc): nat {
    One(isr == ISucceeded || isr == ICounted)
  }

  /** A recovery that returns 0 but is not counted yet. */
  function Returning(s: State): nat {
    One(|s.th| > WORKER && s.th[WORKER] == Rec(Auto, Returned(0)))
  }

  ghost predicate Accounts(s: State, n: Tally, s': State) {
    && n.received + Unemitted(s.sh.isr) == n.emissions + Unemitted(s'.sh.isr)
    && s.sh.count.reports + n.received + Uncounted(s.sh.isr) == s'.sh.count.reports + Uncounted(s'.sh.isr)
    && s'.sh.count.failed == s.sh.count.failed + n.failures
    && s.sh.count.recoveries + n.recovered + Returning(s) == s'.sh.count.recoveries + Returning(s')
  }

  lemma IsrAccounts(cfg: Config, s: State, c: Choice)
    requires Inv(cfg, s) && Next(cfg, s, IsrGo(c)).Some?
    ensures var s' := Next(cfg, s, IsrGo(c)).value; Accounts(s, TallyOf(s, IsrGo(c), s'), s')
  {
    hide Inv;
  }

  /** A thread leaves the reads alone, and the worker's recovery is counted as it returns. */
  lemma ThreadCountsOn(cfg: Config, sh: Shared, t: nat, pc: Pc, c: Choice)
    requires Exec(cfg, sh, t, pc, c).Go?
    ensures var e := Exec(cfg, sh, t, pc, c);
      && e.sh.isr == sh.isr && e.sh.count.reports == sh.count.reports && e.sh.count.failed == sh.count.failed
      && sh.count.recoveries + One(pc == Rec(Auto, Restore) && c.status == 0) + One(pc == Rec(Auto, Returned(0)))
         == e.sh.count.recoveries + One(e.pc == Rec(Auto, Returned(0)))
  {
    match pc
    case Rec(op, r) => hide NodeExec, WorkExec, CalExec, FwExec, PmExec, WakeExec;
    case Pm(p) => hide NodeExec, WorkExec, RecExec, CalExec, FwExec, WakeExec;
    case Wake(v) => hide NodeExec, WorkExec, RecExec, CalExec, FwExec, PmExec;
    case Cal(op, k) => hide NodeExec, WorkExec, RecExec, FwExec, PmExec, WakeExec;
    case Fw(f) => hide NodeExec, WorkExec, RecExec, CalExec, PmExec, WakeExec;
    case _ => hide RecExec, CalExec, FwExec, PmExec, WakeExec;
  }

  lemma OnlyWorkerRecovers(cfg: Config, s: State, t: nat)
    requires Inv(cfg, s) && t < |s.th|
    ensures Role(t, s.th[t]) && |s.th| > WORKER
    ensures t != WORKER ==> !(s.th[t].Rec? && s.th[t].op == Auto)
  {
    assert ThreadOk(cfg, s.sh, t, s.th[t]);
  }

  lemma ThreadAccounts(cfg: Config, s: State, t: nat, c: Choice)
    requires Inv(cfg, s) && Next(cfg, s, ThreadGo(t, c)).Some?
    ensures var s' := Next(cfg, s, ThreadGo(t, c)).value; Accounts(s, TallyOf(s, ThreadGo(t, c), s'), s')
  {
    StepKeeps(cfg, s, ThreadGo(t, c));
    OnlyWorkerRecovers(cfg, s, t);
    OnlyWorkerRecovers(cfg, Next(cfg, s, ThreadGo(t, c)).value, t);
    ThreadCountsOn(cfg, s.sh, t, s.th[t], c);
    hide Inv, Exec;
  }

  lemma ArrivalAccounts(cfg: Config, s: State, step: Step)
    requires Inv(cfg, s) && !step.IsrGo? && !step.ThreadGo? && Next(cfg, s, step).Some?
    ensures var s' := Next(cfg, s, step).value; Accounts(s, TallyOf(s, step, s'), s')
  {
    OnlyWorkerRecovers(cfg, s, WORKER);
    hide Exec;
  }

  lemma AccountsCompose(s: State, a: Tally, s': State, b: Tally, s'': State)
    requires Accounts(s, a, s') && Accounts(s', b, s'')
    ensures Accounts(s, Add(a, b), s'')
  {
    hide Unemitted, Uncounted, Returning;
  }

  lemma {:induction false} RunAccounts(cfg: Config, s: State, steps: seq<Step>)
    requires Inv(cfg, s) && Run(cfg, s, steps).Some?
    ensures Accounts(s, Counted(cfg, s, steps), Run(cfg, s, steps).value)
    decreases |steps|
  {
    hide Inv, Next;
    if steps == [] {
      assert Run(cfg, s, steps).value == s && Counted(cfg, s, steps) == Tally(0, 0, 0, 0);
    } else {
      var s' := Next(cfg, s, steps[0]).value;
      StepKeeps(cfg, s, steps[0]);
      StepAccounts(cfg, s, steps[0]);
      RunAccounts(cfg, s', steps[1..]);
      hide Accounts;
      AccountsCompose(s, TallyOf(s, steps[0], s'), s', Counted(cfg, s', steps[1..]),
        Run(cfg, s', steps[1..]).value);
    }
  }

  lemma StepAccounts(cfg: Config, s: State, step: Step)
    requires Inv(cfg, s) && Next(cfg, s, step).Some?
    ensures var s' := Next(cfg, s, step).value; Accounts(s, TallyOf(s, step, s'), s')
  {
    hide Inv, Next, Accounts;
    match step
    case IsrGo(c) => IsrAccounts(cfg, s, c);
    case ThreadGo(t, c) => ThreadAccounts(cfg, s, t, c);
    case _ => ArrivalAccounts(cfg, s, step);
  }

  /** In every run each successful read is emitted, with what it says, and counted as a report, except
      one still on its way; every failed read is one of the failures; and the recoveries shown are
      the automatic recoveries that returned 0, except one just returning. */
  lemma CountersAreExact(cfg: Config, steps: seq<Step>)
    requires Run(cfg, START, steps).Some?
    ensures var s := Run(cfg, START, steps).value; var n := Counted(cfg, START, steps);
      && n.received == n.emissions + Unemitted(s.sh.isr)
      && n.received == s.sh.count.reports + Uncounted(s.sh.isr)
      && n.failures == s.sh.count.failed
      && n.recovered == s.sh.count.recoveries + Returning(s)
  {
    hide Inv, Next, Run, Counted;
    StartInv(cfg);
    RunAccounts(cfg, START, steps);
  }
}
