/** Concrete runs: building a reachable state step by step. */
module ProtocolRuns {
  import opened Policy
  import opened Protocol

  const OK := Choice(0, false, false, ALL_UP)
  const FAIL := Choice(-1, false, false, ALL_UP)
  const EARLY := Choice(0, true, false, ALL_UP)

  lemma {:induction false} RunAppend(cfg: Config, s: State, a: seq<Step>, b: seq<Step>)
    requires Run(cfg, s, a).Some?
    ensures Run(cfg, s, a + b) == Run(cfg, Run(cfg, s, a).value, b)
    decreases |a|
  {
    if a == [] {
      assert a + b == b;
    } else {
      assert (a + b)[1..] == a[1..] + b;
      RunAppend(cfg, Next(cfg, s, a[0]).value, a[1..], b);
    }
  }

  ghost predicate Reachable(cfg: Config, s: State) {
    exists steps :: Run(cfg, START, steps) == Some(s)
  }

  lemma Reach(cfg: Config, s: State, step: Step, s': State)
    requires Reachable(cfg, s) && Next(cfg, s, step) == Some(s')
    ensures Reachable(cfg, s')
  {
    var steps :| Run(cfg, START, steps) == Some(s);
    RunAppend(cfg, START, steps, [step]);
    assert [step][1..] == [];
    assert Run(cfg, s', []) == Some(s');
    assert Run(cfg, START, steps + [step]) == Some(s');
  }

  lemma IsrGoes(cfg: Config, s: State, c: Choice, sh: Shared)
    requires Reachable(cfg, s) && IsrExec(cfg, s.sh, c) == Some(sh)
    ensures Reachable(cfg, State(sh, s.th))
  {
    Reach(cfg, s, IsrGo(c), State(sh, s.th));
  }

  lemma ThreadGoes(cfg: Config, s: State, t: nat, c: Choice, sh: Shared, pc: Pc)
    requires Reachable(cfg, s) && t < |s.th| && Exec(cfg, s.sh, t, s.th[t], c) == Go(sh, pc)
    ensures Reachable(cfg, State(sh, s.th[t := pc]))
  {
    Reach(cfg, s, ThreadGo(t, c), State(sh, s.th[t := pc]));
  }
}
