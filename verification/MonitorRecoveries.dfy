/** The monitor against the kernel's recovery counter, for one controller: how many rebinds the
    kernel's recoveries can cause. The counter grows by one at each automatic recovery and is zero
    again after the driver is bound anew. */
module MonitorRecoveries {
  import opened Policy
  import opened Consumer
  import opened Monitor

  /** `counter` is what the driver holds, `recoveries` how often it ever recovered by itself, and
      `attempts` how often the monitor has rebound the controller for that. */
  datatype Env = Env(monitor: State, counter: nat, recoveries: nat, attempts: nat)

  /** During a pass the driver may recover again between the scan and the rebind. */
  datatype Action = Recovered | Reprobed | Pass(w: World, during: nat)

  function KernelAttempts(attempts: seq<Attempt>, id: string): nat {
    if attempts == [] then 0
    else KernelAttempts(attempts[..|attempts| - 1], id)
         + if attempts[|attempts| - 1].trigger == KernelRecovery && attempts[|attempts| - 1].id == id then 1 else 0
  }

  ghost predicate Rebound(attempts: seq<Attempt>, id: string) {
    exists a :: a in attempts && a.id == id && a.ok
  }

  ghost predicate DistinctIds(controllers: seq<Controller>) {
    forall i, j :: 0 <= i < j < |controllers| ==> controllers[i].id != controllers[j].id
  }

  /** A scan that reports the controller reports the driver's counter, or could not read it. */
  ghost predicate Honest(controllers: seq<Controller>, id: string, counter: nat) {
    && DistinctIds(controllers)
    && forall c :: c in controllers && c.id == id && c.count.Some? ==> c.count.value == counter
  }

  ghost function Next(e: Env, a: Action, id: string): Env {
    match a
    case Recovered => e.(counter := e.counter + 1, recoveries := e.recoveries + 1)
    case Reprobed => e.(counter := 0)
    case Pass(w, during) =>
      var o := Passed(e.monitor, w);
      Env(o.state, if Rebound(o.attempts, id) then 0 else e.counter + during, e.recoveries + during,
          e.attempts + KernelAttempts(o.attempts, id))
  }

  ghost predicate Possible(e: Env, actions: seq<Action>, id: string)
    decreases |actions|
  {
    actions != [] ==>
      && (actions[0].Pass? && actions[0].w.scan.Some? ==> Honest(actions[0].w.scan.value, id, e.counter))
      && Possible(Next(e, actions[0], id), actions[1..], id)
  }

  ghost function After(e: Env, actions: seq<Action>, id: string): Env
    decreases |actions|
  {
    if actions == [] then e else After(Next(e, actions[0], id), actions[1..], id)
  }

  // ---------- the conserved quantity ----------

  /** Recoveries the monitor has yet to notice. */
  function Unseen(seen: Seen, id: string, counter: nat): nat {
    if counter > Last(seen, id) then counter - Last(seen, id) else 0
  }

  function Pending(e: Env, id: string): nat {
    Unseen(e.monitor.seen, id, e.counter)
  }

  lemma {:induction false} KernelAttemptsAppend(a: seq<Attempt>, b: seq<Attempt>, id: string)
    ensures KernelAttempts(a + b, id) == KernelAttempts(a, id) + KernelAttempts(b, id)
  {
    if b == [] {
      assert a + b == a;
    } else {
      assert (a + b)[..|a + b| - 1] == a + b[..|b| - 1];
      KernelAttemptsAppend(a, b[..|b| - 1], id);
    }
  }

  lemma {:induction false} NoKernelAttempts(attempts: seq<Attempt>, id: string)
    requires forall a :: a in attempts ==> a.trigger == ConsumerStall || a.id != id
    ensures KernelAttempts(attempts, id) == 0
  {
    if attempts != [] {
      NoKernelAttempts(attempts[..|attempts| - 1], id);
    }
  }

  lemma {:induction false} OthersLeaveItAlone(seen: Seen, controllers: seq<Controller>, now: nat, id: string)
    requires forall c :: c in controllers ==> c.id != id
    ensures var noticed := NoticeAll(seen, controllers, now);
      Last(noticed.seen, id) == Last(seen, id) && forall a :: a in noticed.attempts ==> a.id != id
    decreases |controllers|
  {
    if controllers != [] {
      OthersLeaveItAlone(Notice(seen, controllers[0], now).seen, controllers[1..], now, id);
    }
  }

  /** Exactly one attempt, and exactly when the scan shows a count above the last one marked. */
  lemma {:induction false} NoticesExactly(seen: Seen, controllers: seq<Controller>, now: nat, i: nat)
    requires DistinctIds(controllers) && i < |controllers|
    ensures var c := controllers[i]; var noticed := NoticeAll(seen, controllers, now);
      var grown := c.count.Some? && c.count.value > Last(seen, c.id);
      && KernelAttempts(noticed.attempts, c.id) == (if grown then 1 else 0)
      && (Rebound(noticed.attempts, c.id) <==> grown && c.rebinds)
      && Last(noticed.seen, c.id) == (if c.count.None? then Last(seen, c.id) else if grown && c.rebinds then 0 else c.count.value)
    decreases |controllers|
  {
    var c := controllers[i];
    var first := Notice(seen, controllers[0], now);
    var rest := NoticeAll(first.seen, controllers[1..], now);
    KernelAttemptsAppend(first.attempts, rest.attempts, c.id);
    if i == 0 {
      forall other | other in controllers[1..] ensures other.id != c.id {
        var j :| 0 <= j < |controllers[1..]| && controllers[1..][j] == other;
        assert controllers[j + 1] == other;
      }
      OthersLeaveItAlone(first.seen, controllers[1..], now, c.id);
      NoKernelAttempts(rest.attempts, c.id);
      OneAttempt(first.attempts, c.id);
    } else {
      assert controllers[0].id != c.id;
      assert controllers[1..][i - 1] == c;
      NoticesExactly(first.seen, controllers[1..], now, i - 1);
      NoKernelAttempts(first.attempts, c.id);
    }
    ReboundAppend(first.attempts, rest.attempts, c.id);
  }

  lemma OneAttempt(attempts: seq<Attempt>, id: string)
    requires |attempts| <= 1
    ensures KernelAttempts(attempts, id)
         == if attempts != [] && attempts[0].trigger == KernelRecovery && attempts[0].id == id then 1 else 0
    ensures Rebound(attempts, id) <==> attempts != [] && attempts[0].id == id && attempts[0].ok
  {
    if attempts != [] {
      assert attempts[..0] == [] && attempts[0] in attempts;
    }
  }

  lemma ReboundAppend(a: seq<Attempt>, b: seq<Attempt>, id: string)
    ensures Rebound(a + b, id) <==> Rebound(a, id) || Rebound(b, id)
  {
    if Rebound(a, id) {
      var x :| x in a && x.id == id && x.ok;
      assert x in a + b;
    }
    if Rebound(b, id) {
      var x :| x in b && x.id == id && x.ok;
      assert x in a + b;
    }
  }

  /** The kernel half of a pass spends what it notices. */
  lemma NoticeSpends(seen: Seen, controllers: seq<Controller>, now: nat, id: string, counter: nat)
    requires Honest(controllers, id, counter)
    ensures var noticed := NoticeAll(seen, controllers, now);
      KernelAttempts(noticed.attempts, id) + (if Rebound(noticed.attempts, id) then 0 else Unseen(noticed.seen, id, counter))
      <= Unseen(seen, id, counter)
  {
    var noticed := NoticeAll(seen, controllers, now);
    if c :| c in controllers && c.id == id {
      var i :| 0 <= i < |controllers| && controllers[i] == c;
      NoticesExactly(seen, controllers, now, i);
    } else {
      OthersLeaveItAlone(seen, controllers, now, id);
      NoKernelAttempts(noticed.attempts, id);
    }
  }

  /** The other half makes no kernel-triggered attempt, and forgets a count only with the device. */
  lemma WatchSpendsNothing(s: State, controllers: seq<Controller>, w: World, id: string)
    ensures var o := Watch(s, controllers, w);
      KernelAttempts(o.attempts, id) == 0 && (Rebound(o.attempts, id) || Last(o.state.seen, id) == Last(s.seen, id))
  {
    var o := Watch(s, controllers, w);
    OneAttempt(o.attempts, id);
  }

  /** What a whole pass does to one controller's count is what its kernel half does. */
  lemma PassIsNotice(s: State, w: World, id: string)
    requires w.scan.Some?
    ensures var noticed := NoticeAll(s.seen, w.scan.value, w.now); var o := Passed(s, w);
      && KernelAttempts(o.attempts, id) == KernelAttempts(noticed.attempts, id)
      && (Rebound(noticed.attempts, id) ==> Rebound(o.attempts, id))
      && (Rebound(o.attempts, id) || Last(o.state.seen, id) == Last(noticed.seen, id))
  {
    var noticed := NoticeAll(s.seen, w.scan.value, w.now);
    var ok := AnyOk(noticed.attempts);
    var cooldown := if ok then Some(w.now + RECOVERY_COOLDOWN) else s.cooldownUntil;
    if !ok && !Cooling(cooldown, w.now) {
      var next := State(noticed.seen, s.since, s.watched, cooldown);
      WatchSpendsNothing(next, w.scan.value, w, id);
      var o := Watch(next, w.scan.value, w);
      KernelAttemptsAppend(noticed.attempts, o.attempts, id);
      ReboundAppend(noticed.attempts, o.attempts, id);
    }
  }

  /** A whole pass spends what it notices. */
  lemma PassSpendsCount(s: State, w: World, id: string, counter: nat)
    requires w.scan.Some? ==> Honest(w.scan.value, id, counter)
    ensures var o := Passed(s, w);
      KernelAttempts(o.attempts, id) + (if Rebound(o.attempts, id) then 0 else Unseen(o.state.seen, id, counter))
      <= Unseen(s.seen, id, counter)
  {
    if w.scan.Some? {
      NoticeSpends(s.seen, w.scan.value, w.now, id, counter);
      PassIsNotice(s, w, id);
    } else {
      OneAttempt([], id);
    }
  }

  lemma SpentIsPaid(e: Env, o: Outcome, during: nat, id: string)
    requires KernelAttempts(o.attempts, id) + (if Rebound(o.attempts, id) then 0 else Unseen(o.state.seen, id, e.counter))
          <= Pending(e, id)
    ensures var f := Env(o.state, if Rebound(o.attempts, id) then 0 else e.counter + during, e.recoveries + during,
                         e.attempts + KernelAttempts(o.attempts, id));
      f.attempts + Pending(f, id) <= e.attempts + Pending(e, id) + during
  {
  }

  lemma PassSpends(e: Env, w: World, during: nat, id: string)
    requires w.scan.Some? ==> Honest(w.scan.value, id, e.counter)
    ensures var f := Next(e, Pass(w, during), id);
      f.attempts + Pending(f, id) <= e.attempts + Pending(e, id) + during
  {
    PassSpendsCount(e.monitor, w, id, e.counter);
    SpentIsPaid(e, Passed(e.monitor, w), during, id);
  }

  /** Over any stretch of any run, attempts are paid for by recoveries made in that stretch or
      still unnoticed at its start. */
  lemma {:induction false} AttemptsArePaidFor(e: Env, actions: seq<Action>, id: string)
    requires Possible(e, actions, id)
    ensures var f := After(e, actions, id);
      f.attempts + Pending(f, id) + e.recoveries <= e.attempts + Pending(e, id) + f.recoveries
    decreases |actions|
  {
    if actions != [] {
      if actions[0].Pass? {
        PassSpends(e, actions[0].w, actions[0].during, id);
      }
      AttemptsArePaidFor(Next(e, actions[0], id), actions[1..], id);
    }
  }

  /** In any run, kernel-triggered rebinds of a controller never outnumber its recoveries. */
  lemma AtMostOncePerRecovery(recovered: nat, actions: seq<Action>, id: string)
    requires Possible(Env(INITIAL, recovered, recovered, 0), actions, id)
    ensures var f := After(Env(INITIAL, recovered, recovered, 0), actions, id); f.attempts <= f.recoveries
  {
    AttemptsArePaidFor(Env(INITIAL, recovered, recovered, 0), actions, id);
  }

  predicate Quiet(actions: seq<Action>) {
    forall i :: 0 <= i < |actions| ==> actions[i] != Recovered && (actions[i].Pass? ==> actions[i].during == 0)
  }

  lemma {:induction false} QuietMeansNoRecoveries(e: Env, actions: seq<Action>, id: string)
    requires Quiet(actions)
    ensures After(e, actions, id).recoveries == e.recoveries && After(e, actions, id).attempts >= e.attempts
    decreases |actions|
  {
    if actions != [] {
      QuietMeansNoRecoveries(Next(e, actions[0], id), actions[1..], id);
    }
  }

  /** A pass that saw the counter leaves nothing pending, so whatever its rebind came to, the
      monitor does not try again until the driver recovers again. */
  lemma FailedRebindIsNotRetried(e: Env, w: World, later: seq<Action>, id: string)
    requires Possible(e, [Pass(w, 0)] + later, id) && Quiet(later)
    requires KernelAttempts(Passed(e.monitor, w).attempts, id) > 0
    ensures After(e, [Pass(w, 0)] + later, id).attempts == e.attempts + 1
  {
    var all := [Pass(w, 0)] + later;
    assert all[1..] == later;
    var f := Next(e, Pass(w, 0), id);
    NothingPending(e, w, id);
    AttemptsArePaidFor(f, later, id);
    QuietMeansNoRecoveries(f, later, id);
  }

  function Recoveries(n: nat): seq<Action> {
    seq(n, _ => Recovered)
  }

  lemma {:induction false} Recovering(e: Env, n: nat, later: seq<Action>, id: string)
    ensures After(e, Recoveries(n) + later, id)
         == After(e.(counter := e.counter + n, recoveries := e.recoveries + n), later, id)
    ensures Possible(e, Recoveries(n) + later, id)
         == Possible(e.(counter := e.counter + n, recoveries := e.recoveries + n), later, id)
    decreases n
  {
    if n == 0 {
      assert Recoveries(n) + later == later;
    } else {
      var all := Recoveries(n) + later;
      assert all[1..] == Recoveries(n - 1) + later;
      Recovering(Next(e, Recovered, id), n - 1, later, id);
    }
  }

  /** The driver after a re-probe and n recoveries. */
  function Afresh(e: Env, n: nat): Env {
    e.(counter := n, recoveries := e.recoveries + n)
  }

  lemma ReprobedAndRecovered(e: Env, n: nat, later: seq<Action>, id: string)
    ensures After(e, [Reprobed] + Recoveries(n) + later, id) == After(Afresh(e, n), later, id)
    ensures Possible(e, [Reprobed] + Recoveries(n) + later, id) == Possible(Afresh(e, n), later, id)
  {
    var all := [Reprobed] + Recoveries(n) + later;
    assert all[1..] == Recoveries(n) + later;
    Recovering(Next(e, Reprobed, id), n, later, id);
  }

  /** The other direction has a gap.  After a re-probe that no scan saw, n new recoveries go
      unnoticed by the scan that next reads the counter exactly when they bring it no higher than
      the count last marked. */
  lemma ReprobeHidesExactly(e: Env, n: nat, w: World, i: nat, id: string)
    requires Possible(e, [Reprobed] + Recoveries(n) + [Pass(w, 0)], id)
    requires w.scan.Some? && i < |w.scan.value| && w.scan.value[i].id == id && w.scan.value[i].count.Some?
    ensures After(e, [Reprobed] + Recoveries(n) + [Pass(w, 0)], id).attempts == e.attempts
       <==> n <= Last(e.monitor.seen, id)
  {
    var f := Afresh(e, n);
    ReprobedAndRecovered(e, n, [Pass(w, 0)], id);
    assert [Pass(w, 0)][1..] == [];
    assert w.scan.value[i] in w.scan.value;
    NoticesExactly(f.monitor.seen, w.scan.value, w.now, i);
    PassIsNotice(f.monitor, w, id);
  }

  /** And then they cause no rebind at all, until the driver recovers again. */
  lemma HiddenForGood(e: Env, n: nat, later: seq<Action>, id: string)
    requires n <= Last(e.monitor.seen, id) && Quiet(later)
    requires Possible(e, [Reprobed] + Recoveries(n) + later, id)
    ensures var f := After(e, [Reprobed] + Recoveries(n) + later, id);
      f.recoveries == e.recoveries + n && f.attempts == e.attempts
  {
    ReprobedAndRecovered(e, n, later, id);
    AttemptsArePaidFor(Afresh(e, n), later, id);
    QuietMeansNoRecoveries(Afresh(e, n), later, id);
  }

  lemma NothingPending(e: Env, w: World, id: string)
    requires w.scan.Some? ==> Honest(w.scan.value, id, e.counter)
    requires KernelAttempts(Passed(e.monitor, w).attempts, id) > 0
    ensures var f := Next(e, Pass(w, 0), id); Pending(f, id) == 0 && f.attempts == e.attempts + 1
  {
    FailedScan(e.monitor, w, id);
    PassIsNotice(e.monitor, w, id);
    NoticedMeansMarked(e.monitor.seen, w.scan.value, w.now, id, e.counter);
  }

  lemma FailedScan(s: State, w: World, id: string)
    ensures w.scan.None? ==> KernelAttempts(Passed(s, w).attempts, id) == 0
  {
  }

  lemma NoticedMeansMarked(seen: Seen, controllers: seq<Controller>, now: nat, id: string, counter: nat)
    requires Honest(controllers, id, counter)
    requires KernelAttempts(NoticeAll(seen, controllers, now).attempts, id) > 0
    ensures var noticed := NoticeAll(seen, controllers, now);
      KernelAttempts(noticed.attempts, id) == 1 && (Rebound(noticed.attempts, id) || Last(noticed.seen, id) == counter)
  {
    var i := Noticeable(seen, controllers, now, id);
    assert controllers[i] in controllers;
    NoticesExactly(seen, controllers, now, i);
  }

  lemma Noticeable(seen: Seen, controllers: seq<Controller>, now: nat, id: string) returns (i: nat)
    requires KernelAttempts(NoticeAll(seen, controllers, now).attempts, id) > 0
    ensures i < |controllers| && controllers[i].id == id
  {
    if forall c :: c in controllers ==> c.id != id {
      OthersLeaveItAlone(seen, controllers, now, id);
      NoKernelAttempts(NoticeAll(seen, controllers, now).attempts, id);
      assert false;
    }
    i :| 0 <= i < |controllers| && controllers[i].id == id;
  }

  // ---------- starting over ----------

  lemma {:induction false} NoticedSeen(seen: Seen, controllers: seq<Controller>, now: nat, id: string)
    requires DistinctIds(controllers) && Rebound(NoticeAll(seen, controllers, now).attempts, id)
    ensures Last(NoticeAll(seen, controllers, now).seen, id) == 0
  {
    if i :| 0 <= i < |controllers| && controllers[i].id == id {
      NoticesExactly(seen, controllers, now, i);
    } else {
      OthersLeaveItAlone(seen, controllers, now, id);
    }
  }

  lemma WatchStartsOver(s: State, controllers: seq<Controller>, w: World, id: string)
    ensures var o := Watch(s, controllers, w);
      Last(o.state.seen, id) == if Rebound(o.attempts, id) then 0 else Last(s.seen, id)
  {
    OneAttempt(Watch(s, controllers, w).attempts, id);
  }

  /** After a successful rebind of either kind the monitor remembers nothing of the controller. */
  lemma ReboundStartsOver(s: State, w: World, id: string)
    requires w.scan.Some? ==> DistinctIds(w.scan.value)
    requires Rebound(Passed(s, w).attempts, id)
    ensures Last(Passed(s, w).state.seen, id) == 0
  {
    if w.scan.Some? {
      var noticed := NoticeAll(s.seen, w.scan.value, w.now);
      if Rebound(noticed.attempts, id) { NoticedSeen(s.seen, w.scan.value, w.now, id); }
      if !AnyOk(noticed.attempts) && !Cooling(s.cooldownUntil, w.now) {
        var next := State(noticed.seen, s.since, s.watched, s.cooldownUntil);
        var o := Watch(next, w.scan.value, w);
        WatchStartsOver(next, w.scan.value, w, id);
        ReboundAppend(noticed.attempts, o.attempts, id);
      }
    }
  }

  /** So after it the next recovery is noticed by the first scan that reads the counter, however
      often the driver had recovered before. */
  lemma NoticedAfterRebind(e: Env, first: World, n: nat, w: World, i: nat, id: string)
    requires Possible(e, [Pass(first, 0)] + Recoveries(n) + [Pass(w, 0)], id)
    requires Rebound(Passed(e.monitor, first).attempts, id) && n > 0
    requires w.scan.Some? && i < |w.scan.value| && w.scan.value[i].id == id && w.scan.value[i].count.Some?
    ensures var f := Next(e, Pass(first, 0), id);
      After(e, [Pass(first, 0)] + Recoveries(n) + [Pass(w, 0)], id).attempts == f.attempts + 1
  {
    var all := [Pass(first, 0)] + Recoveries(n) + [Pass(w, 0)];
    assert all[1..] == Recoveries(n) + [Pass(w, 0)];
    var f := Next(e, Pass(first, 0), id);
    FailedScan(e.monitor, first, id);
    ReboundStartsOver(e.monitor, first, id);
    Recovering(f, n, [Pass(w, 0)], id);
    var g := f.(counter := f.counter + n, recoveries := f.recoveries + n);
    assert [Pass(w, 0)][1..] == [];
    assert w.scan.value[i] in w.scan.value;
    NoticesExactly(g.monitor.seen, w.scan.value, w.now, i);
    PassIsNotice(g.monitor, w, id);
  }
}
