/** One pass of the monitor's loop (src/watch.rs): rebind the controllers whose kernel driver has
    recovered them, then, outside the cooldown, look for a consumer that stopped reading.
    The scan, discovery, polling and the outcome of each rebind are handed in. */
module Monitor {
  import opened Policy
  import opened Consumer

  const REFRESH_INTERVAL := 2000 * MILLISECOND
  const BACKLOG_GRACE := 750 * MILLISECOND
  const RECOVERY_COOLDOWN := 5000 * MILLISECOND

  /** A controller as the scan found it: the recovery counter its watchdog text yielded, its event
      nodes, and whether rebinding it in this pass would succeed, for a kernel recovery and, later
      in the pass, for a stalled consumer. */
  datatype Controller = Controller(id: string, count: Option<nat>, eventNodes: seq<string>, rebinds: bool, stallRebinds: bool)

  /** What the world answers during one pass. A failed scan is None, a failed discovery too. */
  datatype World = World(now: nat, scan: Option<seq<Controller>>, discovered: Option<seq<Key>>, poll: map<Key, Readiness>)

  datatype Trigger = KernelRecovery | ConsumerStall

  datatype Attempt = Attempt(trigger: Trigger, id: string, at: nat, ok: bool)

  // ---------- the recovery counters ----------

  type Seen = map<string, nat>

  function Last(seen: Seen, id: string): nat {
    if id in seen then seen[id] else 0
  }

  class RecoveryObserver {
    var seen: Seen

    constructor ()
      ensures seen == map[]
    {
      seen := map[];
    }

    function Previous(id: string): nat
      reads this
    {
      Last(seen, id)
    }

    method Mark(id: string, recoveries: nat)
      modifies this
      ensures seen == old(seen)[id := recoveries]
    {
      seen := seen[id := recoveries];
    }

    method ObserveRecovery(id: string, recoveries: nat) returns (grown: bool)
      modifies this
      ensures seen == old(seen)[id := recoveries]
      ensures grown <==> recoveries > Last(old(seen), id)
    {
      var previous := Previous(id);
      Mark(id, recoveries);
      grown := recoveries > previous;
    }
  }

  datatype Noticed = Noticed(seen: Seen, attempts: seq<Attempt>)

  function Notice(seen: Seen, c: Controller, now: nat): Noticed {
    if c.count.None? then Noticed(seen, [])
    else if c.count.value > Last(seen, c.id) then
      Noticed(seen[c.id := if c.rebinds then 0 else c.count.value], [Attempt(KernelRecovery, c.id, now, c.rebinds)])
    else Noticed(seen[c.id := c.count.value], [])
  }

  function NoticeAll(seen: Seen, controllers: seq<Controller>, now: nat): Noticed
    decreases |controllers|
  {
    if controllers == [] then Noticed(seen, []) else
    var first := Notice(seen, controllers[0], now);
    var rest := NoticeAll(first.seen, controllers[1..], now);
    Noticed(rest.seen, first.attempts + rest.attempts)
  }

  predicate AnyOk(attempts: seq<Attempt>) {
    exists i :: 0 <= i < |attempts| && attempts[i].ok
  }

  // ---------- a whole pass ----------

  datatype State = State(seen: Seen, since: Since, watched: Watched, cooldownUntil: Option<nat>)

  const INITIAL := State(map[], map[], Watched([], None), None)

  datatype Outcome = Outcome(state: State, attempts: seq<Attempt>)

  predicate Cooling(cooldownUntil: Option<nat>, now: nat) {
    cooldownUntil.Some? && now < cooldownUntil.value
  }

  function Passed(s: State, w: World): Outcome {
    if w.scan.None? then Outcome(s, []) else
    var noticed := NoticeAll(s.seen, w.scan.value, w.now);
    var recovered := AnyOk(noticed.attempts);
    var cooldown := if recovered then Some(w.now + RECOVERY_COOLDOWN) else s.cooldownUntil;
    if recovered || Cooling(cooldown, w.now) then
      Outcome(State(noticed.seen, map[], Watched([], None), cooldown), noticed.attempts)
    else
      var o := Watch(State(noticed.seen, s.since, s.watched, cooldown), w.scan.value, w);
      Outcome(o.state, noticed.attempts + o.attempts)
  }

  /** The half of the pass that looks at the consumers. */
  function Watch(s: State, controllers: seq<Controller>, w: World): Outcome {
    var watched := RefreshedIfDue(s.watched, w.discovered, w.now, REFRESH_INTERVAL);
    if watched.consumers == [] then Outcome(s.(watched := watched), []) else
    var alive := AliveOnes(watched.consumers, w.poll);
    var o := Observed(s.since, w.now, SamplesOf(alive, w.poll), BACKLOG_GRACE);
    var kept := s.(since := o.since, watched := Watched(alive, watched.refreshedAt));
    if o.stalled.None? then Outcome(kept, []) else
    var owner := Owner(controllers, o.stalled.value.eventNode);
    if owner.None? then Outcome(kept, []) else Stalled(kept, owner.value, w.now)
  }

  /** The first controller with that event node. */
  function Owner(controllers: seq<Controller>, node: string): Option<Controller> {
    if controllers == [] then None
    else if node in controllers[0].eventNodes then Some(controllers[0])
    else Owner(controllers[1..], node)
  }

  function Stalled(s: State, c: Controller, now: nat): Outcome {
    Outcome(State(if c.stallRebinds then s.seen[c.id := 0] else s.seen, map[], Watched([], None),
                  if c.stallRebinds then Some(now + RECOVERY_COOLDOWN) else s.cooldownUntil),
            [Attempt(ConsumerStall, c.id, now, c.stallRebinds)])
  }

  class Guardian {
    const observer: RecoveryObserver
    const consumers: ConsumerMonitor
    const backlog: BacklogObserver
    var cooldownUntil: Option<nat>
    var log: seq<Attempt>

    function Abstract(): State
      reads this, observer, consumers, backlog
    {
      State(observer.seen, backlog.readySince, consumers.State(), cooldownUntil)
    }

    ghost predicate Valid() {
      consumers.interval == REFRESH_INTERVAL
    }

    constructor ()
      ensures Valid() && fresh(observer) && fresh(consumers) && fresh(backlog)
      ensures Abstract() == INITIAL && log == []
    {
      observer := new RecoveryObserver();
      consumers := new ConsumerMonitor(REFRESH_INTERVAL);
      backlog := new BacklogObserver();
      cooldownUntil, log := None, [];
    }

    method Rebind(trigger: Trigger, c: Controller, now: nat) returns (ok: bool)
      modifies this`log
      ensures ok == (if trigger == KernelRecovery then c.rebinds else c.stallRebinds) && log == old(log) + [Attempt(trigger, c.id, now, ok)]
    {
      ok := if trigger == KernelRecovery then c.rebinds else c.stallRebinds;
      log := log + [Attempt(trigger, c.id, now, ok)];
    }

    method RebindIfRecovered(c: Controller, now: nat) returns (recovered: bool)
      modifies this, observer
      ensures var noticed := Notice(old(observer.seen), c, now);
        observer.seen == noticed.seen && log == old(log) + noticed.attempts && recovered == AnyOk(noticed.attempts)
      ensures cooldownUntil == if recovered then Some(now + RECOVERY_COOLDOWN) else old(cooldownUntil)
    {
      ghost var noticed := Notice(observer.seen, c, now);
      recovered := false;
      if c.count.None? {
        return;
      }
      var grown := observer.ObserveRecovery(c.id, c.count.value);
      if grown {
        recovered := Rebind(KernelRecovery, c, now);
        assert noticed.attempts[0].ok == recovered;
        if recovered {
          observer.Mark(c.id, 0);
          cooldownUntil := Some(now + RECOVERY_COOLDOWN);
        }
      } else {
        observer.Mark(c.id, c.count.value);
      }
    }

    method RebindRecovered(controllers: seq<Controller>, now: nat) returns (recovered: bool)
      modifies this, observer
      ensures var noticed := NoticeAll(old(observer.seen), controllers, now);
        observer.seen == noticed.seen && log == old(log) + noticed.attempts && recovered == AnyOk(noticed.attempts)
      ensures cooldownUntil == if recovered then Some(now + RECOVERY_COOLDOWN) else old(cooldownUntil)
    {
      hide NoticeAll, Notice, AnyOk;
      NoticeNone(observer.seen, now);
      recovered := false;
      ghost var noticed := NoticeAll(observer.seen, controllers, now);
      ghost var done: seq<Attempt> := [];
      for i := 0 to |controllers|
        invariant log == old(log) + done && recovered == AnyOk(done)
        invariant var rest := NoticeAll(observer.seen, controllers[i..], now);
          noticed.seen == rest.seen && noticed.attempts == done + rest.attempts
        invariant cooldownUntil == if recovered then Some(now + RECOVERY_COOLDOWN) else old(cooldownUntil)
      {
        NoticeNext(observer.seen, controllers, i, now);
        ghost var first := Notice(observer.seen, controllers[i], now);
        var one := RebindIfRecovered(controllers[i], now);
        recovered := recovered || one;
        AnyOkAppend(done, first.attempts);
        assert old(log) + done + first.attempts == old(log) + (done + first.attempts);
        done := done + first.attempts;
      }
      NoticeNone(observer.seen, now);
      assert controllers[|controllers|..] == [] && done + [] == done;
    }

    method Pass(w: World)
      requires Valid()
      modifies this, observer, consumers, backlog
      ensures Abstract() == Passed(old(Abstract()), w).state
      ensures log == old(log) + Passed(old(Abstract()), w).attempts
    {
      if w.scan.None? {
        return;
      }
      var recovered := RebindRecovered(w.scan.value, w.now);
      if recovered || (cooldownUntil.Some? && w.now < cooldownUntil.value) {
        backlog.Clear();
        consumers.ForceRefresh();
      } else {
        WatchConsumers(w.scan.value, w);
      }
    }

    method WatchConsumers(controllers: seq<Controller>, w: World)
      requires Valid()
      modifies this, observer, consumers, backlog
      ensures Abstract() == Watch(old(Abstract()), controllers, w).state
      ensures log == old(log) + Watch(old(Abstract()), controllers, w).attempts
    {
      var refresh := consumers.RefreshIfDue(w.discovered, w.now);
      if consumers.consumers != [] {
        var samples := consumers.SampleReadiness(w.poll);
        var stalled := backlog.Observe(w.now, samples, BACKLOG_GRACE);
        if stalled.Some? {
          var controller := Owner(controllers, stalled.value.eventNode);
          if controller.Some? {
            var ok := Rebind(ConsumerStall, controller.value, w.now);
            if ok {
              observer.Mark(controller.value.id, 0);
              cooldownUntil := Some(w.now + RECOVERY_COOLDOWN);
            }
            backlog.Clear();
            consumers.ForceRefresh();
          }
        }
      }
    }
  }

  lemma NoticeNone(seen: Seen, now: nat)
    ensures NoticeAll(seen, [], now) == Noticed(seen, []) && !AnyOk([])
  {
  }

  lemma NoticeNext(seen: Seen, controllers: seq<Controller>, i: nat, now: nat)
    requires i < |controllers|
    ensures var first := Notice(seen, controllers[i], now); var rest := NoticeAll(first.seen, controllers[i + 1..], now);
      NoticeAll(seen, controllers[i..], now) == Noticed(rest.seen, first.attempts + rest.attempts)
  {
    assert controllers[i..][0] == controllers[i] && controllers[i..][1..] == controllers[i + 1..];
  }

  lemma AnyOkAppend(a: seq<Attempt>, b: seq<Attempt>)
    ensures AnyOk(a + b) <==> AnyOk(a) || AnyOk(b)
  {
    if AnyOk(a) {
      var i :| 0 <= i < |a| && a[i].ok;
      assert (a + b)[i].ok;
    }
    if AnyOk(b) {
      var i :| 0 <= i < |b| && b[i].ok;
      assert (a + b)[|a| + i].ok;
    }
  }
}
