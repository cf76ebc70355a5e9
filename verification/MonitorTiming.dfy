/** How far apart rebinds are, over every run of the monitor under a clock that never goes back. */
module MonitorTiming {
  import opened Policy
  import opened Consumer
  import opened Monitor

  /** The state after these passes, and every rebind attempted on the way. */
  function Passes(worlds: seq<World>): Outcome
    decreases |worlds|
  {
    if worlds == [] then Outcome(INITIAL, []) else
    var before := Passes(worlds[..|worlds| - 1]);
    var o := Passed(before.state, worlds[|worlds| - 1]);
    Outcome(o.state, before.attempts + o.attempts)
  }

  ghost predicate Monotone(worlds: seq<World>) {
    forall i, j :: 0 <= i < j < |worlds| ==> worlds[i].now <= worlds[j].now
  }

  /** The monitor sleeps at least d between two passes. */
  ghost predicate Paced(worlds: seq<World>, d: nat) {
    forall i, j :: 0 <= i < j < |worlds| ==> worlds[i].now + d <= worlds[j].now
  }

  /** From the pass that finds a consumer unread to the first that may act on it. */
  function Wait(d: nat): nat {
    if d <= 750 * MILLISECOND then 750 * MILLISECOND else d
  }

  /** From a pass with a successful rebind to the first that may find one unread. */
  function Rest(d: nat): nat {
    if d <= 5000 * MILLISECOND then 5000 * MILLISECOND else d
  }

  /** b is a consumer-stall rebind that keeps its distance from the earlier attempt a. */
  ghost predicate Apart(a: Attempt, b: Attempt, d: nat) {
    b.trigger == ConsumerStall ==>
      && (a.ok ==> b.at >= a.at + Rest(d) + Wait(d))
      && (a.trigger == ConsumerStall ==> b.at >= a.at + d + Wait(d))
  }

  ghost predicate Spaced(attempts: seq<Attempt>, d: nat) {
    forall i, j :: 0 <= i < j < |attempts| ==> Apart(attempts[i], attempts[j], d)
  }

  // ---------- what the state remembers of the attempts ----------

  /** Entries of the backlog are no older than this because of attempt a. */
  function Floor(a: Attempt, d: nat): nat {
    if a.ok then a.at + Rest(d) else if a.trigger == ConsumerStall then a.at + d else 0
  }

  ghost predicate Above(since: Since, floor: nat) {
    forall k :: k in since ==> floor <= since[k]
  }

  ghost predicate Remembers(s: State, a: Attempt, last: nat, d: nat) {
    && a.at <= last
    && (a.ok ==> s.cooldownUntil.Some? && s.cooldownUntil.value >= a.at + RECOVERY_COOLDOWN)
    && Above(s.since, Floor(a, d))
  }

  /** Entries were made in passes, the last of them at `last`. */
  ghost predicate Below(since: Since, last: nat) {
    forall k :: k in since ==> since[k] <= last
  }

  ghost predicate TimedInv(o: Outcome, last: nat, d: nat) {
    && Spaced(o.attempts, d) && Below(o.state.since, last)
    && forall a :: a in o.attempts ==> Remembers(o.state, a, last, d)
  }

  lemma {:induction false} ScanBelow(since: Since, now: nat, samples: seq<Sample>, grace: nat)
    requires Below(since, now)
    ensures Below(Scan(since, now, samples, grace).since, now)
    decreases |samples|
  {
    if samples != [] {
      var key := samples[0].key;
      var next := if !samples[0].ready then since - {key} else if key in since then since else since[key := now];
      ScanBelow(next, now, samples[1..], grace);
    }
  }

  /** Entries from earlier passes are at least d old, and an entry of this pass is not overdue. */
  ghost predicate Aged(since: Since, now: nat, d: nat) {
    forall k :: k in since ==> since[k] + d <= now || since[k] == now
  }

  lemma {:induction false} ScanFloor(since: Since, now: nat, samples: seq<Sample>, floor: nat, d: nat)
    requires Above(since, floor) && Aged(since, now, d) && floor <= now
    ensures var o := Scan(since, now, samples, BACKLOG_GRACE);
      Above(o.since, floor) && (o.stalled.Some? ==> floor + Wait(d) <= now)
    decreases |samples|
  {
    if samples != [] {
      var key := samples[0].key;
      var next := if !samples[0].ready then since - {key} else if key in since then since else since[key := now];
      ScanFloor(next, now, samples[1..], floor, d);
    }
  }

  lemma {:induction false} NoticedAttempts(seen: Seen, controllers: seq<Controller>, now: nat, a: Attempt)
    requires a in NoticeAll(seen, controllers, now).attempts
    ensures a.at == now && a.trigger == KernelRecovery
    decreases |controllers|
  {
    var first := Notice(seen, controllers[0], now);
    if a !in first.attempts {
      NoticedAttempts(first.seen, controllers[1..], now, a);
    }
  }

  /** One earlier attempt across the half of the pass that looks at the consumers. */
  lemma WatchRemembers(s: State, controllers: seq<Controller>, w: World, a: Attempt, last: nat, d: nat)
    requires Remembers(s, a, last, d) && Below(s.since, last) && !Cooling(s.cooldownUntil, w.now)
    requires last + d <= w.now
    ensures var o := Watch(s, controllers, w);
      Remembers(o.state, a, w.now, d) && forall b :: b in o.attempts ==> Apart(a, b, d)
  {
    var watched := RefreshedIfDue(s.watched, w.discovered, w.now, REFRESH_INTERVAL);
    var samples := SamplesOf(AliveOnes(watched.consumers, w.poll), w.poll);
    ScanFloor(Retain(s.since, Keys(samples)), w.now, samples, Floor(a, d), d);
  }

  lemma WatchAttempts(s: State, controllers: seq<Controller>, w: World, d: nat)
    requires Below(s.since, w.now)
    ensures var o := Watch(s, controllers, w);
      && |o.attempts| <= 1 && Below(o.state.since, w.now)
      && forall a :: a in o.attempts ==> a.trigger == ConsumerStall && Remembers(o.state, a, w.now, d)
  {
    var watched := RefreshedIfDue(s.watched, w.discovered, w.now, REFRESH_INTERVAL);
    var samples := SamplesOf(AliveOnes(watched.consumers, w.poll), w.poll);
    ScanBelow(Retain(s.since, Keys(samples)), w.now, samples, BACKLOG_GRACE);
  }

  /** `earlier` are the attempts of earlier passes, `noticed` those of this pass so far, all of them
      for kernel recoveries and failed. */
  lemma WatchKeeps(s: State, earlier: seq<Attempt>, noticed: seq<Attempt>, controllers: seq<Controller>, w: World,
                   last: nat, d: nat)
    requires TimedInv(Outcome(s, earlier), last, d) && !Cooling(s.cooldownUntil, w.now) && last <= w.now
    requires earlier != [] ==> last + d <= w.now
    requires forall a :: a in noticed ==> a.at == w.now && a.trigger == KernelRecovery && !a.ok
    ensures var o := Watch(s, controllers, w); TimedInv(Outcome(o.state, earlier + noticed + o.attempts), w.now, d)
  {
    var o := Watch(s, controllers, w);
    WatchAttempts(s, controllers, w, d);
    forall a | a in earlier ensures Remembers(o.state, a, w.now, d) && forall b :: b in o.attempts ==> Apart(a, b, d) {
      WatchRemembers(s, controllers, w, a, last, d);
    }
    SpacedAppend(earlier, noticed, d);
    SpacedAppend(earlier + noticed, o.attempts, d);
  }

  lemma SpacedAppend(a: seq<Attempt>, b: seq<Attempt>, d: nat)
    requires Spaced(a, d) && Spaced(b, d) && forall x, y :: x in a && y in b ==> Apart(x, y, d)
    ensures Spaced(a + b, d)
  {
  }

  /** The kernel half of the pass adds no consumer-stall rebinds, and a success starts the cooldown. */
  lemma NoticeKeeps(s: State, earlier: seq<Attempt>, controllers: seq<Controller>, now: nat, last: nat, d: nat)
    requires TimedInv(Outcome(s, earlier), last, d) && last <= now
    ensures var noticed := NoticeAll(s.seen, controllers, now); var ok := AnyOk(noticed.attempts);
      && (forall a :: a in noticed.attempts ==> a.at == now && a.trigger == KernelRecovery)
      && TimedInv(Outcome(State(noticed.seen, map[], Watched([], None),
                                if ok then Some(now + RECOVERY_COOLDOWN) else s.cooldownUntil),
                          earlier + noticed.attempts), now, d)
  {
    var noticed := NoticeAll(s.seen, controllers, now);
    forall a | a in noticed.attempts ensures a.at == now && a.trigger == KernelRecovery {
      NoticedAttempts(s.seen, controllers, now, a);
    }
    SpacedAppend(earlier, noticed.attempts, d);
  }

  lemma PassKeeps(s: State, earlier: seq<Attempt>, w: World, last: nat, d: nat)
    requires TimedInv(Outcome(s, earlier), last, d) && last <= w.now && (earlier != [] ==> last + d <= w.now)
    ensures var o := Passed(s, w); TimedInv(Outcome(o.state, earlier + o.attempts), w.now, d)
  {
    if w.scan.None? {
      assert earlier + [] == earlier;
    } else {
      var noticed := NoticeAll(s.seen, w.scan.value, w.now);
      NoticeKeeps(s, earlier, w.scan.value, w.now, last, d);
      if !AnyOk(noticed.attempts) && !Cooling(s.cooldownUntil, w.now) {
        var next := State(noticed.seen, s.since, s.watched, s.cooldownUntil);
        WatchKeeps(next, earlier, noticed.attempts, w.scan.value, w, last, d);
        var o := Watch(next, w.scan.value, w);
        assert earlier + noticed.attempts + o.attempts == earlier + (noticed.attempts + o.attempts);
      }
    }
  }

  lemma {:induction false} RunsKeep(worlds: seq<World>, d: nat)
    requires Paced(worlds, d)
    ensures TimedInv(Passes(worlds), if worlds == [] then 0 else worlds[|worlds| - 1].now, d)
    decreases |worlds|
  {
    if worlds != [] {
      var front := worlds[..|worlds| - 1];
      RunsKeep(front, d);
      var before := Passes(front);
      PassKeeps(before.state, before.attempts, worlds[|worlds| - 1], if front == [] then 0 else front[|front| - 1].now, d);
    }
  }

  /** In every run with at least d between passes: a consumer-stall rebind comes at least 5000 ms, or
      d if that is more, and then 750 ms, or d if that is more, after any earlier successful rebind;
      and at least d and then 750 ms, or d if that is more, after any earlier consumer-stall attempt,
      failed or not. */
  lemma StallRebindsKeepApart(worlds: seq<World>, d: nat)
    requires Paced(worlds, d)
    ensures Spaced(Passes(worlds).attempts, d)
  {
    RunsKeep(worlds, d);
  }

  /** The consumer-stall attempts among these. */
  function Stalls(attempts: seq<Attempt>): (stalls: seq<Attempt>)
    ensures forall a :: a in stalls ==> a in attempts && a.trigger == ConsumerStall
  {
    if attempts == [] then [] else
    var last := attempts[|attempts| - 1];
    Stalls(attempts[..|attempts| - 1]) + if last.trigger == ConsumerStall then [last] else []
  }

  lemma {:induction false} StallsSpaced(attempts: seq<Attempt>, d: nat)
    requires Spaced(attempts, d)
    ensures Spaced(Stalls(attempts), d)
  {
    if attempts != [] {
      var front, last := attempts[..|attempts| - 1], attempts[|attempts| - 1];
      StallsSpaced(front, d);
      forall x, y | x in Stalls(front) && y in [last] ensures Apart(x, y, d) {
        assert x in front;
      }
      if last.trigger == ConsumerStall { SpacedAppend(Stalls(front), [last], d); }
    }
  }

  lemma {:induction false} SpacedStallsTakeTime(stalls: seq<Attempt>, d: nat)
    requires Spaced(stalls, d) && stalls != []
    requires forall a :: a in stalls ==> a.trigger == ConsumerStall
    ensures stalls[|stalls| - 1].at >= stalls[0].at + (|stalls| - 1) * (d + Wait(d))
  {
    if |stalls| > 1 {
      var front := stalls[..|stalls| - 1];
      SpacedStallsTakeTime(front, d);
      assert Apart(stalls[|stalls| - 2], stalls[|stalls| - 1], d);
    }
  }

  /** So consumer-stall attempts are rare: in any such run the last of n comes n - 1 of these
      distances after the first. */
  lemma StallsTakeTime(worlds: seq<World>, d: nat)
    requires Paced(worlds, d) && Stalls(Passes(worlds).attempts) != []
    ensures var stalls := Stalls(Passes(worlds).attempts);
      stalls[|stalls| - 1].at >= stalls[0].at + (|stalls| - 1) * (d + Wait(d))
  {
    hide Passes;
    StallRebindsKeepApart(worlds, d);
    StallsSpaced(Passes(worlds).attempts, d);
    SpacedStallsTakeTime(Stalls(Passes(worlds).attempts), d);
  }

  // ---------- both distances are reached ----------

  function Scene(now: nat, k: Key, id: string, ok: bool): World {
    World(now, Some([Controller(id, None, [k.eventNode], ok, ok)]), Some([k]), map[k := Ready])
  }

  lemma OneReady(k: Key)
    ensures AliveOnes([k], map[k := Ready]) == [k] && SamplesOf([k], map[k := Ready]) == [Sample(k, true)]
  {
    assert [k][..0] == [];
  }

  lemma ScanOne(since: Since, now: nat, k: Key)
    requires since.Keys <= {k}
    ensures var at := if k in since then since[k] else now;
      Observed(since, now, [Sample(k, true)], BACKLOG_GRACE)
      == Observation(map[k := at], if Elapsed(now, at) >= BACKLOG_GRACE then Some(k) else None)
  {
    var samples := [Sample(k, true)];
    assert samples[0].key == k && samples[1..] == [];
    assert Retain(since, Keys(samples)) == since;
    var entered := if k in since then since else since[k := now];
    assert entered == map[k := if k in since then since[k] else now];
    assert Scan(entered, now, samples[1..], BACKLOG_GRACE) == Observation(entered, None);
  }

  /** With no recovery counter to read, the pass is its second half. */
  lemma NothingToNotice(s: State, now: nat, k: Key, id: string, ok: bool)
    requires !Cooling(s.cooldownUntil, now)
    ensures var w := Scene(now, k, id, ok); Passed(s, w) == Watch(s, w.scan.value, w)
  {
    var w := Scene(now, k, id, ok);
    assert NoticeAll(s.seen, w.scan.value, now) == Noticed(s.seen, []);
    assert [] + Watch(s, w.scan.value, w).attempts == Watch(s, w.scan.value, w).attempts;
  }

  /** A ready consumer is discovered and its wait begins. */
  lemma WaitBegins(s: State, now: nat, k: Key, id: string, ok: bool)
    requires s.since == map[] && s.watched == Watched([], None) && !Cooling(s.cooldownUntil, now)
    ensures Passed(s, Scene(now, k, id, ok)) == Outcome(s.(since := map[k := now], watched := Watched([k], Some(now))), [])
  {
    OneReady(k);
    ScanOne(s.since, now, k);
    NothingToNotice(s, now, k, id, ok);
  }

  /** Once the grace period is over its controller is rebound. */
  lemma WaitEnds(s: State, start: nat, now: nat, k: Key, id: string, ok: bool)
    requires s.since == map[k := start] && s.watched == Watched([k], Some(start)) && !Cooling(s.cooldownUntil, now)
    requires now >= start + BACKLOG_GRACE
    ensures Passed(s, Scene(now, k, id, ok)) == Stalled(s, Controller(id, None, [k.eventNode], ok, ok), now)
  {
    var c := Controller(id, None, [k.eventNode], ok, ok);
    OneReady(k);
    ScanOne(s.since, now, k);
    NothingToNotice(s, now, k, id, ok);
    assert Owner([c], k.eventNode) == Some(c);
    assert RefreshedIfDue(s.watched, Some([k]), now, REFRESH_INTERVAL).consumers == [k];
  }

  /** These passes lead to s with these attempts, and the next pass may be made from `next` on. */
  ghost predicate Leads(worlds: seq<World>, s: State, attempts: seq<Attempt>, next: nat, d: nat) {
    && Passes(worlds) == Outcome(s, attempts)
    && Paced(worlds, d) && (worlds != [] ==> worlds[|worlds| - 1].now + d <= next)
  }

  lemma OnePass(worlds: seq<World>, s: State, attempts: seq<Attempt>, w: World, o: Outcome, d: nat)
    requires Leads(worlds, s, attempts, w.now, d) && Passed(s, w) == o
    ensures Leads(worlds + [w], o.state, attempts + o.attempts, w.now + d, d)
  {
    hide Passed;
    var more := OneMore(worlds, w, d);
  }

  /** The state while the consumer waits. */
  function Waiting(s: State, k: Key, start: nat): State {
    s.(since := map[k := start], watched := Watched([k], Some(start)))
  }

  /** The state after a stall rebind: nothing is watched. */
  function Rested(s: State, id: string, end: nat, ok: bool): State {
    State(if ok then s.seen[id := 0] else s.seen, map[], Watched([], None),
          if ok then Some(end + RECOVERY_COOLDOWN) else s.cooldownUntil)
  }

  lemma FirstPass(worlds: seq<World>, s: State, attempts: seq<Attempt>, start: nat, k: Key, id: string, ok: bool, d: nat)
    requires Leads(worlds, s, attempts, start, d)
    requires s.since == map[] && s.watched == Watched([], None) && !Cooling(s.cooldownUntil, start)
    ensures Leads(worlds + [Scene(start, k, id, ok)], Waiting(s, k, start), attempts, start + d, d)
  {
    hide Passed;
    WaitBegins(s, start, k, id, ok);
    OnePass(worlds, s, attempts, Scene(start, k, id, ok), Outcome(Waiting(s, k, start), []), d);
    assert attempts + [] == attempts;
  }

  lemma SecondPass(worlds: seq<World>, s: State, attempts: seq<Attempt>, start: nat, end: nat, k: Key, id: string,
                   ok: bool, d: nat)
    requires Leads(worlds, Waiting(s, k, start), attempts, end, d) && end >= start + BACKLOG_GRACE
    requires !Cooling(s.cooldownUntil, start)
    ensures Leads(worlds + [Scene(end, k, id, ok)], Rested(s, id, end, ok),
                  attempts + [Attempt(ConsumerStall, id, end, ok)], end + d, d)
  {
    hide Passed;
    WaitEnds(Waiting(s, k, start), start, end, k, id, ok);
    OnePass(worlds, Waiting(s, k, start), attempts, Scene(end, k, id, ok),
            Outcome(Rested(s, id, end, ok), [Attempt(ConsumerStall, id, end, ok)]), d);
  }

  /** Two passes, the second, `wait` later, as soon as it may act, and one more attempt. */
  lemma OneStall(worlds: seq<World>, s: State, attempts: seq<Attempt>, start: nat, wait: nat, k: Key, id: string,
                 ok: bool, d: nat) returns (more: seq<World>)
    requires Leads(worlds, s, attempts, start, d) && wait >= BACKLOG_GRACE && wait >= d
    requires s.since == map[] && s.watched == Watched([], None) && !Cooling(s.cooldownUntil, start)
    ensures Leads(more, Rested(s, id, start + wait, ok), attempts + [Attempt(ConsumerStall, id, start + wait, ok)],
                  start + wait + d, d)
  {
    hide Leads, Passes, Passed;
    FirstPass(worlds, s, attempts, start, k, id, ok, d);
    more := worlds + [Scene(start, k, id, ok)];
    LeadsLater(more, Waiting(s, k, start), attempts, start + d, start + wait, d);
    SecondPass(more, s, attempts, start, start + wait, k, id, ok, d);
    more := more + [Scene(start + wait, k, id, ok)];
  }

  lemma LeadsLater(worlds: seq<World>, s: State, attempts: seq<Attempt>, next: nat, later: nat, d: nat)
    requires Leads(worlds, s, attempts, next, d) && next <= later
    ensures Leads(worlds, s, attempts, later, d)
  {
  }

  lemma ThreeStalls(k: Key, id: string, wait: nat, rest: nat, d: nat) returns (worlds: seq<World>, end: State)
    requires wait >= BACKLOG_GRACE && wait >= d && rest >= RECOVERY_COOLDOWN && rest >= d
    ensures var first := wait; var second := first + (d + wait); var third := second + (rest + wait);
      Leads(worlds, end, [Attempt(ConsumerStall, id, first, false), Attempt(ConsumerStall, id, second, true),
                          Attempt(ConsumerStall, id, third, true)], third + d, d)
  {
    Start(d);
    hide Leads, Passes, Passed;
    var second := wait + d + wait;
    var third := second + rest + wait;
    var a, b := Attempt(ConsumerStall, id, wait, false), Attempt(ConsumerStall, id, second, true);
    var c := Attempt(ConsumerStall, id, third, true);
    var s1 := Rested(INITIAL, id, wait, false);
    var s2 := Rested(s1, id, second, true);
    worlds := OneStall([], INITIAL, [], 0, wait, k, id, false, d);
    assert [] + [a] == [a] && [a] + [b] == [a, b] && [a, b] + [c] == [a, b, c];
    worlds := OneStall(worlds, s1, [a], wait + d, wait, k, id, true, d);
    LeadsLater(worlds, s2, [a, b], second + d, second + rest, d);
    worlds := OneStall(worlds, s2, [a, b], second + rest, wait, k, id, true, d);
    end := Rested(s2, id, third, true);
  }

  lemma Start(d: nat)
    ensures Leads([], INITIAL, [], 0, d)
  {
  }

  /** None of the distances can be raised, whatever the sleep: a paced run has a failed stall rebind,
      a successful one exactly d + Wait(d) later, and the next exactly Rest(d) + Wait(d) after that. */
  lemma BoundsAreReached(k: Key, id: string, d: nat) returns (worlds: seq<World>)
    ensures Paced(worlds, d)
    ensures var first := Wait(d); var second := first + (d + Wait(d)); var third := second + (Rest(d) + Wait(d));
      Passes(worlds).attempts ==
      [Attempt(ConsumerStall, id, first, false), Attempt(ConsumerStall, id, second, true),
       Attempt(ConsumerStall, id, third, true)]
  {
    var end;
    worlds, end := ThreeStalls(k, id, Wait(d), Rest(d), d);
  }

  lemma OneMore(worlds: seq<World>, w: World, d: nat) returns (more: seq<World>)
    requires Paced(worlds, d) && (worlds != [] ==> worlds[|worlds| - 1].now + d <= w.now)
    ensures more == worlds + [w] && Paced(more, d)
    ensures var before := Passes(worlds); var o := Passed(before.state, w);
      Passes(more) == Outcome(o.state, before.attempts + o.attempts)
  {
    more := worlds + [w];
    assert more[..|more| - 1] == worlds;
  }
}
