/** Which consumers the monitor polls in a pass, and how old that list is, in terms of what the world
    answered in the passes before: the discoveries, the polls and the rebinds. */
module MonitorRefresh {
  import opened Policy
  import opened Consumer
  import opened Monitor
  import opened MonitorTiming
  import H = BacklogHistory
  import B = MonitorBacklog

  const SECOND := 1000 * MILLISECOND

  /** A discovery that succeeded, and those of its consumers that were alive in every poll since. */
  datatype Discovery = Discovery(at: nat, keys: seq<Key>)

  predicate Lives(k: Key, poll: map<Key, Readiness>) {
    k in poll && (poll[k] == Ready || poll[k] == Readiness.Idle)
  }

  function Living(keys: seq<Key>, poll: map<Key, Readiness>): seq<Key> {
    if keys == [] then []
    else (if Lives(keys[0], poll) then [keys[0]] else []) + Living(keys[1..], poll)
  }

  /** The pass looks at the consumers: it scanned, no kernel recovery led to a successful rebind in it,
      and none of the earlier successful rebinds is less than 5 s old. */
  ghost predicate Polls(worlds: seq<World>, w: World) {
    && w.scan.Some?
    && (forall a :: a in Passed(Passes(worlds).state, w).attempts && a.trigger == KernelRecovery ==> !a.ok)
    && Rested(worlds, w.now)
  }

  ghost predicate Rested(worlds: seq<World>, now: nat) {
    forall a :: a in Passes(worlds).attempts && a.ok ==> a.at + 5 * SECOND <= now
  }

  /** It rebinds for a stalled consumer, after which everything is discovered anew. */
  ghost predicate Stalls(worlds: seq<World>, w: World) {
    exists a :: a in Passed(Passes(worlds).state, w).attempts && a.trigger == ConsumerStall
  }

  /** The last successful discovery since the start or since a pass that forgot it. */
  ghost function Known(worlds: seq<World>): Option<Discovery>
    decreases |worlds|, 0
  {
    if worlds == [] then None else
    var front, w := worlds[..|worlds| - 1], worlds[|worlds| - 1];
    if w.scan.None? then Known(front) else
    if !Polls(front, w) || Stalls(front, w) then None else
    var current := Current(front, w);
    if current.None? then None else Some(Discovery(current.value.at, Living(current.value.keys, w.poll)))
  }

  /** The one whose consumers are polled: this pass's, if there is none yet or the last is 2 s old and
      discovery succeeds, else the last. */
  ghost function Current(worlds: seq<World>, w: World): Option<Discovery>
    decreases |worlds|, 1
  {
    var last := Known(worlds);
    if w.discovered.Some? && (last.None? || last.value.at + 2 * SECOND <= w.now)
    then Some(Discovery(w.now, w.discovered.value)) else last
  }

  function AsWatched(known: Option<Discovery>): Watched {
    if known.None? then Watched([], None) else Watched(known.value.keys, Some(known.value.at))
  }

  // ---------- the cooldown ----------

  /** The cooldown is that of the last successful rebind of the run. */
  ghost predicate CooldownIs(worlds: seq<World>) {
    var o := Passes(worlds);
    && (forall a :: a in o.attempts && a.ok ==>
          o.state.cooldownUntil.Some? && a.at + 5 * SECOND <= o.state.cooldownUntil.value)
    && (o.state.cooldownUntil.Some? ==>
          exists a :: a in o.attempts && a.ok && o.state.cooldownUntil.value == a.at + 5 * SECOND)
    && (forall a :: a in o.attempts ==> worlds != [] && a.at <= worlds[|worlds| - 1].now)
  }

  /** A pass's rebinds are made at its time, and restart the cooldown exactly if one succeeds. */
  lemma PassCools(s: State, w: World)
    ensures var o := Passed(s, w);
      && (forall a :: a in o.attempts ==> a.at == w.now)
      && o.state.cooldownUntil == if exists a :: a in o.attempts && a.ok then Some(w.now + 5 * SECOND) else s.cooldownUntil
  {
    if w.scan.Some? {
      var noticed := NoticeAll(s.seen, w.scan.value, w.now);
      forall a | a in noticed.attempts ensures a.at == w.now && a.trigger == KernelRecovery {
        NoticedAttempts(s.seen, w.scan.value, w.now, a);
      }
      OkIn(noticed.attempts);
      if !AnyOk(noticed.attempts) && !Cooling(s.cooldownUntil, w.now) {
        var next := State(noticed.seen, s.since, s.watched, s.cooldownUntil);
        WatchCools(next, w.scan.value, w);
        var o := Watch(next, w.scan.value, w);
        assert forall a :: a in noticed.attempts + o.attempts <==> a in noticed.attempts || a in o.attempts;
      }
    }
  }

  lemma OkIn(attempts: seq<Attempt>)
    ensures AnyOk(attempts) <==> exists a :: a in attempts && a.ok
  {
    if AnyOk(attempts) {
      var i :| 0 <= i < |attempts| && attempts[i].ok;
      assert attempts[i] in attempts;
    }
  }

  lemma WatchCools(s: State, controllers: seq<Controller>, w: World)
    ensures var o := Watch(s, controllers, w);
      && (forall a :: a in o.attempts ==> a.at == w.now && a.trigger == ConsumerStall)
      && o.state.cooldownUntil == if exists a :: a in o.attempts && a.ok then Some(w.now + 5 * SECOND) else s.cooldownUntil
  {
    var o := Watch(s, controllers, w);
    assert o.attempts != [] ==> o.attempts[0] in o.attempts;
  }

  lemma {:induction false} RunCools(worlds: seq<World>)
    requires Monotone(worlds)
    ensures CooldownIs(worlds)
    decreases |worlds|
  {
    if worlds != [] {
      var front, w := worlds[..|worlds| - 1], worlds[|worlds| - 1];
      RunCools(front);
      PassCools(Passes(front).state, w);
      Prolonged(Passes(front), Passed(Passes(front).state, w), if front == [] then 0 else front[|front| - 1].now, w.now);
    }
  }

  ghost predicate Cooled(o: Outcome, last: nat) {
    && (forall a :: a in o.attempts && a.ok ==>
          o.state.cooldownUntil.Some? && a.at + 5 * SECOND <= o.state.cooldownUntil.value)
    && (o.state.cooldownUntil.Some? ==>
          exists a :: a in o.attempts && a.ok && o.state.cooldownUntil.value == a.at + 5 * SECOND)
    && forall a :: a in o.attempts ==> a.at <= last
  }

  lemma Prolonged(before: Outcome, pass: Outcome, last: nat, now: nat)
    requires Cooled(before, last) && (before.attempts != [] ==> last <= now)
    requires forall a :: a in pass.attempts ==> a.at == now
    requires pass.state.cooldownUntil ==
      if exists a :: a in pass.attempts && a.ok then Some(now + 5 * SECOND) else before.state.cooldownUntil
    ensures Cooled(Outcome(pass.state, before.attempts + pass.attempts), now)
  {
    var all := before.attempts + pass.attempts;
    if a :| a in pass.attempts && a.ok {
      assert a in all;
    } else if before.state.cooldownUntil.Some? {
      var a :| a in before.attempts && a.ok && before.state.cooldownUntil.value == a.at + 5 * SECOND;
      assert a in all;
    }
  }

  /** Whether a pass is within a cooldown is decided by the run's rebinds. */
  lemma CoolingIs(worlds: seq<World>, now: nat)
    requires Monotone(worlds)
    ensures Cooling(Passes(worlds).state.cooldownUntil, now) <==> !Rested(worlds, now)
  {
    hide Passes;
    RunCools(worlds);
  }

  // ---------- what is polled ----------

  lemma {:induction false} LivingAppend(a: seq<Key>, b: seq<Key>, poll: map<Key, Readiness>)
    ensures Living(a + b, poll) == Living(a, poll) + Living(b, poll)
  {
    if a == [] {
      assert a + b == b;
    } else {
      assert (a + b)[1..] == a[1..] + b;
      LivingAppend(a[1..], b, poll);
    }
  }

  lemma {:induction false} AliveIsLiving(keys: seq<Key>, poll: map<Key, Readiness>)
    ensures AliveOnes(keys, poll) == Living(keys, poll)
  {
    if keys != [] {
      var front, last := keys[..|keys| - 1], [keys[|keys| - 1]];
      AliveIsLiving(front, poll);
      LivingAppend(front, last, poll);
      assert keys == front + last && last[1..] == [];
    }
  }

  /** Half of a pass: it looks at the consumers exactly when the world's answers say so. */
  lemma PollsIs(worlds: seq<World>, w: World)
    requires Monotone(worlds) && w.scan.Some?
    ensures var s := Passes(worlds).state;
      Polls(worlds, w) <==> !AnyOk(NoticeAll(s.seen, w.scan.value, w.now).attempts) && !Cooling(s.cooldownUntil, w.now)
  {
    CoolingIs(worlds, w.now);
    KernelHalf(Passes(worlds).state, w);
    hide Passes, Passed, NoticeAll, Cooling, AnyOk, Rested;
  }

  lemma KernelHalf(s: State, w: World)
    requires w.scan.Some?
    ensures AnyOk(NoticeAll(s.seen, w.scan.value, w.now).attempts)
       <==> exists a :: a in Passed(s, w).attempts && a.trigger == KernelRecovery && a.ok
  {
    var noticed := NoticeAll(s.seen, w.scan.value, w.now);
    forall a | a in noticed.attempts ensures a.trigger == KernelRecovery {
      NoticedAttempts(s.seen, w.scan.value, w.now, a);
    }
    OkIn(noticed.attempts);
    if !AnyOk(noticed.attempts) && !Cooling(s.cooldownUntil, w.now) {
      var next := State(noticed.seen, s.since, s.watched, s.cooldownUntil);
      WatchCools(next, w.scan.value, w);
      assert Passed(s, w).attempts == noticed.attempts + Watch(next, w.scan.value, w).attempts;
    }
  }

  /** What a pass leaves watched. */
  lemma PassWatches(s: State, w: World)
    requires w.scan.Some?
    ensures var o := Passed(s, w); var current := RefreshedIfDue(s.watched, w.discovered, w.now, 2 * SECOND);
      if AnyOk(NoticeAll(s.seen, w.scan.value, w.now).attempts) || Cooling(s.cooldownUntil, w.now)
          || exists a :: a in o.attempts && a.trigger == ConsumerStall
      then o.state.watched == Watched([], None)
      else o.state.watched == Watched(AliveOnes(current.consumers, w.poll), current.refreshedAt)
  {
    var noticed := NoticeAll(s.seen, w.scan.value, w.now);
    if !AnyOk(noticed.attempts) && !Cooling(s.cooldownUntil, w.now) {
      var next := State(noticed.seen, s.since, s.watched, s.cooldownUntil);
      forall a | a in noticed.attempts ensures a.trigger == KernelRecovery {
        NoticedAttempts(s.seen, w.scan.value, w.now, a);
      }
      var o := Watch(next, w.scan.value, w);
      assert forall a :: a in noticed.attempts + o.attempts <==> a in noticed.attempts || a in o.attempts;
      assert o.attempts != [] ==> o.attempts[0] in o.attempts;
    }
  }

  lemma CurrentIs(worlds: seq<World>, w: World)
    requires Passes(worlds).state.watched == AsWatched(Known(worlds))
    ensures RefreshedIfDue(Passes(worlds).state.watched, w.discovered, w.now, 2 * SECOND) == AsWatched(Current(worlds, w))
  {
    hide Passes, Known;
  }

  lemma {:induction false} WatchedIsKnown(worlds: seq<World>)
    requires Monotone(worlds)
    ensures Passes(worlds).state.watched == AsWatched(Known(worlds))
    decreases |worlds|
  {
    if worlds != [] {
      var front, w := worlds[..|worlds| - 1], worlds[|worlds| - 1];
      WatchedIsKnown(front);
      assert Passes(worlds).state == Passed(Passes(front).state, w).state;
      if w.scan.Some? {
        PollsIs(front, w);
        PassWatches(Passes(front).state, w);
        CurrentIs(front, w);
        var current := Current(front, w);
        AliveIsLiving(AsWatched(current).consumers, w.poll);
        KnownNext(worlds);
        hide Passes, Passed, NoticeAll, Cooling, AnyOk, Known, Current, RefreshedIfDue, AliveOnes, Living, Polls;
      }
    }
  }

  lemma KnownNext(worlds: seq<World>)
    requires worlds != [] && worlds[|worlds| - 1].scan.Some?
    ensures var front, w := worlds[..|worlds| - 1], worlds[|worlds| - 1]; var current := Current(front, w);
      Known(worlds) == if !Polls(front, w) || Stalls(front, w) || current.None? then None
                       else Some(Discovery(current.value.at, Living(current.value.keys, w.poll)))
  {
  }

  /** The samples of these keys under this poll. */
  ghost predicate Sampled(samples: seq<Sample>, keys: seq<Key>, poll: map<Key, Readiness>) {
    && |samples| == |keys|
    && forall i :: 0 <= i < |keys| ==> keys[i] in poll && samples[i] == Sample(keys[i], poll[keys[i]] == Ready)
  }

  lemma SamplesAre(keys: seq<Key>, poll: map<Key, Readiness>)
    ensures Sampled(SamplesOf(AliveOnes(keys, poll), poll), Living(keys, poll), poll)
  {
    AliveIsLiving(keys, poll);
  }

  /** In every run: a pass that does not look at the consumers makes no call of the backlog observer;
      one that does calls it exactly if there is a discovery with consumers left, with one sample for
      each of them that is alive, in the order discovered.  The discovery is this pass's if there was
      none since the start or since the last pass that forgot it, or if that one is 2 s old, and
      this one succeeds; otherwise it is the last. */
  lemma PolledExactly(worlds: seq<World>, w: World)
    requires Monotone(worlds)
    ensures var events := B.PassTrace(Passes(worlds).state, w).events;
      var current := AsWatched(Current(worlds, w));
      if !Polls(worlds, w) || current.consumers == [] then forall i :: 0 <= i < |events| ==> events[i].Clear?
      else (events != [] && events[0].Call? && events[0].now == w.now
            && Sampled(events[0].samples, Living(current.consumers, w.poll), w.poll))
  {
    if w.scan.Some? {
      WatchedIsKnown(worlds);
      PollsIs(worlds, w);
      CurrentIs(worlds, w);
      SamplesAre(AsWatched(Current(worlds, w)).consumers, w.poll);
      hide Passes, NoticeAll, Cooling, AnyOk, Known, Current, RefreshedIfDue, AliveOnes, SamplesOf, Living, Polls, Sampled, Observed;
    }
  }

  /** So the list polled is less than 2 s old unless this pass's discovery failed. */
  lemma PolledListIsFresh(worlds: seq<World>, w: World)
    requires w.discovered.Some?
    ensures Current(worlds, w).Some? && w.now < Current(worlds, w).value.at + 2 * SECOND
  {
    hide Known;
  }

  // ---------- where a known discovery comes from ----------

  lemma {:induction false} LivingIn(keys: seq<Key>, poll: map<Key, Readiness>, k: Key)
    ensures k in Living(keys, poll) <==> k in keys && Lives(k, poll)
  {
    if keys != [] {
      LivingIn(keys[1..], poll, k);
      assert k in keys <==> k == keys[0] || k in keys[1..];
    }
  }

  /** k has answered alive in every pass from j on that scanned. */
  ghost predicate AliveSince(worlds: seq<World>, j: nat, k: Key) {
    forall i :: j <= i < |worlds| && worlds[i].scan.Some? ==> Lives(k, worlds[i].poll)
  }

  /** Pass j discovered these; every pass since that scanned looked at the consumers and rebound none. */
  ghost predicate From(worlds: seq<World>, j: nat, d: Discovery) {
    && j < |worlds| && worlds[j].discovered.Some? && worlds[j].scan.Some? && worlds[j].now == d.at
    && (forall i :: j <= i < |worlds| && worlds[i].scan.Some? ==> Polls(worlds[..i], worlds[i]) && !Stalls(worlds[..i], worlds[i]))
    && forall k :: k in d.keys <==> k in worlds[j].discovered.value && AliveSince(worlds, j, k)
  }

  /** A known discovery was made by one pass, nothing has forgotten it since, and of its consumers
      exactly those are left that answered alive in every poll since. */
  lemma {:induction false} KnownComesFrom(worlds: seq<World>)
    requires Known(worlds).Some?
    ensures exists j: nat :: From(worlds, j, Known(worlds).value)
    decreases |worlds|
  {
    hide Polls, Stalls, Lives, Living;
    var front, w := worlds[..|worlds| - 1], worlds[|worlds| - 1];
    if w.scan.None? {
      KnownComesFrom(front);
      var j: nat :| From(front, j, Known(front).value);
      FromStays(worlds, j, Known(front).value);
    } else if Current(front, w) == Known(front) {
      KnownComesFrom(front);
      var j: nat :| From(front, j, Known(front).value);
      FromOn(worlds, j, Known(front).value);
    } else {
      FromHere(worlds);
    }
  }

  lemma FromStays(worlds: seq<World>, j: nat, d: Discovery)
    requires worlds != [] && worlds[|worlds| - 1].scan.None? && From(worlds[..|worlds| - 1], j, d)
    ensures From(worlds, j, d)
  {
    hide Polls, Stalls, Lives;
    var front := worlds[..|worlds| - 1];
    forall i | 0 <= i < |front| ensures front[i] == worlds[i] && front[..i] == worlds[..i] {
    }
    forall k ensures AliveSince(front, j, k) <==> AliveSince(worlds, j, k) {
      assert forall i :: j <= i < |worlds| && worlds[i].scan.Some? ==> i < |front| && front[i] == worlds[i];
    }
  }

  lemma FromOn(worlds: seq<World>, j: nat, d: Discovery)
    requires worlds != [] && worlds[|worlds| - 1].scan.Some? && From(worlds[..|worlds| - 1], j, d)
    requires Polls(worlds[..|worlds| - 1], worlds[|worlds| - 1]) && !Stalls(worlds[..|worlds| - 1], worlds[|worlds| - 1])
    ensures From(worlds, j, Discovery(d.at, Living(d.keys, worlds[|worlds| - 1].poll)))
  {
    hide Polls, Stalls, Lives;
    var front, w := worlds[..|worlds| - 1], worlds[|worlds| - 1];
    forall i | 0 <= i < |front| ensures front[i] == worlds[i] && front[..i] == worlds[..i] {
    }
    forall k ensures k in Living(d.keys, w.poll) <==> k in worlds[j].discovered.value && AliveSince(worlds, j, k) {
      LivingIn(d.keys, w.poll, k);
      assert AliveSince(worlds, j, k) <==> AliveSince(front, j, k) && Lives(k, w.poll);
    }
  }

  lemma FromHere(worlds: seq<World>)
    requires worlds != [] && worlds[|worlds| - 1].scan.Some? && worlds[|worlds| - 1].discovered.Some?
    requires Polls(worlds[..|worlds| - 1], worlds[|worlds| - 1]) && !Stalls(worlds[..|worlds| - 1], worlds[|worlds| - 1])
    ensures var w := worlds[|worlds| - 1];
      From(worlds, |worlds| - 1, Discovery(w.now, Living(w.discovered.value, w.poll)))
  {
    hide Polls, Stalls, Lives;
    var w := worlds[|worlds| - 1];
    forall k ensures k in Living(w.discovered.value, w.poll) <==> k in w.discovered.value && AliveSince(worlds, |worlds| - 1, k) {
      LivingIn(w.discovered.value, w.poll, k);
    }
  }
}
