/** When the monitor rebinds for a stalled consumer, in terms of what it sampled in all passes. */
module MonitorBacklog {
  import opened Policy
  import opened Consumer
  import opened Monitor
  import H = BacklogHistory
  import T = MonitorTiming

  // ---------- the observer's history in a run ----------

  /** The consumers one pass polls, and what it finds. */
  function Samples(s: State, w: World): seq<Sample> {
    var watched := RefreshedIfDue(s.watched, w.discovered, w.now, REFRESH_INTERVAL);
    SamplesOf(AliveOnes(watched.consumers, w.poll), w.poll)
  }

  datatype Trace = Trace(events: seq<H.Event>, since: seq<Since>)

  /** What one pass asks of the backlog observer, and what the observer then holds: nothing after a
      failed scan or with no consumer known, a clear while cooling, else a call, cleared if the
      stalled node has an owner. */
  function PassTrace(s: State, w: World): Trace {
    if w.scan.None? then Trace([], []) else
    if AnyOk(NoticeAll(s.seen, w.scan.value, w.now).attempts) || Cooling(s.cooldownUntil, w.now)
    then Trace([H.Clear], [map[]]) else
    if RefreshedIfDue(s.watched, w.discovered, w.now, REFRESH_INTERVAL).consumers == [] then Trace([], []) else
    var o := Observed(s.since, w.now, Samples(s, w), BACKLOG_GRACE);
    var call := H.Call(w.now, Samples(s, w), o.stalled);
    if o.stalled.Some? && Owner(w.scan.value, o.stalled.value.eventNode).Some?
    then Trace([call, H.Clear], [o.since, map[]]) else Trace([call], [o.since])
  }

  function History(worlds: seq<World>): Trace
    decreases |worlds|
  {
    if worlds == [] then Trace([], [map[]]) else
    var front := worlds[..|worlds| - 1];
    var before := History(front);
    var pass := PassTrace(T.Passes(front).state, worlds[|worlds| - 1]);
    Trace(before.events + pass.events, before.since + pass.since)
  }

  // ---------- it is a behaviour of the observer ----------

  predicate DistinctKeys(keys: seq<Key>) {
    forall i, j :: 0 <= i < j < |keys| ==> keys[i] != keys[j]
  }

  /** Discovery lists a descriptor of a process once. */
  ghost predicate Discoveries(worlds: seq<World>) {
    forall i :: 0 <= i < |worlds| && worlds[i].discovered.Some? ==> DistinctKeys(worlds[i].discovered.value)
  }

  lemma {:induction false} AliveOnesDistinct(consumers: seq<Key>, poll: map<Key, Readiness>)
    requires DistinctKeys(consumers)
    ensures DistinctKeys(AliveOnes(consumers, poll))
    ensures forall k :: k in AliveOnes(consumers, poll) ==> k in consumers
  {
    if consumers != [] {
      var front := consumers[..|consumers| - 1];
      AliveOnesDistinct(front, poll);
      var alive := AliveOnes(front, poll);
      forall i | 0 <= i < |alive| ensures alive[i] in consumers && alive[i] != consumers[|consumers| - 1] {
        assert alive[i] in alive;
        var j :| 0 <= j < |front| && front[j] == alive[i];
        assert consumers[j] == alive[i];
      }
    }
  }

  lemma SamplesDistinct(s: State, w: World)
    requires DistinctKeys(s.watched.consumers) && (w.discovered.Some? ==> DistinctKeys(w.discovered.value))
    ensures H.Distinct(Samples(s, w)) && DistinctKeys(Passed(s, w).state.watched.consumers)
  {
    AliveOnesDistinct(RefreshedIfDue(s.watched, w.discovered, w.now, REFRESH_INTERVAL).consumers, w.poll);
  }

  lemma BehavesAppend(events: seq<H.Event>, since: seq<Since>, e: H.Event, after: Since)
    requires H.Behaves(events, since, BACKLOG_GRACE) && H.Follows(e, since[|since| - 1], after, BACKLOG_GRACE)
    ensures H.Behaves(events + [e], since + [after], BACKLOG_GRACE)
  {
    var es, ss := events + [e], since + [after];
    forall i | 0 <= i < |es| ensures H.Follows(es[i], ss[i], ss[i + 1], BACKLOG_GRACE) {
      if i < |events| { assert H.Follows(events[i], since[i], since[i + 1], BACKLOG_GRACE); }
    }
  }

  /** The calls so far are in order and none is later than `last`. */
  ghost predicate Timely(events: seq<H.Event>, last: nat) {
    H.Monotone(events) && forall i :: 0 <= i < |events| && events[i].Call? ==> events[i].now <= last
  }

  ghost predicate Traced(t: Trace, s: State, last: nat) {
    && H.Behaves(t.events, t.since, BACKLOG_GRACE) && t.since[|t.since| - 1] == s.since
    && Timely(t.events, last) && DistinctKeys(s.watched.consumers)
  }

  /** A pass leaves in the observer what its trace ends with. */
  lemma PassTraceEnds(s: State, w: World)
    ensures var t := PassTrace(s, w);
      |t.events| == |t.since| && Passed(s, w).state.since == if t.since == [] then s.since else t.since[|t.since| - 1]
  {
  }

  lemma PassTraced(t: Trace, s: State, w: World, last: nat)
    requires Traced(t, s, last) && last <= w.now
    requires w.discovered.Some? ==> DistinctKeys(w.discovered.value)
    ensures var p := PassTrace(s, w);
      Traced(Trace(t.events + p.events, t.since + p.since), Passed(s, w).state, w.now)
  {
    hide Passed;
    var p := PassTrace(s, w);
    SamplesDistinct(s, w);
    PassTraceEnds(s, w);
    if p.events == [] {
      assert t.events + p.events == t.events && t.since + p.since == t.since;
    } else {
      BehavesAppend(t.events, t.since, p.events[0], p.since[0]);
      if |p.events| == 1 {
        assert p.events == [p.events[0]] && p.since == [p.since[0]];
      } else {
        BehavesAppend(t.events + [p.events[0]], t.since + [p.since[0]], H.Clear, map[]);
        assert t.events + p.events == t.events + [p.events[0]] + [H.Clear];
        assert t.since + p.since == t.since + [p.since[0]] + [map[]];
      }
    }
  }

  lemma {:induction false} HistoryBehaves(worlds: seq<World>)
    requires T.Monotone(worlds) && Discoveries(worlds)
    ensures Traced(History(worlds), T.Passes(worlds).state, if worlds == [] then 0 else worlds[|worlds| - 1].now)
    decreases |worlds|
  {
    if worlds != [] {
      var front := worlds[..|worlds| - 1];
      HistoryBehaves(front);
      PassTraced(History(front), T.Passes(front).state, worlds[|worlds| - 1],
                 if front == [] then 0 else front[|front| - 1].now);
    }
  }

  // ---------- when a stall is acted on ----------

  /** The owner of a node is the first scanned controller that has it; there is none exactly if none
      has. */
  lemma {:induction false} OwnerIsFirst(controllers: seq<Controller>, node: string)
    ensures Owner(controllers, node).None? <==> forall i :: 0 <= i < |controllers| ==> node !in controllers[i].eventNodes
    ensures Owner(controllers, node).Some? ==>
      exists i :: 0 <= i < |controllers| && controllers[i] == Owner(controllers, node).value && node in controllers[i].eventNodes
        && forall j :: 0 <= j < i ==> node !in controllers[j].eventNodes
    decreases |controllers|
  {
    if controllers != [] {
      var rest := controllers[1..];
      assert forall i :: 0 <= i < |rest| ==> rest[i] == controllers[i + 1];
      if node in controllers[0].eventNodes {
        assert controllers[0] == Owner(controllers, node).value;
      } else {
        OwnerIsFirst(rest, node);
        if Owner(rest, node).Some? {
          var i :| 0 <= i < |rest| && rest[i] == Owner(rest, node).value && node in rest[i].eventNodes
            && forall j :: 0 <= j < i ==> node !in rest[j].eventNodes;
          assert controllers[i + 1] == Owner(controllers, node).value;
        }
      }
    }
  }

  /** Event n is a call, and the first sample that is ready and overdue in the whole history
      belongs to this controller, first among those with its event node. */
  ghost predicate StallDue(events: seq<H.Event>, n: nat, w: World, id: string, ok: bool) {
    && n < |events| && events[n].Call? && w.scan.Some?
    && exists p: nat :: H.FirstHit(events, n, p, BACKLOG_GRACE) && OwnedBy(w.scan.value, events[n].samples[p].key, id, ok)
  }

  predicate OwnedBy(controllers: seq<Controller>, k: Key, id: string, ok: bool) {
    var c := Owner(controllers, k.eventNode);
    c.Some? && c.value.id == id && c.value.stallRebinds == ok
  }

  /** The pass's stall rebinds, from its trace. */
  lemma StallFromTrace(s: State, w: World, id: string, ok: bool)
    ensures Attempt(ConsumerStall, id, w.now, ok) in Passed(s, w).attempts
      <==> var t := PassTrace(s, w).events;
           t != [] && t[0].Call? && t[0].verdict.Some? && OwnedBy(w.scan.value, t[0].verdict.value, id, ok)
  {
    var a := Attempt(ConsumerStall, id, w.now, ok);
    if w.scan.Some? {
      var noticed := NoticeAll(s.seen, w.scan.value, w.now);
      if a in noticed.attempts {
        T.NoticedAttempts(s.seen, w.scan.value, w.now, a);
      }
    }
  }

  /** In every run, a pass rebinds a controller for a stalled consumer exactly when the pass polls
      and, over all passes, the first overdue consumer is one of that controller's. */
  lemma StallExactly(worlds: seq<World>, w: World, id: string, ok: bool)
    requires T.Monotone(worlds + [w]) && Discoveries(worlds + [w])
    ensures Attempt(ConsumerStall, id, w.now, ok) in Passed(T.Passes(worlds).state, w).attempts
      <==> StallDue(History(worlds + [w]).events, |History(worlds).events|, w, id, ok)
  {
    var all := worlds + [w];
    assert all[..|all| - 1] == worlds;
    var s := T.Passes(worlds).state;
    var n := |History(worlds).events|;
    var t := History(all);
    var pass := PassTrace(s, w).events;
    assert t.events == History(worlds).events + pass;
    HistoryBehaves(all);
    StallFromTrace(s, w, id, ok);
    assert pass != [] ==> t.events[n] == pass[0];
    if w.scan.Some? && pass != [] && pass[0].Call? {
      VerdictIsDue(t, n, w, id, ok);
    }
  }

  lemma VerdictIsDue(t: Trace, n: nat, w: World, id: string, ok: bool)
    requires H.Behaves(t.events, t.since, BACKLOG_GRACE) && H.Monotone(t.events)
    requires n < |t.events| && t.events[n].Call? && w.scan.Some?
    ensures t.events[n].verdict.Some? && OwnedBy(w.scan.value, t.events[n].verdict.value, id, ok)
       <==> StallDue(t.events, n, w, id, ok)
  {
    H.VerdictIsFirstOverdue(t.events, t.since, BACKLOG_GRACE, n);
    if t.events[n].verdict.Some? {
      var p: nat :| H.FirstHit(t.events, n, p, BACKLOG_GRACE) && t.events[n].samples[p].key == t.events[n].verdict.value;
      assert forall q: nat :: H.FirstHit(t.events, n, q, BACKLOG_GRACE) ==> q == p;
    }
  }

  // ---------- continuous waiting ----------

  /** Every consumer this pass polls has its event node on a scanned controller. */
  predicate Owned(s: State, w: World) {
    w.scan.Some? ==>
      forall k :: k in RefreshedIfDue(s.watched, w.discovered, w.now, REFRESH_INTERVAL).consumers
        ==> Owner(w.scan.value, k.eventNode).Some?
  }

  ghost predicate AllOwned(worlds: seq<World>) {
    forall i :: 0 <= i < |worlds| ==> Owned(T.Passes(worlds[..i]).state, worlds[i])
  }

  /** Every verdict so far was followed by a clear: the branch without an owner was not taken, or
      the next pass was within a cooldown. */
  ghost predicate Settled(events: seq<H.Event>) {
    H.Disciplined(events)
    && (events != [] && events[|events| - 1].Call? ==> events[|events| - 1].verdict.None?)
  }

  /** A pass in which every polled consumer is owned clears after every verdict. */
  lemma OwnedPassSettles(s: State, w: World)
    requires Owned(s, w) && DistinctKeys(s.watched.consumers)
    requires w.discovered.Some? ==> DistinctKeys(w.discovered.value)
    ensures Settled(PassTrace(s, w).events)
  {
    var t := PassTrace(s, w).events;
    if t != [] && t[0].Call? && t[0].verdict.Some? {
      var consumers := RefreshedIfDue(s.watched, w.discovered, w.now, REFRESH_INTERVAL).consumers;
      SamplesDistinct(s, w);
      AliveOnesDistinct(consumers, w.poll);
      H.VerdictInSamples(Retain(s.since, Keys(Samples(s, w))), w.now, Samples(s, w), BACKLOG_GRACE);
      var p: nat :| p < |Samples(s, w)| && Samples(s, w)[p].key == t[0].verdict.value;
      assert AliveOnes(consumers, w.poll)[p] in consumers;
    }
  }

  lemma SettledAppend(a: seq<H.Event>, b: seq<H.Event>)
    requires Settled(a) && Settled(b)
    ensures Settled(a + b)
  {
    var c := a + b;
    forall j | 0 <= j < |c| - 1 && c[j].Call? && c[j].verdict.Some? ensures c[j + 1].Clear? {
      assert j != |a| - 1;
      if j >= |a| { assert b[j - |a|] == c[j] && b[j + 1 - |a|] == c[j + 1]; }
    }
  }

  /** If every polled consumer is owned in every pass, the monitor clears after every verdict. */
  lemma {:induction false} OwnedRunSettles(worlds: seq<World>)
    requires T.Monotone(worlds) && Discoveries(worlds) && AllOwned(worlds)
    ensures Settled(History(worlds).events)
    decreases |worlds|
  {
    if worlds != [] {
      var front, w := worlds[..|worlds| - 1], worlds[|worlds| - 1];
      forall i | 0 <= i < |front| ensures Owned(T.Passes(front[..i]).state, front[i]) {
        assert front[..i] == worlds[..i];
      }
      OwnedRunSettles(front);
      HistoryBehaves(front);
      OwnedPassSettles(T.Passes(front).state, w);
      SettledAppend(History(front).events, PassTrace(T.Passes(front).state, w).events);
    }
  }

  /** Event n is a call, and the first sample that has been ready in every call for the grace
      period belongs to this controller. */
  ghost predicate ContinuousDue(events: seq<H.Event>, n: nat, w: World, id: string, ok: bool) {
    && n < |events| && events[n].Call? && w.scan.Some?
    && exists p: nat ::
         H.FirstContinuous(events, n, p, BACKLOG_GRACE) && OwnedBy(w.scan.value, events[n].samples[p].key, id, ok)
  }

  lemma PassIsDisciplined(s: State, w: World)
    ensures H.Disciplined(PassTrace(s, w).events)
  {
  }

  lemma DisciplinedAppend(a: seq<H.Event>, b: seq<H.Event>)
    requires Settled(a) && H.Disciplined(b)
    ensures H.Disciplined(a + b)
  {
    var c := a + b;
    forall j | 0 <= j < |c| - 1 && c[j].Call? && c[j].verdict.Some? ensures c[j + 1].Clear? {
      assert j != |a| - 1;
      if j >= |a| { assert b[j - |a|] == c[j] && b[j + 1 - |a|] == c[j + 1]; }
    }
  }

  /** The monitor's promise: while every verdict so far was followed by a clear, a pass rebinds a
      controller exactly when the first consumer left unread in every poll of at least the last
      750 ms is one of that controller's. */
  lemma StallIsContinuous(worlds: seq<World>, w: World, id: string, ok: bool)
    requires T.Monotone(worlds + [w]) && Discoveries(worlds + [w]) && Settled(History(worlds).events)
    ensures Attempt(ConsumerStall, id, w.now, ok) in Passed(T.Passes(worlds).state, w).attempts
      <==> ContinuousDue(History(worlds + [w]).events, |History(worlds).events|, w, id, ok)
  {
    var all := worlds + [w];
    assert all[..|all| - 1] == worlds;
    var t := History(all);
    var n := |History(worlds).events|;
    StallExactly(worlds, w, id, ok);
    HistoryBehaves(all);
    PassIsDisciplined(T.Passes(worlds).state, w);
    DisciplinedAppend(History(worlds).events, PassTrace(T.Passes(worlds).state, w).events);
    if n < |t.events| && t.events[n].Call? {
      H.ContinuousIsOverdue(t.events, t.since, BACKLOG_GRACE, n);
    }
  }

  // ---------- a stalled node without an owner ----------

  lemma {:induction false} NoCounts(seen: Seen, controllers: seq<Controller>, now: nat)
    requires forall c :: c in controllers ==> c.count.None?
    ensures NoticeAll(seen, controllers, now) == Noticed(seen, [])
    decreases |controllers|
  {
    if controllers != [] {
      assert controllers[0] in controllers;
      NoCounts(seen, controllers[1..], now);
    }
  }

  /** A pass over two live consumers and controllers without a counter. */
  function TwoScene(now: nat, scan: seq<Controller>, discovered: Option<seq<Key>>, a: Key, b: Key, readyA: bool, readyB: bool): World {
    World(now, Some(scan), discovered, map[a := if readyA then Ready else Readiness.Idle, b := if readyB then Ready else Readiness.Idle])
  }

  lemma AliveStep(front: seq<Key>, k: Key, poll: map<Key, Readiness>)
    requires Alive(poll, k)
    ensures AliveOnes(front + [k], poll) == AliveOnes(front, poll) + [k]
  {
    assert (front + [k])[..|front|] == front;
  }

  lemma TwoAlive(a: Key, b: Key, poll: map<Key, Readiness>)
    requires Alive(poll, a) && Alive(poll, b)
    ensures AliveOnes([a, b], poll) == [a, b]
    ensures SamplesOf([a, b], poll) == [Sample(a, poll[a] == Ready), Sample(b, poll[b] == Ready)]
  {
    AliveStep([], a, poll);
    AliveStep([a], b, poll);
    assert [] + [a] == [a] && [a] + [b] == [a, b];
  }

  /** What such a pass comes to, and what it asks of the observer. */
  lemma TwoScenePass(s: State, w: World, scan: seq<Controller>, a: Key, b: Key, readyA: bool, readyB: bool, o: Observation)
    requires a != b && w == TwoScene(w.now, scan, w.discovered, a, b, readyA, readyB)
    requires (forall c :: c in scan ==> c.count.None?) && !Cooling(s.cooldownUntil, w.now)
    requires RefreshedIfDue(s.watched, w.discovered, w.now, REFRESH_INTERVAL).consumers == [a, b]
    requires Observed(s.since, w.now, [Sample(a, readyA), Sample(b, readyB)], BACKLOG_GRACE) == o
    ensures var watched := RefreshedIfDue(s.watched, w.discovered, w.now, REFRESH_INTERVAL);
      var kept := s.(since := o.since, watched := watched);
      var call := H.Call(w.now, [Sample(a, readyA), Sample(b, readyB)], o.stalled);
      var owner := if o.stalled.None? then None else Owner(scan, o.stalled.value.eventNode);
      && Passed(s, w) == (if owner.None? then Outcome(kept, []) else Stalled(kept, owner.value, w.now))
      && PassTrace(s, w).events == (if owner.None? then [call] else [call, H.Clear])
  {
    TwoAlive(a, b, w.poll);
    NoCounts(s.seen, scan, w.now);
    assert [] + Watch(s, scan, w).attempts == Watch(s, scan, w).attempts;
  }

  /** Two consumers have been waiting since the start. */
  function BothWaiting(a: Key, b: Key): State
    requires a != b
  {
    State(map[], map[a := 0, b := 0], Watched([a, b], Some(0)), None)
  }

  /** Two consumers begin to wait. */
  lemma WaitersFound(a: Key, b: Key, scan: seq<Controller>)
    requires a != b && (forall c :: c in scan ==> c.count.None?)
    ensures var w := TwoScene(0, scan, Some([a, b]), a, b, true, true);
      && Passed(INITIAL, w) == Outcome(BothWaiting(a, b), [])
      && PassTrace(INITIAL, w).events == [H.Call(0, [Sample(a, true), Sample(b, true)], None)]
  {
    H.BothThenFirst(a, b, BACKLOG_GRACE, BACKLOG_GRACE);
    TwoScenePass(INITIAL, TwoScene(0, scan, Some([a, b]), a, b, true, true), scan, a, b, true, true,
                 Observation(map[a := 0, b := 0], None));
  }

  /** One of them is named but has no owner, while the other is idle: everything stays as it was. */
  lemma UnownedVerdict(a: Key, b: Key, scan: seq<Controller>, now: nat)
    requires a != b && (forall c :: c in scan ==> c.count.None?) && Owner(scan, a.eventNode).None? && now >= BACKLOG_GRACE
    ensures var w := TwoScene(now, scan, None, a, b, true, false);
      && Passed(BothWaiting(a, b), w) == Outcome(BothWaiting(a, b), [])
      && PassTrace(BothWaiting(a, b), w).events == [H.Call(now, [Sample(a, true), Sample(b, false)], Some(a))]
  {
    H.BothThenFirst(a, b, now, BACKLOG_GRACE);
    TwoScenePass(BothWaiting(a, b), TwoScene(now, scan, None, a, b, true, false), scan, a, b, true, false,
                 Observation(map[a := 0, b := 0], Some(a)));
  }

  /** The other is ready again and is taken to have waited all the time. */
  lemma MisledVerdict(a: Key, b: Key, scan: seq<Controller>, mine: Controller, now: nat)
    requires a != b && (forall c :: c in scan ==> c.count.None?) && Owner(scan, b.eventNode) == Some(mine)
    requires now >= BACKLOG_GRACE
    ensures var w := TwoScene(now, scan, None, a, b, false, true);
      && Passed(BothWaiting(a, b), w).attempts == [Attempt(ConsumerStall, mine.id, now, mine.stallRebinds)]
      && PassTrace(BothWaiting(a, b), w).events == [H.Call(now, [Sample(a, false), Sample(b, true)], Some(b)), H.Clear]
  {
    var both := map[a := 0, b := 0];
    H.TwoSamples(both, now, a, false, b, true, BACKLOG_GRACE);
    TwoScenePass(BothWaiting(a, b), TwoScene(now, scan, None, a, b, false, true), scan, a, b, false, true,
                 Observed(both, now, [Sample(a, false), Sample(b, true)], BACKLOG_GRACE));
  }

  /** In these events b was not ready in the call before the last. */
  lemma NotContinuous(events: seq<H.Event>, a: Key, b: Key, middle: nat, later: nat)
    requires a != b && |events| >= 3
    requires events[1] == H.Call(middle, [Sample(a, true), Sample(b, false)], Some(a))
    requires events[2] == H.Call(later, [Sample(a, false), Sample(b, true)], Some(b))
    ensures forall p: nat :: !H.Continuous(events, 2, p, BACKLOG_GRACE)
  {
    assert !H.ReadyIn(events[1], b);
    forall p: nat ensures !H.Continuous(events, 2, p, BACKLOG_GRACE) {
      if p < 2 && events[2].samples[p].ready {
        assert events[2].samples[p].key == b;
        forall i: nat ensures !H.Spans(events, i, 2, b, BACKLOG_GRACE) {
          assert i < 2 ==> i <= 1 < 2;
        }
      }
    }
  }

  /** Two passes from the start that lead to `s` without a rebind, and a third. */
  lemma ThreePasses(w0: World, w1: World, w2: World, s: State)
    requires Passed(INITIAL, w0) == Outcome(s, []) && Passed(s, w1) == Outcome(s, [])
    ensures T.Passes([w0, w1]) == Outcome(s, [])
    ensures History([w0, w1]).events == PassTrace(INITIAL, w0).events + PassTrace(s, w1).events
    ensures History([w0, w1, w2]).events == History([w0, w1]).events + PassTrace(s, w2).events
  {
    hide Passed, PassTrace;
    assert [w0][..0] == [] && [w0, w1][..1] == [w0] && [w0, w1, w2][..2] == [w0, w1];
    assert T.Passes([w0]) == Outcome(s, []);
    assert History([]).events == [];
    assert History([w0]).events == PassTrace(INITIAL, w0).events;
  }

  /** Without the clear the promise fails, in a run with passes at 0 and at any later times from the
      grace period on.  The event nodes of a's controller cannot be read in the second pass, so that
      a is named without an owner and nothing is cleared; b is idle in that very pass, is ready in
      the third, and its controller is rebound although b was not continuously unread. */
  lemma UnownedNodeMisleads(a: Key, b: Key, other: string, id: string, middle: nat, later: nat)
    returns (worlds: seq<World>, w: World)
    requires a.eventNode != b.eventNode && BACKLOG_GRACE <= middle < later
    ensures |worlds| == 2 && worlds[0].now == 0 && worlds[1].now == middle && w.now == later && Discoveries(worlds + [w])
    ensures b in worlds[1].poll && worlds[1].poll[b] == Readiness.Idle
    ensures T.Passes(worlds).attempts == []
    ensures Passed(T.Passes(worlds).state, w).attempts == [Attempt(ConsumerStall, id, later, true)]
    ensures !ContinuousDue(History(worlds + [w]).events, |History(worlds).events|, w, id, true)
  {
    hide Passed, PassTrace, History, T.Passes;
    var mine := Controller(id, None, [b.eventNode], false, true);
    var before := [Controller(other, None, [a.eventNode], false, true), mine];
    var after := [Controller(other, None, [], false, true), mine];
    OwnersAre(before[0], after[0], mine, a.eventNode, b.eventNode);
    var w0 := TwoScene(0, before, Some([a, b]), a, b, true, true);
    var w1 := TwoScene(middle, after, None, a, b, true, false);
    w := TwoScene(later, after, None, a, b, false, true);
    worlds := [w0, w1];
    WaitersFound(a, b, before);
    UnownedVerdict(a, b, after, middle);
    MisledVerdict(a, b, after, mine, later);
    ThreePasses(w0, w1, w, BothWaiting(a, b));
    assert worlds + [w] == [w0, w1, w];
    NotDue(History(worlds + [w]).events, a, b, middle, later, w, id);
  }

  lemma NotDue(events: seq<H.Event>, a: Key, b: Key, middle: nat, later: nat, w: World, id: string)
    requires a != b && |events| >= 3
    requires events[1] == H.Call(middle, [Sample(a, true), Sample(b, false)], Some(a))
    requires events[2] == H.Call(later, [Sample(a, false), Sample(b, true)], Some(b))
    ensures !ContinuousDue(events, 2, w, id, true)
  {
    NotContinuous(events, a, b, middle, later);
  }

  lemma OwnersAre(before: Controller, after: Controller, mine: Controller, nodeA: string, nodeB: string)
    requires nodeA != nodeB && before.eventNodes == [nodeA] && after.eventNodes == [] && mine.eventNodes == [nodeB]
    ensures Owner([after, mine], nodeA) == None && Owner([after, mine], nodeB) == Some(mine)
  {
    assert [after, mine][1..] == [mine] && [mine][1..] == [];
    assert Owner([mine], nodeA) == None && Owner([mine], nodeB) == Some(mine);
  }

  // ---------- exactly when the promise holds ----------

  /** The stall rebinds of this pass are those the promise speaks of. */
  ghost predicate Promised(worlds: seq<World>, w: World) {
    forall id, ok :: Attempt(ConsumerStall, id, w.now, ok) in Passed(T.Passes(worlds).state, w).attempts
      <==> ContinuousDue(History(worlds + [w]).events, |History(worlds).events|, w, id, ok)
  }

  /** The promise holds in all runs with at least d between passes; if `cleared`, in those in which
      every verdict so far was followed by a clear. */
  ghost predicate AlwaysPromised(cleared: bool, d: nat) {
    forall worlds, w :: T.Paced(worlds + [w], d) && Discoveries(worlds + [w]) && (cleared ==> Settled(History(worlds).events))
      ==> Promised(worlds, w)
  }

  lemma Unpromised(worlds: seq<World>, w: World, id: string, d: nat)
    requires T.Paced(worlds + [w], d) && Discoveries(worlds + [w])
    requires Attempt(ConsumerStall, id, w.now, true) in Passed(T.Passes(worlds).state, w).attempts
    requires !ContinuousDue(History(worlds + [w]).events, |History(worlds).events|, w, id, true)
    ensures !AlwaysPromised(false, d)
  {
    hide Passed, History, T.Passes, ContinuousDue;
    assert !Promised(worlds, w);
  }

  /** Whatever the sleep between passes, the promise needs exactly that premise. */
  lemma PromiseExactly(cleared: bool, d: nat)
    ensures AlwaysPromised(cleared, d) <==> cleared
  {
    hide Passed, History, T.Passes, ContinuousDue;
    if cleared {
      forall worlds, w | T.Paced(worlds + [w], d) && Discoveries(worlds + [w]) && Settled(History(worlds).events)
        ensures Promised(worlds, w)
      {
        forall id, ok ensures Attempt(ConsumerStall, id, w.now, ok) in Passed(T.Passes(worlds).state, w).attempts
          <==> ContinuousDue(History(worlds + [w]).events, |History(worlds).events|, w, id, ok)
        {
          StallIsContinuous(worlds, w, id, ok);
        }
      }
    } else {
      var a, b := Key(1, 3, "a"), Key(1, 4, "b");
      var middle := T.Wait(d);
      var worlds, w := UnownedNodeMisleads(a, b, "0-0014", "0-0015", middle, middle + d + 1);
      Unpromised(worlds, w, "0-0015", d);
    }
  }
}
