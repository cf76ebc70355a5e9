/** What the backlog's timestamps mean in terms of the calls that led to them. A call may return
    before it has looked at every sample, so an entry is kept, without being looked at, by a call
    that stopped earlier; only a clear after every verdict makes runs continuous. */
module BacklogHistory {
  import opened Policy
  import opened Consumer

  datatype Event =
    | Call(now: nat, samples: seq<Sample>, verdict: Option<Key>)
    | Clear

  predicate Distinct(samples: seq<Sample>) {
    forall p, q :: 0 <= p < q < |samples| ==> samples[p].key != samples[q].key
  }

  /** `since[i]` is what the observer holds before event i. */
  ghost predicate Behaves(events: seq<Event>, since: seq<Since>, grace: nat) {
    && |since| == |events| + 1 && since[0] == map[]
    && forall i :: 0 <= i < |events| ==> Follows(events[i], since[i], since[i + 1], grace)
  }

  ghost predicate Follows(e: Event, before: Since, after: Since, grace: nat) {
    match e
    case Clear => after == map[]
    case Call(now, samples, verdict) =>
      Distinct(samples) && Observed(before, now, samples, grace) == Observation(after, verdict)
  }

  ghost predicate Monotone(events: seq<Event>) {
    forall i, j :: 0 <= i < j < |events| && events[i].Call? && events[j].Call? ==> events[i].now <= events[j].now
  }

  // ---------- runs, in terms of the samples alone ----------

  /** The call looked at the sample in position p: it did not return before. */
  ghost predicate Looked(e: Event, p: nat) {
    && e.Call? && p < |e.samples|
    && (e.verdict.Some? ==> forall q :: 0 <= q < p ==> e.samples[q].key != e.verdict.value)
  }

  ghost predicate SawReady(e: Event, k: Key) {
    exists p: nat :: Looked(e, p) && e.samples[p] == Sample(k, true)
  }

  ghost predicate SawIdle(e: Event, k: Key) {
    exists p: nat :: Looked(e, p) && e.samples[p] == Sample(k, false)
  }

  ghost predicate Present(e: Event, k: Key) {
    e.Call? && k in Keys(e.samples)
  }

  ghost predicate Held(e: Event, k: Key) {
    Present(e, k) && !SawIdle(e, k)
  }

  ghost predicate AllHeld(events: seq<Event>, i: nat, n: nat, k: Key)
    requires n <= |events|
  {
    forall j :: i <= j < n ==> Held(events[j], k)
  }

  /** k was seen ready in event i and no event from i up to (not including) n ended that. */
  ghost predicate Run(events: seq<Event>, i: nat, n: nat, k: Key) {
    i < n <= |events| && SawReady(events[i], k) && AllHeld(events, i, n, k)
  }

  /** k has been waiting for the grace period when call n is made. */
  ghost predicate Overdue(events: seq<Event>, n: nat, k: Key, grace: nat)
    requires n < |events| && events[n].Call?
  {
    grace == 0 || exists i: nat :: Run(events, i, n, k) && events[i].now + grace <= events[n].now
  }

  ghost predicate Hit(events: seq<Event>, n: nat, p: nat, grace: nat)
    requires n < |events| && events[n].Call?
  {
    p < |events[n].samples| && events[n].samples[p].ready && Overdue(events, n, events[n].samples[p].key, grace)
  }

  // ---------- one call ----------

  /** The entry a ready sample is judged by. */
  function Entry(since: Since, k: Key, now: nat): nat {
    if k in since then since[k] else now
  }

  ghost predicate Judged(since: Since, now: nat, sample: Sample, grace: nat) {
    sample.ready && Elapsed(now, Entry(since, sample.key, now)) >= grace
  }

  /** The verdict is the first sample that is ready and whose entry is old enough. */
  lemma {:induction false} ScanVerdict(since: Since, now: nat, samples: seq<Sample>, grace: nat)
    requires Distinct(samples)
    ensures var v := Scan(since, now, samples, grace).stalled;
      && (v.None? <==> forall p :: 0 <= p < |samples| ==> !Judged(since, now, samples[p], grace))
      && (v.Some? ==> exists p :: FirstJudged(since, now, samples, grace, p) && samples[p].key == v.value)
    decreases |samples|
  {
    if samples != [] {
      var key := samples[0].key;
      var rest := samples[1..];
      assert forall p :: 0 < p < |samples| ==> samples[p] == rest[p - 1];
      if !Judged(since, now, samples[0], grace) {
        var next := if !samples[0].ready then since - {key} else if key in since then since else since[key := now];
        ScanVerdict(next, now, rest, grace);
        assert forall p :: 0 <= p < |rest| ==> (Judged(next, now, rest[p], grace) <==> Judged(since, now, samples[p + 1], grace));
        var v := Scan(next, now, rest, grace).stalled;
        if v.Some? {
          var p :| FirstJudged(next, now, rest, grace, p) && rest[p].key == v.value;
          assert FirstJudged(since, now, samples, grace, p + 1);
        }
      } else {
        assert FirstJudged(since, now, samples, grace, 0);
      }
    }
  }

  ghost predicate FirstJudged(since: Since, now: nat, samples: seq<Sample>, grace: nat, p: int) {
    && 0 <= p < |samples| && Judged(since, now, samples[p], grace)
    && forall q :: 0 <= q < p ==> !Judged(since, now, samples[q], grace)
  }

  /** What the call leaves for one key. */
  lemma {:induction false} ScanEntries(since: Since, now: nat, samples: seq<Sample>, grace: nat, k: Key)
    requires Distinct(samples)
    ensures var o := Scan(since, now, samples, grace); var e := Call(now, samples, o.stalled);
      && (SawReady(e, k) ==> k in o.since && o.since[k] == Entry(since, k, now))
      && (SawIdle(e, k) ==> k !in o.since)
      && (!SawReady(e, k) && !SawIdle(e, k) ==> (k in o.since <==> k in since) && (k in since ==> o.since[k] == since[k]))
    decreases |samples|
  {
    if samples != [] {
      var key := samples[0].key;
      var rest := samples[1..];
      var o := Scan(since, now, samples, grace);
      var e := Call(now, samples, o.stalled);
      assert forall p :: 0 < p < |samples| ==> samples[p] == rest[p - 1];
      if Judged(since, now, samples[0], grace) {
        assert Looked(e, 0);
      } else {
        var next := if !samples[0].ready then since - {key} else if key in since then since else since[key := now];
        ScanEntries(next, now, rest, grace, k);
        assert o == Scan(next, now, rest, grace);
        var f := Call(now, rest, o.stalled);
        VerdictInSamples(next, now, rest, grace);
        assert Looked(e, 0);
        assert forall p: nat :: Looked(e, p + 1) <==> Looked(f, p);
        assert SawReady(e, k) <==> samples[0] == Sample(k, true) || SawReady(f, k);
        assert SawIdle(e, k) <==> samples[0] == Sample(k, false) || SawIdle(f, k);
      }
    }
  }

  lemma VerdictInSamples(since: Since, now: nat, samples: seq<Sample>, grace: nat)
    requires Distinct(samples)
    ensures var v := Scan(since, now, samples, grace).stalled; v.Some? ==> v.value in Keys(samples)
  {
    ScanVerdict(since, now, samples, grace);
  }

  // ---------- many calls ----------

  lemma OneSampleEach(e: Event, k: Key)
    requires e.Call? && Distinct(e.samples)
    ensures !(SawReady(e, k) && SawIdle(e, k))
    ensures SawReady(e, k) || SawIdle(e, k) ==> Present(e, k)
  {
    if SawReady(e, k) {
      var p: nat :| Looked(e, p) && e.samples[p] == Sample(k, true);
      forall q: nat | Looked(e, q) ensures e.samples[q] != Sample(k, false) {
        assert q < p || q == p || p < q;
      }
    }
  }

  lemma RunExtends(events: seq<Event>, i: nat, n: nat, k: Key)
    requires n < |events|
    ensures Run(events, i, n + 1, k)
         <==> (Run(events, i, n, k) || (i == n && SawReady(events[n], k))) && Held(events[n], k)
  {
    HeldExtends(events, i, n, k);
  }

  lemma HeldExtends(events: seq<Event>, i: nat, n: nat, k: Key)
    requires n < |events|
    ensures i <= n ==> (AllHeld(events, i, n + 1, k) <==> AllHeld(events, i, n, k) && Held(events[n], k))
  {
  }

  /** `since` after event n maps k to the time `at`: of a run, and no run is older. */
  ghost predicate OldestRun(events: seq<Event>, n: nat, k: Key, at: nat) {
    && n <= |events|
    && (exists i: nat :: Run(events, i, n, k) && events[i].now == at)
    && forall i: nat :: Run(events, i, n, k) ==> at <= events[i].now
  }

  /** Entries are exactly the keys with an unbroken run, at the time that run began. */
  lemma {:induction false} EntryIsRunStart(events: seq<Event>, since: seq<Since>, grace: nat, n: nat, k: Key)
    requires Behaves(events, since, grace) && Monotone(events) && n <= |events|
    ensures k in since[n] <==> exists i: nat :: Run(events, i, n, k)
    ensures k in since[n] ==> OldestRun(events, n, k, since[n][k])
  {
    if n > 0 {
      var m := n - 1;
      EntryIsRunStart(events, since, grace, m, k);
      assert Follows(events[m], since[m], since[n], grace);
      forall i: nat ensures Run(events, i, n, k) <==>
        (Run(events, i, m, k) || (i == m && SawReady(events[m], k))) && Held(events[m], k) {
        RunExtends(events, i, m, k);
      }
      if events[m].Call? {
        EntryStep(events, since, grace, m, n, k);
      }
    }
  }

  lemma EntryStep(events: seq<Event>, since: seq<Since>, grace: nat, m: nat, n: nat, k: Key)
    requires Behaves(events, since, grace) && Monotone(events) && n == m + 1 <= |events| && events[m].Call?
    requires k in since[m] <==> exists i: nat :: Run(events, i, m, k)
    requires k in since[m] ==> OldestRun(events, m, k, since[m][k])
    requires forall i: nat :: Run(events, i, n, k) <==>
      (Run(events, i, m, k) || (i == m && SawReady(events[m], k))) && Held(events[m], k)
    ensures k in since[n] <==> exists i: nat :: Run(events, i, n, k)
    ensures k in since[n] ==> OldestRun(events, n, k, since[n][k])
  {
    var e := events[m];
    var kept := Retain(since[m], Keys(e.samples));
    assert Follows(e, since[m], since[n], grace);
    ScanEntries(kept, e.now, e.samples, grace, k);
    OneSampleEach(e, k);
    if SawReady(e, k) {
      if k in since[m] {
        var i: nat :| Run(events, i, m, k) && events[i].now == since[m][k];
        assert Run(events, i, n, k);
      } else {
        assert Run(events, m, n, k);
      }
    } else if Held(e, k) && k in since[m] {
      var i: nat :| Run(events, i, m, k) && events[i].now == since[m][k];
      assert Run(events, i, n, k);
    }
  }

  ghost predicate FirstHit(events: seq<Event>, n: nat, p: nat, grace: nat)
    requires n < |events| && events[n].Call?
  {
    Hit(events, n, p, grace) && forall q: nat :: q < p ==> !Hit(events, n, q, grace)
  }

  /** The verdict of any call in any history: the first sample, in their order, that is ready now
      and whose key has been waiting for the grace period; none exactly when there is no such. */
  lemma VerdictIsFirstOverdue(events: seq<Event>, since: seq<Since>, grace: nat, n: nat)
    requires Behaves(events, since, grace) && Monotone(events) && n < |events| && events[n].Call?
    ensures events[n].verdict.None? <==> forall p: nat :: !Hit(events, n, p, grace)
    ensures forall k :: events[n].verdict == Some(k)
                   <==> exists p: nat :: FirstHit(events, n, p, grace) && events[n].samples[p].key == k
  {
    var e := events[n];
    var kept := Retain(since[n], Keys(e.samples));
    assert Follows(e, since[n], since[n + 1], grace);
    ScanVerdict(kept, e.now, e.samples, grace);
    forall p: nat | p < |e.samples| ensures Hit(events, n, p, grace) <==> Judged(kept, e.now, e.samples[p], grace) {
      HitIsJudged(events, since, grace, n, p);
    }
    if e.verdict.Some? {
      var p :| FirstJudged(kept, e.now, e.samples, grace, p) && e.samples[p].key == e.verdict.value;
      assert FirstHit(events, n, p, grace);
      assert forall q: nat :: FirstHit(events, n, q, grace) ==> q == p;
    }
  }

  lemma HitIsJudged(events: seq<Event>, since: seq<Since>, grace: nat, n: nat, p: nat)
    requires Behaves(events, since, grace) && Monotone(events) && n < |events| && events[n].Call?
    requires p < |events[n].samples|
    ensures Hit(events, n, p, grace)
       <==> Judged(Retain(since[n], Keys(events[n].samples)), events[n].now, events[n].samples[p], grace)
  {
    var e := events[n];
    var k := e.samples[p].key;
    EntryIsRunStart(events, since, grace, n, k);
    assert k in Keys(e.samples);
    if k in since[n] {
      var i: nat :| Run(events, i, n, k) && events[i].now == since[n][k];
      assert events[i].now <= e.now;
    }
  }

  // ---------- continuous waiting ----------

  /** Every verdict is followed by a clear before the next call. */
  ghost predicate Disciplined(events: seq<Event>) {
    forall j :: 0 <= j < |events| - 1 && events[j].Call? && events[j].verdict.Some? ==> events[j + 1].Clear?
  }

  ghost predicate ReadyIn(e: Event, k: Key) {
    e.Call? && Sample(k, true) in e.samples
  }

  ghost predicate AllReady(events: seq<Event>, i: nat, n: nat, k: Key)
    requires n <= |events|
  {
    forall j :: i <= j < n ==> ReadyIn(events[j], k)
  }

  /** Under that discipline a run is what it sounds like: k ready in every call from i on. */
  lemma RunIsContinuous(events: seq<Event>, since: seq<Since>, grace: nat, i: nat, n: nat, k: Key)
    requires Behaves(events, since, grace) && Disciplined(events)
    requires i < n < |events| && events[n].Call?
    ensures Run(events, i, n, k) <==> AllReady(events, i, n, k)
  {
    if AllHeld(events, i, n, k) || AllReady(events, i, n, k) {
      AllCalls(events, i, n, k);
      NoVerdictBetween(events, i, n);
      forall j | i <= j < n ensures ReadyIn(events[j], k) <==> Held(events[j], k) {
        SeenAt(events, since, grace, j, k);
      }
      SeenAt(events, since, grace, i, k);
    }
  }

  lemma AllCalls(events: seq<Event>, i: nat, n: nat, k: Key)
    requires n < |events| && events[n].Call? && (AllHeld(events, i, n, k) || AllReady(events, i, n, k))
    ensures forall j :: i <= j <= n ==> events[j].Call?
  {
    forall j | i <= j < n ensures events[j].Call? {
      assert Held(events[j], k) || ReadyIn(events[j], k);
    }
  }

  lemma SeenAt(events: seq<Event>, since: seq<Since>, grace: nat, j: nat, k: Key)
    requires Behaves(events, since, grace) && j < |events| && events[j].Call? && events[j].verdict.None?
    ensures ReadyIn(events[j], k) <==> Held(events[j], k)
    ensures ReadyIn(events[j], k) ==> SawReady(events[j], k)
  {
    assert Follows(events[j], since[j], since[j + 1], grace);
    SeenWhole(events[j], k, since[j], since[j + 1], grace);
  }

  lemma NoVerdictBetween(events: seq<Event>, i: nat, n: nat)
    requires Disciplined(events) && n < |events| && forall j :: i <= j <= n ==> events[j].Call?
    ensures forall j :: i <= j < n ==> events[j].verdict.None?
  {
    forall j | i <= j < n ensures events[j].verdict.None? {
      assert events[j + 1].Call?;
    }
  }

  lemma SeenWhole(e: Event, k: Key, before: Since, after: Since, grace: nat)
    requires Follows(e, before, after, grace) && e.Call? && e.verdict.None?
    ensures ReadyIn(e, k) <==> Held(e, k)
    ensures ReadyIn(e, k) ==> SawReady(e, k)
  {
    OneSampleEach(e, k);
    if Present(e, k) {
      var p: nat :| p < |e.samples| && e.samples[p].key == k;
      assert Looked(e, p);
      assert e.samples[p] == Sample(k, true) || e.samples[p] == Sample(k, false);
    }
    if ReadyIn(e, k) {
      var p: nat :| p < |e.samples| && e.samples[p] == Sample(k, true);
      assert Looked(e, p);
    }
  }

  lemma ContinuousIsOverdue(events: seq<Event>, since: seq<Since>, grace: nat, n: nat)
    requires Behaves(events, since, grace) && Disciplined(events) && grace > 0
    requires n < |events| && events[n].Call?
    ensures forall p: nat :: Continuous(events, n, p, grace) <==> Hit(events, n, p, grace)
    ensures forall p: nat :: FirstContinuous(events, n, p, grace) <==> FirstHit(events, n, p, grace)
  {
    forall p: nat ensures Continuous(events, n, p, grace) <==> Hit(events, n, p, grace) {
      if p < |events[n].samples| {
        var key := events[n].samples[p].key;
        forall i: nat | i < n ensures Run(events, i, n, key) <==> AllReady(events, i, n, key) {
          RunIsContinuous(events, since, grace, i, n, key);
        }
        ContinuousIsHit(events, n, p, grace);
      }
    }
  }

  /** The promise: with a clear after every verdict, a call names k exactly when k is the first
      ready sample that has been present and ready in every call over at least the grace period. */
  lemma ContinuousBacklog(events: seq<Event>, since: seq<Since>, grace: nat, n: nat, k: Key)
    requires Behaves(events, since, grace) && Monotone(events) && Disciplined(events) && grace > 0
    requires n < |events| && events[n].Call?
    ensures events[n].verdict == Some(k) <==> exists p: nat :: FirstContinuous(events, n, p, grace) && events[n].samples[p].key == k
    ensures events[n].verdict.None? <==> forall p: nat :: !Continuous(events, n, p, grace)
  {
    VerdictIsFirstOverdue(events, since, grace, n);
    ContinuousIsOverdue(events, since, grace, n);
  }

  /** Ready in this call and in every one since call i, the grace period ago or longer. */
  ghost predicate Continuous(events: seq<Event>, n: nat, p: nat, grace: nat)
    requires n < |events| && events[n].Call?
  {
    && p < |events[n].samples| && events[n].samples[p].ready
    && exists i: nat :: Spans(events, i, n, events[n].samples[p].key, grace)
  }

  ghost predicate Spans(events: seq<Event>, i: nat, n: nat, k: Key, grace: nat)
    requires n < |events| && events[n].Call?
  {
    i < n && AllReady(events, i, n, k) && events[i].Call? && events[i].now + grace <= events[n].now
  }

  ghost predicate FirstContinuous(events: seq<Event>, n: nat, p: nat, grace: nat)
    requires n < |events| && events[n].Call?
  {
    Continuous(events, n, p, grace) && forall q: nat :: q < p ==> !Continuous(events, n, q, grace)
  }

  lemma ContinuousIsHit(events: seq<Event>, n: nat, p: nat, grace: nat)
    requires n < |events| && events[n].Call? && p < |events[n].samples| && grace > 0
    requires var k := events[n].samples[p].key;
      forall i: nat :: i < n ==> (Run(events, i, n, k) <==> AllReady(events, i, n, k))
    ensures Continuous(events, n, p, grace) <==> Hit(events, n, p, grace)
  {
    var k := events[n].samples[p].key;
    if Hit(events, n, p, grace) {
      var i: nat :| Run(events, i, n, k) && events[i].now + grace <= events[n].now;
      assert Spans(events, i, n, k, grace);
    }
    if Continuous(events, n, p, grace) {
      var i: nat :| Spans(events, i, n, k, grace);
      assert Run(events, i, n, k);
    }
  }

  /** Without the clear that reading fails: a call that stops at another key does not look at k's
      idle sample, and k is named later as if it had waited throughout. */
  lemma SkippedIdleSample(a: Key, b: Key, middle: nat, later: nat, grace: nat)
    returns (events: seq<Event>, since: seq<Since>)
    requires a != b && 0 < grace <= middle < later
    ensures Behaves(events, since, grace) && Monotone(events) && !Disciplined(events)
    ensures |events| == 3 && events[1].Call? && events[1].now == middle && Sample(b, false) in events[1].samples
    ensures events[2].Call? && events[2].now == later && events[2].verdict == Some(b)
  {
    var first, second, third :=
      [Sample(a, true), Sample(b, true)], [Sample(a, true), Sample(b, false)], [Sample(a, false), Sample(b, true)];
    events := [Call(0, first, None), Call(middle, second, Some(a)), Call(later, third, Some(b))];
    var both := map[a := 0, b := 0];
    since := [map[], both, both, Observed(both, later, third, grace).since];
    BothThenFirst(a, b, middle, grace);
    TwoSamples(both, later, a, false, b, true, grace);
    ThreeEvents(events[0], events[1], events[2], both, both, since[3], grace);
    assert events[0].now <= events[1].now <= events[2].now;
    assert Sample(b, false) == second[1] && !events[2].Clear?;
  }

  lemma ThreeEvents(e0: Event, e1: Event, e2: Event, s1: Since, s2: Since, s3: Since, grace: nat)
    requires Follows(e0, map[], s1, grace) && Follows(e1, s1, s2, grace) && Follows(e2, s2, s3, grace)
    ensures Behaves([e0, e1, e2], [map[], s1, s2, s3], grace)
  {
  }

  lemma BothThenFirst(a: Key, b: Key, middle: nat, grace: nat)
    requires a != b && 0 < grace <= middle
    ensures var both := map[a := 0, b := 0];
      && Observed(map[], 0, [Sample(a, true), Sample(b, true)], grace) == Observation(both, None)
      && Observed(both, middle, [Sample(a, true), Sample(b, false)], grace) == Observation(both, Some(a))
  {
    var both := map[a := 0, b := 0];
    TwoSamples(map[], 0, a, true, b, true, grace);
    TwoSamples(both, middle, a, true, b, false, grace);
    assert both[a := 0] == both;
  }

  lemma TwoSamples(since: Since, now: nat, a: Key, readyA: bool, b: Key, readyB: bool, grace: nat)
    requires a != b && since.Keys <= {a, b}
    ensures var samples := [Sample(a, readyA), Sample(b, readyB)];
      var first := if !readyA then since - {a} else since[a := Entry(since, a, now)];
      var second := if !readyB then first - {b} else first[b := Entry(since, b, now)];
      Observed(since, now, samples, grace)
      == if readyA && Elapsed(now, first[a]) >= grace then Observation(first, Some(a))
         else if readyB && Elapsed(now, second[b]) >= grace then Observation(second, Some(b))
         else Observation(second, None)
  {
    var samples := [Sample(a, readyA), Sample(b, readyB)];
    assert samples[0].key == a && samples[1].key == b;
    var first := if !readyA then since - {a} else since[a := Entry(since, a, now)];
    assert Retain(since, Keys(samples)) == since;
    assert readyA ==> first == if a in since then since else since[a := now];
    OneSample(first, now, b, readyB, grace);
    assert samples[1..] == [Sample(b, readyB)];
  }

  lemma OneSample(since: Since, now: nat, b: Key, ready: bool, grace: nat)
    ensures var after := if !ready then since - {b} else since[b := Entry(since, b, now)];
      Scan(since, now, [Sample(b, ready)], grace)
      == Observation(after, if ready && Elapsed(now, after[b]) >= grace then Some(b) else None)
  {
    var after := if !ready then since - {b} else since[b := Entry(since, b, now)];
    assert ready ==> after == if b in since then since else since[b := now];
    assert [Sample(b, ready)][1..] == [];
  }
}
