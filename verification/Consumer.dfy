/** The libinput consumers the monitor watches (src/consumer.rs): which of them are known, which
    have unread input, and which has left input unread for the whole grace period. Discovery and
    polling are results handed in. Times are nanoseconds of a monotone clock. */
module Consumer {
  import opened Policy

  const MILLISECOND := 1_000_000

  datatype Key = Key(pid: nat, remoteFd: int, eventNode: string)

  datatype Sample = Sample(key: Key, ready: bool)

  type Since = map<Key, nat>

  /** Instant::duration_since, which saturates at zero */
  function Elapsed(now: nat, since: nat): nat {
    if since <= now then now - since else 0
  }

  // ---------- the backlog ----------

  datatype Observation = Observation(since: Since, stalled: Option<Key>)

  function Keys(samples: seq<Sample>): (keys: set<Key>)
    ensures forall k :: k in keys <==> exists p :: 0 <= p < |samples| && samples[p].key == k
  {
    set p | 0 <= p < |samples| :: samples[p].key
  }

  /** What one call makes of the samples, given the entries that survived for present keys. */
  function Scan(since: Since, now: nat, samples: seq<Sample>, grace: nat): Observation
    decreases |samples|
  {
    if samples == [] then Observation(since, None) else
    var key := samples[0].key;
    if !samples[0].ready then Scan(since - {key}, now, samples[1..], grace) else
    var entered := if key in since then since else since[key := now];
    if Elapsed(now, entered[key]) >= grace then Observation(entered, Some(key))
    else Scan(entered, now, samples[1..], grace)
  }

  function Retain(since: Since, keys: set<Key>): Since {
    map k | k in since && k in keys :: since[k]
  }

  function Observed(since: Since, now: nat, samples: seq<Sample>, grace: nat): Observation {
    Scan(Retain(since, Keys(samples)), now, samples, grace)
  }

  class BacklogObserver {
    var readySince: Since

    constructor ()
      ensures readySince == map[]
    {
      readySince := map[];
    }

    method Observe(now: nat, samples: seq<Sample>, grace: nat) returns (stalled: Option<Key>)
      modifies this
      ensures Observation(readySince, stalled) == Observed(old(readySince), now, samples, grace)
    {
      var present := set p | 0 <= p < |samples| :: samples[p].key;
      readySince := map k | k in readySince && k in present :: readySince[k];
      assert present == Keys(samples);
      for i := 0 to |samples|
        invariant Scan(readySince, now, samples[i..], grace) == Observed(old(readySince), now, samples, grace)
      {
        var key, ready := samples[i].key, samples[i].ready;
        assert samples[i..][0] == samples[i] && samples[i..][1..] == samples[i + 1..];
        if !ready {
          readySince := readySince - {key};
          continue;
        }
        if key !in readySince {
          readySince := readySince[key := now];
        }
        if Elapsed(now, readySince[key]) >= grace {
          return Some(key);
        }
      }
      return None;
    }

    method Clear()
      modifies this
      ensures readySince == map[]
    {
      readySince := map[];
    }
  }

  // ---------- the watched descriptors ----------

  datatype Readiness = Idle | Ready | Dead

  datatype Refresh = Skipped | Refreshed | RefreshFailed

  datatype Watched = Watched(consumers: seq<Key>, refreshedAt: Option<nat>)

  /** A descriptor without a poll result is one whose poll failed. */
  predicate Alive(poll: map<Key, Readiness>, key: Key) {
    key in poll && poll[key] != Dead
  }

  function AliveOnes(consumers: seq<Key>, poll: map<Key, Readiness>): (alive: seq<Key>)
    ensures |alive| <= |consumers|
    ensures forall i :: 0 <= i < |alive| ==> Alive(poll, alive[i])
  {
    if consumers == [] then [] else
    var front := AliveOnes(consumers[..|consumers| - 1], poll);
    if Alive(poll, consumers[|consumers| - 1]) then front + [consumers[|consumers| - 1]] else front
  }

  function SamplesOf(alive: seq<Key>, poll: map<Key, Readiness>): seq<Sample> {
    seq(|alive|, i requires 0 <= i < |alive| => Sample(alive[i], alive[i] in poll && poll[alive[i]] == Ready))
  }

  predicate Due(w: Watched, now: nat, interval: nat) {
    w.refreshedAt.None? || interval <= Elapsed(now, w.refreshedAt.value)
  }

  function RefreshedIfDue(w: Watched, discovered: Option<seq<Key>>, now: nat, interval: nat): Watched {
    if Due(w, now, interval) && discovered.Some? then Watched(discovered.value, Some(now)) else w
  }

  class ConsumerMonitor {
    const interval: nat
    var consumers: seq<Key>
    var refreshedAt: Option<nat>

    function State(): Watched
      reads this
    {
      Watched(consumers, refreshedAt)
    }

    constructor (interval: nat)
      ensures this.interval == interval && State() == Watched([], None)
    {
      this.interval, consumers, refreshedAt := interval, [], None;
    }

    /** `discovered` is what discovery would return: the descriptors found, or None for an error,
        after which both fields are as before and the next call tries again. */
    method RefreshIfDue(discovered: Option<seq<Key>>, now: nat) returns (r: Refresh)
      modifies this
      ensures State() == RefreshedIfDue(old(State()), discovered, now, interval)
      ensures r == (if !Due(old(State()), now, interval) then Skipped else if discovered.Some? then Refreshed else RefreshFailed)
    {
      if refreshedAt.Some? && Elapsed(now, refreshedAt.value) < interval {
        return Skipped;
      }
      if discovered.None? {
        return RefreshFailed;
      }
      consumers := discovered.value;
      refreshedAt := Some(now);
      return Refreshed;
    }

    method ForceRefresh()
      modifies this
      ensures State() == Watched([], None)
    {
      consumers, refreshedAt := [], None;
    }

    /** Dead descriptors and failed polls leave the list for good; the rest are sampled in order. */
    method SampleReadiness(poll: map<Key, Readiness>) returns (samples: seq<Sample>)
      modifies this
      ensures State() == Watched(AliveOnes(old(consumers), poll), old(refreshedAt))
      ensures samples == SamplesOf(consumers, poll)
    {
      samples := [];
      var kept: seq<Key> := [];
      for i := 0 to |consumers|
        invariant consumers == old(consumers) && refreshedAt == old(refreshedAt)
        invariant kept == AliveOnes(consumers[..i], poll)
        invariant samples == SamplesOf(kept, poll)
      {
        var key := consumers[i];
        assert consumers[..i + 1][..i] == consumers[..i];
        if key in poll && poll[key] != Dead {
          samples := samples + [Sample(key, poll[key] == Ready)];
          kept := kept + [key];
        }
      }
      assert consumers[..|consumers|] == consumers;
      consumers := kept;
    }
  }
}
