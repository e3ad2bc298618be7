/**
 * The run queue (scheduler.rs): a bounded queue without duplicate run ids, the choice of the
 * next ready run by aged priority, and the global and per-provider slot counters. Times are
 * milliseconds since the epoch.
 */
module Scheduling {
  import opened Wrappers
  import Text
  import Models

  datatype ScheduledRun = ScheduledRun(
    runId: string,
    provider: Models.Provider,
    priority: int,
    queuedAt: int,
    notBefore: int)

  /** `Duration::num_seconds` of a non-negative span of milliseconds, clamped at 0 below. */
  function WaitedSeconds(run: ScheduledRun, now: int): (r: nat)
    ensures now - run.queuedAt < 1000 ==> r == 0
  {
    if now - run.queuedAt <= 0 then 0 else (now - run.queuedAt) / 1000
  }

  /** `effective_priority`: base priority times 100 plus one point per 15 s waited. */
  function EffectivePriority(run: ScheduledRun, now: int): int
  {
    run.priority * 100 + WaitedSeconds(run, now) / 15
  }

  /** Of two runs with the same base priority, the one queued earlier never ranks lower. */
  lemma OlderRunNeverRanksLower(older: ScheduledRun, newer: ScheduledRun, now: int)
    requires older.priority == newer.priority && older.queuedAt <= newer.queuedAt
    ensures EffectivePriority(older, now) >= EffectivePriority(newer, now)
  {
    assert WaitedSeconds(older, now) >= WaitedSeconds(newer, now);
  }

  /**
   * Base priority dominates aging for waits under 25 minutes: a run one priority step higher
   * outranks one queued up to that much earlier.
   */
  lemma PriorityStepOutweighsShortWait(high: ScheduledRun, low: ScheduledRun, now: int)
    requires high.priority == low.priority + 1
    requires high.queuedAt <= now && now - low.queuedAt < 1500 * 1000
    ensures EffectivePriority(high, now) > EffectivePriority(low, now)
  {
    assert WaitedSeconds(low, now) < 1500;
  }

  /** A run queued two minutes ago outranks a fresh one of the same base priority. */
  lemma TwoMinutesOfAgingCount(aged: ScheduledRun, recent: ScheduledRun, now: int)
    requires aged.priority == recent.priority
    requires aged.queuedAt == now - 120 * 1000 && recent.queuedAt == now
    ensures EffectivePriority(aged, now) > EffectivePriority(recent, now)
  {
  }

  predicate IsReady(run: ScheduledRun, now: int)
  {
    run.notBefore <= now
  }

  predicate Queued(queue: seq<ScheduledRun>, runId: string)
  {
    exists i :: 0 <= i < |queue| && queue[i].runId == runId
  }

  predicate DistinctIds(queue: seq<ScheduledRun>)
  {
    forall i, j :: 0 <= i < j < |queue| ==> queue[i].runId != queue[j].runId
  }

  /** The earliest `not_before` of a non-empty queue. */
  function MinNotBefore(queue: seq<ScheduledRun>): (r: int)
    requires queue != []
    ensures forall i :: 0 <= i < |queue| ==> r <= queue[i].notBefore
    ensures exists i :: 0 <= i < |queue| && r == queue[i].notBefore
  {
    if |queue| == 1 then queue[0].notBefore
    else
      var rest := MinNotBefore(queue[1..]);
      assert forall i :: 1 <= i < |queue| ==> queue[i] == queue[1..][i - 1];
      if queue[0].notBefore <= rest then queue[0].notBefore else rest
  }

  /**
   * The index `max_by_key` picks among the ready runs: the last one of greatest effective
   * priority, or `None` when nothing is ready.
   */
  method SelectBest(queue: seq<ScheduledRun>, now: int) returns (best: Option<nat>)
    ensures best.None? <==> forall i :: 0 <= i < |queue| ==> !IsReady(queue[i], now)
    ensures best.Some? ==> best.value < |queue| && IsReady(queue[best.value], now)
    ensures best.Some? ==> forall i :: 0 <= i < |queue| && IsReady(queue[i], now) ==>
              EffectivePriority(queue[i], now) <= EffectivePriority(queue[best.value], now)
    ensures best.Some? ==> forall i :: best.value < i < |queue| && IsReady(queue[i], now) ==>
              EffectivePriority(queue[i], now) < EffectivePriority(queue[best.value], now)
  {
    best := None;
    var i := 0;
    while i < |queue|
      invariant 0 <= i <= |queue|
      invariant best.None? <==> forall j :: 0 <= j < i ==> !IsReady(queue[j], now)
      invariant best.Some? ==> best.value < i && IsReady(queue[best.value], now)
      invariant best.Some? ==> forall j :: 0 <= j < i && IsReady(queue[j], now) ==>
                  EffectivePriority(queue[j], now) <= EffectivePriority(queue[best.value], now)
      invariant best.Some? ==> forall j :: best.value < j < i && IsReady(queue[j], now) ==>
                  EffectivePriority(queue[j], now) < EffectivePriority(queue[best.value], now)
    {
      if IsReady(queue[i], now)
         && (best.None? || EffectivePriority(queue[i], now) >= EffectivePriority(queue[best.value], now))
      {
        best := Some(i);
      }
      i := i + 1;
    }
  }

  class Scheduler {
    var queue: seq<ScheduledRun>
    var runningGlobal: nat
    var runningProvider: map<Models.Provider, nat>
    const globalLimit: nat
    const perProviderLimit: nat
    const maxQueueSize: nat

    /** The running count of `provider`, 0 when it has no entry yet. */
    function ProviderCount(provider: Models.Provider): nat
      reads this
    {
      if provider in runningProvider then runningProvider[provider] else 0
    }

    /** No run is queued twice, the queue respects its bound, and no limit is exceeded. */
    ghost predicate Valid()
      reads this
    {
      DistinctIds(queue) && |queue| <= maxQueueSize
      && runningGlobal <= globalLimit
      && forall p :: p in runningProvider ==> runningProvider[p] <= perProviderLimit
    }

    constructor (globalLimit: nat, perProviderLimit: nat, maxQueueSize: nat)
      ensures Valid()
      ensures queue == [] && runningGlobal == 0 && runningProvider == map[]
      ensures this.globalLimit == globalLimit && this.perProviderLimit == perProviderLimit
      ensures this.maxQueueSize == maxQueueSize
    {
      queue := [];
      runningGlobal := 0;
      runningProvider := map[];
      this.globalLimit := globalLimit;
      this.perProviderLimit := perProviderLimit;
      this.maxQueueSize := maxQueueSize;
    }

    /**
     * `enqueue`: a run id already queued is accepted without change; a full queue refuses
     * the run; otherwise the run goes to the back.
     */
    method Enqueue(run: ScheduledRun) returns (r: Result<(), string>)
      requires Valid()
      modifies this`queue
      ensures Valid()
      ensures old(Queued(queue, run.runId)) ==> r.Ok? && queue == old(queue)
      ensures !old(Queued(queue, run.runId)) && old(|queue|) >= maxQueueSize ==>
                r == Err("Queue capacity exceeded (max " + Text.NatToString(maxQueueSize) + ").")
                && queue == old(queue)
      ensures !old(Queued(queue, run.runId)) && old(|queue|) < maxQueueSize ==>
                r.Ok? && queue == old(queue) + [run]
    {
      var i := 0;
      while i < |queue|
        invariant 0 <= i <= |queue|
        invariant forall j :: 0 <= j < i ==> queue[j].runId != run.runId
      {
        if queue[i].runId == run.runId {
          return Ok(());
        }
        i := i + 1;
      }
      if |queue| >= maxQueueSize {
        return Err("Queue capacity exceeded (max " + Text.NatToString(maxQueueSize) + ").");
      }
      queue := queue + [run];
      r := Ok(());
    }

    /** `has_capacity`: whether one more distinct run would be accepted. */
    function HasCapacity(): (r: bool)
      reads this
      ensures r <==> |queue| < maxQueueSize
    {
      |queue| < maxQueueSize
    }

    /**
     * `pick_next_run`: on an empty queue nothing; when no run is ready, the wait until the
     * earliest `not_before` (at least 0) and no change; otherwise the ready run `SelectBest`
     * chooses, removed from the queue with every other run left in order.
     */
    method PickNextRun(now: int) returns (picked: Option<ScheduledRun>, delay: Option<nat>)
      requires Valid()
      modifies this`queue
      ensures Valid()
      ensures old(queue) == [] ==> picked.None? && delay.None? && queue == old(queue)
      ensures old(queue) != [] && (forall i :: 0 <= i < |old(queue)| ==> !IsReady(old(queue)[i], now)) ==>
                picked.None? && queue == old(queue)
                && delay == Some(if MinNotBefore(old(queue)) - now <= 0 then 0 else MinNotBefore(old(queue)) - now)
      ensures picked.Some? ==>
                exists b :: 0 <= b < |old(queue)| && picked.value == old(queue)[b]
                  && IsReady(old(queue)[b], now)
                  && (forall i :: 0 <= i < |old(queue)| && IsReady(old(queue)[i], now) ==>
                        EffectivePriority(old(queue)[i], now) <= EffectivePriority(picked.value, now))
                  && queue == old(queue)[..b] + old(queue)[b + 1..]
      ensures (exists i :: 0 <= i < |old(queue)| && IsReady(old(queue)[i], now)) ==> picked.Some? && delay.None?
    {
      if queue == [] {
        return None, None;
      }
      var best := SelectBest(queue, now);
      if best.None? {
        var next := MinNotBefore(queue);
        var diff := next - now;
        return None, Some(if diff <= 0 then 0 else diff);
      }
      var b := best.value;
      picked := Some(queue[b]);
      delay := None;
      RemovingKeepsDistinct(queue, b);
      queue := queue[..b] + queue[b + 1..];
    }

    /**
     * `try_reserve_slot`: succeeds iff both the global and the provider's count are below
     * their limits, and only then increments both. A refusal by the provider limit leaves a
     * zero entry for the provider, which changes no count.
     */
    method TryReserveSlot(provider: Models.Provider) returns (ok: bool)
      requires Valid()
      modifies this`runningGlobal, this`runningProvider
      ensures Valid()
      ensures ok <==> old(runningGlobal) < globalLimit && old(ProviderCount(provider)) < perProviderLimit
      ensures ok ==> runningGlobal == old(runningGlobal) + 1 && ProviderCount(provider) == old(ProviderCount(provider)) + 1
      ensures !ok ==> runningGlobal == old(runningGlobal) && ProviderCount(provider) == old(ProviderCount(provider))
      ensures forall p :: p != provider ==> ProviderCount(p) == old(ProviderCount(p))
    {
      if runningGlobal >= globalLimit {
        return false;
      }
      var entry := ProviderCount(provider);
      runningProvider := runningProvider[provider := entry];
      if entry >= perProviderLimit {
        return false;
      }
      runningGlobal := runningGlobal + 1;
      runningProvider := runningProvider[provider := entry + 1];
      ok := true;
    }

    /** `release_slot`: decrements both counts, neither below zero. */
    method ReleaseSlot(provider: Models.Provider)
      requires Valid()
      modifies this`runningGlobal, this`runningProvider
      ensures Valid()
      ensures runningGlobal == if old(runningGlobal) > 0 then old(runningGlobal) - 1 else 0
      ensures ProviderCount(provider) == if old(ProviderCount(provider)) > 0 then old(ProviderCount(provider)) - 1 else 0
      ensures forall p :: p != provider ==> ProviderCount(p) == old(ProviderCount(p))
    {
      if runningGlobal > 0 {
        runningGlobal := runningGlobal - 1;
      }
      if provider in runningProvider && runningProvider[provider] > 0 {
        runningProvider := runningProvider[provider := runningProvider[provider] - 1];
      }
    }
  }

  /** Removing one run keeps the remaining ids distinct. */
  lemma RemovingKeepsDistinct(queue: seq<ScheduledRun>, b: nat)
    requires b < |queue| && DistinctIds(queue)
    ensures DistinctIds(queue[..b] + queue[b + 1..])
  {
    var rest := queue[..b] + queue[b + 1..];
    forall i, j | 0 <= i < j < |rest|
      ensures rest[i].runId != rest[j].runId
    {
      var oi := if i < b then i else i + 1;
      var oj := if j < b then j else j + 1;
      assert rest[i] == queue[oi] && rest[j] == queue[oj];
    }
  }

  /**
   * A scheduler with one slot and one queue place: the first run is accepted and a second,
   * different run is refused for capacity.
   */
  method QueueCapacityIsEnforced(now: int)
  {
    var s := new Scheduler(1, 1, 1);
    var first := ScheduledRun("first", Models.Codex, 0, now, now);
    var second := ScheduledRun("second", Models.Claude, 0, now, now);
    var r1 := s.Enqueue(first);
    assert r1.Ok?;
    assert !Queued(s.queue, "second") by {
      assert s.queue == [first];
      assert first.runId != "second";
    }
    var r2 := s.Enqueue(second);
    assert r2.Err?;
  }
}
