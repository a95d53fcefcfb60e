/**
 The launch lease between controller instances that work on the same claim. Reading the claim, judging
 its lease by the clock, clearing an expired one, acquiring, heartbeats and release are separate steps
 that interleave freely; none of the writes is conditional on who holds the lease. All workers read one
 clock.
 */
module LaunchLease {
  import opened Common
  import opened ClaimRecord

  const TIMEOUT := LEASE_TIMEOUT_SECONDS * SECOND

  /**
   Where a worker is: it works on a copy of the lease that was current at `readAt`, it has found the lease
   expired and is about to clear it, it is about to acquire, or it is between acquire and release. `seen`
   is the number of acquisitions when it read, `beat` the stamp of its last heartbeat that landed.
   */
  datatype Worker =
    | Idle
    | Reading(copy: Option<Lease>, seen: nat, readAt: int)
    | Clearing(seen: nat)
    | Acquiring(seen: nat)
    | Holding(beat: int)

  /** `acquisitions` counts the acquire writes that took effect. */
  datatype State = State(
    lease: Option<Lease>,
    clock: int,
    workers: map<string, Worker>,
    acquisitions: nat)

  datatype Action =
    | Read(worker: string)
    | Judge(worker: string)
    | Clear(worker: string, write: Write)
    | Acquire(worker: string, stamp: int, write: Write)
    | Heartbeat(worker: string, stamp: int, landed: bool)
    | LateHeartbeat(stamp: int)
    | Release(worker: string, write: Write)
    | Crash(worker: string)
    | Tick(time: int)

  function Refreshed(l: Option<Lease>, stamp: int): Option<Lease> {
    if IsLaunchLease(l) then Some(l.value.(lastHeartbeat := Some(stamp))) else l
  }

  /** The decision on a copy of the lease, with the clock as it is when the decision is made. */
  function Judged(copy: Option<Lease>, seen: nat, now: int): Worker {
    if !IsLaunchLease(copy) then Acquiring(seen)
    else if LeaseExpired(copy.value, now) then Clearing(seen)
    else Idle
  }

  /**
   A heartbeat takes its stamp between its own read and its write. The write lands only if nothing changed in
   between, so its stamp is not older than the one it replaces.
   */
  predicate StampFits(s: State, stamp: int) {
    stamp <= s.clock && (IsLaunchLease(s.lease) ==> LeaseReferenceTime(s.lease.value) <= stamp)
  }

  predicate Enabled(s: State, a: Action) {
    match a
    case Read(w) => w in s.workers && s.workers[w].Idle?
    case Judge(w) => w in s.workers && s.workers[w].Reading?
    case Clear(w, _) => w in s.workers && s.workers[w].Clearing?
    case Acquire(w, stamp, _) => w in s.workers && s.workers[w].Acquiring? && stamp <= s.clock
    case Heartbeat(w, stamp, _) => Holds(s, w) && StampFits(s, stamp)
    case LateHeartbeat(stamp) => StampFits(s, stamp)
    case Release(w, _) => Holds(s, w)
    case Crash(w) => w in s.workers
    case Tick(t) => s.clock <= t
  }

  function Apply(s: State, a: Action): State
    requires Enabled(s, a)
  {
    match a
    case Read(w) => s.(workers := s.workers[w := Reading(s.lease, s.acquisitions, s.clock)])
    case Judge(w) =>
      s.(workers := s.workers[w := Judged(s.workers[w].copy, s.workers[w].seen, s.clock)])
    case Clear(w, write) =>
      s.(lease := Store(s.lease, Cleared(s.lease), write),
         workers := s.workers[w := if write.Written? then Acquiring(s.workers[w].seen) else Idle])
    case Acquire(w, stamp, write) =>
      s.(lease := Store(s.lease, Some(NewLease(w, stamp)), write),
         acquisitions := if write.Rejected? then s.acquisitions else s.acquisitions + 1,
         workers := s.workers[w := if write.Written? then Holding(stamp) else Idle])
    case Heartbeat(w, stamp, landed) =>
      if landed then
        s.(lease := Refreshed(s.lease, stamp), workers := s.workers[w := Holding(stamp)])
      else s
    case LateHeartbeat(stamp) => s.(lease := Refreshed(s.lease, stamp))
    case Release(w, write) =>
      s.(lease := Store(s.lease, Cleared(s.lease), write), workers := s.workers[w := Idle])
    case Crash(w) => s.(workers := s.workers[w := Idle])
    case Tick(t) => s.(clock := t)
  }

  // ----- what exclusion rests on

  /**
   How well behaved a run is: `beat` bounds the age of a holder's last heartbeat, `delay` the time from a read to
   its judgement, and `gap` the number of acquisitions between a read and the clear or acquire that follows from it.
   */
  datatype Discipline = Discipline(beat: int, delay: int, gap: nat)

  predicate Follows(s: State, a: Action, d: Discipline)
    requires Enabled(s, a)
  {
    && (a.Judge? ==> s.clock - s.workers[a.worker].readAt <= d.delay)
    && (a.Clear? || a.Acquire? ==> s.acquisitions - s.workers[a.worker].seen <= d.gap)
  }

  ghost predicate Beating(s: State, d: Discipline) {
    forall w :: Holds(s, w) ==> s.clock - s.workers[w].beat <= d.beat
  }

  ghost predicate Run(states: seq<State>, actions: seq<Action>, d: Discipline) {
    && |states| == |actions| + 1
    && (forall w :: w in states[0].workers ==> states[0].workers[w].Idle?)
    && (forall k :: 0 <= k < |actions| ==>
          && Enabled(states[k], actions[k]) && Follows(states[k], actions[k], d)
          && states[k + 1] == Apply(states[k], actions[k]))
    && forall k :: 0 <= k < |states| ==> Beating(states[k], d)
  }

  // ----- mutual exclusion

  predicate Holds(s: State, w: string) {
    w in s.workers && s.workers[w].Holding?
  }

  ghost predicate MutualExclusion(s: State) {
    forall v, w :: Holds(s, v) && Holds(s, w) ==> v == w
  }

  /** The stored lease is the holder's own and at least as fresh as its last heartbeat. */
  predicate LeaseOf(s: State, w: string)
    requires Holds(s, w)
  {
    && IsLaunchLease(s.lease)
    && s.lease.value.holder == w
    && s.lease.value.timeoutSeconds == LEASE_TIMEOUT_SECONDS
    && LeaseReferenceTime(s.lease.value) >= s.workers[w].beat
  }

  predicate Pending(w: Worker) {
    w.Clearing? || w.Acquiring?
  }

  /** A worker whose view is not outdated by an acquisition. */
  predicate UpToDate(s: State, v: string) {
    v in s.workers && (Pending(s.workers[v]) || s.workers[v].Reading?) && s.workers[v].seen == s.acquisitions
  }

  /** The copy is of a lease that was fresh when it was read. */
  predicate FreshCopy(w: Worker, beat: int)
    requires w.Reading?
  {
    && IsLaunchLease(w.copy) && w.copy.value.timeoutSeconds == LEASE_TIMEOUT_SECONDS
    && w.readAt - LeaseReferenceTime(w.copy.value) <= beat
  }

  /** While someone holds the lease, up-to-date workers have not passed the judgement, and hold a copy of a fresh lease. */
  ghost predicate LeaseInv(s: State, beat: int) {
    && MutualExclusion(s)
    && (forall w :: Holds(s, w) ==> LeaseOf(s, w) && s.workers[w].beat <= s.clock)
    && (forall v, w :: UpToDate(s, v) && Holds(s, w) ==> s.workers[v].Reading? && FreshCopy(s.workers[v], beat))
    && (forall v :: v in s.workers && (Pending(s.workers[v]) || s.workers[v].Reading?) ==>
          s.workers[v].seen <= s.acquisitions)
  }

  /** A judgement that comes in time turns every worker away while someone else holds the lease. */
  lemma TimelyJudgementTurnsAway(s: State, v: string, w: string, d: Discipline)
    requires LeaseInv(s, d.beat) && Holds(s, w) && UpToDate(s, v) && s.workers[v].Reading?
    requires s.clock - s.workers[v].readAt <= d.delay && d.beat + d.delay <= TIMEOUT
    ensures Judged(s.workers[v].copy, s.workers[v].seen, s.clock).Idle?
  {
    assert FreshCopy(s.workers[v], d.beat);
  }

  lemma ReadKeepsLeaseInv(s: State, a: Action, d: Discipline)
    requires LeaseInv(s, d.beat) && Beating(s, d) && Enabled(s, a) && a.Read?
    ensures LeaseInv(Apply(s, a), d.beat)
  {
    var s' := Apply(s, a);
    forall w | Holds(s', w) ensures Holds(s, w) && LeaseOf(s', w) && FreshCopy(s'.workers[a.worker], d.beat) {
      assert LeaseOf(s, w);
    }
    assert forall v :: UpToDate(s', v) ==> v == a.worker || UpToDate(s, v);
  }

  lemma JudgeKeepsLeaseInv(s: State, a: Action, d: Discipline)
    requires LeaseInv(s, d.beat) && Enabled(s, a) && a.Judge? && Follows(s, a, d) && d.beat + d.delay <= TIMEOUT
    ensures LeaseInv(Apply(s, a), d.beat)
  {
    var s' := Apply(s, a);
    forall w | Holds(s', w) ensures Holds(s, w) && LeaseOf(s', w) {
      assert LeaseOf(s, w);
    }
    forall v, w | UpToDate(s', v) && Holds(s', w)
      ensures UpToDate(s, v) && s'.workers[v] == s.workers[v]
    {
      if v == a.worker {
        TimelyJudgementTurnsAway(s, v, w, d);
      }
    }
  }

  /** An undisturbed clear or acquire finds no holder, so it takes nothing away from anyone. */
  lemma WriteKeepsLeaseInv(s: State, a: Action, d: Discipline)
    requires LeaseInv(s, d.beat) && Enabled(s, a) && Follows(s, a, d) && d.gap == 0 && (a.Clear? || a.Acquire?)
    ensures LeaseInv(Apply(s, a), d.beat)
  {
    var s' := Apply(s, a);
    assert UpToDate(s, a.worker);
    assert forall w :: !Holds(s, w);
    assert forall w :: Holds(s', w) ==> w == a.worker && a.Acquire? && a.write.Written?;
    assert forall v :: v in s'.workers && v != a.worker ==> s'.workers[v] == s.workers[v];
    assert a.Acquire? && a.write.Written? ==> forall v :: !UpToDate(s', v);
  }

  lemma HeartbeatKeepsLeaseInv(s: State, a: Action, beat: int)
    requires LeaseInv(s, beat) && Enabled(s, a) && (a.Heartbeat? || a.LateHeartbeat?)
    ensures LeaseInv(Apply(s, a), beat)
  {
    var s' := Apply(s, a);
    forall w | Holds(s', w) ensures Holds(s, w) && LeaseOf(s', w) && s'.workers[w].beat <= s'.clock {
      assert LeaseOf(s, w);
    }
    assert forall v :: UpToDate(s', v) ==> UpToDate(s, v) && s'.workers[v] == s.workers[v];
  }

  lemma LeavingKeepsLeaseInv(s: State, a: Action, beat: int)
    requires LeaseInv(s, beat) && Enabled(s, a) && (a.Release? || a.Crash? || a.Tick?)
    ensures LeaseInv(Apply(s, a), beat)
  {
    var s' := Apply(s, a);
    assert a.Release? ==> forall w :: !Holds(s', w);
    forall w | Holds(s', w) ensures Holds(s, w) && LeaseOf(s', w) && s'.workers[w].beat <= s'.clock {
      assert LeaseOf(s, w);
    }
    assert forall v :: UpToDate(s', v) ==> UpToDate(s, v) && s'.workers[v] == s.workers[v];
  }

  lemma StepKeepsLeaseInv(s: State, a: Action, d: Discipline)
    requires LeaseInv(s, d.beat) && Beating(s, d) && Enabled(s, a) && Follows(s, a, d)
    requires d.gap == 0 && d.beat + d.delay <= TIMEOUT
    ensures LeaseInv(Apply(s, a), d.beat)
  {
    match a
    case Read(_) => ReadKeepsLeaseInv(s, a, d);
    case Judge(_) => JudgeKeepsLeaseInv(s, a, d);
    case Clear(_, _) => WriteKeepsLeaseInv(s, a, d);
    case Acquire(_, _, _) => WriteKeepsLeaseInv(s, a, d);
    case Heartbeat(_, _, _) => HeartbeatKeepsLeaseInv(s, a, d.beat);
    case LateHeartbeat(_) => HeartbeatKeepsLeaseInv(s, a, d.beat);
    case _ => LeavingKeepsLeaseInv(s, a, d.beat);
  }

  /**
   In every run in which no acquisition falls between another worker's read and write, and the age of a
   heartbeat and the delay of a judgement together stay within the timeout, at most one worker is between
   acquire and release, and the stored lease names it and has not expired.
   */
  lemma {:induction false} LeaseExcludes(states: seq<State>, actions: seq<Action>, d: Discipline, k: nat)
    requires Run(states, actions, d) && k < |states|
    requires d.gap == 0 && d.beat + d.delay <= TIMEOUT && d.delay >= 0
    ensures LeaseInv(states[k], d.beat)
    ensures MutualExclusion(states[k])
    ensures forall w :: Holds(states[k], w) ==>
      LeaseOf(states[k], w) && !LeaseExpired(states[k].lease.value, states[k].clock)
  {
    if k > 0 {
      LeaseExcludes(states, actions, d, k - 1);
      StepKeepsLeaseInv(states[k - 1], actions[k - 1], d);
    }
    assert Beating(states[k], d);
  }

  // ----- the exact condition

  ghost predicate Reachable(s: State, d: Discipline) {
    exists states, actions :: Run(states, actions, d) && states[|actions|] == s
  }

  lemma StartIsReachable(s: State, d: Discipline)
    requires forall w :: w in s.workers ==> s.workers[w].Idle?
    ensures Reachable(s, d)
  {
    assert Run([s], [], d) && [s][0] == s;
  }

  lemma RunGoesOn(states: seq<State>, actions: seq<Action>, a: Action, d: Discipline)
    requires Run(states, actions, d)
    requires Enabled(states[|actions|], a) && Follows(states[|actions|], a, d)
    requires Beating(Apply(states[|actions|], a), d)
    ensures Run(states + [Apply(states[|actions|], a)], actions + [a], d)
  {
    var states', actions' := states + [Apply(states[|actions|], a)], actions + [a];
    assert forall k :: 0 <= k < |actions| ==> actions'[k] == actions[k];
    assert forall k :: 0 <= k < |states| ==> states'[k] == states[k];
  }

  lemma StepIsReachable(s: State, a: Action, d: Discipline)
    requires Reachable(s, d) && Enabled(s, a) && Follows(s, a, d) && Beating(Apply(s, a), d)
    ensures Reachable(Apply(s, a), d)
  {
    var states, actions :| Run(states, actions, d) && states[|actions|] == s;
    RunGoesOn(states, actions, a, d);
    var states', actions' := states + [Apply(s, a)], actions + [a];
    assert Run(states', actions', d) && states'[|actions'|] == Apply(s, a);
  }

  /** `v` holds the lease it took at time 0 with its last heartbeat at `now`; `w` is the only other worker. */
  function HeldBy(v: string, w: string, other: Worker, now: int): State {
    State(Some(NewLease(v, 0).(lastHeartbeat := Some(now))), now, map[v := Holding(now), w := other], 1)
  }

  lemma FirstAcquisition(v: string, w: string, d: Discipline)
    requires v != w && d.beat >= 0 && d.delay >= 0
    ensures Reachable(HeldBy(v, w, Idle, 0), d)
  {
    var s0 := State(None, 0, map[v := Idle, w := Idle], 0);
    StartIsReachable(s0, d);
    StepIsReachable(s0, Read(v), d);
    var s1 := Apply(s0, Read(v));
    StepIsReachable(s1, Judge(v), d);
    var s2 := Apply(s1, Judge(v));
    StepIsReachable(s2, Acquire(v, 0, Written), d);
    assert Apply(s2, Acquire(v, 0, Written)).workers == map[v := Holding(0), w := Idle];
  }

  lemma OneBeat(v: string, w: string, other: Worker, from: int, next: int, d: Discipline)
    requires v != w && !other.Holding? && 0 <= from <= next <= from + d.beat
    requires Reachable(HeldBy(v, w, other, from), d)
    ensures Reachable(HeldBy(v, w, other, next), d)
  {
    var s := HeldBy(v, w, other, from);
    StepIsReachable(s, Tick(next), d);
    var s1 := Apply(s, Tick(next));
    StepIsReachable(s1, Heartbeat(v, next, true), d);
    assert Apply(s1, Heartbeat(v, next, true)).workers == map[v := Holding(next), w := other];
  }

  /** Time can pass while the holder keeps beating. */
  lemma {:induction false} TimePasses(v: string, w: string, other: Worker, from: int, until: int, d: Discipline)
    requires v != w && !other.Holding? && d.beat >= 1 && 0 <= from <= until
    requires Reachable(HeldBy(v, w, other, from), d)
    ensures Reachable(HeldBy(v, w, other, until), d)
    decreases until - from
  {
    if from < until {
      var next := if until - from <= d.beat then until else from + d.beat;
      OneBeat(v, w, other, from, next, d);
      TimePasses(v, w, other, next, until, d);
    }
  }

  ghost predicate BothCanHold(v: string, w: string, d: Discipline) {
    exists s :: Reachable(s, d) && Holds(s, v) && Holds(s, w)
  }

  /** A clear and an acquire on an outdated judgement take the lease from a worker that still holds it. */
  lemma OvertakesHolder(v: string, w: string, now: int, d: Discipline)
    requires v != w && d.beat >= 0 && Reachable(HeldBy(v, w, Clearing(1), now), d)
    ensures BothCanHold(v, w, d)
  {
    var s := HeldBy(v, w, Clearing(1), now);
    StepIsReachable(s, Clear(w, Written), d);
    var s1 := Apply(s, Clear(w, Written));
    StepIsReachable(s1, Acquire(w, now, Written), d);
    var s2 := Apply(s1, Acquire(w, now, Written));
    assert Holds(s2, v) && Holds(s2, w);
  }

  /** A worker can read the lease just before the holder's next heartbeat lands. */
  lemma ReadsBeforeHeartbeat(v: string, w: string, readAt: int, d: Discipline)
    requires v != w && 0 <= readAt <= d.beat && d.delay >= 0
    ensures Reachable(HeldBy(v, w, Reading(Some(NewLease(v, 0)), 1, readAt), readAt), d)
  {
    FirstAcquisition(v, w, d);
    var s0 := HeldBy(v, w, Idle, 0);
    StepIsReachable(s0, Tick(readAt), d);
    var s1 := Apply(s0, Tick(readAt));
    StepIsReachable(s1, Read(w), d);
    var s2 := Apply(s1, Read(w));
    StepIsReachable(s2, Heartbeat(v, readAt, true), d);
    var reading := Reading(Some(NewLease(v, 0)), 1, readAt);
    assert Apply(s2, Heartbeat(v, readAt, true)).workers == map[v := Holding(readAt), w := reading];
  }

  /**
   If a heartbeat and a judgement may together take longer than the timeout, a worker that reads just before
   the holder's heartbeat lands and judges its old copy late takes the lease from a holder that never stopped
   beating.
   */
  lemma SlowJudgementOvertakes(v: string, w: string, d: Discipline)
    requires v != w && d.beat >= 1 && d.delay >= 0 && d.beat + d.delay > TIMEOUT
    ensures BothCanHold(v, w, d)
  {
    var readAt, late := if d.beat <= TIMEOUT then d.beat else TIMEOUT + 1, TIMEOUT + 1;
    var reading := Reading(Some(NewLease(v, 0)), 1, readAt);
    ReadsBeforeHeartbeat(v, w, readAt, d);
    TimePasses(v, w, reading, readAt, late, d);
    var s := HeldBy(v, w, reading, late);
    StepIsReachable(s, Judge(w), d);
    assert Apply(s, Judge(w)).workers == map[v := Holding(late), w := Clearing(1)];
    OvertakesHolder(v, w, late, d);
  }

  /** The lease is no compare-and-swap: two workers that both read before either acquired both end up holding it. */
  lemma InterleavedAcquisitionsBothHold(v: string, w: string, d: Discipline)
    requires v != w && d.beat >= 0 && d.delay >= 0 && d.gap >= 1
    ensures BothCanHold(v, w, d)
  {
    var s0 := State(None, 0, map[v := Idle, w := Idle], 0);
    StartIsReachable(s0, d);
    StepIsReachable(s0, Read(v), d);
    var s1 := Apply(s0, Read(v));
    StepIsReachable(s1, Read(w), d);
    var s2 := Apply(s1, Read(w));
    StepIsReachable(s2, Judge(v), d);
    var s3 := Apply(s2, Judge(v));
    StepIsReachable(s3, Judge(w), d);
    var s4 := Apply(s3, Judge(w));
    StepIsReachable(s4, Acquire(v, 0, Written), d);
    var s5 := Apply(s4, Acquire(v, 0, Written));
    StepIsReachable(s5, Acquire(w, 0, Written), d);
    var s6 := Apply(s5, Acquire(w, 0, Written));
    assert Holds(s6, v) && Holds(s6, w);
  }

  /**
   The lease excludes in all runs of a discipline if and only if no acquisition may fall between a read and the
   write that follows from it, and heartbeat age and judgement delay together stay within the timeout.
   */
  lemma LeaseExclusionIff(d: Discipline)
    requires d.beat >= 1 && d.delay >= 0
    ensures (forall s :: Reachable(s, d) ==> MutualExclusion(s)) <==> d.gap == 0 && d.beat + d.delay <= TIMEOUT
  {
    if d.gap == 0 && d.beat + d.delay <= TIMEOUT {
      forall s | Reachable(s, d) ensures MutualExclusion(s) {
        var states, actions :| Run(states, actions, d) && states[|actions|] == s;
        LeaseExcludes(states, actions, d, |actions|);
      }
    } else {
      if d.gap > 0 {
        InterleavedAcquisitionsBothHold("v", "w", d);
      } else {
        SlowJudgementOvertakes("v", "w", d);
      }
      var s :| Reachable(s, d) && Holds(s, "v") && Holds(s, "w");
      assert !MutualExclusion(s);
    }
  }

  /** A crashed holder does not block the claim: once its lease runs out, the next worker gets it. */
  lemma ExpiredLeaseIsRecovered(s: State, w: string)
    requires w in s.workers && s.workers[w].Idle?
    requires IsLaunchLease(s.lease) && LeaseExpired(s.lease.value, s.clock)
    ensures
      var s1 := Apply(s, Read(w));
      var s2 := Apply(s1, Judge(w));
      Enabled(s2, Clear(w, Written)) &&
      var s3 := Apply(s2, Clear(w, Written));
      Enabled(s3, Acquire(w, s.clock, Written)) &&
      var s4 := Apply(s3, Acquire(w, s.clock, Written));
      Holds(s4, w) && LeaseOf(s4, w)
  {
  }

  /** A released lease is free at once: the next worker that reads it acquires it without waiting. */
  lemma ReleasedLeaseIsFree(s: State, v: string, w: string)
    requires v != w && Holds(s, v) && LeaseOf(s, v) && w in s.workers && s.workers[w].Idle?
    ensures
      var s1 := Apply(s, Release(v, Written));
      var s2 := Apply(s1, Read(w));
      var s3 := Apply(s2, Judge(w));
      s1.lease == None && Enabled(s3, Acquire(w, s.clock, Written)) &&
      var s4 := Apply(s3, Acquire(w, s.clock, Written));
      Holds(s4, w) && !Holds(s4, v) && LeaseOf(s4, w) && s4.acquisitions == s.acquisitions + 1
  {
  }

  /** A heartbeat that lands gives the lease its full time from the heartbeat's stamp on, and one that does not, nothing. */
  lemma HeartbeatProlongs(s: State, w: string, stamp: int, now: int)
    requires Holds(s, w) && LeaseOf(s, w) && StampFits(s, stamp)
    ensures
      var s' := Apply(s, Heartbeat(w, stamp, true));
      && LeaseOf(s', w) && s'.workers[w] == Holding(stamp)
      && (LeaseExpired(s'.lease.value, now) <==> now - stamp > 600_000)
    ensures Apply(s, Heartbeat(w, stamp, false)) == s
  {
  }

  /** A rejected clear, acquire or release leaves the stored lease as it was and sends the worker back to the start. */
  lemma RejectedWritesLeaveLease(s: State, a: Action)
    requires Enabled(s, a) && (a.Clear? || a.Acquire? || a.Release?) && a.write.Rejected?
    ensures Apply(s, a) == s.(workers := s.workers[a.worker := Idle])
  {
  }

  // ----- the heartbeat cadence

  const HEARTBEAT_PERIOD := TIMEOUT / 3
  const HEARTBEAT_WRITE_LIMIT := 5 * SECOND

  /** What a judgement may take when heartbeats keep their cadence, less the latency of the acquire write. */
  const JUDGEMENT_SLACK := 195 * SECOND

  /** The timeout is ten minutes, and three heartbeats fall into it. */
  lemma ThreeBeatsPerTimeout()
    ensures TIMEOUT == 600_000 && 3 * HEARTBEAT_PERIOD == TIMEOUT && HEARTBEAT_WRITE_LIMIT == 5_000
  {
  }

  /** Tick `m` is the last up to `n` that landed, or the acquire, when none did. */
  lemma {:induction false} LastLandedIs(landed: seq<bool>, n: nat, m: nat)
    requires m <= n <= |landed| && (m > 0 ==> landed[m - 1]) && forall k :: m <= k < n ==> !landed[k]
    ensures LastLanded(landed, n) == m
  {
    if m < n {
      LastLandedIs(landed, n - 1, m);
    }
  }

  /** Number of the last tick up to `n` whose write landed; the acquire itself is tick 0. */
  function LastLanded(landed: seq<bool>, n: nat): nat
    requires n <= |landed|
  {
    if n == 0 then 0 else if landed[n - 1] then n else LastLanded(landed, n - 1)
  }

  /**
   The acquire takes its stamp at `acquired`, before its write; the ticker starts at most `latency` later, at
   `started`. With a tick every third of the timeout and no two ticks lost in a row, the time from the stamp of
   the last heartbeat that landed to any moment before the next tick's write must be over leaves 195 seconds of
   the timeout for a judgement, less the latency while no heartbeat has landed yet.
   */
  lemma CadenceKeepsLeaseFresh(
    landed: seq<bool>, n: nat, acquired: int, started: int, latency: int, stamp: int, now: int)
    requires n <= |landed|
    requires forall k :: 0 < k < |landed| ==> landed[k - 1] || landed[k]
    requires acquired <= started <= acquired + latency
    requires stamp >=
      if LastLanded(landed, n) == 0 then acquired else started + LastLanded(landed, n) * HEARTBEAT_PERIOD
    requires now <= started + (n + 1) * HEARTBEAT_PERIOD + HEARTBEAT_WRITE_LIMIT
    ensures (now - stamp) + JUDGEMENT_SLACK <= TIMEOUT + if LastLanded(landed, n) == 0 then latency else 0
  {
    assert n - LastLanded(landed, n) <= 1;
  }
}
