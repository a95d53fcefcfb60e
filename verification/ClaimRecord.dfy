/** The persisted NodeSmithClaim record and the rules for changing its status. */
module ClaimRecord {
  import opened Common

  const REGISTRATION_TIMEOUT := 15 * MINUTE
  const READINESS_DEGRADE_TIMEOUT := 10 * MINUTE
  const MAX_LAUNCH_ATTEMPTS := 3
  const IMMEDIATE_REQUEUE := 1
  const REQUEUE_REGISTRATION := 30 * SECOND
  const REQUEUE_INITIALIZATION := 10 * SECOND
  const REQUEUE_ON_ERROR := MINUTE
  const REQUEUE_FINALIZATION := 5 * SECOND
  const READY_HEALTH_CHECK := 2 * MINUTE
  const LAUNCHING := "Launching"
  const LEASE_TIMEOUT_SECONDS := 600
  const LEASE_HEARTBEAT_INTERVAL := 10 * SECOND
  const MIN_LEASE_RETRY_DELAY := 2 * SECOND

  datatype ConditionType = Launched | Registered | Initialized | Ready | Failed

  datatype Condition = Condition(isTrue: bool, since: int)

  type Conditions = map<ConditionType, Condition>

  /** Sets a condition; its transition time moves only when its status changes. */
  function SetCondition(cs: Conditions, t: ConditionType, isTrue: bool, now: int): Conditions {
    if t in cs && cs[t].isTrue == isTrue then cs else cs[t := Condition(isTrue, now)]
  }

  function RemoveCondition(cs: Conditions, t: ConditionType): Conditions {
    cs - {t}
  }

  predicate IsTrue(cs: Conditions, t: ConditionType) {
    t in cs && cs[t].isTrue
  }

  /** A zero heartbeat time is `None`; the start time then stands in for it. */
  datatype Lease = Lease(
    holder: string, phase: string, started: int, lastHeartbeat: Option<int>, timeoutSeconds: int)

  function LeaseReferenceTime(l: Lease): int {
    if l.lastHeartbeat.Some? then l.lastHeartbeat.value else l.started
  }

  predicate LeaseExpired(l: Lease, now: int) {
    l.timeoutSeconds <= 0 || now - LeaseReferenceTime(l) > l.timeoutSeconds * SECOND
  }

  function LeaseRemaining(l: Lease, now: int): int {
    if l.timeoutSeconds <= 0 then 0 else LeaseReferenceTime(l) + l.timeoutSeconds * SECOND - now
  }

  function NewLease(holder: string, now: int): Lease {
    Lease(holder, LAUNCHING, now, Some(now), LEASE_TIMEOUT_SECONDS)
  }

  predicate IsLaunchLease(l: Option<Lease>) {
    l.Some? && l.value.phase == LAUNCHING
  }

  function Cleared(l: Option<Lease>): Option<Lease> {
    if IsLaunchLease(l) then None else l
  }

  datatype Status = Status(
    providerID: string,
    nodeName: string,
    launchAttempts: int,
    conditions: Conditions,
    lease: Option<Lease>)

  /** `sized` says whether the claim's spec has requirements, which are optional. */
  datatype Claim = Claim(name: string, sized: bool, finalizer: bool, deleting: bool, status: Status)

  // ----- the status mutations of the claim controller

  function ClearLaunchLease(s: Status): Status {
    s.(lease := Cleared(s.lease))
  }

  function TakeLease(s: Status, holder: string, now: int): Status {
    s.(lease := Some(NewLease(holder, now)))
  }

  /** Launch attempts exhausted. */
  function GiveUp(s: Status, now: int): Status {
    s.(conditions := SetCondition(SetCondition(s.conditions, Failed, true, now), Launched, false, now))
  }

  function LaunchBlocked(s: Status, now: int): Status {
    s.(conditions := SetCondition(s.conditions, Launched, false, now))
  }

  function LaunchFailed(s: Status, attempt: int, now: int): Status {
    s.(launchAttempts := attempt, conditions := SetCondition(s.conditions, Launched, false, now))
  }

  function LaunchSucceeded(s: Status, providerID: string, attempt: int, now: int): Status {
    s.(providerID := providerID,
       launchAttempts := attempt,
       conditions := SetCondition(s.conditions, Launched, true, now))
  }

  function Register(s: Status, nodeName: string, now: int): Status {
    s.(nodeName := nodeName,
       launchAttempts := 0,
       conditions := SetCondition(RemoveCondition(s.conditions, Failed), Registered, true, now))
  }

  function RegistrationTimedOut(s: Status, maxReached: bool, now: int): Status {
    var cs := SetCondition(SetCondition(s.conditions, Registered, false, now), Launched, false, now);
    s.(providerID := "", conditions := if maxReached then SetCondition(cs, Failed, true, now) else cs)
  }

  function MarkReady(s: Status, now: int): Status {
    s.(conditions := SetCondition(SetCondition(s.conditions, Initialized, true, now), Ready, true, now))
  }

  function Recycle(s: Status, attempts: int, maxReached: bool, now: int): Status {
    var cs := SetCondition(SetCondition(s.conditions, Launched, false, now), Registered, false, now);
    var cs' := SetCondition(SetCondition(cs, Initialized, false, now), Ready, false, now);
    s.(providerID := "",
       nodeName := "",
       launchAttempts := attempts,
       conditions := if maxReached then SetCondition(cs', Failed, true, now) else RemoveCondition(cs', Failed))
  }
}
