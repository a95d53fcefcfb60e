/**
 One reconcile of a claim as a function of the stored record and of everything it reads: the
 answers of the API server and of the provider, the clock readings, and the outcome of each write.
 Between two reads the rest of the cluster may change, so the answers are independent inputs.
 */
module ClaimLifecycle {
  import opened Common
  import opened ClaimRecord

  datatype NodeCondition = NodeCondition(isReadyType: bool, isTrue: bool, since: Option<int>)

  /** A cluster node; `claimLabel` is the value of its kubenodesmith.io/nodeclaim label. */
  datatype Node = Node(
    name: string,
    uid: nat,
    claimLabel: Option<string>,
    terminating: bool,
    conditions: seq<NodeCondition>)

  datatype Lookup<+T> = Found(value: T) | Missing | Unavailable

  /** What a reconcile does to the world outside its own bookkeeping, in order. */
  datatype Effect =
    | FinalizerPersisted
    | SawDeletion
    | FinalizerRemoved(nodeName: string, providerID: string)
    | ProvisionCalled
    | AttemptLost
    | LaunchStored(at: int)
    | TimedOut(at: int)
    | NodeBound(uid: nat)
    | Recycled
    | NodeSeenAbsent(nodeName: string)
    | DeprovisionCalled(providerID: string, nodeName: string)
    | ProviderUnavailable(providerID: string)

  /** How a phase ends: go on with the next one, or return with a requeue delay and maybe an error. */
  datatype Flow = Continue | Stop(requeueAfter: int, error: bool)

  datatype Outcome = Outcome(status: Status, effects: seq<Effect>, flow: Flow)

  /** `sized` is the claim's own, read with the claim. */
  datatype LaunchInput = LaunchInput(
    sized: bool,
    holder: string,
    checkTime: int,
    clearWrite: Write,
    acquireTime: int,
    acquireWrite: Write,
    existingNode: Lookup<()>,
    providerFound: bool,
    machine: Option<string>,
    writeTime: int,
    write: Write,
    releaseWrite: Write)

  datatype RegistrationInput = RegistrationInput(
    listing: Option<seq<Node>>,
    poolFound: bool,
    labelsPatched: bool,
    checkTime: int,
    providerFound: bool,
    writeTime: int,
    write: Write)

  datatype InitializationInput = InitializationInput(
    node: Lookup<Node>,
    checkTime: int,
    nodeDeletion: Deletion,
    providerFound: bool,
    writeTime: int,
    write: Write)

  datatype FinalizeInput = FinalizeInput(
    node: Lookup<Node>,
    nodeDeletion: Deletion,
    providerFound: bool,
    write: Write)

  datatype ReconcileInput = ReconcileInput(
    fetchFails: bool,
    finalizerWrite: Write,
    launch: LaunchInput,
    registration: RegistrationInput,
    initialization: InitializationInput,
    finalize: FinalizeInput)

  function AfterWrite(w: Write, requeueAfter: int): Flow {
    if w.Written? then Stop(requeueAfter, false) else Stop(0, true)
  }

  // ----- launch

  function LeaseWait(l: Lease, holder: string, now: int): int {
    Max(LeaseRemaining(l, now), if l.holder != holder then MIN_LEASE_RETRY_DELAY else LEASE_HEARTBEAT_INTERVAL)
  }

  function ReconcileLaunch(s: Status, i: LaunchInput): Outcome {
    if s.providerID != "" then
      Outcome(s, [], Continue)
    else if IsLaunchLease(s.lease) then
      if !LeaseExpired(s.lease.value, i.checkTime) then
        Outcome(s, [], Stop(LeaseWait(s.lease.value, i.holder, i.checkTime), false))
      else
        var cleared := Store(s, ClearLaunchLease(s), i.clearWrite);
        if i.clearWrite.Written? then AcquireAndLaunch(cleared, i)
        else Outcome(cleared, [], Stop(REQUEUE_ON_ERROR, true))
    else
      AcquireAndLaunch(s, i)
  }

  /** Takes the lease, launches, and releases the lease however the launch ends. */
  function AcquireAndLaunch(s: Status, i: LaunchInput): Outcome {
    var held := Store(s, TakeLease(s, i.holder, i.acquireTime), i.acquireWrite);
    if !i.acquireWrite.Written? then
      Outcome(held, [], Stop(REQUEUE_ON_ERROR, true))
    else
      var o := LaunchHolding(held, i);
      o.(status := Store(o.status, ClearLaunchLease(o.status), i.releaseWrite))
  }

  /** A claim without requirements makes the launch panic where it reports their size; the panic ends as an error. */
  function LaunchHolding(s: Status, i: LaunchInput): Outcome {
    if s.launchAttempts >= MAX_LAUNCH_ATTEMPTS then
      Outcome(Store(s, GiveUp(s, i.writeTime), i.write), [], AfterWrite(i.write, 0))
    else
      match i.existingNode
      case Found(_) => Outcome(s, [], Stop(REQUEUE_INITIALIZATION, false))
      case Unavailable => Outcome(s, [], Stop(REQUEUE_ON_ERROR, true))
      case Missing =>
        if !i.sized then
          Outcome(s, [], Stop(0, true))
        else if !i.providerFound then
          Outcome(Store(s, LaunchBlocked(s, i.writeTime), i.write), [], Stop(REQUEUE_ON_ERROR, true))
        else
          Provision(s, i)
  }

  function Provision(s: Status, i: LaunchInput): Outcome {
    var attempt := s.launchAttempts + 1;
    match i.machine
    case None =>
      Outcome(Store(s, LaunchFailed(s, attempt, i.writeTime), i.write),
              [ProvisionCalled] + (if i.write.Rejected? then [AttemptLost] else []),
              Stop(REQUEUE_ON_ERROR, true))
    case Some(id) =>
      Outcome(Store(s, LaunchSucceeded(s, id, attempt, i.writeTime), i.write),
              [ProvisionCalled, if i.write.Rejected? then AttemptLost else LaunchStored(i.writeTime)],
              if i.write.Written? then Continue else Stop(0, true))
  }

  // ----- registration

  predicate IsNodeFor(n: Node, claimName: string) {
    (n.name == claimName || n.claimLabel == Some(claimName)) && !n.terminating
  }

  /** The first listed node that belongs to the claim and is not being deleted. */
  function FirstNodeFor(nodes: seq<Node>, claimName: string): (r: Option<Node>)
    ensures r.Some? ==> r.value in nodes && IsNodeFor(r.value, claimName)
    ensures r.None? ==> forall n :: n in nodes ==> !IsNodeFor(n, claimName)
  {
    if nodes == [] then None
    else if IsNodeFor(nodes[0], claimName) then Some(nodes[0])
    else
      assert nodes == [nodes[0]] + nodes[1..];
      FirstNodeFor(nodes[1..], claimName)
  }

  function ReconcileRegistration(s: Status, claimName: string, i: RegistrationInput): Outcome {
    if s.providerID == "" || s.nodeName != "" then
      Outcome(s, [], Continue)
    else if i.listing.None? then
      Outcome(s, [], Stop(REQUEUE_REGISTRATION, false))
    else
      match FirstNodeFor(i.listing.value, claimName)
      case Some(n) =>
        if !i.poolFound || !i.labelsPatched then
          Outcome(s, [], Stop(REQUEUE_REGISTRATION, true))
        else
          Outcome(Store(s, Register(s, n.name, i.writeTime), i.write),
                  if i.write.Rejected? then [] else [NodeBound(n.uid)],
                  if i.write.Written? then Continue else Stop(0, true))
      case None =>
        if Launched in s.conditions && i.checkTime - s.conditions[Launched].since > REGISTRATION_TIMEOUT
        then GiveUpWaiting(s, i)
        else Outcome(s, [], Stop(REQUEUE_REGISTRATION, false))
  }

  function DeprovisionEffect(s: Status, providerFound: bool): Effect {
    if providerFound then DeprovisionCalled(s.providerID, s.nodeName) else ProviderUnavailable(s.providerID)
  }

  /** The machine did not register in time: deprovision it and free the claim for another attempt. */
  function GiveUpWaiting(s: Status, i: RegistrationInput): Outcome {
    var attempts := if s.launchAttempts == 0 then 1 else s.launchAttempts;
    var maxReached := attempts >= MAX_LAUNCH_ATTEMPTS;
    Outcome(Store(s, RegistrationTimedOut(s, maxReached, i.writeTime), i.write),
            [TimedOut(i.checkTime), DeprovisionEffect(s, i.providerFound)],
            AfterWrite(i.write, if maxReached then 0 else IMMEDIATE_REQUEUE))
  }

  // ----- initialization

  predicate IsReady(conds: seq<NodeCondition>) {
    exists c :: c in conds && c.isReadyType && c.isTrue
  }

  /** How long the first readiness condition has been as it is; zero when none says. */
  function NotReadyFor(conds: seq<NodeCondition>, now: int): int {
    if conds == [] then 0
    else if conds[0].isReadyType then
      if conds[0].since.Some? then now - conds[0].since.value else 0
    else NotReadyFor(conds[1..], now)
  }

  /** The node is gone, or it has been unready for too long and its deletion did not fail. */
  predicate NodeIsLost(i: InitializationInput) {
    match i.node
    case Missing => true
    case Unavailable => false
    case Found(n) =>
      && !IsReady(n.conditions) && NotReadyFor(n.conditions, i.checkTime) > READINESS_DEGRADE_TIMEOUT
      && !Errs(i.nodeDeletion)
  }

  function ReconcileInitialization(s: Status, i: InitializationInput): Outcome {
    if s.nodeName == "" then
      Outcome(s, [], Continue)
    else
      match i.node
      case Missing => RecycleUnhealthyNode(s, i)
      case Unavailable => Outcome(s, [], Stop(REQUEUE_INITIALIZATION, false))
      case Found(n) =>
        if IsReady(n.conditions) then
          Outcome(Store(s, MarkReady(s, i.writeTime), i.write), [],
                  if i.write.Written? then Continue else Stop(0, true))
        else if NotReadyFor(n.conditions, i.checkTime) <= READINESS_DEGRADE_TIMEOUT then
          Outcome(s, [], Stop(REQUEUE_INITIALIZATION, false))
        else if Errs(i.nodeDeletion) then
          Outcome(s, [], Stop(REQUEUE_ON_ERROR, true))
        else
          RecycleUnhealthyNode(s, i)
  }

  /** The part of a recycle that follows the deletion of the node object, if there is one. */
  function RecycleUnhealthyNode(s: Status, i: InitializationInput): Outcome {
    var attempts := s.launchAttempts + 1;
    var maxReached := attempts >= MAX_LAUNCH_ATTEMPTS;
    Outcome(Store(s, Recycle(s, attempts, maxReached, i.writeTime), i.write),
            (if s.providerID != "" then [DeprovisionEffect(s, i.providerFound)] else [])
            + (if i.write.Rejected? then [] else [Recycled]),
            AfterWrite(i.write, if maxReached then 0 else IMMEDIATE_REQUEUE))
  }

  // ----- finalize

  datatype ClaimOutcome = ClaimOutcome(claim: Claim, effects: seq<Effect>, flow: Flow)

  function Finalize(c: Claim, i: FinalizeInput): ClaimOutcome {
    if !c.finalizer then
      ClaimOutcome(c, [SawDeletion], Stop(0, false))
    else if c.status.nodeName != "" && !i.node.Missing? then
      ClaimOutcome(c, [SawDeletion],
                   Stop(REQUEUE_FINALIZATION, i.node.Unavailable? || Errs(i.nodeDeletion)))
    else
      ClaimOutcome(
        Store(c, c.(finalizer := false), i.write),
        [SawDeletion]
        + (if c.status.nodeName != "" then [NodeSeenAbsent(c.status.nodeName)] else [])
        + (if c.status.providerID != "" then [DeprovisionEffect(c.status, i.providerFound)] else [])
        + (if i.write.Rejected? then [] else [FinalizerRemoved(c.status.nodeName, c.status.providerID)]),
        AfterWrite(i.write, 0))
  }

  // ----- the whole reconcile

  /** The phases after the launch; a phase that stops ends the reconcile. */
  function RegisterAndInitialize(s: Status, claimName: string, i: ReconcileInput): Outcome {
    var r := ReconcileRegistration(s, claimName, i.registration);
    if r.flow.Stop? then r
    else
      var n := ReconcileInitialization(r.status, i.initialization);
      Outcome(n.status, r.effects + n.effects, if n.flow.Stop? then n.flow else Stop(READY_HEALTH_CHECK, false))
  }

  function RunPhases(s: Status, claimName: string, i: ReconcileInput): Outcome {
    var l := ReconcileLaunch(s, i.launch);
    if l.flow.Stop? then l
    else
      var o := RegisterAndInitialize(l.status, claimName, i);
      o.(effects := l.effects + o.effects)
  }

  function Reconcile(c: Claim, i: ReconcileInput): ClaimOutcome {
    if i.fetchFails then
      ClaimOutcome(c, [], Stop(0, true))
    else if c.deleting then
      Finalize(c, i.finalize)
    else if !c.finalizer then
      ClaimOutcome(Store(c, c.(finalizer := true), i.finalizerWrite),
                   if i.finalizerWrite.Rejected? then [] else [FinalizerPersisted],
                   AfterWrite(i.finalizerWrite, IMMEDIATE_REQUEUE))
    else if IsTrue(c.status.conditions, Failed) then
      ClaimOutcome(c, [], Stop(0, false))
    else
      var o := RunPhases(c.status, c.name, i);
      ClaimOutcome(c.(status := o.status), o.effects, o.flow)
  }
}
