/**
 When a reconcile of a claim does what, told by the fields of the record and of what it reads, with times in
 milliseconds, and what it answers.
 */
module ClaimDecisions {
  import opened Common
  import opened ClaimRecord
  import opened ClaimLifecycle
  import opened ClaimRuns

  // ----- launching

  /** No launch is in progress: there is no launch lease, or it ran out and could be cleared. */
  predicate LeaseIsFree(l: Option<Lease>, i: LaunchInput) {
    l.None? || l.value.phase != "Launching" ||
    (i.clearWrite.Written? &&
     (l.value.timeoutSeconds <= 0 ||
      i.checkTime - (if l.value.lastHeartbeat.Some? then l.value.lastHeartbeat.value else l.value.started)
        > 1000 * l.value.timeoutSeconds))
  }

  /** The launch gets to its work: no machine yet, the lease free and taken. */
  predicate LaunchGoesOn(s: Status, i: LaunchInput) {
    s.providerID == "" && LeaseIsFree(s.lease, i) && i.acquireWrite.Written?
  }

  /** The provider is asked for a machine exactly if attempts are left, no old node stands in the way, and all is found. */
  lemma LaunchProvisionsIff(s: Status, i: LaunchInput)
    ensures ProvisionCalled in ReconcileLaunch(s, i).effects <==>
      && LaunchGoesOn(s, i) && s.launchAttempts < 3
      && i.existingNode == Missing && i.sized && i.providerFound
  {
    var held := TakeLease(s, i.holder, i.acquireTime);
    assert TakeLease(ClearLaunchLease(s), i.holder, i.acquireTime) == held;
    HoldingProvisionsIff(held, i);
  }

  lemma HoldingProvisionsIff(s: Status, i: LaunchInput)
    ensures ProvisionCalled in LaunchHolding(s, i).effects <==>
      s.launchAttempts < 3 && i.existingNode == Missing && i.sized && i.providerFound
  {
    if s.launchAttempts < 3 && i.existingNode == Missing && i.sized && i.providerFound {
      assert LaunchHolding(s, i).effects[0] == ProvisionCalled;
    }
  }

  lemma RegistrationProvisionsNothing(s: Status, claimName: string, i: RegistrationInput)
    ensures ProvisionCalled !in ReconcileRegistration(s, claimName, i).effects
  {
  }

  lemma InitializationProvisionsNothing(s: Status, i: InitializationInput)
    ensures ProvisionCalled !in ReconcileInitialization(s, i).effects
  {
  }

  lemma FinalizeProvisionsNothing(c: Claim, i: FinalizeInput)
    ensures ProvisionCalled !in Finalize(c, i).effects
  {
  }

  lemma LaterPhasesProvisionNothing(s: Status, claimName: string, i: ReconcileInput)
    ensures ProvisionCalled !in RegisterAndInitialize(s, claimName, i).effects
  {
    var r := ReconcileRegistration(s, claimName, i.registration);
    RegistrationProvisionsNothing(s, claimName, i.registration);
    InitializationProvisionsNothing(r.status, i.initialization);
  }

  lemma PhasesProvisionInLaunch(s: Status, claimName: string, i: ReconcileInput)
    ensures ProvisionCalled in RunPhases(s, claimName, i).effects <==>
      ProvisionCalled in ReconcileLaunch(s, i.launch).effects
  {
    LaterPhasesProvisionNothing(ReconcileLaunch(s, i.launch).status, claimName, i);
  }

  lemma OnlyLaunchProvisions(c: Claim, i: ReconcileInput)
    ensures ProvisionCalled in Reconcile(c, i).effects <==>
      && !i.fetchFails && !c.deleting && c.finalizer && !IsTrue(c.status.conditions, Failed)
      && ProvisionCalled in ReconcileLaunch(c.status, i.launch).effects
  {
    if c.deleting {
      FinalizeProvisionsNothing(c, i.finalize);
    } else if c.finalizer && !IsTrue(c.status.conditions, Failed) {
      PhasesProvisionInLaunch(c.status, c.name, i);
    }
  }

  /** For every claim and input: when a reconcile asks the provider for a machine. */
  lemma ProvisionsIff(c: Claim, i: ReconcileInput)
    ensures ProvisionCalled in Reconcile(c, i).effects <==>
      && !i.fetchFails && !c.deleting && c.finalizer && !IsTrue(c.status.conditions, Failed)
      && LaunchGoesOn(c.status, i.launch) && c.status.launchAttempts < 3
      && i.launch.existingNode == Missing && i.launch.sized && i.launch.providerFound
  {
    OnlyLaunchProvisions(c, i);
    LaunchProvisionsIff(c.status, i.launch);
  }

  /**
   In every run, each provisioning call is made after a moment of that reconcile at which no live node bears the
   claim's name: a relaunch waits for the node of an earlier attempt.
   */
  lemma LaunchesOnlyWithoutOldNode(worlds: seq<World>, steps: seq<Step>, k: nat)
    requires Run(worlds, steps) && k < |steps| && steps[k].ReconcileStep?
    requires ProvisionCalled in Reconcile(worlds[k].claim, steps[k].input).effects
    ensures worlds[k].claim.name !in steps[k].checked.live
    ensures Evolves(worlds[k].nodes, steps[k].checked)
  {
    assert Next(worlds[k], steps[k], worlds[k + 1]);
    ProvisionsIff(worlds[k].claim, steps[k].input);
  }

  /** What the launch answers once it holds the lease, case by case. */
  lemma LaunchAnswers(s: Status, i: LaunchInput)
    requires LaunchGoesOn(s, i) && i.write.Written? && i.releaseWrite.Written?
    ensures
      var o := ReconcileLaunch(s, i);
      && !IsLaunchLease(o.status.lease)
      && (s.launchAttempts >= 3 ==>
            o.effects == [] && o.flow == Stop(0, false) && IsTrue(o.status.conditions, Failed)
            && o.status.providerID == "")
      && (s.launchAttempts < 3 && i.existingNode.Found? ==>
            o.effects == [] && o.flow == Stop(10_000, false) && o.status == s.(lease := None))
      && (s.launchAttempts < 3 && i.existingNode.Unavailable? ==>
            o.effects == [] && o.flow == Stop(60_000, true) && o.status == s.(lease := None))
      && (s.launchAttempts < 3 && i.existingNode.Missing? && i.sized && !i.providerFound ==>
            o.effects == [] && o.flow == Stop(60_000, true) && o.status.launchAttempts == s.launchAttempts)
      && (s.launchAttempts < 3 && i.existingNode.Missing? && i.sized && i.providerFound && i.machine.None? ==>
            o.effects == [ProvisionCalled] && o.flow == Stop(60_000, true)
            && o.status.launchAttempts == s.launchAttempts + 1 && o.status.providerID == "")
      && (s.launchAttempts < 3 && i.existingNode.Missing? && i.sized && i.providerFound && i.machine.Some? ==>
            o.effects == [ProvisionCalled, LaunchStored(i.writeTime)] && o.flow == Continue
            && o.status.launchAttempts == s.launchAttempts + 1 && o.status.providerID == i.machine.value)
  {
    LaunchIsHolding(s, i);
  }

  /** A write that fails, or a claim without requirements, ends the launch with an error. */
  lemma LaunchErrors(s: Status, i: LaunchInput)
    requires s.providerID == ""
    ensures !i.clearWrite.Written? ==>
      s.lease.Some? && s.lease.value.phase == "Launching" && s.lease.value.timeoutSeconds <= 0 ==>
        ReconcileLaunch(s, i).effects == [] && ReconcileLaunch(s, i).flow == Stop(60_000, true)
    ensures LeaseIsFree(s.lease, i) && !i.acquireWrite.Written? ==>
      ReconcileLaunch(s, i).effects == [] && ReconcileLaunch(s, i).flow == Stop(60_000, true)
    ensures LaunchGoesOn(s, i) ==>
      var o := ReconcileLaunch(s, i);
      && (s.launchAttempts >= 3 && !i.write.Written? ==> o.effects == [] && o.flow == Stop(0, true))
      && (s.launchAttempts < 3 && i.existingNode.Missing? && !i.sized ==> o.effects == [] && o.flow == Stop(0, true))
      && (s.launchAttempts < 3 && i.existingNode.Missing? && i.sized && i.providerFound ==>
            i.machine.Some? && !i.write.Written? ==> o.flow == Stop(0, true) && o.effects[0] == ProvisionCalled)
  {
    var held := TakeLease(s, i.holder, i.acquireTime);
    assert TakeLease(ClearLaunchLease(s), i.holder, i.acquireTime) == held;
  }

  /** A launch lease that still runs turns the worker away for as long as it runs, and at least two or ten seconds. */
  lemma LeaseTurnsAway(s: Status, i: LaunchInput)
    requires s.providerID == "" && s.lease.Some? && s.lease.value.phase == "Launching"
    requires s.lease.value.timeoutSeconds > 0
    requires
      i.checkTime - (if s.lease.value.lastHeartbeat.Some? then s.lease.value.lastHeartbeat.value else s.lease.value.started)
        <= 1000 * s.lease.value.timeoutSeconds
    ensures
      var l := s.lease.value;
      var ends := (if l.lastHeartbeat.Some? then l.lastHeartbeat.value else l.started) + 1000 * l.timeoutSeconds;
      var least := if l.holder == i.holder then 10_000 else 2_000;
      ReconcileLaunch(s, i) == Outcome(s, [], Stop(if ends - i.checkTime < least then least else ends - i.checkTime, false))
  {
  }

  /** When a lease has run out and how long it still runs; one without a timeout has run out, and runs no time. */
  lemma LeaseTimes(l: Lease, now: int)
    ensures
      var last := if l.lastHeartbeat.Some? then l.lastHeartbeat.value else l.started;
      && (LeaseExpired(l, now) <==> l.timeoutSeconds <= 0 || now - last > 1000 * l.timeoutSeconds)
      && LeaseRemaining(l, now) == (if l.timeoutSeconds > 0 then last + 1000 * l.timeoutSeconds - now else 0)
  {
  }

  // ----- registering

  /** The node has the claim's name or its label, and is not being deleted. */
  predicate Belongs(n: Node, claimName: string) {
    (n.name == claimName || (n.claimLabel.Some? && n.claimLabel.value == claimName)) && n.terminating == false
  }

  predicate FirstBelonging(nodes: seq<Node>, claimName: string, j: int) {
    0 <= j < |nodes| && Belongs(nodes[j], claimName) && forall k :: 0 <= k < j ==> !Belongs(nodes[k], claimName)
  }

  lemma {:induction false} FirstNodeIs(nodes: seq<Node>, claimName: string, j: int)
    requires FirstBelonging(nodes, claimName, j)
    ensures FirstNodeFor(nodes, claimName) == Some(nodes[j])
  {
    if j > 0 {
      assert !Belongs(nodes[0], claimName);
      FirstNodeIs(nodes[1..], claimName, j - 1);
    }
  }

  lemma {:induction false} NoNodeBelongs(nodes: seq<Node>, claimName: string)
    requires forall j :: 0 <= j < |nodes| ==> !Belongs(nodes[j], claimName)
    ensures FirstNodeFor(nodes, claimName) == None
  {
    if nodes != [] {
      NoNodeBelongs(nodes[1..], claimName);
    }
  }

  /** A waiting claim is bound to the first listed node that belongs to it, once the node could be labelled. */
  lemma BindsFirstNode(s: Status, claimName: string, i: RegistrationInput, j: int)
    requires s.providerID != "" && s.nodeName == "" && i.listing.Some? && FirstBelonging(i.listing.value, claimName, j)
    ensures
      var n, o := i.listing.value[j], ReconcileRegistration(s, claimName, i);
      && (!i.poolFound || !i.labelsPatched ==> o == Outcome(s, [], Stop(30_000, true)))
      && (i.poolFound && i.labelsPatched && i.write.Written? ==>
            o.effects == [NodeBound(n.uid)] && o.flow == Continue && o.status.nodeName == n.name
            && o.status.launchAttempts == 0 && IsTrue(o.status.conditions, Registered))
      && (i.poolFound && i.labelsPatched && i.write.Rejected? ==> o == Outcome(s, [], Stop(0, true)))
  {
    FirstNodeIs(i.listing.value, claimName, j);
  }

  /** Without such a node it waits half a minute at a time, and gives up after fifteen minutes. */
  lemma WaitsOrTimesOut(s: Status, claimName: string, i: RegistrationInput)
    requires s.providerID != "" && s.nodeName == "" && Launched in s.conditions
    requires i.listing.Some? ==> forall j :: 0 <= j < |i.listing.value| ==> !Belongs(i.listing.value[j], claimName)
    ensures
      var o := ReconcileRegistration(s, claimName, i);
      if i.listing.None? || i.checkTime - s.conditions[Launched].since <= 900_000
      then o == Outcome(s, [], Stop(30_000, false))
      else
        && o.effects == [TimedOut(i.checkTime),
                         if i.providerFound then DeprovisionCalled(s.providerID, "") else ProviderUnavailable(s.providerID)]
        && (i.write.Rejected? ==> o.status == s && o.flow == Stop(0, true))
        && (i.write.Written? ==>
              && o.status.providerID == "" && o.status.launchAttempts == s.launchAttempts
              && !IsTrue(o.status.conditions, Launched) && !IsTrue(o.status.conditions, Registered)
              && (!IsTrue(s.conditions, Failed) ==> (IsTrue(o.status.conditions, Failed) <==> s.launchAttempts >= 3))
              && o.flow == Stop(if s.launchAttempts >= 3 then 0 else 1, false))
  {
    if i.listing.Some? {
      NoNodeBelongs(i.listing.value, claimName);
    }
  }

  /** A status write that fails ends the registration with an error. */
  lemma RegistrationErrors(s: Status, claimName: string, i: RegistrationInput)
    requires s.providerID != "" && s.nodeName == "" && i.listing.Some? && !i.write.Written?
    ensures forall j :: FirstBelonging(i.listing.value, claimName, j) && i.poolFound && i.labelsPatched ==>
      ReconcileRegistration(s, claimName, i).flow == Stop(0, true)
    ensures (forall j :: 0 <= j < |i.listing.value| ==> !Belongs(i.listing.value[j], claimName)) ==>
      Launched in s.conditions && i.checkTime - s.conditions[Launched].since > 900_000 ==>
        ReconcileRegistration(s, claimName, i).flow == Stop(0, true)
  {
    forall j | FirstBelonging(i.listing.value, claimName, j)
      ensures FirstNodeFor(i.listing.value, claimName) == Some(i.listing.value[j])
    {
      FirstNodeIs(i.listing.value, claimName, j);
    }
    if forall j :: 0 <= j < |i.listing.value| ==> !Belongs(i.listing.value[j], claimName) {
      NoNodeBelongs(i.listing.value, claimName);
    }
  }

  // ----- ready, waiting, or recycled

  /** Some readiness condition of the node is true. */
  predicate SaysReady(conds: seq<NodeCondition>) {
    exists k :: 0 <= k < |conds| && conds[k].isReadyType && conds[k].isTrue
  }

  /** The first readiness condition has been as it is for more than ten minutes. */
  predicate LongUnready(conds: seq<NodeCondition>, now: int) {
    exists k :: 0 <= k < |conds| && conds[k].isReadyType && (forall j :: 0 <= j < k ==> !conds[j].isReadyType)
      && conds[k].since.Some? && now - conds[k].since.value > 600_000
  }

  lemma ReadyIsSaid(conds: seq<NodeCondition>)
    ensures IsReady(conds) <==> SaysReady(conds)
  {
    if IsReady(conds) {
      var c :| c in conds && c.isReadyType && c.isTrue;
      var k :| 0 <= k < |conds| && conds[k] == c;
    }
    if SaysReady(conds) {
      var k :| 0 <= k < |conds| && conds[k].isReadyType && conds[k].isTrue;
      assert conds[k] in conds;
    }
  }

  lemma {:induction false} LongUnreadyIff(conds: seq<NodeCondition>, now: int)
    ensures NotReadyFor(conds, now) > 600_000 <==> LongUnready(conds, now)
  {
    if conds != [] && !conds[0].isReadyType {
      LongUnreadyIff(conds[1..], now);
      if LongUnready(conds[1..], now) {
        var k :| 0 <= k < |conds[1..]| && conds[1..][k].isReadyType
          && (forall j :: 0 <= j < k ==> !conds[1..][j].isReadyType)
          && conds[1..][k].since.Some? && now - conds[1..][k].since.value > 600_000;
        assert conds[k + 1] == conds[1..][k];
        assert forall j :: 1 <= j < k + 1 ==> conds[j] == conds[1..][j - 1];
      }
      if LongUnready(conds, now) {
        var k :| 0 <= k < |conds| && conds[k].isReadyType && (forall j :: 0 <= j < k ==> !conds[j].isReadyType)
          && conds[k].since.Some? && now - conds[k].since.value > 600_000;
        assert conds[1..][k - 1] == conds[k];
        assert forall j :: 0 <= j < k - 1 ==> conds[1..][j] == conds[j + 1];
      }
    }
  }

  /** For how long a node has been unready: as long as its first readiness condition `k`, and no time without one. */
  lemma {:induction false} UnreadyTime(conds: seq<NodeCondition>, now: int, k: nat)
    requires k <= |conds| && forall j :: 0 <= j < k ==> !conds[j].isReadyType
    requires k < |conds| ==> conds[k].isReadyType
    ensures NotReadyFor(conds, now) ==
      if k < |conds| && conds[k].since.Some? then now - conds[k].since.value else 0
  {
    if k > 0 {
      UnreadyTime(conds[1..], now, k - 1);
    }
  }

  /** What becomes of a registered claim: ready, left to wait, or recycled, exactly by the node it has. */
  lemma InitializationDecides(s: Status, i: InitializationInput)
    requires s.nodeName != ""
    ensures
      var o := ReconcileInitialization(s, i);
      && (i.node.Unavailable? ==> o == Outcome(s, [], Stop(10_000, false)))
      && (i.node.Found? && SaysReady(i.node.value.conditions) ==>
            o.effects == [] && (i.write.Written? ==>
              o.flow == Continue && IsTrue(o.status.conditions, Ready) && IsTrue(o.status.conditions, Initialized)
              && o.status.nodeName == s.nodeName && o.status.providerID == s.providerID))
      && (i.node.Found? && !SaysReady(i.node.value.conditions) && !LongUnready(i.node.value.conditions, i.checkTime) ==>
            o == Outcome(s, [], Stop(10_000, false)))
      && (i.nodeDeletion.Refused? || i.nodeDeletion.Unacknowledged? ==>
            i.node.Found? && !SaysReady(i.node.value.conditions) && LongUnready(i.node.value.conditions, i.checkTime) ==>
              o == Outcome(s, [], Stop(60_000, true)))
  {
    if i.node.Found? {
      ReadyIsSaid(i.node.value.conditions);
      LongUnreadyIff(i.node.value.conditions, i.checkTime);
    }
  }

  /** The node is gone, or long unready and accepted for deletion or gone by then. */
  predicate NodeIsGivenUp(i: InitializationInput) {
    || i.node.Missing?
    || (i.node.Found? && !SaysReady(i.node.value.conditions) && LongUnready(i.node.value.conditions, i.checkTime)
        && (i.nodeDeletion.Accepted? || i.nodeDeletion.AlreadyGone?))
  }

  lemma GivenUpIsRecycled(s: Status, i: InitializationInput)
    requires s.nodeName != ""
    ensures NodeIsGivenUp(i) ==> ReconcileInitialization(s, i) == RecycleUnhealthyNode(s, i)
    ensures !NodeIsGivenUp(i) ==> ReconcileInitialization(s, i).effects == []
  {
    if i.node.Found? {
      ReadyIsSaid(i.node.value.conditions);
      LongUnreadyIff(i.node.value.conditions, i.checkTime);
    }
  }

  /** A recycle happens exactly then ... */
  lemma RecyclesIff(s: Status, i: InitializationInput)
    requires s.nodeName != ""
    ensures Recycled in ReconcileInitialization(s, i).effects <==> NodeIsGivenUp(i) && !i.write.Rejected?
  {
    GivenUpIsRecycled(s, i);
    if NodeIsGivenUp(i) && !i.write.Rejected? {
      assert RecycleUnhealthyNode(s, i).effects[if s.providerID != "" then 1 else 0] == Recycled;
    }
  }

  /** ... and leaves a claim without node and machine, one attempt further. */
  lemma RecycleResets(s: Status, i: InitializationInput)
    requires s.nodeName != "" && s.providerID != "" && NodeIsGivenUp(i) && i.write.Written?
    ensures
      var o := ReconcileInitialization(s, i);
      && o.effects == [if i.providerFound then DeprovisionCalled(s.providerID, s.nodeName)
                       else ProviderUnavailable(s.providerID), Recycled]
      && o.status.providerID == "" && o.status.nodeName == "" && o.status.launchAttempts == s.launchAttempts + 1
      && !IsTrue(o.status.conditions, Launched) && !IsTrue(o.status.conditions, Registered)
      && !IsTrue(o.status.conditions, Initialized) && !IsTrue(o.status.conditions, Ready)
      && (IsTrue(o.status.conditions, Failed) <==> s.launchAttempts + 1 >= 3)
      && o.flow == Stop(if s.launchAttempts + 1 >= 3 then 0 else 1, false)
  {
    GivenUpIsRecycled(s, i);
  }

  /** A status write that fails ends the initialization with an error. */
  lemma InitializationErrors(s: Status, i: InitializationInput)
    requires s.nodeName != "" && !i.write.Written?
    ensures NodeIsGivenUp(i) || (i.node.Found? && SaysReady(i.node.value.conditions)) ==>
      ReconcileInitialization(s, i).flow == Stop(0, true)
  {
    GivenUpIsRecycled(s, i);
    if i.node.Found? {
      ReadyIsSaid(i.node.value.conditions);
    }
  }

  // ----- the ends of a reconcile

  /** The answers outside the phases, and the final one. */
  lemma OuterAnswers(c: Claim, i: ReconcileInput)
    ensures i.fetchFails ==> Reconcile(c, i) == ClaimOutcome(c, [], Stop(0, true))
    ensures !i.fetchFails && c.deleting && !c.finalizer ==>
      Reconcile(c, i) == ClaimOutcome(c, [SawDeletion], Stop(0, false))
    ensures !i.fetchFails && !c.deleting && !c.finalizer && i.finalizerWrite.Rejected? ==>
      Reconcile(c, i) == ClaimOutcome(c, [], Stop(0, true))
    ensures !i.fetchFails && !c.deleting && !c.finalizer && i.finalizerWrite.Written? ==>
      Reconcile(c, i) == ClaimOutcome(c.(finalizer := true), [FinalizerPersisted], Stop(1, false))
    ensures !i.fetchFails && !c.deleting && c.finalizer && IsTrue(c.status.conditions, Failed) ==>
      Reconcile(c, i) == ClaimOutcome(c, [], Stop(0, false))
    ensures !i.fetchFails && c.deleting && c.finalizer && c.status.nodeName != "" && i.finalize.node.Found? ==>
      Reconcile(c, i) == ClaimOutcome(
        c, [SawDeletion], Stop(5_000, i.finalize.nodeDeletion.Refused? || i.finalize.nodeDeletion.Unacknowledged?))
    ensures !i.fetchFails && c.deleting && c.finalizer && c.status.nodeName != "" && i.finalize.node.Unavailable? ==>
      Reconcile(c, i) == ClaimOutcome(c, [SawDeletion], Stop(5_000, true))
  {
  }

  /** A finalize pass that finds no node left: what it does in which order, and what it answers. */
  lemma CleanupAnswers(c: Claim, i: ReconcileInput)
    requires !i.fetchFails && c.deleting && c.finalizer && (c.status.nodeName == "" || i.finalize.node.Missing?)
    ensures
      var o := Reconcile(c, i);
      && o.effects ==
           [SawDeletion]
           + (if c.status.nodeName == "" then [] else [NodeSeenAbsent(c.status.nodeName)])
           + (if c.status.providerID == "" then []
              else if i.finalize.providerFound then [DeprovisionCalled(c.status.providerID, c.status.nodeName)]
              else [ProviderUnavailable(c.status.providerID)])
           + (if i.finalize.write.Rejected? then []
              else [FinalizerRemoved(c.status.nodeName, c.status.providerID)])
      && o.claim == c.(finalizer := i.finalize.write.Rejected?)
      && o.flow == Stop(0, !i.finalize.write.Written?)
  {
  }

  /** A registered claim with a ready node is looked at again after two minutes. */
  lemma HealthyAnswer(c: Claim, i: ReconcileInput)
    requires !i.fetchFails && !c.deleting && c.finalizer && !IsTrue(c.status.conditions, Failed)
    requires c.status.providerID != "" && c.status.nodeName != ""
    requires i.initialization.node.Found? && SaysReady(i.initialization.node.value.conditions)
    requires i.initialization.write.Written?
    ensures Reconcile(c, i).flow == Stop(120_000, false) && Reconcile(c, i).effects == []
    ensures IsTrue(Reconcile(c, i).claim.status.conditions, Ready)
  {
    ReadyIsSaid(i.initialization.node.value.conditions);
  }

  // ----- the conditions of the record

  /** A condition's time moves exactly when its status does. */
  lemma ConditionKeepsTime(cs: Conditions, t: ConditionType, isTrue: bool, now: int, other: ConditionType)
    ensures
      var after := SetCondition(cs, t, isTrue, now);
      && t in after && after[t].isTrue == isTrue
      && after[t].since == (if t in cs && cs[t].isTrue == isTrue then cs[t].since else now)
      && (other != t ==> (other in after <==> other in cs) && (other in cs ==> after[other] == cs[other]))
  {
  }
}
