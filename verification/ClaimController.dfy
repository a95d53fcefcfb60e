/**
 The claim controller as it runs: methods that update the stored claim step by step, working on a
 local copy of the status. Each is proved to do exactly what `ClaimLifecycle` says of the stored record.
 */
module ClaimController {
  import opened Common
  import opened ClaimRecord
  import opened ClaimLifecycle

  /** A local copy may lag behind the store in the lease only: heartbeats and releases go on beside it. */
  predicate Fresh(local: Status, stored: Status) {
    local.(lease := None) == stored.(lease := None)
  }

  lemma {:induction false} FirstNodeAt(nodes: seq<Node>, claimName: string, j: nat)
    requires j < |nodes| && IsNodeFor(nodes[j], claimName)
    requires forall k :: 0 <= k < j ==> !IsNodeFor(nodes[k], claimName)
    ensures FirstNodeFor(nodes, claimName) == Some(nodes[j])
  {
    if j > 0 {
      FirstNodeAt(nodes[1..], claimName, j - 1);
    }
  }

  lemma ConcatAssociates(a: seq<Effect>, b: seq<Effect>, c: seq<Effect>)
    ensures (a + b) + c == a + (b + c)
  {
  }

  /** The scan over a node's conditions for one that says it is ready. */
  method NodeIsReady(conds: seq<NodeCondition>) returns (ready: bool)
    ensures ready == IsReady(conds)
  {
    ready := false;
    for j := 0 to |conds|
      invariant !ready
      invariant forall k :: 0 <= k < j ==> !(conds[k].isReadyType && conds[k].isTrue)
    {
      if conds[j].isReadyType && conds[j].isTrue {
        assert conds[j] in conds;
        return true;
      }
    }
  }

  method NodeNotReadyFor(conds: seq<NodeCondition>, now: int) returns (duration: int)
    ensures duration == NotReadyFor(conds, now)
  {
    duration := 0;
    for j := 0 to |conds|
      invariant duration == 0
      invariant NotReadyFor(conds, now) == NotReadyFor(conds[j..], now)
    {
      assert conds[j..][1..] == conds[j + 1..];
      if conds[j].isReadyType {
        if conds[j].since.Some? {
          duration := now - conds[j].since.value;
        }
        break;
      }
    }
  }

  class NodeClaimReconciler {
    var stored: Claim
    var effects: seq<Effect>

    constructor (claim: Claim)
      ensures stored == claim && effects == []
    {
      stored, effects := claim, [];
    }

    /** Re-reads the stored status, applies the mutation and writes it back as one step. */
    method UpdateStatus(claim: Status, mutate: Status -> Status, w: Write)
      returns (claim': Status, err: bool)
      modifies this`stored
      ensures stored == old(stored).(status := Store(old(stored.status), mutate(old(stored.status)), w))
      ensures err == !w.Written?
      ensures claim' == if err then claim else stored.status
    {
      var latest := mutate(stored.status);
      if w.Rejected? {
        return claim, true;
      }
      stored := stored.(status := latest);
      if w.Unacked? {
        return claim, true;
      }
      return latest, false;
    }

    method ReconcileLaunch(claim: Status, i: LaunchInput) returns (claim': Status, flow: Flow)
      requires claim == stored.status
      modifies this
      ensures
        var o := ClaimLifecycle.ReconcileLaunch(old(stored.status), i);
        stored == old(stored).(status := o.status) && effects == old(effects) + o.effects && flow == o.flow
      ensures flow.Continue? ==> Fresh(claim', stored.status)
    {
      claim' := claim;
      if claim.providerID != "" {
        return claim', Continue;
      }
      if claim.lease.Some? && claim.lease.value.phase == LAUNCHING {
        var lease := claim.lease.value;
        if LeaseExpired(lease, i.checkTime) {
          var err;
          claim', err := UpdateStatus(claim', s => ClearLaunchLease(s), i.clearWrite);
          if err {
            return claim', Stop(REQUEUE_ON_ERROR, true);
          }
        } else if lease.holder != i.holder {
          var remaining := LeaseRemaining(lease, i.checkTime);
          if remaining < MIN_LEASE_RETRY_DELAY {
            remaining := MIN_LEASE_RETRY_DELAY;
          }
          return claim', Stop(remaining, false);
        } else {
          var remaining := LeaseRemaining(lease, i.checkTime);
          if remaining < LEASE_HEARTBEAT_INTERVAL {
            remaining := LEASE_HEARTBEAT_INTERVAL;
          }
          return claim', Stop(remaining, false);
        }
      }
      claim', flow := AcquireAndLaunch(claim', i);
    }

    method AcquireAndLaunch(claim: Status, i: LaunchInput) returns (claim': Status, flow: Flow)
      requires claim == stored.status
      modifies this
      ensures
        var o := ClaimLifecycle.AcquireAndLaunch(old(stored.status), i);
        stored == old(stored).(status := o.status) && effects == old(effects) + o.effects && flow == o.flow
      ensures flow.Continue? ==> Fresh(claim', stored.status)
    {
      var err;
      claim', err := UpdateStatus(claim, s => TakeLease(s, i.holder, i.acquireTime), i.acquireWrite);
      if err {
        return claim', Stop(REQUEUE_ON_ERROR, true);
      }
      claim', flow := LaunchHolding(claim', i);
      claim', err := UpdateStatus(claim', s => ClearLaunchLease(s), i.releaseWrite);
    }

    method LaunchHolding(claim: Status, i: LaunchInput) returns (claim': Status, flow: Flow)
      requires claim == stored.status
      modifies this
      ensures
        var o := ClaimLifecycle.LaunchHolding(old(stored.status), i);
        stored == old(stored).(status := o.status) && effects == old(effects) + o.effects && flow == o.flow
      ensures flow.Continue? ==> claim' == stored.status
    {
      claim' := claim;
      var err;
      if claim.launchAttempts >= MAX_LAUNCH_ATTEMPTS {
        claim', err := UpdateStatus(claim', s => GiveUp(s, i.writeTime), i.write);
        return claim', Stop(0, err);
      }
      match i.existingNode {
        case Found(_) => return claim', Stop(REQUEUE_INITIALIZATION, false);
        case Unavailable => return claim', Stop(REQUEUE_ON_ERROR, true);
        case Missing =>
      }
      var nextAttempt := claim.launchAttempts + 1;
      if !i.sized {
        return claim', Stop(0, true);
      }
      if !i.providerFound {
        claim', err := UpdateStatus(claim', s => LaunchBlocked(s, i.writeTime), i.write);
        return claim', Stop(REQUEUE_ON_ERROR, true);
      }
      claim' := claim'.(launchAttempts := nextAttempt);
      effects := effects + [ProvisionCalled];
      match i.machine {
        case None =>
          claim', err := UpdateStatus(claim', s => LaunchFailed(s, nextAttempt, i.writeTime), i.write);
          if i.write.Rejected? {
            effects := effects + [AttemptLost];
          }
          return claim', Stop(REQUEUE_ON_ERROR, true);
        case Some(id) =>
          claim' := claim'.(providerID := id);
          claim', err := UpdateStatus(claim', s => LaunchSucceeded(s, id, nextAttempt, i.writeTime), i.write);
          effects := effects + [if i.write.Rejected? then AttemptLost else LaunchStored(i.writeTime)];
          if err {
            return claim', Stop(0, true);
          }
          return claim', Continue;
      }
    }

    method ReconcileRegistration(claim: Status, i: RegistrationInput) returns (claim': Status, flow: Flow)
      requires Fresh(claim, stored.status)
      modifies this
      ensures
        var o := ClaimLifecycle.ReconcileRegistration(old(stored.status), old(stored.name), i);
        stored == old(stored).(status := o.status) && effects == old(effects) + o.effects && flow == o.flow
      ensures flow.Continue? ==> Fresh(claim', stored.status)
    {
      claim' := claim;
      if claim.providerID == "" {
        return claim', Continue;
      }
      if claim.nodeName != "" {
        return claim', Continue;
      }
      if i.listing.None? {
        return claim', Stop(REQUEUE_REGISTRATION, false);
      }
      var nodes := i.listing.value;
      for j := 0 to |nodes|
        invariant claim' == claim && stored == old(stored) && effects == old(effects)
        invariant forall k :: 0 <= k < j ==> !IsNodeFor(nodes[k], stored.name)
      {
        var node := nodes[j];
        if node.name == stored.name || node.claimLabel == Some(stored.name) {
          if node.terminating {
            continue;
          }
          FirstNodeAt(nodes, stored.name, j);
          claim', flow := BindNode(claim', node, i);
          return;
        }
      }
      assert forall n :: n in nodes ==> !IsNodeFor(n, stored.name);
      if Launched in claim.conditions {
        var timeSinceLaunch := i.checkTime - claim.conditions[Launched].since;
        if timeSinceLaunch > REGISTRATION_TIMEOUT {
          claim', flow := GiveUpWaiting(claim', i);
          return;
        }
      }
      return claim', Stop(REQUEUE_REGISTRATION, false);
    }

    method BindNode(claim: Status, node: Node, i: RegistrationInput) returns (claim': Status, flow: Flow)
      requires Fresh(claim, stored.status)
      modifies this
      ensures
        var labelled := i.poolFound && i.labelsPatched;
        var s := old(stored.status);
        && stored == old(stored).(status :=
             if labelled then Store(s, Register(s, node.name, i.writeTime), i.write) else s)
        && effects == old(effects) + (if labelled && !i.write.Rejected? then [NodeBound(node.uid)] else [])
        && flow == (if !labelled then Stop(REQUEUE_REGISTRATION, true)
                    else if i.write.Written? then Continue else Stop(0, true))
      ensures flow.Continue? ==> Fresh(claim', stored.status)
    {
      claim' := claim;
      if !i.poolFound {
        return claim', Stop(REQUEUE_REGISTRATION, true);
      }
      if !i.labelsPatched {
        return claim', Stop(REQUEUE_REGISTRATION, true);
      }
      claim' := claim'.(
        nodeName := node.name,
        launchAttempts := 0,
        conditions := RemoveCondition(claim'.conditions, Failed));
      var err;
      claim', err := UpdateStatus(claim', s => Register(s, node.name, i.writeTime), i.write);
      if !i.write.Rejected? {
        effects := effects + [NodeBound(node.uid)];
      }
      if err {
        return claim', Stop(0, true);
      }
      return claim', Continue;
    }

    method GiveUpWaiting(claim: Status, i: RegistrationInput) returns (claim': Status, flow: Flow)
      requires Fresh(claim, stored.status)
      modifies this
      ensures
        var o := ClaimLifecycle.GiveUpWaiting(old(stored.status), i);
        stored == old(stored).(status := o.status) && effects == old(effects) + o.effects && flow == o.flow
    {
      effects := effects + [TimedOut(i.checkTime)];
      if !i.providerFound {
        effects := effects + [ProviderUnavailable(claim.providerID)];
      } else {
        effects := effects + [DeprovisionCalled(claim.providerID, claim.nodeName)];
      }
      claim' := claim.(providerID := "");
      var attempts := claim.launchAttempts;
      if attempts == 0 {
        attempts := 1;
      }
      var maxAttemptsReached := attempts >= MAX_LAUNCH_ATTEMPTS;
      var err;
      claim', err := UpdateStatus(claim', s => RegistrationTimedOut(s, maxAttemptsReached, i.writeTime), i.write);
      if err {
        return claim', Stop(0, true);
      }
      if maxAttemptsReached {
        return claim', Stop(0, false);
      }
      return claim', Stop(IMMEDIATE_REQUEUE, false);
    }

    method ReconcileInitialization(claim: Status, i: InitializationInput) returns (claim': Status, flow: Flow)
      requires Fresh(claim, stored.status)
      modifies this
      ensures
        var o := ClaimLifecycle.ReconcileInitialization(old(stored.status), i);
        stored == old(stored).(status := o.status) && effects == old(effects) + o.effects && flow == o.flow
    {
      claim' := claim;
      if claim.nodeName == "" {
        return claim', Continue;
      }
      match i.node {
        case Missing =>
          claim', flow := RecycleUnhealthyNode(claim', i, false);
        case Unavailable =>
          return claim', Stop(REQUEUE_INITIALIZATION, false);
        case Found(node) =>
          var nodeReady := NodeIsReady(node.conditions);
          if !nodeReady {
            var notReadyDuration := NodeNotReadyFor(node.conditions, i.checkTime);
            if notReadyDuration > READINESS_DEGRADE_TIMEOUT {
              claim', flow := RecycleUnhealthyNode(claim', i, true);
              return;
            }
            return claim', Stop(REQUEUE_INITIALIZATION, false);
          }
          var err;
          claim', err := UpdateStatus(claim', s => MarkReady(s, i.writeTime), i.write);
          if err {
            return claim', Stop(0, true);
          }
          return claim', Continue;
      }
    }

    method RecycleUnhealthyNode(claim: Status, i: InitializationInput, nodeExists: bool)
      returns (claim': Status, flow: Flow)
      requires Fresh(claim, stored.status)
      modifies this
      ensures
        var o := if nodeExists && Errs(i.nodeDeletion)
                 then Outcome(old(stored.status), [], Stop(REQUEUE_ON_ERROR, true))
                 else ClaimLifecycle.RecycleUnhealthyNode(old(stored.status), i);
        stored == old(stored).(status := o.status) && effects == old(effects) + o.effects && flow == o.flow
    {
      claim' := claim;
      if nodeExists && Errs(i.nodeDeletion) {
        return claim', Stop(REQUEUE_ON_ERROR, true);
      }
      ghost var before := effects;
      ghost var released := if claim.providerID != "" then [DeprovisionEffect(claim, i.providerFound)] else [];
      if claim.providerID != "" {
        if !i.providerFound {
          effects := effects + [ProviderUnavailable(claim.providerID)];
        } else {
          effects := effects + [DeprovisionCalled(claim.providerID, claim.nodeName)];
        }
      }
      assert effects == before + released;
      var nextAttempts := claim.launchAttempts + 1;
      var maxReached := nextAttempts >= MAX_LAUNCH_ATTEMPTS;
      var err;
      claim', err := UpdateStatus(claim', s => Recycle(s, nextAttempts, maxReached, i.writeTime), i.write);
      if !i.write.Rejected? {
        effects := effects + [Recycled];
      }
      ConcatAssociates(before, released, if i.write.Rejected? then [] else [Recycled]);
      if err {
        return claim', Stop(0, true);
      }
      if maxReached {
        return claim', Stop(0, false);
      }
      return claim', Stop(IMMEDIATE_REQUEUE, false);
    }

    method Finalize(i: FinalizeInput) returns (flow: Flow)
      modifies this
      ensures
        var o := ClaimLifecycle.Finalize(old(stored), i);
        stored == o.claim && effects == old(effects) + o.effects && flow == o.flow
    {
      var claim := stored;
      effects := effects + [SawDeletion];
      if !claim.finalizer {
        return Stop(0, false);
      }
      if claim.status.nodeName != "" {
        match i.node {
          case Found(_) => return Stop(REQUEUE_FINALIZATION, Errs(i.nodeDeletion));
          case Unavailable => return Stop(REQUEUE_FINALIZATION, true);
          case Missing => effects := effects + [NodeSeenAbsent(claim.status.nodeName)];
        }
      }
      if claim.status.providerID != "" {
        if !i.providerFound {
          effects := effects + [ProviderUnavailable(claim.status.providerID)];
        } else {
          effects := effects + [DeprovisionCalled(claim.status.providerID, claim.status.nodeName)];
        }
      }
      if i.write.Rejected? {
        return Stop(0, true);
      }
      stored := claim.(finalizer := false);
      effects := effects + [FinalizerRemoved(claim.status.nodeName, claim.status.providerID)];
      return Stop(0, i.write.Unacked?);
    }

    /** The phases after the launch; a phase that stops ends the reconcile. */
    method RegisterAndInitialize(initial: Status, i: ReconcileInput) returns (flow: Flow)
      requires Fresh(initial, stored.status)
      modifies this
      ensures
        var o := ClaimLifecycle.RegisterAndInitialize(old(stored.status), old(stored.name), i);
        stored == old(stored).(status := o.status) && effects == old(effects) + o.effects && flow == o.flow
    {
      ghost var r := ClaimLifecycle.ReconcileRegistration(stored.status, stored.name, i.registration);
      ghost var before := effects;
      var claim := initial;
      claim, flow := ReconcileRegistration(claim, i.registration);
      if flow.Stop? {
        return;
      }
      ghost var n := ClaimLifecycle.ReconcileInitialization(r.status, i.initialization);
      claim, flow := ReconcileInitialization(claim, i.initialization);
      ConcatAssociates(before, r.effects, n.effects);
      if flow.Stop? {
        return;
      }
      return Stop(READY_HEALTH_CHECK, false);
    }

    method RunPhases(initial: Status, i: ReconcileInput) returns (flow: Flow)
      requires initial == stored.status
      modifies this
      ensures
        var o := ClaimLifecycle.RunPhases(old(stored.status), old(stored.name), i);
        stored == old(stored).(status := o.status) && effects == old(effects) + o.effects && flow == o.flow
    {
      ghost var l := ClaimLifecycle.ReconcileLaunch(stored.status, i.launch);
      ghost var before := effects;
      var claim := initial;
      claim, flow := ReconcileLaunch(claim, i.launch);
      if flow.Stop? {
        return;
      }
      ghost var o := ClaimLifecycle.RegisterAndInitialize(l.status, stored.name, i);
      flow := RegisterAndInitialize(claim, i);
      ConcatAssociates(before, l.effects, o.effects);
    }

    /** One call of the reconciler for this claim. */
    method Reconcile(i: ReconcileInput) returns (flow: Flow)
      requires i.launch.sized == stored.sized
      modifies this
      ensures
        var o := ClaimLifecycle.Reconcile(old(stored), i);
        stored == o.claim && effects == old(effects) + o.effects && flow == o.flow
    {
      if i.fetchFails {
        return Stop(0, true);
      }
      if stored.deleting {
        flow := Finalize(i.finalize);
        return;
      }
      if !stored.finalizer {
        if !i.finalizerWrite.Rejected? {
          stored := stored.(finalizer := true);
          effects := effects + [FinalizerPersisted];
        }
        if !i.finalizerWrite.Written? {
          return Stop(0, true);
        }
        return Stop(IMMEDIATE_REQUEUE, false);
      }
      var claim := stored.status;
      if IsTrue(claim.conditions, Failed) {
        return Stop(0, false);
      }
      flow := RunPhases(claim, i);
    }
  }
}
