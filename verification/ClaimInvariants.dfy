/** What every phase of a reconcile keeps, whatever it reads and whichever of its writes fail. */
module ClaimInvariants {
  import opened Common
  import opened ClaimRecord
  import opened ClaimLifecycle

  /** The shape of every reachable claim status. */
  predicate LifecycleInv(s: Status) {
    && (s.providerID != "" <==> IsTrue(s.conditions, Launched))
    && (s.nodeName != "" <==> IsTrue(s.conditions, Registered))
    && (IsTrue(s.conditions, Ready) <==> IsTrue(s.conditions, Initialized))
    && (IsTrue(s.conditions, Ready) ==> s.nodeName != "")
    && (s.nodeName != "" ==> s.providerID != "" && s.launchAttempts == 0)
    && (IsTrue(s.conditions, Failed) ==> s.providerID == "" && s.nodeName == "")
    && 0 <= s.launchAttempts <= MAX_LAUNCH_ATTEMPTS
    && (s.providerID != "" && s.nodeName == "" ==> s.launchAttempts >= 1)
  }

  /** Providers name their machines and the cluster names its nodes. */
  predicate ValidInput(i: ReconcileInput) {
    && (i.launch.machine.Some? ==> i.launch.machine.value != "")
    && (i.registration.listing.Some? ==>
          forall n :: n in i.registration.listing.value ==> n.name != "")
  }

  const NEW_STATUS := Status("", "", 0, map[], None)

  lemma HoldingKeepsInv(s: Status, i: LaunchInput)
    requires LifecycleInv(s) && s.providerID == "" && !IsTrue(s.conditions, Failed)
    requires i.machine.Some? ==> i.machine.value != ""
    ensures LifecycleInv(LaunchHolding(s, i).status)
    ensures LaunchHolding(s, i).flow.Continue? ==>
      LaunchHolding(s, i).status.providerID != "" && !IsTrue(LaunchHolding(s, i).status.conditions, Failed)
  {
  }

  lemma AcquireKeepsInv(s: Status, i: LaunchInput)
    requires LifecycleInv(s) && s.providerID == "" && !IsTrue(s.conditions, Failed)
    requires i.machine.Some? ==> i.machine.value != ""
    ensures LifecycleInv(AcquireAndLaunch(s, i).status)
    ensures AcquireAndLaunch(s, i).flow.Continue? ==>
      AcquireAndLaunch(s, i).status.providerID != "" && !IsTrue(AcquireAndLaunch(s, i).status.conditions, Failed)
  {
    HoldingKeepsInv(TakeLease(s, i.holder, i.acquireTime), i);
  }

  lemma LaunchKeepsInv(s: Status, i: LaunchInput)
    requires LifecycleInv(s) && !IsTrue(s.conditions, Failed)
    requires i.machine.Some? ==> i.machine.value != ""
    ensures LifecycleInv(ReconcileLaunch(s, i).status)
    ensures ReconcileLaunch(s, i).flow.Continue? ==>
      ReconcileLaunch(s, i).status.providerID != "" && !IsTrue(ReconcileLaunch(s, i).status.conditions, Failed)
  {
    if s.providerID == "" {
      AcquireKeepsInv(s, i);
      AcquireKeepsInv(s.(lease := None), i);
    }
  }

  lemma RegistrationKeepsInv(s: Status, claimName: string, i: RegistrationInput)
    requires LifecycleInv(s) && s.providerID != ""
    requires i.listing.Some? ==> forall n :: n in i.listing.value ==> n.name != ""
    ensures LifecycleInv(ReconcileRegistration(s, claimName, i).status)
    ensures ReconcileRegistration(s, claimName, i).flow.Continue? ==>
      ReconcileRegistration(s, claimName, i).status.nodeName != ""
  {
  }

  lemma InitializationKeepsInv(s: Status, i: InitializationInput)
    requires LifecycleInv(s) && s.nodeName != ""
    ensures LifecycleInv(ReconcileInitialization(s, i).status)
    ensures ReconcileInitialization(s, i).flow.Continue? ==>
      IsTrue(ReconcileInitialization(s, i).status.conditions, Ready)
    ensures !IsTrue(ReconcileInitialization(s, i).status.conditions, Failed)
  {
  }

  /** A whole reconcile keeps the shape, never undoes Failed, and reports the claim ready only if it is. */
  lemma ReconcileKeepsInv(c: Claim, i: ReconcileInput)
    requires LifecycleInv(c.status) && ValidInput(i)
    ensures LifecycleInv(Reconcile(c, i).claim.status)
    ensures IsTrue(c.status.conditions, Failed) ==> Reconcile(c, i).claim.status == c.status
  {
    var s := c.status;
    if !IsTrue(s.conditions, Failed) {
      LaunchKeepsInv(s, i.launch);
      var l := ReconcileLaunch(s, i.launch);
      if l.flow.Continue? {
        RegistrationKeepsInv(l.status, c.name, i.registration);
        var r := ReconcileRegistration(l.status, c.name, i.registration);
        if r.flow.Continue? {
          InitializationKeepsInv(r.status, i.initialization);
        }
      }
    }
  }

  /** The reconcile gets past all three phases to its final return. */
  predicate ReachesEnd(c: Claim, i: ReconcileInput) {
    var l := ReconcileLaunch(c.status, i.launch);
    var r := ReconcileRegistration(l.status, c.name, i.registration);
    && !i.fetchFails && !c.deleting && c.finalizer && !IsTrue(c.status.conditions, Failed)
    && l.flow.Continue?
    && r.flow.Continue?
    && ReconcileInitialization(r.status, i.initialization).flow.Continue?
  }

  lemma FinalReturnMeansReady(c: Claim, i: ReconcileInput)
    requires LifecycleInv(c.status) && ValidInput(i)
    requires ReachesEnd(c, i)
    ensures
      var s := Reconcile(c, i).claim.status;
      IsTrue(s.conditions, Ready) && s.nodeName != "" && s.providerID != ""
  {
    LaunchKeepsInv(c.status, i.launch);
    var l := ReconcileLaunch(c.status, i.launch);
    RegistrationKeepsInv(l.status, c.name, i.registration);
    var r := ReconcileRegistration(l.status, c.name, i.registration);
    InitializationKeepsInv(r.status, i.initialization);
  }

  /**
   No claim is stranded: a reconcile that returns neither an error nor a requeue delay leaves the
   claim Failed, or being deleted with its finalizer gone.
   */
  lemma NoStrandedClaim(c: Claim, i: ReconcileInput)
    requires LifecycleInv(c.status) && ValidInput(i)
    ensures Reconcile(c, i).flow.Stop?
    ensures
      var o := Reconcile(c, i);
      o.flow == Stop(0, false) ==>
        IsTrue(o.claim.status.conditions, Failed) || (c.deleting && !o.claim.finalizer)
  {
    if !c.deleting && !IsTrue(c.status.conditions, Failed) {
      PhasesStopForAReason(c.status, c.name, i);
    }
  }

  lemma PhasesStopForAReason(s: Status, claimName: string, i: ReconcileInput)
    requires LifecycleInv(s) && !IsTrue(s.conditions, Failed) && ValidInput(i)
    ensures RunPhases(s, claimName, i).flow.Stop?
    ensures RunPhases(s, claimName, i).flow == Stop(0, false) ==>
      IsTrue(RunPhases(s, claimName, i).status.conditions, Failed)
  {
    LaunchStopsForAReason(s, i.launch);
    LaunchKeepsInv(s, i.launch);
    var l := ReconcileLaunch(s, i.launch);
    if l.flow.Continue? {
      RegistrationKeepsInv(l.status, claimName, i.registration);
      RegistrationStopsForAReason(l.status, claimName, i.registration);
      var r := ReconcileRegistration(l.status, claimName, i.registration);
      if r.flow.Continue? {
        InitializationStopsForAReason(r.status, i.initialization);
      }
    }
  }

  lemma RegistrationStopsForAReason(s: Status, claimName: string, i: RegistrationInput)
    ensures ReconcileRegistration(s, claimName, i).flow == Stop(0, false) ==>
      IsTrue(ReconcileRegistration(s, claimName, i).status.conditions, Failed)
  {
  }

  lemma InitializationStopsForAReason(s: Status, i: InitializationInput)
    ensures ReconcileInitialization(s, i).flow == Stop(0, false) ==>
      IsTrue(ReconcileInitialization(s, i).status.conditions, Failed)
  {
  }

  lemma LaunchStopsForAReason(s: Status, i: LaunchInput)
    requires LifecycleInv(s)
    ensures ReconcileLaunch(s, i).flow == Stop(0, false) ==>
      IsTrue(ReconcileLaunch(s, i).status.conditions, Failed)
  {
    var held := TakeLease(s, i.holder, i.acquireTime);
    assert LaunchHolding(held, i).flow == Stop(0, false) ==>
        IsTrue(LaunchHolding(held, i).status.conditions, Failed);
    assert TakeLease(ClearLaunchLease(s), i.holder, i.acquireTime) == held;
  }

  /** A worker turned away by a lease comes back when the lease has run out, unless it was refreshed, and not at once. */
  lemma LeaseWaitIsEnough(l: Lease, holder: string, now: int, later: int)
    requires !LeaseExpired(l, now) && later > now + LeaseWait(l, holder, now)
    ensures LeaseExpired(l, later)
    ensures LeaseWait(l, holder, now) >= MIN_LEASE_RETRY_DELAY
  {
  }

  /**
   Branches of the controller that no reachable status takes: Launched without a provider ID,
   a launched machine without a Launched condition or with no attempt counted, and a recycle that
   finds the attempts used up.
   */
  lemma UnreachableBranches(s: Status, i: InitializationInput)
    requires LifecycleInv(s)
    ensures s.providerID == "" ==> !IsTrue(s.conditions, Launched)
    ensures s.providerID != "" ==> Launched in s.conditions
    ensures s.providerID != "" && s.nodeName == "" ==> s.launchAttempts != 0
    ensures s.nodeName != "" ==>
      var recycled := RecycleUnhealthyNode(s, i.(write := Written)).status;
      recycled.launchAttempts == 1 && !IsTrue(recycled.conditions, Failed)
  {
  }

  // ----- the launch budget

  /**
   Strictly decreases whenever an attempt is spent before registration: an attempt is a launch and a timeout, and
   what ends the last attempt also fails the claim.
   */
  function Rank(s: Status): int {
    if IsTrue(s.conditions, Failed) then 0
    else if s.launchAttempts >= MAX_LAUNCH_ATTEMPTS then 1
    else 2 * (MAX_LAUNCH_ATTEMPTS - s.launchAttempts) + (if s.providerID != "" then 1 else 0)
  }

  lemma HoldingSpendsRank(s: Status, i: LaunchInput)
    requires LifecycleInv(s) && s.providerID == "" && !IsTrue(s.conditions, Failed)
    requires i.machine.Some? ==> i.machine.value != ""
    ensures 0 <= Rank(LaunchHolding(s, i).status) <= Rank(s)
    ensures i.write.Written? && (ProvisionCalled in LaunchHolding(s, i).effects || s.launchAttempts >= MAX_LAUNCH_ATTEMPTS)
      ==> Rank(LaunchHolding(s, i).status) < Rank(s)
  {
    HoldingKeepsInv(s, i);
  }

  /** Every provisioning call, and giving up, spends rank once its status write succeeds. */
  lemma LaunchSpendsRank(s: Status, i: LaunchInput)
    requires LifecycleInv(s) && !IsTrue(s.conditions, Failed)
    requires i.machine.Some? ==> i.machine.value != ""
    ensures
      var o := ReconcileLaunch(s, i);
      && 0 <= Rank(o.status) <= Rank(s)
      && (i.write.Written? && (ProvisionCalled in o.effects || IsTrue(o.status.conditions, Failed))
          ==> Rank(o.status) < Rank(s))
  {
    if s.providerID == "" {
      HoldingSpendsRank(TakeLease(s, i.holder, i.acquireTime), i);
      assert TakeLease(ClearLaunchLease(s), i.holder, i.acquireTime) == TakeLease(s, i.holder, i.acquireTime);
    }
  }

  /** So does every registration timeout; a registration phase that binds no node never adds rank. */
  lemma TimeoutSpendsRank(s: Status, claimName: string, i: RegistrationInput)
    requires LifecycleInv(s) && !IsTrue(s.conditions, Failed)
    requires i.listing.Some? ==> forall n :: n in i.listing.value ==> n.name != ""
    ensures
      var o := ReconcileRegistration(s, claimName, i);
      && (o.status.nodeName == s.nodeName ==> 0 <= Rank(o.status) <= Rank(s))
      && (i.write.Written? && (exists t :: TimedOut(t) in o.effects) ==> Rank(o.status) < Rank(s))
  {
  }
}
