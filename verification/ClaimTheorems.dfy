/** The promises of the claim controller, read off the effect log of an arbitrary run. */
module ClaimTheorems {
  import opened Common
  import opened ClaimRecord
  import opened ClaimLifecycle
  import opened ClaimInvariants
  import opened ClaimRuns

  // ----- what the monitor remembers of a log

  /** `at` is the last index in `[lo, hi)` whose entry satisfies `p`. */
  ghost predicate LastMatch(log: seq<Effect>, lo: nat, hi: nat, p: Effect -> bool, at: nat) {
    lo <= at < hi <= |log| && p(log[at]) && forall k :: at < k < hi ==> !p(log[k])
  }

  function IsLaunch(e: Effect): bool { e.LaunchStored? }

  function IsSawDeletion(e: Effect): bool { e.SawDeletion? }

  function IsFinalizerChange(e: Effect): bool { e.FinalizerPersisted? || e.FinalizerRemoved? }

  /** What the monitor remembers after a prefix of the log, one entry further. */
  lemma OneFurther(log: seq<Effect>, n: nat)
    requires 0 < n <= |log|
    ensures
      var m, m', e := AdvanceAll(START, log[..n - 1]), AdvanceAll(START, log[..n]), log[n - 1];
      && m'.lastLaunch == (if e.LaunchStored? then Some(e.at) else m.lastLaunch)
      && m'.bound == (if e.NodeBound? then m.bound + {e.uid} else m.bound)
      && m'.sawDeletion == (m.sawDeletion || e.SawDeletion?)
      && m'.finalizerHeld == (if e.FinalizerPersisted? then true else !e.FinalizerRemoved? && m.finalizerHeld)
      && m'.absent ==
           (if e.SawDeletion? then None else if e.NodeSeenAbsent? then Some(e.nodeName) else m.absent)
      && m'.released ==
           (if e.SawDeletion? then None
            else if e.DeprovisionCalled? || e.ProviderUnavailable? then Some(e.providerID) else m.released)
  {
    assert log[..n][..n - 1] == log[..n - 1];
  }

  lemma {:induction false} LastLaunchInLog(log: seq<Effect>, n: nat) returns (at: nat)
    requires n <= |log| && AdvanceAll(START, log[..n]).lastLaunch.Some?
    ensures LastMatch(log, 0, n, IsLaunch, at)
    ensures log[at].at == AdvanceAll(START, log[..n]).lastLaunch.value
  {
    OneFurther(log, n);
    if log[n - 1].LaunchStored? {
      at := n - 1;
    } else {
      at := LastLaunchInLog(log, n - 1);
    }
  }

  lemma {:induction false} BoundInLog(log: seq<Effect>, n: nat, k: nat)
    requires k < n <= |log| && log[k].NodeBound?
    ensures log[k].uid in AdvanceAll(START, log[..n]).bound
  {
    OneFurther(log, n);
    if k < n - 1 {
      BoundInLog(log, n - 1, k);
    }
  }

  lemma {:induction false} DeletionInLog(log: seq<Effect>, n: nat, k: nat)
    requires k < n <= |log| && log[k].SawDeletion?
    ensures AdvanceAll(START, log[..n]).sawDeletion
  {
    OneFurther(log, n);
    if k < n - 1 {
      DeletionInLog(log, n - 1, k);
    }
  }

  lemma {:induction false} FinalizerInLog(log: seq<Effect>, n: nat) returns (at: nat)
    requires n <= |log| && AdvanceAll(START, log[..n]).finalizerHeld
    ensures LastMatch(log, 0, n, IsFinalizerChange, at) && log[at].FinalizerPersisted?
  {
    OneFurther(log, n);
    if log[n - 1].FinalizerPersisted? {
      at := n - 1;
    } else {
      at := FinalizerInLog(log, n - 1);
    }
  }

  predicate Releases(e: Effect, providerID: string) {
    (e.DeprovisionCalled? || e.ProviderUnavailable?) && e.providerID == providerID
  }

  lemma {:induction false} DeletionPassInLog(log: seq<Effect>, n: nat) returns (pass: nat)
    requires n <= |log| && AdvanceAll(START, log[..n]).sawDeletion
    ensures LastMatch(log, 0, n, IsSawDeletion, pass)
  {
    OneFurther(log, n);
    if log[n - 1].SawDeletion? {
      pass := n - 1;
    } else {
      pass := DeletionPassInLog(log, n - 1);
    }
  }

  /** Since deletion was last observed, the monitor saw the absence it reports ... */
  lemma {:induction false} AbsenceInLog(log: seq<Effect>, n: nat, pass: nat)
    requires LastMatch(log, 0, n, IsSawDeletion, pass)
    requires AdvanceAll(START, log[..n]).absent.Some?
    ensures NodeSeenAbsent(AdvanceAll(START, log[..n]).absent.value) in log[pass..n]
  {
    OneFurther(log, n);
    var last := log[n - 1];
    if !last.NodeSeenAbsent? && pass < n - 1 {
      AbsenceInLog(log, n - 1, pass);
      assert log[pass..n] == log[pass..n - 1] + [last];
    }
  }

  /** ... and the release it reports. */
  lemma {:induction false} ReleaseInLog(log: seq<Effect>, n: nat, pass: nat) returns (e: Effect)
    requires LastMatch(log, 0, n, IsSawDeletion, pass)
    requires AdvanceAll(START, log[..n]).released.Some?
    ensures e in log[pass..n] && Releases(e, AdvanceAll(START, log[..n]).released.value)
  {
    OneFurther(log, n);
    e := log[n - 1];
    if !(e.DeprovisionCalled? || e.ProviderUnavailable?) && pass < n - 1 {
      var last := e;
      e := ReleaseInLog(log, n - 1, pass);
      assert log[pass..n] == log[pass..n - 1] + [last];
    }
  }

  // ----- the promises

  lemma FailedSurvivesStep(w: World, step: Step, w': World)
    requires LifecycleInv(w.claim.status) && Next(w, step, w') && HasFailed(w)
    ensures HasFailed(w')
  {
    if step.ReconcileStep? {
      ReconcileKeepsInv(w.claim, step.input);
    }
  }

  /** Every reachable claim record has the lifecycle shape. */
  lemma EveryRecordIsWellShaped(worlds: seq<World>, steps: seq<Step>, k: nat)
    requires Run(worlds, steps) && k < |worlds|
    ensures LifecycleInv(worlds[k].claim.status)
  {
    RunKeepsInv(worlds, steps, k);
  }

  predicate HasFailed(w: World) {
    IsTrue(w.claim.status.conditions, Failed)
  }

  lemma FailedOneStep(worlds: seq<World>, steps: seq<Step>, k: nat)
    requires Run(worlds, steps) && k < |steps| && HasFailed(worlds[k])
    ensures HasFailed(worlds[k + 1])
  {
    EveryRecordIsWellShaped(worlds, steps, k);
    FailedSurvivesStep(worlds[k], steps[k], worlds[k + 1]);
  }

  /** A claim once Failed stays Failed. */
  lemma {:induction false} FailedIsFinal(worlds: seq<World>, steps: seq<Step>, j: nat, k: nat)
    requires Run(worlds, steps) && j <= k < |worlds| && HasFailed(worlds[j])
    ensures HasFailed(worlds[k])
    decreases k - j
  {
    if j < k {
      FailedOneStep(worlds, steps, j);
      FailedIsFinal(worlds, steps, j + 1, k);
    }
  }

  /** No node object is bound to the claim twice, across recycles and relaunches. */
  lemma NoNodeBoundTwice(worlds: seq<World>, steps: seq<Step>, k: nat, i: nat, j: nat)
    requires Run(worlds, steps) && k < |worlds|
    requires i < j < |worlds[k].log|
    requires worlds[k].log[i].NodeBound? && worlds[k].log[j].NodeBound?
    ensures worlds[k].log[i].uid != worlds[k].log[j].uid
  {
    RunKeepsInv(worlds, steps, k);
    LawfulAt(worlds[k].log, j);
    BoundInLog(worlds[k].log, j, i);
  }

  /**
   Every machine gets its full registration window: a timeout at `at` follows a stored launch, with no
   other launch stored in between, by more than the registration timeout.
   */
  lemma FullRegistrationWindow(worlds: seq<World>, steps: seq<Step>, k: nat, i: nat) returns (launch: nat)
    requires Run(worlds, steps) && k < |worlds|
    requires i < |worlds[k].log| && worlds[k].log[i].TimedOut?
    ensures LastMatch(worlds[k].log, 0, i, IsLaunch, launch)
    ensures worlds[k].log[i].at - worlds[k].log[launch].at > REGISTRATION_TIMEOUT
  {
    RunKeepsInv(worlds, steps, k);
    LawfulAt(worlds[k].log, i);
    launch := LastLaunchInLog(worlds[k].log, i);
  }

  /** Machines are provisioned only under a persisted finalizer, and never once deletion was observed. */
  lemma ProvisionedUnderFinalizer(worlds: seq<World>, steps: seq<Step>, k: nat, i: nat) returns (f: nat)
    requires Run(worlds, steps) && k < |worlds|
    requires i < |worlds[k].log| && worlds[k].log[i].ProvisionCalled?
    ensures LastMatch(worlds[k].log, 0, i, IsFinalizerChange, f) && worlds[k].log[f].FinalizerPersisted?
    ensures forall j :: 0 <= j < i ==> !worlds[k].log[j].SawDeletion?
  {
    var log := worlds[k].log;
    RunKeepsInv(worlds, steps, k);
    LawfulAt(log, i);
    f := FinalizerInLog(log, i);
    forall j | 0 <= j < i ensures !log[j].SawDeletion? {
      if log[j].SawDeletion? {
        DeletionInLog(log, i, j);
      }
    }
  }

  /**
   The finalizer goes only in a pass over a deleted claim that saw the claim's node absent, if it had
   one, and that released its machine, if it had one, by a deprovision call or a failed provider lookup.
   */
  lemma FinalizerRemovedLast(worlds: seq<World>, steps: seq<Step>, k: nat, i: nat) returns (pass: nat)
    requires Run(worlds, steps) && k < |worlds|
    requires i < |worlds[k].log| && worlds[k].log[i].FinalizerRemoved?
    ensures LastMatch(worlds[k].log, 0, i, IsSawDeletion, pass)
    ensures
      var e := worlds[k].log[i];
      && (e.nodeName != "" ==> NodeSeenAbsent(e.nodeName) in worlds[k].log[pass..i])
      && (e.providerID != "" ==> exists r :: r in worlds[k].log[pass..i] && Releases(r, e.providerID))
    ensures forall j :: i < j < |worlds[k].log| ==> !worlds[k].log[j].ProvisionCalled?
  {
    var log := worlds[k].log;
    RunKeepsInv(worlds, steps, k);
    LawfulAt(log, i);
    pass := DeletionPassInLog(log, i);
    var e := log[i];
    if e.nodeName != "" {
      AbsenceInLog(log, i, pass);
    }
    if e.providerID != "" {
      var r := ReleaseInLog(log, i, pass);
    }
    forall j | i < j < |log| ensures !log[j].ProvisionCalled? {
      if log[j].ProvisionCalled? {
        LawfulAt(log, j);
        DeletionInLog(log, j, pass);
      }
    }
  }

  /** A pass over a deleted claim that could be read, whose node is gone or was never bound, and whose write is not lost. */
  predicate ClearingPass(w: World, step: Step) {
    step.ReconcileStep? && !step.input.fetchFails && !step.input.finalize.write.Rejected? &&
    (w.claim.status.nodeName == "" || step.input.finalize.node.Missing?)
  }

  lemma DeletedStep(w: World, step: Step, w': World)
    requires Next(w, step, w') && w.claim.deleting
    ensures w'.claim.deleting && w'.claim.status.(lease := None) == w.claim.status.(lease := None)
    ensures w'.claim.finalizer <==> w.claim.finalizer && !ClearingPass(w, step)
  {
  }

  lemma DeletedOneStep(worlds: seq<World>, steps: seq<Step>, k: nat)
    requires Run(worlds, steps) && k < |steps| && worlds[k].claim.deleting
    ensures worlds[k + 1].claim.deleting
    ensures worlds[k + 1].claim.status.(lease := None) == worlds[k].claim.status.(lease := None)
    ensures worlds[k + 1].claim.finalizer <==> worlds[k].claim.finalizer && !ClearingPass(worlds[k], steps[k])
  {
    DeletedStep(worlds[k], steps[k], worlds[k + 1]);
  }

  ghost predicate WasCleared(worlds: seq<World>, steps: seq<Step>, from: nat, until: nat)
    requires from <= until <= |steps| < |worlds|
  {
    exists j :: from <= j < until && ClearingPass(worlds[j], steps[j])
  }

  /**
   From its deletion on, a claim loses its finalizer exactly at its first pass that finds the node gone, or none
   ever bound, and whose write is not lost; its record does not change any more.
   */
  lemma {:induction false} FinalizerGoesIff(worlds: seq<World>, steps: seq<Step>, from: nat, until: nat)
    requires Run(worlds, steps) && from <= until <= |steps|
    requires worlds[from].claim.deleting && worlds[from].claim.finalizer
    ensures worlds[until].claim.deleting
    ensures worlds[until].claim.status.(lease := None) == worlds[from].claim.status.(lease := None)
    ensures !worlds[until].claim.finalizer <==> WasCleared(worlds, steps, from, until)
    decreases until
  {
    if from < until {
      FinalizerGoesIff(worlds, steps, from, until - 1);
      DeletedOneStep(worlds, steps, until - 1);
    }
  }

  // ----- the launch budget over a run

  /** Provisioning calls in `log[from..]`. */
  function CallsFrom(log: seq<Effect>, from: nat): nat
    requires from <= |log|
    decreases |log|
  {
    if from == |log| then 0
    else CallsFrom(log[..|log| - 1], from) + (if log[|log| - 1].ProvisionCalled? then 1 else 0)
  }

  /** Launch writes lost in `log[from..]`. */
  function LostFrom(log: seq<Effect>, from: nat): nat
    requires from <= |log|
    decreases |log|
  {
    if from == |log| then 0
    else LostFrom(log[..|log| - 1], from) + (if log[|log| - 1].AttemptLost? then 1 else 0)
  }

  ghost predicate BudgetInv(s: Status, m: Monitor) {
    if s.nodeName == "" then m.charged + (if m.everBound then 1 else 0) == s.launchAttempts
    else m.charged == 0 && m.everBound
  }

  lemma HoldingKeepsBudget(s: Status, i: LaunchInput, m: Monitor)
    requires LifecycleInv(s) && s.providerID == "" && BudgetInv(s, m)
    ensures BudgetInv(LaunchHolding(s, i).status, AdvanceAll(m, LaunchHolding(s, i).effects))
  {
    if s.launchAttempts < MAX_LAUNCH_ATTEMPTS && i.existingNode.Missing? && i.sized && i.providerFound {
      ProvisionKeepsBudget(s, i, m);
    }
  }

  /** A launch is charged unless the write after it is lost. */
  lemma ProvisionKeepsBudget(s: Status, i: LaunchInput, m: Monitor)
    requires s.nodeName == "" && BudgetInv(s, m)
    ensures BudgetInv(Provision(s, i).status, AdvanceAll(m, Provision(s, i).effects))
  {
    var es := Provision(s, i).effects;
    if i.write.Rejected? {
      assert es == [ProvisionCalled, AttemptLost];
      MonitorTwo(m, ProvisionCalled, AttemptLost);
    } else if i.machine.None? {
      assert es == [ProvisionCalled];
      MonitorOne(m, ProvisionCalled);
    } else {
      assert es == [ProvisionCalled, LaunchStored(i.writeTime)];
      MonitorTwo(m, ProvisionCalled, LaunchStored(i.writeTime));
    }
  }

  lemma LaunchKeepsBudget(s: Status, i: LaunchInput, m: Monitor)
    requires LifecycleInv(s) && BudgetInv(s, m)
    ensures BudgetInv(ReconcileLaunch(s, i).status, AdvanceAll(m, ReconcileLaunch(s, i).effects))
  {
    if s.providerID == "" {
      LaunchIsHolding(s, i);
      HoldingKeepsBudget(TakeLease(s, i.holder, i.acquireTime), i, m);
    }
  }

  lemma RegistrationKeepsBudget(s: Status, claimName: string, i: RegistrationInput, m: Monitor)
    requires LifecycleInv(s) && BudgetInv(s, m)
    requires i.listing.Some? ==> forall n :: n in i.listing.value ==> n.name != ""
    ensures
      var o := ReconcileRegistration(s, claimName, i);
      BudgetInv(o.status, AdvanceAll(m, o.effects))
  {
    if s.providerID != "" && s.nodeName == "" && i.listing.Some? {
      match FirstNodeFor(i.listing.value, claimName)
      case Some(n) => MonitorOne(m, NodeBound(n.uid));
      case None => TimeoutKeepsBudget(s, i, m);
    }
  }

  lemma TimeoutKeepsBudget(s: Status, i: RegistrationInput, m: Monitor)
    requires s.nodeName == "" && BudgetInv(s, m)
    ensures BudgetInv(GiveUpWaiting(s, i).status, AdvanceAll(m, GiveUpWaiting(s, i).effects))
  {
    MonitorTwo(m, TimedOut(i.checkTime), DeprovisionEffect(s, i.providerFound));
  }

  lemma InitializationKeepsBudget(s: Status, i: InitializationInput, m: Monitor)
    requires LifecycleInv(s) && BudgetInv(s, m)
    ensures
      var o := ReconcileInitialization(s, i);
      BudgetInv(o.status, AdvanceAll(m, o.effects))
  {
    if s.nodeName != "" && NodeIsLost(i) {
      RecycleKeepsBudget(s, i, m);
    }
  }

  lemma RecycleKeepsBudget(s: Status, i: InitializationInput, m: Monitor)
    requires LifecycleInv(s) && s.nodeName != "" && BudgetInv(s, m)
    ensures BudgetInv(RecycleUnhealthyNode(s, i).status, AdvanceAll(m, RecycleUnhealthyNode(s, i).effects))
  {
    var e, es := DeprovisionEffect(s, i.providerFound), RecycleUnhealthyNode(s, i).effects;
    if i.write.Rejected? {
      assert es == [e];
      MonitorOne(m, e);
    } else {
      assert es == [e, Recycled];
      MonitorTwo(m, e, Recycled);
    }
  }

  lemma LaterPhasesKeepBudget(s: Status, claimName: string, i: ReconcileInput, m: Monitor)
    requires LifecycleInv(s) && s.providerID != "" && ValidInput(i) && BudgetInv(s, m)
    ensures
      var o := RegisterAndInitialize(s, claimName, i);
      BudgetInv(o.status, AdvanceAll(m, o.effects))
  {
    var r := ReconcileRegistration(s, claimName, i.registration);
    RegistrationKeepsInv(s, claimName, i.registration);
    RegistrationKeepsBudget(s, claimName, i.registration, m);
    if r.flow.Continue? {
      var n := ReconcileInitialization(r.status, i.initialization);
      InitializationKeepsBudget(r.status, i.initialization, AdvanceAll(m, r.effects));
      MonitorConcat(m, r.effects, n.effects);
    }
  }

  lemma PhasesKeepBudget(c: Claim, i: ReconcileInput, m: Monitor)
    requires LifecycleInv(c.status) && !IsTrue(c.status.conditions, Failed) && ValidInput(i)
    requires BudgetInv(c.status, m)
    ensures
      var o := RunPhases(c.status, c.name, i);
      BudgetInv(o.status, AdvanceAll(m, o.effects))
  {
    var l := ReconcileLaunch(c.status, i.launch);
    LaunchKeepsInv(c.status, i.launch);
    LaunchKeepsBudget(c.status, i.launch, m);
    if l.flow.Continue? {
      LaterPhasesKeepBudget(l.status, c.name, i, AdvanceAll(m, l.effects));
      MonitorConcat(m, l.effects, RegisterAndInitialize(l.status, c.name, i).effects);
    }
  }

  lemma {:induction false} RunKeepsBudget(worlds: seq<World>, steps: seq<Step>, k: nat)
    requires Run(worlds, steps) && k < |worlds|
    ensures BudgetInv(worlds[k].claim.status, AdvanceAll(START, worlds[k].log))
  {
    if k > 0 {
      RunKeepsBudget(worlds, steps, k - 1);
      RunKeepsInv(worlds, steps, k - 1);
      var w, step := worlds[k - 1], steps[k - 1];
      assert Next(w, step, worlds[k]);
      if step.ReconcileStep? {
        ReconcileKeepsBudget(w.claim, step.input, AdvanceAll(START, w.log));
        MonitorConcat(START, w.log, Reconcile(w.claim, step.input).effects);
      }
    }
  }

  lemma ReconcileKeepsBudget(c: Claim, i: ReconcileInput, m: Monitor)
    requires LifecycleInv(c.status) && ValidInput(i) && BudgetInv(c.status, m)
    requires m.finalizerHeld == c.finalizer
    ensures BudgetInv(Reconcile(c, i).claim.status, AdvanceAll(m, Reconcile(c, i).effects))
  {
    if i.fetchFails {
    } else if c.deleting {
      FinalizeIsLawful(c, i.finalize, m);
    } else if !c.finalizer {
      MonitorOne(m, FinalizerPersisted);
    } else if !IsTrue(c.status.conditions, Failed) {
      PhasesKeepBudget(c, i, m);
    }
  }

  lemma {:induction false} CallsAreCounted(log: seq<Effect>, from: nat)
    requires from <= |log|
    requires forall j :: from <= j < |log| ==> !log[j].NodeBound?
    ensures CallsFrom(log, from) <= AdvanceAll(START, log).charged + LostFrom(log, from)
    ensures (exists j :: 0 <= j < from && log[j].NodeBound?) ==> AdvanceAll(START, log).everBound
    decreases |log|
  {
    if from < |log| {
      CallsAreCounted(log[..|log| - 1], from);
    } else if exists j :: 0 <= j < from && log[j].NodeBound? {
      var j :| 0 <= j < from && log[j].NodeBound?;
      EverBoundInLog(log, j);
    }
  }

  lemma {:induction false} EverBoundInLog(log: seq<Effect>, j: nat)
    requires j < |log| && log[j].NodeBound?
    ensures AdvanceAll(START, log).everBound
  {
    if j < |log| - 1 {
      EverBoundInLog(log[..|log| - 1], j);
    }
  }

  /**
   The launch budget: a stretch of a run in which no node is bound has at most three provisioning calls,
   two if a node had been bound before it, and one more for each launch write lost in the stretch.
   */
  lemma LaunchBudget(worlds: seq<World>, steps: seq<Step>, k: nat, from: nat)
    requires Run(worlds, steps) && k < |worlds|
    requires from <= |worlds[k].log|
    requires forall j :: from <= j < |worlds[k].log| ==> !worlds[k].log[j].NodeBound?
    ensures CallsFrom(worlds[k].log, from) <= MAX_LAUNCH_ATTEMPTS + LostFrom(worlds[k].log, from)
    ensures (exists j :: 0 <= j < from && worlds[k].log[j].NodeBound?) ==>
      CallsFrom(worlds[k].log, from) < MAX_LAUNCH_ATTEMPTS + LostFrom(worlds[k].log, from)
  {
    RunKeepsInv(worlds, steps, k);
    RunKeepsBudget(worlds, steps, k);
    CallsAreCounted(worlds[k].log, from);
  }

  /** A provisioning call is charged to the claim exactly if the status write after it is not lost. */
  lemma LostWriteIsNotCharged(s: Status, i: LaunchInput)
    requires ProvisionCalled in ReconcileLaunch(s, i).effects
    ensures ReconcileLaunch(s, i).status.launchAttempts == s.launchAttempts + 1 <==> !i.write.Rejected?
    ensures AttemptLost in ReconcileLaunch(s, i).effects <==> i.write.Rejected?
    ensures i.write.Rejected? ==>
      ReconcileLaunch(s, i).status.(lease := None) == s.(lease := None)
  {
    LaunchIsHolding(s, i);
  }
}
