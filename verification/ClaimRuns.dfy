/**
 Whole runs of the claim controller: reconciles interleaved with a changing cluster. A monitor
 watches the order of external effects; every run is shown to be accepted by it.
 */
module ClaimRuns {
  import opened Common
  import opened ClaimRecord
  import opened ClaimLifecycle
  import opened ClaimInvariants

  // ----- the cluster's nodes

  /** Live node objects by name, and every UID ever handed out. */
  datatype Nodes = Nodes(live: map<string, Node>, issued: set<nat>)

  ghost predicate WellFormed(w: Nodes) {
    && (forall n :: n in w.live ==> n != "" && w.live[n].name == n && w.live[n].uid in w.issued)
    && (forall n, m :: n in w.live && m in w.live && w.live[n].uid == w.live[m].uid ==> n == m)
  }

  /** Nodes may come, with fresh UIDs, and go; a UID keeps its name and its deletion mark. */
  ghost predicate Evolves(a: Nodes, b: Nodes) {
    && WellFormed(b)
    && a.issued <= b.issued
    && (forall n :: n in b.live && b.live[n].uid in a.issued ==>
          n in a.live && a.live[n].uid == b.live[n].uid && (a.live[n].terminating ==> b.live[n].terminating))
  }

  /** `uid` was handed out and its node is gone or being deleted. */
  ghost predicate Retired(uid: nat, w: Nodes) {
    uid in w.issued && forall n :: n in w.live && w.live[n].uid == uid ==> w.live[n].terminating
  }

  lemma RetiredForever(uid: nat, a: Nodes, b: Nodes)
    requires Retired(uid, a) && Evolves(a, b)
    ensures Retired(uid, b)
  {
  }

  // ----- the monitor

  datatype Monitor = Monitor(
    finalizerHeld: bool,
    sawDeletion: bool,
    lastLaunch: Option<int>,
    charged: nat,
    everBound: bool,
    bound: set<nat>,
    current: Option<nat>,
    absent: Option<string>,
    released: Option<string>)

  const START := Monitor(false, false, None, 0, false, {}, None, None, None)

  /** `charged` counts the provisioning calls, less those whose status write was lost, since creation or the last binding. */
  function Advance(m: Monitor, e: Effect): Monitor {
    match e
    case FinalizerPersisted => m.(finalizerHeld := true)
    case SawDeletion => m.(sawDeletion := true, absent := None, released := None)
    case FinalizerRemoved(_, _) => m.(finalizerHeld := false)
    case ProvisionCalled => m.(charged := m.charged + 1)
    case AttemptLost => m.(charged := if m.charged > 0 then m.charged - 1 else 0)
    case LaunchStored(at) => m.(lastLaunch := Some(at))
    case TimedOut(_) => m
    case NodeBound(uid) => m.(bound := m.bound + {uid}, current := Some(uid), charged := 0, everBound := true)
    case Recycled => m.(current := None)
    case NodeSeenAbsent(n) => m.(absent := Some(n))
    case DeprovisionCalled(p, _) => m.(released := Some(p))
    case ProviderUnavailable(p) => m.(released := Some(p))
  }

  /** The order the controller promises. */
  predicate Allowed(m: Monitor, e: Effect) {
    match e
    case ProvisionCalled => m.finalizerHeld && !m.sawDeletion
    case TimedOut(at) => m.lastLaunch.Some? && at - m.lastLaunch.value > REGISTRATION_TIMEOUT
    case NodeBound(uid) => uid !in m.bound
    case FinalizerRemoved(n, p) =>
      m.finalizerHeld && m.sawDeletion && (n != "" ==> m.absent == Some(n)) && (p != "" ==> m.released == Some(p))
    case _ => true
  }

  function AdvanceAll(m: Monitor, es: seq<Effect>): Monitor {
    if es == [] then m else Advance(AdvanceAll(m, es[..|es| - 1]), es[|es| - 1])
  }

  predicate AllowedAll(m: Monitor, es: seq<Effect>) {
    es == [] ||
    (AllowedAll(m, es[..|es| - 1]) && Allowed(AdvanceAll(m, es[..|es| - 1]), es[|es| - 1]))
  }

  lemma {:induction false} MonitorConcat(m: Monitor, a: seq<Effect>, b: seq<Effect>)
    ensures AdvanceAll(m, a + b) == AdvanceAll(AdvanceAll(m, a), b)
    ensures AllowedAll(m, a + b) <==> AllowedAll(m, a) && AllowedAll(AdvanceAll(m, a), b)
    decreases |b|
  {
    if b == [] {
      assert a + b == a;
    } else {
      var n := |b| - 1;
      assert (a + b)[..|a| + n] == a + b[..n];
      MonitorConcat(m, a, b[..n]);
    }
  }

  lemma MonitorOne(m: Monitor, e: Effect)
    ensures AdvanceAll(m, [e]) == Advance(m, e)
    ensures AllowedAll(m, [e]) <==> Allowed(m, e)
  {
    assert [e][..0] == [];
  }

  lemma MonitorTwo(m: Monitor, e: Effect, f: Effect)
    ensures AdvanceAll(m, [e, f]) == Advance(Advance(m, e), f)
    ensures AllowedAll(m, [e, f]) <==> Allowed(m, e) && Allowed(Advance(m, e), f)
  {
    assert [e, f] == [e] + [f];
    MonitorConcat(m, [e], [f]);
    MonitorOne(m, e);
    MonitorOne(Advance(m, e), f);
  }

  /** Every effect of a lawful log was allowed by what came before it. */
  lemma {:induction false} LawfulAt(log: seq<Effect>, k: nat)
    requires AllowedAll(START, log) && k < |log|
    ensures Allowed(AdvanceAll(START, log[..k]), log[k])
  {
    if k < |log| - 1 {
      LawfulAt(log[..|log| - 1], k);
      assert log[..|log| - 1][..k] == log[..k];
    }
  }

  // ----- the world and its steps

  datatype World = World(claim: Claim, nodes: Nodes, log: seq<Effect>)

  /**
   A reconcile carries the node snapshots that its check before a launch, its listing and its lookup saw; the
   cluster moved on from one to the next. `Environment` is any change made by others: a deletion mark on the claim,
   a lease heartbeat, nodes joining, leaving or changing.
   */
  datatype Step =
    | ReconcileStep(input: ReconcileInput, checked: Nodes, listed: Nodes, looked: Nodes)
    | Environment

  function NodeNameAtLookup(c: Claim, i: ReconcileInput): string {
    ReconcileRegistration(ReconcileLaunch(c.status, i.launch).status, c.name, i.registration).status.nodeName
  }

  ghost predicate Reads(c: Claim, i: ReconcileInput, listed: Nodes, looked: Nodes, after: Nodes) {
    ReadsFrom(NodeNameAtLookup(c, i), i, listed, looked, after)
  }

  /**
   The node answers are those of the snapshots, and a deletion that reports no error takes effect. A reconcile
   that asks for no deletion has it down as refused.
   */
  ghost predicate ReadsFrom(name: string, i: ReconcileInput, listed: Nodes, looked: Nodes, after: Nodes) {
    && (i.registration.listing.Some? ==>
          && (forall n :: n in i.registration.listing.value ==> n.name in listed.live && listed.live[n.name] == n)
          && (forall n :: n in listed.live ==> listed.live[n] in i.registration.listing.value))
    && (i.initialization.node.Missing? ==> name !in looked.live)
    && (i.initialization.node.Found? ==>
          name in looked.live && looked.live[name] == i.initialization.node.value
          && (!Errs(i.initialization.nodeDeletion) ==> Retired(looked.live[name].uid, after)))
  }

  /** The check for an old node of the claim's name answers from its snapshot. */
  ghost predicate ChecksFrom(claimName: string, i: LaunchInput, checked: Nodes) {
    && (i.existingNode.Missing? ==> claimName !in checked.live)
    && (i.existingNode.Found? ==> claimName in checked.live)
  }

  ghost predicate Next(w: World, step: Step, w': World) {
    match step
    case ReconcileStep(i, checked, listed, looked) =>
      var o := Reconcile(w.claim, i);
      && ValidInput(i) && i.launch.sized == w.claim.sized
      && Evolves(w.nodes, checked) && Evolves(checked, listed) && Evolves(listed, looked) && Evolves(looked, w'.nodes)
      && ChecksFrom(w.claim.name, i.launch, checked)
      && Reads(w.claim, i, listed, looked, w'.nodes)
      && w'.claim == o.claim
      && w'.log == w.log + o.effects
    case Environment =>
      && Evolves(w.nodes, w'.nodes)
      && w'.log == w.log
      && w'.claim.name == w.claim.name && w'.claim.sized == w.claim.sized && w'.claim.finalizer == w.claim.finalizer
      && (w.claim.deleting ==> w'.claim.deleting)
      && w'.claim.status == w.claim.status.(lease := w'.claim.status.lease)
  }

  ghost predicate Init(w: World) {
    w.claim.status == NEW_STATUS && !w.claim.finalizer && w.log == [] && WellFormed(w.nodes)
  }

  ghost predicate Run(worlds: seq<World>, steps: seq<Step>) {
    && |worlds| == |steps| + 1
    && Init(worlds[0])
    && forall k :: 0 <= k < |steps| ==> Next(worlds[k], steps[k], worlds[k + 1])
  }

  // ----- the invariant

  /** The bound nodes other than the current one are retired, and the current one is the named one. */
  ghost predicate BindingInv(nodeName: string, m: Monitor, w: Nodes) {
    && WellFormed(w)
    && m.bound <= w.issued
    && (m.current.Some? <==> nodeName != "")
    && (forall u :: u in m.bound && m.current != Some(u) ==> Retired(u, w))
    && (m.current.Some? ==>
          && m.current.value in m.bound
          && forall n :: n in w.live && w.live[n].uid == m.current.value ==> n == nodeName)
  }

  /** Holds between the phases of a reconcile of a claim that is not being deleted. */
  ghost predicate PhaseInv(s: Status, m: Monitor, w: Nodes) {
    && LifecycleInv(s)
    && (s.providerID != "" ==> m.lastLaunch == Some(s.conditions[Launched].since))
    && BindingInv(s.nodeName, m, w)
  }

  ghost predicate Inv(w: World) {
    var m := AdvanceAll(START, w.log);
    && AllowedAll(START, w.log)
    && m.finalizerHeld == w.claim.finalizer
    && (m.sawDeletion ==> w.claim.deleting)
    && PhaseInv(w.claim.status, m, w.nodes)
  }

  lemma BindingSurvives(nodeName: string, m: Monitor, a: Nodes, b: Nodes)
    requires BindingInv(nodeName, m, a) && Evolves(a, b)
    ensures BindingInv(nodeName, m, b)
  {
    forall u | u in m.bound && m.current != Some(u) ensures Retired(u, b) {
      RetiredForever(u, a, b);
    }
  }

  /** What a phase must do to the monitor: stay within its order and keep the phase invariant. */
  ghost predicate PhaseOk(m: Monitor, o: Outcome, w: Nodes) {
    var m' := AdvanceAll(m, o.effects);
    && AllowedAll(m, o.effects)
    && PhaseInv(o.status, m', w)
    && m'.finalizerHeld == m.finalizerHeld && m'.sawDeletion == m.sawDeletion
  }

  lemma HoldingIsLawful(s: Status, i: LaunchInput, m: Monitor, w: Nodes)
    requires PhaseInv(s, m, w) && s.providerID == "" && !IsTrue(s.conditions, Failed)
    requires m.finalizerHeld && !m.sawDeletion
    requires i.machine.Some? ==> i.machine.value != ""
    ensures PhaseOk(m, LaunchHolding(s, i), w)
  {
    HoldingKeepsInv(s, i);
    var o := LaunchHolding(s, i);
    MonitorOne(m, ProvisionCalled);
    MonitorTwo(m, ProvisionCalled, LaunchStored(i.writeTime));
    MonitorTwo(m, ProvisionCalled, AttemptLost);
    assert o.effects == [] || o.effects == [ProvisionCalled] || o.effects == [ProvisionCalled, AttemptLost]
        || o.effects == [ProvisionCalled, LaunchStored(i.writeTime)];
  }

  lemma LaunchIsLawful(s: Status, i: LaunchInput, m: Monitor, w: Nodes)
    requires PhaseInv(s, m, w) && !IsTrue(s.conditions, Failed)
    requires m.finalizerHeld && !m.sawDeletion
    requires i.machine.Some? ==> i.machine.value != ""
    ensures PhaseOk(m, ReconcileLaunch(s, i), w)
  {
    if s.providerID == "" {
      var held := TakeLease(s, i.holder, i.acquireTime);
      HoldingIsLawful(held, i, m, w);
      assert TakeLease(ClearLaunchLease(s), i.holder, i.acquireTime) == held;
      LaunchIsHolding(s, i);
    }
  }

  /** Apart from the lease, the launch phase either does nothing or is the launch under the lease. */
  lemma LaunchIsHolding(s: Status, i: LaunchInput)
    requires s.providerID == ""
    ensures
      var o := ReconcileLaunch(s, i);
      var h := LaunchHolding(TakeLease(s, i.holder, i.acquireTime), i);
      || (o.status.(lease := None) == s.(lease := None) && o.effects == [])
      || (o.status.(lease := None) == h.status.(lease := None) && o.effects == h.effects)
  {
    assert TakeLease(ClearLaunchLease(s), i.holder, i.acquireTime) == TakeLease(s, i.holder, i.acquireTime);
  }

  lemma BindIsLawful(s: Status, n: Node, now: int, m: Monitor, w: Nodes)
    requires PhaseInv(s, m, w) && s.providerID != "" && s.nodeName == ""
    requires n.name in w.live && w.live[n.name] == n && !n.terminating
    ensures Allowed(m, NodeBound(n.uid))
    ensures PhaseInv(Register(s, n.name, now), Advance(m, NodeBound(n.uid)), w)
  {
    assert n.uid in m.bound ==> Retired(n.uid, w);
    assert !Retired(n.uid, w);
  }

  lemma RegistrationIsLawful(s: Status, claimName: string, i: RegistrationInput, m: Monitor, w: Nodes)
    requires PhaseInv(s, m, w) && s.providerID != ""
    requires i.listing.Some? ==>
      forall n :: n in i.listing.value ==> n.name in w.live && w.live[n.name] == n
    ensures PhaseOk(m, ReconcileRegistration(s, claimName, i), w)
  {
    RegistrationKeepsInv(s, claimName, i);
    if s.nodeName == "" && i.listing.Some? {
      match FirstNodeFor(i.listing.value, claimName)
      case Some(n) =>
        BindIsLawful(s, n, i.writeTime, m, w);
        MonitorOne(m, NodeBound(n.uid));
      case None =>
        if Launched in s.conditions && i.checkTime - s.conditions[Launched].since > REGISTRATION_TIMEOUT {
          TimeoutIsLawful(s, i, m, w);
        }
    }
  }

  lemma TimeoutIsLawful(s: Status, i: RegistrationInput, m: Monitor, w: Nodes)
    requires PhaseInv(s, m, w) && s.providerID != "" && s.nodeName == ""
    requires i.checkTime - s.conditions[Launched].since > REGISTRATION_TIMEOUT
    ensures PhaseOk(m, GiveUpWaiting(s, i), w)
  {
    MonitorTwo(m, TimedOut(i.checkTime), DeprovisionEffect(s, i.providerFound));
  }

  lemma RecycleIsLawful(s: Status, i: InitializationInput, m: Monitor, w: Nodes)
    requires PhaseInv(s, m, w) && s.nodeName != ""
    requires m.current.Some? ==> Retired(m.current.value, w)
    ensures PhaseOk(m, RecycleUnhealthyNode(s, i), w)
  {
    var e := DeprovisionEffect(s, i.providerFound);
    MonitorOne(m, e);
    MonitorTwo(m, e, Recycled);
    assert RecycleUnhealthyNode(s, i).effects == if i.write.Rejected? then [e] else [e, Recycled];
  }

  lemma InitializationIsLawful(s: Status, i: InitializationInput, m: Monitor, looked: Nodes, after: Nodes)
    requires PhaseInv(s, m, looked) && s.nodeName != "" && Evolves(looked, after)
    requires i.node.Missing? ==> s.nodeName !in looked.live
    requires i.node.Found? ==>
      && s.nodeName in looked.live
      && (!Errs(i.nodeDeletion) ==> Retired(looked.live[s.nodeName].uid, after))
    ensures PhaseOk(m, ReconcileInitialization(s, i), after)
  {
    BindingSurvives(s.nodeName, m, looked, after);
    var o := ReconcileInitialization(s, i);
    if o == RecycleUnhealthyNode(s, i) && (i.node.Missing? || (i.node.Found? && !Errs(i.nodeDeletion))) {
      NamedNodeRetired(s.nodeName, m, looked, after);
      RecycleIsLawful(s, i, m, after);
    } else {
      InitializationKeepsInv(s, i);
    }
  }

  /** Once the named node is gone or being deleted, so is the bound one. */
  lemma NamedNodeRetired(nodeName: string, m: Monitor, looked: Nodes, after: Nodes)
    requires BindingInv(nodeName, m, looked) && Evolves(looked, after)
    requires nodeName in looked.live ==> Retired(looked.live[nodeName].uid, after)
    ensures m.current.Some? ==> Retired(m.current.value, after)
  {
  }

  /** The finalize pass removes the finalizer only after the node is gone and the machine released. */
  lemma FinalizeIsLawful(c: Claim, i: FinalizeInput, m: Monitor)
    requires m.finalizerHeld == c.finalizer
    ensures
      var o := Finalize(c, i);
      var m' := AdvanceAll(m, o.effects);
      && AllowedAll(m, o.effects)
      && m' == m.(finalizerHeld := o.claim.finalizer, sawDeletion := true, absent := m'.absent, released := m'.released)
  {
    var s := c.status;
    var removal := FinalizerRemoved(s.nodeName, s.providerID);
    var cleanup := CleanupEffects(s, i);
    MonitorOne(m, SawDeletion);
    CleanupIsLawful(s, i, m);
    var m' := AdvanceAll(m, cleanup);
    MonitorConcat(m, cleanup, [removal]);
    MonitorOne(m', removal);
    assert cleanup + [] == cleanup;
  }

  function CleanupEffects(s: Status, i: FinalizeInput): seq<Effect> {
    [SawDeletion]
    + (if s.nodeName != "" then [NodeSeenAbsent(s.nodeName)] else [])
    + (if s.providerID != "" then [DeprovisionEffect(s, i.providerFound)] else [])
  }

  lemma CleanupIsLawful(s: Status, i: FinalizeInput, m: Monitor)
    ensures AllowedAll(m, CleanupEffects(s, i))
    ensures AdvanceAll(m, CleanupEffects(s, i)) == m.(
      sawDeletion := true,
      absent := if s.nodeName != "" then Some(s.nodeName) else None,
      released := if s.providerID != "" then Some(s.providerID) else None)
  {
    var node := if s.nodeName != "" then [NodeSeenAbsent(s.nodeName)] else [];
    var machine := if s.providerID != "" then [DeprovisionEffect(s, i.providerFound)] else [];
    var m1 := Advance(m, SawDeletion);
    var m2 := if s.nodeName != "" then Advance(m1, NodeSeenAbsent(s.nodeName)) else m1;
    MonitorOne(m, SawDeletion);
    MonitorConcat(m, [SawDeletion], node);
    MonitorOne(m1, NodeSeenAbsent(s.nodeName));
    MonitorConcat(m, [SawDeletion] + node, machine);
    MonitorOne(m2, DeprovisionEffect(s, i.providerFound));
  }

  lemma ComposePhases(m: Monitor, a: seq<Effect>, o: Outcome, w: Nodes)
    requires AllowedAll(m, a) && PhaseOk(AdvanceAll(m, a), o, w)
    requires AdvanceAll(m, a).finalizerHeld == m.finalizerHeld && AdvanceAll(m, a).sawDeletion == m.sawDeletion
    ensures PhaseOk(m, o.(effects := a + o.effects), w)
  {
    MonitorConcat(m, a, o.effects);
  }

  lemma PhaseSurvives(m: Monitor, o: Outcome, a: Nodes, b: Nodes)
    requires PhaseOk(m, o, a) && Evolves(a, b)
    ensures PhaseOk(m, o, b)
  {
    BindingSurvives(o.status.nodeName, AdvanceAll(m, o.effects), a, b);
  }

  lemma RegistrationIsStillLawful(
    s: Status, claimName: string, i: ReconcileInput, m: Monitor, listed: Nodes, looked: Nodes, after: Nodes)
    requires PhaseInv(s, m, listed) && s.providerID != "" && ValidInput(i) && Evolves(listed, looked)
    requires ReadsFrom(ReconcileRegistration(s, claimName, i.registration).status.nodeName, i, listed, looked, after)
    ensures PhaseOk(m, ReconcileRegistration(s, claimName, i.registration), looked)
  {
    RegistrationIsLawful(s, claimName, i.registration, m, listed);
    PhaseSurvives(m, ReconcileRegistration(s, claimName, i.registration), listed, looked);
  }

  lemma LaterPhasesAreLawful(
    s: Status, claimName: string, i: ReconcileInput, m: Monitor, listed: Nodes, looked: Nodes, after: Nodes)
    requires PhaseInv(s, m, listed) && s.providerID != "" && ValidInput(i)
    requires Evolves(listed, looked) && Evolves(looked, after)
    requires ReadsFrom(ReconcileRegistration(s, claimName, i.registration).status.nodeName, i, listed, looked, after)
    ensures PhaseOk(m, RegisterAndInitialize(s, claimName, i), after)
  {
    var r := ReconcileRegistration(s, claimName, i.registration);
    RegistrationKeepsInv(s, claimName, i.registration);
    RegistrationIsStillLawful(s, claimName, i, m, listed, looked, after);
    if r.flow.Stop? {
      PhaseSurvives(m, r, looked, after);
    } else {
      var n := ReconcileInitialization(r.status, i.initialization);
      InitializationIsLawful(r.status, i.initialization, AdvanceAll(m, r.effects), looked, after);
      ComposePhases(m, r.effects, n, after);
    }
  }

  /** All three phases, on a cluster that moves on between them. */
  lemma PhasesAreLawful(
    c: Claim, i: ReconcileInput, m: Monitor, before: Nodes, listed: Nodes, looked: Nodes, after: Nodes)
    requires PhaseInv(c.status, m, before) && !IsTrue(c.status.conditions, Failed)
    requires m.finalizerHeld && !m.sawDeletion
    requires ValidInput(i)
    requires Evolves(before, listed) && Evolves(listed, looked) && Evolves(looked, after)
    requires Reads(c, i, listed, looked, after)
    ensures PhaseOk(m, RunPhases(c.status, c.name, i), after)
  {
    var l := ReconcileLaunch(c.status, i.launch);
    LaunchKeepsInv(c.status, i.launch);
    LaunchIsLawful(c.status, i.launch, m, before);
    PhaseSurvives(m, l, before, listed);
    if l.flow.Stop? {
      PhaseSurvives(m, l, listed, looked);
      PhaseSurvives(m, l, looked, after);
    } else {
      LaterPhasesAreLawful(l.status, c.name, i, AdvanceAll(m, l.effects), listed, looked, after);
      ComposePhases(m, l.effects, RegisterAndInitialize(l.status, c.name, i), after);
    }
  }

  lemma EvolvesTransitive(a: Nodes, b: Nodes, c: Nodes)
    requires Evolves(a, b) && Evolves(b, c)
    ensures Evolves(a, c)
  {
  }

  lemma ReconcileKeepsWorldInv(w: World, i: ReconcileInput, checked: Nodes, listed: Nodes, looked: Nodes, w': World)
    requires Inv(w) && Next(w, ReconcileStep(i, checked, listed, looked), w')
    ensures Inv(w')
  {
    EvolvesTransitive(w.nodes, checked, listed);
    var m, o := AdvanceAll(START, w.log), Reconcile(w.claim, i);
    MonitorConcat(START, w.log, o.effects);
    if !i.fetchFails && !w.claim.deleting && w.claim.finalizer && !IsTrue(w.claim.status.conditions, Failed) {
      PhasesAreLawful(w.claim, i, m, w.nodes, listed, looked, w'.nodes);
    } else {
      EvolvesTransitive(w.nodes, listed, looked);
      EvolvesTransitive(w.nodes, looked, w'.nodes);
      OutsidePhasesIsLawful(w.claim, i, m, w.nodes, w'.nodes);
    }
  }

  /** Reconciles that run no phase: a failed fetch, a finalize pass, adding the finalizer, a Failed claim. */
  lemma OutsidePhasesIsLawful(c: Claim, i: ReconcileInput, m: Monitor, before: Nodes, after: Nodes)
    requires PhaseInv(c.status, m, before) && Evolves(before, after)
    requires m.finalizerHeld == c.finalizer && (m.sawDeletion ==> c.deleting)
    requires i.fetchFails || c.deleting || !c.finalizer || IsTrue(c.status.conditions, Failed)
    ensures
      var o := Reconcile(c, i);
      var m' := AdvanceAll(m, o.effects);
      && AllowedAll(m, o.effects)
      && m'.finalizerHeld == o.claim.finalizer && (m'.sawDeletion ==> o.claim.deleting)
      && PhaseInv(o.claim.status, m', after)
  {
    BindingSurvives(c.status.nodeName, m, before, after);
    if i.fetchFails {
    } else if c.deleting {
      FinalizeIsLawful(c, i.finalize, m);
    } else if !c.finalizer {
      MonitorOne(m, FinalizerPersisted);
    }
  }

  lemma StepKeepsInv(w: World, step: Step, w': World)
    requires Inv(w) && Next(w, step, w')
    ensures Inv(w')
  {
    match step
    case ReconcileStep(i, checked, listed, looked) => ReconcileKeepsWorldInv(w, i, checked, listed, looked, w');
    case Environment => BindingSurvives(w.claim.status.nodeName, AdvanceAll(START, w.log), w.nodes, w'.nodes);
  }

  /** Every world of every run satisfies the invariant. */
  lemma {:induction false} RunKeepsInv(worlds: seq<World>, steps: seq<Step>, k: nat)
    requires Run(worlds, steps) && k < |worlds|
    ensures Inv(worlds[k])
  {
    if k > 0 {
      RunKeepsInv(worlds, steps, k - 1);
      StepKeepsInv(worlds[k - 1], steps[k - 1], worlds[k]);
    }
  }
}
