/** What the claim controller's removal calls do to the machine that was launched for the claim. */
module MachineCleanup {
  import opened ClaimRecord
  import opened ClaimLifecycle
  import ClaimRuns
  import ClaimProgress
  import opened InventoryRuns
  import VmOptions
  import Proxmox = ProxmoxInventory

  // ----- one removal call

  /** Nothing but the name it is called with keeps a removal from destroying machine `k`. */
  ghost predicate Removable(vms: seq<Proxmox.VM>, k: nat, tag: string, d: Proxmox.DeprovisionInput) {
    && k < |vms| && UniqueIds(vms) && AloneInName(vms, k) && Proxmox.Contains(vms[k].tags, tag)
    && d.nodesListed && AllVisible(vms, d.visible) && Takes(d.removal)
  }

  /** One of the removal calls among `es` destroys machine `k`. */
  ghost predicate Destroys(
    es: seq<Effect>, vms: seq<Proxmox.VM>, k: nat, tag: string, d: Proxmox.DeprovisionInput)
    requires k < |vms|
  {
    exists e :: e in es && e.DeprovisionCalled? && !HasId(Proxmox.Deprovision(vms, e.nodeName, tag, d).vms, vms[k].id)
  }

  /** Some removal call is made with that node name. */
  predicate Calls(es: seq<Effect>, name: string) {
    exists e :: e in es && e.DeprovisionCalled? && e.nodeName == name
  }

  lemma DestroysIffCalled(es: seq<Effect>, vms: seq<Proxmox.VM>, k: nat, tag: string, d: Proxmox.DeprovisionInput)
    requires Removable(vms, k, tag, d)
    ensures Destroys(es, vms, k, tag, d) <==> Calls(es, vms[k].name)
  {
    forall e | e in es && e.DeprovisionCalled?
      ensures !HasId(Proxmox.Deprovision(vms, e.nodeName, tag, d).vms, vms[k].id) <==> e.nodeName == vms[k].name
    {
      DestroyedIffNamed(vms, e.nodeName, tag, d, k);
    }
  }

  // ----- the three places that call it

  /** A timeout destroys the machine exactly if the record already names its node, which a waiting record never does. */
  lemma TimeoutDestroysIff(
    s: Status, i: RegistrationInput, vms: seq<Proxmox.VM>, k: nat, tag: string, d: Proxmox.DeprovisionInput)
    requires Removable(vms, k, tag, d)
    ensures Destroys(GiveUpWaiting(s, i).effects, vms, k, tag, d) <==> i.providerFound && s.nodeName == vms[k].name
  {
    var es := GiveUpWaiting(s, i).effects;
    DestroysIffCalled(es, vms, k, tag, d);
    assert es[1] == DeprovisionEffect(s, i.providerFound);
  }

  /** A recycle destroys the machine exactly if the bound node bears the machine's name. */
  lemma RecycleDestroysIff(
    s: Status, i: InitializationInput, vms: seq<Proxmox.VM>, k: nat, tag: string, d: Proxmox.DeprovisionInput)
    requires Removable(vms, k, tag, d)
    ensures Destroys(RecycleUnhealthyNode(s, i).effects, vms, k, tag, d) <==>
      i.providerFound && s.providerID != "" && s.nodeName == vms[k].name
  {
    var es := RecycleUnhealthyNode(s, i).effects;
    DestroysIffCalled(es, vms, k, tag, d);
    if s.providerID != "" {
      assert es[0] == DeprovisionEffect(s, i.providerFound);
    }
  }

  predicate ReachesCleanup(c: Claim, i: FinalizeInput) {
    c.finalizer && (c.status.nodeName != "" ==> i.node.Missing?)
  }

  /**
   So does a finalize pass that gets to its cleanup. A claim without a recorded node, or with one of another
   name, loses its finalizer all the same, and its machine is left behind.
   */
  lemma FinalizeDestroysIff(
    c: Claim, i: FinalizeInput, vms: seq<Proxmox.VM>, k: nat, tag: string, d: Proxmox.DeprovisionInput)
    requires Removable(vms, k, tag, d)
    ensures Destroys(Finalize(c, i).effects, vms, k, tag, d) <==>
      ReachesCleanup(c, i) && i.providerFound && c.status.providerID != "" && c.status.nodeName == vms[k].name
    ensures ReachesCleanup(c, i) && i.write.Written? ==> !Finalize(c, i).claim.finalizer
  {
    var es := Finalize(c, i).effects;
    DestroysIffCalled(es, vms, k, tag, d);
    if ReachesCleanup(c, i) && c.status.providerID != "" {
      assert es[if c.status.nodeName != "" then 2 else 1] == DeprovisionEffect(c.status, i.providerFound);
    }
  }

  // ----- one reconcile

  /** The node name a reconcile would hand to a removal call. */
  function NameAtCleanup(c: Claim, i: ReconcileInput): string {
    if c.deleting then c.status.nodeName else ClaimRuns.NodeNameAtLookup(c, i)
  }

  lemma LaunchCallsNoRemoval(s: Status, i: LaunchInput)
    ensures forall e :: e in ReconcileLaunch(s, i).effects ==> !e.DeprovisionCalled? && !e.NodeBound?
    ensures ReconcileLaunch(s, i).status.nodeName == s.nodeName
  {
  }

  lemma RegistrationName(s: Status, claimName: string, i: RegistrationInput, e: Effect)
    requires e in ReconcileRegistration(s, claimName, i).effects && e.DeprovisionCalled?
    ensures e.nodeName == "" == ReconcileRegistration(s, claimName, i).status.nodeName
    ensures ReconcileRegistration(s, claimName, i).flow.Stop?
  {
  }

  lemma InitializationName(s: Status, i: InitializationInput, e: Effect)
    requires e in ReconcileInitialization(s, i).effects && e.DeprovisionCalled?
    ensures e.nodeName == s.nodeName
  {
  }

  lemma LaterPhasesName(s: Status, claimName: string, i: ReconcileInput, e: Effect)
    requires e in RegisterAndInitialize(s, claimName, i).effects && e.DeprovisionCalled?
    ensures e.nodeName == ReconcileRegistration(s, claimName, i.registration).status.nodeName
  {
    var r := ReconcileRegistration(s, claimName, i.registration);
    if e in r.effects {
      RegistrationName(s, claimName, i.registration, e);
    } else {
      InitializationName(r.status, i.initialization, e);
    }
  }

  lemma RemovalName(c: Claim, i: ReconcileInput, e: Effect)
    requires e in Reconcile(c, i).effects && e.DeprovisionCalled?
    ensures e.nodeName == NameAtCleanup(c, i)
  {
    if !c.deleting {
      var l := ReconcileLaunch(c.status, i.launch);
      LaunchCallsNoRemoval(c.status, i.launch);
      LaterPhasesName(l.status, c.name, i, e);
    }
  }

  predicate CallsRemoval(es: seq<Effect>) {
    exists e :: e in es && e.DeprovisionCalled?
  }

  lemma CallsRemovalConcat(a: seq<Effect>, b: seq<Effect>)
    ensures CallsRemoval(a + b) <==> CallsRemoval(a) || CallsRemoval(b)
  {
    assert forall e :: e in a + b <==> e in a || e in b;
  }

  /** A launched machine has had its registration window, and no node of the claim is listed. */
  predicate TimeoutDue(s: Status, claimName: string, i: RegistrationInput) {
    && s.providerID != "" && s.nodeName == ""
    && i.listing.Some? && FirstNodeFor(i.listing.value, claimName).None?
    && Launched in s.conditions && i.checkTime - s.conditions[Launched].since > REGISTRATION_TIMEOUT
  }

  predicate RecycleDue(s: Status, i: InitializationInput) {
    s.providerID != "" && s.nodeName != "" && NodeIsLost(i)
  }

  lemma RegistrationCalls(s: Status, claimName: string, i: RegistrationInput)
    ensures CallsRemoval(ReconcileRegistration(s, claimName, i).effects) <==>
      TimeoutDue(s, claimName, i) && i.providerFound
    ensures TimeoutDue(s, claimName, i) ==> ReconcileRegistration(s, claimName, i).flow.Stop?
  {
    if TimeoutDue(s, claimName, i) {
      assert GiveUpWaiting(s, i).effects[1] == DeprovisionEffect(s, i.providerFound);
    }
  }

  lemma InitializationCalls(s: Status, i: InitializationInput)
    ensures CallsRemoval(ReconcileInitialization(s, i).effects) <==> RecycleDue(s, i) && i.providerFound
  {
    if RecycleDue(s, i) {
      assert RecycleUnhealthyNode(s, i).effects[0] == DeprovisionEffect(s, i.providerFound);
    }
  }

  lemma FinalizeCalls(c: Claim, i: FinalizeInput)
    ensures CallsRemoval(Finalize(c, i).effects) <==>
      ReachesCleanup(c, i) && c.status.providerID != "" && i.providerFound
  {
    if ReachesCleanup(c, i) && c.status.providerID != "" {
      assert Finalize(c, i).effects[if c.status.nodeName != "" then 2 else 1]
        == DeprovisionEffect(c.status, i.providerFound);
    }
  }

  /** A registration timeout or a recycle is due in the phases after a launch that went on with record `s`. */
  predicate PhaseRemovalDue(s: Status, claimName: string, i: ReconcileInput) {
    var r := ReconcileRegistration(s, claimName, i.registration);
    || (TimeoutDue(s, claimName, i.registration) && i.registration.providerFound)
    || (r.flow.Continue? && RecycleDue(r.status, i.initialization) && i.initialization.providerFound)
  }

  lemma LaterPhasesCall(s: Status, claimName: string, i: ReconcileInput)
    ensures CallsRemoval(RegisterAndInitialize(s, claimName, i).effects) <==> PhaseRemovalDue(s, claimName, i)
  {
    var r := ReconcileRegistration(s, claimName, i.registration);
    RegistrationCalls(s, claimName, i.registration);
    if r.flow.Continue? {
      InitializationCalls(r.status, i.initialization);
      CallsRemovalConcat(r.effects, ReconcileInitialization(r.status, i.initialization).effects);
    }
  }

  /** When a reconcile removes a machine: finalizing, giving up on a registration, or recycling a lost node. */
  predicate RemovalDue(c: Claim, i: ReconcileInput) {
    if i.fetchFails then false
    else if c.deleting then
      ReachesCleanup(c, i.finalize) && c.status.providerID != "" && i.finalize.providerFound
    else
      var l := ReconcileLaunch(c.status, i.launch);
      c.finalizer && !IsTrue(c.status.conditions, Failed) && l.flow.Continue? && PhaseRemovalDue(l.status, c.name, i)
  }

  lemma ReconcileCalls(c: Claim, i: ReconcileInput)
    ensures CallsRemoval(Reconcile(c, i).effects) <==> RemovalDue(c, i)
  {
    if !i.fetchFails {
      if c.deleting {
        FinalizeCalls(c, i.finalize);
      } else if c.finalizer && !IsTrue(c.status.conditions, Failed) {
        PhasesCall(c, i);
      }
    }
  }

  lemma PhasesCall(c: Claim, i: ReconcileInput)
    ensures
      var l := ReconcileLaunch(c.status, i.launch);
      CallsRemoval(RunPhases(c.status, c.name, i).effects) <==> l.flow.Continue? && PhaseRemovalDue(l.status, c.name, i)
  {
    var l := ReconcileLaunch(c.status, i.launch);
    LaunchCallsNoRemoval(c.status, i.launch);
    if l.flow.Continue? {
      LaterPhasesCall(l.status, c.name, i);
      CallsRemovalConcat(l.effects, RegisterAndInitialize(l.status, c.name, i).effects);
    }
  }

  /**
   For every claim and input, a reconcile destroys the machine exactly if a finalization, a timeout or a recycle is
   due whose provider is found, and the claim's node name at that point is the machine's name.
   */
  lemma ReconcileDestroysIff(
    c: Claim, i: ReconcileInput, vms: seq<Proxmox.VM>, k: nat, tag: string, d: Proxmox.DeprovisionInput)
    requires Removable(vms, k, tag, d)
    ensures Destroys(Reconcile(c, i).effects, vms, k, tag, d) <==>
      RemovalDue(c, i) && NameAtCleanup(c, i) == vms[k].name
  {
    var es := Reconcile(c, i).effects;
    DestroysIffCalled(es, vms, k, tag, d);
    ReconcileCalls(c, i);
    forall e | e in es && e.DeprovisionCalled? ensures e.nodeName == NameAtCleanup(c, i) {
      RemovalName(c, i, e);
    }
  }

  // ----- whole runs

  /** The effects bind a node to the claim. */
  predicate Binds(es: seq<Effect>) {
    exists e :: e in es && e.NodeBound?
  }

  /** Every removal call among the effects bears the empty name. */
  predicate RemovesNameless(es: seq<Effect>) {
    forall e :: e in es && e.DeprovisionCalled? ==> e.nodeName == ""
  }

  lemma UnboundRegistrationName(s: Status, claimName: string, i: RegistrationInput)
    requires s.nodeName == "" && !Binds(ReconcileRegistration(s, claimName, i).effects)
    ensures ReconcileRegistration(s, claimName, i).status.nodeName == ""
  {
    if i.listing.Some? && FirstNodeFor(i.listing.value, claimName).Some? {
      var u := FirstNodeFor(i.listing.value, claimName).value.uid;
      assert [NodeBound(u)][0] == NodeBound(u);
    }
  }

  lemma UnboundPhasesName(s: Status, claimName: string, i: ReconcileInput)
    requires s.nodeName == "" && !Binds(RunPhases(s, claimName, i).effects)
    ensures RunPhases(s, claimName, i).status.nodeName == ""
    ensures RemovesNameless(RunPhases(s, claimName, i).effects)
  {
    var l := ReconcileLaunch(s, i.launch);
    LaunchCallsNoRemoval(s, i.launch);
    if l.flow.Continue? {
      var r := ReconcileRegistration(l.status, claimName, i.registration);
      forall e | e in r.effects ensures !e.NodeBound? {
        ClaimProgress.PartOfPhases(s, claimName, i, e);
      }
      UnboundRegistrationName(l.status, claimName, i.registration);
    }
  }

  lemma UnboundReconcileName(c: Claim, i: ReconcileInput)
    requires c.status.nodeName == "" && !Binds(Reconcile(c, i).effects)
    ensures Reconcile(c, i).claim.status.nodeName == "" && RemovesNameless(Reconcile(c, i).effects)
  {
    if !i.fetchFails && !c.deleting && c.finalizer && !IsTrue(c.status.conditions, Failed) {
      UnboundPhasesName(c.status, c.name, i);
    }
  }

  lemma UnboundStep(w: ClaimRuns.World, step: ClaimRuns.Step, w': ClaimRuns.World)
    requires ClaimRuns.Next(w, step, w') && !Binds(w'.log)
    requires w.claim.status.nodeName == "" && RemovesNameless(w.log)
    ensures w'.claim.status.nodeName == "" && RemovesNameless(w'.log) && !Binds(w.log)
  {
    if step.ReconcileStep? {
      UnboundReconcileName(w.claim, step.input);
    }
  }

  /** In every run, a removal call bears a name only after a node was bound. */
  lemma {:induction false} RemovalsFollowBinding(worlds: seq<ClaimRuns.World>, steps: seq<ClaimRuns.Step>, k: nat)
    requires ClaimRuns.Run(worlds, steps) && k < |worlds| && !Binds(worlds[k].log)
    ensures worlds[k].claim.status.nodeName == "" && RemovesNameless(worlds[k].log)
  {
    if k > 0 {
      LogGrows(worlds, steps, k - 1);
      RemovalsFollowBinding(worlds, steps, k - 1);
      UnboundStep(worlds[k - 1], steps[k - 1], worlds[k]);
    }
  }

  lemma LogGrows(worlds: seq<ClaimRuns.World>, steps: seq<ClaimRuns.Step>, k: nat)
    requires ClaimRuns.Run(worlds, steps) && k < |steps|
    ensures worlds[k].log <= worlds[k + 1].log
    ensures !Binds(worlds[k + 1].log) ==> !Binds(worlds[k].log)
  {
    assert ClaimRuns.Next(worlds[k], steps[k], worlds[k + 1]);
  }

  /**
   The machine of a claim that never got a node survives the claim: over a whole run without a binding, timeouts,
   retries and finalization included, no removal call destroys any machine that has a name, however it is answered.
   */
  lemma UnregisteredMachineSurvives(
    worlds: seq<ClaimRuns.World>, steps: seq<ClaimRuns.Step>, at: nat,
    vms: seq<Proxmox.VM>, k: nat, tag: string, d: Proxmox.DeprovisionInput)
    requires ClaimRuns.Run(worlds, steps) && at < |worlds| && !Binds(worlds[at].log)
    requires UniqueIds(vms) && k < |vms| && vms[k].name != ""
    ensures !Destroys(worlds[at].log, vms, k, tag, d)
  {
    RemovalsFollowBinding(worlds, steps, at);
    DestroyedIff(vms, "", tag, d, k);
  }

  /**
   A registration timeout asks for the removal of a machine under the node name, which is empty as long
   as nothing registered. Unless some machine has the empty name, that call fails and removes nothing,
   and the next launch of the claim adopts the old machine instead of making a new one.
   */
  lemma TimedOutMachineSurvives(
    s: Status, r: RegistrationInput,
    vms: seq<Proxmox.VM>, k: nat, spec: VmOptions.MachineSpec, settings: Proxmox.Settings,
    d: Proxmox.DeprovisionInput, i: Proxmox.ProvisionInput)
    requires s.nodeName == "" && r.providerFound
    requires k < |vms| && vms[k].name == spec.name
    requires forall j :: 0 <= j < |vms| ==> vms[j].name != ""
    requires Proxmox.ValidDraw(settings, i) && i.nodesListed && AllVisible(vms, i.visible)
    ensures DeprovisionCalled(s.providerID, "") in GiveUpWaiting(s, r).effects
    ensures Proxmox.Deprovision(vms, "", settings.config.managedTag, d) == Proxmox.DeprovisionOutcome(vms, false)
    ensures |Proxmox.Provision(vms, spec, settings, i).vms| == |vms|
  {
    assert GiveUpWaiting(s, r).effects[1] == DeprovisionCalled(s.providerID, "");
    FoundWhenVisible(vms, spec.name, i.visible, k);
  }
}
