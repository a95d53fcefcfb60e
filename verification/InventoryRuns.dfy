/** The machine inventory over whole runs of provider calls, and which machine a removal takes. */
module InventoryRuns {
  import opened Common
  import opened VmidAllocator
  import opened VmOptions
  import opened ProxmoxInventory

  // ----- the invariant

  ghost predicate UniqueIds(vms: seq<VM>) {
    forall j, k :: 0 <= j < k < |vms| ==> vms[j].id != vms[k].id
  }

  /** No two machines made by the provider share a name. */
  ghost predicate UniqueNames(vms: seq<VM>) {
    forall j, k :: 0 <= j < k < |vms| && vms[j].created && vms[k].created ==> vms[j].name != vms[k].name
  }

  /** All hosts that carry a machine are online and can be listed during the call. */
  predicate AllVisible(vms: seq<VM>, visible: seq<bool>) {
    forall k :: 0 <= k < |vms| ==> vms[k].host < |visible| && visible[vms[k].host]
  }

  /** The configuration mentions "name" at most once and gives it to no network interface. */
  predicate NamesReachTheMachine(config: Config) {
    config.section.Some? ==>
      Mentions(config.section.value.vmOptions, "name") <= 1 && LastNic(config.section.value.nics, "name").None?
  }

  lemma NewVMIsNamed(spec: MachineSpec, settings: Settings, id: uint64, host: nat, running: bool)
    requires settings.config.section.Some? && NamesReachTheMachine(settings.config)
    ensures NewVM(spec, settings, id, host, running).name == spec.name
  {
    OptionsExactly(spec, settings.config, "name");
  }

  /** In any other configuration some claim gets a machine of another name, if repeats are resolved against it. */
  lemma MisnamedMachine(config: Config) returns (spec: MachineSpec, repeats: Repeats)
    requires config.section.Some? && !NamesReachTheMachine(config)
    ensures TextIn(Options(spec, config), "name", repeats) != spec.name
  {
    var nic := LastNic(config.section.value.nics, "name");
    var given := Values(Configured(config.section.value.vmOptions), "name");
    var other;
    if nic.Some? {
      other, repeats := nic.value, FirstWins;
    } else {
      ConfiguredAreRaw(config.section.value.vmOptions, "name", |given| - 1);
      other, repeats := given[|given| - 1].json, LastWins;
    }
    spec := MachineSpec(other + "-", 0, 0);
    OptionsExactly(spec, config, "name");
    assert |spec.name| == |other| + 1;
  }

  /** That is exactly what it takes for every claim's machine to bear the claim's name, however repeats are resolved. */
  lemma MachinesAreNamedIff(config: Config)
    requires config.section.Some?
    ensures (forall spec, repeats :: TextIn(Options(spec, config), "name", repeats) == spec.name)
      <==> NamesReachTheMachine(config)
  {
    if NamesReachTheMachine(config) {
      forall spec, repeats ensures TextIn(Options(spec, config), "name", repeats) == spec.name {
        OptionsExactly(spec, config, "name");
      }
    } else {
      var spec, repeats := MisnamedMachine(config);
    }
  }

  /** A call adds at most one machine; the new one has a fresh identifier and the requested name. */
  lemma CreateAddsFreshVM(vms: seq<VM>, spec: MachineSpec, settings: Settings, i: ProvisionInput)
    requires ValidDraw(settings, i) && NamesReachTheMachine(settings.config)
    ensures
      var after := Create(vms, spec, settings, i).vms;
      after == vms || (
        && |after| == |vms| + 1 && after[..|vms|] == vms
        && after[|vms|].name == spec.name && after[|vms|].created
        && InRange(settings.range, after[|vms|].id)
        && forall k :: 0 <= k < |vms| ==> vms[k].id != after[|vms|].id)
  {
    AllocateIsComplete(IdsOf(vms), settings.range, i.offset);
    var a := Allocate(IdsOf(vms), settings.range, i.offset);
    if a.Ok? && i.host.Some? && settings.config.section.Some? {
      NewVMIsNamed(spec, settings, a.value, i.host.value, true);
      NewVMIsNamed(spec, settings, a.value, i.host.value, false);
      assert forall k :: 0 <= k < |vms| ==> IdsOf(vms)[k] == vms[k].id;
    }
  }

  lemma ProvisionKeepsIds(vms: seq<VM>, spec: MachineSpec, settings: Settings, i: ProvisionInput)
    requires UniqueIds(vms) && ValidDraw(settings, i) && NamesReachTheMachine(settings.config)
    ensures UniqueIds(Provision(vms, spec, settings, i).vms)
  {
    CreateAddsFreshVM(vms, spec, settings, i);
  }

  lemma ProvisionKeepsNames(vms: seq<VM>, spec: MachineSpec, settings: Settings, i: ProvisionInput)
    requires UniqueNames(vms) && ValidDraw(settings, i) && NamesReachTheMachine(settings.config)
    requires AllVisible(vms, i.visible)
    ensures UniqueNames(Provision(vms, spec, settings, i).vms)
  {
    CreateAddsFreshVM(vms, spec, settings, i);
  }

  lemma DeprovisionKeepsIds(vms: seq<VM>, name: string, tag: string, i: DeprovisionInput)
    requires UniqueIds(vms)
    ensures UniqueIds(Deprovision(vms, name, tag, i).vms)
  {
  }

  lemma DeprovisionKeepsNames(vms: seq<VM>, name: string, tag: string, i: DeprovisionInput)
    requires UniqueNames(vms)
    ensures UniqueNames(Deprovision(vms, name, tag, i).vms)
  {
  }

  // ----- runs

  /** Provider calls in any order and with any outcome, and what other users of the cluster do. */
  datatype Action =
    | ProvisionCall(spec: MachineSpec, provision: ProvisionInput)
    | DeprovisionCall(name: string, deprovision: DeprovisionInput)
    | AddForeign(vm: VM)
    | Remove(index: nat)
    | Change(index: nat, host: nat, tags: string, running: bool)

  /** Proxmox itself never admits two machines with one identifier. */
  predicate Enabled(vms: seq<VM>, settings: Settings, a: Action) {
    match a
    case ProvisionCall(_, i) => ValidDraw(settings, i)
    case DeprovisionCall(_, _) => true
    case AddForeign(vm) => !vm.created && vm.id !in IdsOf(vms)
    case Remove(k) => k < |vms|
    case Change(k, _, _, _) => k < |vms|
  }

  function Apply(vms: seq<VM>, settings: Settings, a: Action): seq<VM>
    requires Enabled(vms, settings, a)
  {
    match a
    case ProvisionCall(spec, i) => Provision(vms, spec, settings, i).vms
    case DeprovisionCall(name, i) => Deprovision(vms, name, settings.config.managedTag, i).vms
    case AddForeign(vm) => vms + [vm]
    case Remove(k) => Without(vms, k)
    case Change(k, host, tags, running) => vms[k := vms[k].(host := host, tags := tags, running := running)]
  }

  ghost predicate Run(states: seq<seq<VM>>, settings: Settings, actions: seq<Action>) {
    && |states| == |actions| + 1
    && UniqueIds(states[0]) && (forall k :: 0 <= k < |states[0]| ==> !states[0][k].created)
    && forall k :: 0 <= k < |actions| ==>
         Enabled(states[k], settings, actions[k]) && states[k + 1] == Apply(states[k], settings, actions[k])
  }

  lemma StepKeepsInv(vms: seq<VM>, settings: Settings, a: Action)
    requires UniqueIds(vms) && UniqueNames(vms) && Enabled(vms, settings, a)
    requires NamesReachTheMachine(settings.config)
    requires a.ProvisionCall? ==> AllVisible(vms, a.provision.visible)
    ensures UniqueIds(Apply(vms, settings, a)) && UniqueNames(Apply(vms, settings, a))
  {
    match a
    case ProvisionCall(spec, i) =>
      ProvisionKeepsIds(vms, spec, settings, i);
      ProvisionKeepsNames(vms, spec, settings, i);
    case DeprovisionCall(name, i) =>
      DeprovisionKeepsIds(vms, name, settings.config.managedTag, i);
      DeprovisionKeepsNames(vms, name, settings.config.managedTag, i);
    case AddForeign(vm) => assert forall k :: 0 <= k < |vms| ==> IdsOf(vms)[k] == vms[k].id;
    case Remove(_) =>
    case Change(_, _, _, _) =>
  }

  /**
   Over every run of provider calls, retries after failures at any stage included, no two machines
   share an identifier and no two machines made by the provider share a name, as long as every host
   with a machine on it can be listed when a machine is provisioned.
   */
  lemma {:induction false} InventoryStaysDuplicateFree(
    states: seq<seq<VM>>, settings: Settings, actions: seq<Action>, k: nat)
    requires Run(states, settings, actions) && k < |states|
    requires NamesReachTheMachine(settings.config)
    requires forall j :: 0 <= j < |actions| && actions[j].ProvisionCall? ==>
      AllVisible(states[j], actions[j].provision.visible)
    ensures UniqueIds(states[k]) && UniqueNames(states[k])
  {
    if k > 0 {
      InventoryStaysDuplicateFree(states, settings, actions, k - 1);
      StepKeepsInv(states[k - 1], settings, actions[k - 1]);
    }
  }

  // ----- when a name can be duplicated

  /** The provider already made a machine of this name, but no visible host shows one. */
  predicate HiddenTwin(vms: seq<VM>, name: string, visible: seq<bool>) {
    FindVM(vms, name, visible, 0).None? && exists k :: 0 <= k < |vms| && vms[k].created && vms[k].name == name
  }

  /** A machine can be made at all: the provider is configured and an identifier is free. */
  ghost predicate CanCreate(vms: seq<VM>, settings: Settings) {
    settings.config.section.Some? && HasFree(IdsOf(vms), settings.range)
  }

  lemma DuplicatingCall(vms: seq<VM>, spec: MachineSpec, settings: Settings, visible: seq<bool>)
    returns (i: ProvisionInput)
    requires NamesReachTheMachine(settings.config) && settings.range.upper < INT64_LIMIT
    requires HiddenTwin(vms, spec.name, visible) && CanCreate(vms, settings)
    ensures ValidDraw(settings, i) && i.visible == visible && !UniqueNames(Provision(vms, spec, settings, i).vms)
  {
    i := ProvisionInput(true, visible, true, true, true, 0, Some(0), Started);
    AllocateIsComplete(IdsOf(vms), settings.range, 0);
    CreateAddsFreshVM(vms, spec, settings, i);
    var after := Provision(vms, spec, settings, i).vms;
    var k :| 0 <= k < |vms| && vms[k].created && vms[k].name == spec.name;
    assert |after| == |vms| + 1 && after[k] == vms[k];
  }

  /** The exact condition: provisioning is safe, however it turns out, unless the name is hidden. */
  lemma NoDuplicateIffNoHiddenTwin(vms: seq<VM>, spec: MachineSpec, settings: Settings, visible: seq<bool>)
    requires UniqueNames(vms) && NamesReachTheMachine(settings.config)
    requires settings.range.upper < INT64_LIMIT
    ensures (forall i: ProvisionInput :: ValidDraw(settings, i) && i.visible == visible ==>
               UniqueNames(Provision(vms, spec, settings, i).vms))
      <==> !(HiddenTwin(vms, spec.name, visible) && CanCreate(vms, settings))
  {
    if HiddenTwin(vms, spec.name, visible) && CanCreate(vms, settings) {
      var i := DuplicatingCall(vms, spec, settings, visible);
    } else {
      forall i: ProvisionInput | ValidDraw(settings, i) && i.visible == visible
        ensures UniqueNames(Provision(vms, spec, settings, i).vms)
      {
        CreateAddsFreshVM(vms, spec, settings, i);
        AllocateIsComplete(IdsOf(vms), settings.range, i.offset);
      }
    }
  }

  lemma FoundWhenVisible(vms: seq<VM>, name: string, visible: seq<bool>, k: nat)
    requires AllVisible(vms, visible) && k < |vms| && vms[k].name == name
    ensures FindVM(vms, name, visible, 0).Some?
  {
  }

  lemma ProvisionedIsPresent(vms: seq<VM>, spec: MachineSpec, settings: Settings, i: ProvisionInput) returns (k: nat)
    requires ValidDraw(settings, i) && NamesReachTheMachine(settings.config)
    requires Provision(vms, spec, settings, i).machine.Some?
    ensures Provision(vms, spec, settings, i).machine == Some(ProviderID(spec.name))
    ensures k < |Provision(vms, spec, settings, i).vms| && Provision(vms, spec, settings, i).vms[k].name == spec.name
  {
    match FindVM(vms, spec.name, i.visible, 0)
    case Some(j) => k := j;
    case None =>
      CreateAddsFreshVM(vms, spec, settings, i);
      k := |vms|;
  }

  /** A machine once provisioned is found again: a repeated call creates nothing and names the same machine. */
  lemma ProvisionIsIdempotent(
    vms: seq<VM>, spec: MachineSpec, settings: Settings, i: ProvisionInput, again: ProvisionInput)
    requires ValidDraw(settings, i) && ValidDraw(settings, again) && NamesReachTheMachine(settings.config)
    requires Provision(vms, spec, settings, i).machine.Some?
    requires again.nodesListed && AllVisible(Provision(vms, spec, settings, i).vms, again.visible)
    ensures
      var first := Provision(vms, spec, settings, i);
      var second := Provision(first.vms, spec, settings, again);
      |second.vms| == |first.vms| && (second.machine.Some? ==> second.machine == first.machine)
  {
    var k := ProvisionedIsPresent(vms, spec, settings, i);
    FoundWhenVisible(Provision(vms, spec, settings, i).vms, spec.name, again.visible, k);
  }

  /** Deprovisioning deletes at most the one machine it found, and only if that carries the managed tag. */
  lemma DeprovisionSparesUntagged(vms: seq<VM>, name: string, tag: string, i: DeprovisionInput)
    ensures
      var after := Deprovision(vms, name, tag, i).vms;
      || (|after| == |vms| && forall k :: 0 <= k < |vms| ==> after[k].(running := vms[k].running) == vms[k])
      || exists k :: 0 <= k < |vms| && vms[k].name == name && Contains(vms[k].tags, tag) && after == Without(vms, k)
  {
  }

  // ----- which machine a removal takes

  predicate Takes(r: Removal) {
    r.Deleted? || r == DeleteNotWaited(true)
  }

  ghost predicate HasId(vms: seq<VM>, id: uint64) {
    exists k :: 0 <= k < |vms| && vms[k].id == id
  }

  lemma WithoutKeepsOthers(vms: seq<VM>, j: nat, k: nat)
    requires UniqueIds(vms) && j < |vms| && k < |vms|
    ensures HasId(Without(vms, j), vms[k].id) <==> j != k
  {
    var after := Without(vms, j);
    assert forall m :: 0 <= m < |after| ==> after[m] == vms[if m < j then m else m + 1];
    if j != k {
      assert after[if k < j then k else k - 1] == vms[k];
    }
  }

  /** For every input: machine `k` is gone after a call exactly if the call found it, it is tagged and the removal took. */
  lemma DestroyedIff(vms: seq<VM>, name: string, tag: string, d: DeprovisionInput, k: nat)
    requires UniqueIds(vms) && k < |vms|
    ensures !HasId(Deprovision(vms, name, tag, d).vms, vms[k].id) <==>
      && d.nodesListed && FindVM(vms, name, d.visible, 0) == Some(k)
      && Contains(vms[k].tags, tag) && Takes(d.removal)
  {
    var after := Deprovision(vms, name, tag, d).vms;
    var found := FindVM(vms, name, d.visible, 0);
    if d.nodesListed && found.Some? && Contains(vms[found.value].tags, tag) && Takes(d.removal) {
      WithoutKeepsOthers(vms, found.value, k);
    } else {
      assert |after| == |vms| && after[k].id == vms[k].id;
    }
  }

  /** The lookup takes the first machine of the name on its host. */
  lemma {:induction false} FoundIsFirst(vms: seq<VM>, name: string, visible: seq<bool>, h: nat)
    requires h <= |visible|
    ensures
      var r := FindVM(vms, name, visible, h);
      r.Some? ==> r.value < |vms| && FirstOn(vms, name, vms[r.value].host, 0) == r.value
    decreases |visible| - h
  {
    if h < |visible| && !(visible[h] && FirstOn(vms, name, h, 0) < |vms|) {
      FoundIsFirst(vms, name, visible, h + 1);
    }
  }

  function OnlyHost(host: nat): seq<bool> {
    seq(host + 1, h => h == host)
  }

  lemma {:induction false} FoundOnOnlyHost(vms: seq<VM>, name: string, host: nat, h: nat)
    requires h <= host && FirstOn(vms, name, host, 0) < |vms|
    ensures FindVM(vms, name, OnlyHost(host), h) == Some(FirstOn(vms, name, host, 0))
    decreases host - h
  {
    if h < host {
      FoundOnOnlyHost(vms, name, host, h + 1);
    }
  }

  /**
   What protects a machine the provider did not make: some call for `name` can delete it exactly if it has that
   name, no earlier machine of its host has, and its tags contain the managed tag as a substring. The tag is
   optional, and the empty one protects nothing.
   */
  lemma DeletableIff(vms: seq<VM>, name: string, tag: string, k: nat)
    requires UniqueIds(vms) && k < |vms|
    ensures (exists d :: !HasId(Deprovision(vms, name, tag, d).vms, vms[k].id)) <==>
      FirstOn(vms, name, vms[k].host, 0) == k && Contains(vms[k].tags, tag)
    ensures tag == "" ==> Contains(vms[k].tags, tag)
  {
    if exists d :: !HasId(Deprovision(vms, name, tag, d).vms, vms[k].id) {
      var d :| !HasId(Deprovision(vms, name, tag, d).vms, vms[k].id);
      DestroyedIff(vms, name, tag, d, k);
      FoundIsFirst(vms, name, d.visible, 0);
    }
    if FirstOn(vms, name, vms[k].host, 0) == k && Contains(vms[k].tags, tag) {
      var d := DeprovisionInput(true, OnlyHost(vms[k].host), Deleted);
      FoundOnOnlyHost(vms, name, vms[k].host, 0);
      DestroyedIff(vms, name, tag, d, k);
      assert !HasId(Deprovision(vms, name, tag, d).vms, vms[k].id);
    }
    assert "" <= vms[k].tags[0..];
  }

  /** No other machine has the name of machine `k`. */
  ghost predicate AloneInName(vms: seq<VM>, k: nat)
    requires k < |vms|
  {
    forall j :: 0 <= j < |vms| && j != k ==> vms[j].name != vms[k].name
  }

  /** A call that goes well destroys the machine exactly if it is called with the machine's own name. */
  lemma DestroyedIffNamed(vms: seq<VM>, name: string, tag: string, d: DeprovisionInput, k: nat)
    requires UniqueIds(vms) && k < |vms| && AloneInName(vms, k) && Contains(vms[k].tags, tag)
    requires d.nodesListed && AllVisible(vms, d.visible) && Takes(d.removal)
    ensures !HasId(Deprovision(vms, name, tag, d).vms, vms[k].id) <==> name == vms[k].name
  {
    DestroyedIff(vms, name, tag, d, k);
    if name == vms[k].name {
      FoundWhenVisible(vms, name, d.visible, k);
    }
  }
}
