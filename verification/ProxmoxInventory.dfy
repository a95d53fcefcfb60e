/**
 The Proxmox provider over an abstract inventory of virtual machines: idempotent provisioning by
 machine name, and deprovisioning guarded by the managed tag.
 */
module ProxmoxInventory {
  import opened Common
  import opened VmidAllocator
  import opened VmOptions

  /** `host` is the index of the Proxmox host it runs on; `created` marks machines made by the provider. */
  datatype VM = VM(id: uint64, host: nat, name: string, tags: string, running: bool, created: bool)

  /** How far the creation of a machine got; in `Lost` the wait failed and the machine may exist or not. */
  datatype Creation = Refused | Lost(exists': bool) | NotStarted | Started

  /** `visible` says of each host whether it is online and its machines can be listed during this call. */
  datatype ProvisionInput = ProvisionInput(
    nodesListed: bool,
    visible: seq<bool>,
    startAccepted: bool,
    startWaited: bool,
    resourcesListed: bool,
    offset: uint64,
    host: Option<nat>,
    creation: Creation)

  datatype Removal = StopRefused | StopNotWaited | DeleteRefused | DeleteNotWaited(gone: bool) | Deleted

  datatype DeprovisionInput = DeprovisionInput(nodesListed: bool, visible: seq<bool>, removal: Removal)

  /** Which of several options of one name the creation request takes; the client library decides. */
  datatype Repeats = FirstWins | LastWins

  datatype Settings = Settings(config: Config, range: VmidRange, repeats: Repeats)

  // ----- finding a machine by name

  predicate Matches(vm: VM, name: string, host: nat) {
    vm.host == host && vm.name == name
  }

  /** Index of the first machine of that name on `host`, from `k` on, or `|vms|`. */
  function FirstOn(vms: seq<VM>, name: string, host: nat, k: nat): (r: nat)
    requires k <= |vms|
    ensures k <= r <= |vms|
    ensures r < |vms| ==> Matches(vms[r], name, host)
    ensures forall j :: k <= j < r ==> !Matches(vms[j], name, host)
    decreases |vms| - k
  {
    if k == |vms| || Matches(vms[k], name, host) then k else FirstOn(vms, name, host, k + 1)
  }

  /** The first machine of that name on a visible host, hosts taken in order from `h` on. */
  function FindVM(vms: seq<VM>, name: string, visible: seq<bool>, h: nat): (r: Option<nat>)
    requires h <= |visible|
    ensures r.Some? ==>
      r.value < |vms| && vms[r.value].name == name && vms[r.value].host < |visible| && visible[vms[r.value].host]
    ensures r.None? ==> forall k :: 0 <= k < |vms| && vms[k].name == name && h <= vms[k].host < |visible| ==>
      !visible[vms[k].host]
    decreases |visible| - h
  {
    if h == |visible| then None
    else if visible[h] && FirstOn(vms, name, h, 0) < |vms| then Some(FirstOn(vms, name, h, 0))
    else
      var r := FindVM(vms, name, visible, h + 1);
      assert r.None? ==> forall k :: 0 <= k < |vms| && vms[k].name == name && vms[k].host == h ==>
        Matches(vms[k], name, h);
      r
  }

  // ----- provisioning

  datatype ProvisionOutcome = ProvisionOutcome(vms: seq<VM>, machine: Option<string>)

  function ProviderID(name: string): string {
    "proxmox://" + name
  }

  /** The text Proxmox reads under an option name of the list. */
  function TextIn(opts: seq<VmOption>, name: string, repeats: Repeats): string {
    var vs := Values(opts, name);
    if vs == [] then "" else
      match if repeats.FirstWins? then vs[0] else vs[|vs| - 1]
      case Raw(json) => json
      case Text(text) => text
      case Number(_) => ""
  }

  function IdsOf(vms: seq<VM>): seq<uint64> {
    seq(|vms|, k requires 0 <= k < |vms| => vms[k].id)
  }

  /** What the provider's configuration guarantees: CRD validation bounds the range, the draw lies within it. */
  predicate ValidDraw(settings: Settings, i: ProvisionInput) {
    && settings.range.upper < INT64_LIMIT
    && (settings.range.lower <= settings.range.upper ==> i.offset <= settings.range.upper - settings.range.lower)
  }

  function NewVM(spec: MachineSpec, settings: Settings, id: uint64, host: nat, running: bool): VM
    requires settings.config.section.Some?
  {
    var opts := Options(spec, settings.config);
    VM(id, host, TextIn(opts, "name", settings.repeats), TextIn(opts, "tags", settings.repeats), running, true)
  }

  function Provision(vms: seq<VM>, spec: MachineSpec, settings: Settings, i: ProvisionInput): ProvisionOutcome
    requires ValidDraw(settings, i)
  {
    if !i.nodesListed then ProvisionOutcome(vms, None)
    else
      match FindVM(vms, spec.name, i.visible, 0)
      case Some(k) => Reuse(vms, k, spec, i)
      case None => Create(vms, spec, settings, i)
  }

  function Reuse(vms: seq<VM>, k: nat, spec: MachineSpec, i: ProvisionInput): ProvisionOutcome
    requires k < |vms|
  {
    if vms[k].running then ProvisionOutcome(vms, Some(ProviderID(spec.name)))
    else if !i.startAccepted then ProvisionOutcome(vms, None)
    else
      ProvisionOutcome(vms[k := vms[k].(running := true)],
                       if i.startWaited then Some(ProviderID(spec.name)) else None)
  }

  function Create(vms: seq<VM>, spec: MachineSpec, settings: Settings, i: ProvisionInput): ProvisionOutcome
    requires ValidDraw(settings, i)
  {
    if !i.resourcesListed then ProvisionOutcome(vms, None)
    else
      AllocateIsComplete(IdsOf(vms), settings.range, i.offset);
      match Allocate(IdsOf(vms), settings.range, i.offset)
      case Err(_) => ProvisionOutcome(vms, None)
      case Ok(id) =>
        if i.host.None? || settings.config.section.None? then ProvisionOutcome(vms, None)
        else
          match i.creation
          case Refused => ProvisionOutcome(vms, None)
          case Lost(exists') =>
            ProvisionOutcome(
              if exists' then vms + [NewVM(spec, settings, id, i.host.value, false)] else vms, None)
          case NotStarted =>
            ProvisionOutcome(vms + [NewVM(spec, settings, id, i.host.value, false)], None)
          case Started =>
            ProvisionOutcome(vms + [NewVM(spec, settings, id, i.host.value, true)],
                             Some(ProviderID(spec.name)))
  }

  // ----- deprovisioning

  predicate Contains(s: string, part: string) {
    exists k :: 0 <= k <= |s| && part <= s[k..]
  }

  function Without<T>(s: seq<T>, k: nat): seq<T>
    requires k < |s|
  {
    s[..k] + s[k + 1..]
  }

  datatype DeprovisionOutcome = DeprovisionOutcome(vms: seq<VM>, ok: bool)

  function Deprovision(vms: seq<VM>, name: string, tag: string, i: DeprovisionInput): DeprovisionOutcome {
    if !i.nodesListed then DeprovisionOutcome(vms, false)
    else
      match FindVM(vms, name, i.visible, 0)
      case None => DeprovisionOutcome(vms, false)
      case Some(k) =>
        if !Contains(vms[k].tags, tag) then DeprovisionOutcome(vms, false)
        else
          var stopped := vms[k := vms[k].(running := false)];
          match i.removal
          case StopRefused => DeprovisionOutcome(vms, false)
          case StopNotWaited => DeprovisionOutcome(stopped, false)
          case DeleteRefused => DeprovisionOutcome(stopped, false)
          case DeleteNotWaited(gone) => DeprovisionOutcome(if gone then Without(vms, k) else stopped, false)
          case Deleted => DeprovisionOutcome(Without(vms, k), true)
  }

  // ----- the provider

  class ProxmoxProvider {
    var vms: seq<VM>
    const settings: Settings

    constructor (vms: seq<VM>, settings: Settings)
      ensures this.vms == vms && this.settings == settings
    {
      this.vms, this.settings := vms, settings;
    }

    /** Asks the visible hosts one after the other for a machine of that name. */
    method FindNodeByVMName(name: string, visible: seq<bool>) returns (found: Option<nat>)
      ensures found == FindVM(vms, name, visible, 0)
    {
      for h := 0 to |visible|
        invariant FindVM(vms, name, visible, 0) == FindVM(vms, name, visible, h)
      {
        if !visible[h] {
          continue;
        }
        for k := 0 to |vms|
          invariant forall j :: 0 <= j < k ==> !Matches(vms[j], name, h)
        {
          if vms[k].host == h && vms[k].name == name {
            assert FirstOn(vms, name, h, 0) == k;
            return Some(k);
          }
        }
        assert FirstOn(vms, name, h, 0) == |vms|;
      }
      return None;
    }

    method ProvisionMachine(spec: MachineSpec, i: ProvisionInput) returns (machine: Option<string>)
      requires ValidDraw(settings, i)
      modifies this
      ensures
        var o := Provision(old(vms), spec, settings, i);
        vms == o.vms && machine == o.machine
    {
      if !i.nodesListed {
        return None;
      }
      var found := FindNodeByVMName(spec.name, i.visible);
      if found.Some? {
        var k := found.value;
        if !vms[k].running {
          if !i.startAccepted {
            return None;
          }
          vms := vms[k := vms[k].(running := true)];
          if !i.startWaited {
            return None;
          }
        }
        return Some(ProviderID(spec.name));
      }
      machine := CreateMachine(spec, i);
    }

    method CreateMachine(spec: MachineSpec, i: ProvisionInput) returns (machine: Option<string>)
      requires ValidDraw(settings, i)
      modifies this
      ensures
        var o := Create(old(vms), spec, settings, i);
        vms == o.vms && machine == o.machine
    {
      if !i.resourcesListed {
        return None;
      }
      var newVMID := GenerateNewVMID(IdsOf(vms), settings.range, i.offset);
      AllocateIsComplete(IdsOf(vms), settings.range, i.offset);
      if newVMID.Err? {
        return None;
      }
      if i.host.None? {
        return None;
      }
      var options := BuildVirtualMachineOptions(spec, settings.config);
      if options.None? {
        return None;
      }
      if i.creation.Refused? || i.creation == Lost(false) {
        return None;
      }
      var name := TextIn(options.value, "name", settings.repeats);
      var tags := TextIn(options.value, "tags", settings.repeats);
      var vm := VM(newVMID.value, i.host.value, name, tags, i.creation.Started?, true);
      vms := vms + [vm];
      if !i.creation.Started? {
        return None;
      }
      return Some(ProviderID(spec.name));
    }

    method DeprovisionMachine(nodeName: string, i: DeprovisionInput) returns (ok: bool)
      modifies this
      ensures
        var o := Deprovision(old(vms), nodeName, settings.config.managedTag, i);
        vms == o.vms && ok == o.ok
    {
      if !i.nodesListed {
        return false;
      }
      var found := FindNodeByVMName(nodeName, i.visible);
      if found.None? {
        return false;
      }
      var k := found.value;
      if !Contains(vms[k].tags, settings.config.managedTag) {
        return false;
      }
      if i.removal.StopRefused? {
        return false;
      }
      var present := vms;
      vms := vms[k := vms[k].(running := false)];
      if i.removal.Deleted? || i.removal == DeleteNotWaited(true) {
        vms := present[..k] + present[k + 1..];
      }
      return i.removal.Deleted?;
    }
  }
}
