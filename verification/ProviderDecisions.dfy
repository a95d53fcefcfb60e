/** What the provider's calls leave behind and report, told by the machines and by what each request was answered. */
module ProviderDecisions {
  import opened Common
  import opened Decimal
  import opened VmidAllocator
  import opened VmOptions
  import opened ProxmoxInventory

  // ----- the machine that is found

  /** Machine `k` bears the name and its host can be listed. */
  predicate Seen(vms: seq<VM>, name: string, visible: seq<bool>, k: int) {
    0 <= k < |vms| && vms[k].name == name && vms[k].host < |visible| && visible[vms[k].host]
  }

  /** Machine `j` is on an earlier host than machine `k`, or not behind it on the same one. */
  predicate Precedes(vms: seq<VM>, j: int, k: int)
    requires 0 <= j < |vms| && 0 <= k < |vms|
  {
    vms[j].host < vms[k].host || (vms[j].host == vms[k].host && j <= k)
  }

  /** The lookup finds a machine exactly if one is seen, and then the first one on the first host that has any. */
  lemma {:induction false} FindsFirstSeen(vms: seq<VM>, name: string, visible: seq<bool>, h: nat)
    requires h <= |visible|
    ensures
      var r := FindVM(vms, name, visible, h);
      && (r.None? <==> forall k :: Seen(vms, name, visible, k) ==> vms[k].host < h)
      && (r.Some? ==> Seen(vms, name, visible, r.value) && vms[r.value].host >= h)
      && (r.Some? ==> forall k :: Seen(vms, name, visible, k) && vms[k].host >= h ==> Precedes(vms, r.value, k))
    decreases |visible| - h
  {
    if h < |visible| {
      FindsFirstSeen(vms, name, visible, h + 1);
      var f := FirstOn(vms, name, h, 0);
      forall k | 0 <= k < |vms| && vms[k].host == h && vms[k].name == name ensures f <= k {
        assert Matches(vms[k], name, h);
      }
    }
  }

  // ----- provisioning

  /** A new machine can be made and is started. */
  ghost predicate IsMade(vms: seq<VM>, settings: Settings, i: ProvisionInput) {
    && i.resourcesListed && HasFree(IdsOf(vms), settings.range) && i.host.Some? && settings.config.section.Some?
    && i.creation == Started
  }

  /** A machine that was found is reported exactly if it runs, or its start was accepted and waited for. */
  lemma ReuseSucceedsIff(vms: seq<VM>, k: nat, spec: MachineSpec, i: ProvisionInput)
    requires k < |vms|
    ensures
      var o := Reuse(vms, k, spec, i);
      && (o.machine.Some? <==> vms[k].running || (i.startAccepted && i.startWaited))
      && (o.machine.Some? ==> o.machine == Some("proxmox://" + spec.name) && o.vms[k].running)
      && |o.vms| == |vms| && o.vms[k] == vms[k].(running := vms[k].running || i.startAccepted)
      && (forall j :: 0 <= j < |vms| && j != k ==> o.vms[j] == vms[j])
  {
  }

  /** The text the creation request carries for the machine's name. */
  function NameGiven(spec: MachineSpec, settings: Settings): string
    requires settings.config.section.Some?
  {
    TextIn(Options(spec, settings.config), "name", settings.repeats)
  }

  /** How far a creation got decides whether there is a machine, whether it runs, and what is reported. */
  lemma CreationOutcomes(vms: seq<VM>, spec: MachineSpec, settings: Settings, i: ProvisionInput)
    requires ValidDraw(settings, i)
    ensures
      var o := Create(vms, spec, settings, i);
      var possible := i.resourcesListed && HasFree(IdsOf(vms), settings.range) && i.host.Some?
        && settings.config.section.Some?;
      && (o.machine.Some? <==> IsMade(vms, settings, i))
      && (o.machine.Some? ==> o.machine == Some("proxmox://" + spec.name))
      && (!possible || i.creation.Refused? || i.creation == Lost(false) ==> o.vms == vms)
      && (possible && !i.creation.Refused? && i.creation != Lost(false) ==>
            && |o.vms| == |vms| + 1 && o.vms[..|vms|] == vms
            && o.vms[|vms|].created && o.vms[|vms|].host == i.host.value
            && o.vms[|vms|].name == NameGiven(spec, settings)
            && o.vms[|vms|].tags == TextIn(Options(spec, settings.config), "tags", settings.repeats)
            && (o.vms[|vms|].running <==> i.creation == Started))
  {
    AllocateIsComplete(IdsOf(vms), settings.range, i.offset);
  }

  /** The machine a successful call stands for: the one of the name that was seen, else one under the name it was given. */
  ghost predicate Stands(vms: seq<VM>, after: seq<VM>, spec: MachineSpec, settings: Settings, i: ProvisionInput, k: int) {
    && 0 <= k < |after| && after[k].running
    && (if exists j :: Seen(vms, spec.name, i.visible, j) then after[k].name == spec.name
        else settings.config.section.Some? && after[k].created && after[k].name == NameGiven(spec, settings))
  }

  /**
   For every inventory and input: when a call reports a machine, and that some machine of the name then runs. A start
   that is refused, or not seen to finish, is never reported as a success.
   */
  lemma ProvisionSucceedsIff(vms: seq<VM>, spec: MachineSpec, settings: Settings, i: ProvisionInput)
    requires ValidDraw(settings, i)
    ensures
      var found := FindVM(vms, spec.name, i.visible, 0);
      Provision(vms, spec, settings, i).machine.Some? <==>
        && i.nodesListed
        && if found.Some? then vms[found.value].running || (i.startAccepted && i.startWaited)
           else IsMade(vms, settings, i)
    ensures
      var o := Provision(vms, spec, settings, i);
      o.machine.Some? ==> o.machine == Some("proxmox://" + spec.name) && exists k :: Stands(vms, o.vms, spec, settings, i, k)
  {
    var o := Provision(vms, spec, settings, i);
    FindsFirstSeen(vms, spec.name, i.visible, 0);
    match FindVM(vms, spec.name, i.visible, 0)
    case Some(k) =>
      ReuseSucceedsIff(vms, k, spec, i);
      assert Seen(vms, spec.name, i.visible, k);
      assert i.nodesListed && o.machine.Some? ==> Stands(vms, o.vms, spec, settings, i, k);
    case None =>
      CreationOutcomes(vms, spec, settings, i);
      assert i.nodesListed && o.machine.Some? ==> Stands(vms, o.vms, spec, settings, i, |vms|);
  }

  // ----- removing

  predicate Carries(s: string, part: string) {
    exists a, b :: 0 <= a <= b <= |s| && s[a..b] == part
  }

  lemma ContainsIffCarries(s: string, part: string)
    ensures Contains(s, part) <==> Carries(s, part)
  {
    if Contains(s, part) {
      var k :| 0 <= k <= |s| && part <= s[k..];
      assert s[k..k + |part|] == part;
    }
    if Carries(s, part) {
      var a, b :| 0 <= a <= b <= |s| && s[a..b] == part;
      assert part == s[a..][..b - a];
    }
  }

  /** How far a removal got decides whether the machine still runs, whether it is still there, and what is reported. */
  lemma RemovalOutcomes(vms: seq<VM>, name: string, tag: string, d: DeprovisionInput)
    ensures
      var o, found := Deprovision(vms, name, tag, d), FindVM(vms, name, d.visible, 0);
      if !d.nodesListed || found.None? || !Carries(vms[found.value].tags, tag) || d.removal == StopRefused
      then o == DeprovisionOutcome(vms, false)
      else
        var k := found.value;
        && (o.ok <==> d.removal == Deleted)
        && (if d.removal == Deleted || d.removal == DeleteNotWaited(true) then o.vms == vms[..k] + vms[k + 1..]
            else o.vms == vms[k := vms[k].(running := false)])
  {
    var found := FindVM(vms, name, d.visible, 0);
    if found.Some? {
      ContainsIffCarries(vms[found.value].tags, tag);
    }
  }

  // ----- sizes

  /** A new machine gets the claim's memory, and the configured overhead on top if that is positive. */
  lemma MemoryWithOverhead(spec: MachineSpec, config: Config)
    ensures Memory(spec, config) == spec.memoryMiB + (if config.memOverheadMiB > 0 then config.memOverheadMiB else 0)
    ensures Demanded(spec, config, "memory") == Some(Number(Memory(spec, config)))
    ensures Demanded(spec, config, "cores") == Some(Number(spec.cpuCores))
    ensures Demanded(spec, config, "name") == Some(Text(spec.name))
    ensures Demanded(spec, config, "tags") == Some(Text(config.managedTag))
  {
  }

  /** An interface without a name takes the numbered one. */
  lemma UnnamedInterfaces(nic: Nic, index: nat)
    ensures NicOption(nic, index) == if |nic.name| > 0 then nic.name else "net" + Render(index)
  {
  }
}
