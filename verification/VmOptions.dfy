/** The option list of a new virtual machine: configured options, overwritten or extended in place. */
module VmOptions {
  import opened Common
  import opened Decimal

  /** `Raw` is a configured value as Proxmox reads it; the controller's own values are texts and numbers. */
  datatype Value = Raw(json: string) | Text(text: string) | Number(n: int)

  datatype VmOption = VmOption(name: string, value: Value)

  datatype ConfiguredOption = ConfiguredOption(name: string, json: string)

  /** A network interface; `device` is its rendered text: model, hardware address, bridge and VLAN tag. */
  datatype Nic = Nic(name: string, device: string)

  datatype MachineSpec = MachineSpec(name: string, cpuCores: int, memoryMiB: int)

  /** The Proxmox section of a provider resource; the list of options has no rule against repeated names. */
  datatype Section = Section(vmOptions: seq<ConfiguredOption>, nics: seq<Nic>)

  datatype Config = Config(section: Option<Section>, managedTag: string, memOverheadMiB: int)

  function Configured(cs: seq<ConfiguredOption>): seq<VmOption> {
    seq(|cs|, k requires 0 <= k < |cs| => VmOption(cs[k].name, Raw(cs[k].json)))
  }

  /** Overwrites the first option of that name, or appends a new one. */
  function Upsert(opts: seq<VmOption>, name: string, value: Value): seq<VmOption> {
    if opts == [] then [VmOption(name, value)]
    else if opts[0].name == name then [VmOption(name, value)] + opts[1..]
    else [opts[0]] + Upsert(opts[1..], name, value)
  }

  /** The values of all entries called `name`, in order. */
  function Values(opts: seq<VmOption>, name: string): seq<Value> {
    if opts == [] then []
    else (if opts[0].name == name then [opts[0].value] else []) + Values(opts[1..], name)
  }

  function Memory(spec: MachineSpec, config: Config): int {
    if config.memOverheadMiB > 0 then spec.memoryMiB + config.memOverheadMiB else spec.memoryMiB
  }

  function BaseOptions(spec: MachineSpec, config: Config): seq<VmOption>
    requires config.section.Some?
  {
    var named := Upsert(Configured(config.section.value.vmOptions), "name", Text(spec.name));
    var tagged := Upsert(named, "tags", Text(config.managedTag));
    var sized := Upsert(tagged, "memory", Number(Memory(spec, config)));
    Upsert(sized, "cores", Number(spec.cpuCores))
  }

  function NicOption(nic: Nic, index: nat): string {
    if nic.name == "" then "net" + Render(index) else nic.name
  }

  function WithNics(opts: seq<VmOption>, nics: seq<Nic>): seq<VmOption> {
    if nics == [] then opts
    else
      var n := |nics| - 1;
      Upsert(WithNics(opts, nics[..n]), NicOption(nics[n], n), Text(nics[n].device))
  }

  function Options(spec: MachineSpec, config: Config): seq<VmOption>
    requires config.section.Some?
  {
    WithNics(BaseOptions(spec, config), config.section.value.nics)
  }

  lemma {:induction false} UpsertAt(opts: seq<VmOption>, name: string, value: Value, i: nat)
    requires i <= |opts| && forall k :: 0 <= k < i ==> opts[k].name != name
    ensures i < |opts| && opts[i].name == name ==>
      Upsert(opts, name, value) == opts[i := VmOption(name, value)]
    ensures i == |opts| ==> Upsert(opts, name, value) == opts + [VmOption(name, value)]
  {
    if i > 0 {
      UpsertAt(opts[1..], name, value, i - 1);
    }
  }

  method SetOption(initial: seq<VmOption>, name: string, value: Value) returns (opts: seq<VmOption>)
    ensures opts == Upsert(initial, name, value)
  {
    opts := initial;
    for i := 0 to |opts|
      invariant opts == initial && forall k :: 0 <= k < i ==> opts[k].name != name
    {
      if opts[i].name == name {
        UpsertAt(initial, name, value, i);
        return opts[i := opts[i].(value := value)];
      }
    }
    UpsertAt(initial, name, value, |initial|);
    opts := opts + [VmOption(name, value)];
  }

  method BuildVirtualMachineOptions(spec: MachineSpec, config: Config) returns (r: Option<seq<VmOption>>)
    ensures r.Some? <==> config.section.Some?
    ensures r.Some? ==> r.value == Options(spec, config)
  {
    if config.section.None? {
      return None;
    }
    var section := config.section.value;
    var opts: seq<VmOption> := [];
    for i := 0 to |section.vmOptions|
      invariant opts == Configured(section.vmOptions)[..i]
    {
      opts := opts + [VmOption(section.vmOptions[i].name, Raw(section.vmOptions[i].json))];
    }
    assert opts == Configured(section.vmOptions);
    opts := SetOption(opts, "name", Text(spec.name));
    opts := SetOption(opts, "tags", Text(config.managedTag));
    var memory := spec.memoryMiB;
    if config.memOverheadMiB > 0 {
      memory := memory + config.memOverheadMiB;
    }
    opts := SetOption(opts, "memory", Number(memory));
    opts := SetOption(opts, "cores", Number(spec.cpuCores));
    for i := 0 to |section.nics|
      invariant opts == WithNics(BaseOptions(spec, config), section.nics[..i])
    {
      assert section.nics[..i + 1][..i] == section.nics[..i];
      var name := section.nics[i].name;
      if name == "" {
        name := "net" + Render(i);
      }
      opts := SetOption(opts, name, Text(section.nics[i].device));
    }
    assert section.nics[..|section.nics|] == section.nics;
    return Some(opts);
  }

  // ----- what the list says

  /** A list of values whose first one is replaced, or which is started, by `v`. */
  function Replaced(vs: seq<Value>, v: Value): seq<Value> {
    [v] + if vs == [] then [] else vs[1..]
  }

  lemma ValuesCons(o: VmOption, rest: seq<VmOption>, name: string)
    ensures Values([o] + rest, name) == (if o.name == name then [o.value] else []) + Values(rest, name)
  {
    assert ([o] + rest)[1..] == rest;
  }

  lemma ReplacedHead(first: Value, vs: seq<Value>, v: Value)
    ensures Replaced([first] + vs, v) == [v] + vs
  {
    assert ([first] + vs)[1..] == vs;
  }

  /** An upsert touches one entry of its name, the first; entries of other names stay, and so do repeated ones. */
  lemma {:induction false} UpsertReplacesFirst(opts: seq<VmOption>, name: string, value: Value, other: string)
    ensures Values(Upsert(opts, name, value), other) ==
      if other == name then Replaced(Values(opts, name), value) else Values(opts, other)
  {
    if opts != [] {
      if opts[0].name != name {
        UpsertReplacesFirst(opts[1..], name, value, other);
        ValuesCons(opts[0], Upsert(opts[1..], name, value), other);
        if other == name {
          assert [] + Values(opts[1..], name) == Values(opts[1..], name);
        }
      } else {
        ValuesCons(VmOption(name, value), opts[1..], other);
        ReplacedHead(opts[0].value, Values(opts[1..], name), value);
      }
    }
  }

  /** The device of the last interface that lands on option `name`, if any. */
  function LastNic(nics: seq<Nic>, name: string): Option<string> {
    if nics == [] then None
    else
      var n := |nics| - 1;
      if NicOption(nics[n], n) == name then Some(nics[n].device) else LastNic(nics[..n], name)
  }

  lemma {:induction false} NicsOverride(opts: seq<VmOption>, nics: seq<Nic>, name: string)
    ensures Values(WithNics(opts, nics), name) ==
      match LastNic(nics, name)
      case Some(device) => Replaced(Values(opts, name), Text(device))
      case None => Values(opts, name)
  {
    if nics != [] {
      var n := |nics| - 1;
      NicsOverride(opts, nics[..n], name);
      UpsertReplacesFirst(WithNics(opts, nics[..n]), NicOption(nics[n], n), Text(nics[n].device), name);
    }
  }

  /** What the controller asks for under an option name, if anything. */
  function Demanded(spec: MachineSpec, config: Config, name: string): Option<Value> {
    if name == "name" then Some(Text(spec.name))
    else if name == "tags" then Some(Text(config.managedTag))
    else if name == "memory" then Some(Number(Memory(spec, config)))
    else if name == "cores" then Some(Number(spec.cpuCores))
    else None
  }

  lemma BaseOptionsExactly(spec: MachineSpec, config: Config, name: string)
    requires config.section.Some?
    ensures Values(BaseOptions(spec, config), name) ==
      var given := Values(Configured(config.section.value.vmOptions), name);
      match Demanded(spec, config, name) case Some(v) => Replaced(given, v) case None => given
  {
    var given := Configured(config.section.value.vmOptions);
    var named := Upsert(given, "name", Text(spec.name));
    var tagged := Upsert(named, "tags", Text(config.managedTag));
    var sized := Upsert(tagged, "memory", Number(Memory(spec, config)));
    UpsertReplacesFirst(given, "name", Text(spec.name), name);
    UpsertReplacesFirst(named, "tags", Text(config.managedTag), name);
    UpsertReplacesFirst(tagged, "memory", Number(Memory(spec, config)), name);
    UpsertReplacesFirst(sized, "cores", Number(spec.cpuCores), name);
  }

  /** All values the built list holds under a name: the first comes from interface, controller or configuration. */
  lemma OptionsExactly(spec: MachineSpec, config: Config, name: string)
    requires config.section.Some?
    ensures Values(Options(spec, config), name) ==
      var given := Values(Configured(config.section.value.vmOptions), name);
      match LastNic(config.section.value.nics, name)
      case Some(device) => Replaced(given, Text(device))
      case None => match Demanded(spec, config, name) case Some(v) => Replaced(given, v) case None => given
  {
    BaseOptionsExactly(spec, config, name);
    NicsOverride(BaseOptions(spec, config), config.section.value.nics, name);
  }

  predicate AllCarry(opts: seq<VmOption>, name: string, v: Value) {
    forall k :: 0 <= k < |opts| && opts[k].name == name ==> opts[k].value == v
  }

  predicate AllAre(vs: seq<Value>, v: Value) {
    forall k :: 0 <= k < |vs| ==> vs[k] == v
  }

  lemma AllAreSplits(first: Value, rest: seq<Value>, v: Value)
    ensures AllAre([first] + rest, v) <==> first == v && AllAre(rest, v)
  {
    var vs := [first] + rest;
    assert vs[0] == first;
    assert forall k :: 0 <= k < |rest| ==> vs[k + 1] == rest[k];
  }

  lemma {:induction false} AllCarryValues(opts: seq<VmOption>, name: string, v: Value)
    ensures AllCarry(opts, name, v) <==> AllAre(Values(opts, name), v)
  {
    if opts != [] {
      AllCarryValues(opts[1..], name, v);
      var rest := Values(opts[1..], name);
      AllAreSplits(opts[0].value, rest, v);
      assert Values(opts, name) == if opts[0].name == name then [opts[0].value] + rest else rest;
      assert AllCarry(opts, name, v) <==> (opts[0].name == name ==> opts[0].value == v) && AllCarry(opts[1..], name, v);
    }
  }

  lemma {:induction false} ConfiguredAreRaw(cs: seq<ConfiguredOption>, name: string, k: nat)
    requires k < |Values(Configured(cs), name)|
    ensures Values(Configured(cs), name)[k].Raw?
  {
    if cs != [] {
      assert Configured(cs)[1..] == Configured(cs[1..]);
      if cs[0].name != name {
        ConfiguredAreRaw(cs[1..], name, k);
      } else if k > 0 {
        ConfiguredAreRaw(cs[1..], name, k - 1);
      }
    }
  }

  /** Number of configured options of that name. */
  function Mentions(cs: seq<ConfiguredOption>, name: string): nat {
    |Values(Configured(cs), name)|
  }

  /**
   Name, tags, memory and cores reach the machine unopposed exactly if the configuration mentions the option
   at most once and no network interface of another content bears its name.
   */
  lemma OptionsCarrySpecIff(spec: MachineSpec, config: Config, name: string)
    requires config.section.Some? && Demanded(spec, config, name).Some?
    ensures AllCarry(Options(spec, config), name, Demanded(spec, config, name).value) <==>
      && Mentions(config.section.value.vmOptions, name) <= 1
      && match LastNic(config.section.value.nics, name)
         case Some(device) => Demanded(spec, config, name).value == Text(device)
         case None => true
  {
    var v := Demanded(spec, config, name).value;
    var given := Values(Configured(config.section.value.vmOptions), name);
    OptionsExactly(spec, config, name);
    AllCarryValues(Options(spec, config), name, v);
    if |given| > 1 {
      ConfiguredAreRaw(config.section.value.vmOptions, name, 1);
      assert Values(Options(spec, config), name)[1] == given[1];
    } else {
      var nic := LastNic(config.section.value.nics, name);
      AllAreSplits(if nic.Some? then Text(nic.value) else v, [], v);
    }
  }
}
