/**
 The scale-up planner: first fit of the pending pods, largest CPU request first, into the
 remaining room of existing nodes and pending claims; a pod that fits nowhere opens a new claim.
 */
module CapacityPlanner {
  import opened Common
  import opened KubeObjects

  const MILLI := 1000
  const MIB := 1024 * 1024

  /** Millicores and bytes: a bucket's remainder, or the capacity of a node template. */
  datatype Size = Size(cpu: int, mem: int)

  datatype Demand = Demand(pod: Pod, cpu: nat, mem: nat)

  datatype ClaimResources = ClaimResources(cpuCores: int, memoryMiB: int)

  /** A bucket together with the pods put into it; the controller keeps only its remainder. */
  datatype Bin = Bin(size: Size, load: seq<Demand>)

  function Cpu(d: Demand): int { d.cpu }

  function Mem(d: Demand): int { d.mem }

  function TotalCpu(ds: seq<Demand>): int { Sum(ds, Cpu) }

  function TotalMem(ds: seq<Demand>): int { Sum(ds, Mem) }

  function Free(b: Bin): Size {
    Size(b.size.cpu - TotalCpu(b.load), b.size.mem - TotalMem(b.load))
  }

  predicate Fits(d: Demand, free: Size) {
    free.cpu >= d.cpu && free.mem >= d.mem
  }

  /** Index of the first bin with room for `d`, or `|bins|`. */
  function FirstFit(bins: seq<Bin>, d: Demand): (i: nat)
    ensures i <= |bins|
    ensures i < |bins| ==> Fits(d, Free(bins[i]))
    ensures forall j :: 0 <= j < i ==> !Fits(d, Free(bins[j]))
  {
    if bins == [] then 0
    else
      var i := FirstFit(bins[..|bins| - 1], d);
      if i < |bins| - 1 || Fits(d, Free(bins[|bins| - 1])) then i else |bins|
  }

  /** A new claim has the template's size, enlarged where the pod that opens it is larger. */
  function OpenFor(d: Demand, template: Size): Bin {
    Bin(Size(Max(template.cpu, d.cpu), Max(template.mem, d.mem)), [d])
  }

  function Place(bins: seq<Bin>, d: Demand, template: Size): seq<Bin> {
    var i := FirstFit(bins, d);
    if i < |bins| then bins[i := Bin(bins[i].size, bins[i].load + [d])]
    else bins + [OpenFor(d, template)]
  }

  function Pack(bins: seq<Bin>, ds: seq<Demand>, template: Size): seq<Bin> {
    if ds == [] then bins
    else Place(Pack(bins, ds[..|ds| - 1], template), ds[|ds| - 1], template)
  }

  function EmptyBins(buckets: seq<Size>): seq<Bin> {
    seq(|buckets|, i requires 0 <= i < |buckets| => Bin(buckets[i], []))
  }

  /** Smallest number of whole units of size `unit` that covers `x`. */
  function CeilDiv(x: int, unit: int): int
    requires unit > 0
  {
    (x + unit - 1) / unit
  }

  function RoundUp(s: Size): ClaimResources {
    ClaimResources(CeilDiv(s.cpu, MILLI), CeilDiv(s.mem, MIB))
  }

  function ClaimsFor(bins: seq<Bin>): seq<ClaimResources> {
    seq(|bins|, i requires 0 <= i < |bins| => RoundUp(bins[i].size))
  }

  /** The pods that request something, as demands. */
  function Demands(pods: seq<Pod>): seq<Demand> {
    if pods == [] then []
    else
      var p := pods[|pods| - 1];
      Demands(pods[..|pods| - 1]) +
      (if RequestedCpu(p) == 0 && RequestedMem(p) == 0 then []
       else [Demand(p, RequestedCpu(p), RequestedMem(p))])
  }

  // The stable sort by descending CPU that the planner takes from Go's library.

  function Insert(d: Demand, ds: seq<Demand>): seq<Demand> {
    if ds == [] || d.cpu >= ds[0].cpu then [d] + ds else [ds[0]] + Insert(d, ds[1..])
  }

  function SortByCpu(ds: seq<Demand>): seq<Demand> {
    if ds == [] then [] else Insert(ds[0], SortByCpu(ds[1..]))
  }

  /** All bins after planning: the given buckets first, then one per new claim. */
  function Plan(pods: seq<Pod>, buckets: seq<Size>, template: Size): seq<Bin> {
    Pack(EmptyBins(buckets), SortByCpu(Demands(pods)), template)
  }

  lemma {:induction false} PackOnlyAppends(bins: seq<Bin>, ds: seq<Demand>, template: Size)
    ensures |bins| <= |Pack(bins, ds, template)|
  {
    if ds != [] {
      PackOnlyAppends(bins, ds[..|ds| - 1], template);
    }
  }

  /** The new claims `Plan` opens. */
  function NewBins(pods: seq<Pod>, buckets: seq<Size>, template: Size): seq<Bin> {
    PackOnlyAppends(EmptyBins(buckets), SortByCpu(Demands(pods)), template);
    Plan(pods, buckets, template)[|buckets|..]
  }

  method CollectDemands(pods: seq<Pod>) returns (demands: seq<Demand>)
    ensures demands == Demands(pods)
  {
    demands := [];
    for i := 0 to |pods|
      invariant demands == Demands(pods[..i])
    {
      assert pods[..i + 1][..i] == pods[..i];
      var cpu, mem := GetRequestedResources(pods[i]);
      if cpu == 0 && mem == 0 {
        continue;
      }
      demands := demands + [Demand(pods[i], cpu, mem)];
    }
    assert pods[..|pods|] == pods;
  }

  /** `buckets` are the remainders of `bins`. */
  ghost predicate Remainders(buckets: seq<Size>, bins: seq<Bin>) {
    |buckets| == |bins| && forall j :: 0 <= j < |bins| ==> buckets[j] == Free(bins[j])
  }

  lemma FreeAfterLoad(b: Bin, d: Demand)
    ensures Free(Bin(b.size, b.load + [d])) == Size(Free(b).cpu - d.cpu, Free(b).mem - d.mem)
  {
    SumSnoc(b.load, d, Cpu);
    SumSnoc(b.load, d, Mem);
  }

  lemma RemaindersAfterLoad(buckets: seq<Size>, bins: seq<Bin>, i: nat, d: Demand)
    requires Remainders(buckets, bins) && i < |bins|
    ensures Remainders(buckets[i := Size(buckets[i].cpu - d.cpu, buckets[i].mem - d.mem)],
                       bins[i := Bin(bins[i].size, bins[i].load + [d])])
  {
    FreeAfterLoad(bins[i], d);
  }

  lemma FirstFitAt(bins: seq<Bin>, d: Demand, i: nat)
    requires i <= |bins| && (i < |bins| ==> Fits(d, Free(bins[i])))
    requires forall j :: 0 <= j < i ==> !Fits(d, Free(bins[j]))
    ensures FirstFit(bins, d) == i
  {
  }

  /** The scan over the remainders: takes the demand from the first bucket with room for it. */
  method TakeFirstFit(initial: seq<Size>, demand: Demand, ghost bins: seq<Bin>)
    returns (buckets: seq<Size>, placed: bool)
    requires Remainders(initial, bins)
    ensures placed == (FirstFit(bins, demand) < |bins|)
    ensures !placed ==> buckets == initial
    ensures placed ==>
      var i := FirstFit(bins, demand);
      Remainders(buckets, bins[i := Bin(bins[i].size, bins[i].load + [demand])])
  {
    buckets := initial;
    for i := 0 to |buckets|
      invariant buckets == initial
      invariant forall j :: 0 <= j < i ==> !Fits(demand, Free(bins[j]))
    {
      if buckets[i].cpu >= demand.cpu && buckets[i].mem >= demand.mem {
        FirstFitAt(bins, demand, i);
        RemaindersAfterLoad(initial, bins, i, demand);
        buckets := buckets[i := Size(buckets[i].cpu - demand.cpu, buckets[i].mem - demand.mem)];
        return buckets, true;
      }
    }
    FirstFitAt(bins, demand, |bins|);
    return buckets, false;
  }

  /** The claim opened for a demand that fits nowhere, and what the demand leaves of it. */
  method OpenClaim(demand: Demand, template: Size) returns (bucket: Size, claim: ClaimResources)
    ensures bucket == Free(OpenFor(demand, template))
    ensures claim == RoundUp(OpenFor(demand, template).size)
  {
    var capacityCpu := template.cpu;
    if capacityCpu < demand.cpu {
      capacityCpu := demand.cpu;
    }
    var capacityMem := template.mem;
    if capacityMem < demand.mem {
      capacityMem := demand.mem;
    }
    assert OpenFor(demand, template) == Bin(Size(capacityCpu, capacityMem), [demand]);
    bucket := Size(capacityCpu - demand.cpu, capacityMem - demand.mem);
    assert bucket == Free(OpenFor(demand, template)) by {
      FreeAfterLoad(Bin(Size(capacityCpu, capacityMem), []), demand);
      assert [] + [demand] == [demand];
    }
    claim := RoundUp(Size(capacityCpu, capacityMem));
  }

  /** `claims` are the rounded sizes of the bins from `from` on. */
  ghost predicate Sizes(claims: seq<ClaimResources>, bins: seq<Bin>, from: nat) {
    from + |claims| == |bins| &&
    forall j :: 0 <= j < |claims| ==> claims[j] == RoundUp(bins[from + j].size)
  }

  lemma SizesAfterPlace(claims: seq<ClaimResources>, bins: seq<Bin>, from: nat, d: Demand, template: Size)
    requires Sizes(claims, bins, from)
    ensures FirstFit(bins, d) < |bins| ==> Sizes(claims, Place(bins, d, template), from)
    ensures FirstFit(bins, d) == |bins| ==>
      Sizes(claims + [RoundUp(OpenFor(d, template).size)], Place(bins, d, template), from)
  {
  }

  lemma SizesAreClaims(claims: seq<ClaimResources>, bins: seq<Bin>, from: nat)
    requires Sizes(claims, bins, from)
    ensures claims == ClaimsFor(bins[from..])
  {
  }

  /** The outer loop over the sorted demands. */
  method PlanDemands(demands: seq<Demand>, initial: seq<Size>, template: Size)
    returns (newClaims: seq<ClaimResources>)
    ensures Sizes(newClaims, Pack(EmptyBins(initial), demands, template), |initial|)
  {
    var buckets := initial;
    newClaims := [];
    ghost var empty := EmptyBins(initial);
    ghost var bins := empty;
    for n := 0 to |demands|
      invariant bins == Pack(empty, demands[..n], template)
      invariant Remainders(buckets, bins)
      invariant Sizes(newClaims, bins, |initial|)
    {
      var demand := demands[n];
      assert demands[..n + 1][..n] == demands[..n];
      SizesAfterPlace(newClaims, bins, |initial|, demand, template);
      var placed;
      buckets, placed := TakeFirstFit(buckets, demand, bins);
      bins := Place(bins, demand, template);
      if placed {
        continue;
      }
      var bucket, claim := OpenClaim(demand, template);
      buckets := buckets + [bucket];
      newClaims := newClaims + [claim];
    }
    assert demands[..|demands|] == demands;
  }

  /**
   Runs on remainders only, decrementing them in place and appending new ones, and yields one
   claim per bin that `Plan` opens.
   */
  method PlanCapacity(pods: seq<Pod>, initial: seq<Size>, template: Size)
    returns (newClaims: seq<ClaimResources>)
    ensures newClaims == ClaimsFor(NewBins(pods, initial, template))
  {
    var demands := CollectDemands(pods);
    demands := SortByCpu(demands);
    newClaims := PlanDemands(demands, initial, template);
    SizesAreClaims(newClaims, Plan(pods, initial, template), |initial|);
  }
}
