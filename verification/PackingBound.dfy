/** What every run of the scale-up planner guarantees about the claims it opens. */
module PackingBound {
  import opened Common
  import opened KubeObjects
  import opened CapacityPlanner

  // ----- the sort

  ghost predicate Descending(ds: seq<Demand>) {
    forall i, j :: 0 <= i < j < |ds| ==> ds[i].cpu >= ds[j].cpu
  }

  function WithCpu(ds: seq<Demand>, c: int): seq<Demand> {
    if ds == [] then []
    else if ds[0].cpu == c then [ds[0]] + WithCpu(ds[1..], c)
    else WithCpu(ds[1..], c)
  }

  lemma {:induction false} InsertPermutes(d: Demand, ds: seq<Demand>)
    ensures multiset(Insert(d, ds)) == multiset{d} + multiset(ds)
  {
    if ds != [] && d.cpu < ds[0].cpu {
      InsertPermutes(d, ds[1..]);
      assert ds == [ds[0]] + ds[1..];
    }
  }

  lemma {:induction false} InsertKeepsOrder(d: Demand, ds: seq<Demand>)
    requires Descending(ds)
    ensures Descending(Insert(d, ds))
    ensures Insert(d, ds)[0] == if ds == [] || d.cpu >= ds[0].cpu then d else ds[0]
  {
    if ds != [] && d.cpu < ds[0].cpu {
      InsertKeepsOrder(d, ds[1..]);
    }
  }

  lemma {:induction false} InsertKeepsTies(d: Demand, ds: seq<Demand>, c: int)
    ensures WithCpu(Insert(d, ds), c) == if d.cpu == c then [d] + WithCpu(ds, c) else WithCpu(ds, c)
  {
    if ds == [] || d.cpu >= ds[0].cpu {
      assert ([d] + ds)[1..] == ds;
    } else {
      InsertKeepsTies(d, ds[1..], c);
      assert ([ds[0]] + Insert(d, ds[1..]))[1..] == Insert(d, ds[1..]);
    }
  }

  /** The planner's order is a rearrangement by descending CPU ... */
  lemma {:induction false} SortOrders(ds: seq<Demand>)
    ensures multiset(SortByCpu(ds)) == multiset(ds)
    ensures Descending(SortByCpu(ds))
  {
    if ds != [] {
      SortOrders(ds[1..]);
      InsertPermutes(ds[0], SortByCpu(ds[1..]));
      InsertKeepsOrder(ds[0], SortByCpu(ds[1..]));
      assert ds == [ds[0]] + ds[1..];
    }
  }

  /** ... that leaves pods of equal CPU in the order they were listed. */
  lemma {:induction false} SortIsStable(ds: seq<Demand>, c: int)
    ensures WithCpu(SortByCpu(ds), c) == WithCpu(ds, c)
  {
    if ds != [] {
      SortIsStable(ds[1..], c);
      InsertKeepsTies(ds[0], SortByCpu(ds[1..]), c);
    }
  }

  // ----- conservation

  /** Every pod in the bins, bin by bin. */
  function Flatten(bins: seq<Bin>): seq<Demand> {
    if bins == [] then [] else Flatten(bins[..|bins| - 1]) + bins[|bins| - 1].load
  }

  lemma {:induction false} FlattenUpdate(bins: seq<Bin>, i: nat, d: Demand)
    requires i < |bins|
    ensures multiset(Flatten(bins[i := Bin(bins[i].size, bins[i].load + [d])]))
         == multiset(Flatten(bins)) + multiset{d}
  {
    var n := |bins| - 1;
    var updated := bins[i := Bin(bins[i].size, bins[i].load + [d])];
    if i == n {
      assert updated[..n] == bins[..n];
    } else {
      assert updated[..n] == bins[..n][i := Bin(bins[i].size, bins[i].load + [d])];
      FlattenUpdate(bins[..n], i, d);
    }
  }

  lemma PlaceConserves(bins: seq<Bin>, d: Demand, template: Size)
    ensures multiset(Flatten(Place(bins, d, template))) == multiset(Flatten(bins)) + multiset{d}
  {
    var i := FirstFit(bins, d);
    if i < |bins| {
      FlattenUpdate(bins, i, d);
    } else {
      assert (bins + [OpenFor(d, template)])[..|bins|] == bins;
    }
  }

  ghost predicate NoOvercommit(b: Bin) {
    b.load != [] ==> Free(b).cpu >= 0 && Free(b).mem >= 0
  }

  /**
   The state of a packing run that started with `buckets` bins: a bin that holds a pod is not
   overfull, the bins beyond the first `buckets` are new ones sized for the pod that opened them,
   and that pod fits in no earlier bin even now.
   */
  ghost predicate WellPacked(bins: seq<Bin>, buckets: nat, template: Size) {
    && buckets <= |bins|
    && (forall i :: 0 <= i < |bins| ==> NoOvercommit(bins[i]))
    && (forall j :: buckets <= j < |bins| ==>
          bins[j].load != [] && bins[j].size == OpenFor(bins[j].load[0], template).size)
    && (forall i, j :: 0 <= i < j && buckets <= j < |bins| ==>
          bins[j].load != [] && !Fits(bins[j].load[0], Free(bins[i])))
  }

  lemma PlaceIntoKeepsWellPacked(bins: seq<Bin>, buckets: nat, d: Demand, template: Size, k: nat)
    requires WellPacked(bins, buckets, template)
    requires k < |bins| && Fits(d, Free(bins[k]))
    ensures WellPacked(bins[k := Bin(bins[k].size, bins[k].load + [d])], buckets, template)
  {
    var b := Bin(bins[k].size, bins[k].load + [d]);
    FreeAfterLoad(bins[k], d);
    var after := bins[k := b];
    forall i, j | 0 <= i < j && buckets <= j < |after|
      ensures after[j].load != [] && !Fits(after[j].load[0], Free(after[i]))
    {
      assert after[j].load[0] == bins[j].load[0];
      assert !Fits(bins[j].load[0], Free(bins[i]));
    }
  }

  lemma OpenKeepsWellPacked(bins: seq<Bin>, buckets: nat, d: Demand, template: Size)
    requires WellPacked(bins, buckets, template)
    requires forall i :: 0 <= i < |bins| ==> !Fits(d, Free(bins[i]))
    ensures WellPacked(bins + [OpenFor(d, template)], buckets, template)
  {
    var b := OpenFor(d, template);
    FreeAfterLoad(Bin(b.size, []), d);
    assert [] + [d] == [d];
  }

  /** The invariant of every planning run, and that it neither loses, invents nor copies a pod. */
  lemma {:induction false} PackInvariant(bins: seq<Bin>, ds: seq<Demand>, template: Size)
    requires forall b :: b in bins ==> b.load == []
    ensures WellPacked(Pack(bins, ds, template), |bins|, template)
    ensures multiset(Flatten(Pack(bins, ds, template))) == multiset(ds)
    ensures forall i :: 0 <= i < |bins| ==> Pack(bins, ds, template)[i].size == bins[i].size
  {
    if ds == [] {
      FlattenEmpty(bins);
      forall i | 0 <= i < |bins| ensures NoOvercommit(bins[i]) {
        assert bins[i] in bins;
      }
    } else {
      var init, d := ds[..|ds| - 1], ds[|ds| - 1];
      assert ds == init + [d];
      PackInvariant(bins, init, template);
      var before := Pack(bins, init, template);
      PlaceConserves(before, d, template);
      var i := FirstFit(before, d);
      if i < |before| {
        PlaceIntoKeepsWellPacked(before, |bins|, d, template, i);
      } else {
        OpenKeepsWellPacked(before, |bins|, d, template);
      }
    }
  }

  lemma {:induction false} FlattenEmpty(bins: seq<Bin>)
    requires forall b :: b in bins ==> b.load == []
    ensures Flatten(bins) == []
  {
    if bins != [] {
      assert bins[|bins| - 1] in bins;
      FlattenEmpty(bins[..|bins| - 1]);
    }
  }

  lemma CeilDivCovers(x: int, unit: int)
    requires unit > 0
    ensures x <= CeilDiv(x, unit) * unit < x + unit
  {
    var y := x + unit - 1;
    assert y == unit * (y / unit) + y % unit;
  }

  /** A bin that is not overfull is covered by its claim, with less than one unit to spare. */
  lemma ClaimCovers(b: Bin)
    requires b.load != [] && NoOvercommit(b)
    ensures TotalCpu(b.load) <= b.size.cpu <= RoundUp(b.size).cpuCores * MILLI < b.size.cpu + MILLI
    ensures TotalMem(b.load) <= b.size.mem <= RoundUp(b.size).memoryMiB * MIB < b.size.mem + MIB
  {
    CeilDivCovers(b.size.cpu, MILLI);
    CeilDivCovers(b.size.mem, MIB);
  }

  /**
   Soundness of a whole plan. The bins hold exactly the pods that request something, each once;
   a bucket that received pods kept a non-negative remainder of the room it started with; and a
   new claim was opened only for a pod that fits nowhere before it.
   */
  lemma PlanIsSound(pods: seq<Pod>, buckets: seq<Size>, template: Size)
    ensures multiset(Flatten(Plan(pods, buckets, template))) == multiset(Demands(pods))
    ensures WellPacked(Plan(pods, buckets, template), |buckets|, template)
    ensures forall i :: 0 <= i < |buckets| ==> Plan(pods, buckets, template)[i].size == buckets[i]
  {
    PackInvariant(EmptyBins(buckets), SortByCpu(Demands(pods)), template);
    SortOrders(Demands(pods));
  }

  /**
   Each claim the planner asks for covers its pods in whole cores and MiB, and exceeds the
   capacity it was planned with by less than one core and one MiB.
   */
  lemma PlannedClaimsCover(pods: seq<Pod>, buckets: seq<Size>, template: Size, j: nat)
    requires j < |NewBins(pods, buckets, template)|
    ensures
      var b := NewBins(pods, buckets, template)[j];
      var claim := ClaimsFor(NewBins(pods, buckets, template))[j];
      && TotalCpu(b.load) <= b.size.cpu <= claim.cpuCores * MILLI < b.size.cpu + MILLI
      && TotalMem(b.load) <= b.size.mem <= claim.memoryMiB * MIB < b.size.mem + MIB
  {
    var b := NewBins(pods, buckets, template)[j];
    assert b.load != [] && NoOvercommit(b) by {
      PlanIsSound(pods, buckets, template);
      assert b == Plan(pods, buckets, template)[|buckets| + j];
    }
    ClaimCovers(b);
  }

  // ----- how many claims are opened

  /** CPU and memory of a pod list on one scale: a full template weighs `cpu * mem` in either. */
  function Weight(ds: seq<Demand>, t: Size): int {
    t.mem * TotalCpu(ds) + t.cpu * TotalMem(ds)
  }

  lemma WeightConcat(s: seq<Demand>, u: seq<Demand>, t: Size)
    ensures Weight(s + u, t) == Weight(s, t) + Weight(u, t)
  {
    SumConcat(s, u, Cpu);
    SumConcat(s, u, Mem);
  }

  lemma WeightNonNegative(ds: seq<Demand>, t: Size)
    requires t.cpu >= 0 && t.mem >= 0
    ensures TotalCpu(ds) >= 0 && TotalMem(ds) >= 0 && Weight(ds, t) >= 0
  {
    SumNonNegative(ds, Cpu);
    SumNonNegative(ds, Mem);
  }

  lemma FirstIsPart(ds: seq<Demand>)
    requires ds != []
    ensures TotalCpu(ds) >= ds[0].cpu && TotalMem(ds) >= ds[0].mem
  {
    assert ds == [ds[0]] + ds[1..];
    SumConcat([ds[0]], ds[1..], Cpu);
    SumConcat([ds[0]], ds[1..], Mem);
    SumSnoc([], ds[0], Cpu);
    SumSnoc([], ds[0], Mem);
    assert [] + [ds[0]] == [ds[0]];
    WeightNonNegative(ds[1..], Size(0, 0));
  }

  /** Two new claims together always carry a template's worth of CPU or of memory. */
  lemma PairIsHeavy(bins: seq<Bin>, buckets: nat, template: Size, i: nat, j: nat)
    requires WellPacked(bins, buckets, template)
    requires template.cpu > 0 && template.mem > 0
    requires buckets <= i < j < |bins|
    ensures Weight(bins[i].load, template) + Weight(bins[j].load, template) >= template.cpu * template.mem
  {
    var x, y := bins[i].load, bins[j].load;
    assert !Fits(y[0], Free(bins[i]));
    FirstIsPart(y);
    SumConcat(x, y, Cpu);
    SumConcat(x, y, Mem);
    HeavyLoad(x + y, template);
    WeightConcat(x, y, template);
  }

  /** A load that fills a template in one resource weighs as much as the template. */
  lemma HeavyLoad(ds: seq<Demand>, t: Size)
    requires t.cpu >= 0 && t.mem >= 0
    requires TotalCpu(ds) >= t.cpu || TotalMem(ds) >= t.mem
    ensures Weight(ds, t) >= t.cpu * t.mem
  {
    WeightNonNegative(ds, t);
    if TotalCpu(ds) >= t.cpu {
      MulMonotone(t.mem, t.cpu, TotalCpu(ds));
      MulMonotone(t.cpu, 0, TotalMem(ds));
    } else {
      MulMonotone(t.cpu, t.mem, TotalMem(ds));
      MulMonotone(t.mem, 0, TotalCpu(ds));
    }
  }

  lemma MulMonotone(k: int, a: int, b: int)
    requires k >= 0 && a <= b
    ensures k * a <= k * b
  {
  }

  /** Half a template's weight for each of `k` claims, rounded down to pairs. */
  function PairWeight(k: int, t: Size): int {
    (k / 2) * (t.cpu * t.mem)
  }

  lemma PairWeightStep(k: int, t: Size)
    ensures PairWeight(k, t) == PairWeight(k - 2, t) + t.cpu * t.mem
  {
    assert k / 2 == (k - 2) / 2 + 1;
  }

  /** New claims come in heavy pairs, so the load carries half a template's weight per claim. */
  lemma {:induction false} PairsAreHeavy(bins: seq<Bin>, buckets: nat, template: Size)
    requires WellPacked(bins, buckets, template)
    requires template.cpu > 0 && template.mem > 0
    ensures PairWeight(|bins| - buckets, template) <= Weight(Flatten(bins), template)
    decreases |bins|
  {
    var n := |bins|;
    if n - buckets < 2 {
      WeightNonNegative(Flatten(bins), template);
    } else {
      var rest := bins[..n - 2];
      assert WellPacked(rest, buckets, template);
      PairsAreHeavy(rest, buckets, template);
      PairIsHeavy(bins, buckets, template, n - 2, n - 1);
      assert bins[..n - 1][..n - 2] == rest;
      assert Flatten(bins) == (Flatten(rest) + bins[n - 2].load) + bins[n - 1].load;
      WeightConcat(Flatten(rest) + bins[n - 2].load, bins[n - 1].load, template);
      WeightConcat(Flatten(rest), bins[n - 2].load, template);
      PairWeightStep(n - buckets, template);
    }
  }

  lemma WeightOfPermutation(s: seq<Demand>, u: seq<Demand>, t: Size)
    requires multiset(s) == multiset(u)
    ensures Weight(s, t) == Weight(u, t)
  {
    SumPermutation(s, u, Cpu);
    SumPermutation(s, u, Mem);
  }

  lemma NewBinsCount(pods: seq<Pod>, buckets: seq<Size>, template: Size)
    ensures |Plan(pods, buckets, template)| == |buckets| + |NewBins(pods, buckets, template)|
  {
    PackOnlyAppends(EmptyBins(buckets), SortByCpu(Demands(pods)), template);
  }

  /**
   The packing bound: k new claims imply floor(k/2) * C * M <= M * (total CPU) + C * (total memory)
   for every list of pods, every set of existing buckets and every template (C, M), also when
   single pods are larger than the template.
   */
  lemma PlanPackingBound(pods: seq<Pod>, buckets: seq<Size>, template: Size)
    requires template.cpu > 0 && template.mem > 0
    ensures PairWeight(|NewBins(pods, buckets, template)|, template) <= Weight(Demands(pods), template)
  {
    var bins := Plan(pods, buckets, template);
    NewBinsCount(pods, buckets, template);
    PlanIsSound(pods, buckets, template);
    PairsAreHeavy(bins, |buckets|, template);
    WeightOfPermutation(Flatten(bins), Demands(pods), template);
    SameBound(|bins| - |buckets|, |NewBins(pods, buckets, template)|, template,
              Weight(Flatten(bins), template), Weight(Demands(pods), template));
  }

  lemma SameBound(j: int, k: int, t: Size, v: int, w: int)
    requires j == k && v == w && PairWeight(j, t) <= v
    ensures PairWeight(k, t) <= w
  {
  }

  // ----- comparison with the best possible packing

  /** The demands that `assignment` sends to node `b`. */
  function Assigned(ds: seq<Demand>, assignment: seq<nat>, b: nat): seq<Demand>
    requires |assignment| == |ds|
  {
    if ds == [] then []
    else
      var n := |ds| - 1;
      Assigned(ds[..n], assignment[..n], b) + (if assignment[n] == b then [ds[n]] else [])
  }

  /** `assignment` packs all of `ds` into `nodes` nodes of the template's size. */
  ghost predicate PacksInto(ds: seq<Demand>, assignment: seq<nat>, nodes: nat, template: Size) {
    && |assignment| == |ds|
    && (forall i :: 0 <= i < |ds| ==> assignment[i] < nodes)
    && forall b: nat :: b < nodes ==>
         && TotalCpu(Assigned(ds, assignment, b)) <= template.cpu
         && TotalMem(Assigned(ds, assignment, b)) <= template.mem
  }

  /** Total weight of the demands sent to nodes below `nodes`. */
  function AssignedWeight(ds: seq<Demand>, assignment: seq<nat>, nodes: nat, t: Size): int
    requires |assignment| == |ds|
  {
    if nodes == 0 then 0
    else AssignedWeight(ds, assignment, nodes - 1, t) + Weight(Assigned(ds, assignment, nodes - 1), t)
  }

  lemma {:induction false} AssignedWeightStep(ds: seq<Demand>, assignment: seq<nat>, nodes: nat, t: Size)
    requires |assignment| == |ds| > 0
    ensures
      var n := |ds| - 1;
      AssignedWeight(ds, assignment, nodes, t)
      == AssignedWeight(ds[..n], assignment[..n], nodes, t)
         + (if assignment[n] < nodes then Weight([ds[n]], t) else 0)
    decreases nodes
  {
    if nodes > 0 {
      var n := |ds| - 1;
      AssignedWeightStep(ds, assignment, nodes - 1, t);
      var init := Assigned(ds[..n], assignment[..n], nodes - 1);
      if assignment[n] == nodes - 1 {
        WeightConcat(init, [ds[n]], t);
      } else {
        assert init + [] == init;
      }
    }
  }

  lemma {:induction false} AssignmentKeepsWeight(ds: seq<Demand>, assignment: seq<nat>, nodes: nat, t: Size)
    requires |assignment| == |ds|
    requires forall i :: 0 <= i < |ds| ==> assignment[i] < nodes
    ensures AssignedWeight(ds, assignment, nodes, t) == Weight(ds, t)
    decreases |ds|
  {
    if ds == [] {
      NothingAssigned(ds, assignment, nodes, t);
    } else {
      var n := |ds| - 1;
      AssignmentKeepsWeight(ds[..n], assignment[..n], nodes, t);
      AssignedWeightStep(ds, assignment, nodes, t);
      assert ds == ds[..n] + [ds[n]];
      WeightConcat(ds[..n], [ds[n]], t);
    }
  }

  lemma {:induction false} NothingAssigned(ds: seq<Demand>, assignment: seq<nat>, nodes: nat, t: Size)
    requires |assignment| == |ds| == 0
    ensures AssignedWeight(ds, assignment, nodes, t) == 0
    decreases nodes
  {
    if nodes > 0 {
      NothingAssigned(ds, assignment, nodes - 1, t);
    }
  }

  lemma LoadIsAtMostDouble(load: seq<Demand>, t: Size)
    requires t.cpu >= 0 && t.mem >= 0
    requires TotalCpu(load) <= t.cpu && TotalMem(load) <= t.mem
    ensures Weight(load, t) <= 2 * (t.cpu * t.mem)
  {
    MulMonotone(t.mem, TotalCpu(load), t.cpu);
    MulMonotone(t.cpu, TotalMem(load), t.mem);
  }

  lemma DoubleStep(n: int, w: int)
    ensures 2 * n * w == 2 * (n - 1) * w + 2 * w
  {
  }

  lemma {:induction false} FullNodesBound(ds: seq<Demand>, assignment: seq<nat>, nodes: nat, n: nat, t: Size)
    requires t.cpu >= 0 && t.mem >= 0 && n <= nodes
    requires PacksInto(ds, assignment, nodes, t)
    ensures AssignedWeight(ds, assignment, n, t) <= 2 * n * (t.cpu * t.mem)
    decreases n
  {
    if n > 0 {
      FullNodesBound(ds, assignment, nodes, n - 1, t);
      LoadIsAtMostDouble(Assigned(ds, assignment, n - 1), t);
      DoubleStep(n, t.cpu * t.mem);
    }
  }

  lemma CancelPositive(a: int, b: int, w: int)
    requires w > 0 && a * w <= b * w
    ensures a <= b
  {
    if b < a {
      MulMonotone(w, b + 1, a);
    }
  }

  /**
   The planner is never far from the best plan: if the requesting pods can be packed into `nodes`
   fresh template-sized nodes in any way at all, then it opens at most 4 * nodes + 1 claims.
   */
  lemma PlanCompetesWithOptimum(
    pods: seq<Pod>, buckets: seq<Size>, template: Size, assignment: seq<nat>, nodes: nat)
    requires template.cpu > 0 && template.mem > 0
    requires PacksInto(Demands(pods), assignment, nodes, template)
    ensures |NewBins(pods, buckets, template)| <= 4 * nodes + 1
  {
    var ds, k := Demands(pods), |NewBins(pods, buckets, template)|;
    PlanPackingBound(pods, buckets, template);
    AssignmentKeepsWeight(ds, assignment, nodes, template);
    FullNodesBound(ds, assignment, nodes, nodes, template);
    var w := template.cpu * template.mem;
    assert w > 0 by { MulMonotone(template.cpu, 1, template.mem); }
    CancelPositive(k / 2, 2 * nodes, w);
  }
}
