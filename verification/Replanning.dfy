/** What the planner does when it is asked again for the same pods, with its own new claims among the buckets. */
module Replanning {
  import opened Common
  import opened KubeObjects
  import opened CapacityPlanner
  import opened PackingBound

  // ----- a plan replayed on its own bins

  function SizesOf(bins: seq<Bin>): seq<Size> {
    seq(|bins|, j requires 0 <= j < |bins| => bins[j].size)
  }

  lemma PlaceKeepsSizes(bins: seq<Bin>, d: Demand, template: Size)
    ensures SizesOf(bins) <= SizesOf(Place(bins, d, template))
  {
    assert |SizesOf(bins)| <= |SizesOf(Place(bins, d, template))|;
  }

  lemma EmptyHasRoom(size: Size, d: Demand)
    ensures Fits(d, Free(Bin(size, []))) <==> size.cpu >= d.cpu && size.mem >= d.mem
  {
  }

  /** The bins so far, followed by empty ones of the sizes that are still to come. */
  function Ahead(bins: seq<Bin>, sizes: seq<Size>): seq<Bin>
    requires |bins| <= |sizes|
  {
    bins + EmptyBins(sizes[|bins|..])
  }

  /** Where the first run opens a bin, the replay finds it there, empty and of the same size. */
  lemma ReplayPlace(bins: seq<Bin>, d: Demand, sizes: seq<Size>, template: Size, later: Size)
    requires SizesOf(Place(bins, d, template)) <= sizes && |bins| <= |sizes|
    ensures Place(Ahead(bins, sizes), d, later) == Ahead(Place(bins, d, template), sizes)
  {
    var i, all, after := FirstFit(bins, d), Ahead(bins, sizes), Place(bins, d, template);
    if i == |bins| {
      assert SizesOf(after)[i] == after[i].size == OpenFor(d, template).size;
      EmptyHasRoom(sizes[i], d);
      assert all[i] == Bin(sizes[i], []);
    }
    assert forall j :: 0 <= j < |bins| ==> all[j] == bins[j];
    FirstFitAt(all, d, i);
    assert [] + [d] == [d];
    assert Place(all, d, later) == all[i := Bin(all[i].size, all[i].load + [d])] == Ahead(after, sizes);
  }

  lemma {:induction false} Replay(buckets: seq<Size>, ds: seq<Demand>, sizes: seq<Size>, template: Size, later: Size)
    requires SizesOf(Pack(EmptyBins(buckets), ds, template)) <= sizes
    ensures Pack(EmptyBins(sizes), ds, later) == Ahead(Pack(EmptyBins(buckets), ds, template), sizes)
  {
    if ds == [] {
      assert forall j :: 0 <= j < |buckets| ==> SizesOf(EmptyBins(buckets))[j] == sizes[j];
      assert EmptyBins(sizes) == Ahead(EmptyBins(buckets), sizes);
    } else {
      var init, d := ds[..|ds| - 1], ds[|ds| - 1];
      var before := Pack(EmptyBins(buckets), init, template);
      PlaceKeepsSizes(before, d, template);
      Replay(buckets, init, sizes, template, later);
      ReplayPlace(before, d, sizes, template, later);
    }
  }

  /**
   Asked again for the same pods, with the bins of its first plan as the first buckets and any others behind them,
   the planner opens nothing, whatever the template is by then.
   */
  lemma ReplanOpensNothing(pods: seq<Pod>, buckets: seq<Size>, sizes: seq<Size>, template: Size, later: Size)
    requires SizesOf(Plan(pods, buckets, template)) <= sizes
    ensures NewBins(pods, sizes, later) == []
  {
    Replay(buckets, SortByCpu(Demands(pods)), sizes, template, later);
  }

  // ----- the claims that are really there the second time are rounded

  function RoundedSize(size: Size): Size {
    Size(RoundUp(size).cpuCores * MILLI, RoundUp(size).memoryMiB * MIB)
  }

  /** What the planner's own claims add to the buckets once they exist. */
  function ClaimedSizes(pods: seq<Pod>, buckets: seq<Size>, template: Size): seq<Size> {
    var bins := NewBins(pods, buckets, template);
    seq(|bins|, j requires 0 <= j < |bins| => RoundedSize(bins[j].size))
  }

  predicate Whole(size: Size) {
    size.cpu % MILLI == 0 && size.mem % MIB == 0
  }

  lemma RoundingIsIdleIffWhole(size: Size)
    ensures RoundedSize(size) == size <==> Whole(size)
    ensures size.cpu <= RoundedSize(size).cpu < size.cpu + MILLI && size.mem <= RoundedSize(size).mem < size.mem + MIB
  {
    CeilDivCovers(size.cpu, MILLI);
    CeilDivCovers(size.mem, MIB);
  }

  /** The planner opens nothing when asked again with the claims it asked for behind the older buckets. */
  ghost predicate Quiet(pods: seq<Pod>, buckets: seq<Size>, template: Size, later: Size) {
    NewBins(pods, buckets + ClaimedSizes(pods, buckets, template), later) == []
  }

  lemma SizesInTwoParts(pods: seq<Pod>, buckets: seq<Size>, template: Size)
    ensures SizesOf(Plan(pods, buckets, template)) == buckets + SizesOf(NewBins(pods, buckets, template))
  {
    NewBinsCount(pods, buckets, template);
    PlanIsSound(pods, buckets, template);
    SizesFrom(Plan(pods, buckets, template), buckets);
  }

  lemma SizesFrom(bins: seq<Bin>, buckets: seq<Size>)
    requires |buckets| <= |bins| && forall j :: 0 <= j < |buckets| ==> bins[j].size == buckets[j]
    ensures SizesOf(bins) == buckets + SizesOf(bins[|buckets|..])
  {
  }

  /** Claims in whole cores and MiB are what was planned with; listed last, they make the second plan open nothing. */
  lemma WholeClaimsAreQuiet(pods: seq<Pod>, buckets: seq<Size>, template: Size, later: Size)
    requires forall b :: b in NewBins(pods, buckets, template) ==> Whole(b.size)
    ensures ClaimedSizes(pods, buckets, template) == SizesOf(NewBins(pods, buckets, template))
    ensures Quiet(pods, buckets, template, later)
  {
    var bins := NewBins(pods, buckets, template);
    forall j | 0 <= j < |bins| ensures RoundedSize(bins[j].size) == bins[j].size {
      assert bins[j] in bins;
      RoundingIsIdleIffWhole(bins[j].size);
    }
    SizesInTwoParts(pods, buckets, template);
    ReplanOpensNothing(pods, buckets, buckets + ClaimedSizes(pods, buckets, template), template, later);
  }

  // ----- which templates are safe

  /** No pod is larger than the template. */
  predicate FitAlone(pods: seq<Pod>, template: Size) {
    forall p :: p in pods ==> RequestedCpu(p) <= template.cpu && RequestedMem(p) <= template.mem
  }

  predicate DemandsFitAlone(ds: seq<Demand>, template: Size) {
    forall d :: d in ds ==> d.cpu <= template.cpu && d.mem <= template.mem
  }

  lemma {:induction false} DemandsOfFitting(pods: seq<Pod>, template: Size)
    requires FitAlone(pods, template)
    ensures DemandsFitAlone(Demands(pods), template)
  {
    if pods != [] {
      var init, p := pods[..|pods| - 1], pods[|pods| - 1];
      DemandsOfFitting(init, template);
      assert p in pods;
    }
  }

  ghost predicate TemplatesFrom(bins: seq<Bin>, from: nat, template: Size) {
    forall j :: from <= j < |bins| ==> bins[j].size == template
  }

  lemma {:induction false} NewBinsAreTemplates(buckets: seq<Size>, ds: seq<Demand>, template: Size)
    requires DemandsFitAlone(ds, template)
    ensures TemplatesFrom(Pack(EmptyBins(buckets), ds, template), |buckets|, template)
  {
    if ds != [] {
      var init, d := ds[..|ds| - 1], ds[|ds| - 1];
      assert d in ds;
      NewBinsAreTemplates(buckets, init, template);
    }
  }

  lemma AllFrom(bins: seq<Bin>, from: nat, template: Size)
    requires from <= |bins| && TemplatesFrom(bins, from, template)
    ensures forall b :: b in bins[from..] ==> b.size == template
  {
  }

  lemma FittingPodsOpenTemplates(pods: seq<Pod>, buckets: seq<Size>, template: Size)
    requires FitAlone(pods, template)
    ensures forall b :: b in NewBins(pods, buckets, template) ==> b.size == template
  {
    var ds := SortByCpu(Demands(pods));
    DemandsOfFitting(pods, template);
    SortOrders(Demands(pods));
    assert forall d :: d in ds ==> d in multiset(ds);
    NewBinsAreTemplates(buckets, ds, template);
    NewBinsCount(pods, buckets, template);
    AllFrom(Plan(pods, buckets, template), |buckets|, template);
  }

  // ----- planning on remainders, to follow a plan step by step

  function FirstRoom(rs: seq<Size>, d: Demand): (i: nat)
    ensures i <= |rs|
    ensures i < |rs| ==> Fits(d, rs[i])
    ensures forall j :: 0 <= j < i ==> !Fits(d, rs[j])
  {
    if rs == [] then 0
    else
      var i := FirstRoom(rs[..|rs| - 1], d);
      if i < |rs| - 1 || Fits(d, rs[|rs| - 1]) then i else |rs|
  }

  function Less(s: Size, d: Demand): Size {
    Size(s.cpu - d.cpu, s.mem - d.mem)
  }

  function PlaceIn(rs: seq<Size>, d: Demand, template: Size): seq<Size> {
    var i := FirstRoom(rs, d);
    if i < |rs| then rs[i := Less(rs[i], d)] else rs + [Less(OpenFor(d, template).size, d)]
  }

  function Fill(rs: seq<Size>, ds: seq<Demand>, template: Size): seq<Size> {
    if ds == [] then rs else PlaceIn(Fill(rs, ds[..|ds| - 1], template), ds[|ds| - 1], template)
  }

  lemma SameFirst(rs: seq<Size>, bins: seq<Bin>, d: Demand)
    requires Remainders(rs, bins)
    ensures FirstRoom(rs, d) == FirstFit(bins, d)
  {
    var i := FirstRoom(rs, d);
    assert forall j :: 0 <= j < i ==> !Fits(d, rs[j]);
    FirstFitAt(bins, d, i);
  }

  lemma OpenedRemainder(d: Demand, template: Size)
    ensures Free(OpenFor(d, template)) == Less(OpenFor(d, template).size, d)
  {
    FreeAfterLoad(Bin(OpenFor(d, template).size, []), d);
    assert [] + [d] == [d];
  }

  lemma PlaceInFollows(rs: seq<Size>, bins: seq<Bin>, d: Demand, template: Size)
    requires Remainders(rs, bins)
    ensures Remainders(PlaceIn(rs, d, template), Place(bins, d, template))
  {
    SameFirst(rs, bins, d);
    if FirstFit(bins, d) < |bins| {
      RemaindersAfterLoad(rs, bins, FirstFit(bins, d), d);
    } else {
      OpenedRemainder(d, template);
    }
  }

  lemma {:induction false} FillFollows(buckets: seq<Size>, ds: seq<Demand>, template: Size)
    ensures Remainders(Fill(buckets, ds, template), Pack(EmptyBins(buckets), ds, template))
  {
    if ds != [] {
      var init, d := ds[..|ds| - 1], ds[|ds| - 1];
      FillFollows(buckets, init, template);
      PlaceInFollows(Fill(buckets, init, template), Pack(EmptyBins(buckets), init, template), d, template);
    }
  }

  /** `rs` turns into `after` when `d` goes into bucket `i`, or opens one if `i` is the end. */
  predicate Goes(rs: seq<Size>, d: Demand, i: nat, template: Size, after: seq<Size>) {
    && i <= |rs| && (i < |rs| ==> Fits(d, rs[i])) && (forall j :: 0 <= j < i ==> !Fits(d, rs[j]))
    && after == if i < |rs| then rs[i := Less(rs[i], d)] else rs + [Less(OpenFor(d, template).size, d)]
  }

  lemma FillStep(
    rs: seq<Size>, ds: seq<Demand>, d: Demand, template: Size, before: seq<Size>, i: nat, after: seq<Size>)
    requires Fill(rs, ds, template) == before && Goes(before, d, i, template, after)
    ensures Fill(rs, ds + [d], template) == after
  {
    assert (ds + [d])[..|ds|] == ds;
    assert FirstRoom(before, d) == i;
  }

  /** `d` into the first of two buckets, into the second, or into a third. */
  lemma GoesFirst(x: Size, y: Size, d: Demand, template: Size)
    requires Fits(d, x)
    ensures Goes([x, y], d, 0, template, [Less(x, d), y])
  {
  }

  lemma GoesSecond(x: Size, y: Size, d: Demand, template: Size)
    requires !Fits(d, x) && Fits(d, y)
    ensures Goes([x, y], d, 1, template, [x, Less(y, d)])
  {
  }

  lemma GoesThird(x: Size, y: Size, d: Demand, template: Size)
    requires !Fits(d, x) && !Fits(d, y)
    ensures Goes([x, y], d, 2, template, [x, y] + [Less(OpenFor(d, template).size, d)])
  {
  }

  lemma GoesAlone(d: Demand, template: Size)
    ensures Goes([], d, 0, template, [Less(OpenFor(d, template).size, d)])
  {
    var x := Less(OpenFor(d, template).size, d);
    assert [] + [x] == [x];
  }

  lemma GoesBehind(x: Size, d: Demand, template: Size)
    requires !Fits(d, x)
    ensures Goes([x], d, 1, template, [x, Less(OpenFor(d, template).size, d)])
  {
    var y := Less(OpenFor(d, template).size, d);
    assert [x] + [y] == [x, y];
  }

  /** `a` and `b` open a bin each. */
  lemma TwoOpen(a: Demand, b: Demand, template: Size)
    requires !Fits(b, Less(OpenFor(a, template).size, a))
    ensures Fill([], [a, b], template) == [Less(OpenFor(a, template).size, a), Less(OpenFor(b, template).size, b)]
  {
    var x := Less(OpenFor(a, template).size, a);
    GoesAlone(a, template);
    FillStep([], [], a, template, [], 0, [x]);
    GoesBehind(x, b, template);
    FillStep([], [a], b, template, [x], 1, [x, Less(OpenFor(b, template).size, b)]);
    assert [] + [a] == [a] && [a] + [b] == [a, b];
  }

  /** `a` and `b` both go into the first of two buckets. */
  lemma TwoJoin(a: Demand, b: Demand, x: Size, y: Size, template: Size)
    requires Fits(a, x) && Fits(b, Less(x, a))
    ensures Fill([x, y], [a, b], template) == [Less(Less(x, a), b), y]
  {
    GoesFirst(x, y, a, template);
    FillStep([x, y], [], a, template, [x, y], 0, [Less(x, a), y]);
    GoesFirst(Less(x, a), y, b, template);
    FillStep([x, y], [a], b, template, [Less(x, a), y], 0, [Less(Less(x, a), b), y]);
    assert [] + [a] == [a] && [a] + [b] == [a, b];
  }

  // ----- pods that ask for given sizes

  function PodOf(cpu: nat, mem: nat): Pod {
    Pod("pod", [Container(cpu, mem)], map[], None, false, false, false, false, Pending)
  }

  function DemandOf(cpu: nat, mem: nat): Demand {
    Demand(PodOf(cpu, mem), cpu, mem)
  }

  function PodsOf(ds: seq<Demand>): seq<Pod> {
    seq(|ds|, k requires 0 <= k < |ds| => ds[k].pod)
  }

  /** Every demand is that of its pod, and asks for something. */
  ghost predicate Genuine(ds: seq<Demand>) {
    forall k :: 0 <= k < |ds| ==> ds[k] == DemandOf(ds[k].cpu, ds[k].mem) && (ds[k].cpu != 0 || ds[k].mem != 0)
  }

  lemma RequestsOfPod(cpu: nat, mem: nat)
    ensures RequestedCpu(PodOf(cpu, mem)) == cpu && RequestedMem(PodOf(cpu, mem)) == mem
  {
    var c := Container(cpu, mem);
    SumSnoc([], c, ContainerCpu);
    SumSnoc([], c, ContainerMem);
    assert [] + [c] == [c];
  }

  lemma {:induction false} DemandsOfPods(ds: seq<Demand>)
    requires Genuine(ds)
    ensures Demands(PodsOf(ds)) == ds
  {
    if ds != [] {
      var n := |ds| - 1;
      DemandsOfPods(ds[..n]);
      assert PodsOf(ds)[..n] == PodsOf(ds[..n]);
      RequestsOfPod(ds[n].cpu, ds[n].mem);
      assert ds == ds[..n] + [ds[n]];
    }
  }

  lemma {:induction false} SortedStays(ds: seq<Demand>)
    requires Descending(ds)
    ensures SortByCpu(ds) == ds
  {
    if ds != [] {
      SortedStays(ds[1..]);
      assert ds == [ds[0]] + ds[1..];
    }
  }

  lemma GenuineFitAlone(ds: seq<Demand>, template: Size)
    requires Genuine(ds) && forall k :: 0 <= k < |ds| ==> ds[k].cpu <= template.cpu && ds[k].mem <= template.mem
    ensures FitAlone(PodsOf(ds), template)
  {
    forall p | p in PodsOf(ds) ensures RequestedCpu(p) <= template.cpu && RequestedMem(p) <= template.mem {
      var k :| 0 <= k < |ds| && PodsOf(ds)[k] == p;
      RequestsOfPod(ds[k].cpu, ds[k].mem);
    }
  }

  /** A plan of sorted demands opens as many bins as the remainders grow by. */
  lemma FillCounts(buckets: seq<Size>, ds: seq<Demand>, template: Size)
    requires Genuine(ds) && Descending(ds)
    ensures |NewBins(PodsOf(ds), buckets, template)| == |Fill(buckets, ds, template)| - |buckets|
  {
    DemandsOfPods(ds);
    SortedStays(ds);
    FillFollows(buckets, ds, template);
    NewBinsCount(PodsOf(ds), buckets, template);
  }

  /** Two template-sized claims the first time, rounded up to `big`, and three bins the second time: not quiet. */
  lemma ThirdBinIsNoise(ds: seq<Demand>, template: Size)
    requires Genuine(ds) && Descending(ds) && FitAlone(PodsOf(ds), template)
    requires |Fill([], ds, template)| == 2
    requires |Fill([RoundedSize(template), RoundedSize(template)], ds, template)| == 3
    ensures !Quiet(PodsOf(ds), [], template, template)
  {
    var pods, big := PodsOf(ds), RoundedSize(template);
    FillCounts([], ds, template);
    FittingPodsOpenTemplates(pods, [], template);
    var bins := NewBins(pods, [], template);
    assert bins[0] in bins && bins[1] in bins;
    assert [] + ClaimedSizes(pods, [], template) == [big, big];
    FillCounts([big, big], ds, template);
  }

  // ----- the two witnesses

  /**
   For a template of broken cores: the second plan has room for the second pod beside the first. `gap` is what
   rounding adds to the memory.
   */
  function CpuNoise(t: Size, gap: nat): seq<Demand>
    requires t.cpu >= 0 && t.mem > 3 * gap + 2
  {
    var rest := t.mem - gap - 1;
    [DemandOf(t.cpu, gap + 1), DemandOf(1, gap + 1), DemandOf(1, rest), DemandOf(0, rest)]
  }

  lemma CpuNoiseFirst(t: Size, gap: nat)
    requires t.cpu >= 2 && t.mem > 3 * gap + 2
    ensures |Fill([], CpuNoise(t, gap), t)| == 2
  {
    var ds := CpuNoise(t, gap);
    var x, y := Less(t, ds[0]), Less(t, ds[1]);
    TwoOpen(ds[0], ds[1], t);
    GoesSecond(x, y, ds[2], t);
    FillStep([], [ds[0], ds[1]], ds[2], t, [x, y], 1, [x, Less(y, ds[2])]);
    GoesFirst(x, Less(y, ds[2]), ds[3], t);
    FillStep([], [ds[0], ds[1]] + [ds[2]], ds[3], t, [x, Less(y, ds[2])], 0, [Less(x, ds[3]), Less(y, ds[2])]);
    assert [ds[0], ds[1]] + [ds[2]] + [ds[3]] == ds;
  }

  lemma CpuNoiseAgain(t: Size, big: Size, gap: nat)
    requires t.cpu >= 2 && t.mem > 3 * gap + 2 && big.cpu > t.cpu && big.mem == t.mem + gap
    ensures |Fill([big, big], CpuNoise(t, gap), t)| == 3
  {
    var ds := CpuNoise(t, gap);
    var x, y := Less(Less(big, ds[0]), ds[1]), Less(big, ds[2]);
    TwoJoin(ds[0], ds[1], big, big, t);
    GoesSecond(x, big, ds[2], t);
    FillStep([big, big], [ds[0], ds[1]], ds[2], t, [x, big], 1, [x, y]);
    GoesThird(x, y, ds[3], t);
    FillStep([big, big], [ds[0], ds[1]] + [ds[2]], ds[3], t, [x, y], 2, [x, y] + [Less(OpenFor(ds[3], t).size, ds[3])]);
    assert [ds[0], ds[1]] + [ds[2]] + [ds[3]] == ds;
  }

  /** For a template of whole cores, eight times `u`, and a broken MiB: again the second pod joins the first. */
  function MemNoise(u: nat, mem: nat): seq<Demand> {
    [DemandOf(4 * u, mem), DemandOf(3 * u, 1), DemandOf(3 * u, 1), DemandOf(2 * u, 0), DemandOf(2 * u, 0),
     DemandOf(2 * u, 0)]
  }

  /** What follows the first two demands, when they opened a bin each. */
  lemma FourInTwo(rs: seq<Size>, ds: seq<Demand>, t: Size, x: Size, y: Size)
    requires |ds| == 6 && Fill(rs, ds[..2], t) == [x, y]
    requires !Fits(ds[2], x) && Fits(ds[2], y)
    requires Fits(ds[3], x) && Fits(ds[4], Less(x, ds[3]))
    requires !Fits(ds[5], Less(Less(x, ds[3]), ds[4])) && Fits(ds[5], Less(y, ds[2]))
    ensures |Fill(rs, ds, t)| == 2
  {
    var x', y' := Less(x, ds[3]), Less(y, ds[2]);
    GoesSecond(x, y, ds[2], t);
    FillNext(rs, ds, 2, t, [x, y], 1, [x, y']);
    GoesFirst(x, y', ds[3], t);
    FillNext(rs, ds, 3, t, [x, y'], 0, [x', y']);
    GoesFirst(x', y', ds[4], t);
    FillNext(rs, ds, 4, t, [x', y'], 0, [Less(x', ds[4]), y']);
    GoesSecond(Less(x', ds[4]), y', ds[5], t);
    FillNext(rs, ds, 5, t, [Less(x', ds[4]), y'], 1, [Less(x', ds[4]), Less(y', ds[5])]);
    assert ds[..6] == ds;
  }

  /** What follows them when they share the first of two bins: the last one finds no room. */
  lemma FourInThree(rs: seq<Size>, ds: seq<Demand>, t: Size, x: Size, y: Size)
    requires |ds| == 6 && Fill(rs, ds[..2], t) == [x, y]
    requires !Fits(ds[2], x) && Fits(ds[2], y)
    requires !Fits(ds[3], x) && Fits(ds[3], Less(y, ds[2]))
    requires !Fits(ds[4], x) && Fits(ds[4], Less(Less(y, ds[2]), ds[3]))
    requires !Fits(ds[5], x) && !Fits(ds[5], Less(Less(Less(y, ds[2]), ds[3]), ds[4]))
    ensures |Fill(rs, ds, t)| == 3
  {
    var y2 := Less(y, ds[2]);
    var y3 := Less(y2, ds[3]);
    var y4 := Less(y3, ds[4]);
    GoesSecond(x, y, ds[2], t);
    FillNext(rs, ds, 2, t, [x, y], 1, [x, y2]);
    GoesSecond(x, y2, ds[3], t);
    FillNext(rs, ds, 3, t, [x, y2], 1, [x, y3]);
    GoesSecond(x, y3, ds[4], t);
    FillNext(rs, ds, 4, t, [x, y3], 1, [x, y4]);
    GoesThird(x, y4, ds[5], t);
    FillNext(rs, ds, 5, t, [x, y4], 2, [x, y4] + [Less(OpenFor(ds[5], t).size, ds[5])]);
    assert ds[..6] == ds;
  }

  lemma FillNext(
    rs: seq<Size>, ds: seq<Demand>, k: nat, template: Size, before: seq<Size>, i: nat, after: seq<Size>)
    requires k < |ds| && Fill(rs, ds[..k], template) == before && Goes(before, ds[k], i, template, after)
    ensures Fill(rs, ds[..k + 1], template) == after
  {
    FillStep(rs, ds[..k], ds[k], template, before, i, after);
    assert ds[..k] + [ds[k]] == ds[..k + 1];
  }

  lemma MemNoiseFirst(u: nat, mem: nat)
    requires u > 0 && mem >= 2
    ensures |Fill([], MemNoise(u, mem), Size(8 * u, mem))| == 2
  {
    var ds, t := MemNoise(u, mem), Size(8 * u, mem);
    TwoOpen(ds[0], ds[1], t);
    assert ds[..2] == [ds[0], ds[1]];
    FourInTwo([], ds, t, Less(t, ds[0]), Less(t, ds[1]));
  }

  lemma MemNoiseAgain(u: nat, mem: nat, big: Size)
    requires u > 0 && mem >= 2 && big.cpu == 8 * u && big.mem > mem
    ensures |Fill([big, big], MemNoise(u, mem), Size(8 * u, mem))| == 3
  {
    var ds, t := MemNoise(u, mem), Size(8 * u, mem);
    TwoJoin(ds[0], ds[1], big, big, t);
    assert ds[..2] == [ds[0], ds[1]];
    FourInThree([big, big], ds, t, Less(Less(big, ds[0]), ds[1]), big);
  }

  lemma CpuNoiseIsNoise(t: Size) returns (ds: seq<Demand>)
    requires t.cpu >= 2 && t.mem >= 3 * MIB && t.cpu % MILLI != 0
    ensures FitAlone(PodsOf(ds), t) && !Quiet(PodsOf(ds), [], t, t)
  {
    RoundingIsIdleIffWhole(t);
    var gap := RoundedSize(t).mem - t.mem;
    ds := CpuNoise(t, gap);
    GenuineFitAlone(ds, t);
    CpuNoiseFirst(t, gap);
    CpuNoiseAgain(t, RoundedSize(t), gap);
    ThirdBinIsNoise(ds, t);
  }

  lemma MemNoiseIsNoise(t: Size, u: nat)
    requires t.mem >= 3 * MIB && t.cpu == 8 * u && u > 0 && t.cpu % MILLI == 0 && t.mem % MIB != 0
    ensures FitAlone(PodsOf(MemNoise(u, t.mem)), t) && !Quiet(PodsOf(MemNoise(u, t.mem)), [], t, t)
  {
    var ds := MemNoise(u, t.mem);
    GenuineFitAlone(ds, t);
    WholeCoresStay(t);
    MemNoiseFirst(u, t.mem);
    MemNoiseAgain(u, t.mem, RoundedSize(t));
    ThirdBinIsNoise(ds, t);
  }

  lemma WholeCoresStay(t: Size)
    ensures t.cpu % MILLI == 0 ==> RoundedSize(t).cpu == t.cpu
    ensures t.mem % MIB != 0 ==> RoundedSize(t).mem > t.mem
  {
    RoundingIsIdleIffWhole(t);
    RoundingIsIdleIffWhole(Size(t.cpu, 0));
    RoundingIsIdleIffWhole(Size(0, t.mem));
  }

  /** Pods no larger than the template never make a second plan open anything. */
  ghost predicate SafeTemplate(t: Size) {
    forall pods, buckets :: FitAlone(pods, t) ==> Quiet(pods, buckets, t, t)
  }

  /**
   The exact condition on the template, with the new claims listed last: repeating a scale-up for the same pods opens
   nothing, for all pods no larger than the template and all buckets, if and only if the template is in whole cores
   and MiB. In any other, some pods make the second plan open one claim more than the first.
   */
  lemma SafeTemplateIffWhole(t: Size)
    requires t.cpu >= 2 && t.mem >= 3 * MIB
    ensures SafeTemplate(t) <==> Whole(t)
  {
    if Whole(t) {
      forall pods, buckets | FitAlone(pods, t) ensures Quiet(pods, buckets, t, t) {
        FittingPodsOpenTemplates(pods, buckets, t);
        WholeClaimsAreQuiet(pods, buckets, t, t);
      }
    } else if t.cpu % MILLI != 0 {
      var ds := CpuNoiseIsNoise(t);
    } else {
      assert t.cpu == 8 * (t.cpu / 8);
      MemNoiseIsNoise(t, t.cpu / 8);
    }
  }
}
