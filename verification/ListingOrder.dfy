/**
 Claims are listed from a cache, in no promised order, and the planner fills buckets in the order of the listing.
 For which pending claims a second plan opens nothing in any order.
 */
module ListingOrder {
  import opened KubeObjects
  import opened CapacityPlanner
  import opened PackingBound
  import opened Replanning

  // ----- claims of one size

  predicate AllOfSize(sizes: seq<Size>, size: Size) {
    forall k :: 0 <= k < |sizes| ==> sizes[k] == size
  }

  /** Buckets of one size have only one order, and the more of them come first. */
  lemma OneSizeIsPrefix(a: seq<Size>, b: seq<Size>, size: Size)
    requires AllOfSize(b, size) && multiset(a) <= multiset(b)
    ensures a <= b
  {
    assert |multiset(a)| == |a| && |multiset(b)| == |b|;
    assert |a| <= |b| by {
      SubsetCount(multiset(a), multiset(b));
    }
    forall k | 0 <= k < |a| ensures a[k] == b[k] {
      assert a[k] in multiset(a);
      assert a[k] in multiset(b);
      assert a[k] in b;
    }
  }

  lemma SubsetCount(a: multiset<Size>, b: multiset<Size>)
    requires a <= b
    ensures |a| <= |b|
  {
    assert b == a + (b - a);
  }

  /** Where the claims in the planned sizes and all older ones agree in size, the second plan opens nothing in any order. */
  lemma OneSizeIsQuiet(
    pods: seq<Pod>, nodes: seq<Size>, older: seq<Size>, listed: seq<Size>, template: Size, later: Size, size: Size)
    requires AllOfSize(listed, size)
    requires multiset(older + SizesOf(NewBins(pods, nodes + older, template))) <= multiset(listed)
    ensures NewBins(pods, nodes + listed, later) == []
  {
    var bins := NewBins(pods, nodes + older, template);
    OneSizeIsPrefix(older + SizesOf(bins), listed, size);
    SizesInTwoParts(pods, nodes + older, template);
    assert (nodes + older) + SizesOf(bins) == nodes + (older + SizesOf(bins));
    ReplanOpensNothing(pods, nodes + older, nodes + listed, template, later);
  }

  // ----- one older claim of another size

  lemma GoesIn(x: Size, d: Demand, template: Size)
    requires Fits(d, x)
    ensures Goes([x], d, 0, template, [Less(x, d)])
  {
  }

  /** A claim that asks for nothing; no pod that requests something ever fits in. */
  const EMPTY := Size(0, 0)

  /** One claim is opened beside the older one, and one more when the new one is listed first. */
  ghost predicate OpensAgain(ds: seq<Demand>, t: Size, s: Size) {
    && Genuine(ds) && Descending(ds) && FitAlone(PodsOf(ds), t)
    && |Fill([s], ds, t)| == 2 && |Fill([t, s], ds, t)| == 3
  }

  /** An older claim with less memory: the first pod fills it, or goes where the second one should. */
  function LessMemory(t: Size, s: Size): seq<Demand>
    requires t.mem >= 0 && s.mem >= 0
  {
    [DemandOf(0, s.mem), DemandOf(0, t.mem)]
  }

  /** An older claim with fewer cores: a pod only the new one can take makes the two differ in memory. */
  function FewerCores(t: Size): seq<Demand>
    requires t.cpu >= 0 && t.mem >= 1
  {
    [DemandOf(t.cpu, 1), DemandOf(0, 1), DemandOf(0, t.mem - 1), DemandOf(0, t.mem - 1)]
  }

  lemma FewerCoresFirst(t: Size, s: Size)
    requires 0 <= s.cpu < t.cpu && s.mem == t.mem >= 3
    ensures |Fill([s], FewerCores(t), t)| == 2
  {
    var ds := FewerCores(t);
    var x, y := Less(t, ds[0]), Less(s, ds[1]);
    GoesBehind(s, ds[0], t);
    FillStep([s], [], ds[0], t, [s], 1, [s, x]);
    GoesFirst(s, x, ds[1], t);
    FillStep([s], [] + [ds[0]], ds[1], t, [s, x], 0, [y, x]);
    GoesFirst(y, x, ds[2], t);
    FillStep([s], [] + [ds[0]] + [ds[1]], ds[2], t, [y, x], 0, [Less(y, ds[2]), x]);
    GoesSecond(Less(y, ds[2]), x, ds[3], t);
    FillStep([s], [] + [ds[0]] + [ds[1]] + [ds[2]], ds[3], t, [Less(y, ds[2]), x], 1, [Less(y, ds[2]), Less(x, ds[3])]);
    assert [] + [ds[0]] + [ds[1]] + [ds[2]] + [ds[3]] == ds;
  }

  lemma FewerCoresAgain(t: Size, s: Size)
    requires 0 <= s.cpu < t.cpu && s.mem == t.mem >= 3
    ensures |Fill([t, s], FewerCores(t), t)| == 3
  {
    var ds := FewerCores(t);
    var x, y := Less(Less(t, ds[0]), ds[1]), Less(s, ds[2]);
    TwoJoin(ds[0], ds[1], t, s, t);
    GoesSecond(x, s, ds[2], t);
    FillStep([t, s], [ds[0], ds[1]], ds[2], t, [x, s], 1, [x, y]);
    GoesThird(x, y, ds[3], t);
    FillStep([t, s], [ds[0], ds[1]] + [ds[2]], ds[3], t, [x, y], 2, [x, y] + [Less(OpenFor(ds[3], t).size, ds[3])]);
    assert [ds[0], ds[1]] + [ds[2]] + [ds[3]] == ds;
  }

  /** An older claim with more cores: a pod that takes all cores of the new one leaves its memory unused. */
  function MoreCores(t: Size): seq<Demand>
    requires t.cpu >= 0 && t.mem >= 0
  {
    [DemandOf(t.cpu, 0), DemandOf(1, t.mem), DemandOf(1, t.mem)]
  }

  lemma MoreCoresFirst(t: Size, s: Size)
    requires s.cpu > t.cpu >= 1 && s.mem == t.mem >= 1
    ensures |Fill([s], MoreCores(t), t)| == 2
  {
    var ds := MoreCores(t);
    var x := Less(s, ds[0]);
    GoesIn(s, ds[0], t);
    FillStep([s], [], ds[0], t, [s], 0, [x]);
    GoesIn(x, ds[1], t);
    FillStep([s], [] + [ds[0]], ds[1], t, [x], 0, [Less(x, ds[1])]);
    GoesBehind(Less(x, ds[1]), ds[2], t);
    FillStep([s], [] + [ds[0]] + [ds[1]], ds[2], t, [Less(x, ds[1])], 1,
             [Less(x, ds[1]), Less(OpenFor(ds[2], t).size, ds[2])]);
    assert [] + [ds[0]] + [ds[1]] + [ds[2]] == ds;
  }

  lemma MoreCoresAgain(t: Size, s: Size)
    requires s.cpu > t.cpu >= 1 && s.mem == t.mem >= 1
    ensures |Fill([t, s], MoreCores(t), t)| == 3
  {
    var ds := MoreCores(t);
    var x, y := Less(t, ds[0]), Less(s, ds[1]);
    GoesFirst(t, s, ds[0], t);
    FillStep([t, s], [], ds[0], t, [t, s], 0, [x, s]);
    GoesSecond(x, s, ds[1], t);
    FillStep([t, s], [] + [ds[0]], ds[1], t, [x, s], 1, [x, y]);
    GoesThird(x, y, ds[2], t);
    FillStep([t, s], [] + [ds[0]] + [ds[1]], ds[2], t, [x, y], 2, [x, y] + [Less(OpenFor(ds[2], t).size, ds[2])]);
    assert [] + [ds[0]] + [ds[1]] + [ds[2]] == ds;
  }

  // ----- an older claim with more memory

  function Copies(d: Demand, n: nat): seq<Demand> {
    if n == 0 then [] else [d] + Copies(d, n - 1)
  }

  lemma OneCopyFirst(ds: seq<Demand>, d: Demand, n: nat)
    requires n > 0
    ensures ds + Copies(d, n) == (ds + [d]) + Copies(d, n - 1)
  {
    assert Copies(d, n) == [d] + Copies(d, n - 1);
  }

  lemma NoCopies(ds: seq<Demand>, d: Demand)
    ensures ds + Copies(d, 0) == ds
  {
  }

  function WithMem(s: Size, mem: int): Size {
    Size(s.cpu, mem)
  }

  /** `n` pods of memory `m` fit into `s` and leave `left`. */
  ghost predicate LeftAfter(s: int, m: nat, n: nat, left: int) {
    if n == 0 then s == left else s >= m && LeftAfter(s - m, m, n - 1, left)
  }

  lemma CopyIntoOne(rs: seq<Size>, ds: seq<Demand>, y: Size, d: Demand, t: Size)
    requires Fill(rs, ds, t) == [y] && Fits(d, y)
    ensures Fill(rs, ds + [d], t) == [Less(y, d)]
  {
    GoesIn(y, d, t);
    FillStep(rs, ds, d, t, [y], 0, [Less(y, d)]);
  }

  lemma CopyIntoSecond(rs: seq<Size>, ds: seq<Demand>, x: Size, y: Size, d: Demand, t: Size)
    requires Fill(rs, ds, t) == [x, y] && !Fits(d, x) && Fits(d, y)
    ensures Fill(rs, ds + [d], t) == [x, Less(y, d)]
  {
    GoesSecond(x, y, d, t);
    FillStep(rs, ds, d, t, [x, y], 1, [x, Less(y, d)]);
  }

  lemma {:induction false} CopiesFillOne(
    rs: seq<Size>, ds: seq<Demand>, y: Size, d: Demand, n: nat, left: int, t: Size)
    requires Fill(rs, ds, t) == [y] && d.cpu == 0 && y.cpu >= 0 && LeftAfter(y.mem, d.mem, n, left)
    ensures Fill(rs, ds + Copies(d, n), t) == [WithMem(y, left)]
    decreases n
  {
    if n == 0 {
      NoCopies(ds, d);
    } else {
      CopyIntoOne(rs, ds, y, d, t);
      CopiesFillOne(rs, ds + [d], Less(y, d), d, n - 1, left, t);
      OneCopyFirst(ds, d, n);
    }
  }

  lemma {:induction false} CopiesFillSecond(
    rs: seq<Size>, ds: seq<Demand>, x: Size, y: Size, d: Demand, n: nat, left: int, t: Size)
    requires Fill(rs, ds, t) == [x, y] && d.cpu == 0 && y.cpu >= 0 && LeftAfter(y.mem, d.mem, n, left)
    requires !Fits(d, x)
    ensures Fill(rs, ds + Copies(d, n), t) == [x, WithMem(y, left)]
    decreases n
  {
    if n == 0 {
      NoCopies(ds, d);
    } else {
      CopyIntoSecond(rs, ds, x, y, d, t);
      CopiesFillSecond(rs, ds + [d], x, Less(y, d), d, n - 1, left, t);
      OneCopyFirst(ds, d, n);
    }
  }

  /** As many pods of memory `m` as leave between one and two times that much. */
  lemma {:induction false} LeavesOneOrTwo(s: int, m: nat) returns (n: nat, left: int)
    requires s > m > 0
    ensures LeftAfter(s, m, n, left) && m < left <= 2 * m
    decreases s
  {
    if s <= 2 * m {
      n, left := 0, s;
    } else {
      n, left := LeavesOneOrTwo(s - m, m);
      n := n + 1;
    }
  }

  lemma {:induction false} LeavesLess(s: int, m: nat, n: nat, left: int, x: int)
    requires LeftAfter(s, m, n, left) && 0 <= x <= left
    ensures LeftAfter(s - x, m, n, left - x)
    decreases n
  {
    if n > 0 {
      LeavesLess(s - m, m, n - 1, left, x);
      LeftIsLess(s - m, m, n - 1, left);
    }
  }

  lemma {:induction false} LeftIsLess(s: int, m: nat, n: nat, left: int)
    requires LeftAfter(s, m, n, left)
    ensures left <= s
    decreases n
  {
    if n > 0 {
      LeftIsLess(s - m, m, n - 1, left);
    }
  }

  /** The head of the pods: `x` of memory, then `n` whole templates of it. */
  function Head(x: nat, m: nat, n: nat): seq<Demand> {
    [DemandOf(0, x)] + Copies(DemandOf(0, m), n)
  }

  lemma HeadFirst(t: Size, s: Size, x: nat, n: nat, left: int)
    requires s.cpu >= 0 && t.mem >= 0 && LeftAfter(s.mem, t.mem, n, left) && x <= left && s.mem >= left
    ensures Fill([s], Head(x, t.mem, n), t) == [WithMem(s, left - x)]
  {
    var d := DemandOf(0, x);
    GoesIn(s, d, t);
    FillStep([s], [], d, t, [s], 0, [Less(s, d)]);
    assert [] + [d] == [d];
    LeavesLess(s.mem, t.mem, n, left, x);
    CopiesFillOne([s], [d], Less(s, d), DemandOf(0, t.mem), n, left - x, t);
  }

  lemma HeadAgain(t: Size, s: Size, x: nat, n: nat, left: int)
    requires t.cpu >= 0 && s.cpu >= 0 && 0 < x <= t.mem && LeftAfter(s.mem, t.mem, n, left)
    ensures Fill([t, s], Head(x, t.mem, n), t) == [WithMem(t, t.mem - x), WithMem(s, left)]
  {
    var d := DemandOf(0, x);
    GoesFirst(t, s, d, t);
    FillStep([t, s], [], d, t, [t, s], 0, [Less(t, d), s]);
    assert [] + [d] == [d];
    CopiesFillSecond([t, s], [d], Less(t, d), s, DemandOf(0, t.mem), n, left, t);
  }

  /** The older claim leaves less than two templates beyond whole ones. */
  function BrokenMore(m: nat, n: nat, x: nat): seq<Demand> {
    Head(x, m, n) + [DemandOf(0, m)] + [DemandOf(0, m)]
  }

  lemma BrokenMoreFirst(t: Size, s: Size, n: nat, x: nat)
    requires t.cpu >= 0 && s.cpu >= 0 && 0 < x < t.mem && LeftAfter(s.mem, t.mem, n, t.mem + x)
    ensures |Fill([s], BrokenMore(t.mem, n, x), t)| == 2
  {
    var d, ds := DemandOf(0, t.mem), Head(x, t.mem, n);
    var y := WithMem(s, t.mem);
    LeftIsLess(s.mem, t.mem, n, t.mem + x);
    HeadFirst(t, s, x, n, t.mem + x);
    GoesIn(y, d, t);
    FillStep([s], ds, d, t, [y], 0, [Less(y, d)]);
    GoesBehind(Less(y, d), d, t);
    FillStep([s], ds + [d], d, t, [Less(y, d)], 1, [Less(y, d), Less(OpenFor(d, t).size, d)]);
  }

  lemma BrokenMoreAgain(t: Size, s: Size, n: nat, x: nat)
    requires t.cpu >= 0 && s.cpu >= 0 && 0 < x < t.mem && LeftAfter(s.mem, t.mem, n, t.mem + x)
    ensures |Fill([t, s], BrokenMore(t.mem, n, x), t)| == 3
  {
    var d, ds := DemandOf(0, t.mem), Head(x, t.mem, n);
    var u, y := WithMem(t, t.mem - x), WithMem(s, t.mem + x);
    HeadAgain(t, s, x, n, t.mem + x);
    GoesSecond(u, y, d, t);
    FillStep([t, s], ds, d, t, [u, y], 1, [u, Less(y, d)]);
    GoesThird(u, Less(y, d), d, t);
    FillStep([t, s], ds + [d], d, t, [u, Less(y, d)], 2, [u, Less(y, d)] + [Less(OpenFor(d, t).size, d)]);
  }

  /** The older claim leaves exactly two templates: three pods of a little more than half a template. */
  function EvenMore(m: nat, n: nat, x: nat): seq<Demand> {
    Head(x, m, n) + [DemandOf(0, x)] + [DemandOf(0, x)] + [DemandOf(0, m)]
  }

  lemma EvenMoreFirst(t: Size, s: Size, n: nat, x: nat)
    requires t.cpu >= 0 && s.cpu >= 0 && t.mem < 2 * x && 3 * x <= 2 * t.mem && LeftAfter(s.mem, t.mem, n, 2 * t.mem)
    ensures |Fill([s], EvenMore(t.mem, n, x), t)| == 2
  {
    var d, e, ds := DemandOf(0, t.mem), DemandOf(0, x), Head(x, t.mem, n);
    var y := WithMem(s, 2 * t.mem - x);
    LeftIsLess(s.mem, t.mem, n, 2 * t.mem);
    HeadFirst(t, s, x, n, 2 * t.mem);
    GoesIn(y, e, t);
    FillStep([s], ds, e, t, [y], 0, [Less(y, e)]);
    GoesIn(Less(y, e), e, t);
    FillStep([s], ds + [e], e, t, [Less(y, e)], 0, [Less(Less(y, e), e)]);
    GoesBehind(Less(Less(y, e), e), d, t);
    FillStep([s], ds + [e] + [e], d, t, [Less(Less(y, e), e)], 1,
             [Less(Less(y, e), e), Less(OpenFor(d, t).size, d)]);
  }

  lemma EvenMoreAgain(t: Size, s: Size, n: nat, x: nat)
    requires t.cpu >= 0 && s.cpu >= 0 && t.mem < 2 * x && 3 * x <= 2 * t.mem && LeftAfter(s.mem, t.mem, n, 2 * t.mem)
    ensures |Fill([t, s], EvenMore(t.mem, n, x), t)| == 3
  {
    var d, e, ds := DemandOf(0, t.mem), DemandOf(0, x), Head(x, t.mem, n);
    var u, y := WithMem(t, t.mem - x), WithMem(s, 2 * t.mem);
    HeadAgain(t, s, x, n, 2 * t.mem);
    GoesSecond(u, y, e, t);
    FillStep([t, s], ds, e, t, [u, y], 1, [u, Less(y, e)]);
    GoesSecond(u, Less(y, e), e, t);
    FillStep([t, s], ds + [e], e, t, [u, Less(y, e)], 1, [u, Less(Less(y, e), e)]);
    GoesThird(u, Less(Less(y, e), e), d, t);
    FillStep([t, s], ds + [e] + [e], d, t, [u, Less(Less(y, e), e)], 2,
             [u, Less(Less(y, e), e)] + [Less(OpenFor(d, t).size, d)]);
  }

  // ----- every other size is unsafe

  /** Pods that ask for memory alone, no more than a template has. */
  ghost predicate MemoryOnly(ds: seq<Demand>, m: nat) {
    forall k :: 0 <= k < |ds| ==> ds[k] == DemandOf(0, ds[k].mem) && 0 < ds[k].mem <= m
  }

  lemma {:induction false} CopiesAre(d: Demand, n: nat)
    ensures |Copies(d, n)| == n && forall k :: 0 <= k < n ==> Copies(d, n)[k] == d
  {
    if n > 0 {
      CopiesAre(d, n - 1);
    }
  }

  lemma MemoryOnlyIsFit(ds: seq<Demand>, t: Size)
    requires t.cpu >= 0 && t.mem >= 0 && MemoryOnly(ds, t.mem)
    ensures Genuine(ds) && Descending(ds) && FitAlone(PodsOf(ds), t)
  {
    GenuineFitAlone(ds, t);
  }

  lemma BrokenMoreOpensAgain(t: Size, s: Size, n: nat, x: nat)
    requires t.cpu >= 0 && s.cpu >= 0 && 0 < x < t.mem && LeftAfter(s.mem, t.mem, n, t.mem + x)
    ensures OpensAgain(BrokenMore(t.mem, n, x), t, s)
  {
    BrokenMoreFirst(t, s, n, x);
    BrokenMoreAgain(t, s, n, x);
    CopiesAre(DemandOf(0, t.mem), n);
    MemoryOnlyIsFit(BrokenMore(t.mem, n, x), t);
  }

  lemma EvenMoreOpensAgain(t: Size, s: Size, n: nat, x: nat)
    requires t.cpu >= 0 && s.cpu >= 0 && t.mem < 2 * x && 3 * x <= 2 * t.mem && LeftAfter(s.mem, t.mem, n, 2 * t.mem)
    ensures OpensAgain(EvenMore(t.mem, n, x), t, s)
  {
    EvenMoreFirst(t, s, n, x);
    EvenMoreAgain(t, s, n, x);
    CopiesAre(DemandOf(0, t.mem), n);
    MemoryOnlyIsFit(EvenMore(t.mem, n, x), t);
  }

  lemma MoreMemory(t: Size, s: Size) returns (ds: seq<Demand>)
    requires t.cpu >= 0 && s.cpu >= 0 && t.mem >= 6 && s.mem > t.mem
    ensures OpensAgain(ds, t, s)
  {
    var n, left := LeavesOneOrTwo(s.mem, t.mem);
    if left < 2 * t.mem {
      BrokenMoreOpensAgain(t, s, n, left - t.mem);
      ds := BrokenMore(t.mem, n, left - t.mem);
    } else {
      EvenMoreOpensAgain(t, s, n, t.mem / 2 + 1);
      ds := EvenMore(t.mem, n, t.mem / 2 + 1);
    }
  }

  // ----- an older claim without memory

  /** A pod of few cores and no memory, and one of as many cores that needs memory. */
  function NoMemory(cpu: nat): seq<Demand> {
    [DemandOf(cpu, 0), DemandOf(cpu, 1)]
  }

  lemma NoMemoryOpensAgain(t: Size, s: Size, cpu: nat)
    requires 0 < cpu <= s.cpu && cpu <= t.cpu < 2 * cpu && s.mem == 0 && t.mem >= 1
    ensures OpensAgain(NoMemory(cpu), t, s)
  {
    var ds := NoMemory(cpu);
    GenuineFitAlone(ds, t);
    FillsAndOpens(s, t, ds[0], ds[1]);
    WastesAndOpens(t, s, ds[0], ds[1]);
  }

  /** `d` leaves no room for `e` in the older claim. */
  lemma FillsAndOpens(s: Size, t: Size, d: Demand, e: Demand)
    requires Fits(d, s) && !Fits(e, Less(s, d))
    ensures |Fill([s], [d, e], t)| == 2
  {
    GoesIn(s, d, t);
    FillStep([s], [], d, t, [s], 0, [Less(s, d)]);
    GoesBehind(Less(s, d), e, t);
    FillStep([s], [] + [d], e, t, [Less(s, d)], 1, [Less(s, d), Less(OpenFor(e, t).size, e)]);
    assert [] + [d] + [e] == [d, e];
  }

  /** `d` goes into the new claim, and then `e` fits nowhere. */
  lemma WastesAndOpens(x: Size, y: Size, d: Demand, e: Demand)
    requires Fits(d, x) && !Fits(e, Less(x, d)) && !Fits(e, y)
    ensures |Fill([x, y], [d, e], x)| == 3
  {
    GoesFirst(x, y, d, x);
    FillStep([x, y], [], d, x, [x, y], 0, [Less(x, d), y]);
    GoesThird(Less(x, d), y, e, x);
    FillStep([x, y], [] + [d], e, x, [Less(x, d), y], 2, [Less(x, d), y] + [Less(OpenFor(e, x).size, e)]);
    assert [] + [d] + [e] == [d, e];
  }

  /** Before them a pod that leaves the new claim with as many cores as the older one has. */
  function NoMemoryFew(t: Size, cpu: nat): seq<Demand>
    requires cpu <= t.cpu
  {
    [DemandOf(t.cpu - cpu, 1), DemandOf(cpu, 0), DemandOf(cpu, 1)]
  }

  lemma NoMemoryFewFirst(t: Size, s: Size)
    requires 0 < s.cpu && 2 * s.cpu <= t.cpu && s.mem == 0 && t.mem >= 2
    ensures |Fill([s], NoMemoryFew(t, s.cpu), t)| == 2
  {
    var ds := NoMemoryFew(t, s.cpu);
    var x := Less(t, ds[0]);
    GoesBehind(s, ds[0], t);
    FillStep([s], [], ds[0], t, [s], 1, [s, x]);
    GoesFirst(s, x, ds[1], t);
    FillStep([s], [] + [ds[0]], ds[1], t, [s, x], 0, [Less(s, ds[1]), x]);
    GoesSecond(Less(s, ds[1]), x, ds[2], t);
    FillStep([s], [] + [ds[0]] + [ds[1]], ds[2], t, [Less(s, ds[1]), x], 1, [Less(s, ds[1]), Less(x, ds[2])]);
    assert [] + [ds[0]] + [ds[1]] + [ds[2]] == ds;
  }

  lemma NoMemoryFewAgain(t: Size, s: Size)
    requires 0 < s.cpu && 2 * s.cpu <= t.cpu && s.mem == 0 && t.mem >= 2
    ensures |Fill([t, s], NoMemoryFew(t, s.cpu), t)| == 3
  {
    var ds := NoMemoryFew(t, s.cpu);
    var x := Less(Less(t, ds[0]), ds[1]);
    TwoJoin(ds[0], ds[1], t, s, t);
    GoesThird(x, s, ds[2], t);
    FillStep([t, s], [ds[0], ds[1]], ds[2], t, [x, s], 2, [x, s] + [Less(OpenFor(ds[2], t).size, ds[2])]);
    assert [ds[0], ds[1]] + [ds[2]] == ds;
  }

  lemma NoMemoryFewOpensAgain(t: Size, s: Size)
    requires 0 < s.cpu && 2 * s.cpu <= t.cpu && s.mem == 0 && t.mem >= 2
    ensures OpensAgain(NoMemoryFew(t, s.cpu), t, s)
  {
    NoMemoryFewFirst(t, s);
    NoMemoryFewAgain(t, s);
    GenuineFitAlone(NoMemoryFew(t, s.cpu), t);
  }

  lemma LessMemoryOpensAgain(t: Size, s: Size)
    requires t.cpu >= 0 && s.cpu >= 0 && 1 <= s.mem < t.mem
    ensures OpensAgain(LessMemory(t, s), t, s)
  {
    var ds := LessMemory(t, s);
    FillsAndOpens(s, t, ds[0], ds[1]);
    WastesAndOpens(t, s, ds[0], ds[1]);
    MemoryOnlyIsFit(LessMemory(t, s), t);
  }

  lemma FewerCoresOpensAgain(t: Size, s: Size)
    requires 0 <= s.cpu < t.cpu && s.mem == t.mem >= 3
    ensures OpensAgain(FewerCores(t), t, s)
  {
    FewerCoresFirst(t, s);
    FewerCoresAgain(t, s);
    GenuineFitAlone(FewerCores(t), t);
  }

  lemma MoreCoresOpensAgain(t: Size, s: Size)
    requires s.cpu > t.cpu >= 1 && s.mem == t.mem >= 1
    ensures OpensAgain(MoreCores(t), t, s)
  {
    MoreCoresFirst(t, s);
    MoreCoresAgain(t, s);
    GenuineFitAlone(MoreCores(t), t);
  }

  /** An older claim of any other size than the template, the empty one apart, makes some pods open a claim again. */
  lemma OtherSizeOpensAgain(t: Size, s: Size) returns (ds: seq<Demand>)
    requires t.cpu >= 1 && t.mem >= 6 && s.cpu >= 0 && s.mem >= 0 && s != t && s != EMPTY
    ensures OpensAgain(ds, t, s)
  {
    if s.mem == 0 && 2 * s.cpu <= t.cpu {
      NoMemoryFewOpensAgain(t, s);
      ds := NoMemoryFew(t, s.cpu);
    } else if s.mem == 0 {
      var cpu := if s.cpu <= t.cpu then s.cpu else t.cpu;
      NoMemoryOpensAgain(t, s, cpu);
      ds := NoMemory(cpu);
    } else if s.mem < t.mem {
      LessMemoryOpensAgain(t, s);
      ds := LessMemory(t, s);
    } else if s.mem > t.mem {
      ds := MoreMemory(t, s);
    } else if s.cpu < t.cpu {
      FewerCoresOpensAgain(t, s);
      ds := FewerCores(t);
    } else {
      MoreCoresOpensAgain(t, s);
      ds := MoreCores(t);
    }
  }

  // ----- listings

  /** `listed` is a listing, in some order, of the older claims' room and that of the claims a first plan asked for. */
  ghost predicate Relisted(
    pods: seq<Pod>, nodes: seq<Size>, older: seq<Size>, listed: seq<Size>, t: Size)
  {
    multiset(listed) == multiset(older + ClaimedSizes(pods, nodes + older, t))
  }

  predicate DrawnFrom(older: seq<Size>, sizes: set<Size>) {
    forall k :: 0 <= k < |older| ==> older[k] in sizes
  }

  /**
   Pods no larger than the template never make a second plan open anything, whatever room the nodes have, however
   many older claims of these sizes are pending, and in whatever order all claims are listed.
   */
  ghost predicate SafeInAnyOrder(t: Size, sizes: set<Size>) {
    forall pods, nodes, older, listed ::
      FitAlone(pods, t) && DrawnFrom(older, sizes) && Relisted(pods, nodes, older, listed, t) ==>
        NewBins(pods, nodes + listed, t) == []
  }

  lemma ClaimsOneTemplate(ds: seq<Demand>, t: Size, s: Size)
    requires Whole(t) && OpensAgain(ds, t, s)
    ensures ClaimedSizes(PodsOf(ds), [s], t) == [t]
  {
    FillCounts([s], ds, t);
    FittingPodsOpenTemplates(PodsOf(ds), [s], t);
    var bins := NewBins(PodsOf(ds), [s], t);
    assert bins[0] in bins;
    RoundingIsIdleIffWhole(t);
  }

  lemma OpensAgainIsUnsafe(ds: seq<Demand>, t: Size, s: Size, sizes: set<Size>)
    requires Whole(t) && s in sizes && OpensAgain(ds, t, s)
    ensures !SafeInAnyOrder(t, sizes)
  {
    var pods := PodsOf(ds);
    ClaimsOneTemplate(ds, t, s);
    FillCounts([t, s], ds, t);
    assert [] + [s] == [s] && [] + [t, s] == [t, s];
    assert multiset([t, s]) == multiset([s] + [t]);
    assert Relisted(pods, [], [s], [t, s], t);
    assert DrawnFrom([s], sizes);
    assert NewBins(pods, [] + [t, s], t) != [];
  }

  lemma UnsafeTemplateStays(t: Size, sizes: set<Size>)
    requires SafeInAnyOrder(t, sizes)
    ensures SafeTemplate(t)
  {
    forall pods, buckets | FitAlone(pods, t) ensures Quiet(pods, buckets, t, t) {
      var listed := ClaimedSizes(pods, buckets, t);
      assert buckets + [] == buckets && [] + listed == listed;
      assert Relisted(pods, buckets, [], listed, t);
      assert DrawnFrom([], sizes);
    }
  }

  lemma TemplateSizesAreSafe(
    pods: seq<Pod>, nodes: seq<Size>, older: seq<Size>, listed: seq<Size>, t: Size, later: Size)
    requires Whole(t) && FitAlone(pods, t) && AllOfSize(older, t) && AllOfSize(listed, t)
    requires |listed| == |older| + |NewBins(pods, nodes + older, t)|
    ensures NewBins(pods, nodes + listed, later) == []
  {
    var bins := NewBins(pods, nodes + older, t);
    FittingPodsOpenTemplates(pods, nodes + older, t);
    forall k | 0 <= k < |bins| ensures bins[k].size == t {
      assert bins[k] in bins;
    }
    assert older + SizesOf(bins) == listed;
    OneSizeIsQuiet(pods, nodes, older, listed, t, later, t);
  }

  // ----- empty claims change nothing

  function NonEmpty(rs: seq<Size>): seq<Size> {
    if rs == [] then [] else (if rs[0] == EMPTY then [] else [rs[0]]) + NonEmpty(rs[1..])
  }

  lemma NonEmptyCons(head: Size, rest: seq<Size>)
    ensures NonEmpty([head] + rest) == (if head == EMPTY then [] else [head]) + NonEmpty(rest)
  {
    assert ([head] + rest)[1..] == rest;
  }

  lemma ConcatAssociates(a: seq<Size>, b: seq<Size>, c: seq<Size>)
    ensures (a + b) + c == a + (b + c)
  {
  }

  lemma {:induction false} NonEmptyConcat(a: seq<Size>, b: seq<Size>)
    ensures NonEmpty(a + b) == NonEmpty(a) + NonEmpty(b)
  {
    if a == [] {
      assert a + b == b;
    } else {
      NonEmptyConcat(a[1..], b);
      NonEmptyCons(a[0], a[1..]);
      NonEmptyCons(a[0], a[1..] + b);
      assert a == [a[0]] + a[1..];
      ConcatAssociates([a[0]], a[1..], b);
      ConcatAssociates(if a[0] == EMPTY then [] else [a[0]], NonEmpty(a[1..]), NonEmpty(b));
    }
  }

  /** Placing a demand, told from the front. */
  function PlaceFront(rs: seq<Size>, d: Demand, t: Size): seq<Size> {
    if rs == [] then [Less(OpenFor(d, t).size, d)]
    else if Fits(d, rs[0]) then [Less(rs[0], d)] + rs[1..]
    else [rs[0]] + PlaceFront(rs[1..], d, t)
  }

  lemma {:induction false} PlaceFrontAt(rs: seq<Size>, d: Demand, t: Size, i: nat)
    requires i <= |rs| && (i < |rs| ==> Fits(d, rs[i])) && forall j :: 0 <= j < i ==> !Fits(d, rs[j])
    ensures PlaceFront(rs, d, t) == if i < |rs| then rs[i := Less(rs[i], d)] else rs + [Less(OpenFor(d, t).size, d)]
  {
    if i > 0 {
      PlaceFrontAt(rs[1..], d, t, i - 1);
      assert rs == [rs[0]] + rs[1..];
    }
  }

  lemma PlaceFrontIsPlace(rs: seq<Size>, d: Demand, t: Size)
    ensures PlaceFront(rs, d, t) == PlaceIn(rs, d, t)
  {
    PlaceFrontAt(rs, d, t, FirstRoom(rs, d));
  }

  predicate Requests(d: Demand) {
    d.cpu > 0 || d.mem > 0
  }

  /** Whether a demand opens a bucket, and what is left that is not empty, depends on the non-empty buckets alone. */
  lemma {:induction false} EmptiesAreSkipped(rs: seq<Size>, d: Demand, t: Size)
    requires Requests(d)
    ensures NonEmpty(PlaceFront(rs, d, t)) == NonEmpty(PlaceFront(NonEmpty(rs), d, t))
    ensures |PlaceFront(rs, d, t)| - |rs| == |PlaceFront(NonEmpty(rs), d, t)| - |NonEmpty(rs)|
  {
    if rs != [] {
      var head, rest := rs[0], rs[1..];
      EmptiesAreSkipped(rest, d, t);
      NonEmptyIsNonEmpty(rest);
      if head == EMPTY {
        assert [] + NonEmpty(rest) == NonEmpty(rest);
        FrontStep(head, rest, d, t);
      } else {
        FrontStep(head, rest, d, t);
        FrontStep(head, NonEmpty(rest), d, t);
      }
    }
  }

  lemma FrontStep(head: Size, rest: seq<Size>, d: Demand, t: Size)
    ensures PlaceFront([head] + rest, d, t)
      == if Fits(d, head) then [Less(head, d)] + rest else [head] + PlaceFront(rest, d, t)
    ensures NonEmpty([head] + rest) == (if head == EMPTY then [] else [head]) + NonEmpty(rest)
    ensures NonEmpty([head] + PlaceFront(rest, d, t))
      == (if head == EMPTY then [] else [head]) + NonEmpty(PlaceFront(rest, d, t))
    ensures NonEmpty([Less(head, d)] + rest) == (if Less(head, d) == EMPTY then [] else [Less(head, d)]) + NonEmpty(rest)
  {
    assert ([head] + rest)[1..] == rest;
    NonEmptyCons(head, rest);
    NonEmptyCons(head, PlaceFront(rest, d, t));
    NonEmptyCons(Less(head, d), rest);
  }

  lemma {:induction false} NonEmptyIsNonEmpty(rs: seq<Size>)
    ensures NonEmpty(NonEmpty(rs)) == NonEmpty(rs)
  {
    if rs != [] {
      NonEmptyIsNonEmpty(rs[1..]);
      NonEmptyConcat(if rs[0] == EMPTY then [] else [rs[0]], NonEmpty(rs[1..]));
      assert rs[0] != EMPTY ==> NonEmpty([rs[0]]) == [rs[0]];
    }
  }

  lemma OneMoreSkipped(a: seq<Size>, b: seq<Size>, d: Demand, t: Size)
    requires NonEmpty(a) == NonEmpty(b) && Requests(d)
    ensures NonEmpty(PlaceIn(a, d, t)) == NonEmpty(PlaceIn(b, d, t))
    ensures |PlaceIn(a, d, t)| - |a| == |PlaceIn(b, d, t)| - |b|
  {
    EmptiesAreSkipped(a, d, t);
    EmptiesAreSkipped(b, d, t);
    PlaceFrontIsPlace(a, d, t);
    PlaceFrontIsPlace(b, d, t);
  }

  lemma {:induction false} FillSkipsEmpties(rs: seq<Size>, ds: seq<Demand>, t: Size)
    requires forall k :: 0 <= k < |ds| ==> Requests(ds[k])
    ensures NonEmpty(Fill(rs, ds, t)) == NonEmpty(Fill(NonEmpty(rs), ds, t))
    ensures |Fill(rs, ds, t)| - |rs| == |Fill(NonEmpty(rs), ds, t)| - |NonEmpty(rs)|
  {
    if ds == [] {
      NonEmptyIsNonEmpty(rs);
    } else {
      var init, d := ds[..|ds| - 1], ds[|ds| - 1];
      FillSkipsEmpties(rs, init, t);
      OneMoreSkipped(Fill(rs, init, t), Fill(NonEmpty(rs), init, t), d, t);
    }
  }

  lemma {:induction false} DemandsRequest(pods: seq<Pod>)
    ensures forall d :: d in Demands(pods) ==> Requests(d)
  {
    if pods != [] {
      DemandsRequest(pods[..|pods| - 1]);
    }
  }

  lemma SortedDemandsRequest(pods: seq<Pod>)
    ensures forall k :: 0 <= k < |SortByCpu(Demands(pods))| ==> Requests(SortByCpu(Demands(pods))[k])
  {
    DemandsRequest(pods);
    SortOrders(Demands(pods));
    var ds := SortByCpu(Demands(pods));
    forall k | 0 <= k < |ds| ensures Requests(ds[k]) {
      assert ds[k] in multiset(ds);
    }
  }

  /** Claims of no size neither hold a pod nor change where the others go. */
  lemma PlanSkipsEmpties(pods: seq<Pod>, buckets: seq<Size>, t: Size)
    ensures |NewBins(pods, buckets, t)| == |NewBins(pods, NonEmpty(buckets), t)|
  {
    var ds := SortByCpu(Demands(pods));
    SortedDemandsRequest(pods);
    FillSkipsEmpties(buckets, ds, t);
    FillFollows(buckets, ds, t);
    FillFollows(NonEmpty(buckets), ds, t);
    NewBinsCount(pods, buckets, t);
    NewBinsCount(pods, NonEmpty(buckets), t);
  }

  // ----- the exact condition

  lemma {:induction false} NonEmptyCount(rs: seq<Size>)
    ensures |NonEmpty(rs)| == |rs| - multiset(rs)[EMPTY]
    ensures forall k :: 0 <= k < |NonEmpty(rs)| ==> NonEmpty(rs)[k] in rs && NonEmpty(rs)[k] != EMPTY
  {
    if rs != [] {
      NonEmptyCount(rs[1..]);
      assert rs == [rs[0]] + rs[1..];
    }
  }

  predicate TemplateOrEmpty(rs: seq<Size>, t: Size) {
    forall k :: 0 <= k < |rs| ==> rs[k] == t || rs[k] == EMPTY
  }

  lemma NonEmptyAreTemplates(rs: seq<Size>, t: Size)
    requires TemplateOrEmpty(rs, t)
    ensures AllOfSize(NonEmpty(rs), t)
  {
    NonEmptyCount(rs);
  }

  lemma RelistedAreTemplates(pods: seq<Pod>, nodes: seq<Size>, older: seq<Size>, listed: seq<Size>, t: Size)
    requires Whole(t) && t != EMPTY && FitAlone(pods, t) && TemplateOrEmpty(older, t)
    requires Relisted(pods, nodes, older, listed, t)
    ensures TemplateOrEmpty(listed, t)
    ensures |NonEmpty(listed)| == |NonEmpty(older)| + |NewBins(pods, nodes + older, t)|
  {
    var claimed := ClaimedSizes(pods, nodes + older, t);
    ClaimedAreTemplates(pods, nodes + older, t);
    forall k | 0 <= k < |listed| ensures listed[k] == t || listed[k] == EMPTY {
      assert listed[k] in multiset(older + claimed);
      assert listed[k] in older + claimed;
    }
    NonEmptyCount(listed);
    NonEmptyCount(older);
    assert multiset(listed)[EMPTY] == multiset(older)[EMPTY] + multiset(claimed)[EMPTY];
    assert |multiset(listed)| == |listed| && |multiset(older + claimed)| == |older + claimed|;
  }

  lemma ClaimedAreTemplates(pods: seq<Pod>, buckets: seq<Size>, t: Size)
    requires Whole(t) && FitAlone(pods, t)
    ensures AllOfSize(ClaimedSizes(pods, buckets, t), t)
    ensures t != EMPTY ==> multiset(ClaimedSizes(pods, buckets, t))[EMPTY] == 0
  {
    var bins := NewBins(pods, buckets, t);
    FittingPodsOpenTemplates(pods, buckets, t);
    RoundingIsIdleIffWhole(t);
    forall k | 0 <= k < |bins| ensures RoundedSize(bins[k].size) == t {
      assert bins[k] in bins;
    }
    assert t != EMPTY ==> EMPTY !in ClaimedSizes(pods, buckets, t);
  }

  lemma TemplatesAndEmptiesAreSafe(pods: seq<Pod>, nodes: seq<Size>, older: seq<Size>, listed: seq<Size>, t: Size)
    requires Whole(t) && t != EMPTY && FitAlone(pods, t) && TemplateOrEmpty(older, t)
    requires Relisted(pods, nodes, older, listed, t)
    ensures NewBins(pods, nodes + listed, t) == []
  {
    RelistedAreTemplates(pods, nodes, older, listed, t);
    NonEmptyAreTemplates(older, t);
    NonEmptyAreTemplates(listed, t);
    NonEmptyConcat(nodes, older);
    NonEmptyConcat(nodes, listed);
    PlanSkipsEmpties(pods, nodes + older, t);
    PlanSkipsEmpties(pods, nodes + listed, t);
    TemplateSizesAreSafe(pods, NonEmpty(nodes), NonEmpty(older), NonEmpty(listed), t, t);
  }

  /**
   The exact condition: repeating a scale-up opens nothing, for all pods no larger than the template, all nodes, any
   number of older pending claims of the given sizes, and every order in which the claims may be listed, if and only
   if the template is in whole cores and MiB and every older claim has its size, or asks for nothing at all.
   */
  lemma SafeInAnyOrderIff(t: Size, sizes: set<Size>)
    requires t.cpu >= 2 && t.mem >= 3 * MIB
    requires forall s :: s in sizes ==> s.cpu >= 0 && s.mem >= 0
    ensures SafeInAnyOrder(t, sizes) <==> Whole(t) && forall s :: s in sizes ==> s == t || s == EMPTY
  {
    if SafeInAnyOrder(t, sizes) {
      SafeSizes(t, sizes);
    }
    if Whole(t) && forall s :: s in sizes ==> s == t || s == EMPTY {
      forall pods, nodes, older, listed
        | FitAlone(pods, t) && DrawnFrom(older, sizes) && Relisted(pods, nodes, older, listed, t)
        ensures NewBins(pods, nodes + listed, t) == []
      {
        TemplatesAndEmptiesAreSafe(pods, nodes, older, listed, t);
      }
    }
  }

  lemma SafeSizes(t: Size, sizes: set<Size>)
    requires t.cpu >= 2 && t.mem >= 3 * MIB && SafeInAnyOrder(t, sizes)
    requires forall s :: s in sizes ==> s.cpu >= 0 && s.mem >= 0
    ensures Whole(t) && forall s :: s in sizes ==> s == t || s == EMPTY
  {
    UnsafeTemplateStays(t, sizes);
    SafeTemplateIffWhole(t);
    forall s | s in sizes ensures s == t || s == EMPTY {
      if s != t && s != EMPTY {
        var ds := OtherSizeOpensAgain(t, s);
        OpensAgainIsUnsafe(ds, t, s, sizes);
      }
    }
  }
}
