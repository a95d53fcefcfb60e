/** A scale-up repeated under another order of the listing asks for more. */
module RelistedScaleUp {
  import opened Common
  import opened KubeObjects
  import opened CapacityPlanner
  import opened PackingBound
  import opened Replanning
  import opened PoolMatching
  import opened Accounting
  import opened ClaimNaming
  import opened ScaleUp
  import opened RepeatedScaleUp

  /**
   A pool with a full node of `cores` and `large` MiB, an older pending claim of `small` MiB, and two pods that ask the
   pool for those two amounts of memory.
   */
  datatype Scene = Scene(pool: Pool, cores: nat, small: nat, large: nat, at: int)

  predicate Valid(c: Scene) {
    c.pool.labelKey != "" && c.cores > 0 && 1 <= c.small < c.large
  }

  function SmallSize(c: Scene): Size {
    Size(c.cores * MILLI, c.small * MIB)
  }

  function LargeSize(c: Scene): Size {
    Size(c.cores * MILLI, c.large * MIB)
  }

  function Asking(c: Scene, mem: nat): Pod
    requires Valid(c)
  {
    PodOf(0, mem).(nodeSelector := map[c.pool.labelKey := PoolLabels(c.pool)[c.pool.labelKey]])
  }

  function Pods(c: Scene): seq<Pod>
    requires Valid(c)
  {
    [Asking(c, c.small * MIB), Asking(c, c.large * MIB)]
  }

  function FullNode(c: Scene): NodeWithPods {
    var t := LargeSize(c);
    NodeWithPods(PoolNode("node", false, t.cpu, t.mem, t.cpu, t.mem), Some([PodOf(t.cpu, t.mem)]))
  }

  function Older(c: Scene): PoolClaim {
    PoolClaim("", c.pool.name, Some(Requirements(c.cores, c.small)), false, false, "", Some(c.at))
  }

  function Asked(c: Scene): ClaimResources {
    ClaimResources(c.cores, c.large)
  }

  function Newer(c: Scene, name: string): PoolClaim {
    NewClaim(c.pool, name, Asked(c), c.at)
  }

  function AllCreated(name: string): Ensured {
    Created
  }

  function Reads(c: Scene, claims: seq<PoolClaim>): ScaleUpInput
    requires Valid(c)
  {
    ScaleUpInput(Pods(c), Some([FullNode(c)]), Some(claims), c.at, Some([]), AllCreated, c.at, c.at, Written)
  }

  const UNLIMITED := Limits(0, 0, 0)

  // ----- what the reconcile sees

  lemma AskingIsAccepted(c: Scene, mem: nat)
    requires Valid(c)
    ensures PodMatches(Asking(c, mem), PoolLabels(c.pool)) && Targets(Asking(c, mem), c.pool, PoolLabels(c.pool))
  {
    assert c.pool.labelKey in Asking(c, mem).nodeSelector && PoolRequiresLabel(c.pool, c.pool.labelKey);
  }

  lemma TwoAccepted(p: Pod, q: Pod, pool: Pool)
    requires PodMatches(p, PoolLabels(pool)) && Targets(p, pool, PoolLabels(pool))
    requires PodMatches(q, PoolLabels(pool)) && Targets(q, pool, PoolLabels(pool))
    ensures AcceptedPods([p, q], pool) == [p, q]
  {
    AcceptedSnoc([], p, pool);
    AcceptedSnoc([p], q, pool);
    assert [] + [p] == [p] && [p] + [q] == [p, q];
  }

  lemma AcceptedSnoc(pods: seq<Pod>, p: Pod, pool: Pool)
    requires PodMatches(p, PoolLabels(pool)) && Targets(p, pool, PoolLabels(pool))
    ensures AcceptedPods(pods + [p], pool) == AcceptedPods(pods, pool) + [p]
  {
    assert (pods + [p])[..|pods|] == pods;
  }

  lemma PodsAreAccepted(c: Scene)
    requires Valid(c)
    ensures AcceptedPods(Pods(c), c.pool) == Pods(c)
  {
    AskingIsAccepted(c, c.small * MIB);
    AskingIsAccepted(c, c.large * MIB);
    TwoAccepted(Pods(c)[0], Pods(c)[1], c.pool);
  }

  lemma NodeHasNoRoom(n: NodeWithPods, p: Pod)
    requires n.pods == Some([p]) && Consumes(p)
    requires RequestedCpu(p) == n.node.allocatableCpu && RequestedMem(p) == n.node.allocatableMem
    ensures NodeBuckets([n]) == [Size(0, 0)]
  {
    OneConsumer(p);
    assert FreeCpu(n) == 0 && FreeMem(n) == 0;
    OneBucket(n);
  }

  lemma OneConsumer(p: Pod)
    requires Consumes(p)
    ensures Sum(Consumers([p]), RequestedCpu) == RequestedCpu(p) && Sum(Consumers([p]), RequestedMem) == RequestedMem(p)
  {
    assert [p][..0] == [];
    assert Consumers([p]) == [] + [p];
    SumSnoc([], p, RequestedCpu);
    SumSnoc([], p, RequestedMem);
  }

  lemma OneBucket(n: NodeWithPods)
    ensures NodeBuckets([n]) == [NodeBucket(n)]
  {
    assert [n][..0] == [] && NodeBuckets([]) == [];
  }

  lemma FullNodeHasNoRoom(c: Scene)
    ensures NodeBuckets([FullNode(c)]) == [Size(0, 0)] && AllListed([FullNode(c)])
  {
    RequestsOfPod(LargeSize(c).cpu, LargeSize(c).mem);
    NodeHasNoRoom(FullNode(c), PodOf(LargeSize(c).cpu, LargeSize(c).mem));
  }

  lemma AskingRequests(c: Scene, mem: nat)
    requires Valid(c)
    ensures RequestedCpu(Asking(c, mem)) == 0 && RequestedMem(Asking(c, mem)) == mem
  {
    RequestsOfPod(0, mem);
    assert Asking(c, mem).containers == PodOf(0, mem).containers;
  }

  lemma PodsFitAlone(c: Scene)
    requires Valid(c)
    ensures FitAlone(Pods(c), LargeSize(c))
  {
    AskingRequests(c, c.small * MIB);
    AskingRequests(c, c.large * MIB);
  }

  lemma RoomOfTwo(a: PoolClaim, b: PoolClaim, pool: string)
    requires PendingClaim(a, pool) && PendingClaim(b, pool)
    ensures Room([b], pool) == [ClaimSize(b)] && Room([a, b], pool) == [ClaimSize(a), ClaimSize(b)]
  {
    RoomOfOne(a, pool);
    RoomOfOne(b, pool);
    RoomConcat([a], [b], pool);
    assert [a] + [b] == [a, b];
  }

  lemma RoomsListed(c: Scene, name: string)
    ensures Room([Older(c)], c.pool.name) == [SmallSize(c)]
    ensures Room([Newer(c, name), Older(c)], c.pool.name) == [LargeSize(c), SmallSize(c)]
  {
    RoomOfTwo(Newer(c, name), Older(c), c.pool.name);
  }

  // ----- the plans

  /** Two pods that ask for memory alone, in their order. */
  lemma TwoPodsOpen(p: Pod, q: Pod, buckets: seq<Size>, t: Size, rs: seq<Size>)
    requires RequestedCpu(p) == 0 && RequestedCpu(q) == 0 && RequestedMem(p) > 0 && RequestedMem(q) > 0
    requires Fill(buckets, [Demand(p, 0, RequestedMem(p)), Demand(q, 0, RequestedMem(q))], t) == rs
    ensures |NewBins([p, q], buckets, t)| == |rs| - |buckets|
  {
    var ds := [Demand(p, 0, RequestedMem(p)), Demand(q, 0, RequestedMem(q))];
    assert [p, q][..1] == [p] && [p][..0] == [];
    assert Demands([p]) == [ds[0]];
    assert Demands([p, q]) == ds;
    SortedStays(ds);
    FillFollows(buckets, ds, t);
    NewBinsCount([p, q], buckets, t);
  }

  lemma FillsAndOpens(z: Size, s: Size, t: Size, d: Demand, e: Demand)
    requires !Fits(d, z) && Fits(d, s) && !Fits(e, z) && !Fits(e, Less(s, d))
    ensures |Fill([z, s], [d, e], t)| == 3
  {
    GoesSecond(z, s, d, t);
    FillStep([z, s], [], d, t, [z, s], 1, [z, Less(s, d)]);
    GoesThird(z, Less(s, d), e, t);
    FillStep([z, s], [] + [d], e, t, [z, Less(s, d)], 2, [z, Less(s, d)] + [Less(OpenFor(e, t).size, e)]);
    assert [] + [d] + [e] == [d, e];
  }

  lemma GoesInMiddle(z: Size, x: Size, y: Size, d: Demand, template: Size)
    requires !Fits(d, z) && Fits(d, x)
    ensures Goes([z, x, y], d, 1, template, [z, Less(x, d), y])
  {
  }

  lemma GoesFourth(z: Size, x: Size, y: Size, d: Demand, template: Size)
    requires !Fits(d, z) && !Fits(d, x) && !Fits(d, y)
    ensures Goes([z, x, y], d, 3, template, [z, x, y] + [Less(OpenFor(d, template).size, d)])
  {
  }

  lemma WastesAndOpens(z: Size, s: Size, t: Size, d: Demand, e: Demand)
    requires !Fits(d, z) && Fits(d, t) && !Fits(e, z) && !Fits(e, Less(t, d)) && !Fits(e, s)
    ensures |Fill([z, t, s], [d, e], t)| == 4
  {
    GoesInMiddle(z, t, s, d, t);
    FillStep([z, t, s], [], d, t, [z, t, s], 1, [z, Less(t, d), s]);
    GoesFourth(z, Less(t, d), s, e, t);
    FillStep([z, t, s], [] + [d], e, t, [z, Less(t, d), s], 3, [z, Less(t, d), s] + [Less(OpenFor(e, t).size, e)]);
    assert [] + [d] + [e] == [d, e];
  }

  lemma ListingsOpenOne(c: Scene)
    requires Valid(c)
    ensures |NewBins(Pods(c), [Size(0, 0), SmallSize(c)], LargeSize(c))| == 1
    ensures |NewBins(Pods(c), [Size(0, 0), LargeSize(c), SmallSize(c)], LargeSize(c))| == 1
  {
    var p, q, z, s, t := Pods(c)[0], Pods(c)[1], Size(0, 0), SmallSize(c), LargeSize(c);
    AskingRequests(c, s.mem);
    AskingRequests(c, t.mem);
    var d, e := Demand(p, 0, s.mem), Demand(q, 0, t.mem);
    FillsAndOpens(z, s, t, d, e);
    TwoPodsOpen(p, q, [z, s], t, Fill([z, s], [d, e], t));
    WastesAndOpens(z, s, t, d, e);
    TwoPodsOpen(p, q, [z, t, s], t, Fill([z, t, s], [d, e], t));
  }

  // ----- the decisions

  lemma OpenedForListing(c: Scene, claims: seq<PoolClaim>)
    requires Valid(c)
    ensures OpenedBins(c.pool, Reads(c, claims), claims)
      == NewBins(Pods(c), [Size(0, 0)] + Room(claims, c.pool.name), LargeSize(c))
  {
    PodsAreAccepted(c);
    FullNodeHasNoRoom(c);
  }

  lemma LargeIsWhole(c: Scene)
    ensures RoundUp(LargeSize(c)) == Asked(c) && Whole(LargeSize(c))
  {
    assert CeilDiv(c.cores * MILLI, MILLI) == c.cores;
    assert CeilDiv(c.large * MIB, MIB) == c.large;
  }

  lemma ListingPlans(c: Scene, claims: seq<PoolClaim>)
    requires Valid(c) && |NewBins(Pods(c), [Size(0, 0)] + Room(claims, c.pool.name), LargeSize(c))| == 1
    ensures PlannedClaims(c.pool, Reads(c, claims), claims) == [Asked(c)]
    ensures forall b :: b in OpenedBins(c.pool, Reads(c, claims), claims) ==> Whole(b.size)
  {
    var bins := NewBins(Pods(c), [Size(0, 0)] + Room(claims, c.pool.name), LargeSize(c));
    OpenedForListing(c, claims);
    PodsFitAlone(c);
    FittingPodsOpenTemplates(Pods(c), [Size(0, 0)] + Room(claims, c.pool.name), LargeSize(c));
    PlannedAreOpened(c.pool, Reads(c, claims), claims);
    LargeIsWhole(c);
    assert bins[0] in bins;
  }

  lemma ListingGoes(c: Scene, claims: seq<PoolClaim>)
    requires Valid(c) && PlannedClaims(c.pool, Reads(c, claims), claims) == [Asked(c)]
    ensures Decide(c.pool, UNLIMITED, Reads(c, claims)) == Go([Asked(c)])
  {
    PodsAreAccepted(c);
    FullNodeHasNoRoom(c);
  }

  lemma FirstDecision(c: Scene)
    requires Valid(c)
    ensures Decide(c.pool, UNLIMITED, Reads(c, [Older(c)])) == Go([Asked(c)])
    ensures forall b :: b in OpenedBins(c.pool, Reads(c, [Older(c)]), [Older(c)]) ==> Whole(b.size)
  {
    RoomsListed(c, "");
    ListingsOpenOne(c);
    assert [Size(0, 0)] + [SmallSize(c)] == [Size(0, 0), SmallSize(c)];
    ListingPlans(c, [Older(c)]);
    ListingGoes(c, [Older(c)]);
  }

  lemma SecondDecision(c: Scene, name: string)
    requires Valid(c)
    ensures Decide(c.pool, UNLIMITED, Reads(c, [Newer(c, name), Older(c)])) == Go([Asked(c)])
  {
    RoomsListed(c, name);
    ListingsOpenOne(c);
    assert [Size(0, 0)] + [LargeSize(c), SmallSize(c)] == [Size(0, 0), LargeSize(c), SmallSize(c)];
    ListingPlans(c, [Newer(c, name), Older(c)]);
    ListingGoes(c, [Newer(c, name), Older(c)]);
  }

  lemma NamesAreFree(c: Scene, sequence: nat)
    ensures Unhindered([Older(c)], c.pool, sequence, 1, AllCreated)
  {
    forall n: nat | sequence <= n < sequence + 1 ensures !HasClaim([Older(c)], ClaimName(c.pool.name, n)) {
      assert ClaimName(c.pool.name, n) != "";
    }
  }

  /** The one claim a step asks for is stored behind the others. */
  lemma OneIsStored(s: PoolState, pool: Pool, limits: Limits, i: ScaleUpInput, r: ClaimResources)
    requires i.claims == Some(s.claims) && Decide(pool, limits, i) == Go([r])
    requires Unhindered(s.claims, pool, FirstSequence(s), 1, i.ensured)
    ensures r.cpuCores >= 0 && r.memoryMiB >= 0
    ensures StoreAfter(s, pool, limits, i)
      == s.claims + [NewClaim(pool, ClaimName(pool.name, FirstSequence(s)), r, i.createdAt)]
  {
    StoreAfterBatch(s, pool, limits, i);
    assert r in [r] && [r][1..] == [];
    assert CreatedFor(pool, FirstSequence(s), [r], i.createdAt)
      == [NewClaim(pool, ClaimName(pool.name, FirstSequence(s)), r, i.createdAt)];
  }

  /**
   In another order the guarantee fails, for every pool, node size and older claim with less memory: a batch is created
   as planned, and when the same claims are then listed with the new one in front, the same pods make the pool ask for
   one more.
   */
  lemma RelistingScalesUpAgain(c: Scene, s: PoolState) returns (i: ScaleUpInput, later: ScaleUpInput)
    requires Valid(c) && s.claims == [Older(c)]
    ensures CreatedAsPlanned(s, c.pool, UNLIMITED, i) && SeesAgain(i, later)
    ensures multiset(later.claims.value) == multiset(StoreAfter(s, c.pool, UNLIMITED, i))
    ensures Decide(c.pool, UNLIMITED, later) == Go([Asked(c)])
  {
    var newer := Newer(c, ClaimName(c.pool.name, FirstSequence(s)));
    i, later := Reads(c, [Older(c)]), Reads(c, [newer, Older(c)]);
    FirstDecision(c);
    NamesAreFree(c, FirstSequence(s));
    OneIsStored(s, c.pool, UNLIMITED, i, Asked(c));
    SecondDecision(c, newer.name);
    assert multiset([newer, Older(c)]) == multiset([Older(c)] + [newer]);
  }
}
