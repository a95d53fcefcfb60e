/**
 A pool is reconciled again as soon as one of its claims changes, with the same pods still pending. When that
 opens nothing more, and when it should but does not.
 */
module RepeatedScaleUp {
  import opened Common
  import opened KubeObjects
  import opened CapacityPlanner
  import opened PackingBound
  import opened Replanning
  import opened ListingOrder
  import opened PoolMatching
  import opened Accounting
  import opened ClaimNaming
  import opened ScaleUp
  import ClaimRecord
  import ClaimRuns
  import ClaimTheorems

  // ----- buckets of a longer claim list

  lemma {:induction false} PendingConcat(a: seq<PoolClaim>, b: seq<PoolClaim>, pool: string)
    ensures PendingClaims(a + b, pool) == PendingClaims(a, pool) + PendingClaims(b, pool)
  {
    if b == [] {
      assert a + b == a;
    } else {
      PendingConcat(a, b[..|b| - 1], pool);
      assert (a + b)[..|a + b| - 1] == a + b[..|b| - 1];
    }
  }

  lemma {:induction false} SizesConcat(a: seq<PoolClaim>, b: seq<PoolClaim>)
    ensures ClaimSizes(a + b) == ClaimSizes(a) + ClaimSizes(b)
  {
    if b == [] {
      assert a + b == a;
    } else {
      SizesConcat(a, b[..|b| - 1]);
      assert (a + b)[..|a + b| - 1] == a + b[..|b| - 1];
    }
  }

  function Room(claims: seq<PoolClaim>, pool: string): seq<Size> {
    ClaimSizes(PendingClaims(claims, pool))
  }

  lemma RoomConcat(a: seq<PoolClaim>, b: seq<PoolClaim>, pool: string)
    ensures Room(a + b, pool) == Room(a, pool) + Room(b, pool)
  {
    PendingConcat(a, b, pool);
    SizesConcat(PendingClaims(a, pool), PendingClaims(b, pool));
  }

  // ----- the claims a whole batch creates

  function CreatedFor(pool: Pool, sequence: nat, specs: seq<ClaimResources>, at: int): seq<PoolClaim>
    requires NonNegative(specs)
    decreases |specs|
  {
    if specs == [] then []
    else
      [NewClaim(pool, ClaimName(pool.name, sequence), specs[0], at)] + CreatedFor(pool, sequence + 1, specs[1..], at)
  }

  /** Every name of the batch is free, and every creation goes through. */
  ghost predicate Unhindered(
    claims: seq<PoolClaim>, pool: Pool, sequence: nat, count: nat, ensured: string -> Ensured)
  {
    forall n: nat :: sequence <= n < sequence + count ==>
      ensured(ClaimName(pool.name, n)).Created? && !HasClaim(claims, ClaimName(pool.name, n))
  }

  lemma StillUnhindered(
    claims: seq<PoolClaim>, pool: Pool, sequence: nat, count: nat, ensured: string -> Ensured, c: PoolClaim)
    requires count > 0 && Unhindered(claims, pool, sequence, count, ensured)
    requires c.name == ClaimName(pool.name, sequence)
    ensures Unhindered(claims + [c], pool, sequence + 1, count - 1, ensured)
  {
    forall n: nat | sequence < n < sequence + count
      ensures ensured(ClaimName(pool.name, n)).Created? && !HasClaim(claims + [c], ClaimName(pool.name, n))
    {
      if ClaimName(pool.name, n) == c.name {
        ClaimNameIsInjective(pool.name, n, pool.name, sequence);
      }
      assert !HasClaim(claims, ClaimName(pool.name, n));
    }
  }

  lemma {:induction false} WholeBatchIsCreated(
    claims: seq<PoolClaim>, pool: Pool, sequence: nat, specs: seq<ClaimResources>, ensured: string -> Ensured, at: int)
    requires NonNegative(specs) && Unhindered(claims, pool, sequence, |specs|, ensured)
    ensures CreateClaims(claims, pool, sequence, specs, ensured, at)
      == Creation(claims + CreatedFor(pool, sequence, specs, at), sequence + |specs|, true)
    decreases |specs|
  {
    if specs == [] {
      assert claims + [] == claims;
    } else {
      var name := ClaimName(pool.name, sequence);
      var c := NewClaim(pool, name, specs[0], at);
      assert ensured(name).Created? && !HasClaim(claims, name);
      StillUnhindered(claims, pool, sequence, |specs|, ensured, c);
      WholeBatchIsCreated(claims + [c], pool, sequence + 1, specs[1..], ensured, at);
      var rest := CreatedFor(pool, sequence + 1, specs[1..], at);
      assert (claims + [c]) + rest == claims + ([c] + rest);
    }
  }

  function SpecSize(r: ClaimResources): Size {
    Size(r.cpuCores * MILLI, r.memoryMiB * MIB)
  }

  function SpecSizes(specs: seq<ClaimResources>): seq<Size> {
    seq(|specs|, j requires 0 <= j < |specs| => SpecSize(specs[j]))
  }

  lemma {:induction false} RoomOfCreated(pool: Pool, sequence: nat, specs: seq<ClaimResources>, at: int)
    requires NonNegative(specs)
    ensures Room(CreatedFor(pool, sequence, specs, at), pool.name) == SpecSizes(specs)
    decreases |specs|
  {
    if specs != [] {
      var c := NewClaim(pool, ClaimName(pool.name, sequence), specs[0], at);
      RoomOfCreated(pool, sequence + 1, specs[1..], at);
      RoomConcat([c], CreatedFor(pool, sequence + 1, specs[1..], at), pool.name);
      RoomOfOne(c, pool.name);
      SpecSizesCons(specs);
    }
  }

  lemma SpecSizesCons(specs: seq<ClaimResources>)
    requires specs != []
    ensures SpecSizes(specs) == [SpecSize(specs[0])] + SpecSizes(specs[1..])
  {
  }

  lemma RoomOfOne(c: PoolClaim, pool: string)
    ensures Room([c], pool) == if PendingClaim(c, pool) then [ClaimSize(c)] else []
  {
    assert [c][..0] == [];
    assert PendingClaims([], pool) == [] && ClaimSizes([]) == [];
    assert ClaimSizes([c]) == [ClaimSize(c)];
    assert PendingClaims([c], pool) == if PendingClaim(c, pool) then [c] else [];
  }

  // ----- the second reconcile

  function BucketsOf(pool: Pool, i: ScaleUpInput, claims: seq<PoolClaim>): seq<Size> {
    NodeBuckets(ListedNodes(i)) + Room(claims, pool.name)
  }

  /** The bins the planner opens for what the reconcile reads. */
  function OpenedBins(pool: Pool, i: ScaleUpInput, claims: seq<PoolClaim>): seq<Bin> {
    var candidates := AcceptedPods(i.pods, pool);
    NewBins(candidates, BucketsOf(pool, i, claims),
            NodeCapacity(pool.name, ListedNodes(i), claims, candidates))
  }

  lemma PlannedAreOpened(pool: Pool, i: ScaleUpInput, claims: seq<PoolClaim>)
    ensures PlannedClaims(pool, i, claims) == ClaimsFor(OpenedBins(pool, i, claims))
  {
  }

  lemma RoomAfterBatch(pool: Pool, claims: seq<PoolClaim>, sequence: nat, bins: seq<Bin>, at: int)
    requires NonNegative(ClaimsFor(bins)) && forall b :: b in bins ==> Whole(b.size)
    ensures Room(claims + CreatedFor(pool, sequence, ClaimsFor(bins), at), pool.name)
      == Room(claims, pool.name) + SizesOf(bins)
  {
    RoomConcat(claims, CreatedFor(pool, sequence, ClaimsFor(bins), at), pool.name);
    RoomOfCreated(pool, sequence, ClaimsFor(bins), at);
    WholeSpecs(bins);
  }

  lemma WholeSpecs(bins: seq<Bin>)
    requires forall b :: b in bins ==> Whole(b.size)
    ensures SpecSizes(ClaimsFor(bins)) == SizesOf(bins)
  {
    forall j | 0 <= j < |bins| ensures SpecSize(ClaimsFor(bins)[j]) == bins[j].size {
      assert bins[j] in bins;
      RoundingIsIdleIffWhole(bins[j].size);
    }
  }

  /** A later reconcile that reads the same pods and nodes, and some claims. */
  predicate SeesAgain(i: ScaleUpInput, later: ScaleUpInput) {
    later.pods == i.pods && later.nodes == i.nodes && later.claims.Some?
  }

  lemma PlannedSizes(pool: Pool, i: ScaleUpInput, claims: seq<PoolClaim>, room: seq<Size>)
    requires Room(claims, pool.name) + SizesOf(OpenedBins(pool, i, claims)) <= room
    ensures
      var candidates, nodes := AcceptedPods(i.pods, pool), ListedNodes(i);
      SizesOf(Plan(candidates, BucketsOf(pool, i, claims), NodeCapacity(pool.name, nodes, claims, candidates)))
      <= NodeBuckets(nodes) + room
  {
    var candidates, nodes := AcceptedPods(i.pods, pool), ListedNodes(i);
    SizesInTwoParts(candidates, BucketsOf(pool, i, claims), NodeCapacity(pool.name, nodes, claims, candidates));
    ConcatAssociates(NodeBuckets(nodes), Room(claims, pool.name), SizesOf(OpenedBins(pool, i, claims)));
    PrefixUnderConcat(NodeBuckets(nodes), Room(claims, pool.name) + SizesOf(OpenedBins(pool, i, claims)), room);
  }

  lemma ConcatAssociates(a: seq<Size>, b: seq<Size>, c: seq<Size>)
    ensures (a + b) + c == a + (b + c)
  {
  }

  lemma PrefixUnderConcat(a: seq<Size>, b: seq<Size>, c: seq<Size>)
    requires b <= c
    ensures a + b <= a + c
  {
  }

  lemma OpensNothingAgain(pool: Pool, i: ScaleUpInput, later: ScaleUpInput, claims: seq<PoolClaim>)
    requires SeesAgain(i, later)
    requires Room(claims, pool.name) + SizesOf(OpenedBins(pool, i, claims)) <= Room(later.claims.value, pool.name)
    ensures PlannedClaims(pool, later, later.claims.value) == []
  {
    var candidates, nodes := AcceptedPods(i.pods, pool), ListedNodes(i);
    PlannedSizes(pool, i, claims, Room(later.claims.value, pool.name));
    ReplanOpensNothing(candidates, BucketsOf(pool, i, claims), BucketsOf(pool, later, later.claims.value),
                       NodeCapacity(pool.name, nodes, claims, candidates),
                       NodeCapacity(pool.name, nodes, later.claims.value, candidates));
    PlannedAreOpened(pool, later, later.claims.value);
  }

  /** The step planned in the sizes its claims really have, and created all of them. */
  ghost predicate CreatedAsPlanned(s: PoolState, pool: Pool, limits: Limits, i: ScaleUpInput) {
    && i.claims == Some(s.claims) && Decide(pool, limits, i).Go?
    && (forall b :: b in OpenedBins(pool, i, s.claims) ==> Whole(b.size))
    && Unhindered(s.claims, pool, FirstSequence(s), |Decide(pool, limits, i).specs|, i.ensured)
  }

  function StoreAfter(s: PoolState, pool: Pool, limits: Limits, i: ScaleUpInput): seq<PoolClaim> {
    ScaleUpStep(s, pool, limits, i).0.claims
  }

  lemma StoreAfterBatch(s: PoolState, pool: Pool, limits: Limits, i: ScaleUpInput)
    requires i.claims == Some(s.claims) && Decide(pool, limits, i).Go?
    requires Unhindered(s.claims, pool, FirstSequence(s), |Decide(pool, limits, i).specs|, i.ensured)
    ensures NonNegative(Decide(pool, limits, i).specs)
    ensures StoreAfter(s, pool, limits, i)
      == s.claims + CreatedFor(pool, FirstSequence(s), Decide(pool, limits, i).specs, i.createdAt)
  {
    DecidedAreNonNegative(pool, limits, i);
    WholeBatchIsCreated(s.claims, pool, FirstSequence(s), Decide(pool, limits, i).specs, i.ensured, i.createdAt);
  }

  lemma DecidedAreOpened(pool: Pool, limits: Limits, i: ScaleUpInput, claims: seq<PoolClaim>)
    requires i.claims == Some(claims) && Decide(pool, limits, i).Go?
    ensures Decide(pool, limits, i).specs == ClaimsFor(OpenedBins(pool, i, claims))
  {
    PlannedAreOpened(pool, i, claims);
  }

  lemma RoomAfterStep(s: PoolState, pool: Pool, limits: Limits, i: ScaleUpInput)
    requires CreatedAsPlanned(s, pool, limits, i)
    ensures Room(StoreAfter(s, pool, limits, i), pool.name)
      == Room(s.claims, pool.name) + SizesOf(OpenedBins(pool, i, s.claims))
  {
    StoreAfterBatch(s, pool, limits, i);
    DecidedAreOpened(pool, limits, i, s.claims);
    RoomAfterBatch(pool, s.claims, FirstSequence(s), OpenedBins(pool, i, s.claims), i.createdAt);
  }

  /**
   Repeating a scale-up is harmless as long as the order of the listing stays: after a batch created as planned, every
   later reconcile with the same pods and nodes asks for nothing, if the pool's pending claims are listed as after
   the batch, whatever others come behind, and whichever claim gives the template by then.
   */
  lemma SecondScaleUpIsQuiet(s: PoolState, pool: Pool, limits: Limits, i: ScaleUpInput, later: ScaleUpInput)
    requires CreatedAsPlanned(s, pool, limits, i) && SeesAgain(i, later)
    requires Room(StoreAfter(s, pool, limits, i), pool.name) <= Room(later.claims.value, pool.name)
    ensures Decide(pool, limits, later) == Skip(Reply(0, false))
  {
    RoomAfterStep(s, pool, limits, i);
    OpensNothingAgain(pool, i, later, s.claims);
  }

  // ----- the second reconcile, in any order

  lemma {:induction false} PendingCount(claims: seq<PoolClaim>, pool: string, c: PoolClaim)
    ensures multiset(PendingClaims(claims, pool))[c] == if PendingClaim(c, pool) then multiset(claims)[c] else 0
  {
    if claims != [] {
      var init, last := claims[..|claims| - 1], claims[|claims| - 1];
      assert claims == init + [last];
      PendingCount(init, pool, c);
    }
  }

  /** More claims in any order have at least as much pending. */
  lemma PendingKeepsOrder(a: seq<PoolClaim>, b: seq<PoolClaim>, pool: string)
    requires multiset(a) <= multiset(b)
    ensures multiset(PendingClaims(a, pool)) <= multiset(PendingClaims(b, pool))
  {
    forall c ensures multiset(PendingClaims(a, pool))[c] <= multiset(PendingClaims(b, pool))[c] {
      PendingCount(a, pool, c);
      PendingCount(b, pool, c);
    }
  }

  lemma {:induction false} SizesCount(claims: seq<PoolClaim>, size: Size)
    requires forall c :: c in claims ==> ClaimSize(c) == size
    ensures |ClaimSizes(claims)| == |claims| && AllOfSize(ClaimSizes(claims), size)
  {
    if claims != [] {
      var init, last := claims[..|claims| - 1], claims[|claims| - 1];
      assert claims == init + [last];
      SizesCount(init, size);
    }
  }

  lemma CardinalityOfPart<T>(a: seq<T>, b: seq<T>)
    requires multiset(a) <= multiset(b)
    ensures |a| <= |b|
  {
    assert multiset(b) == multiset(a) + (multiset(b) - multiset(a));
    assert |multiset(a)| == |a| && |multiset(b)| == |b|;
  }

  /** The pool's pending claims are all of one size. */
  predicate PendingOfSize(claims: seq<PoolClaim>, pool: string, size: Size) {
    forall c :: c in claims && PendingClaim(c, pool) ==> ClaimSize(c) == size
  }

  lemma {:induction false} PendingAreListed(claims: seq<PoolClaim>, pool: string)
    ensures forall c :: c in PendingClaims(claims, pool) ==> c in claims && PendingClaim(c, pool)
  {
    if claims != [] {
      var init, last := claims[..|claims| - 1], claims[|claims| - 1];
      assert claims == init + [last];
      PendingAreListed(init, pool);
    }
  }

  lemma PrefixByCount(a: seq<Size>, b: seq<Size>, size: Size)
    requires AllOfSize(a, size) && AllOfSize(b, size) && |a| <= |b|
    ensures a <= b
  {
  }

  lemma RoomInAnyOrder(a: seq<PoolClaim>, b: seq<PoolClaim>, pool: string, size: Size)
    requires multiset(a) <= multiset(b) && PendingOfSize(b, pool, size)
    ensures Room(a, pool) <= Room(b, pool)
  {
    var p, q := PendingClaims(a, pool), PendingClaims(b, pool);
    PendingKeepsOrder(a, b, pool);
    PendingAreListed(b, pool);
    assert forall c :: c in p ==> c in multiset(q);
    SizesCount(p, size);
    SizesCount(q, size);
    CardinalityOfPart(p, q);
    PrefixByCount(ClaimSizes(p), ClaimSizes(q), size);
  }

  /**
   The listing may come in any order, and with claims of others in between, where the pool's pending claims are all of
   one size.
   */
  lemma SecondScaleUpIsQuietInAnyOrder(
    s: PoolState, pool: Pool, limits: Limits, i: ScaleUpInput, later: ScaleUpInput, size: Size)
    requires CreatedAsPlanned(s, pool, limits, i) && SeesAgain(i, later)
    requires multiset(StoreAfter(s, pool, limits, i)) <= multiset(later.claims.value)
    requires PendingOfSize(later.claims.value, pool.name, size)
    ensures Decide(pool, limits, later) == Skip(Reply(0, false))
  {
    RoomInAnyOrder(StoreAfter(s, pool, limits, i), later.claims.value, pool.name, size);
    SecondScaleUpIsQuiet(s, pool, limits, i, later);
  }

  // ----- room that never comes

  predicate HasRoomFor(sizes: seq<Size>, pod: Pod) {
    exists j :: 0 <= j < |sizes| && sizes[j].cpu >= RequestedCpu(pod) && sizes[j].mem >= RequestedMem(pod)
  }

  /** For one pod the planner opens a claim exactly if no bucket has room for it. */
  lemma OnePodIsPlacedIff(pod: Pod, buckets: seq<Size>, template: Size)
    requires RequestedCpu(pod) > 0 || RequestedMem(pod) > 0
    ensures NewBins([pod], buckets, template) == [] <==> HasRoomFor(buckets, pod)
  {
    var d, empty := Demand(pod, RequestedCpu(pod), RequestedMem(pod)), EmptyBins(buckets);
    SingleDemand(pod);
    assert [d][..0] == [];
    assert Pack(empty, [], template) == empty;
    assert Plan([pod], buckets, template) == Place(empty, d, template);
    NewBinsCount([pod], buckets, template);
    forall j | 0 <= j < |buckets|
      ensures Fits(d, Free(empty[j])) <==> buckets[j].cpu >= d.cpu && buckets[j].mem >= d.mem
    {
      EmptyHasRoom(buckets[j], d);
    }
    assert HasRoomFor(buckets, pod) <==> exists j :: 0 <= j < |buckets| && Fits(d, Free(empty[j]));
  }

  predicate Covers(c: PoolClaim, pod: Pod) {
    ClaimCpu(c) >= RequestedCpu(pod) && ClaimMem(c) >= RequestedMem(pod)
  }

  predicate SomeClaimCovers(claims: seq<PoolClaim>, pool: string, pod: Pod) {
    exists c :: c in claims && PendingClaim(c, pool) && Covers(c, pod)
  }

  lemma RoomOfConcat(a: seq<Size>, b: seq<Size>, pod: Pod)
    ensures HasRoomFor(a + b, pod) <==> HasRoomFor(a, pod) || HasRoomFor(b, pod)
  {
    assert forall j :: 0 <= j < |a| ==> (a + b)[j] == a[j];
    assert forall j :: 0 <= j < |b| ==> (a + b)[|a| + j] == b[j];
  }

  lemma OneClaimRoomIff(c: PoolClaim, pool: string, pod: Pod)
    ensures HasRoomFor(Room([c], pool), pod) <==> PendingClaim(c, pool) && Covers(c, pod)
  {
    RoomOfOne(c, pool);
    if PendingClaim(c, pool) {
      assert Room([c], pool)[0] == ClaimSize(c);
    }
  }

  lemma {:induction false} ClaimRoomIff(claims: seq<PoolClaim>, pool: string, pod: Pod)
    ensures HasRoomFor(Room(claims, pool), pod) <==> SomeClaimCovers(claims, pool, pod)
  {
    if claims != [] {
      var init, c := claims[..|claims| - 1], claims[|claims| - 1];
      ClaimRoomIff(init, pool, pod);
      assert claims == init + [c];
      RoomConcat(init, [c], pool);
      RoomOfConcat(Room(init, pool), Room([c], pool), pod);
      OneClaimRoomIff(c, pool, pod);
      assert forall x :: x in claims <==> x in init || x == c;
    }
  }

  /** The pod requests something and is the only one accepted; claims and pods on nodes are listed. */
  predicate ReadsOnePod(pool: Pool, i: ScaleUpInput, pod: Pod) {
    && AcceptedPods(i.pods, pool) == [pod] && (RequestedCpu(pod) > 0 || RequestedMem(pod) > 0)
    && i.claims.Some? && AllListed(ListedNodes(i))
  }

  /**
   A lone pod is answered by a new claim exactly if neither a node has room for it nor any unready claim of the pool
   is large enough. Whether that claim is being deleted, stale or failed is not asked.
   */
  lemma LonePodIsAnsweredIff(pool: Pool, i: ScaleUpInput, pod: Pod)
    requires ReadsOnePod(pool, i, pod)
    ensures PlannedClaims(pool, i, i.claims.value) == [] <==>
      HasRoomFor(NodeBuckets(ListedNodes(i)), pod) || SomeClaimCovers(i.claims.value, pool.name, pod)
  {
    var nodes, claims := ListedNodes(i), i.claims.value;
    OnePodIsPlacedIff(pod, BucketsOf(pool, i, claims), NodeCapacity(pool.name, nodes, claims, [pod]));
    RoomOfConcat(NodeBuckets(nodes), Room(claims, pool.name), pod);
    ClaimRoomIff(claims, pool.name, pod);
  }

  /** A dead claim large enough for the pod keeps it waiting, without a requeue. */
  lemma DeadClaimKeepsPodWaiting(pool: Pool, limits: Limits, i: ScaleUpInput, pod: Pod, c: PoolClaim)
    requires ReadsOnePod(pool, i, pod)
    requires c in i.claims.value && PendingClaim(c, pool.name) && Covers(c, pod)
    ensures Decide(pool, limits, i) == Skip(Reply(0, false))
    ensures c.deleting || Stale(c, i.now) ==> !Inflight(c, pool.name, i.now)
  {
    LonePodIsAnsweredIff(pool, i, pod);
  }

  /**
   For a failed claim this never ends: in every run of the claim controller, from the moment the claim failed on, the
   pool controller answers no pod that would fit into it, as long as the claim exists.
   */
  lemma FailedClaimKeepsPodWaiting(
    worlds: seq<ClaimRuns.World>, steps: seq<ClaimRuns.Step>, j: nat, k: nat,
    pool: Pool, limits: Limits, i: ScaleUpInput, pod: Pod, c: PoolClaim)
    requires ClaimRuns.Run(worlds, steps) && j <= k < |worlds| && ClaimTheorems.HasFailed(worlds[j])
    requires c.ready == ClaimRecord.IsTrue(worlds[k].claim.status.conditions, ClaimRecord.Ready)
    requires c.poolRef == pool.name && c.requirements.Some? && Covers(c, pod)
    requires ReadsOnePod(pool, i, pod) && c in i.claims.value
    ensures Decide(pool, limits, i) == Skip(Reply(0, false))
  {
    ClaimTheorems.FailedIsFinal(worlds, steps, j, k);
    ClaimTheorems.EveryRecordIsWellShaped(worlds, steps, k);
    DeadClaimKeepsPodWaiting(pool, limits, i, pod, c);
  }
}
