/** Scaling up a pool: the checks against its limits, and the loop that creates the planned claims. */
module ScaleUp {
  import opened Common
  import opened KubeObjects
  import opened CapacityPlanner
  import opened PackingBound
  import opened PoolMatching
  import opened Accounting
  import opened ClaimNaming

  /** Zero means unlimited. */
  datatype Limits = Limits(maxNodes: int, cpuCores: int, memoryMiB: int)

  /** The claims in the namespace and the pool's own status. */
  datatype PoolState = PoolState(claims: seq<PoolClaim>, nextSequence: int, lastScaleActivity: Option<int>)

  /**
   How making sure that one claim exists turns out; in `CreateUnacknowledged` the claim was created but
   an error came back, in `LostRace` another writer created a claim of that name after it was looked up.
   */
  datatype Ensured = LookupFailed | CreateFailed | CreateUnacknowledged | LostRace(rival: PoolClaim) | Created

  datatype ScaleUpInput = ScaleUpInput(
    pods: seq<Pod>,
    nodes: Option<seq<NodeWithPods>>,
    claims: Option<seq<PoolClaim>>,
    now: int,
    usageNodes: Option<seq<NodeWithPods>>,
    ensured: string -> Ensured,
    createdAt: int,
    statusTime: int,
    write: Write)

  datatype Reply = Reply(requeueAfter: int, error: bool)

  // ----- the size of a new node

  predicate SizedClaim(c: PoolClaim, pool: string) {
    c.poolRef == pool && c.requirements.Some?
    && c.requirements.value.cpuCores > 0 && c.requirements.value.memoryMiB > 0
  }

  function FirstSized(claims: seq<PoolClaim>, pool: string): Option<PoolClaim> {
    if claims == [] then None
    else if SizedClaim(claims[0], pool) then Some(claims[0])
    else FirstSized(claims[1..], pool)
  }

  function LargestPod(pods: seq<Pod>): Size {
    if pods == [] then Size(0, 0)
    else
      var s, p := LargestPod(pods[..|pods| - 1]), pods[|pods| - 1];
      Size(Max(s.cpu, RequestedCpu(p)), Max(s.mem, RequestedMem(p)))
  }

  function NodeCapacity(pool: string, nodes: seq<NodeWithPods>, claims: seq<PoolClaim>, pods: seq<Pod>): Size {
    if nodes != [] then Size(nodes[0].node.allocatableCpu, nodes[0].node.allocatableMem)
    else
      match FirstSized(claims, pool)
      case Some(c) => ClaimSize(c)
      case None => LargestPod(pods)
  }

  /** Like an existing node, else like an existing claim of the pool, else as large as the pods need. */
  method DetermineNodeCapacity(pool: string, nodes: seq<NodeWithPods>, claims: seq<PoolClaim>, pods: seq<Pod>)
    returns (capacity: Size)
    ensures capacity == NodeCapacity(pool, nodes, claims, pods)
  {
    if |nodes| > 0 {
      return Size(nodes[0].node.allocatableCpu, nodes[0].node.allocatableMem);
    }
    for i := 0 to |claims|
      invariant FirstSized(claims, pool) == FirstSized(claims[i..], pool)
    {
      assert claims[i..][1..] == claims[i + 1..];
      var claim := claims[i];
      if claim.poolRef != pool {
        continue;
      }
      if claim.requirements.None? {
        continue;
      }
      var req := claim.requirements.value;
      if req.cpuCores > 0 && req.memoryMiB > 0 {
        return Size(req.cpuCores * MILLI, req.memoryMiB * MIB);
      }
    }
    capacity := Size(0, 0);
    for i := 0 to |pods|
      invariant capacity == LargestPod(pods[..i])
    {
      assert pods[..i + 1][..i] == pods[..i];
      var cpu, mem := GetRequestedResources(pods[i]);
      if cpu > capacity.cpu {
        capacity := capacity.(cpu := cpu);
      }
      if mem > capacity.mem {
        capacity := capacity.(mem := mem);
      }
    }
    assert pods[..|pods|] == pods;
  }

  /** The fallback size is the least that covers every pod's requests, so no pod outgrows it. */
  lemma {:induction false} LargestPodIsLeastCover(pods: seq<Pod>)
    ensures forall p :: p in pods ==> RequestedCpu(p) <= LargestPod(pods).cpu && RequestedMem(p) <= LargestPod(pods).mem
    ensures pods != [] ==>
      && (exists p :: p in pods && RequestedCpu(p) == LargestPod(pods).cpu)
      && (exists p :: p in pods && RequestedMem(p) == LargestPod(pods).mem)
  {
    if pods != [] {
      var init, last := pods[..|pods| - 1], pods[|pods| - 1];
      LargestPodIsLeastCover(init);
      assert forall p :: p in pods <==> p in init || p == last;
      assert init == [] ==> LargestPod(init) == Size(0, 0);
    }
  }

  // ----- the limit checks

  function SpecCpu(r: ClaimResources): int { r.cpuCores * MILLI }

  function SpecMem(r: ClaimResources): int { r.memoryMiB * MIB }

  predicate ExceedsPoolLimits(usage: PoolUsage, limits: Limits, pending: Size, added: Size) {
    || (limits.cpuCores > 0 && usage.total.cpu + (pending.cpu + added.cpu) > limits.cpuCores * MILLI)
    || (limits.memoryMiB > 0 && usage.total.mem + (pending.mem + added.mem) > limits.memoryMiB * MIB)
  }

  function ListedNodes(i: ScaleUpInput): seq<NodeWithPods> {
    if i.nodes.Some? then i.nodes.value else []
  }

  /** The claims the planner asks for. */
  function PlannedClaims(pool: Pool, i: ScaleUpInput, claims: seq<PoolClaim>): seq<ClaimResources> {
    var candidates := AcceptedPods(i.pods, pool);
    var nodes := ListedNodes(i);
    ClaimsFor(NewBins(candidates, NodeBuckets(nodes) + ClaimSizes(PendingClaims(claims, pool.name)),
                      NodeCapacity(pool.name, nodes, claims, candidates)))
  }

  datatype Decision = Skip(reply: Reply) | Go(specs: seq<ClaimResources>)

  function Decide(pool: Pool, limits: Limits, i: ScaleUpInput): Decision {
    var candidates, nodes := AcceptedPods(i.pods, pool), ListedNodes(i);
    if candidates == [] then Skip(Reply(0, false))
    else if i.claims.None? then Skip(Reply(MINUTE, false))
    else
      var template := NodeCapacity(pool.name, nodes, i.claims.value, candidates);
      if template.cpu == 0 || template.mem == 0 then Skip(Reply(0, false))
      else if !AllListed(nodes) then Skip(Reply(MINUTE, false))
      else DecideLimits(pool, limits, i, PlannedClaims(pool, i, i.claims.value))
  }

  function DecideLimits(pool: Pool, limits: Limits, i: ScaleUpInput, specs: seq<ClaimResources>): Decision
    requires i.claims.Some?
  {
    if specs == [] then Skip(Reply(0, false))
    else if i.usageNodes.None? then Skip(Reply(MINUTE, false))
    else
      var counts := CountsOf(i.claims.value, pool.name, i.now);
      if limits.maxNodes > 0 && |ListedNodes(i)| + counts.count + |specs| > limits.maxNodes then
        Skip(Reply(30 * SECOND, false))
      else if ExceedsPoolLimits(UsageOf(i.usageNodes.value), limits, Size(counts.cpu, counts.mem),
                                Size(Sum(specs, SpecCpu), Sum(specs, SpecMem))) then
        Skip(Reply(30 * SECOND, false))
      else Go(specs)
  }

  // ----- creating the claims

  predicate HasClaim(claims: seq<PoolClaim>, name: string) {
    exists k :: 0 <= k < |claims| && claims[k].name == name
  }

  function NewClaim(pool: Pool, name: string, r: ClaimResources, at: int): PoolClaim
    requires r.cpuCores >= 0 && r.memoryMiB >= 0
  {
    PoolClaim(name, pool.name, Some(Requirements(r.cpuCores, r.memoryMiB)), false, false, "", Some(at))
  }

  datatype Creation = Creation(claims: seq<PoolClaim>, nextSequence: nat, ok: bool)

  function EnsureClaim(claims: seq<PoolClaim>, pool: Pool, name: string, r: ClaimResources, e: Ensured, at: int)
    : (seq<PoolClaim>, bool)
    requires r.cpuCores >= 0 && r.memoryMiB >= 0
  {
    if e.LookupFailed? then (claims, false)
    else if HasClaim(claims, name) then (claims, true)
    else
      match e
      case CreateFailed => (claims, false)
      case CreateUnacknowledged => (claims + [NewClaim(pool, name, r, at)], false)
      case LostRace(rival) => (claims + [rival.(name := name)], true)
      case _ => (claims + [NewClaim(pool, name, r, at)], true)
  }

  predicate NonNegative(specs: seq<ClaimResources>) {
    forall r :: r in specs ==> r.cpuCores >= 0 && r.memoryMiB >= 0
  }

  /** One claim per planned size with consecutive sequence numbers; the first error ends the loop. */
  function CreateClaims(
    claims: seq<PoolClaim>, pool: Pool, sequence: nat, specs: seq<ClaimResources>,
    ensured: string -> Ensured, at: int): Creation
    requires NonNegative(specs)
    decreases |specs|
  {
    if specs == [] then Creation(claims, sequence, true)
    else
      var name := ClaimName(pool.name, sequence);
      var (after, ok) := EnsureClaim(claims, pool, name, specs[0], ensured(name), at);
      if !ok then Creation(after, sequence + 1, false)
      else CreateClaims(after, pool, sequence + 1, specs[1..], ensured, at)
  }

  function FirstSequence(s: PoolState): nat {
    if s.nextSequence <= 0 then 1 else s.nextSequence
  }

  lemma PlannedIsNonNegative(pods: seq<Pod>, buckets: seq<Size>, template: Size, j: nat)
    requires j < |NewBins(pods, buckets, template)|
    ensures
      var r := ClaimsFor(NewBins(pods, buckets, template))[j];
      r.cpuCores >= 0 && r.memoryMiB >= 0
  {
    var b, r := NewBins(pods, buckets, template)[j], ClaimsFor(NewBins(pods, buckets, template))[j];
    assert 0 <= r.cpuCores * MILLI && 0 <= r.memoryMiB * MIB by {
      PlannedClaimsCover(pods, buckets, template, j);
      WeightNonNegative(b.load, Size(0, 0));
    }
  }

  lemma PlanIsNonNegative(pods: seq<Pod>, buckets: seq<Size>, template: Size)
    ensures NonNegative(ClaimsFor(NewBins(pods, buckets, template)))
  {
    var specs := ClaimsFor(NewBins(pods, buckets, template));
    forall r | r in specs ensures r.cpuCores >= 0 && r.memoryMiB >= 0 {
      var j :| 0 <= j < |specs| && specs[j] == r;
      PlannedIsNonNegative(pods, buckets, template, j);
    }
  }

  lemma DecidedAreNonNegative(pool: Pool, limits: Limits, i: ScaleUpInput)
    ensures Decide(pool, limits, i).Go? ==> NonNegative(Decide(pool, limits, i).specs)
  {
    if i.claims.Some? {
      var candidates, nodes := AcceptedPods(i.pods, pool), ListedNodes(i);
      PlanIsNonNegative(candidates, NodeBuckets(nodes) + ClaimSizes(PendingClaims(i.claims.value, pool.name)),
                        NodeCapacity(pool.name, nodes, i.claims.value, candidates));
    }
  }

  /** The creation loop, and the status write that follows it if no claim failed. */
  function CreateAndRecord(s: PoolState, pool: Pool, specs: seq<ClaimResources>, i: ScaleUpInput): (PoolState, Reply)
    requires NonNegative(specs)
  {
    var c := CreateClaims(s.claims, pool, FirstSequence(s), specs, i.ensured, i.createdAt);
    var created := s.(claims := c.claims);
    if !c.ok then (created, Reply(MINUTE, true))
    else
      (Store(created, created.(nextSequence := c.nextSequence, lastScaleActivity := Some(i.statusTime)), i.write),
       Reply(0, !i.write.Written?))
  }

  function ScaleUpStep(s: PoolState, pool: Pool, limits: Limits, i: ScaleUpInput): (PoolState, Reply) {
    match Decide(pool, limits, i)
    case Skip(reply) => (s, reply)
    case Go(specs) =>
      DecidedAreNonNegative(pool, limits, i);
      CreateAndRecord(s, pool, specs, i)
  }

  // ----- the first node of a pool

  lemma SingleDemand(pod: Pod)
    requires RequestedCpu(pod) > 0 || RequestedMem(pod) > 0
    ensures SortByCpu(Demands([pod])) == [Demand(pod, RequestedCpu(pod), RequestedMem(pod))]
  {
    var d := Demand(pod, RequestedCpu(pod), RequestedMem(pod));
    assert [pod][..0] == [];
    assert Demands([pod]) == [d];
    assert [d][1..] == [];
  }

  lemma SinglePack(d: Demand, template: Size)
    ensures Pack([], [d], template) == [OpenFor(d, template)]
  {
    assert [d][..0] == [];
    assert Pack([], [d][..0], template) == [];
  }

  lemma SinglePodPlan(pod: Pod, template: Size)
    requires RequestedCpu(pod) > 0 || RequestedMem(pod) > 0
    ensures
      var d := Demand(pod, RequestedCpu(pod), RequestedMem(pod));
      NewBins([pod], [], template) == [OpenFor(d, template)]
  {
    SingleDemand(pod);
    SinglePack(Demand(pod, RequestedCpu(pod), RequestedMem(pod)), template);
    assert EmptyBins([]) == [];
  }

  /**
   A pool without nodes, claims and limits answers one pending pod it accepts with one claim, named with
   the first free number and just large enough for the pod.
   */
  lemma FirstPodGetsAClaim(pool: Pool, pod: Pod, i: ScaleUpInput)
    requires i.pods == [pod] && i.nodes == Some([]) && i.claims == Some([]) && i.usageNodes == Some([])
    requires PodMatches(pod, PoolLabels(pool)) && Targets(pod, pool, PoolLabels(pool))
    requires RequestedCpu(pod) > 0 && RequestedMem(pod) > 0
    requires i.ensured(ClaimName(pool.name, 1)).Created? && i.write.Written?
    ensures
      var r := RoundUp(Size(RequestedCpu(pod), RequestedMem(pod)));
      r.cpuCores >= 0 && r.memoryMiB >= 0 &&
      ScaleUpStep(PoolState([], 0, None), pool, Limits(0, 0, 0), i).0
      == PoolState([NewClaim(pool, ClaimName(pool.name, 1), r, i.createdAt)], 2, Some(i.statusTime))
  {
    var r := RoundUp(Size(RequestedCpu(pod), RequestedMem(pod)));
    SinglePodDecision(pool, pod, i);
    DecidedAreNonNegative(pool, Limits(0, 0, 0), i);
    assert r in [r];
    FirstClaimIsCreated(pool, r, i.ensured, i.createdAt);
  }

  lemma FirstClaimIsCreated(pool: Pool, r: ClaimResources, ensured: string -> Ensured, at: int)
    requires r.cpuCores >= 0 && r.memoryMiB >= 0 && ensured(ClaimName(pool.name, 1)).Created?
    ensures CreateClaims([], pool, 1, [r], ensured, at)
      == Creation([NewClaim(pool, ClaimName(pool.name, 1), r, at)], 2, true)
  {
    assert [r][1..] == [];
  }

  lemma SinglePodDecision(pool: Pool, pod: Pod, i: ScaleUpInput)
    requires i.pods == [pod] && i.nodes == Some([]) && i.claims == Some([]) && i.usageNodes == Some([])
    requires PodMatches(pod, PoolLabels(pool)) && Targets(pod, pool, PoolLabels(pool))
    requires RequestedCpu(pod) > 0 && RequestedMem(pod) > 0
    ensures Decide(pool, Limits(0, 0, 0), i) == Go([RoundUp(Size(RequestedCpu(pod), RequestedMem(pod)))])
  {
    var size := Size(RequestedCpu(pod), RequestedMem(pod));
    assert [pod][..0] == [];
    assert AcceptedPods([pod], pool) == [pod];
    assert LargestPod([pod]) == size;
    SinglePodPlan(pod, size);
    assert PlannedClaims(pool, i, []) == [RoundUp(size)];
  }
}
