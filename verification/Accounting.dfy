/** How the pool controller counts its claims, its nodes and the room on them. */
module Accounting {
  import opened Common
  import opened KubeObjects
  import opened CapacityPlanner

  const STALE_AFTER := 15 * MINUTE

  datatype Requirements = Requirements(cpuCores: nat, memoryMiB: nat)

  /** A claim as the pool controller reads it; `createdAt` is `None` for a zero timestamp. */
  datatype PoolClaim = PoolClaim(
    name: string,
    poolRef: string,
    requirements: Option<Requirements>,
    deleting: bool,
    ready: bool,
    nodeName: string,
    createdAt: Option<int>)

  /** A node with the pods listed on it; `None` if that listing failed. */
  datatype NodeWithPods = NodeWithPods(node: PoolNode, pods: Option<seq<Pod>>)

  // ----- claims in flight

  predicate Stale(c: PoolClaim, now: int) {
    c.createdAt.Some? && c.createdAt.value < now - STALE_AFTER
  }

  predicate Inflight(c: PoolClaim, pool: string, now: int) {
    c.poolRef == pool && !c.deleting && !c.ready && !Stale(c, now)
  }

  function InflightClaims(claims: seq<PoolClaim>, pool: string, now: int): seq<PoolClaim> {
    if claims == [] then []
    else
      var c := claims[|claims| - 1];
      InflightClaims(claims[..|claims| - 1], pool, now) + (if Inflight(c, pool, now) then [c] else [])
  }

  function ClaimCpu(c: PoolClaim): int {
    if c.requirements.Some? then c.requirements.value.cpuCores * MILLI else 0
  }

  function ClaimMem(c: PoolClaim): int {
    if c.requirements.Some? then c.requirements.value.memoryMiB * MIB else 0
  }

  datatype Counts = Counts(count: int, cpu: int, mem: int)

  function CountsOf(claims: seq<PoolClaim>, pool: string, now: int): Counts {
    var inflight := InflightClaims(claims, pool, now);
    Counts(|inflight|, Sum(inflight, ClaimCpu), Sum(inflight, ClaimMem))
  }

  /** A missing pool is an error, a missing list counts as empty. */
  method CountInflightClaims(pool: Option<string>, claims: Option<seq<PoolClaim>>, now: int)
    returns (r: Result<Counts, string>)
    ensures r.Err? <==> pool.None?
    ensures r.Ok? ==> r.value == CountsOf(if claims.Some? then claims.value else [], pool.value, now)
  {
    if pool.None? {
      return Err("pool cannot be nil when counting inflight claims");
    }
    if claims.None? {
      return Ok(Counts(0, 0, 0));
    }
    var items := claims.value;
    var validSince := now - STALE_AFTER;
    var count, cpu, mem := 0, 0, 0;
    for i := 0 to |items|
      invariant Counts(count, cpu, mem) == CountsOf(items[..i], pool.value, now)
    {
      var claim := items[i];
      assert items[..i + 1][..i] == items[..i];
      ghost var before := InflightClaims(items[..i], pool.value, now);
      assert InflightClaims(items[..i + 1], pool.value, now)
          == if Inflight(claim, pool.value, now) then before + [claim] else before;
      SumSnoc(before, claim, ClaimCpu);
      SumSnoc(before, claim, ClaimMem);
      if claim.poolRef != pool.value {
        continue;
      }
      if claim.deleting {
        continue;
      }
      if claim.ready {
        continue;
      }
      if claim.createdAt.Some? && claim.createdAt.value < validSince {
        continue;
      }
      count := count + 1;
      if claim.requirements.Some? {
        if claim.requirements.value.cpuCores > 0 {
          cpu := cpu + claim.requirements.value.cpuCores * MILLI;
        }
        if claim.requirements.value.memoryMiB > 0 {
          mem := mem + claim.requirements.value.memoryMiB * MIB;
        }
      }
    }
    assert items[..|items|] == items;
    return Ok(Counts(count, cpu, mem));
  }

  // The same counts as plain sums over all claims.

  function CountIf(pool: string, now: int): PoolClaim -> int {
    (c: PoolClaim) => if Inflight(c, pool, now) then 1 else 0
  }

  function CpuIf(pool: string, now: int): PoolClaim -> int {
    (c: PoolClaim) => if Inflight(c, pool, now) then ClaimCpu(c) else 0
  }

  function MemIf(pool: string, now: int): PoolClaim -> int {
    (c: PoolClaim) => if Inflight(c, pool, now) then ClaimMem(c) else 0
  }

  lemma {:induction false} CountsAsSums(claims: seq<PoolClaim>, pool: string, now: int)
    ensures CountsOf(claims, pool, now)
         == Counts(Sum(claims, CountIf(pool, now)), Sum(claims, CpuIf(pool, now)), Sum(claims, MemIf(pool, now)))
  {
    if claims != [] {
      var init, c := claims[..|claims| - 1], claims[|claims| - 1];
      CountsAsSums(init, pool, now);
      var inflight := InflightClaims(init, pool, now);
      assert InflightClaims(claims, pool, now) == if Inflight(c, pool, now) then inflight + [c] else inflight;
      SumSnoc(inflight, c, ClaimCpu);
      SumSnoc(inflight, c, ClaimMem);
    }
  }

  function LiveIf(pool: string): PoolClaim -> int {
    (c: PoolClaim) => if c.poolRef == pool && !c.deleting && !c.ready then 1 else 0
  }

  /**
   The count is not a cap on all unready claims: it misses those older than fifteen minutes, and equals
   the number of live unready claims of the pool exactly if none of them is that old.
   */
  lemma CountMissesStaleClaims(claims: seq<PoolClaim>, pool: string, now: int)
    ensures CountsOf(claims, pool, now).count <= Sum(claims, LiveIf(pool))
    ensures CountsOf(claims, pool, now).count == Sum(claims, LiveIf(pool)) <==>
      forall c :: c in claims && c.poolRef == pool && !c.deleting && !c.ready ==> !Stale(c, now)
  {
    CountsAsSums(claims, pool, now);
    SumCompare(claims, CountIf(pool, now), LiveIf(pool));
  }

  // ----- room promised by claims that are not ready

  predicate PendingClaim(c: PoolClaim, pool: string) {
    c.poolRef == pool && !c.ready && c.requirements.Some?
  }

  function PendingClaims(claims: seq<PoolClaim>, pool: string): seq<PoolClaim> {
    if claims == [] then []
    else
      var c := claims[|claims| - 1];
      PendingClaims(claims[..|claims| - 1], pool) + (if PendingClaim(c, pool) then [c] else [])
  }

  function ClaimSize(c: PoolClaim): Size {
    Size(ClaimCpu(c), ClaimMem(c))
  }

  function ClaimSizes(claims: seq<PoolClaim>): seq<Size> {
    if claims == [] then [] else ClaimSizes(claims[..|claims| - 1]) + [ClaimSize(claims[|claims| - 1])]
  }

  method BuildPendingClaimBuckets(claims: seq<PoolClaim>, pool: string) returns (buckets: seq<Size>)
    ensures buckets == ClaimSizes(PendingClaims(claims, pool))
  {
    buckets := [];
    for i := 0 to |claims|
      invariant buckets == ClaimSizes(PendingClaims(claims[..i], pool))
    {
      var claim := claims[i];
      assert claims[..i + 1][..i] == claims[..i];
      ghost var before := PendingClaims(claims[..i], pool);
      assert (before + [claim])[..|before|] == before;
      assert PendingClaims(claims[..i + 1], pool) == if PendingClaim(claim, pool) then before + [claim] else before;
      if claim.poolRef != pool {
        continue;
      }
      if claim.ready {
        continue;
      }
      if claim.requirements.None? {
        continue;
      }
      var cpu := claim.requirements.value.cpuCores * MILLI;
      var mem := claim.requirements.value.memoryMiB * MIB;
      buckets := buckets + [Size(cpu, mem)];
    }
    assert claims[..|claims|] == claims;
  }

  function SizeCpu(s: Size): int { s.cpu }

  function SizeMem(s: Size): int { s.mem }

  lemma {:induction false} SizesSum(claims: seq<PoolClaim>)
    ensures Sum(ClaimSizes(claims), SizeCpu) == Sum(claims, ClaimCpu)
    ensures Sum(ClaimSizes(claims), SizeMem) == Sum(claims, ClaimMem)
  {
    if claims != [] {
      var init, c := claims[..|claims| - 1], claims[|claims| - 1];
      SizesSum(init);
      SumSnoc(ClaimSizes(init), ClaimSize(c), SizeCpu);
      SumSnoc(ClaimSizes(init), ClaimSize(c), SizeMem);
    }
  }

  function WithRequirements(claims: seq<PoolClaim>): seq<PoolClaim> {
    if claims == [] then []
    else
      var c := claims[|claims| - 1];
      WithRequirements(claims[..|claims| - 1]) + (if c.requirements.Some? then [c] else [])
  }

  lemma {:induction false} InflightArePending(claims: seq<PoolClaim>, pool: string, now: int)
    ensures multiset(WithRequirements(InflightClaims(claims, pool, now))) <= multiset(PendingClaims(claims, pool))
  {
    if claims != [] {
      var init, c := claims[..|claims| - 1], claims[|claims| - 1];
      InflightArePending(init, pool, now);
      var inflight := InflightClaims(init, pool, now);
      assert (inflight + [c])[..|inflight|] == inflight;
      assert InflightClaims(claims, pool, now) == if Inflight(c, pool, now) then inflight + [c] else inflight;
    }
  }

  lemma {:induction false} InflightSumWithinPending(
    claims: seq<PoolClaim>, pool: string, now: int, f: PoolClaim -> int)
    requires forall c :: f(c) >= 0 && (c.requirements.None? ==> f(c) == 0)
    ensures Sum(InflightClaims(claims, pool, now), f) <= Sum(PendingClaims(claims, pool), f)
  {
    if claims != [] {
      var init, c := claims[..|claims| - 1], claims[|claims| - 1];
      InflightSumWithinPending(init, pool, now, f);
      var inflight, pending := InflightClaims(init, pool, now), PendingClaims(init, pool);
      assert InflightClaims(claims, pool, now) == if Inflight(c, pool, now) then inflight + [c] else inflight;
      assert PendingClaims(claims, pool) == if PendingClaim(c, pool) then pending + [c] else pending;
      SumSnoc(inflight, c, f);
      SumSnoc(pending, c, f);
    }
  }

  /**
   The counting views agree: every claim counted in flight with its resources also backs a pending
   bucket, so the in-flight totals never exceed the room the planner takes for granted.
   */
  lemma InflightWithinPending(claims: seq<PoolClaim>, pool: string, now: int)
    ensures
      var inflight, pending := InflightClaims(claims, pool, now), PendingClaims(claims, pool);
      && multiset(WithRequirements(inflight)) <= multiset(pending)
      && Sum(inflight, ClaimCpu) <= Sum(ClaimSizes(pending), SizeCpu)
      && Sum(inflight, ClaimMem) <= Sum(ClaimSizes(pending), SizeMem)
  {
    SizesSum(PendingClaims(claims, pool));
    InflightArePending(claims, pool, now);
    InflightSumWithinPending(claims, pool, now, ClaimCpu);
    InflightSumWithinPending(claims, pool, now, ClaimMem);
  }

  // ----- room on nodes

  /** The pod counts against its node. */
  predicate Consumes(p: Pod) {
    !p.mirror && !p.deleting && p.phase != Succeeded && p.phase != Failed
  }

  function Consumers(pods: seq<Pod>): seq<Pod> {
    if pods == [] then []
    else
      var p := pods[|pods| - 1];
      Consumers(pods[..|pods| - 1]) + (if Consumes(p) then [p] else [])
  }

  method ListPodsOnNode(pods: seq<Pod>) returns (result: seq<Pod>)
    ensures result == Consumers(pods)
  {
    result := [];
    for i := 0 to |pods|
      invariant result == Consumers(pods[..i])
    {
      assert pods[..i + 1][..i] == pods[..i];
      if pods[i].mirror {
        continue;
      }
      if pods[i].deleting {
        continue;
      }
      if pods[i].phase == Succeeded || pods[i].phase == Failed {
        continue;
      }
      result := result + [pods[i]];
    }
    assert pods[..|pods|] == pods;
  }

  /** Requests of the consuming pods of a node; nothing if they could not be listed. */
  function UsedCpu(n: NodeWithPods): int {
    if n.pods.Some? then Sum(Consumers(n.pods.value), RequestedCpu) else 0
  }

  function UsedMem(n: NodeWithPods): int {
    if n.pods.Some? then Sum(Consumers(n.pods.value), RequestedMem) else 0
  }

  method UsedOnNode(pods: seq<Pod>) returns (cpu: int, mem: int)
    ensures cpu == Sum(Consumers(pods), RequestedCpu)
    ensures mem == Sum(Consumers(pods), RequestedMem)
  {
    var consumers := ListPodsOnNode(pods);
    cpu, mem := 0, 0;
    for i := 0 to |consumers|
      invariant cpu == Sum(consumers[..i], RequestedCpu)
      invariant mem == Sum(consumers[..i], RequestedMem)
    {
      SumPrefix(consumers, i, RequestedCpu);
      SumPrefix(consumers, i, RequestedMem);
      var c, m := GetRequestedResources(consumers[i]);
      cpu, mem := cpu + c, mem + m;
    }
    assert consumers[..|consumers|] == consumers;
  }

  function FreeCpu(n: NodeWithPods): int { n.node.allocatableCpu - UsedCpu(n) }

  function FreeMem(n: NodeWithPods): int { n.node.allocatableMem - UsedMem(n) }

  function NodeBucket(n: NodeWithPods): Size {
    Size(Max(FreeCpu(n), 0), Max(FreeMem(n), 0))
  }

  function NodeBuckets(nodes: seq<NodeWithPods>): seq<Size> {
    if nodes == [] then [] else NodeBuckets(nodes[..|nodes| - 1]) + [NodeBucket(nodes[|nodes| - 1])]
  }

  predicate AllListed(nodes: seq<NodeWithPods>) {
    forall n :: n in nodes ==> n.pods.Some?
  }

  method RemainingOn(n: NodeWithPods) returns (bucket: Size)
    requires n.pods.Some?
    ensures bucket == NodeBucket(n)
  {
    var usedCpu, usedMem := UsedOnNode(n.pods.value);
    var remainingCpu := n.node.allocatableCpu - usedCpu;
    if remainingCpu < 0 {
      remainingCpu := 0;
    }
    var remainingMem := n.node.allocatableMem - usedMem;
    if remainingMem < 0 {
      remainingMem := 0;
    }
    bucket := Size(remainingCpu, remainingMem);
  }

  /** One bucket per node, never negative; any failed listing fails the whole build. */
  method BuildNodeBuckets(nodes: seq<NodeWithPods>) returns (r: Option<seq<Size>>)
    ensures r.Some? <==> AllListed(nodes)
    ensures r.Some? ==> r.value == NodeBuckets(nodes)
  {
    var buckets: seq<Size> := [];
    for i := 0 to |nodes|
      invariant forall k :: 0 <= k < i ==> nodes[k].pods.Some?
      invariant buckets == NodeBuckets(nodes[..i])
    {
      assert nodes[..i + 1][..i] == nodes[..i];
      if nodes[i].pods.None? {
        return None;
      }
      var bucket := RemainingOn(nodes[i]);
      buckets := buckets + [bucket];
    }
    assert nodes[..|nodes|] == nodes;
    return Some(buckets);
  }

  // ----- usage of the pool as a whole

  datatype PoolUsage = PoolUsage(
    requested: Size,
    available: Size,
    allocatable: Size,
    total: Size,
    nodeCount: nat)

  function AllocatableCpu(n: NodeWithPods): int { n.node.allocatableCpu }

  function AllocatableMem(n: NodeWithPods): int { n.node.allocatableMem }

  function CapacityCpu(n: NodeWithPods): int { n.node.capacityCpu }

  function CapacityMem(n: NodeWithPods): int { n.node.capacityMem }

  function UsageOf(nodes: seq<NodeWithPods>): PoolUsage {
    var allocatable := Size(Sum(nodes, AllocatableCpu), Sum(nodes, AllocatableMem));
    var requested := Size(Sum(nodes, UsedCpu), Sum(nodes, UsedMem));
    PoolUsage(
      requested,
      Size(allocatable.cpu - requested.cpu, allocatable.mem - requested.mem),
      allocatable,
      Size(Sum(nodes, CapacityCpu), Sum(nodes, CapacityMem)),
      |nodes|)
  }

  /** Totals over the nodes; a node whose pods cannot be listed counts as having none. */
  method GetPoolResourceUsage(nodes: seq<NodeWithPods>) returns (usage: PoolUsage)
    ensures usage == UsageOf(nodes)
  {
    var allocatable, total, requested := Size(0, 0), Size(0, 0), Size(0, 0);
    for i := 0 to |nodes|
      invariant allocatable == UsageOf(nodes[..i]).allocatable
      invariant total == UsageOf(nodes[..i]).total
      invariant requested == UsageOf(nodes[..i]).requested
    {
      SumPrefix(nodes, i, AllocatableCpu);
      SumPrefix(nodes, i, AllocatableMem);
      SumPrefix(nodes, i, CapacityCpu);
      SumPrefix(nodes, i, CapacityMem);
      SumPrefix(nodes, i, UsedCpu);
      SumPrefix(nodes, i, UsedMem);
      var node := nodes[i].node;
      allocatable := Size(allocatable.cpu + node.allocatableCpu, allocatable.mem + node.allocatableMem);
      total := Size(total.cpu + node.capacityCpu, total.mem + node.capacityMem);
      if nodes[i].pods.None? {
        continue;
      }
      var usedCpu, usedMem := UsedOnNode(nodes[i].pods.value);
      requested := Size(requested.cpu + usedCpu, requested.mem + usedMem);
    }
    assert nodes[..|nodes|] == nodes;
    usage := PoolUsage(
      requested,
      Size(allocatable.cpu - requested.cpu, allocatable.mem - requested.mem),
      allocatable,
      total,
      |nodes|);
  }

  function BucketCpu(n: NodeWithPods): int { NodeBucket(n).cpu }

  function BucketMem(n: NodeWithPods): int { NodeBucket(n).mem }

  lemma {:induction false} BucketSums(nodes: seq<NodeWithPods>)
    ensures Sum(NodeBuckets(nodes), SizeCpu) == Sum(nodes, BucketCpu)
    ensures Sum(NodeBuckets(nodes), SizeMem) == Sum(nodes, BucketMem)
    ensures UsageOf(nodes).available == Size(Sum(nodes, FreeCpu), Sum(nodes, FreeMem))
  {
    if nodes != [] {
      var init, n := nodes[..|nodes| - 1], nodes[|nodes| - 1];
      BucketSums(init);
      SumSnoc(NodeBuckets(init), NodeBucket(n), SizeCpu);
      SumSnoc(NodeBuckets(init), NodeBucket(n), SizeMem);
    }
  }

  /**
   The planner's per-node buckets never add up to less than what the pool reports as available; they
   agree in a resource exactly if no node is over-committed in it.
   */
  lemma BucketsCoverAvailable(nodes: seq<NodeWithPods>)
    ensures
      var cpu, mem := Sum(NodeBuckets(nodes), SizeCpu), Sum(NodeBuckets(nodes), SizeMem);
      var available := UsageOf(nodes).available;
      && cpu >= available.cpu && mem >= available.mem
      && (cpu == available.cpu <==> forall n :: n in nodes ==> UsedCpu(n) <= n.node.allocatableCpu)
      && (mem == available.mem <==> forall n :: n in nodes ==> UsedMem(n) <= n.node.allocatableMem)
  {
    BucketSums(nodes);
    SumCompare(nodes, FreeCpu, BucketCpu);
    SumCompare(nodes, FreeMem, BucketMem);
  }
}
