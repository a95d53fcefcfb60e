/** When a scale-up creates claims, told by the fields of what it reads, in millicores, bytes and milliseconds. */
module ScaleUpDecisions {
  import opened Common
  import opened CapacityPlanner
  import opened PoolMatching
  import opened Accounting
  import opened ClaimNaming
  import opened ScaleUp
  import opened RepeatedScaleUp

  lemma SumsAgree<T>(s: seq<T>, f: T -> int, g: T -> int)
    requires forall x :: x in s ==> f(x) == g(x)
    ensures Sum(s, f) == Sum(s, g)
  {
    SumCompare(s, f, g);
  }

  // ----- what counts against the limits

  /** The claim is on its way: of the pool, not ready, not being deleted, and not older than fifteen minutes. */
  predicate OnItsWay(c: PoolClaim, pool: string, now: int) {
    && c.poolRef == pool && c.deleting == false && c.ready == false
    && (c.createdAt.Some? ==> c.createdAt.value >= now - 900_000)
  }

  function ClaimsOnTheWay(claims: seq<PoolClaim>, pool: string, now: int): int {
    Sum(claims, (c: PoolClaim) => if OnItsWay(c, pool, now) then 1 else 0)
  }

  function MilliOnTheWay(claims: seq<PoolClaim>, pool: string, now: int): int {
    Sum(claims, (c: PoolClaim) =>
      if OnItsWay(c, pool, now) && c.requirements.Some? then 1000 * c.requirements.value.cpuCores else 0)
  }

  function BytesOnTheWay(claims: seq<PoolClaim>, pool: string, now: int): int {
    Sum(claims, (c: PoolClaim) =>
      if OnItsWay(c, pool, now) && c.requirements.Some? then 1_048_576 * c.requirements.value.memoryMiB else 0)
  }

  function MilliOfNodes(nodes: seq<NodeWithPods>): int {
    Sum(nodes, (n: NodeWithPods) => n.node.capacityCpu)
  }

  function BytesOfNodes(nodes: seq<NodeWithPods>): int {
    Sum(nodes, (n: NodeWithPods) => n.node.capacityMem)
  }

  function MilliAsked(specs: seq<ClaimResources>): int {
    Sum(specs, (r: ClaimResources) => 1000 * r.cpuCores)
  }

  function BytesAsked(specs: seq<ClaimResources>): int {
    Sum(specs, (r: ClaimResources) => 1_048_576 * r.memoryMiB)
  }

  lemma CountsAreOnTheWay(claims: seq<PoolClaim>, pool: string, now: int)
    ensures CountsOf(claims, pool, now)
      == Counts(ClaimsOnTheWay(claims, pool, now), MilliOnTheWay(claims, pool, now), BytesOnTheWay(claims, pool, now))
  {
    CountsAsSums(claims, pool, now);
    SumsAgree(claims, CountIf(pool, now), (c: PoolClaim) => if OnItsWay(c, pool, now) then 1 else 0);
    SumsAgree(claims, CpuIf(pool, now), (c: PoolClaim) =>
      if OnItsWay(c, pool, now) && c.requirements.Some? then 1000 * c.requirements.value.cpuCores else 0);
    SumsAgree(claims, MemIf(pool, now), (c: PoolClaim) =>
      if OnItsWay(c, pool, now) && c.requirements.Some? then 1_048_576 * c.requirements.value.memoryMiB else 0);
  }

  lemma TotalsAreCapacity(nodes: seq<NodeWithPods>)
    ensures UsageOf(nodes).total == Size(MilliOfNodes(nodes), BytesOfNodes(nodes))
  {
    SumsAgree(nodes, CapacityCpu, (n: NodeWithPods) => n.node.capacityCpu);
    SumsAgree(nodes, CapacityMem, (n: NodeWithPods) => n.node.capacityMem);
  }

  lemma AskedAreSums(specs: seq<ClaimResources>)
    ensures Sum(specs, SpecCpu) == MilliAsked(specs) && Sum(specs, SpecMem) == BytesAsked(specs)
  {
    SumsAgree(specs, SpecCpu, (r: ClaimResources) => 1000 * r.cpuCores);
    SumsAgree(specs, SpecMem, (r: ClaimResources) => 1_048_576 * r.memoryMiB);
  }

  // ----- the limits

  predicate NodesWithin(limits: Limits, i: ScaleUpInput, pool: Pool, batch: nat)
    requires i.claims.Some?
  {
    limits.maxNodes > 0 ==>
      (if i.nodes.Some? then |i.nodes.value| else 0) + ClaimsOnTheWay(i.claims.value, pool.name, i.now) + batch
        <= limits.maxNodes
  }

  predicate CoresWithin(limits: Limits, i: ScaleUpInput, pool: Pool, specs: seq<ClaimResources>)
    requires i.claims.Some? && i.usageNodes.Some?
  {
    limits.cpuCores > 0 ==>
      MilliOfNodes(i.usageNodes.value) + MilliOnTheWay(i.claims.value, pool.name, i.now) + MilliAsked(specs)
        <= 1000 * limits.cpuCores
  }

  predicate MemoryWithin(limits: Limits, i: ScaleUpInput, pool: Pool, specs: seq<ClaimResources>)
    requires i.claims.Some? && i.usageNodes.Some?
  {
    limits.memoryMiB > 0 ==>
      BytesOfNodes(i.usageNodes.value) + BytesOnTheWay(i.claims.value, pool.name, i.now) + BytesAsked(specs)
        <= 1_048_576 * limits.memoryMiB
  }

  /** Every limit that is set holds for nodes, claims on their way and the batch together. */
  predicate WithinAllLimits(limits: Limits, i: ScaleUpInput, pool: Pool, specs: seq<ClaimResources>)
    requires i.claims.Some? && i.usageNodes.Some?
  {
    NodesWithin(limits, i, pool, |specs|) && CoresWithin(limits, i, pool, specs) && MemoryWithin(limits, i, pool, specs)
  }

  /** A batch passes the limits if and only if all of them hold afterwards; otherwise it is retried in half a minute. */
  lemma LimitsPassIff(pool: Pool, limits: Limits, i: ScaleUpInput, specs: seq<ClaimResources>)
    requires i.claims.Some? && i.usageNodes.Some? && specs != []
    ensures DecideLimits(pool, limits, i, specs)
      == if WithinAllLimits(limits, i, pool, specs) then Go(specs) else Skip(Reply(30_000, false))
  {
    CountsAreOnTheWay(i.claims.value, pool.name, i.now);
    TotalsAreCapacity(i.usageNodes.value);
    AskedAreSums(specs);
  }

  // ----- the decision

  /** What the planner starts from could be read and makes sense. */
  predicate CanPlan(pool: Pool, i: ScaleUpInput) {
    && AcceptedPods(i.pods, pool) != [] && i.claims.Some?
    && (forall k :: 0 <= k < |ListedNodes(i)| ==> ListedNodes(i)[k].pods.Some?)
    && var t := NodeCapacity(pool.name, ListedNodes(i), i.claims.value, AcceptedPods(i.pods, pool));
       t.cpu != 0 && t.mem != 0
  }

  lemma ListedIff(nodes: seq<NodeWithPods>)
    ensures AllListed(nodes) <==> forall k :: 0 <= k < |nodes| ==> nodes[k].pods.Some?
  {
    if AllListed(nodes) {
      forall k | 0 <= k < |nodes| ensures nodes[k].pods.Some? {
        assert nodes[k] in nodes;
      }
    }
  }

  /** For every input, a scale-up goes ahead if and only if it can plan, plans something, and stays within the limits. */
  lemma ScaleUpGoesIff(pool: Pool, limits: Limits, i: ScaleUpInput, specs: seq<ClaimResources>)
    ensures Decide(pool, limits, i) == Go(specs) <==>
      && CanPlan(pool, i) && specs == PlannedClaims(pool, i, i.claims.value) && specs != []
      && i.usageNodes.Some? && WithinAllLimits(limits, i, pool, specs)
  {
    ListedIff(ListedNodes(i));
    if i.claims.Some? && i.usageNodes.Some? && PlannedClaims(pool, i, i.claims.value) != [] {
      LimitsPassIff(pool, limits, i, PlannedClaims(pool, i, i.claims.value));
    }
  }

  /** What it answers when it does not go ahead. */
  lemma SkippedAnswers(pool: Pool, limits: Limits, i: ScaleUpInput)
    ensures
      var accepted, nodes, d := AcceptedPods(i.pods, pool), ListedNodes(i), Decide(pool, limits, i);
      && (accepted == [] ==> d == Skip(Reply(0, false)))
      && (accepted != [] && i.claims.None? ==> d == Skip(Reply(60_000, false)))
      && (accepted != [] && i.claims.Some? ==>
            var t := NodeCapacity(pool.name, nodes, i.claims.value, accepted);
            && (t.cpu == 0 || t.mem == 0 ==> d == Skip(Reply(0, false)))
            && (t.cpu != 0 && t.mem != 0 && !AllListed(nodes) ==> d == Skip(Reply(60_000, false)))
            && (CanPlan(pool, i) && PlannedClaims(pool, i, i.claims.value) == [] ==> d == Skip(Reply(0, false)))
            && (CanPlan(pool, i) && PlannedClaims(pool, i, i.claims.value) != [] && i.usageNodes.None? ==>
                  d == Skip(Reply(60_000, false))))
  {
    ListedIff(ListedNodes(i));
  }

  lemma BatchIsRecorded(s: PoolState, pool: Pool, specs: seq<ClaimResources>, i: ScaleUpInput)
    requires NonNegative(specs) && Unhindered(s.claims, pool, FirstSequence(s), |specs|, i.ensured)
    requires i.write.Written?
    ensures CreateAndRecord(s, pool, specs, i)
      == (PoolState(s.claims + CreatedFor(pool, FirstSequence(s), specs, i.createdAt),
                    FirstSequence(s) + |specs|, Some(i.statusTime)), Reply(0, false))
  {
    WholeBatchIsCreated(s.claims, pool, FirstSequence(s), specs, i.ensured, i.createdAt);
  }

  /** The claims behind those of `before` are fresh ones of the planned sizes under consecutive numbers. */
  ghost predicate BatchMade(
    before: seq<PoolClaim>, after: seq<PoolClaim>, pool: Pool, sequence: nat, specs: seq<ClaimResources>, at: int)
  {
    && |after| == |before| + |specs| && after[..|before|] == before
    && forall k :: 0 <= k < |specs| ==> MadeFor(after[|before| + k], pool, sequence + k, specs[k], at)
  }

  lemma CreatedIsMade(before: seq<PoolClaim>, pool: Pool, sequence: nat, specs: seq<ClaimResources>, at: int)
    requires NonNegative(specs)
    ensures BatchMade(before, before + CreatedFor(pool, sequence, specs, at), pool, sequence, specs, at)
  {
    CreatedAreMade(pool, sequence, specs, at);
    var created := CreatedFor(pool, sequence, specs, at);
    assert forall k :: 0 <= k < |created| ==> (before + created)[|before| + k] == created[k];
  }

  /**
   A plan within the limits whose names are free is created in full: one claim of the pool per planned size, under
   consecutive numbers, behind the claims that were there, with the next number and the activity recorded.
   */
  lemma PlanWithinLimitsIsCreated(s: PoolState, pool: Pool, limits: Limits, i: ScaleUpInput)
    requires CanPlan(pool, i) && i.claims == Some(s.claims) && i.usageNodes.Some?
    requires PlannedClaims(pool, i, s.claims) != []
    requires WithinAllLimits(limits, i, pool, PlannedClaims(pool, i, s.claims))
    requires Unhindered(s.claims, pool, FirstSequence(s), |PlannedClaims(pool, i, s.claims)|, i.ensured)
    requires i.write.Written?
    ensures
      var specs, (s', reply) := PlannedClaims(pool, i, s.claims), ScaleUpStep(s, pool, limits, i);
      var n := if s.nextSequence > 0 then s.nextSequence else 1;
      && reply == Reply(0, false) && BatchMade(s.claims, s'.claims, pool, n, specs, i.createdAt)
      && s'.nextSequence == n + |specs| && s'.lastScaleActivity == Some(i.statusTime)
  {
    var specs := PlannedClaims(pool, i, s.claims);
    ScaleUpGoesIff(pool, limits, i, specs);
    DecidedAreNonNegative(pool, limits, i);
    BatchIsRecorded(s, pool, specs, i);
    CreatedIsMade(s.claims, pool, FirstSequence(s), specs, i.createdAt);
  }

  /** Making sure of one claim: what is stored and whether it is reported as there, outcome by outcome. */
  lemma EnsureAnswers(claims: seq<PoolClaim>, pool: Pool, n: nat, r: ClaimResources, e: Ensured, at: int)
    requires r.cpuCores >= 0 && r.memoryMiB >= 0
    ensures
      var name := ClaimName(pool.name, n);
      var (after, ok) := EnsureClaim(claims, pool, name, r, e, at);
      if e.LookupFailed? then after == claims && !ok
      else if exists k :: 0 <= k < |claims| && claims[k].name == name then after == claims && ok
      else if e.CreateFailed? then after == claims && !ok
      else
        && |after| == |claims| + 1 && after[..|claims|] == claims
        && (ok <==> e.Created? || e.LostRace?)
        && (if e.LostRace? then after[|claims|] == e.rival.(name := name) else MadeFor(after[|claims|], pool, n, r, at))
  {
  }

  /** A batch goes on while its claims are reported as there, and stops behind the first that is not. */
  lemma BatchGoesOn(
    claims: seq<PoolClaim>, pool: Pool, sequence: nat, r: ClaimResources, rest: seq<ClaimResources>,
    ensured: string -> Ensured, at: int)
    requires NonNegative([r] + rest)
    ensures r in [r] + rest && (forall x :: x in rest ==> x in [r] + rest)
    ensures
      var name := ClaimName(pool.name, sequence);
      var (after, ok) := EnsureClaim(claims, pool, name, r, ensured(name), at);
      CreateClaims(claims, pool, sequence, [r] + rest, ensured, at)
      == if ok then CreateClaims(after, pool, sequence + 1, rest, ensured, at) else Creation(after, sequence + 1, false)
  {
    assert ([r] + rest)[0] == r && ([r] + rest)[1..] == rest;
    assert forall x :: x in rest ==> x in [r] + rest;
  }

  /** A scale-up that creates less than planned says so, and records nothing. */
  lemma BrokenBatchAnswers(s: PoolState, pool: Pool, limits: Limits, i: ScaleUpInput)
    requires Decide(pool, limits, i).Go?
    ensures NonNegative(Decide(pool, limits, i).specs)
    ensures
      var c := CreateClaims(s.claims, pool, FirstSequence(s), Decide(pool, limits, i).specs, i.ensured, i.createdAt);
      var (s', reply) := ScaleUpStep(s, pool, limits, i);
      && s'.claims == c.claims
      && (!c.ok ==> reply == Reply(60_000, true) && s' == s.(claims := c.claims))
      && (c.ok && i.write.Rejected? ==> reply == Reply(0, true) && s' == s.(claims := c.claims))
      && (c.ok && i.write.Unacked? ==>
            reply == Reply(0, true) && s' == PoolState(c.claims, c.nextSequence, Some(i.statusTime)))
  {
    DecidedAreNonNegative(pool, limits, i);
  }

  /** A fresh claim of that size under that number. */
  predicate MadeFor(c: PoolClaim, pool: Pool, sequence: nat, r: ClaimResources, at: int) {
    && c.name == ClaimName(pool.name, sequence) && c.poolRef == pool.name
    && c.requirements.Some? && c.requirements.value.cpuCores == r.cpuCores
    && c.requirements.value.memoryMiB == r.memoryMiB
    && !c.deleting && !c.ready && c.nodeName == "" && c.createdAt == Some(at)
  }

  lemma {:induction false} CreatedAreMade(pool: Pool, sequence: nat, specs: seq<ClaimResources>, at: int)
    requires NonNegative(specs)
    ensures |CreatedFor(pool, sequence, specs, at)| == |specs|
    ensures forall k :: 0 <= k < |specs| ==>
      MadeFor(CreatedFor(pool, sequence, specs, at)[k], pool, sequence + k, specs[k], at)
    decreases |specs|
  {
    if specs != [] {
      CreatedAreMade(pool, sequence + 1, specs[1..], at);
      var rest := CreatedFor(pool, sequence + 1, specs[1..], at);
      forall k | 0 <= k < |specs|
        ensures MadeFor(CreatedFor(pool, sequence, specs, at)[k], pool, sequence + k, specs[k], at)
      {
        if k > 0 {
          assert MadeFor(rest[k - 1], pool, sequence + 1 + (k - 1), specs[1..][k - 1], at);
        }
      }
    }
  }
}
