/** The pool controller as it runs, and what its scale-ups guarantee about limits and claim names. */
module PoolController {
  import opened Common
  import opened CapacityPlanner
  import opened PoolMatching
  import opened Accounting
  import opened ClaimNaming
  import opened ScaleUp
  import opened ScaleDown

  /** The total a batch of planned claims adds. */
  method AddUp(specs: seq<ClaimResources>) returns (added: Size)
    ensures added == Size(Sum(specs, SpecCpu), Sum(specs, SpecMem))
  {
    var cpu, mem := 0, 0;
    for k := 0 to |specs|
      invariant cpu == Sum(specs[..k], SpecCpu) && mem == Sum(specs[..k], SpecMem)
    {
      SumPrefix(specs, k, SpecCpu);
      SumPrefix(specs, k, SpecMem);
      cpu := cpu + specs[k].cpuCores * MILLI;
      mem := mem + specs[k].memoryMiB * MIB;
    }
    assert specs[..|specs|] == specs;
    return Size(cpu, mem);
  }

  method CheckLimits(pool: Pool, limits: Limits, i: ScaleUpInput, specs: seq<ClaimResources>)
    returns (d: Decision)
    requires i.claims.Some?
    ensures d == DecideLimits(pool, limits, i, specs)
  {
    if specs == [] {
      return Skip(Reply(0, false));
    }
    var counted := CountInflightClaims(Some(pool.name), i.claims, i.now);
    var pending := counted.value;
    if i.usageNodes.None? {
      return Skip(Reply(MINUTE, false));
    }
    var usage := GetPoolResourceUsage(i.usageNodes.value);
    var currentNodes := |ListedNodes(i)|;
    if limits.maxNodes > 0 && currentNodes + pending.count + |specs| > limits.maxNodes {
      return Skip(Reply(30 * SECOND, false));
    }
    var added := AddUp(specs);
    if ExceedsPoolLimits(usage, limits, Size(pending.cpu, pending.mem), added) {
      return Skip(Reply(30 * SECOND, false));
    }
    return Go(specs);
  }

  method PlanScaleUp(pool: Pool, limits: Limits, i: ScaleUpInput) returns (d: Decision)
    requires forall p, t, e :: p in i.pods && t in TermsOf(p) && e in t.matchExpressions ==> WellFormed(e)
    ensures d == Decide(pool, limits, i)
  {
    var candidates := FilterPodsForPool(i.pods, pool);
    if |candidates| == 0 {
      return Skip(Reply(0, false));
    }
    if i.claims.None? {
      return Skip(Reply(MINUTE, false));
    }
    var nodes := ListedNodes(i);
    var template := DetermineNodeCapacity(pool.name, nodes, i.claims.value, candidates);
    if template.cpu == 0 || template.mem == 0 {
      return Skip(Reply(0, false));
    }
    var nodeBuckets := BuildNodeBuckets(nodes);
    if nodeBuckets.None? {
      return Skip(Reply(MINUTE, false));
    }
    var pendingBuckets := BuildPendingClaimBuckets(i.claims.value, pool.name);
    var specs := PlanCapacity(candidates, nodeBuckets.value + pendingBuckets, template);
    d := CheckLimits(pool, limits, i, specs);
  }

  class NodePoolReconciler {
    var state: PoolState
    var finalizer: bool

    constructor (initial: PoolState, finalizer: bool)
      ensures state == initial && this.finalizer == finalizer
    {
      state, this.finalizer := initial, finalizer;
    }

    method EnsureClaim(pool: Pool, name: string, r: ClaimResources, e: Ensured, at: int) returns (ok: bool)
      requires r.cpuCores >= 0 && r.memoryMiB >= 0
      modifies this`state
      ensures
        var (claims, ok') := ScaleUp.EnsureClaim(old(state.claims), pool, name, r, e, at);
        state == old(state).(claims := claims) && ok == ok'
    {
      if e.LookupFailed? {
        return false;
      }
      if HasClaim(state.claims, name) {
        return true;
      }
      if e.CreateFailed? {
        return false;
      }
      if e.LostRace? {
        state := state.(claims := state.claims + [e.rival.(name := name)]);
        return true;
      }
      state := state.(claims := state.claims + [NewClaim(pool, name, r, at)]);
      return !e.CreateUnacknowledged?;
    }

    /** Creates the planned claims one after the other, under consecutive sequence numbers. */
    method CreateAll(pool: Pool, first: nat, specs: seq<ClaimResources>, ensured: string -> Ensured, at: int)
      returns (nextSequence: nat, ok: bool)
      requires NonNegative(specs)
      modifies this`state
      ensures
        var c := CreateClaims(old(state.claims), pool, first, specs, ensured, at);
        state == old(state).(claims := c.claims) && nextSequence == c.nextSequence && ok == c.ok
    {
      nextSequence := first;
      for k := 0 to |specs|
        invariant state == old(state).(claims := state.claims)
        invariant CreateClaims(old(state.claims), pool, first, specs, ensured, at)
               == CreateClaims(state.claims, pool, nextSequence, specs[k..], ensured, at)
      {
        var name := ClaimName(pool.name, nextSequence);
        assert specs[k..][1..] == specs[k + 1..];
        nextSequence := nextSequence + 1;
        var exists' := EnsureClaim(pool, name, specs[k], ensured(name), at);
        if !exists' {
          return nextSequence, false;
        }
      }
      return nextSequence, true;
    }

    method ReconcileScaleUp(pool: Pool, limits: Limits, i: ScaleUpInput) returns (reply: Reply)
      requires forall p, t, e :: p in i.pods && t in TermsOf(p) && e in t.matchExpressions ==> WellFormed(e)
      modifies this`state
      ensures (state, reply) == ScaleUpStep(old(state), pool, limits, i)
    {
      var d := PlanScaleUp(pool, limits, i);
      if d.Skip? {
        return d.reply;
      }
      DecidedAreNonNegative(pool, limits, i);
      var nextSequence: nat := if state.nextSequence <= 0 then 1 else state.nextSequence;
      var ok;
      nextSequence, ok := CreateAll(pool, nextSequence, d.specs, i.ensured, i.createdAt);
      if !ok {
        return Reply(MINUTE, true);
      }
      if !i.write.Rejected? {
        state := state.(nextSequence := nextSequence, lastScaleActivity := Some(i.statusTime));
      }
      return Reply(0, !i.write.Written?);
    }

    /** Deletes the claim of the first idle node that has one, outside the stabilization window. */
    method ReconcileScaleDown(pool: string, minNodes: nat, window: Option<int>, i: ScaleDownInput)
      returns (reply: Reply, deleted: Option<(NodeWithPods, PoolClaim)>)
      modifies this`state
      ensures
        var o := ScaleDownStep(old(state), pool, minNodes, window, i);
        state == o.state && reply == o.reply && deleted == o.deleted
    {
      if |i.nodes| <= minNodes {
        return Reply(0, false), None;
      }
      if i.candidates.None? {
        return Reply(MINUTE, false), None;
      }
      var found := GetScaleDownCandidates(i.candidates.value);
      if found.None? {
        return Reply(MINUTE, false), None;
      }
      var idle := found.value;
      if |idle| == 0 {
        return Reply(0, false), None;
      }
      if window.Some? && state.lastScaleActivity.Some? {
        var timeSinceLastScale := i.now - state.lastScaleActivity.value;
        if timeSinceLastScale < window.value {
          return Reply(window.value - timeSinceLastScale, false), None;
        }
      }
      for k := 0 to |idle|
        invariant state == old(state)
        invariant FindVictim(idle, i.claims, pool) == FindVictim(idle[k..], i.claims, pool)
      {
        assert idle[k..][1..] == idle[k + 1..];
        var claims := i.claims(idle[k].node.name);
        if claims.None? {
          return Reply(MINUTE, false), None;
        }
        var target := FindClaim(claims.value, pool, idle[k].node.name);
        if target.None? {
          continue;
        }
        reply, deleted := DeleteClaim(idle[k], target.value, i);
        return;
      }
      return Reply(0, false), None;
    }

    method DeleteClaim(node: NodeWithPods, claim: PoolClaim, i: ScaleDownInput)
      returns (reply: Reply, deleted: Option<(NodeWithPods, PoolClaim)>)
      modifies this`state
      ensures
        var o := DeleteVictim(old(state), (node, claim), i);
        state == o.state && reply == o.reply && deleted == o.deleted
    {
      if i.deletion.AlreadyGone? {
        return Reply(0, false), None;
      }
      if i.deletion.Refused? {
        return Reply(MINUTE, true), None;
      }
      state := state.(claims := MarkDeleting(state.claims, claim.name));
      if i.deletion.Unacknowledged? {
        return Reply(MINUTE, true), Some((node, claim));
      }
      if !i.write.Rejected? {
        state := state.(lastScaleActivity := Some(i.statusTime));
      }
      return Reply(0, !i.write.Written?), Some((node, claim));
    }

    /** One pass over a deleted pool. */
    method FinalizePool(pool: string, i: FinalizePoolInput) returns (reply: Reply)
      modifies this
      ensures
        var o := FinalizePoolStep(old(state.claims), pool, old(finalizer), i);
        state == old(state).(claims := o.claims) && finalizer == o.finalizer && reply == o.reply
    {
      if !finalizer {
        return Reply(0, false);
      }
      if i.claims.None? {
        return Reply(5 * SECOND, true);
      }
      var listed := i.claims.value;
      var remaining: nat := 0;
      for k := 0 to |listed|
        invariant finalizer && state == old(state).(claims := state.claims)
        invariant DeleteClaims(old(state.claims), listed, pool, i.deletion, 0)
               == DeleteClaims(state.claims, listed[k..], pool, i.deletion, remaining)
      {
        assert listed[k..][1..] == listed[k + 1..];
        var claim := listed[k];
        if claim.poolRef != pool {
          continue;
        }
        if !claim.deleting {
          if TakesEffect(i.deletion(claim.name)) {
            state := state.(claims := MarkDeleting(state.claims, claim.name));
          }
          if Errs(i.deletion(claim.name)) {
            return Reply(5 * SECOND, true);
          }
        } else {
          remaining := remaining + 1;
        }
      }
      if remaining > 0 {
        return Reply(5 * SECOND, false);
      }
      if !i.write.Rejected? {
        finalizer := false;
      }
      return Reply(0, !i.write.Written?);
    }
  }

  method FindClaim(claims: seq<PoolClaim>, pool: string, node: string) returns (target: Option<PoolClaim>)
    ensures target == ClaimFor(claims, pool, node)
  {
    for k := 0 to |claims|
      invariant ClaimFor(claims, pool, node) == ClaimFor(claims[k..], pool, node)
    {
      assert claims[k..][1..] == claims[k + 1..];
      if claims[k].poolRef != pool {
        continue;
      }
      if claims[k].nodeName == node {
        return Some(claims[k]);
      }
    }
    return None;
  }

  // ----- what creating claims does to the store

  ghost predicate DistinctNames(claims: seq<PoolClaim>) {
    forall j, k :: 0 <= j < k < |claims| ==> claims[j].name != claims[k].name
  }

  /** Another writer created the claim while the batch was at its name. */
  predicate IsRival(c: PoolClaim, ensured: string -> Ensured) {
    ensured(c.name).LostRace?
  }

  /** `after` extends `before` by claims named from `[lo, hi)`, which belong to the pool unless a rival wrote them. */
  ghost predicate Extends(
    before: seq<PoolClaim>, after: seq<PoolClaim>, pool: Pool, lo: nat, hi: nat, ensured: string -> Ensured) {
    && |before| <= |after| && after[..|before|] == before
    && forall k :: |before| <= k < |after| ==>
         && (after[k].poolRef == pool.name || IsRival(after[k], ensured))
         && exists n: nat :: lo <= n < hi && after[k].name == ClaimName(pool.name, n)
  }

  /** The claims among `added` that the batch made itself. */
  function Own(added: seq<PoolClaim>, ensured: string -> Ensured): seq<PoolClaim> {
    if added == [] then []
    else if IsRival(added[0], ensured) then Own(added[1..], ensured)
    else [added[0]] + Own(added[1..], ensured)
  }

  lemma ConcatAssociates(a: seq<PoolClaim>, b: seq<PoolClaim>, c: seq<PoolClaim>)
    ensures (a + b) + c == a + (b + c)
  {
  }

  lemma OwnCons(c: PoolClaim, rest: seq<PoolClaim>, ensured: string -> Ensured)
    ensures Own([c] + rest, ensured) == (if IsRival(c, ensured) then [] else [c]) + Own(rest, ensured)
  {
    assert ([c] + rest)[1..] == rest;
  }

  lemma {:induction false} OwnConcat(a: seq<PoolClaim>, b: seq<PoolClaim>, ensured: string -> Ensured)
    ensures Own(a + b, ensured) == Own(a, ensured) + Own(b, ensured)
  {
    if a == [] {
      assert a + b == b;
    } else {
      OwnConcat(a[1..], b, ensured);
      OwnCons(a[0], a[1..], ensured);
      OwnCons(a[0], a[1..] + b, ensured);
      assert a == [a[0]] + a[1..];
      ConcatAssociates([a[0]], a[1..], b);
      ConcatAssociates(if IsRival(a[0], ensured) then [] else [a[0]], Own(a[1..], ensured), Own(b, ensured));
    }
  }

  /** What the new claims of a batch are allowed to add up to. */
  ghost predicate WithinSpecs(added: seq<PoolClaim>, specs: seq<ClaimResources>) {
    |added| <= |specs| && Sum(added, ClaimCpu) <= Sum(specs, SpecCpu) && Sum(added, ClaimMem) <= Sum(specs, SpecMem)
  }

  lemma ConsSums(r: ClaimResources, specs: seq<ClaimResources>)
    ensures Sum([r] + specs, SpecCpu) == SpecCpu(r) + Sum(specs, SpecCpu)
    ensures Sum([r] + specs, SpecMem) == SpecMem(r) + Sum(specs, SpecMem)
  {
    SumConcat([r], specs, SpecCpu);
    SumConcat([r], specs, SpecMem);
    SumSnoc([], r, SpecCpu);
    SumSnoc([], r, SpecMem);
    assert [] + [r] == [r];
  }

  lemma SpecsNonNegative(specs: seq<ClaimResources>)
    requires NonNegative(specs)
    ensures Sum(specs, SpecCpu) >= 0 && Sum(specs, SpecMem) >= 0
  {
    SumNonNegative(specs, SpecCpu);
    SumNonNegative(specs, SpecMem);
  }

  lemma EnsureExtends(
    claims: seq<PoolClaim>, pool: Pool, n: nat, r: ClaimResources, ensured: string -> Ensured, at: int)
    requires r.cpuCores >= 0 && r.memoryMiB >= 0
    ensures
      var name := ClaimName(pool.name, n);
      var after := ScaleUp.EnsureClaim(claims, pool, name, r, ensured(name), at).0;
      && (|| after == claims
          || (after == claims + [NewClaim(pool, name, r, at)] && !ensured(name).LostRace?)
          || (ensured(name).LostRace? && after == claims + [ensured(name).rival.(name := name)]))
      && Extends(claims, after, pool, n, n + 1, ensured)
      && (DistinctNames(claims) ==> DistinctNames(after))
  {
  }

  lemma ExtendsChain(
    a: seq<PoolClaim>, b: seq<PoolClaim>, c: seq<PoolClaim>, pool: Pool, lo: nat, mid: nat, hi: nat,
    ensured: string -> Ensured)
    requires lo <= mid <= hi && Extends(a, b, pool, lo, mid, ensured) && Extends(b, c, pool, mid, hi, ensured)
    ensures Extends(a, c, pool, lo, hi, ensured)
  {
    assert a == b[..|a|] == c[..|b|][..|a|] == c[..|a|];
    forall k | |a| <= k < |c|
      ensures c[k].poolRef == pool.name || IsRival(c[k], ensured)
      ensures exists n: nat :: lo <= n < hi && c[k].name == ClaimName(pool.name, n)
    {
      if k < |b| {
        assert c[k] == c[..|b|][k] == b[k];
      }
    }
  }

  /**
   A batch leaves every existing claim as it is, adds none under a name that is taken, and names the new
   ones from the batch's own numbers, whether it runs to the end or stops at an error.
   */
  lemma {:induction false} BatchOnlyAppends(
    claims: seq<PoolClaim>, pool: Pool, sequence: nat, specs: seq<ClaimResources>,
    ensured: string -> Ensured, at: int)
    requires NonNegative(specs)
    ensures
      var c := CreateClaims(claims, pool, sequence, specs, ensured, at);
      && sequence <= c.nextSequence <= sequence + |specs|
      && (c.ok ==> c.nextSequence == sequence + |specs|)
      && Extends(claims, c.claims, pool, sequence, c.nextSequence, ensured)
      && (DistinctNames(claims) ==> DistinctNames(c.claims))
    decreases |specs|
  {
    if specs != [] {
      var name := ClaimName(pool.name, sequence);
      EnsureExtends(claims, pool, sequence, specs[0], ensured, at);
      var (after, ok) := ScaleUp.EnsureClaim(claims, pool, name, specs[0], ensured(name), at);
      if ok {
        BatchOnlyAppends(after, pool, sequence + 1, specs[1..], ensured, at);
        var c := CreateClaims(after, pool, sequence + 1, specs[1..], ensured, at);
        ExtendsChain(claims, after, c.claims, pool, sequence, sequence + 1, c.nextSequence, ensured);
      }
    }
  }

  lemma OwnSingle(c: PoolClaim, ensured: string -> Ensured)
    ensures Own([c], ensured) == if IsRival(c, ensured) then [] else [c]
  {
    assert [c][1..] == [];
    assert Own([], ensured) == [];
  }

  lemma EnsureWithin(
    claims: seq<PoolClaim>, pool: Pool, n: nat, r: ClaimResources, ensured: string -> Ensured, at: int)
    requires r.cpuCores >= 0 && r.memoryMiB >= 0
    ensures
      var name := ClaimName(pool.name, n);
      var after := ScaleUp.EnsureClaim(claims, pool, name, r, ensured(name), at).0;
      claims <= after && WithinSpecs(Own(after[|claims|..], ensured), [r])
  {
    var name := ClaimName(pool.name, n);
    EnsureExtends(claims, pool, n, r, ensured, at);
    var c := NewClaim(pool, name, r, at);
    SumSnoc([], c, ClaimCpu);
    SumSnoc([], c, ClaimMem);
    assert [] + [c] == [c];
    ConsSums(r, []);
    assert [r] + [] == [r];
    var added := ScaleUp.EnsureClaim(claims, pool, name, r, ensured(name), at).0[|claims|..];
    if added != [] {
      assert added == [added[0]];
      OwnSingle(added[0], ensured);
    }
    assert Own(added, ensured) == [] || Own(added, ensured) == [c];
  }

  lemma WithinConcat(a: seq<PoolClaim>, s: seq<ClaimResources>, b: seq<PoolClaim>, t: seq<ClaimResources>)
    requires WithinSpecs(a, s) && WithinSpecs(b, t)
    ensures WithinSpecs(a + b, s + t)
  {
    SumConcat(a, b, ClaimCpu);
    SumConcat(a, b, ClaimMem);
    SumConcat(s, t, SpecCpu);
    SumConcat(s, t, SpecMem);
  }

  lemma BatchGrows(
    claims: seq<PoolClaim>, pool: Pool, sequence: nat, specs: seq<ClaimResources>,
    ensured: string -> Ensured, at: int)
    requires NonNegative(specs)
    ensures claims <= CreateClaims(claims, pool, sequence, specs, ensured, at).claims
  {
    BatchOnlyAppends(claims, pool, sequence, specs, ensured, at);
  }

  /** What a batch itself adds to the store never exceeds what was planned. */
  lemma {:induction false} BatchWithinSpecs(
    claims: seq<PoolClaim>, pool: Pool, sequence: nat, specs: seq<ClaimResources>,
    ensured: string -> Ensured, at: int)
    requires NonNegative(specs)
    ensures claims <= CreateClaims(claims, pool, sequence, specs, ensured, at).claims
    ensures WithinSpecs(Own(CreateClaims(claims, pool, sequence, specs, ensured, at).claims[|claims|..], ensured), specs)
    decreases |specs|
  {
    BatchGrows(claims, pool, sequence, specs, ensured, at);
    if specs == [] {
      NothingAdded(claims, specs, ensured);
    } else {
      var name, r, rest := ClaimName(pool.name, sequence), specs[0], specs[1..];
      var (after, ok) := ScaleUp.EnsureClaim(claims, pool, name, r, ensured(name), at);
      EnsureWithin(claims, pool, sequence, r, ensured, at);
      var c := CreateClaims(claims, pool, sequence, specs, ensured, at).claims;
      if ok {
        BatchWithinSpecs(after, pool, sequence + 1, rest, ensured, at);
      } else {
        NothingAdded(after, rest, ensured);
      }
      AddedInTwoSteps(claims, after, c, [r], rest, ensured);
      assert [r] + rest == specs;
    }
  }

  lemma NothingAdded(claims: seq<PoolClaim>, specs: seq<ClaimResources>, ensured: string -> Ensured)
    requires NonNegative(specs)
    ensures WithinSpecs(Own(claims[|claims|..], ensured), specs)
  {
    SpecsNonNegative(specs);
    assert claims[|claims|..] == [];
  }

  lemma AddedInTwoSteps(
    a: seq<PoolClaim>, b: seq<PoolClaim>, c: seq<PoolClaim>, s: seq<ClaimResources>, t: seq<ClaimResources>,
    ensured: string -> Ensured)
    requires a <= b <= c
    requires WithinSpecs(Own(b[|a|..], ensured), s) && WithinSpecs(Own(c[|b|..], ensured), t)
    ensures WithinSpecs(Own(c[|a|..], ensured), s + t)
  {
    assert c == b + c[|b|..];
    assert c[|a|..] == b[|a|..] + c[|b|..];
    OwnConcat(b[|a|..], c[|b|..], ensured);
    WithinConcat(Own(b[|a|..], ensured), s, Own(c[|b|..], ensured), t);
  }

  // ----- limits

  /** A listing taken before some claims were added, and one taken later. */
  ghost predicate Listings(before: seq<PoolClaim>, listing: seq<PoolClaim>, added: seq<PoolClaim>, later: seq<PoolClaim>) {
    multiset(listing) == multiset(before) && multiset(later) == multiset(before + added)
  }

  /** Counting later, and with claims added, finds at most the old count plus all that was added. */
  lemma RecountBound(
    before: seq<PoolClaim>, listing: seq<PoolClaim>, added: seq<PoolClaim>, later: seq<PoolClaim>,
    pool: string, now: int, now': int)
    requires Listings(before, listing, added, later) && now <= now'
    ensures
      var old', new' := CountsOf(listing, pool, now), CountsOf(later, pool, now');
      && new'.count <= old'.count + |added|
      && new'.cpu <= old'.cpu + Sum(added, ClaimCpu)
      && new'.mem <= old'.mem + Sum(added, ClaimMem)
  {
    CountsAsSums(listing, pool, now);
    CountsAsSums(later, pool, now');
    RecountCount(before, listing, added, later, pool, now, now');
    RecountCpu(before, listing, added, later, pool, now, now');
    RecountMem(before, listing, added, later, pool, now, now');
  }

  lemma RecountCount(
    before: seq<PoolClaim>, listing: seq<PoolClaim>, added: seq<PoolClaim>, later: seq<PoolClaim>,
    pool: string, now: int, now': int)
    requires Listings(before, listing, added, later) && now <= now'
    ensures Sum(later, CountIf(pool, now')) <= Sum(listing, CountIf(pool, now)) + |added|
  {
    var f, f' := CountIf(pool, now), CountIf(pool, now');
    assert forall c :: f'(c) <= f(c) && f'(c) <= 1;
    RecountSum(before, listing, added, later, f, f');
    SumAtMostLength(added, f');
  }

  lemma RecountCpu(
    before: seq<PoolClaim>, listing: seq<PoolClaim>, added: seq<PoolClaim>, later: seq<PoolClaim>,
    pool: string, now: int, now': int)
    requires Listings(before, listing, added, later) && now <= now'
    ensures Sum(later, CpuIf(pool, now')) <= Sum(listing, CpuIf(pool, now)) + Sum(added, ClaimCpu)
  {
    var f, f' := CpuIf(pool, now), CpuIf(pool, now');
    assert forall c :: ClaimCpu(c) >= 0;
    assert forall c :: f'(c) <= f(c) && f'(c) <= ClaimCpu(c);
    RecountResource(before, listing, added, later, ClaimCpu, f, f');
  }

  lemma RecountMem(
    before: seq<PoolClaim>, listing: seq<PoolClaim>, added: seq<PoolClaim>, later: seq<PoolClaim>,
    pool: string, now: int, now': int)
    requires Listings(before, listing, added, later) && now <= now'
    ensures Sum(later, MemIf(pool, now')) <= Sum(listing, MemIf(pool, now)) + Sum(added, ClaimMem)
  {
    var f, f' := MemIf(pool, now), MemIf(pool, now');
    assert forall c :: ClaimMem(c) >= 0;
    assert forall c :: f'(c) <= f(c) && f'(c) <= ClaimMem(c);
    RecountResource(before, listing, added, later, ClaimMem, f, f');
  }

  lemma RecountResource(
    before: seq<PoolClaim>, listing: seq<PoolClaim>, added: seq<PoolClaim>, later: seq<PoolClaim>,
    g: PoolClaim -> int, f: PoolClaim -> int, f': PoolClaim -> int)
    requires Listings(before, listing, added, later)
    requires forall c :: f'(c) <= f(c) && f'(c) <= g(c)
    ensures Sum(later, f') <= Sum(listing, f) + Sum(added, g)
  {
    RecountSum(before, listing, added, later, f, f');
    SumCompare(added, f', g);
  }

  lemma RecountSum(
    before: seq<PoolClaim>, listing: seq<PoolClaim>, added: seq<PoolClaim>, later: seq<PoolClaim>,
    f: PoolClaim -> int, f': PoolClaim -> int)
    requires Listings(before, listing, added, later)
    requires forall c :: f'(c) <= f(c)
    ensures Sum(later, f') <= Sum(listing, f) + Sum(added, f')
  {
    SumPermutation(later, before + added, f');
    SumConcat(before, added, f');
    SumCompare(before, f', f);
    SumPermutation(listing, before, f);
  }

  lemma {:induction false} SumAtMostLength<T(!new)>(s: seq<T>, f: T -> int)
    requires forall x :: f(x) <= 1
    ensures Sum(s, f) <= |s|
  {
    if s != [] {
      SumAtMostLength(s[..|s| - 1], f);
    }
  }

  /** The store after a step without the claims that rivals wrote during it. */
  function WithoutRivals(before: seq<PoolClaim>, after: seq<PoolClaim>, ensured: string -> Ensured): seq<PoolClaim> {
    if |before| <= |after| then before + Own(after[|before|..], ensured) else after
  }

  /**
   The limits hold in the state a scale-up leaves: whenever the step created anything, in full or cut
   short by an error, a recount at any later time finds the listed nodes and in-flight claims within
   MaxNodes and the total and in-flight resources within the configured limits, claims apart that another
   writer slipped in under the batch's names.
   */
  lemma LimitsHoldAfterwards(
    s: PoolState, pool: Pool, limits: Limits, i: ScaleUpInput, later: seq<PoolClaim>, now': int)
    requires i.claims.Some? ==> multiset(i.claims.value) == multiset(s.claims)
    requires i.now <= now'
    ensures
      var after := ScaleUpStep(s, pool, limits, i).0.claims;
      after != s.claims && multiset(later) == multiset(WithoutRivals(s.claims, after, i.ensured)) ==>
        i.usageNodes.Some? && WithinLimits(limits, |ListedNodes(i)|, UsageOf(i.usageNodes.value).total,
                                           CountsOf(later, pool.name, now'))
  {
    var after := ScaleUpStep(s, pool, limits, i).0.claims;
    if after != s.claims && multiset(later) == multiset(WithoutRivals(s.claims, after, i.ensured)) {
      var added := StepAddsWithinSpecs(s, pool, limits, i);
      assert after[|s.claims|..] == added;
      GoMeansWithinLimits(pool, limits, i);
      RecountBound(s.claims, i.claims.value, Own(added, i.ensured), later, pool.name, i.now, now');
    }
  }

  ghost predicate NoneIsRival(added: seq<PoolClaim>, ensured: string -> Ensured) {
    forall k :: 0 <= k < |added| ==> !IsRival(added[k], ensured)
  }

  lemma {:induction false} OwnIsAllWithoutRivals(added: seq<PoolClaim>, ensured: string -> Ensured)
    requires NoneIsRival(added, ensured)
    ensures Own(added, ensured) == added
  {
    if added != [] {
      OwnIsAllWithoutRivals(added[1..], ensured);
    }
  }

  /** No creation among these numbers loses a race. */
  ghost predicate NoRaces(pool: Pool, sequence: nat, count: nat, ensured: string -> Ensured) {
    forall n: nat :: sequence <= n < sequence + count ==> !ensured(ClaimName(pool.name, n)).LostRace?
  }

  lemma ExtendsWithoutRivals(
    before: seq<PoolClaim>, added: seq<PoolClaim>, pool: Pool, lo: nat, hi: nat, ensured: string -> Ensured)
    requires lo <= hi && Extends(before, before + added, pool, lo, hi, ensured)
    requires NoRaces(pool, lo, hi - lo, ensured)
    ensures NoneIsRival(added, ensured)
  {
    forall k | 0 <= k < |added| ensures !IsRival(added[k], ensured) {
      assert (before + added)[|before| + k] == added[k];
    }
  }

  lemma StepAddsNoRivals(s: PoolState, pool: Pool, limits: Limits, i: ScaleUpInput, added: seq<PoolClaim>)
    requires ScaleUpStep(s, pool, limits, i).0.claims == s.claims + added
    requires Decide(pool, limits, i).Go? ==>
      NoRaces(pool, FirstSequence(s), |Decide(pool, limits, i).specs|, i.ensured)
    ensures NoneIsRival(added, i.ensured)
  {
    if Decide(pool, limits, i).Go? {
      var specs := Decide(pool, limits, i).specs;
      DecidedAreNonNegative(pool, limits, i);
      BatchOnlyAppends(s.claims, pool, FirstSequence(s), specs, i.ensured, i.createdAt);
      var c := CreateClaims(s.claims, pool, FirstSequence(s), specs, i.ensured, i.createdAt);
      ExtendsWithoutRivals(s.claims, added, pool, FirstSequence(s), c.nextSequence, i.ensured);
    } else {
      assert |s.claims + added| == |s.claims| + |added|;
    }
  }

  /** Where no creation of the batch loses a race, this is the recount of the whole store. */
  lemma LimitsHoldWithoutRivals(
    s: PoolState, pool: Pool, limits: Limits, i: ScaleUpInput, later: seq<PoolClaim>, now': int)
    requires i.claims.Some? ==> multiset(i.claims.value) == multiset(s.claims)
    requires i.now <= now'
    requires Decide(pool, limits, i).Go? ==>
      NoRaces(pool, FirstSequence(s), |Decide(pool, limits, i).specs|, i.ensured)
    ensures
      var after := ScaleUpStep(s, pool, limits, i).0.claims;
      after != s.claims && multiset(later) == multiset(after) ==>
        i.usageNodes.Some? && WithinLimits(limits, |ListedNodes(i)|, UsageOf(i.usageNodes.value).total,
                                           CountsOf(later, pool.name, now'))
  {
    var after := ScaleUpStep(s, pool, limits, i).0.claims;
    var added := StepAddsWithinSpecs(s, pool, limits, i);
    assert after[|s.claims|..] == added;
    StepAddsNoRivals(s, pool, limits, i, added);
    OwnIsAllWithoutRivals(added, i.ensured);
    LimitsHoldAfterwards(s, pool, limits, i, later, now');
  }

  /** Nodes, capacity and in-flight claims together respect every limit that is set. */
  predicate WithinLimits(limits: Limits, nodes: nat, total: Size, counts: Counts) {
    && (limits.maxNodes > 0 ==> nodes + counts.count <= limits.maxNodes)
    && (limits.cpuCores > 0 ==> total.cpu + counts.cpu <= limits.cpuCores * MILLI)
    && (limits.memoryMiB > 0 ==> total.mem + counts.mem <= limits.memoryMiB * MIB)
  }

  /** A step that creates anything passed the checks, and adds no more than it planned. */
  lemma StepAddsWithinSpecs(s: PoolState, pool: Pool, limits: Limits, i: ScaleUpInput) returns (added: seq<PoolClaim>)
    ensures ScaleUpStep(s, pool, limits, i).0.claims == s.claims + added
    ensures added != [] ==>
      Decide(pool, limits, i).Go? && WithinSpecs(Own(added, i.ensured), Decide(pool, limits, i).specs)
  {
    DecidedAreNonNegative(pool, limits, i);
    added := [];
    if Decide(pool, limits, i).Go? {
      added := BatchAddsWithinSpecs(s, pool, Decide(pool, limits, i).specs, i);
    }
  }

  lemma BatchAddsWithinSpecs(s: PoolState, pool: Pool, specs: seq<ClaimResources>, i: ScaleUpInput)
    returns (added: seq<PoolClaim>)
    requires NonNegative(specs)
    ensures CreateAndRecord(s, pool, specs, i).0.claims == s.claims + added && WithinSpecs(Own(added, i.ensured), specs)
  {
    BatchWithinSpecs(s.claims, pool, FirstSequence(s), specs, i.ensured, i.createdAt);
    added := CreateClaims(s.claims, pool, FirstSequence(s), specs, i.ensured, i.createdAt).claims[|s.claims|..];
  }

  /** What the checks before the creation loop establish. */
  lemma GoMeansWithinLimits(pool: Pool, limits: Limits, i: ScaleUpInput)
    ensures
      var d := Decide(pool, limits, i);
      d.Go? ==>
        i.claims.Some? && i.usageNodes.Some? &&
        var counts := CountsOf(i.claims.value, pool.name, i.now);
        WithinLimits(limits, |ListedNodes(i)| + |d.specs|, UsageOf(i.usageNodes.value).total,
                     Counts(counts.count, counts.cpu + Sum(d.specs, SpecCpu), counts.mem + Sum(d.specs, SpecMem)))
  {
  }

  /**
   The node limit sees only listed nodes, none after a failed listing. For a batch that passes all other tests,
   the limit is kept for every MaxNodes if and only if no more nodes exist than were listed.
   */
  lemma NodeLimitSafeIffListed(pool: Pool, limits: Limits, i: ScaleUpInput, specs: seq<ClaimResources>, existing: nat)
    requires i.claims.Some? && DecideLimits(pool, limits.(maxNodes := 0), i, specs).Go?
    ensures (forall m: nat :: m > 0 && DecideLimits(pool, limits.(maxNodes := m), i, specs).Go? ==>
               existing + CountsOf(i.claims.value, pool.name, i.now).count + |specs| <= m)
      <==> existing <= |ListedNodes(i)|
  {
    var m := |ListedNodes(i)| + CountsOf(i.claims.value, pool.name, i.now).count + |specs|;
    assert m > 0 && DecideLimits(pool, limits.(maxNodes := m), i, specs).Go?;
  }

  /** Claims of the pool that are neither ready nor being deleted. */
  function LiveCount(claims: seq<PoolClaim>, pool: string): int {
    Sum(claims, LiveIf(pool))
  }

  /**
   Nor does the limit see unready claims older than fifteen minutes: the nodes listed, the live unready claims and the
   batch stay within every MaxNodes if and only if no live unready claim of the pool is that old.
   */
  lemma NodeLimitSafeIffFresh(pool: Pool, limits: Limits, i: ScaleUpInput, specs: seq<ClaimResources>)
    requires i.claims.Some? && DecideLimits(pool, limits.(maxNodes := 0), i, specs).Go?
    ensures (forall m: nat :: m > 0 && DecideLimits(pool, limits.(maxNodes := m), i, specs).Go? ==>
               |ListedNodes(i)| + LiveCount(i.claims.value, pool.name) + |specs| <= m)
      <==> forall c :: c in i.claims.value && LiveIf(pool.name)(c) == 1 ==> !Stale(c, i.now)
  {
    CountMissesStaleClaims(i.claims.value, pool.name, i.now);
    var m := |ListedNodes(i)| + CountsOf(i.claims.value, pool.name, i.now).count + |specs|;
    assert m > 0 && DecideLimits(pool, limits.(maxNodes := m), i, specs).Go?;
  }

  // ----- how many claims an acknowledged batch creates

  /** Names among `count` numbers from `sequence` on that no claim bears. */
  function FreeNames(claims: seq<PoolClaim>, pool: Pool, sequence: nat, count: nat): nat
    decreases count
  {
    if count == 0 then 0
    else (if HasClaim(claims, ClaimName(pool.name, sequence)) then 0 else 1)
         + FreeNames(claims, pool, sequence + 1, count - 1)
  }

  lemma {:induction false} FreeNamesStay(claims: seq<PoolClaim>, c: PoolClaim, pool: Pool, n: nat, sequence: nat, count: nat)
    requires c.name == ClaimName(pool.name, n) && n < sequence
    ensures FreeNames(claims + [c], pool, sequence, count) == FreeNames(claims, pool, sequence, count)
    decreases count
  {
    if count > 0 {
      FreeNamesStay(claims, c, pool, n, sequence + 1, count - 1);
      OtherNameStays(claims, c, pool, n, sequence);
    }
  }

  lemma OtherNameStays(claims: seq<PoolClaim>, c: PoolClaim, pool: Pool, n: nat, m: nat)
    requires c.name == ClaimName(pool.name, n) && n != m
    ensures HasClaim(claims + [c], ClaimName(pool.name, m)) == HasClaim(claims, ClaimName(pool.name, m))
  {
    var name := ClaimName(pool.name, m);
    if name == c.name {
      ClaimNameIsInjective(pool.name, m, pool.name, n);
    }
    if HasClaim(claims, name) {
      var k :| 0 <= k < |claims| && claims[k].name == name;
      assert (claims + [c])[k].name == name;
    }
  }

  lemma EnsureCounts(claims: seq<PoolClaim>, pool: Pool, n: nat, r: ClaimResources, e: Ensured, at: int)
    requires r.cpuCores >= 0 && r.memoryMiB >= 0
    ensures
      var name := ClaimName(pool.name, n);
      var (after, ok) := ScaleUp.EnsureClaim(claims, pool, name, r, e, at);
      ok ==> if HasClaim(claims, name) then after == claims
             else |after| == |claims| + 1 && after[..|claims|] == claims && after[|claims|].name == name
  {
  }

  /**
   What success of a batch means: it created one claim for every name of its numbers that was free, and counted every
   name that was taken as created.
   */
  lemma {:induction false} BatchCreatesFreeNames(
    claims: seq<PoolClaim>, pool: Pool, sequence: nat, specs: seq<ClaimResources>, ensured: string -> Ensured, at: int)
    requires NonNegative(specs)
    ensures
      var c := CreateClaims(claims, pool, sequence, specs, ensured, at);
      c.ok ==> |c.claims| == |claims| + FreeNames(claims, pool, sequence, |specs|)
    decreases |specs|
  {
    if specs != [] {
      var name := ClaimName(pool.name, sequence);
      var (after, ok) := ScaleUp.EnsureClaim(claims, pool, name, specs[0], ensured(name), at);
      if ok {
        EnsureCounts(claims, pool, sequence, specs[0], ensured(name), at);
        BatchCreatesFreeNames(after, pool, sequence + 1, specs[1..], ensured, at);
        if !HasClaim(claims, name) {
          assert after == claims + [after[|claims|]];
          FreeNamesStay(claims, after[|claims|], pool, sequence, sequence + 1, |specs| - 1);
        }
      }
    }
  }

  /** All names of those numbers are taken, or all are free. */
  ghost predicate AllTaken(claims: seq<PoolClaim>, pool: Pool, sequence: nat, count: nat) {
    forall n: nat :: sequence <= n < sequence + count ==> HasClaim(claims, ClaimName(pool.name, n))
  }

  ghost predicate AllFree(claims: seq<PoolClaim>, pool: Pool, sequence: nat, count: nat) {
    forall n: nat :: sequence <= n < sequence + count ==> !HasClaim(claims, ClaimName(pool.name, n))
  }

  lemma {:induction false} AllFreeIff(claims: seq<PoolClaim>, pool: Pool, sequence: nat, count: nat)
    ensures FreeNames(claims, pool, sequence, count) <= count
    ensures FreeNames(claims, pool, sequence, count) == count <==> AllFree(claims, pool, sequence, count)
    decreases count
  {
    if count > 0 {
      AllFreeIff(claims, pool, sequence + 1, count - 1);
    }
  }

  lemma {:induction false} NoneFreeIff(claims: seq<PoolClaim>, pool: Pool, sequence: nat, count: nat)
    ensures FreeNames(claims, pool, sequence, count) == 0 <==> AllTaken(claims, pool, sequence, count)
    decreases count
  {
    if count > 0 {
      NoneFreeIff(claims, pool, sequence + 1, count - 1);
    }
  }

  /** A batch that reports success created what was planned if and only if none of its names was taken. */
  lemma FullBatchIffNamesFree(
    claims: seq<PoolClaim>, pool: Pool, sequence: nat, specs: seq<ClaimResources>, ensured: string -> Ensured, at: int)
    requires NonNegative(specs) && CreateClaims(claims, pool, sequence, specs, ensured, at).ok
    ensures |CreateClaims(claims, pool, sequence, specs, ensured, at).claims| == |claims| + |specs| <==>
      AllFree(claims, pool, sequence, |specs|)
  {
    BatchCreatesFreeNames(claims, pool, sequence, specs, ensured, at);
    AllFreeIff(claims, pool, sequence, |specs|);
  }

  /** Every number of a successful batch is the number of a claim afterwards. */
  lemma {:induction false} BatchTakesItsNames(
    claims: seq<PoolClaim>, pool: Pool, sequence: nat, specs: seq<ClaimResources>, ensured: string -> Ensured, at: int,
    n: nat)
    requires NonNegative(specs) && CreateClaims(claims, pool, sequence, specs, ensured, at).ok
    requires sequence <= n < sequence + |specs|
    ensures HasClaim(CreateClaims(claims, pool, sequence, specs, ensured, at).claims, ClaimName(pool.name, n))
    decreases |specs|
  {
    var name := ClaimName(pool.name, sequence);
    var (after, ok) := ScaleUp.EnsureClaim(claims, pool, name, specs[0], ensured(name), at);
    if n > sequence {
      BatchTakesItsNames(after, pool, sequence + 1, specs[1..], ensured, at, n);
    } else {
      EnsureCounts(claims, pool, sequence, specs[0], ensured(name), at);
      var k :| 0 <= k < |after| && after[k].name == name;
      BatchGrows(after, pool, sequence + 1, specs[1..], ensured, at);
      assert CreateClaims(after, pool, sequence + 1, specs[1..], ensured, at).claims[k] == after[k];
    }
  }

  /**
   A successful batch whose new sequence number was not stored is followed by one that creates nothing: a next batch
   that is no larger takes the same numbers, finds all its names taken, and reports success.
   */
  lemma RetriedBatchCreatesNothing(
    claims: seq<PoolClaim>, pool: Pool, sequence: nat, specs: seq<ClaimResources>, ensured: string -> Ensured, at: int,
    again: seq<ClaimResources>, ensured': string -> Ensured, at': int)
    requires NonNegative(specs) && NonNegative(again) && |again| <= |specs|
    requires CreateClaims(claims, pool, sequence, specs, ensured, at).ok
    ensures
      var after := CreateClaims(claims, pool, sequence, specs, ensured, at).claims;
      var c := CreateClaims(after, pool, sequence, again, ensured', at');
      c.ok ==> c.claims == after
  {
    var after := CreateClaims(claims, pool, sequence, specs, ensured, at).claims;
    forall n: nat | sequence <= n < sequence + |again| ensures HasClaim(after, ClaimName(pool.name, n)) {
      BatchTakesItsNames(claims, pool, sequence, specs, ensured, at, n);
    }
    NoneFreeIff(after, pool, sequence, |again|);
    BatchCreatesFreeNames(after, pool, sequence, again, ensured', at');
    BatchGrows(after, pool, sequence, again, ensured', at');
  }

  // ----- claim names over a run

  /** Scale-ups of the pool between arbitrary changes to the namespace's claims made by others. */
  datatype Action = ScaleUpAction(input: ScaleUpInput) | Others(claims: seq<PoolClaim>)

  function Apply(s: PoolState, pool: Pool, limits: Limits, a: Action): PoolState {
    match a
    case ScaleUpAction(i) => ScaleUpStep(s, pool, limits, i).0
    case Others(claims) => s.(claims := claims)
  }

  ghost predicate Run(states: seq<PoolState>, pool: Pool, limits: Limits, actions: seq<Action>) {
    && |states| == |actions| + 1
    && forall k :: 0 <= k < |actions| ==> states[k + 1] == Apply(states[k], pool, limits, actions[k])
  }

  /** The step ran its whole batch and its new sequence number was stored. */
  predicate Persisted(s: PoolState, pool: Pool, limits: Limits, a: Action) {
    a.ScaleUpAction? && !a.input.write.Rejected? &&
    var d := Decide(pool, limits, a.input);
    d.Go? && (DecidedAreNonNegative(pool, limits, a.input);
              CreateClaims(s.claims, pool, FirstSequence(s), d.specs, a.input.ensured, a.input.createdAt).ok)
  }

  /** The sequence numbers a persisted step used are `[FirstSequence, FirstSequence + |specs|)`. */
  predicate UsesNumber(s: PoolState, pool: Pool, limits: Limits, a: Action, n: nat) {
    && Persisted(s, pool, limits, a)
    && FirstSequence(s) <= n < FirstSequence(s) + |Decide(pool, limits, a.input).specs|
  }

  lemma StepMovesSequence(s: PoolState, pool: Pool, limits: Limits, a: Action)
    ensures s.nextSequence <= Apply(s, pool, limits, a).nextSequence
    ensures Persisted(s, pool, limits, a) ==>
      Apply(s, pool, limits, a).nextSequence == FirstSequence(s) + |Decide(pool, limits, a.input).specs|
  {
    if a.ScaleUpAction? && Decide(pool, limits, a.input).Go? {
      DecidedAreNonNegative(pool, limits, a.input);
      BatchOnlyAppends(s.claims, pool, FirstSequence(s), Decide(pool, limits, a.input).specs,
                       a.input.ensured, a.input.createdAt);
    }
  }

  lemma {:induction false} SequenceNeverDecreases(
    states: seq<PoolState>, pool: Pool, limits: Limits, actions: seq<Action>, j: nat, k: nat)
    requires Run(states, pool, limits, actions) && j <= k < |states|
    ensures states[j].nextSequence <= states[k].nextSequence
    decreases k - j
  {
    if j < k {
      StepMovesSequence(states[j], pool, limits, actions[j]);
      SequenceNeverDecreases(states, pool, limits, actions, j + 1, k);
    }
  }

  /** Two persisted scale-ups of a run never use the same claim name. */
  lemma PersistedNamesAreDisjoint(
    states: seq<PoolState>, pool: Pool, limits: Limits, actions: seq<Action>, j: nat, k: nat, m: nat, n: nat)
    requires Run(states, pool, limits, actions) && j < k < |actions|
    ensures UsesNumber(states[j], pool, limits, actions[j], m) && UsesNumber(states[k], pool, limits, actions[k], n)
      ==> m < n && ClaimName(pool.name, m) != ClaimName(pool.name, n)
  {
    StepMovesSequence(states[j], pool, limits, actions[j]);
    SequenceNeverDecreases(states, pool, limits, actions, j + 1, k);
    if ClaimName(pool.name, m) == ClaimName(pool.name, n) {
      ClaimNameIsInjective(pool.name, m, pool.name, n);
    }
  }
}
