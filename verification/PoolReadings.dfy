/** What the pool controller reads from pods, nodes, claims and labels, told field by field. */
module PoolReadings {
  import opened Common
  import opened Decimal
  import opened KubeObjects
  import opened CapacityPlanner
  import opened PoolMatching
  import opened NodeLabels
  import opened Accounting
  import opened ScaleUp
  import opened RepeatedScaleUp
  import ClaimLifecycle

  // ----- pods on nodes

  /** Requests add up over containers. */
  lemma RequestsAdd(p: Pod, a: seq<Container>, b: seq<Container>, c: Container)
    ensures RequestedCpu(p.(containers := [c])) == c.cpuMilli && RequestedMem(p.(containers := [c])) == c.memBytes
    ensures RequestedCpu(p.(containers := a + b)) == RequestedCpu(p.(containers := a)) + RequestedCpu(p.(containers := b))
    ensures RequestedMem(p.(containers := a + b)) == RequestedMem(p.(containers := a)) + RequestedMem(p.(containers := b))
  {
    SumConcat(a, b, ContainerCpu);
    SumConcat(a, b, ContainerMem);
    SumSnoc([], c, ContainerCpu);
    SumSnoc([], c, ContainerMem);
    assert [] + [c] == [c];
  }

  /** The pod is the node's own to bear: not a mirror pod, not terminating, not finished. */
  predicate Burdens(p: Pod) {
    p.mirror == false && p.deleting == false && (p.phase == Pending || p.phase == Running || p.phase == UnknownPhase)
  }

  /** The pods a node bears are picked one by one, in order. */
  lemma BurdensInOrder(pods: seq<Pod>, p: Pod)
    ensures Consumers([]) == []
    ensures Consumers(pods + [p]) == Consumers(pods) + if Burdens(p) then [p] else []
  {
    assert (pods + [p])[..|pods|] == pods;
  }

  function Borne(f: Pod -> int): Pod -> int {
    (p: Pod) => if Burdens(p) then f(p) else 0
  }

  lemma {:induction false} ConsumersSum(pods: seq<Pod>, f: Pod -> int)
    ensures Sum(Consumers(pods), f) == Sum(pods, Borne(f))
  {
    if pods != [] {
      var n := |pods| - 1;
      ConsumersSum(pods[..n], f);
      SumSnoc(Consumers(pods[..n]), pods[n], f);
      assert Consumers(pods) == if Burdens(pods[n]) then Consumers(pods[..n]) + [pods[n]] else Consumers(pods[..n]);
    }
  }

  function MilliBorne(n: NodeWithPods): int {
    if n.pods.Some? then Sum(n.pods.value, Borne(RequestedCpu)) else 0
  }

  function BytesBorne(n: NodeWithPods): int {
    if n.pods.Some? then Sum(n.pods.value, Borne(RequestedMem)) else 0
  }

  /** A node's room is its allocatable size less what its pods ask for, and never negative. */
  lemma RoomOfNode(n: NodeWithPods)
    ensures UsedCpu(n) == MilliBorne(n) && UsedMem(n) == BytesBorne(n)
    ensures
      var cpu, mem := n.node.allocatableCpu - MilliBorne(n), n.node.allocatableMem - BytesBorne(n);
      NodeBucket(n) == Size(if cpu > 0 then cpu else 0, if mem > 0 then mem else 0)
  {
    if n.pods.Some? {
      ConsumersSum(n.pods.value, RequestedCpu);
      ConsumersSum(n.pods.value, RequestedMem);
    }
  }

  lemma {:induction false} RoomsInOrder(nodes: seq<NodeWithPods>)
    ensures |NodeBuckets(nodes)| == |nodes|
    ensures forall k :: 0 <= k < |nodes| ==> NodeBuckets(nodes)[k] == NodeBucket(nodes[k])
  {
    if nodes != [] {
      RoomsInOrder(nodes[..|nodes| - 1]);
    }
  }

  /** Every figure of a pool's usage is the sum of that field over its nodes. */
  lemma UsageAdds(a: seq<NodeWithPods>, n: NodeWithPods)
    ensures UsageOf([]) == PoolUsage(Size(0, 0), Size(0, 0), Size(0, 0), Size(0, 0), 0)
    ensures
      var u, v := UsageOf(a), UsageOf(a + [n]);
      && v.requested == Size(u.requested.cpu + MilliBorne(n), u.requested.mem + BytesBorne(n))
      && v.allocatable == Size(u.allocatable.cpu + n.node.allocatableCpu, u.allocatable.mem + n.node.allocatableMem)
      && v.total == Size(u.total.cpu + n.node.capacityCpu, u.total.mem + n.node.capacityMem)
      && v.available == Size(v.allocatable.cpu - v.requested.cpu, v.allocatable.mem - v.requested.mem)
      && v.nodeCount == u.nodeCount + 1
  {
    RoomOfNode(n);
    SumSnoc(a, n, UsedCpu);
    SumSnoc(a, n, UsedMem);
    SumSnoc(a, n, AllocatableCpu);
    SumSnoc(a, n, AllocatableMem);
    SumSnoc(a, n, CapacityCpu);
    SumSnoc(a, n, CapacityMem);
  }

  // ----- claims

  lemma SizeOfClaim(c: PoolClaim)
    requires c.requirements.Some?
    ensures ClaimSize(c) == Size(1000 * c.requirements.value.cpuCores, 1_048_576 * c.requirements.value.memoryMiB)
  {
  }

  /** An unready claim of the pool with requirements is room of its size, in cores and MiB, and nothing else is. */
  lemma RoomOfClaim(before: seq<PoolClaim>, c: PoolClaim, pool: string)
    ensures Room([], pool) == []
    ensures Room(before + [c], pool) == Room(before, pool) +
      if c.poolRef == pool && c.ready == false && c.requirements.Some?
      then [Size(1000 * c.requirements.value.cpuCores, 1_048_576 * c.requirements.value.memoryMiB)] else []
  {
    RoomConcat(before, [c], pool);
    RoomOfOne(c, pool);
    if c.requirements.Some? {
      SizeOfClaim(c);
    }
    assert PendingClaims([], pool) == [] && ClaimSizes([]) == [];
  }

  /** The claim gives a size for nodes. */
  predicate GivesSize(c: PoolClaim, pool: string) {
    && c.poolRef == pool && c.requirements.Some?
    && c.requirements.value.cpuCores >= 1 && c.requirements.value.memoryMiB >= 1
  }

  lemma {:induction false} FirstSizedIs(claims: seq<PoolClaim>, pool: string, j: nat)
    requires j <= |claims| && (forall k :: 0 <= k < j ==> !GivesSize(claims[k], pool))
    requires j < |claims| ==> GivesSize(claims[j], pool)
    ensures FirstSized(claims, pool) == if j < |claims| then Some(claims[j]) else None
  {
    if j > 0 {
      FirstSizedIs(claims[1..], pool, j - 1);
    }
  }

  /** The size of a new node: the first node's, else the first sized claim's at `j`, else what the largest pods need. */
  lemma NodeSizeIs(pool: string, nodes: seq<NodeWithPods>, claims: seq<PoolClaim>, pods: seq<Pod>, j: nat)
    requires j <= |claims| && (forall k :: 0 <= k < j ==> !GivesSize(claims[k], pool))
    requires j < |claims| ==> GivesSize(claims[j], pool)
    ensures NodeCapacity(pool, nodes, claims, pods) ==
      if |nodes| > 0 then Size(nodes[0].node.allocatableCpu, nodes[0].node.allocatableMem)
      else if j < |claims| then
        Size(1000 * claims[j].requirements.value.cpuCores, 1_048_576 * claims[j].requirements.value.memoryMiB)
      else LargestPod(pods)
  {
    FirstSizedIs(claims, pool, j);
  }

  // ----- selectors and affinity

  predicate Listed(values: seq<string>, value: string) {
    exists k :: 0 <= k < |values| && values[k] == value
  }

  /** What each operator means. */
  lemma OperatorsMean(key: string, values: seq<string>, labels: Labels)
    ensures Holds(Expression(key, In, values), labels) <==> key in labels && Listed(values, labels[key])
    ensures Holds(Expression(key, NotIn, values), labels) <==> !(key in labels && Listed(values, labels[key]))
    ensures Holds(Expression(key, Exists, values), labels) <==> key in labels.Keys
    ensures Holds(Expression(key, DoesNotExist, values), labels) <==> key !in labels.Keys
    ensures Holds(Expression(key, Unrecognized, values), labels)
  {
    if key in labels {
      ListedIff(values, labels[key]);
    }
  }

  lemma ListedIff(values: seq<string>, value: string)
    ensures value in values <==> Listed(values, value)
  {
  }

  /** Decimal text of an integer. */
  function Written(n: int): string {
    if n >= 0 then Render(n) else "-" + Render(-n)
  }

  lemma WrittenIsRead(n: int)
    requires INT64_MIN <= n <= INT64_MAX
    ensures ParseInt(Written(n)) == Some(n)
  {
    ParseIntRoundTrip(if n >= 0 then n else -n);
  }

  /** Gt and Lt compare the numbers that label and first value denote; without both numbers neither holds. */
  lemma ComparisonsMean(key: string, actual: int, bound: int, rest: seq<string>, labels: Labels)
    requires INT64_MIN <= actual <= INT64_MAX && INT64_MIN <= bound <= INT64_MAX
    ensures
      var with := labels[key := Written(actual)];
      && (Holds(Expression(key, Gt, [Written(bound)] + rest), with) <==> actual > bound)
      && (Holds(Expression(key, Lt, [Written(bound)] + rest), with) <==> actual < bound)
    ensures key !in labels ==>
      && !Holds(Expression(key, Gt, [Written(bound)] + rest), labels)
      && !Holds(Expression(key, Lt, [Written(bound)] + rest), labels)
    ensures key in labels && ParseInt(labels[key]).None? ==>
      && !Holds(Expression(key, Gt, [Written(bound)] + rest), labels)
      && !Holds(Expression(key, Lt, [Written(bound)] + rest), labels)
  {
    WrittenIsRead(actual);
    WrittenIsRead(bound);
  }

  predicate AllHold(t: Term, labels: Labels) {
    forall k :: 0 <= k < |t.matchExpressions| ==> Holds(t.matchExpressions[k], labels)
  }

  /** The term has an expression about the pool's key or one of its template labels. */
  predicate SpeaksOf(t: Term, pool: Pool) {
    exists k :: 0 <= k < |t.matchExpressions| &&
      (t.matchExpressions[k].key == pool.labelKey || t.matchExpressions[k].key in pool.templateLabels.Keys)
  }

  lemma TermsMean(t: Term, pool: Pool, labels: Labels)
    ensures TermHolds(t, labels) <==> AllHold(t, labels)
    ensures TermMentionsPool(t, pool) <==> SpeaksOf(t, pool)
  {
    if AllHold(t, labels) {
      forall e | e in t.matchExpressions ensures Holds(e, labels) {
        var k :| 0 <= k < |t.matchExpressions| && t.matchExpressions[k] == e;
      }
    }
    if TermHolds(t, labels) {
      forall k | 0 <= k < |t.matchExpressions| ensures Holds(t.matchExpressions[k], labels) {
        assert t.matchExpressions[k] in t.matchExpressions;
      }
    }
    if TermMentionsPool(t, pool) {
      var e :| e in t.matchExpressions && PoolRequiresLabel(pool, e.key);
      var k :| 0 <= k < |t.matchExpressions| && t.matchExpressions[k] == e;
    }
    if SpeaksOf(t, pool) {
      var k :| 0 <= k < |t.matchExpressions| &&
        (t.matchExpressions[k].key == pool.labelKey || t.matchExpressions[k].key in pool.templateLabels.Keys);
      assert t.matchExpressions[k] in t.matchExpressions;
    }
  }

  /** Term `j` is the first one that matches. */
  predicate MatchesFirst(terms: seq<Term>, labels: Labels, j: int) {
    0 <= j < |terms| && AllHold(terms[j], labels) && forall k :: 0 <= k < j ==> !AllHold(terms[k], labels)
  }

  lemma {:induction false} FirstMatchingIs(terms: seq<Term>, pool: Pool, labels: Labels, j: int)
    requires MatchesFirst(terms, labels, j)
    ensures FirstMatching(terms, labels) == Some(terms[j])
  {
    TermsMean(terms[0], pool, labels);
    if j > 0 {
      FirstMatchingIs(terms[1..], pool, labels, j - 1);
    }
  }

  predicate SelectorSatisfied(pod: Pod, labels: Labels) {
    forall k :: k in pod.nodeSelector ==> k in labels && labels[k] == pod.nodeSelector[k]
  }

  predicate SelectorSpeaks(pod: Pod, pool: Pool) {
    exists k :: k in pod.nodeSelector && (k == pool.labelKey || k in pool.templateLabels)
  }

  /** With affinity, a pod matches through its selector and its first matching term `j`, and asks for the pool by either. */
  lemma PodWithTermsMeans(pod: Pod, pool: Pool, labels: Labels, j: int)
    requires pod.requiredTerms.Some? && MatchesFirst(pod.requiredTerms.value, labels, j)
    ensures PodMatches(pod, labels) <==> SelectorSatisfied(pod, labels)
    ensures Targets(pod, pool, labels) <==> SelectorSpeaks(pod, pool) || SpeaksOf(pod.requiredTerms.value[j], pool)
  {
    var t := pod.requiredTerms.value[j];
    TermsMean(t, pool, labels);
    FirstMatchingIs(pod.requiredTerms.value, pool, labels, j);
    assert t in pod.requiredTerms.value;
  }

  /** With affinity of which no term matches, a pod does not match. */
  lemma PodWithoutMatchingTerm(pod: Pod, pool: Pool, labels: Labels)
    requires pod.requiredTerms.Some? && pod.requiredTerms.value != []
    requires forall k :: 0 <= k < |pod.requiredTerms.value| ==> !AllHold(pod.requiredTerms.value[k], labels)
    ensures !PodMatches(pod, labels)
  {
    forall t | t in pod.requiredTerms.value ensures !TermHolds(t, labels) {
      var k :| 0 <= k < |pod.requiredTerms.value| && pod.requiredTerms.value[k] == t;
      TermsMean(t, pool, labels);
    }
  }

  /** Without affinity the selector alone decides both. */
  lemma PodWithoutTermsMeans(pod: Pod, pool: Pool, labels: Labels)
    requires pod.requiredTerms.None? || pod.requiredTerms.value == []
    ensures PodMatches(pod, labels) <==> SelectorSatisfied(pod, labels)
    ensures Targets(pod, pool, labels) <==> SelectorSpeaks(pod, pool)
  {
  }

  /** The labels a pool promises: its template's, and its own key unless that is empty or the template has it. */
  lemma PoolLabelsAre(pool: Pool, key: string)
    ensures key in PoolLabels(pool) <==> key in pool.templateLabels || (key == pool.labelKey && key != "")
    ensures key in pool.templateLabels ==> PoolLabels(pool)[key] == pool.templateLabels[key]
    ensures key !in pool.templateLabels && key == pool.labelKey && key != "" ==> PoolLabels(pool)[key] == pool.name
  {
  }

  /** The pods a pool answers for are picked one by one, in order. */
  lemma AcceptsInOrder(pods: seq<Pod>, p: Pod, pool: Pool)
    ensures AcceptedPods([], pool) == []
    ensures AcceptedPods(pods + [p], pool) == AcceptedPods(pods, pool) +
      if PodMatches(p, PoolLabels(pool)) && Targets(p, pool, PoolLabels(pool)) then [p] else []
  {
    assert (pods + [p])[..|pods|] == pods;
  }

  // ----- the labels of a registered node

  /** The labels after registration, key by key: template before claim before pool before what was there. */
  lemma LabelsAfterRegistration(labels: Labels, pool: Pool, claimName: string, key: string)
    requires claimName != "" && pool.name != ""
    ensures
      var final := FinalLabels(labels, pool, claimName);
      var poolKey := if Blank(pool.labelKey) then "topology.kubenodesmith.io/pool" else pool.labelKey;
      if key in pool.templateLabels then key in final && final[key] == pool.templateLabels[key]
      else if key == "kubenodesmith.io/nodeclaim" then key in final && final[key] == claimName
      else if key == poolKey then key in final && final[key] == pool.name
      else (key in final <==> key in labels) && (key in final ==> final[key] == labels[key])
  {
  }

  /** A labelled node is the claim's own from then on, whatever its name, unless the template claims the label. */
  lemma LabelledNodeBelongs(labels: Labels, pool: Pool, claimName: string, n: ClaimLifecycle.Node)
    requires claimName != "" && pool.name != "" && "kubenodesmith.io/nodeclaim" !in pool.templateLabels
    requires !n.terminating
    requires
      var final := FinalLabels(labels, pool, claimName);
      var key := "kubenodesmith.io/nodeclaim";
      n.claimLabel == if key in final then Some(final[key]) else None
    ensures ClaimLifecycle.IsNodeFor(n, claimName)
  {
    LabelsAfterRegistration(labels, pool, claimName, "kubenodesmith.io/nodeclaim");
  }

  /** The template makes a difference exactly if applying it changes the labels. */
  lemma DiffersIffChanged(labels: Labels, template: Labels)
    ensures Differs(labels, template) <==> labels + template != labels
    ensures forall key :: LabelOf(labels, key) == if key in labels.Keys then labels[key] else ""
  {
    if Differs(labels, template) {
      var k :| k in template && (k !in labels || labels[k] != template[k]);
      assert (labels + template)[k] == template[k];
    } else {
      assert labels + template == labels;
    }
  }

  /** White space in the sense of Go's `unicode.IsSpace`, by code point. */
  lemma SpacesAre(c: char)
    ensures IsSpace(c) <==>
      var n := c as int;
      || 9 <= n <= 13 || n in {32, 133, 160, 5760, 8232, 8233, 8239, 8287, 12288}
      || 8192 <= n <= 8202
  {
  }

  lemma BlankKeys()
    ensures Blank("") && Blank(" ") && Blank("\t\n\r") && !Blank("a") && !Blank(" a ")
  {
    var s := " a ";
    assert s[1] == 'a' && !IsSpace('a');
    assert "a"[0] == 'a';
  }
}
