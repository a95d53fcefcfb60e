/** The labels a registered node receives, and that they honour the pods the pool was scaled up for. */
module NodeLabels {
  import opened KubeObjects
  import opened PoolMatching

  const DEFAULT_POOL_KEY := "topology.kubenodesmith.io/pool"
  const CLAIM_KEY := "kubenodesmith.io/nodeclaim"

  predicate IsSpace(c: char) {
    c in {'\t', '\n', '\U{0b}', '\U{0c}', '\r', ' ', '\U{85}', '\U{a0}', '\U{1680}', '\U{2028}', '\U{2029}',
          '\U{202f}', '\U{205f}', '\U{3000}'}
    || '\U{2000}' <= c <= '\U{200a}'
  }

  /** Nothing but white space. */
  predicate Blank(s: string) {
    forall i :: 0 <= i < |s| ==> IsSpace(s[i])
  }

  function PoolKey(pool: Pool): string {
    if Blank(pool.labelKey) then DEFAULT_POOL_KEY else pool.labelKey
  }

  /** A Go map reads a missing key as the empty string. */
  function SetLabel(labels: Labels, key: string, value: string): Labels {
    if (if key in labels then labels[key] else "") != value then labels[key := value] else labels
  }

  function FinalLabels(labels: Labels, pool: Pool, claimName: string): Labels {
    SetLabel(SetLabel(labels, PoolKey(pool), pool.name), CLAIM_KEY, claimName) + pool.templateLabels
  }

  /** Some label of the template is missing or different. */
  predicate Differs(labels: Labels, template: Labels) {
    exists k :: k in template && (k !in labels || labels[k] != template[k])
  }

  function LabelOf(labels: Labels, key: string): string {
    if key in labels then labels[key] else ""
  }

  /** The template's labels, visited in any order. */
  method ApplyTemplate(labels: Labels, template: Labels) returns (desired: Labels, changed: bool)
    ensures desired == labels + template
    ensures changed <==> Differs(labels, template)
  {
    desired, changed := labels, false;
    var rest := template.Keys;
    while rest != {}
      invariant rest <= template.Keys
      invariant desired.Keys == labels.Keys + (template.Keys - rest)
      invariant forall k :: k in desired ==>
        desired[k] == if k in template && k !in rest then template[k] else labels[k]
      invariant changed <==> exists k :: k in template && k !in rest && (k !in labels || labels[k] != template[k])
    {
      var key :| key in rest;
      if key !in desired || desired[key] != template[key] {
        desired := desired[key := template[key]];
        changed := true;
      }
      rest := rest - {key};
    }
  }

  /** Edits a copy of the node's labels and reports whether there is anything to patch. */
  method EnsureNodeLabels(labels: Labels, pool: Pool, claimName: string) returns (desired: Labels, changed: bool)
    ensures desired == FinalLabels(labels, pool, claimName)
    ensures
      var pooled := SetLabel(labels, PoolKey(pool), pool.name);
      var claimed := SetLabel(pooled, CLAIM_KEY, claimName);
      changed <==>
        || LabelOf(labels, PoolKey(pool)) != pool.name || LabelOf(pooled, CLAIM_KEY) != claimName
        || Differs(claimed, pool.templateLabels)
    ensures !changed ==> desired == labels
  {
    var labelKey := pool.labelKey;
    if Blank(labelKey) {
      labelKey := DEFAULT_POOL_KEY;
    }
    desired := labels;
    changed := false;
    if (if labelKey in desired then desired[labelKey] else "") != pool.name {
      desired := desired[labelKey := pool.name];
      changed := true;
    }
    if (if CLAIM_KEY in desired then desired[CLAIM_KEY] else "") != claimName {
      desired := desired[CLAIM_KEY := claimName];
      changed := true;
    }
    var templateChanged;
    desired, templateChanged := ApplyTemplate(desired, pool.templateLabels);
    changed := changed || templateChanged;
  }

  /** Labelling again changes nothing, and labels of others stay as they were. */
  lemma LabellingIsIdempotent(labels: Labels, pool: Pool, claimName: string, key: string)
    ensures FinalLabels(FinalLabels(labels, pool, claimName), pool, claimName) == FinalLabels(labels, pool, claimName)
    ensures key != PoolKey(pool) && key != CLAIM_KEY && key !in pool.templateLabels ==>
      (key in FinalLabels(labels, pool, claimName) <==> key in labels)
      && (key in labels ==> FinalLabels(labels, pool, claimName)[key] == labels[key])
  {
    var once := FinalLabels(labels, pool, claimName);
    var twice := FinalLabels(once, pool, claimName);
    forall k ensures (k in twice <==> k in once) && (k in once ==> twice[k] == once[k]) {
    }
  }

  ghost predicate SubMap(a: Labels, b: Labels) {
    forall k :: k in a ==> k in b && a[k] == b[k]
  }

  /** The pool's label key works as one: absent, given by the template, or a real key of its own. */
  predicate KeyIsUsable(pool: Pool) {
    pool.labelKey == "" || pool.labelKey in pool.templateLabels
    || (!Blank(pool.labelKey) && pool.labelKey != CLAIM_KEY)
  }

  /** Every label pods are matched against reaches every labelled node exactly if the pool's key is usable. */
  lemma LabelsReachNodeIff(pool: Pool)
    requires pool.name != ""
    ensures (forall labels: Labels, claimName: string :: claimName != "" ==>
               SubMap(PoolLabels(pool), FinalLabels(labels, pool, claimName)))
      <==> KeyIsUsable(pool)
  {
    if KeyIsUsable(pool) {
      forall labels: Labels, claimName: string | claimName != ""
        ensures SubMap(PoolLabels(pool), FinalLabels(labels, pool, claimName))
      {
      }
    } else {
      var claimName := pool.name + "-";
      var final := FinalLabels(map[], pool, claimName);
      assert pool.labelKey in PoolLabels(pool) && PoolLabels(pool)[pool.labelKey] == pool.name;
      assert DEFAULT_POOL_KEY[0] == 't' && !Blank(DEFAULT_POOL_KEY);
      assert |claimName| != |pool.name|;
      assert pool.labelKey !in final || final[pool.labelKey] != pool.name;
      assert !SubMap(PoolLabels(pool), final);
    }
  }

  predicate OnlyPositive(pod: Pod) {
    forall t, e :: t in TermsOf(pod) && e in t.matchExpressions ==>
      e.op == In || e.op == Exists || e.op == Gt || e.op == Lt
  }

  lemma PositiveIsMonotone(pod: Pod, a: Labels, b: Labels)
    requires SubMap(a, b) && PodMatches(pod, a) && OnlyPositive(pod)
    ensures PodMatches(pod, b)
  {
    var terms := TermsOf(pod);
    if terms != [] {
      var t :| t in terms && TermHolds(t, a);
      forall e | e in t.matchExpressions ensures Holds(e, b) {
        assert Holds(e, a);
      }
      assert TermHolds(t, b);
    }
  }

  lemma {:induction false} AcceptedPodsMatch(pods: seq<Pod>, pool: Pool, pod: Pod)
    requires pod in AcceptedPods(pods, pool)
    ensures pod in pods && PodMatches(pod, PoolLabels(pool)) && Targets(pod, pool, PoolLabels(pool))
  {
    var n := |pods| - 1;
    if pod in AcceptedPods(pods[..n], pool) {
      AcceptedPodsMatch(pods[..n], pool, pod);
    }
  }

  /**
   Targeting is honoured: a pod the pool scaled up for, using only the positive operators, may run on
   every node of the pool once that is labelled, whatever labels the node came with.
   */
  lemma NodeHonoursTargeting(pods: seq<Pod>, pool: Pool, pod: Pod, labels: Labels, claimName: string)
    requires pool.name != "" && claimName != "" && KeyIsUsable(pool)
    requires pod in AcceptedPods(pods, pool) && OnlyPositive(pod)
    ensures PodMatches(pod, FinalLabels(labels, pool, claimName))
  {
    AcceptedPodsMatch(pods, pool, pod);
    LabelsReachNodeIff(pool);
    PositiveIsMonotone(pod, PoolLabels(pool), FinalLabels(labels, pool, claimName));
  }
}
