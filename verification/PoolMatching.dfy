/** Which pending pods a pool answers for: the pool controller's reading of node selectors and affinity. */
module PoolMatching {
  import opened Common
  import opened Decimal
  import opened KubeObjects

  type Labels = map<string, string>

  datatype Pool = Pool(name: string, labelKey: string, templateLabels: Labels)

  const INT64_MIN := -0x8000_0000_0000_0000
  const INT64_MAX := 0x7fff_ffff_ffff_ffff

  /** Base-10 parsing of a signed 64-bit integer: optional sign, at least one digit, in range. */
  function ParseInt(s: string): Option<int> {
    var signed := s != "" && (s[0] == '-' || s[0] == '+');
    var digits := if signed then s[1..] else s;
    if digits == "" || exists i :: 0 <= i < |digits| && !IsDigit(digits[i]) then None
    else
      var magnitude: int := Value(digits);
      var n := if signed && s[0] == '-' then -magnitude else magnitude;
      if INT64_MIN <= n <= INT64_MAX then Some(n) else None
  }

  /** Every signed 64-bit integer is read back from its decimal form, with or without a plus sign. */
  lemma ParseIntRoundTrip(n: int)
    requires n >= 0
    ensures n <= INT64_MAX ==> ParseInt(Render(n)) == Some(n) && ParseInt("+" + Render(n)) == Some(n)
    ensures -n >= INT64_MIN ==> ParseInt("-" + Render(n)) == Some(-n)
    ensures n > INT64_MAX ==> ParseInt(Render(n)) == None
  {
    ValueOfRender(n);
    assert IsDigit(Render(n)[0]);
    assert ("+" + Render(n))[1..] == Render(n) && ("-" + Render(n))[1..] == Render(n);
  }

  // ----- what matching means

  /** The API server admits Gt and Lt only with a value to compare with. */
  predicate WellFormed(e: Expression) {
    e.op == Gt || e.op == Lt ==> e.values != []
  }

  predicate Compares(e: Expression, labels: Labels) {
    e.key in labels && e.values != [] &&
    var actual, bound := ParseInt(labels[e.key]), ParseInt(e.values[0]);
    actual.Some? && bound.Some? && if e.op == Gt then actual.value > bound.value else actual.value < bound.value
  }

  predicate Holds(e: Expression, labels: Labels) {
    match e.op
    case In => e.key in labels && labels[e.key] in e.values
    case NotIn => e.key !in labels || labels[e.key] !in e.values
    case Exists => e.key in labels
    case DoesNotExist => e.key !in labels
    case Gt => Compares(e, labels)
    case Lt => Compares(e, labels)
    case Unrecognized => true
  }

  predicate TermHolds(t: Term, labels: Labels) {
    forall e :: e in t.matchExpressions ==> Holds(e, labels)
  }

  function TermsOf(pod: Pod): seq<Term> {
    if pod.requiredTerms.Some? then pod.requiredTerms.value else []
  }

  predicate SelectorHolds(selector: Labels, labels: Labels) {
    forall k :: k in selector ==> k in labels && labels[k] == selector[k]
  }

  predicate TermsHold(terms: seq<Term>, labels: Labels) {
    terms == [] || exists t :: t in terms && TermHolds(t, labels)
  }

  /** A pod may run on a node with these labels. */
  predicate PodMatches(pod: Pod, labels: Labels) {
    SelectorHolds(pod.nodeSelector, labels) && TermsHold(TermsOf(pod), labels)
  }

  // ----- which matching pods ask for the pool

  predicate PoolRequiresLabel(pool: Pool, key: string) {
    key == pool.labelKey || key in pool.templateLabels
  }

  predicate TermMentionsPool(t: Term, pool: Pool) {
    exists e :: e in t.matchExpressions && PoolRequiresLabel(pool, e.key)
  }

  function FirstMatching(terms: seq<Term>, labels: Labels): (r: Option<Term>)
    ensures r.Some? <==> exists t :: t in terms && TermHolds(t, labels)
    ensures r.Some? ==> r.value in terms && TermHolds(r.value, labels)
  {
    if terms == [] then None
    else if TermHolds(terms[0], labels) then Some(terms[0])
    else
      assert terms == [terms[0]] + terms[1..];
      FirstMatching(terms[1..], labels)
  }

  predicate SelectorMentionsPool(selector: Labels, pool: Pool) {
    exists k :: k in selector && PoolRequiresLabel(pool, k)
  }

  /** A matching pod names the pool in its selector or in the first affinity term that matches. */
  predicate Targets(pod: Pod, pool: Pool, labels: Labels) {
    || SelectorMentionsPool(pod.nodeSelector, pool)
    || (var t := FirstMatching(TermsOf(pod), labels); t.Some? && TermMentionsPool(t.value, pool))
  }

  function PoolLabels(pool: Pool): Labels {
    (if pool.labelKey != "" then map[pool.labelKey := pool.name] else map[]) + pool.templateLabels
  }

  // ----- the controller's evaluation

  method ContainsString(list: seq<string>, target: string) returns (found: bool)
    ensures found == (target in list)
  {
    for i := 0 to |list|
      invariant target !in list[..i]
    {
      if list[i] == target {
        return true;
      }
      assert list[..i + 1] == list[..i] + [list[i]];
    }
    assert list[..|list|] == list;
    return false;
  }

  /** One expression; the early exits of the term evaluator. */
  method ExpressionMatches(e: Expression, labels: Labels) returns (ok: bool)
    requires WellFormed(e)
    ensures ok == Holds(e, labels)
  {
    var hasLabel := e.key in labels;
    match e.op {
      case In =>
        if !hasLabel {
          return false;
        }
        ok := ContainsString(e.values, labels[e.key]);
      case NotIn =>
        if !hasLabel {
          return true;
        }
        ok := ContainsString(e.values, labels[e.key]);
        ok := !ok;
      case Exists => ok := hasLabel;
      case DoesNotExist => ok := !hasLabel;
      case Gt =>
        ok := ComparisonMatches(e, labels);
      case Lt =>
        ok := ComparisonMatches(e, labels);
      case Unrecognized => ok := true;
    }
  }

  method ComparisonMatches(e: Expression, labels: Labels) returns (ok: bool)
    requires e.values != [] && (e.op == Gt || e.op == Lt)
    ensures ok == Compares(e, labels)
  {
    if e.key !in labels {
      return false;
    }
    var labelVal := ParseInt(labels[e.key]);
    if labelVal.None? {
      return false;
    }
    var reqVal := ParseInt(e.values[0]);
    if reqVal.None? {
      return false;
    }
    if e.op == Gt && labelVal.value <= reqVal.value {
      return false;
    }
    if e.op == Lt && labelVal.value >= reqVal.value {
      return false;
    }
    return true;
  }

  method NodeSelectorTermMatches(term: Term, pool: Pool, labels: Labels) returns (ok: bool, requiresPool: bool)
    requires forall e :: e in term.matchExpressions ==> WellFormed(e)
    ensures ok == TermHolds(term, labels)
    ensures requiresPool == (ok && TermMentionsPool(term, pool))
  {
    var exprs := term.matchExpressions;
    requiresPool := false;
    for i := 0 to |exprs|
      invariant forall k :: 0 <= k < i ==> Holds(exprs[k], labels)
      invariant requiresPool == exists k :: 0 <= k < i && PoolRequiresLabel(pool, exprs[k].key)
    {
      var holds := ExpressionMatches(exprs[i], labels);
      if !holds {
        return false, false;
      }
      if PoolRequiresLabel(pool, exprs[i].key) {
        requiresPool := true;
      }
    }
    return true, requiresPool;
  }

  /** The pod's selector is a Go map: the loop may visit its keys in any order. */
  method SelectorMatches(selector: Labels, pool: Pool, labels: Labels) returns (ok: bool, requiresPool: bool)
    ensures ok == SelectorHolds(selector, labels)
    ensures ok ==> requiresPool == SelectorMentionsPool(selector, pool)
  {
    requiresPool := false;
    var rest := selector.Keys;
    while rest != {}
      invariant rest <= selector.Keys
      invariant forall k :: k in selector && k !in rest ==> k in labels && labels[k] == selector[k]
      invariant requiresPool == exists k :: k in selector && k !in rest && PoolRequiresLabel(pool, k)
    {
      var key :| key in rest;
      if key !in labels || labels[key] != selector[key] {
        return false, false;
      }
      if PoolRequiresLabel(pool, key) {
        requiresPool := true;
      }
      rest := rest - {key};
    }
    return true, requiresPool;
  }

  /** The loop over the affinity terms, which stops at the first term that matches. */
  method SomeTermMatches(terms: seq<Term>, pool: Pool, labels: Labels) returns (ok: bool, requiresPool: bool)
    requires forall t, e :: t in terms && e in t.matchExpressions ==> WellFormed(e)
    ensures ok == FirstMatching(terms, labels).Some?
    ensures requiresPool == (ok && TermMentionsPool(FirstMatching(terms, labels).value, pool))
  {
    for i := 0 to |terms|
      invariant FirstMatching(terms, labels) == FirstMatching(terms[i..], labels)
    {
      var matches, req := NodeSelectorTermMatches(terms[i], pool, labels);
      if matches {
        return true, req;
      }
      assert terms[i..][1..] == terms[i + 1..];
    }
    return false, false;
  }

  /** Equals the declarative meaning in both results, in whatever order the selector map is visited. */
  method PodMatchesPool(pod: Pod, pool: Pool, labels: Labels) returns (matches: bool, requiresPool: bool)
    requires forall t, e :: t in TermsOf(pod) && e in t.matchExpressions ==> WellFormed(e)
    ensures matches == PodMatches(pod, labels)
    ensures requiresPool == (matches && Targets(pod, pool, labels))
  {
    matches, requiresPool := SelectorMatches(pod.nodeSelector, pool, labels);
    if !matches {
      return false, false;
    }
    if pod.requiredTerms.Some? {
      var terms := pod.requiredTerms.value;
      if |terms| > 0 {
        var termMatches, termRequires := SomeTermMatches(terms, pool, labels);
        if !termMatches {
          return false, false;
        }
        requiresPool := requiresPool || termRequires;
      }
    }
    return true, requiresPool;
  }

  method BuildPoolLabelSet(pool: Pool) returns (labels: Labels)
    ensures labels == PoolLabels(pool)
  {
    labels := map[];
    if pool.labelKey != "" {
      labels := labels[pool.labelKey := pool.name];
    }
    ghost var base := labels;
    var rest := pool.templateLabels.Keys;
    while rest != {}
      invariant rest <= pool.templateLabels.Keys
      invariant labels == base + (map k | k in pool.templateLabels && k !in rest :: pool.templateLabels[k])
    {
      var key :| key in rest;
      labels := labels[key := pool.templateLabels[key]];
      rest := rest - {key};
    }
    assert (map k | k in pool.templateLabels && k !in rest :: pool.templateLabels[k]) == pool.templateLabels;
  }

  function AcceptedPods(pods: seq<Pod>, pool: Pool): seq<Pod> {
    if pods == [] then []
    else
      var p := pods[|pods| - 1];
      AcceptedPods(pods[..|pods| - 1], pool) +
      (if PodMatches(p, PoolLabels(pool)) && Targets(p, pool, PoolLabels(pool)) then [p] else [])
  }

  method FilterPodsForPool(pods: seq<Pod>, pool: Pool) returns (results: seq<Pod>)
    requires forall p, t, e :: p in pods && t in TermsOf(p) && e in t.matchExpressions ==> WellFormed(e)
    ensures results == AcceptedPods(pods, pool)
  {
    var labels := BuildPoolLabelSet(pool);
    results := [];
    for i := 0 to |pods|
      invariant results == AcceptedPods(pods[..i], pool)
    {
      assert pods[..i + 1][..i] == pods[..i];
      var matches, requiresPool := PodMatchesPool(pods[i], pool, labels);
      if matches && requiresPool {
        results := results + [pods[i]];
      }
    }
    assert pods[..|pods|] == pods;
  }

  // ----- consequences

  /** Neither the order of the affinity terms nor that of the expressions in a term decides a match. */
  lemma MatchIgnoresOrder(terms: seq<Term>, terms': seq<Term>, t: Term, t': Term, labels: Labels)
    requires multiset(terms) == multiset(terms')
    requires multiset(t.matchExpressions) == multiset(t'.matchExpressions)
    ensures TermsHold(terms, labels) == TermsHold(terms', labels)
    ensures TermHolds(t, labels) == TermHolds(t', labels)
  {
    assert forall x :: x in terms <==> x in multiset(terms);
    assert forall x :: x in terms' <==> x in multiset(terms');
    assert terms == [] <==> terms' == [] by {
      assert |multiset(terms)| == |terms| && |multiset(terms')| == |terms'|;
    }
    assert forall e :: e in t.matchExpressions <==> e in multiset(t.matchExpressions);
    assert forall e :: e in t'.matchExpressions <==> e in multiset(t'.matchExpressions);
  }

  /** A pod that matches a pool through its selector asks for that pool. */
  lemma MatchingSelectorTargets(pod: Pod, pool: Pool)
    requires PodMatches(pod, PoolLabels(pool)) && pod.nodeSelector != map[]
    ensures Targets(pod, pool, PoolLabels(pool))
  {
    var k :| k in pod.nodeSelector;
    assert k in PoolLabels(pool);
    assert PoolRequiresLabel(pool, k);
  }

  /** A matching pod does not ask for the pool exactly if it has no selector and its first matching term is silent. */
  lemma NonTargetingExactly(pod: Pod, pool: Pool)
    requires PodMatches(pod, PoolLabels(pool))
    ensures !Targets(pod, pool, PoolLabels(pool)) <==>
      && pod.nodeSelector == map[]
      && (TermsOf(pod) == [] ||
          !TermMentionsPool(FirstMatching(TermsOf(pod), PoolLabels(pool)).value, pool))
  {
    if pod.nodeSelector != map[] {
      MatchingSelectorTargets(pod, pool);
    }
  }

  /** Whether a pod asks for the pool does depend on term order: an empty term placed first hides a later mention. */
  lemma TargetingDependsOnTermOrder(pod: Pod, pool: Pool, labels: Labels)
    requires pod.nodeSelector == map[] && pool.labelKey in labels
    ensures
      var mention := Term([Expression(pool.labelKey, Exists, [])]);
      var early := pod.(requiredTerms := Some([mention, Term([])]));
      var late := pod.(requiredTerms := Some([Term([]), mention]));
      && PodMatches(early, labels) && PodMatches(late, labels)
      && Targets(early, pool, labels) && !Targets(late, pool, labels)
  {
    var mention := Term([Expression(pool.labelKey, Exists, [])]);
    assert mention.matchExpressions[0] in mention.matchExpressions;
    assert TermHolds(mention, labels) && TermHolds(Term([]), labels);
    assert [mention, Term([])][0] == mention && [Term([]), mention][0] == Term([]);
    assert FirstMatching([mention, Term([])], labels) == Some(mention);
    assert FirstMatching([Term([]), mention], labels) == Some(Term([]));
  }

  /** The first matching term, if there is one, mentions the pool. */
  predicate FirstMentions(terms: seq<Term>, pool: Pool, labels: Labels) {
    FirstMatching(terms, labels).Some? && TermMentionsPool(FirstMatching(terms, labels).value, pool)
  }

  /** Either every matching term mentions the pool, or none does. */
  ghost predicate MatchingTermsAgree(terms: seq<Term>, pool: Pool, labels: Labels) {
    forall t, t' :: t in terms && t' in terms && TermHolds(t, labels) && TermHolds(t', labels) ==>
      TermMentionsPool(t, pool) == TermMentionsPool(t', pool)
  }

  lemma MovedToFront(terms: seq<Term>, t: Term) returns (front: seq<Term>)
    requires t in terms
    ensures multiset(front) == multiset(terms) && front != [] && front[0] == t
  {
    var k :| 0 <= k < |terms| && terms[k] == t;
    front := [t] + terms[..k] + terms[k + 1..];
    assert terms == terms[..k] + [t] + terms[k + 1..];
  }

  lemma AgreementDecides(terms: seq<Term>, terms': seq<Term>, pool: Pool, labels: Labels)
    requires multiset(terms) == multiset(terms') && MatchingTermsAgree(terms, pool, labels)
    ensures FirstMentions(terms, pool, labels) == FirstMentions(terms', pool, labels)
  {
    assert forall x :: x in terms <==> x in multiset(terms);
    assert forall x :: x in terms' <==> x in multiset(terms');
  }

  /** The exact condition: the order of the terms is irrelevant if and only if all matching terms agree. */
  lemma TermOrderIrrelevantIff(terms: seq<Term>, pool: Pool, labels: Labels)
    ensures (forall terms' :: multiset(terms') == multiset(terms) ==>
               FirstMentions(terms', pool, labels) == FirstMentions(terms, pool, labels))
      <==> MatchingTermsAgree(terms, pool, labels)
  {
    if MatchingTermsAgree(terms, pool, labels) {
      forall terms' | multiset(terms') == multiset(terms)
        ensures FirstMentions(terms', pool, labels) == FirstMentions(terms, pool, labels)
      {
        AgreementDecides(terms, terms', pool, labels);
      }
    } else {
      var t, t' :| t in terms && t' in terms && TermHolds(t, labels) && TermHolds(t', labels)
        && TermMentionsPool(t, pool) && !TermMentionsPool(t', pool);
      var early := MovedToFront(terms, t);
      var late := MovedToFront(terms, t');
      assert FirstMentions(early, pool, labels) != FirstMentions(late, pool, labels);
    }
  }

  function WithTerms(pod: Pod, terms: seq<Term>): Pod {
    pod.(requiredTerms := Some(terms))
  }

  /** For a whole pod the order matters exactly if, besides, its selector does not mention the pool. */
  lemma TargetingIgnoresOrderIff(pod: Pod, pool: Pool, labels: Labels)
    ensures (forall terms :: multiset(terms) == multiset(TermsOf(pod)) ==>
               Targets(WithTerms(pod, terms), pool, labels) == Targets(pod, pool, labels))
      <==> SelectorMentionsPool(pod.nodeSelector, pool) || MatchingTermsAgree(TermsOf(pod), pool, labels)
  {
    TermOrderIrrelevantIff(TermsOf(pod), pool, labels);
    var named := SelectorMentionsPool(pod.nodeSelector, pool);
    assert Targets(pod, pool, labels) == (named || FirstMentions(TermsOf(pod), pool, labels));
    forall terms ensures Targets(WithTerms(pod, terms), pool, labels) == (named || FirstMentions(terms, pool, labels)) {
      assert TermsOf(WithTerms(pod, terms)) == terms;
    }
  }
}
