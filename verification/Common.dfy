/** Datatypes and sums shared by the other modules. */
module Common {

  // Times and durations are in milliseconds.
  const SECOND := 1000
  const MINUTE := 60 * SECOND

  datatype Option<+T> = None | Some(value: T)

  datatype Result<+T, +E> = Ok(value: T) | Err(error: E)

  /** Outcome of one write to the API server; an unacked write took effect but reported an error. */
  datatype Write = Written | Rejected | Unacked

  /** What the store holds after attempting to replace `old` by `new`. */
  function Store<T>(old': T, new': T, w: Write): T {
    if w.Rejected? then old' else new'
  }

  /** Answer to a delete request; an unacknowledged one took effect but reported an error. */
  datatype Deletion = Accepted | AlreadyGone | Refused | Unacknowledged

  predicate Errs(d: Deletion) {
    d.Refused? || d.Unacknowledged?
  }

  predicate TakesEffect(d: Deletion) {
    d.Accepted? || d.Unacknowledged?
  }

  function Max(a: int, b: int): int {
    if a < b then b else a
  }

  /** Sum of `f` over `s`, folded from the left as a Go accumulator loop does. */
  function Sum<T>(s: seq<T>, f: T -> int): int {
    if s == [] then 0 else Sum(s[..|s| - 1], f) + f(s[|s| - 1])
  }

  lemma SumSnoc<T>(s: seq<T>, x: T, f: T -> int)
    ensures Sum(s + [x], f) == Sum(s, f) + f(x)
  {
    assert (s + [x])[..|s|] == s;
  }

  lemma SumPrefix<T>(s: seq<T>, n: nat, f: T -> int)
    requires n < |s|
    ensures Sum(s[..n + 1], f) == Sum(s[..n], f) + f(s[n])
  {
    assert s[..n + 1] == s[..n] + [s[n]];
    SumSnoc(s[..n], s[n], f);
  }

  lemma {:induction false} SumConcat<T>(s: seq<T>, t: seq<T>, f: T -> int)
    ensures Sum(s + t, f) == Sum(s, f) + Sum(t, f)
    decreases |t|
  {
    if t == [] {
      assert s + t == s;
    } else {
      var x := t[|t| - 1];
      assert s + t == (s + t[..|t| - 1]) + [x];
      SumSnoc(s + t[..|t| - 1], x, f);
      SumConcat(s, t[..|t| - 1], f);
    }
  }

  lemma SumParts<T>(a: seq<T>, x: T, b: seq<T>, f: T -> int)
    ensures Sum((a + [x]) + b, f) == Sum(a + b, f) + f(x)
  {
    SumConcat(a + [x], b, f);
    SumConcat(a, b, f);
    SumSnoc(a, x, f);
  }

  /** Element-wise comparison lifts to sums; if the sums agree, so does every element. */
  lemma {:induction false} SumCompare<T>(s: seq<T>, f: T -> int, g: T -> int)
    requires forall x :: x in s ==> f(x) <= g(x)
    ensures Sum(s, f) <= Sum(s, g)
    ensures Sum(s, f) == Sum(s, g) <==> forall x :: x in s ==> f(x) == g(x)
  {
    if s != [] {
      var init, last := s[..|s| - 1], s[|s| - 1];
      assert s == init + [last];
      SumCompare(init, f, g);
      assert forall x :: x in s <==> x in init || x == last;
    }
  }

  lemma {:induction false} SumNonNegative<T>(s: seq<T>, f: T -> int)
    requires forall x :: x in s ==> f(x) >= 0
    ensures Sum(s, f) >= 0
  {
    if s != [] {
      assert s == s[..|s| - 1] + [s[|s| - 1]];
      SumNonNegative(s[..|s| - 1], f);
    }
  }

  lemma SplitAt<T>(s: seq<T>, i: nat)
    requires i < |s|
    ensures s == (s[..i] + [s[i]]) + s[i + 1..]
  {
  }

  lemma SumRemove<T>(s: seq<T>, i: nat, f: T -> int)
    requires i < |s|
    ensures Sum(s, f) == Sum(s[..i] + s[i + 1..], f) + f(s[i])
  {
    SplitAt(s, i);
    SumParts(s[..i], s[i], s[i + 1..], f);
  }

  lemma MultisetRemove<T>(s: seq<T>, i: nat)
    requires i < |s|
    ensures multiset(s[..i] + s[i + 1..]) == multiset(s) - multiset{s[i]}
  {
    SplitAt(s, i);
    assert multiset(s) == multiset((s[..i] + [s[i]]) + s[i + 1..]);
  }

  lemma FindsElement<T>(s: seq<T>, t: seq<T>) returns (i: nat)
    requires multiset(s) == multiset(t) && s != []
    ensures i < |t| && t[i] == s[|s| - 1]
    ensures multiset(s[..|s| - 1]) == multiset(t[..i] + t[i + 1..])
  {
    var last := s[|s| - 1];
    assert last in multiset(s);
    i :| 0 <= i < |t| && t[i] == last;
    MultisetRemove(s, |s| - 1);
    MultisetRemove(t, i);
    assert s[..|s| - 1] + s[|s|..] == s[..|s| - 1];
  }

  /** A sum does not depend on the order of its terms. */
  lemma {:induction false} SumPermutation<T>(s: seq<T>, t: seq<T>, f: T -> int)
    requires multiset(s) == multiset(t)
    ensures Sum(s, f) == Sum(t, f)
    decreases |s|
  {
    if s == [] {
      assert |multiset(t)| == |t|;
    } else {
      var i := FindsElement(s, t);
      SumRemove(t, i, f);
      SumPermutation(s[..|s| - 1], t[..i] + t[i + 1..], f);
    }
  }
}
