/** Names of the claims a pool creates: the pool's name, a dash and a six-digit sequence number. */
module ClaimNaming {
  import opened Decimal

  const SEQUENCE_WIDTH := 6

  function ClaimName(pool: string, sequence: nat): string {
    pool + "-" + Padded(sequence, SEQUENCE_WIDTH)
  }

  /** Numbers take at least six places: the ninth claim of pool "web" is "web-000009". */
  lemma NumbersTakeSixPlaces(pool: string, sequence: nat)
    ensures |ClaimName(pool, sequence)| >= |pool| + 7
    ensures sequence < 10 ==> ClaimName(pool, sequence) == pool + "-" + "00000" + [Digit(sequence)]
  {
    if sequence < 10 {
      assert Render(sequence) == [Digit(sequence)];
      assert Zeros(5) == "00000";
      assert pool + "-" + ("00000" + [Digit(sequence)]) == pool + "-" + "00000" + [Digit(sequence)];
    }
  }

  /** The part after the last dash has a definite length, as it contains no dash itself. */
  lemma LastDashIsUnique(p: string, d: string, q: string, e: string)
    requires p + "-" + d == q + "-" + e
    requires forall i :: 0 <= i < |d| ==> d[i] != '-'
    requires forall i :: 0 <= i < |e| ==> e[i] != '-'
    ensures p == q && d == e
  {
    var s, t := p + "-" + d, q + "-" + e;
    assert s[|p|] == '-' && t[|q|] == '-';
    assert forall k :: |p| < k < |s| ==> s[k] == d[k - |p| - 1];
    assert forall k :: |q| < k < |t| ==> t[k] == e[k - |q| - 1];
    assert |p| == |q|;
    assert p == s[..|p|] && q == s[..|q|];
    assert d == s[|p| + 1..] && e == s[|q| + 1..];
  }

  /** Distinct pools and sequence numbers never share a claim name, even if pool names end in dash and digits. */
  lemma ClaimNameIsInjective(pool: string, sequence: nat, pool': string, sequence': nat)
    requires ClaimName(pool, sequence) == ClaimName(pool', sequence')
    ensures pool == pool' && sequence == sequence'
  {
    LastDashIsUnique(pool, Padded(sequence, SEQUENCE_WIDTH), pool', Padded(sequence', SEQUENCE_WIDTH));
    PaddedRoundTrip(sequence, SEQUENCE_WIDTH);
    PaddedRoundTrip(sequence', SEQUENCE_WIDTH);
  }
}
