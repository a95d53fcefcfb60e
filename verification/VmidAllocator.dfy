/** Choosing a free VM identifier in a range by probing upwards, with wrap-around, from a random start. */
module VmidAllocator {
  import opened Common

  const UINT64: nat := 0x1_0000_0000_0000_0000
  const INT64_LIMIT: nat := 0x8000_0000_0000_0000

  type uint64 = n: nat | n < UINT64

  /** Inclusive bounds. */
  datatype VmidRange = VmidRange(lower: uint64, upper: uint64)

  datatype VmidError = InvalidRange | RangeOverflow | NoFreeVmid | ProbeExhausted

  /** Conversion of an unsigned to a signed 64-bit integer. */
  function ToInt(x: uint64): int {
    if x < INT64_LIMIT then x else x - UINT64
  }

  /** The conversion is the one number of that residue that a signed 64-bit integer holds. */
  lemma ToIntWraps(x: uint64)
    ensures -0x8000_0000_0000_0000 <= ToInt(x) < 0x8000_0000_0000_0000
    ensures ToInt(x) == x || ToInt(x) == x - 0x1_0000_0000_0000_0000
  {
  }

  /** Size of the range as the code computes it, modulo 2^64. */
  function Span(r: VmidRange): uint64
    requires r.lower <= r.upper
  {
    (r.upper - r.lower + 1) % UINT64
  }

  /** The `i`-th candidate after `start`, in 64-bit arithmetic. */
  function Candidate(r: VmidRange, start: uint64, i: uint64): uint64 {
    var c := (start + i) % UINT64;
    if c > r.upper then (r.lower + (c - r.upper - 1)) % UINT64 else c
  }

  predicate InRange(r: VmidRange, id: nat) {
    r.lower <= id <= r.upper
  }

  /** First free candidate from the `i`-th on. */
  function Probe(used: set<uint64>, r: VmidRange, start: uint64, i: uint64, span: uint64): Option<uint64>
    requires i <= span
    decreases span - i
  {
    if i == span then None
    else if Candidate(r, start, i) !in used then Some(Candidate(r, start, i))
    else Probe(used, r, start, i + 1, span)
  }

  function UsedIn(resources: seq<uint64>, r: VmidRange): set<uint64> {
    set id | id in resources && InRange(r, id)
  }

  /** `offset` is the random draw below the span. */
  function Allocate(resources: seq<uint64>, r: VmidRange, offset: uint64): Result<int, VmidError> {
    if r.upper < r.lower then Err(InvalidRange)
    else if Span(r) == 0 then Err(RangeOverflow)
    else if |UsedIn(resources, r)| >= Span(r) then Err(NoFreeVmid)
    else
      match Probe(UsedIn(resources, r), r, (r.lower + offset) % UINT64, 0, Span(r))
      case Some(id) => Ok(ToInt(id))
      case None => Err(ProbeExhausted)
  }

  method CollectUsed(resources: seq<uint64>, r: VmidRange) returns (used: set<uint64>)
    ensures used == UsedIn(resources, r)
  {
    var existing: seq<uint64> := [];
    for k := 0 to |resources|
      invariant forall id :: id in existing <==> id in resources[..k] && InRange(r, id)
    {
      assert resources[..k + 1] == resources[..k] + [resources[k]];
      if resources[k] >= r.lower && resources[k] <= r.upper {
        existing := existing + [resources[k]];
      }
    }
    assert resources[..|resources|] == resources;
    used := {};
    for k := 0 to |existing|
      invariant forall id :: id in used <==> id in existing[..k]
    {
      assert existing[..k + 1] == existing[..k] + [existing[k]];
      used := used + {existing[k]};
    }
    assert existing[..|existing|] == existing;
  }

  method GenerateNewVMID(resources: seq<uint64>, r: VmidRange, offset: uint64)
    returns (result: Result<int, VmidError>)
    ensures result == Allocate(resources, r, offset)
  {
    if r.upper < r.lower {
      return Err(InvalidRange);
    }
    var span: uint64 := (r.upper - r.lower + 1) % UINT64;
    if span == 0 {
      return Err(RangeOverflow);
    }
    var used := CollectUsed(resources, r);
    if |used| >= span {
      return Err(NoFreeVmid);
    }
    var start: uint64 := (r.lower + offset) % UINT64;
    var found := ProbeUpwards(used, r, start, span);
    if found.Some? {
      return Ok(ToInt(found.value));
    }
    return Err(ProbeExhausted);
  }

  /** The probe loop: the first candidate that is not taken. */
  method ProbeUpwards(used: set<uint64>, r: VmidRange, start: uint64, span: uint64) returns (found: Option<uint64>)
    ensures found == Probe(used, r, start, 0, span)
  {
    var i: uint64 := 0;
    while i < span
      invariant i <= span
      invariant Probe(used, r, start, 0, span) == Probe(used, r, start, i, span)
    {
      var candidate: uint64 := (start + i) % UINT64;
      if candidate > r.upper {
        candidate := (r.lower + (candidate - r.upper - 1)) % UINT64;
      }
      if candidate !in used {
        return Some(candidate);
      }
      i := i + 1;
    }
    return None;
  }

  // ----- the probe visits the range exactly once

  /** Every identifier of the range is a candidate exactly once, whatever the start. */
  ghost predicate VisitsOnce(r: VmidRange, start: uint64)
    requires r.lower <= r.upper
  {
    && (forall i: uint64 :: i < Span(r) ==> InRange(r, Candidate(r, start, i)))
    && (forall i: uint64, j: uint64 :: i < j < Span(r) ==> Candidate(r, start, i) != Candidate(r, start, j))
    && (forall id: uint64 :: InRange(r, id) ==> exists i: uint64 :: i < Span(r) && Candidate(r, start, i) == id)
  }

  lemma ProbeVisitsOnce(r: VmidRange, start: uint64)
    requires r.lower <= r.upper && r.upper + (r.upper - r.lower) < UINT64
    requires InRange(r, start)
    ensures VisitsOnce(r, start)
  {
    var span := r.upper - r.lower + 1;
    assert Span(r) == span;
    forall i: uint64 | i < span
      ensures Candidate(r, start, i) == if start + i <= r.upper then start + i else start + i - span
    {
      assert start + i < UINT64;
    }
    forall id: uint64 | InRange(r, id)
      ensures exists i: uint64 :: i < Span(r) && Candidate(r, start, i) == id
    {
      var i: uint64 := if id >= start then id - start else id - start + span;
      assert Candidate(r, start, i) == id;
    }
  }

  /**
   The probe order is sound for every start exactly when the largest sum it forms stays below 2^64.
   Proxmox ranges end at 999999999, far below the limit; beyond it the wrap of `start + i` sends the
   probe back to 0 instead of to the lower bound.
   */
  lemma ProbeSoundIffNoWrap(r: VmidRange)
    requires r.lower <= r.upper && Span(r) != 0
    ensures (forall start: uint64 :: InRange(r, start) ==> VisitsOnce(r, start))
      <==> r.upper + (r.upper - r.lower) < UINT64
  {
    if r.upper + (r.upper - r.lower) < UINT64 {
      forall start: uint64 | InRange(r, start) ensures VisitsOnce(r, start) {
        ProbeVisitsOnce(r, start);
      }
    } else {
      var i: uint64 := UINT64 - r.upper;
      assert i < Span(r) && Candidate(r, r.upper, i) == 0;
      if r.lower == 0 {
        assert Candidate(r, r.upper, 1) == 0;
      }
      assert !VisitsOnce(r, r.upper);
    }
  }

  // ----- counting the range

  ghost predicate HasFree(resources: seq<uint64>, r: VmidRange) {
    exists id: uint64 :: InRange(r, id) && id !in resources
  }

  ghost function Ids(lower: nat, upper: nat): (s: set<nat>)
    requires lower <= upper
    ensures forall id :: id in s <==> lower <= id <= upper
    decreases upper - lower
  {
    if lower == upper then {lower} else Ids(lower, upper - 1) + {upper}
  }

  lemma {:induction false} IdsCount(lower: nat, upper: nat)
    requires lower <= upper
    ensures |Ids(lower, upper)| == upper - lower + 1
    decreases upper - lower
  {
    if lower < upper {
      IdsCount(lower, upper - 1);
    }
  }

  lemma SubsetCount(a: set<nat>, b: set<nat>)
    requires a <= b
    ensures |a| <= |b|
    ensures |a| == |b| ==> a == b
  {
    assert b == a + (b - a);
    if |a| == |b| {
      assert b - a == {};
    }
  }

  lemma {:induction false} ProbeFindsFree(used: set<uint64>, r: VmidRange, start: uint64, i: uint64, span: uint64)
    requires i <= span
    ensures
      var p := Probe(used, r, start, i, span);
      && (p.Some? ==> p.value !in used && exists k: uint64 :: i <= k < span && Candidate(r, start, k) == p.value)
      && (p.None? ==> forall k: uint64 :: i <= k < span ==> Candidate(r, start, k) in used)
    decreases span - i
  {
    if i < span && Candidate(r, start, i) in used {
      ProbeFindsFree(used, r, start, i + 1, span);
    }
  }

  /** The count test is exact: fewer used identifiers than the span means one is free. */
  lemma CountTestIsExact(resources: seq<uint64>, r: VmidRange)
    requires r.lower <= r.upper < INT64_LIMIT
    ensures |UsedIn(resources, r)| < Span(r) <==> HasFree(resources, r)
  {
    var used, ids := UsedIn(resources, r), Ids(r.lower, r.upper);
    IdsCount(r.lower, r.upper);
    SubsetCount(used, ids);
    if |used| < Span(r) {
      assert used != ids;
      var free :| free in ids && free !in used;
      assert InRange(r, free) && free !in resources;
    } else {
      assert forall id: uint64 :: InRange(r, id) ==> id in ids;
    }
  }

  /** A probe that starts in the range finds a free identifier of the range if there is one. */
  lemma ProbeIsComplete(resources: seq<uint64>, r: VmidRange, start: uint64)
    requires r.lower <= r.upper < INT64_LIMIT && InRange(r, start)
    requires HasFree(resources, r)
    ensures
      var p := Probe(UsedIn(resources, r), r, start, 0, Span(r));
      p.Some? && InRange(r, p.value) && p.value !in resources
  {
    var used := UsedIn(resources, r);
    ProbeVisitsOnce(r, start);
    ProbeFindsFree(used, r, start, 0, Span(r));
    var free: uint64 :| InRange(r, free) && free !in resources;
    assert free !in used;
    var i: uint64 :| i < Span(r) && Candidate(r, start, i) == free;
  }

  /** Where the count test passes, allocation is the probe from the drawn start. */
  lemma AllocateIsProbe(resources: seq<uint64>, r: VmidRange, offset: uint64)
    requires r.lower <= r.upper < INT64_LIMIT && offset <= r.upper - r.lower
    requires |UsedIn(resources, r)| < Span(r)
    ensures
      var p := Probe(UsedIn(resources, r), r, r.lower + offset, 0, Span(r));
      p.Some? && p.value < INT64_LIMIT ==> Allocate(resources, r, offset) == Ok(p.value)
  {
    assert (r.lower + offset) % UINT64 == r.lower + offset;
  }

  lemma AllocateWhenFree(resources: seq<uint64>, r: VmidRange, offset: uint64)
    requires r.lower <= r.upper < INT64_LIMIT && offset <= r.upper - r.lower
    requires HasFree(resources, r)
    ensures
      var a := Allocate(resources, r, offset);
      a.Ok? && a.value >= 0 && InRange(r, a.value) && a.value !in resources
  {
    CountTestIsExact(resources, r);
    var start: uint64 := r.lower + offset;
    ProbeIsComplete(resources, r, start);
    AllocateIsProbe(resources, r, offset);
  }

  lemma AllocateWhenFull(resources: seq<uint64>, r: VmidRange, offset: uint64)
    requires r.upper < INT64_LIMIT && !HasFree(resources, r)
    ensures Allocate(resources, r, offset) == Err(if r.upper < r.lower then InvalidRange else NoFreeVmid)
  {
    if r.lower <= r.upper {
      CountTestIsExact(resources, r);
    }
  }

  /**
   Allocation is sound and complete for every range below 2^63, every resource list and every random
   draw: it returns an unused identifier of the range if one exists, and otherwise reports that there
   is none. The error after the probe loop is never returned.
   */
  lemma AllocateIsComplete(resources: seq<uint64>, r: VmidRange, offset: uint64)
    requires r.upper < INT64_LIMIT
    requires r.lower <= r.upper ==> offset <= r.upper - r.lower
    ensures
      var a := Allocate(resources, r, offset);
      && (a.Ok? <==> HasFree(resources, r))
      && (a.Ok? ==> a.value >= 0 && InRange(r, a.value) && a.value !in resources)
      && (a.Err? ==> a.error == if r.upper < r.lower then InvalidRange else NoFreeVmid)
  {
    if HasFree(resources, r) {
      AllocateWhenFree(resources, r, offset);
    } else {
      AllocateWhenFull(resources, r, offset);
    }
  }
}
