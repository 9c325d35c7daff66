/** The download buckets of a finished job (internal/web/buckets.go). */
module Buckets {
  import opened Verdicts
  import opened JobStore

  datatype Bucket = AllRows | Safe | RiskyRows | UndeliverableRows | SkippedRows | Retry

  function Classified(v: Verdict): (b: Bucket)
    ensures b != AllRows
  {
    match v.subStatus
    case RoleAccount => Safe
    case ProviderSkipped => SkippedRows
    case _ =>
      match v.status
      case Deliverable => Safe
      case Risky => RiskyRows
      case Undeliverable => UndeliverableRows
      case Unknown => Retry
  }

  // ---------------------------------------------------------------- filtering

  predicate Within(r: Result, b: Bucket) {
    b == AllRows || Classified(r.verdict) == b
  }

  function Filtered(results: seq<Result>, b: Bucket): seq<Result> {
    if results == [] then []
    else
      var rest, last := Filtered(results[..|results| - 1], b), results[|results| - 1];
      if Within(last, b) then rest + [last] else rest
  }

  lemma {:induction false} FilteredAll(results: seq<Result>)
    ensures Filtered(results, AllRows) == results
  {
    if results != [] {
      FilteredAll(results[..|results| - 1]);
      assert results == results[..|results| - 1] + [results[|results| - 1]];
    }
  }

  method FilterBucket(results: seq<Result>, b: Bucket) returns (kept: seq<Result>)
    ensures kept == Filtered(results, b)
  {
    if b == AllRows {
      FilteredAll(results);
      return results;
    }
    kept := [];
    for i := 0 to |results|
      invariant kept == Filtered(results[..i], b)
    {
      assert results[..i + 1][..i] == results[..i];
      if Classified(results[i].verdict) == b {
        kept := kept + [results[i]];
      }
    }
    assert results[..|results|] == results;
  }

  /** A bucket holds each of its rows as often as the job does, and no other row. */
  lemma {:induction false} FilteredRows(results: seq<Result>, b: Bucket, r: Result)
    ensures multiset(Filtered(results, b))[r] == if Within(r, b) then multiset(results)[r] else 0
  {
    if results != [] {
      FilteredRows(results[..|results| - 1], b, r);
      assert results == results[..|results| - 1] + [results[|results| - 1]];
    }
  }

  /** Filtering keeps the order: it works piece by piece. */
  lemma {:induction false} FilteredPieces(front: seq<Result>, back: seq<Result>, b: Bucket)
    ensures Filtered(front + back, b) == Filtered(front, b) + Filtered(back, b)
  {
    if back == [] {
      assert front + back == front;
    } else {
      var whole := front + back;
      assert whole[..|whole| - 1] == front + back[..|back| - 1];
      FilteredPieces(front, back[..|back| - 1], b);
    }
  }

  // ---------------------------------------------------------------- counting from the aggregate

  function Raw(s: Stats, b: Bucket): int {
    var role, skipped := Tally(s.bySubStatus, RoleAccount), Tally(s.bySubStatus, ProviderSkipped);
    match b
    case AllRows => s.total
    case Safe => Tally(s.byStatus, Deliverable) + role
    case RiskyRows => Tally(s.byStatus, Risky) - role - skipped
    case UndeliverableRows => Tally(s.byStatus, Undeliverable)
    case SkippedRows => skipped
    case Retry => Tally(s.byStatus, Unknown)
  }

  function Shown(s: Stats, b: Bucket): nat {
    if Raw(s, b) < 0 then 0 else Raw(s, b)
  }

  /** Negative counters are shown as zero; the map may be visited in any order. */
  method Clamped(raw: map<Bucket, int>) returns (counts: map<Bucket, int>)
    ensures counts.Keys == raw.Keys
    ensures forall b :: b in raw ==> counts[b] == if raw[b] < 0 then 0 else raw[b]
  {
    counts := raw;
    var todo := raw.Keys;
    while todo != {}
      invariant counts.Keys == raw.Keys && todo <= raw.Keys
      invariant forall b :: b in raw ==> counts[b] == if raw[b] < 0 && b !in todo then 0 else raw[b]
      decreases |todo|
    {
      var b :| b in todo;
      if counts[b] < 0 {
        counts := counts[b := 0];
      }
      todo := todo - {b};
    }
  }

  method BucketCounts(s: Stats) returns (counts: map<Bucket, int>)
    ensures forall b :: b in counts && counts[b] == Shown(s, b)
  {
    var role, skipped := Tally(s.bySubStatus, RoleAccount), Tally(s.bySubStatus, ProviderSkipped);
    var raw := map[
      AllRows := s.total as int,
      Safe := Tally(s.byStatus, Deliverable) + role,
      RiskyRows := Tally(s.byStatus, Risky) - role - skipped,
      UndeliverableRows := Tally(s.byStatus, Undeliverable),
      SkippedRows := skipped,
      Retry := Tally(s.byStatus, Unknown)];
    assert forall b :: b in raw && raw[b] == Raw(s, b) by {
      forall b
        ensures b in raw && raw[b] == Raw(s, b)
      {
        match b
        case AllRows => case Safe => case RiskyRows => case UndeliverableRows => case SkippedRows => case Retry =>
      }
    }
    counts := Clamped(raw);
  }

  // ---------------------------------------------------------------- the two agree exactly when

  predicate Special(v: Verdict) {
    v.subStatus == RoleAccount || v.subStatus == ProviderSkipped
  }

  /** Role accounts and skipped providers are only ever reported as risky. */
  predicate Orderly(results: seq<Result>) {
    forall i :: 0 <= i < |results| && Special(results[i].verdict) ==> results[i].verdict.status == Risky
  }

  /** Rows with a special reason under a given status. */
  function Strays(results: seq<Result>, s: Status): nat {
    if results == [] then 0
    else
      var last := results[|results| - 1].verdict;
      Strays(results[..|results| - 1], s) + if Special(last) && last.status == s then 1 else 0
  }

  /** The size of every bucket, in terms of the counters and the strays. */
  lemma {:induction false} FilteredSizes(results: seq<Result>)
    ensures |Filtered(results, Safe)| ==
            CountStatus(results, Deliverable) - Strays(results, Deliverable) + CountSub(results, RoleAccount)
    ensures |Filtered(results, SkippedRows)| == CountSub(results, ProviderSkipped)
    ensures |Filtered(results, RiskyRows)| == CountStatus(results, Risky) - Strays(results, Risky)
    ensures |Filtered(results, UndeliverableRows)| ==
            CountStatus(results, Undeliverable) - Strays(results, Undeliverable)
    ensures |Filtered(results, Retry)| == CountStatus(results, Unknown) - Strays(results, Unknown)
  {
    if results != [] {
      FilteredSizes(results[..|results| - 1]);
    }
  }

  lemma {:induction false} StraysAreSpecial(results: seq<Result>)
    ensures Strays(results, Deliverable) + Strays(results, Risky) + Strays(results, Undeliverable)
            + Strays(results, Unknown)
            == CountSub(results, RoleAccount) + CountSub(results, ProviderSkipped)
  {
    if results != [] {
      StraysAreSpecial(results[..|results| - 1]);
    }
  }

  /** The five buckets together hold every row, each as often as the job does. */
  lemma BucketsPartition(results: seq<Result>)
    ensures multiset(results) ==
            multiset(Filtered(results, Safe)) + multiset(Filtered(results, RiskyRows))
            + multiset(Filtered(results, UndeliverableRows)) + multiset(Filtered(results, SkippedRows))
            + multiset(Filtered(results, Retry))
  {
    var sum := multiset(Filtered(results, Safe)) + multiset(Filtered(results, RiskyRows))
               + multiset(Filtered(results, UndeliverableRows)) + multiset(Filtered(results, SkippedRows))
               + multiset(Filtered(results, Retry));
    forall r
      ensures multiset(results)[r] == sum[r]
    {
      FilteredRows(results, Safe, r);
      FilteredRows(results, RiskyRows, r);
      FilteredRows(results, UndeliverableRows, r);
      FilteredRows(results, SkippedRows, r);
      FilteredRows(results, Retry, r);
    }
  }

  predicate NoStrays(results: seq<Result>) {
    Strays(results, Deliverable) == 0 && Strays(results, Undeliverable) == 0 && Strays(results, Unknown) == 0
  }

  lemma {:induction false} OrderlyIffNoStrays(results: seq<Result>)
    ensures Orderly(results) <==> NoStrays(results)
  {
    if results != [] {
      var front, last := results[..|results| - 1], results[|results| - 1].verdict;
      OrderlyIffNoStrays(front);
      if Orderly(front) && (Special(last) ==> last.status == Risky) {
        assert forall i :: 0 <= i < |results| - 1 ==> results[i] == front[i];
        assert Orderly(results);
      } else if !Orderly(front) {
        var i :| 0 <= i < |front| && Special(front[i].verdict) && front[i].verdict.status != Risky;
        assert results[i] == front[i];
        assert !Orderly(results);
      }
    }
  }

  /**
   The counts shown beside the download buttons are the sizes of the downloads exactly when every
   role account and every skipped provider among the rows is reported as risky.
   */
  lemma CountsMatchFilesIff(s: Stats, results: seq<Result>)
    requires Counts(s, results)
    ensures (forall b :: Shown(s, b) == |Filtered(results, b)|) <==> Orderly(results)
  {
    FilteredAll(results);
    FilteredSizes(results);
    StraysAreSpecial(results);
    OrderlyIffNoStrays(results);
    if NoStrays(results) {
      forall b
        ensures Shown(s, b) == |Filtered(results, b)|
      {
        match b
        case AllRows => case Safe => case RiskyRows => case UndeliverableRows => case SkippedRows => case Retry =>
      }
    }
    if forall b :: Shown(s, b) == |Filtered(results, b)| {
      assert Shown(s, Safe) == |Filtered(results, Safe)|;
      assert Shown(s, UndeliverableRows) == |Filtered(results, UndeliverableRows)|;
      assert Shown(s, Retry) == |Filtered(results, Retry)|;
    }
  }

  /** A deliverable role account is counted twice but downloaded once; the negative count it leaves shows as 0. */
  lemma StrayRowMiscounts(v: Verdict, s: Stats)
    requires v.status == Deliverable && v.subStatus == RoleAccount && Counts(s, [Result("", v)])
    ensures Shown(s, Safe) == 2 && |Filtered([Result("", v)], Safe)| == 1 && Raw(s, RiskyRows) == -1
    ensures Shown(s, RiskyRows) == 0
  {
    var results := [Result("", v)];
    assert results[..0] == [];
    assert CountStatus(results, Deliverable) == 1 && CountSub(results, RoleAccount) == 1;
    assert CountStatus(results, Risky) == 0 && CountSub(results, ProviderSkipped) == 0;
  }
}
