/**
 How many result rows a submitted (label, address) pair gets: exactly one, if and only if no two
 different pairs share the key that the deduplication compares.
 */
module JobPairs {
  import opened JobRows

  type Tagged = (string, string)

  /** A stored row stands for this pair; addresses are stored case-folded, labels as submitted. */
  predicate StandsFor(lower: string -> string, t: Tagged, p: Tagged) {
    (lower(t.0), t.1) == p
  }

  /** The number of stored rows that stand for a pair. */
  function RowsFor(lower: string -> string, stored: seq<Tagged>, p: Tagged): nat {
    if stored == [] then 0
    else RowsFor(lower, stored[..|stored| - 1], p) + if StandsFor(lower, stored[|stored| - 1], p) then 1 else 0
  }

  lemma {:induction false} RowsInsert(lower: string -> string, a: seq<Tagged>, x: Tagged, b: seq<Tagged>, p: Tagged)
    ensures RowsFor(lower, a + [x] + b, p) == RowsFor(lower, a + b, p) + if StandsFor(lower, x, p) then 1 else 0
  {
    if b == [] {
      assert (a + [x] + b)[..|a|] == a && a + b == a;
    } else {
      var n := |b| - 1;
      assert (a + [x] + b)[..|a| + 1 + n] == a + [x] + b[..n];
      assert (a + b)[..|a| + n] == a + b[..n];
      RowsInsert(lower, a, x, b[..n], p);
    }
  }

  /** The order of the stored rows does not matter. */
  lemma {:induction false} RowsPermute(lower: string -> string, a: seq<Tagged>, b: seq<Tagged>, p: Tagged)
    requires multiset(a) == multiset(b)
    ensures RowsFor(lower, a, p) == RowsFor(lower, b, p)
    decreases |a|
  {
    if a == [] {
      assert |multiset(b)| == 0;
    } else {
      var n, x := |a| - 1, a[|a| - 1];
      assert a == a[..n] + [x];
      assert x in multiset(a);
      var k :| 0 <= k < |b| && b[k] == x;
      var front, back := b[..k], b[k + 1..];
      assert b == front + [x] + back;
      assert multiset(a[..n]) == multiset(a) - multiset{x};
      assert multiset(front + back) == multiset(b) - multiset{x};
      RowsPermute(lower, a[..n], front + back, p);
      RowsInsert(lower, front, x, back, p);
    }
  }

  function TagSeq(lower: string -> string, rows: seq<Row>): seq<Tagged> {
    if rows == [] then [] else TagSeq(lower, rows[..|rows| - 1]) + [Tag(lower, rows[|rows| - 1])]
  }

  lemma {:induction false} TagSeqHolds(lower: string -> string, rows: seq<Row>)
    ensures multiset(TagSeq(lower, rows)) == TagsOf(lower, rows)
  {
    if rows != [] {
      TagSeqHolds(lower, rows[..|rows| - 1]);
    }
  }

  ghost predicate Occurs(lower: string -> string, rows: seq<Row>, p: Tagged) {
    exists k :: 0 <= k < |rows| && Pair(lower, rows[k]) == p
  }

  lemma OccursLast(lower: string -> string, rows: seq<Row>, p: Tagged)
    requires rows != []
    ensures var n := |rows| - 1;
            Occurs(lower, rows, p) <==> Occurs(lower, rows[..n], p) || Pair(lower, rows[n]) == p
  {
    var n := |rows| - 1;
    if Occurs(lower, rows[..n], p) {
      var k :| 0 <= k < n && Pair(lower, rows[..n][k]) == p;
      assert Pair(lower, rows[k]) == p;
    }
    if Occurs(lower, rows, p) {
      var k :| 0 <= k < |rows| && Pair(lower, rows[k]) == p;
      assert k < n ==> Pair(lower, rows[..n][k]) == p;
    }
  }

  lemma LastIsNew(lower: string -> string, rows: seq<Row>)
    requires rows != [] && KeysDistinct(lower, rows)
    ensures KeysDistinct(lower, rows[..|rows| - 1])
    ensures !Occurs(lower, rows[..|rows| - 1], Pair(lower, rows[|rows| - 1]))
  {
    var n := |rows| - 1;
    assert forall i :: 0 <= i < n ==> rows[..n][i] == rows[i];
    forall i | 0 <= i < n
      ensures Pair(lower, rows[i]) != Pair(lower, rows[n])
    {
      if Pair(lower, rows[i]) == Pair(lower, rows[n]) {
        PairGivesKey(lower, rows[i], rows[n]);
      }
    }
  }

  /** Rows with distinct keys stand for each of their pairs once. */
  lemma {:induction false} DistinctOnce(lower: string -> string, rows: seq<Row>, p: Tagged)
    requires KeysDistinct(lower, rows)
    ensures RowsFor(lower, TagSeq(lower, rows), p) == if Occurs(lower, rows, p) then 1 else 0
  {
    if rows != [] {
      var n := |rows| - 1;
      LastIsNew(lower, rows);
      DistinctOnce(lower, rows[..n], p);
      OccursLast(lower, rows, p);
      var front, t := TagSeq(lower, rows[..n]), Tag(lower, rows[n]);
      assert (front + [t])[..|front|] == front;
    }
  }

  lemma StoredOnce(lower: string -> string, rows: seq<Row>, stored: seq<Tagged>, p: Tagged)
    requires multiset(stored) == TagsOf(lower, Deduped(lower, rows))
    ensures RowsFor(lower, stored, p) == if Occurs(lower, Deduped(lower, rows), p) then 1 else 0
  {
    var out := Deduped(lower, rows);
    TagSeqHolds(lower, out);
    RowsPermute(lower, stored, TagSeq(lower, out), p);
    DedupDistinct(lower, rows);
    DistinctOnce(lower, out, p);
  }

  /** Every submitted pair with an address has exactly one stored row. */
  ghost predicate OneRowEach(lower: string -> string, rows: seq<Row>, stored: seq<Tagged>) {
    forall i :: 0 <= i < |rows| && !Blank(rows[i]) ==> RowsFor(lower, stored, Pair(lower, Cleaned(rows[i]))) == 1
  }

  /** Every stored row is for a submitted pair with an address. */
  ghost predicate NoOtherRow(lower: string -> string, rows: seq<Row>, stored: seq<Tagged>) {
    forall p :: RowsFor(lower, stored, p) > 0 ==>
      exists i :: 0 <= i < |rows| && !Blank(rows[i]) && Pair(lower, Cleaned(rows[i])) == p
  }

  /** Each submitted pair gets exactly one of the owed rows if and only if no two pairs collide. */
  lemma OneRowEachIff(lower: string -> string, rows: seq<Row>, stored: seq<Tagged>)
    requires multiset(stored) == TagsOf(lower, Deduped(lower, rows))
    ensures OneRowEach(lower, rows, stored) <==> CollisionFree(lower, rows)
  {
    var out := Deduped(lower, rows);
    RowForEveryPairIff(lower, rows);
    forall i | 0 <= i < |rows| && !Blank(rows[i])
      ensures RowsFor(lower, stored, Pair(lower, Cleaned(rows[i]))) == 1 <==> Stands(lower, out, Cleaned(rows[i]))
    {
      StoredOnce(lower, rows, stored, Pair(lower, Cleaned(rows[i])));
    }
  }

  lemma OnlySubmittedPairs(lower: string -> string, rows: seq<Row>, stored: seq<Tagged>)
    requires multiset(stored) == TagsOf(lower, Deduped(lower, rows))
    ensures NoOtherRow(lower, rows, stored)
  {
    var out := Deduped(lower, rows);
    forall p | RowsFor(lower, stored, p) > 0
      ensures exists i :: 0 <= i < |rows| && !Blank(rows[i]) && Pair(lower, Cleaned(rows[i])) == p
    {
      StoredOnce(lower, rows, stored, p);
      var k :| 0 <= k < |out| && Pair(lower, out[k]) == p;
      DedupSound(lower, rows, k);
    }
  }
}
