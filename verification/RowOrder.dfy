/**
 Which of several equal rows survives, and in what order: deduplication keeps the first spelling of
 every pair, and grouping lists addresses and their labels as they were first seen.
 */
module RowOrder {
  import opened Text
  import opened JobRows

  /** Submitted row `j` has an address, and no earlier one has the same key. */
  ghost predicate NewAt(lower: string -> string, rows: seq<Row>, j: nat) {
    && j < |rows| && !Blank(rows[j])
    && forall i :: 0 <= i < j && !Blank(rows[i]) ==> Key(lower, Cleaned(rows[i])) != Key(lower, Cleaned(rows[j]))
  }

  /** A key is kept exactly if a submitted row with an address has it. */
  lemma KeptIff(lower: string -> string, rows: seq<Row>, k: string)
    ensures k in KeysOf(lower, Deduped(lower, rows)) <==>
            exists i :: 0 <= i < |rows| && !Blank(rows[i]) && Key(lower, Cleaned(rows[i])) == k
  {
    var out := Deduped(lower, rows);
    if k in KeysOf(lower, out) {
      KeysAreHeld(lower, out, k);
      var n :| 0 <= n < |out| && Key(lower, out[n]) == k;
      DedupSound(lower, rows, n);
    }
    if exists i :: 0 <= i < |rows| && !Blank(rows[i]) && Key(lower, Cleaned(rows[i])) == k {
      var i :| 0 <= i < |rows| && !Blank(rows[i]) && Key(lower, Cleaned(rows[i])) == k;
      DedupCovers(lower, rows, i);
    }
  }

  lemma NewIff(lower: string -> string, rows: seq<Row>, n: nat)
    requires n < |rows| && !Blank(rows[n])
    ensures NewAt(lower, rows, n) <==>
            Key(lower, Cleaned(rows[n])) !in KeysOf(lower, Deduped(lower, rows[..n]))
  {
    KeptIff(lower, rows[..n], Key(lower, Cleaned(rows[n])));
    assert forall i :: 0 <= i < n ==> rows[..n][i] == rows[i];
  }

  /** Row by row, in the order of submission: the first row of every pair is kept as it was written, trimmed. */
  lemma DedupKeepsFirst(lower: string -> string, rows: seq<Row>)
    requires rows != []
    ensures var n := |rows| - 1;
            Deduped(lower, rows) ==
            Deduped(lower, rows[..n]) + if NewAt(lower, rows, n) then [Cleaned(rows[n])] else []
  {
    var n := |rows| - 1;
    DedupStep(lower, rows);
    if !Blank(rows[n]) {
      NewIff(lower, rows, n);
    }
    assert Deduped(lower, rows[..n]) + [] == Deduped(lower, rows[..n]);
  }

  // ---------------------------------------------------------------- trimming

  /** White space only. */
  ghost predicate Spaces(s: string) {
    forall i :: 0 <= i < |s| ==> IsSpace(s[i])
  }

  ghost predicate Bare(t: string) {
    t == "" || (!IsSpace(t[0]) && !IsSpace(t[|t| - 1]))
  }

  lemma {:induction false} LeftTrims(s: string) returns (lead: string)
    ensures Spaces(lead) && s == lead + TrimLeft(s) && (TrimLeft(s) != "" ==> !IsSpace(TrimLeft(s)[0]))
  {
    lead := "";
    if s != "" && IsSpace(s[0]) {
      var l := LeftTrims(s[1..]);
      lead := [s[0]] + l;
      assert s == [s[0]] + s[1..];
    }
  }

  lemma {:induction false} RightTrims(s: string) returns (tail: string)
    ensures Spaces(tail) && s == TrimRight(s) + tail
    ensures TrimRight(s) != "" ==> !IsSpace(TrimRight(s)[|TrimRight(s)| - 1])
  {
    tail := "";
    if s != "" && IsSpace(s[|s| - 1]) {
      var t := RightTrims(s[..|s| - 1]);
      tail := t + [s[|s| - 1]];
      assert s == s[..|s| - 1] + [s[|s| - 1]];
    }
  }

  /** Trimming cuts white space off both ends, and nothing else. */
  lemma TrimCuts(s: string) returns (lead: string, tail: string)
    ensures Spaces(lead) && Spaces(tail) && s == lead + TrimSpace(s) + tail && Bare(TrimSpace(s))
  {
    lead := LeftTrims(s);
    tail := RightTrims(TrimLeft(s));
    assert TrimSpace(s) != "" ==> TrimLeft(s)[0] == TrimSpace(s)[0];
  }

  // ---------------------------------------------------------------- grouping

  /** No earlier row has the address of row `j`, up to case. */
  ghost predicate Unseen(lower: string -> string, rows: seq<Row>, j: nat) {
    j < |rows| && forall i :: 0 <= i < j ==> lower(rows[i].email) != lower(rows[j].email)
  }

  /** The labels of the rows with this address, in order. */
  function LabelsFor(lower: string -> string, rows: seq<Row>, k: string): seq<string> {
    if rows == [] then []
    else
      var rest, r := LabelsFor(lower, rows[..|rows| - 1], k), rows[|rows| - 1];
      if lower(r.email) == k then rest + [r.name] else rest
  }

  lemma {:induction false} LabelsAre(lower: string -> string, rows: seq<Row>, k: string)
    ensures var g := Grouped(lower, rows);
            && (k in g.labels <==> exists i :: 0 <= i < |rows| && lower(rows[i].email) == k)
            && LabelsFor(lower, rows, k) == if k in g.labels then g.labels[k] else []
  {
    if rows != [] {
      var n := |rows| - 1;
      LabelsAre(lower, rows[..n], k);
      assert forall i :: 0 <= i < n ==> rows[..n][i] == rows[i];
      if k in Grouped(lower, rows[..n]).labels {
        var i :| 0 <= i < n && lower(rows[..n][i].email) == k;
        assert lower(rows[i].email) == k;
      } else if lower(rows[n].email) == k {
        assert [] + [rows[n].name] == [rows[n].name];
      }
    }
  }

  /** Addresses are worked off as first seen and first written, each with its labels in order. */
  lemma GroupsInOrder(lower: string -> string, rows: seq<Row>)
    requires rows != []
    ensures var n, g := |rows| - 1, Grouped(lower, rows);
            && g.order == Grouped(lower, rows[..n]).order + (if Unseen(lower, rows, n) then [rows[n].email] else [])
            && (forall k :: k in g.labels ==> g.labels[k] == LabelsFor(lower, rows, k))
  {
    var n, g := |rows| - 1, Grouped(lower, rows);
    LabelsAre(lower, rows[..n], lower(rows[n].email));
    assert forall i :: 0 <= i < n ==> rows[..n][i] == rows[i];
    assert Grouped(lower, rows[..n]).order + [] == Grouped(lower, rows[..n]).order;
    forall k | k in g.labels
      ensures g.labels[k] == LabelsFor(lower, rows, k)
    {
      LabelsAre(lower, rows, k);
    }
  }
}
