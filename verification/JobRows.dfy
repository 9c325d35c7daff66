/**
 What Submit and the start of process do to the submitted rows: blank addresses are dropped,
 repeated (label, address) pairs collapse, and rows sharing an address are grouped so that the
 address is verified once. Lower-casing is a parameter: any function on strings.
 */
module JobRows {
  import opened Text

  datatype Row = Row(name: string, email: string)

  function Cleaned(r: Row): Row {
    Row(TrimSpace(r.name), TrimSpace(r.email))
  }

  function Key(lower: string -> string, r: Row): string {
    lower(r.name) + ['\0'] + lower(r.email)
  }

  function Pair(lower: string -> string, r: Row): (string, string) {
    (lower(r.name), lower(r.email))
  }

  function KeysOf(lower: string -> string, rows: seq<Row>): set<string> {
    if rows == [] then {} else KeysOf(lower, rows[..|rows| - 1]) + {Key(lower, rows[|rows| - 1])}
  }

  function Deduped(lower: string -> string, rows: seq<Row>): seq<Row> {
    if rows == [] then []
    else
      var rest, r := Deduped(lower, rows[..|rows| - 1]), Cleaned(rows[|rows| - 1]);
      if r.email == "" || Key(lower, r) in KeysOf(lower, rest) then rest else rest + [r]
  }

  method Dedup(lower: string -> string, rows: seq<Row>) returns (out: seq<Row>)
    ensures out == Deduped(lower, rows)
  {
    var seen: set<string> := {};
    out := [];
    for i := 0 to |rows|
      invariant out == Deduped(lower, rows[..i])
      invariant seen == KeysOf(lower, out)
    {
      assert rows[..i + 1][..i] == rows[..i];
      var email := TrimSpace(rows[i].email);
      if email == "" {
        continue;
      }
      var name := TrimSpace(rows[i].name);
      var key := lower(name) + ['\0'] + lower(email);
      if key in seen {
        continue;
      }
      seen := seen + {key};
      KeysExtend(lower, out, Row(name, email));
      out := out + [Row(name, email)];
    }
    assert rows[..|rows|] == rows;
  }

  lemma KeysExtend(lower: string -> string, rows: seq<Row>, r: Row)
    ensures KeysOf(lower, rows + [r]) == KeysOf(lower, rows) + {Key(lower, r)}
  {
    assert (rows + [r])[..|rows|] == rows;
  }

  ghost predicate HasKey(lower: string -> string, rows: seq<Row>, k: string) {
    exists i :: 0 <= i < |rows| && Key(lower, rows[i]) == k
  }

  lemma {:induction false} KeysAreHeld(lower: string -> string, rows: seq<Row>, k: string)
    ensures k in KeysOf(lower, rows) <==> HasKey(lower, rows, k)
  {
    if rows != [] {
      var n := |rows| - 1;
      KeysAreHeld(lower, rows[..n], k);
      if HasKey(lower, rows[..n], k) {
        var i :| 0 <= i < n && Key(lower, rows[..n][i]) == k;
        assert Key(lower, rows[i]) == k;
      }
      if HasKey(lower, rows, k) {
        var i :| 0 <= i < |rows| && Key(lower, rows[i]) == k;
        assert i < n ==> Key(lower, rows[..n][i]) == k;
      }
    }
  }

  // ---------------------------------------------------------------- what deduplication keeps

  predicate Blank(r: Row) {
    Cleaned(r).email == ""
  }

  ghost predicate KeysDistinct(lower: string -> string, rows: seq<Row>) {
    forall i, j :: 0 <= i < j < |rows| ==> Key(lower, rows[i]) != Key(lower, rows[j])
  }

  ghost predicate From(r: Row, rows: seq<Row>) {
    exists j :: 0 <= j < |rows| && !Blank(rows[j]) && r == Cleaned(rows[j])
  }

  lemma DistinctExtends(lower: string -> string, rows: seq<Row>, r: Row)
    requires KeysDistinct(lower, rows) && Key(lower, r) !in KeysOf(lower, rows)
    ensures KeysDistinct(lower, rows + [r])
  {
    KeysAreHeld(lower, rows, Key(lower, r));
    forall i, j | 0 <= i < j < |rows + [r]|
      ensures Key(lower, (rows + [r])[i]) != Key(lower, (rows + [r])[j])
    {
      if j == |rows| {
        assert (rows + [r])[i] == rows[i];
      }
    }
  }

  /** One more submitted row: dropped, or kept at the end. */
  lemma DedupStep(lower: string -> string, rows: seq<Row>)
    requires rows != []
    ensures var rest, r := Deduped(lower, rows[..|rows| - 1]), Cleaned(rows[|rows| - 1]);
            Deduped(lower, rows) ==
            if Blank(rows[|rows| - 1]) || Key(lower, r) in KeysOf(lower, rest) then rest else rest + [r]
  {
  }

  /** Kept keys are distinct. */
  lemma {:induction false} DedupDistinct(lower: string -> string, rows: seq<Row>)
    ensures KeysDistinct(lower, Deduped(lower, rows))
  {
    if rows != [] {
      var n := |rows| - 1;
      var rest, r := Deduped(lower, rows[..n]), Cleaned(rows[n]);
      DedupDistinct(lower, rows[..n]);
      DedupStep(lower, rows);
      if !Blank(rows[n]) && Key(lower, r) !in KeysOf(lower, rest) {
        DistinctExtends(lower, rest, r);
      }
    }
  }

  /** Every kept row is a submitted one with an address, trimmed. */
  lemma {:induction false} DedupSound(lower: string -> string, rows: seq<Row>, i: nat)
    requires i < |Deduped(lower, rows)|
    ensures From(Deduped(lower, rows)[i], rows)
  {
    var n := |rows| - 1;
    var rest, r := Deduped(lower, rows[..n]), Deduped(lower, rows)[i];
    if i < |rest| {
      DedupSound(lower, rows[..n], i);
      var j :| 0 <= j < n && !Blank(rows[..n][j]) && r == Cleaned(rows[..n][j]);
      assert !Blank(rows[j]) && r == Cleaned(rows[j]);
    } else {
      assert !Blank(rows[n]) && r == Cleaned(rows[n]);
    }
  }

  lemma DedupKeys(lower: string -> string, rows: seq<Row>)
    requires rows != []
    ensures var n := |rows| - 1;
            var rest := KeysOf(lower, Deduped(lower, rows[..n]));
            KeysOf(lower, Deduped(lower, rows)) ==
            if Blank(rows[n]) then rest else rest + {Key(lower, Cleaned(rows[n]))}
  {
    DedupStep(lower, rows);
    KeysExtend(lower, Deduped(lower, rows[..|rows| - 1]), Cleaned(rows[|rows| - 1]));
  }

  /** Every submitted row with an address has its key among the kept ones. */
  lemma {:induction false} DedupCovers(lower: string -> string, rows: seq<Row>, i: nat)
    requires i < |rows| && !Blank(rows[i])
    ensures Key(lower, Cleaned(rows[i])) in KeysOf(lower, Deduped(lower, rows))
  {
    var n := |rows| - 1;
    DedupKeys(lower, rows);
    if i < n {
      assert rows[..n][i] == rows[i];
      DedupCovers(lower, rows[..n], i);
    }
  }

  // ---------------------------------------------------------------- one row per pair

  /** Two different pairs that share the key the deduplication compares. */
  predicate Collide(lower: string -> string, a: Row, b: Row) {
    Pair(lower, a) != Pair(lower, b) && Key(lower, a) == Key(lower, b)
  }

  /** Some row of `out` stands for the pair of `r`. */
  ghost predicate Stands(lower: string -> string, out: seq<Row>, r: Row) {
    exists k :: 0 <= k < |out| && Pair(lower, out[k]) == Pair(lower, r)
  }

  /** Every submitted pair has a row among the kept ones. */
  ghost predicate RowForEveryPair(lower: string -> string, rows: seq<Row>) {
    forall i :: 0 <= i < |rows| && !Blank(rows[i]) ==> Stands(lower, Deduped(lower, rows), Cleaned(rows[i]))
  }

  ghost predicate CollisionFree(lower: string -> string, rows: seq<Row>) {
    forall i, j :: 0 <= i < |rows| && 0 <= j < |rows| && !Blank(rows[i]) && !Blank(rows[j]) ==>
      !Collide(lower, Cleaned(rows[i]), Cleaned(rows[j]))
  }

  lemma PairGivesKey(lower: string -> string, a: Row, b: Row)
    requires Pair(lower, a) == Pair(lower, b)
    ensures Key(lower, a) == Key(lower, b)
  {
  }

  lemma FreeThenStands(lower: string -> string, rows: seq<Row>, i: nat)
    requires CollisionFree(lower, rows) && i < |rows| && !Blank(rows[i])
    ensures Stands(lower, Deduped(lower, rows), Cleaned(rows[i]))
  {
    var out := Deduped(lower, rows);
    DedupCovers(lower, rows, i);
    KeysAreHeld(lower, out, Key(lower, Cleaned(rows[i])));
    var k :| 0 <= k < |out| && Key(lower, out[k]) == Key(lower, Cleaned(rows[i]));
    DedupSound(lower, rows, k);
    var j :| 0 <= j < |rows| && !Blank(rows[j]) && out[k] == Cleaned(rows[j]);
    assert !Collide(lower, Cleaned(rows[j]), Cleaned(rows[i]));
  }

  lemma StandThenFree(lower: string -> string, out: seq<Row>, a: Row, b: Row)
    requires KeysDistinct(lower, out) && Stands(lower, out, a) && Stands(lower, out, b)
    ensures !Collide(lower, a, b)
  {
    var i :| 0 <= i < |out| && Pair(lower, out[i]) == Pair(lower, a);
    var j :| 0 <= j < |out| && Pair(lower, out[j]) == Pair(lower, b);
    PairGivesKey(lower, out[i], a);
    PairGivesKey(lower, out[j], b);
  }

  /** The promised "one row per (label, address) pair" holds exactly if no two pairs collide. */
  lemma RowForEveryPairIff(lower: string -> string, rows: seq<Row>)
    ensures RowForEveryPair(lower, rows) <==> CollisionFree(lower, rows)
  {
    if CollisionFree(lower, rows) {
      forall i | 0 <= i < |rows| && !Blank(rows[i])
        ensures Stands(lower, Deduped(lower, rows), Cleaned(rows[i]))
      {
        FreeThenStands(lower, rows, i);
      }
    }
    if RowForEveryPair(lower, rows) {
      DedupDistinct(lower, rows);
      forall i, j | 0 <= i < |rows| && 0 <= j < |rows| && !Blank(rows[i]) && !Blank(rows[j])
        ensures !Collide(lower, Cleaned(rows[i]), Cleaned(rows[j]))
      {
        StandThenFree(lower, Deduped(lower, rows), Cleaned(rows[i]), Cleaned(rows[j]));
      }
    }
  }

  /** A collision needs a NUL inside an address. */
  lemma CollisionNeedsNul(lower: string -> string, a: Row, b: Row)
    requires Collide(lower, a, b)
    ensures '\0' in lower(a.email) || '\0' in lower(b.email)
  {
    SameKeySplits(lower(a.name), lower(a.email), lower(b.name), lower(b.email));
  }

  lemma SameKeySplits(la: string, ea: string, lb: string, eb: string)
    requires la + ['\0'] + ea == lb + ['\0'] + eb
    ensures (la == lb && ea == eb) || '\0' in ea || '\0' in eb
  {
    var key := la + ['\0'] + ea;
    if |ea| < |eb| {
      assert key[|la|] == eb[|la| - |lb| - 1];
    } else if |eb| < |ea| {
      assert key[|lb|] == ea[|lb| - |la| - 1];
    } else {
      assert la == key[..|la|] == lb;
      assert ea == key[|la| + 1..] == eb;
    }
  }

  /** Without NUL in the addresses no two pairs collide. */
  lemma NulFreeIsCollisionFree(lower: string -> string, rows: seq<Row>)
    requires forall i :: 0 <= i < |rows| ==> '\0' !in lower(Cleaned(rows[i]).email)
    ensures CollisionFree(lower, rows)
  {
    forall i, j | 0 <= i < |rows| && 0 <= j < |rows|
      ensures !Collide(lower, Cleaned(rows[i]), Cleaned(rows[j]))
    {
      if Collide(lower, Cleaned(rows[i]), Cleaned(rows[j])) {
        CollisionNeedsNul(lower, Cleaned(rows[i]), Cleaned(rows[j]));
        assert false;
      }
    }
  }

  /** With one, a pair can be lost: these two rows collapse into one. */
  lemma NulLosesARow(lower: string -> string)
    requires lower("a") == "a" && lower("c") == "c" && lower("a\0b") == "a\0b" && lower("b\0c") == "b\0c"
    ensures var rows := [Row("a", "b\0c"), Row("a\0b", "c")];
            !RowForEveryPair(lower, rows)
  {
    var rows := [Row("a", "b\0c"), Row("a\0b", "c")];
    assert !Blank(rows[0]) && !Blank(rows[1]);
    assert Cleaned(rows[0]) == rows[0] && Cleaned(rows[1]) == rows[1];
    assert Key(lower, rows[0]) == Key(lower, rows[1]);
    assert rows[0].name != rows[1].name;
    RowForEveryPairIff(lower, rows);
  }

  // ---------------------------------------------------------------- grouping by address

  datatype Groups = Groups(order: seq<string>, labels: map<string, seq<string>>)

  function GroupedWith(lower: string -> string, g: Groups, r: Row): Groups {
    var k := lower(r.email);
    if k in g.labels then g.(labels := g.labels[k := g.labels[k] + [r.name]])
    else Groups(g.order + [r.email], g.labels[k := [r.name]])
  }

  function Grouped(lower: string -> string, rows: seq<Row>): Groups {
    if rows == [] then Groups([], map[])
    else GroupedWith(lower, Grouped(lower, rows[..|rows| - 1]), rows[|rows| - 1])
  }

  method Group(lower: string -> string, rows: seq<Row>) returns (order: seq<string>, byEmail: map<string, seq<string>>)
    ensures Groups(order, byEmail) == Grouped(lower, rows)
  {
    order, byEmail := [], map[];
    for i := 0 to |rows|
      invariant Groups(order, byEmail) == Grouped(lower, rows[..i])
    {
      ghost var g := Groups(order, byEmail);
      assert rows[..i + 1][..i] == rows[..i];
      var key := lower(rows[i].email);
      if key !in byEmail {
        order := order + [rows[i].email];
        byEmail := byEmail[key := []];
      }
      byEmail := byEmail[key := byEmail[key] + [rows[i].name]];
      assert [] + [rows[i].name] == [rows[i].name];
      assert byEmail == GroupedWith(lower, g, rows[i]).labels;
    }
    assert rows[..|rows|] == rows;
  }

  /** Each case-folded address has exactly one group, and no group is empty. */
  ghost predicate OneGroupEach(lower: string -> string, g: Groups) {
    && (forall i :: 0 <= i < |g.order| ==> lower(g.order[i]) in g.labels)
    && (forall i, j :: 0 <= i < j < |g.order| ==> lower(g.order[i]) != lower(g.order[j]))
    && (forall k :: k in g.labels ==> Heads(lower, g, k))
    && (forall k :: k in g.labels ==> g.labels[k] != [])
  }

  ghost predicate Heads(lower: string -> string, g: Groups, k: string) {
    exists i :: 0 <= i < |g.order| && lower(g.order[i]) == k
  }

  lemma GroupStep(lower: string -> string, g: Groups, r: Row)
    requires OneGroupEach(lower, g)
    ensures OneGroupEach(lower, GroupedWith(lower, g, r))
  {
    var g', k := GroupedWith(lower, g, r), lower(r.email);
    forall x | x in g'.labels
      ensures Heads(lower, g', x)
    {
      if x in g.labels {
        var i :| 0 <= i < |g.order| && lower(g.order[i]) == x;
        assert lower(g'.order[i]) == x;
      } else {
        assert lower(g'.order[|g.order|]) == x;
      }
    }
  }

  lemma {:induction false} GroupsPartition(lower: string -> string, rows: seq<Row>)
    ensures OneGroupEach(lower, Grouped(lower, rows))
  {
    if rows != [] {
      GroupsPartition(lower, rows[..|rows| - 1]);
      GroupStep(lower, Grouped(lower, rows[..|rows| - 1]), rows[|rows| - 1]);
    }
  }

  /** A row as the caller matches it: its label against its case-folded address. */
  function Tag(lower: string -> string, r: Row): (string, string) {
    (r.name, lower(r.email))
  }

  function TagsOf(lower: string -> string, rows: seq<Row>): multiset<(string, string)> {
    if rows == [] then multiset{}
    else TagsOf(lower, rows[..|rows| - 1]) + multiset{Tag(lower, rows[|rows| - 1])}
  }

  function Fanned(labels: seq<string>, key: string): multiset<(string, string)> {
    if labels == [] then multiset{}
    else Fanned(labels[..|labels| - 1], key) + multiset{(labels[|labels| - 1], key)}
  }

  /** All the rows the groups of the first `n` addresses fan out to. */
  function Spread(lower: string -> string, g: Groups, n: nat): multiset<(string, string)>
    requires n <= |g.order| && forall i :: 0 <= i < |g.order| ==> lower(g.order[i]) in g.labels
  {
    if n == 0 then multiset{}
    else
      var k := lower(g.order[n - 1]);
      Spread(lower, g, n - 1) + Fanned(g.labels[k], k)
  }

  lemma FannedGrows(labels: seq<string>, name: string, k: string)
    ensures Fanned(labels + [name], k) == Fanned(labels, k) + multiset{(name, k)}
  {
    assert (labels + [name])[..|labels|] == labels;
  }

  function Grown(g: Groups, k: string, name: string): Groups
    requires k in g.labels
  {
    g.(labels := g.labels[k := g.labels[k] + [name]])
  }

  lemma OneMore<T>(a: multiset<T>, b: multiset<T>, x: T)
    ensures a + (b + multiset{x}) == (a + b) + multiset{x} == (a + multiset{x}) + b
  {
  }

  /** The group of `k` comes at `at`: growing it adds one row there. */
  lemma {:induction false} SpreadUpdates(lower: string -> string, g: Groups, k: string, name: string, at: nat, n: nat)
    requires n <= |g.order| && at < |g.order| && k in g.labels
    requires forall i :: 0 <= i < |g.order| ==> lower(g.order[i]) in g.labels && (lower(g.order[i]) == k <==> i == at)
    ensures n <= at ==> Spread(lower, Grown(g, k, name), n) == Spread(lower, g, n)
    ensures at < n ==> Spread(lower, Grown(g, k, name), n) == Spread(lower, g, n) + multiset{(name, k)}
  {
    if n > 0 {
      var g', x := Grown(g, k, name), lower(g.order[n - 1]);
      SpreadUpdates(lower, g, k, name, at, n - 1);
      assert Spread(lower, g', n) == Spread(lower, g', n - 1) + Fanned(g'.labels[x], x);
      assert Spread(lower, g, n) == Spread(lower, g, n - 1) + Fanned(g.labels[x], x);
      if n - 1 == at {
        FannedGrows(g.labels[k], name, k);
      } else {
        assert g'.labels[x] == g.labels[x];
      }
      OneMore(Spread(lower, g, n - 1), Fanned(g.labels[x], x), (name, k));
    }
  }

  lemma {:induction false} SpreadExtends(lower: string -> string, g: Groups, r: Row, n: nat)
    requires OneGroupEach(lower, g) && n <= |g.order| && lower(r.email) !in g.labels
    ensures OneGroupEach(lower, GroupedWith(lower, g, r))
    ensures Spread(lower, GroupedWith(lower, g, r), n) == Spread(lower, g, n)
  {
    GroupStep(lower, g, r);
    if n > 0 {
      SpreadExtends(lower, g, r, n - 1);
    }
  }

  lemma SpreadJoins(lower: string -> string, g: Groups, r: Row)
    requires OneGroupEach(lower, g) && lower(r.email) in g.labels
    ensures OneGroupEach(lower, GroupedWith(lower, g, r))
    ensures var g' := GroupedWith(lower, g, r);
            Spread(lower, g', |g'.order|) == Spread(lower, g, |g.order|) + multiset{Tag(lower, r)}
  {
    var k := lower(r.email);
    GroupStep(lower, g, r);
    assert Heads(lower, g, k);
    var at :| 0 <= at < |g.order| && lower(g.order[at]) == k;
    assert GroupedWith(lower, g, r) == Grown(g, k, r.name);
    SpreadUpdates(lower, g, k, r.name, at, |g.order|);
  }

  lemma SpreadOpens(lower: string -> string, g: Groups, r: Row)
    requires OneGroupEach(lower, g) && lower(r.email) !in g.labels
    ensures OneGroupEach(lower, GroupedWith(lower, g, r))
    ensures var g' := GroupedWith(lower, g, r);
            Spread(lower, g', |g'.order|) == Spread(lower, g, |g.order|) + multiset{Tag(lower, r)}
  {
    var k := lower(r.email);
    SpreadExtends(lower, g, r, |g.order|);
    assert [r.name][..0] == [];
    assert Fanned([r.name], k) == multiset{(r.name, k)};
  }

  lemma SpreadStep(lower: string -> string, g: Groups, r: Row)
    requires OneGroupEach(lower, g)
    ensures OneGroupEach(lower, GroupedWith(lower, g, r))
    ensures var g' := GroupedWith(lower, g, r);
            Spread(lower, g', |g'.order|) == Spread(lower, g, |g.order|) + multiset{Tag(lower, r)}
  {
    if lower(r.email) in g.labels {
      SpreadJoins(lower, g, r);
    } else {
      SpreadOpens(lower, g, r);
    }
  }

  /** Fan-out conserves rows: the groups stand for exactly the deduplicated rows. */
  lemma {:induction false} GroupingConserves(lower: string -> string, rows: seq<Row>)
    ensures OneGroupEach(lower, Grouped(lower, rows))
    ensures Spread(lower, Grouped(lower, rows), |Grouped(lower, rows).order|) == TagsOf(lower, rows)
  {
    GroupsPartition(lower, rows);
    if rows != [] {
      GroupingConserves(lower, rows[..|rows| - 1]);
      SpreadStep(lower, Grouped(lower, rows[..|rows| - 1]), rows[|rows| - 1]);
    }
  }
}
