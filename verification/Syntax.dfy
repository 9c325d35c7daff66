/**
 Address syntax (internal/pipeline/syntax.go): the dot-atom of section 3.2.3 of RFC 5322 before
 the '@', a fully qualified host name after it, and the size limits of section 4.5.3.1 of RFC 5321.
 */
module Syntax {
  import opened Common

  const MAX_EMAIL := 254
  const MAX_LOCAL := 64
  const MAX_DOMAIN := 255

  // ---------------------------------------------------------------- characters

  predicate Upper(c: char) { 'A' <= c <= 'Z' }

  predicate Alpha(c: char) { 'a' <= c <= 'z' || Upper(c) }

  predicate Alnum(c: char) { Alpha(c) || '0' <= c <= '9' }

  predicate Atext(c: char) {
    || Alnum(c)
    || c == '!' || c == '#' || c == '$' || c == '%' || c == '&' || c == '\'' || c == '*' || c == '+'
    || c == '-' || c == '/' || c == '=' || c == '?' || c == '^' || c == '_' || c == '`'
    || c == '{' || c == '|' || c == '}' || c == '~'
  }

  const LOWERS := "abcdefghijklmnopqrstuvwxyz"
  const UPPERS := "ABCDEFGHIJKLMNOPQRSTUVWXYZ"
  const DIGITS := "0123456789"
  const MARKS := "!#$%&'*+-/=?^_`{|}~"

  /** A run of consecutive characters is the list of them. */
  lemma RunIs(run: string, first: char, c: char)
    requires run != "" && forall i :: 0 <= i < |run| ==> run[i] as int == first as int + i
    ensures c in run <==> first <= c && c as int < first as int + |run|
  {
    if first <= c && c as int < first as int + |run| {
      assert run[c as int - first as int] == c;
    }
  }

  /** Atext as section 3.2.3 of RFC 5322 lists it: letters, digits and nineteen marks. */
  lemma AtextIs(c: char)
    ensures Atext(c) <==> c in LOWERS || c in UPPERS || c in DIGITS || c in MARKS
  {
    RunIs(LOWERS, 'a', c);
    RunIs(UPPERS, 'A', c);
    RunIs(DIGITS, '0', c);
  }

  function LowerChar(c: char): char {
    if Upper(c) then (c as int + 32) as char else c
  }

  function Lower(s: string): (t: string)
    ensures |t| == |s|
    ensures forall i :: 0 <= i < |s| ==> t[i] == LowerChar(s[i])
  {
    seq(|s|, i requires 0 <= i < |s| => LowerChar(s[i]))
  }

  // ---------------------------------------------------------------- local part

  /** The local-part pattern: atoms separated by single dots. */
  predicate ValidLocal(s: string) {
    && s != "" && s[0] != '.' && s[|s| - 1] != '.'
    && (forall i :: 0 <= i < |s| ==> s[i] == '.' || Atext(s[i]))
    && (forall i :: 0 <= i < |s| - 1 ==> s[i] != '.' || s[i + 1] != '.')
  }

  /** dot-atom-text as the grammar writes it: 1*atext *("." 1*atext). */
  function JoinDots(atoms: seq<string>): string
    requires atoms != []
  {
    if |atoms| == 1 then atoms[0] else atoms[0] + "." + JoinDots(atoms[1..])
  }

  ghost predicate Atom(s: string) {
    s != "" && forall i :: 0 <= i < |s| ==> Atext(s[i])
  }

  ghost predicate Atoms(atoms: seq<string>) {
    atoms != [] && forall i :: 0 <= i < |atoms| ==> Atom(atoms[i])
  }

  ghost predicate DotAtom(s: string) {
    exists atoms :: Atoms(atoms) && JoinDots(atoms) == s
  }

  lemma {:induction false} JoinedIsValid(atoms: seq<string>)
    requires Atoms(atoms)
    ensures ValidLocal(JoinDots(atoms))
  {
    if |atoms| > 1 {
      assert Atom(atoms[0]);
      JoinedIsValid(atoms[1..]);
    }
  }

  /** The end of the first atom of a valid local part. */
  function FirstDot(s: string): (k: nat)
    ensures k <= |s| && (k < |s| ==> s[k] == '.') && forall i :: 0 <= i < k ==> s[i] != '.'
  {
    if s == "" || s[0] == '.' then 0 else 1 + FirstDot(s[1..])
  }

  lemma {:induction false} ValidIsJoined(s: string) returns (atoms: seq<string>)
    requires ValidLocal(s)
    ensures Atoms(atoms) && JoinDots(atoms) == s
    decreases |s|
  {
    var k := FirstDot(s);
    if k == |s| {
      assert Atom(s);
      atoms := [s];
    } else {
      var rest := s[k + 1..];
      assert ValidLocal(rest);
      var tail := ValidIsJoined(rest);
      assert Atom(s[..k]);
      atoms := [s[..k]] + tail;
      assert atoms[1..] == tail;
      assert s == s[..k] + "." + rest;
    }
  }

  /** The recogniser accepts exactly the grammar's dot-atoms. */
  lemma ValidLocalIffDotAtom(s: string)
    ensures ValidLocal(s) <==> DotAtom(s)
  {
    if ValidLocal(s) {
      var atoms := ValidIsJoined(s);
    }
    if DotAtom(s) {
      var atoms :| Atoms(atoms) && JoinDots(atoms) == s;
      JoinedIsValid(atoms);
    }
  }

  // ---------------------------------------------------------------- domain

  /** strings.Split on dots: always at least one piece. */
  function Split(s: string): (parts: seq<string>)
    ensures parts != []
  {
    if s == "" then [""]
    else
      var rest := Split(s[1..]);
      if s[0] == '.' then [""] + rest else [[s[0]] + rest[0]] + rest[1..]
  }

  lemma {:induction false} SplitWord(s: string)
    requires '.' !in s
    ensures Split(s) == [s]
  {
    if s != "" {
      SplitWord(s[1..]);
      assert s == [s[0]] + s[1..];
    }
  }

  lemma {:induction false} SplitAtDot(x: string, y: string)
    requires '.' !in x
    ensures Split(x + "." + y) == [x] + Split(y)
  {
    var s := x + "." + y;
    if x == "" {
      assert s[1..] == y;
    } else {
      assert s[1..] == x[1..] + "." + y;
      SplitAtDot(x[1..], y);
      assert x == [x[0]] + x[1..];
    }
  }

  /** Joining undoes splitting. */
  lemma {:induction false} SplitJoins(s: string)
    ensures JoinDots(Split(s)) == s
  {
    if s != "" {
      var rest := Split(s[1..]);
      SplitJoins(s[1..]);
      assert s == [s[0]] + s[1..];
      if s[0] == '.' {
        assert Split(s)[1..] == rest;
      } else if |rest| > 1 {
        assert Split(s)[1..] == rest[1..];
      }
    }
  }

  predicate ValidLabel(s: string) {
    && 1 <= |s| <= 63 && Alnum(s[0]) && Alnum(s[|s| - 1])
    && forall i :: 0 <= i < |s| ==> Alnum(s[i]) || s[i] == '-'
  }

  predicate AllAlpha(s: string) {
    forall i :: 0 <= i < |s| ==> Alpha(s[i])
  }

  /** At least two labels, the last one a word of two letters or more. */
  predicate ValidLabels(labels: seq<string>) {
    && |labels| >= 2
    && (forall i :: 0 <= i < |labels| ==> ValidLabel(labels[i]))
    && |labels[|labels| - 1]| >= 2 && AllAlpha(labels[|labels| - 1])
  }

  predicate ValidDomain(d: string) {
    d != "" && d[0] != '.' && d[|d| - 1] != '.' && ValidLabels(Split(d))
  }

  // ---------------------------------------------------------------- whole addresses

  datatype Address = Address(local: string, domain: string)

  function Written(a: Address): string {
    a.local + "@" + a.domain
  }

  predicate Valid(a: Address) {
    && |a.local| <= MAX_LOCAL && |a.domain| <= MAX_DOMAIN && |Written(a)| <= MAX_EMAIL
    && ValidLocal(a.local) && ValidDomain(a.domain)
  }

  /** strings.LastIndexByte(s, '@'), or -1. */
  function LastAt(s: string): (k: int)
    ensures -1 <= k < |s| && (k >= 0 ==> s[k] == '@') && forall i :: k < i < |s| ==> s[i] != '@'
  {
    if s == "" then -1
    else if s[|s| - 1] == '@' then |s| - 1
    else LastAt(s[..|s| - 1])
  }

  function SplitAndValidate(addr: string): Option<Address> {
    if |addr| == 0 || |addr| > MAX_EMAIL then None
    else
      var at := LastAt(addr);
      if at <= 0 || at == |addr| - 1 then None
      else
        var local, domain := addr[..at], addr[at + 1..];
        if |local| > MAX_LOCAL || |domain| > MAX_DOMAIN then None
        else if !ValidLocal(local) then None
        else if !ValidDomain(domain) then None
        else Some(Address(local, domain))
  }

  lemma {:induction false} SplitHasAt(s: string)
    requires forall j :: 0 <= j < |Split(s)| ==> '@' !in Split(s)[j]
    ensures '@' !in s
  {
    if s != "" {
      var rest, parts := Split(s[1..]), Split(s);
      if s[0] == '.' {
        assert forall j :: 0 <= j < |rest| ==> rest[j] == parts[j + 1];
      } else {
        assert parts[0] == [s[0]] + rest[0] && s[0] in parts[0];
        assert forall c :: c in rest[0] ==> c in parts[0];
        assert forall j :: 1 <= j < |rest| ==> rest[j] == parts[j];
      }
      SplitHasAt(s[1..]);
      assert s == [s[0]] + s[1..];
    }
  }

  lemma DomainHasNoAt(d: string)
    requires ValidDomain(d)
    ensures '@' !in d
  {
    SplitHasAt(d);
  }

  /** Splitting undoes writing: the parser accepts exactly the written form of valid addresses. */
  lemma SplitWritten(a: Address)
    requires Valid(a)
    ensures SplitAndValidate(Written(a)) == Some(a)
  {
    var s, n := Written(a), |a.local|;
    DomainHasNoAt(a.domain);
    assert s[n] == '@' && s[..n] == a.local && s[n + 1..] == a.domain;
    forall i | n < i < |s|
      ensures s[i] != '@'
    {
      assert s[i] == a.domain[i - n - 1];
    }
    assert LastAt(s) == n;
  }

  lemma WrittenSplit(s: string)
    requires SplitAndValidate(s).Some?
    ensures Valid(SplitAndValidate(s).value) && Written(SplitAndValidate(s).value) == s
  {
    var at := LastAt(s);
    var a := Address(s[..at], s[at + 1..]);
    assert SplitAndValidate(s) == Some(a);
    assert Written(a) == s by {
      assert s[at] == '@';
    }
  }

  // ---------------------------------------------------------------- lower-casing

  lemma LowerCharKeeps(c: char)
    ensures Atext(c) <==> Atext(LowerChar(c))
    ensures Alnum(c) <==> Alnum(LowerChar(c))
    ensures Alpha(c) <==> Alpha(LowerChar(c))
    ensures LowerChar(c) == '.' <==> c == '.'
    ensures LowerChar(c) == '-' <==> c == '-'
    ensures LowerChar(c) == '+' <==> c == '+'
    ensures LowerChar(LowerChar(c)) == LowerChar(c)
  {
  }

  lemma LowerTwice(s: string)
    ensures Lower(Lower(s)) == Lower(s)
  {
    forall i | 0 <= i < |s|
      ensures Lower(Lower(s))[i] == Lower(s)[i]
    {
      LowerCharKeeps(s[i]);
    }
  }

  lemma LowerKeepsLocal(s: string)
    ensures ValidLocal(s) <==> ValidLocal(Lower(s))
  {
    var t := Lower(s);
    forall i | 0 <= i < |s|
      ensures (t[i] == '.' <==> s[i] == '.') && (Atext(t[i]) <==> Atext(s[i]))
    {
      LowerCharKeeps(s[i]);
    }
  }

  lemma LowerKeepsLabel(s: string)
    requires ValidLabel(s)
    ensures ValidLabel(Lower(s)) && (AllAlpha(s) ==> AllAlpha(Lower(s)))
  {
    var t := Lower(s);
    forall i | 0 <= i < |s|
      ensures (Alnum(t[i]) <==> Alnum(s[i])) && (t[i] == '-' <==> s[i] == '-') && (Alpha(t[i]) <==> Alpha(s[i]))
    {
      LowerCharKeeps(s[i]);
    }
  }

  function LowerAll(parts: seq<string>): (low: seq<string>)
    ensures |low| == |parts| && forall i :: 0 <= i < |parts| ==> low[i] == Lower(parts[i])
  {
    seq(|parts|, i requires 0 <= i < |parts| => Lower(parts[i]))
  }

  lemma LowerAllOpens(rest: seq<string>)
    ensures LowerAll([""] + rest) == [""] + LowerAll(rest)
  {
  }

  lemma LowerAllGrows(c: char, rest: seq<string>)
    requires rest != []
    ensures LowerAll([[c] + rest[0]] + rest[1..]) == [[LowerChar(c)] + LowerAll(rest)[0]] + LowerAll(rest)[1..]
  {
    assert Lower([c] + rest[0]) == [LowerChar(c)] + Lower(rest[0]);
  }

  lemma {:induction false} SplitOfLower(s: string)
    ensures Split(Lower(s)) == LowerAll(Split(s))
  {
    if s != "" {
      var rest := Split(s[1..]);
      SplitOfLower(s[1..]);
      assert Lower(s)[1..] == Lower(s[1..]) && Lower(s)[0] == LowerChar(s[0]);
      LowerCharKeeps(s[0]);
      if s[0] == '.' {
        LowerAllOpens(rest);
      } else {
        LowerAllGrows(s[0], rest);
      }
    }
  }

  lemma LowerKeepsLabels(labels: seq<string>)
    requires ValidLabels(labels)
    ensures ValidLabels(LowerAll(labels))
  {
    forall i | 0 <= i < |labels|
      ensures ValidLabel(LowerAll(labels)[i]) && (AllAlpha(labels[i]) ==> AllAlpha(LowerAll(labels)[i]))
    {
      LowerKeepsLabel(labels[i]);
    }
  }

  lemma LowerKeepsDomain(d: string)
    requires ValidDomain(d)
    ensures ValidDomain(Lower(d))
  {
    SplitOfLower(d);
    LowerKeepsLabels(Split(d));
    LowerCharKeeps(d[0]);
    LowerCharKeeps(d[|d| - 1]);
  }
}
