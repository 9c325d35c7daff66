/**
 The canonical cache key (internal/pipeline/normalize.go): lower-cased for every provider, and for
 Gmail with dots removed, the "+tag" cut off and googlemail.com folded to gmail.com.
 */
module CanonicalKeys {
  import opened Common
  import opened Text
  import opened Syntax
  import opened Paths

  // ---------------------------------------------------------------- the key

  function ProviderForDomain(d: string): string {
    if d == "gmail.com" || d == "googlemail.com" then "gmail"
    else if d in {"outlook.com", "hotmail.com", "hotmail.co.uk", "live.com", "msn.com"} then "microsoft"
    else if d in {"yahoo.com", "yahoo.co.uk", "ymail.com", "rocketmail.com"} then "yahoo"
    else if d in {"icloud.com", "me.com", "mac.com"} then "icloud"
    else if d in {"proton.me", "protonmail.com", "pm.me"} then "proton"
    else "custom"
  }

  /** strings.ReplaceAll(s, ".", ""). */
  function Dedot(s: string): string {
    if s == "" then "" else (if s[0] == '.' then "" else [s[0]]) + Dedot(s[1..])
  }

  /** The part before the first '+', or all of it. */
  function CutTag(s: string): string {
    if s == "" || s[0] == '+' then "" else [s[0]] + CutTag(s[1..])
  }

  function CanonicalKey(local: string, domain: string, provider: string): string {
    var nl := Lower(local);
    if provider == "gmail" then CutTag(Dedot(nl)) + "@" + "gmail.com" else nl + "@" + domain
  }

  /** The key the normalize stage computes for a valid address. */
  function KeyOf(a: Address): string {
    CanonicalKey(a.local, Lower(a.domain), ProviderForDomain(Lower(a.domain)))
  }

  predicate OnGmail(a: Address) {
    Lower(a.domain) == "gmail.com" || Lower(a.domain) == "googlemail.com"
  }

  /** The address that the key spells. */
  function Canon(a: Address): Address {
    if OnGmail(a) then Address(CutTag(Dedot(Lower(a.local))), "gmail.com")
    else Address(Lower(a.local), Lower(a.domain))
  }

  lemma KeyIsWritten(a: Address)
    ensures KeyOf(a) == Written(Canon(a))
  {
    assert ProviderForDomain(Lower(a.domain)) == "gmail" <==> OnGmail(a) by {
      assert "microsoft"[0] != 'g' && "yahoo"[0] != 'g' && "icloud"[0] != 'g';
      assert "proton"[0] != 'g' && "custom"[0] != 'g';
    }
  }

  // ---------------------------------------------------------------- dots and tags

  predicate Plain(s: string) {
    forall i :: 0 <= i < |s| ==> Atext(s[i]) && s[i] != '.'
  }

  lemma {:induction false} DedotPlain(s: string)
    requires forall i :: 0 <= i < |s| ==> s[i] == '.' || Atext(s[i])
    ensures Plain(Dedot(s)) && |Dedot(s)| <= |s|
    ensures s != "" && s[0] != '.' ==> Dedot(s) != "" && Dedot(s)[0] == s[0]
  {
    if s != "" {
      DedotPlain(s[1..]);
    }
  }

  lemma {:induction false} DedotJoin(x: string, y: string)
    ensures Dedot(x + y) == Dedot(x) + Dedot(y)
  {
    if x == "" {
      assert x + y == y;
    } else {
      assert (x + y)[1..] == x[1..] + y;
      DedotJoin(x[1..], y);
    }
  }

  lemma {:induction false} DedotFixed(s: string)
    requires forall i :: 0 <= i < |s| ==> s[i] != '.'
    ensures Dedot(s) == s
  {
    if s != "" {
      DedotFixed(s[1..]);
    }
  }

  lemma {:induction false} CutTagPlain(s: string)
    requires Plain(s)
    ensures Plain(CutTag(s)) && '+' !in CutTag(s) && |CutTag(s)| <= |s|
    ensures CutTag(s) == s[..|CutTag(s)|]
    ensures |CutTag(s)| < |s| ==> s[|CutTag(s)|] == '+'
    ensures CutTag(s) == "" <==> s == "" || s[0] == '+'
  {
    if s != "" && s[0] != '+' {
      CutTagPlain(s[1..]);
    }
  }

  lemma {:induction false} CutTagFixed(s: string)
    requires '+' !in s
    ensures CutTag(s) == s
  {
    if s != "" {
      CutTagFixed(s[1..]);
    }
  }

  lemma {:induction false} CutTagJoin(x: string, y: string)
    ensures CutTag(x + "+" + y) == CutTag(x)
  {
    if x == "" {
      assert x + "+" + y == "+" + y;
    } else {
      assert (x + "+" + y)[1..] == x[1..] + "+" + y;
      CutTagJoin(x[1..], y);
    }
  }

  lemma LowerJoin(x: string, y: string)
    ensures Lower(x + y) == Lower(x) + Lower(y)
  {
  }

  lemma LowerHead(s: string)
    requires s != ""
    ensures Lower(s) == [LowerChar(s[0])] + Lower(s[1..])
  {
  }

  lemma {:induction false} LowerDedot(s: string)
    ensures Dedot(Lower(s)) == Lower(Dedot(s))
  {
    if s != "" {
      LowerDedot(s[1..]);
      LowerHead(s);
      LowerCharKeeps(s[0]);
      if s[0] != '.' {
        LowerJoin([s[0]], Dedot(s[1..]));
      }
    }
  }

  lemma {:induction false} LowerCut(s: string)
    ensures CutTag(Lower(s)) == Lower(CutTag(s))
  {
    if s != "" {
      LowerCut(s[1..]);
      LowerHead(s);
      LowerCharKeeps(s[0]);
      if s[0] != '+' {
        LowerJoin([s[0]], CutTag(s[1..]));
      }
    }
  }

  // ---------------------------------------------------------------- keys are fixed points

  lemma WordIsLabel(s: string)
    requires 1 <= |s| <= 63 && AllAlpha(s)
    ensures ValidLabel(s)
  {
  }

  lemma TwoWords(x: string, y: string)
    requires 1 <= |x| <= 63 && AllAlpha(x) && 2 <= |y| <= 63 && AllAlpha(y)
    ensures ValidDomain(x + "." + y)
  {
    SplitAtDot(x, y);
    SplitWord(y);
    WordIsLabel(x);
    WordIsLabel(y);
  }

  lemma LowerFixed(s: string)
    requires forall i :: 0 <= i < |s| ==> !Upper(s[i])
    ensures Lower(s) == s
  {
  }

  lemma GmailIsLower()
    ensures Lower("gmail.com") == "gmail.com"
  {
    LowerFixed("gmail.com");
  }

  lemma GmailIsValid()
    ensures ValidDomain("gmail.com") && Lower("gmail.com") == "gmail.com"
  {
    GmailIsLower();
    TwoWords("gmail", "com");
    assert "gmail" + "." + "com" == "gmail.com";
  }

  lemma GmailAddressIsValid(l: string)
    requires ValidLocal(l) && |l| <= MAX_LOCAL
    ensures Valid(Address(l, "gmail.com"))
  {
    GmailIsValid();
    assert |Written(Address(l, "gmail.com"))| == |l| + 10;
  }

  lemma PlainIsLocal(s: string)
    requires Plain(s) && s != ""
    ensures ValidLocal(s)
  {
  }

  /** The trouble spot: a Gmail local part that starts with '+' leaves nothing of itself in the key. */
  predicate OnlyTag(a: Address) {
    OnGmail(a) && a.local != "" && a.local[0] == '+'
  }

  /** The local part of a Gmail key. */
  lemma GmailLocal(a: Address)
    requires Valid(a)
    ensures var l := CutTag(Dedot(Lower(a.local)));
            && Plain(l) && '+' !in l && |l| <= |a.local| && Lower(l) == l
            && (l == "" <==> a.local[0] == '+')
  {
    var l := Lower(a.local);
    LowerKeepsLocal(a.local);
    LowerTwice(a.local);
    DedotPlain(l);
    CutTagPlain(Dedot(l));
    LowerDedot(l);
    LowerCut(Dedot(l));
    LowerCharKeeps(a.local[0]);
  }

  lemma GmailLonger(a: Address)
    requires OnGmail(a)
    ensures |a.domain| >= |"gmail.com"|
  {
    assert |Lower(a.domain)| == |a.domain|;
  }

  lemma CanonValid(a: Address)
    requires Valid(a) && !OnlyTag(a)
    ensures Valid(Canon(a))
  {
    if OnGmail(a) {
      GmailLocal(a);
      GmailIsValid();
      GmailLonger(a);
      PlainIsLocal(Canon(a).local);
    } else {
      LowerKeepsLocal(a.local);
      LowerKeepsDomain(a.domain);
    }
  }

  lemma CanonTwice(a: Address)
    requires Valid(a)
    ensures Canon(Canon(a)) == Canon(a)
  {
    if OnGmail(a) {
      GmailLocal(a);
      GmailIsValid();
      DedotFixed(Canon(a).local);
      CutTagFixed(Canon(a).local);
    } else {
      LowerTwice(a.local);
      LowerTwice(a.domain);
    }
  }

  lemma LoneAt(d: string)
    requires '@' !in d
    ensures SplitAndValidate("@" + d) == None
  {
    var s := "@" + d;
    assert s[0] == '@';
    assert forall i :: 0 < i < |s| ==> s[i] == d[i - 1];
  }

  lemma GmailKey(a: Address)
    requires OnGmail(a)
    ensures KeyOf(a) == CutTag(Dedot(Lower(a.local))) + "@gmail.com"
  {
    KeyIsWritten(a);
    assert "@" + "gmail.com" == "@gmail.com";
  }

  lemma OnlyTagLeavesNothing(a: Address)
    requires Valid(a) && OnlyTag(a)
    ensures CutTag(Dedot(Lower(a.local))) == ""
  {
    GmailLocal(a);
  }

  lemma OnlyTagKey(a: Address)
    requires Valid(a) && OnlyTag(a)
    ensures KeyOf(a) == "@gmail.com"
  {
    GmailKey(a);
    OnlyTagLeavesNothing(a);
    EmptyFront(CutTag(Dedot(Lower(a.local))), "@gmail.com");
  }

  lemma EmptyFront(l: string, rest: string)
    requires l == ""
    ensures l + rest == rest
  {
  }

  lemma StubIsNone(key: string)
    requires key == "@gmail.com"
    ensures SplitAndValidate(key) == None
  {
    LoneAt(key[1..]);
    assert key == "@" + key[1..];
  }

  lemma OtherKeyIsValid(a: Address)
    requires Valid(a) && !OnlyTag(a)
    ensures SplitAndValidate(KeyOf(a)) == Some(Canon(a)) && KeyOf(Canon(a)) == KeyOf(a)
  {
    KeyIsWritten(a);
    CanonValid(a);
    SplitWritten(Canon(a));
    CanonTwice(a);
    KeyIsWritten(Canon(a));
  }

  /**
   A key is itself a valid address, and its own key, exactly if the address is not a Gmail
   address whose local part starts with '+'.
   */
  lemma KeyIsValidIff(a: Address)
    requires Valid(a)
    ensures SplitAndValidate(KeyOf(a)).Some? <==> !OnlyTag(a)
    ensures SplitAndValidate(KeyOf(a)).Some? ==> KeyOf(SplitAndValidate(KeyOf(a)).value) == KeyOf(a)
  {
    if OnlyTag(a) {
      OnlyTagKey(a);
      StubIsNone(KeyOf(a));
    } else {
      OtherKeyIsValid(a);
    }
  }

  lemma TrimTight(s: string)
    requires s != "" && !IsSpace(s[0]) && !IsSpace(s[|s| - 1])
    ensures TrimSpace(s) == s
  {
  }

  /** Input the syntax stage rejects keeps its raw text as its cache key. */
  predicate Rejected(input: string) {
    SplitAndValidate(TrimSpace(input)).None?
  }

  lemma StubIsRejected(key: string)
    requires key == "@gmail.com"
    ensures Rejected(key)
  {
    StubRejected(key[1..]);
    assert key == "@" + key[1..];
  }

  lemma StubRejected(d: string)
    requires d != "" && !IsSpace(d[|d| - 1]) && '@' !in d
    ensures Rejected("@" + d)
  {
    TrimTight("@" + d);
    LoneAt(d);
  }

  lemma ValidKeyIsTight(c: Address)
    requires Valid(c)
    ensures TrimSpace(Written(c)) == Written(c)
  {
    var k := Written(c);
    DomainEndsTight(c.domain);
    assert k[0] == c.local[0] && k[|k| - 1] == c.domain[|c.domain| - 1];
    TrimTight(k);
  }

  /** Rejected input shares the key of a valid address exactly in the trouble spot. */
  lemma RejectedSharesKeyIff(a: Address)
    requires Valid(a)
    ensures (exists input :: Rejected(input) && input == KeyOf(a)) <==> OnlyTag(a)
  {
    if OnlyTag(a) {
      OnlyTagKey(a);
      StubIsRejected(KeyOf(a));
    } else {
      KeyIsWritten(a);
      CanonValid(a);
      ValidKeyIsTight(Canon(a));
      KeyIsValidIff(a);
    }
  }

  lemma {:induction false} SplitLastChar(s: string)
    requires s != "" && s[|s| - 1] != '.'
    ensures var last := Split(s)[|Split(s)| - 1];
            last != "" && last[|last| - 1] == s[|s| - 1]
  {
    if |s| > 1 {
      SplitLastChar(s[1..]);
    }
  }

  lemma DomainEndsTight(d: string)
    requires ValidDomain(d)
    ensures !IsSpace(d[|d| - 1])
  {
    SplitLastChar(d);
  }

  // ---------------------------------------------------------------- which addresses share a key

  /** The same mailbox, written with other letter case. */
  predicate CaseEdit(a: Address, b: Address) {
    Lower(a.local) == Lower(b.local) && Lower(a.domain) == Lower(b.domain)
  }

  /** A Gmail address with one dot of its local part removed. */
  ghost predicate DotEdit(a: Address, b: Address) {
    OnGmail(a) && a.domain == b.domain &&
    exists i :: 0 <= i < |a.local| && a.local[i] == '.' && b.local == a.local[..i] + a.local[i + 1..]
  }

  /** A Gmail address with a tag removed. */
  ghost predicate TagEdit(a: Address, b: Address) {
    OnGmail(a) && a.domain == b.domain && exists tag :: a.local == b.local + "+" + tag
  }

  /** gmail.com written as googlemail.com, or the other way round. */
  predicate FoldEdit(a: Address, b: Address) {
    OnGmail(a) && OnGmail(b) && a.local == b.local
  }

  ghost predicate Edit(a: Address, b: Address) {
    CaseEdit(a, b) || DotEdit(a, b) || TagEdit(a, b) || FoldEdit(a, b)
  }

  /** Both addresses are valid, and an edit leads from one to the other. */
  ghost predicate Near(a: Address, b: Address) {
    Valid(a) && Valid(b) && (Edit(a, b) || Edit(b, a))
  }

  /** Reachable by edits through valid addresses only. */
  ghost predicate Linked(a: Address, b: Address) {
    Joined(Near, a, b)
  }

  lemma DotVanishes(x: string, y: string)
    ensures Dedot(x + "." + y) == Dedot(x + y)
  {
    DedotJoin(x, y);
    DedotJoin(x + ".", y);
    DedotJoin(x, ".");
    assert Dedot(".") == "" by { assert "."[1..] == ""; }
  }

  lemma LowerAround(x: string, c: char, y: string)
    requires LowerChar(c) == c
    ensures Lower(x + [c] + y) == Lower(x) + [c] + Lower(y)
  {
    LowerJoin(x + [c], y);
    LowerJoin(x, [c]);
  }

  lemma DotEditKeepsCanon(a: Address, b: Address)
    requires DotEdit(a, b)
    ensures Dedot(Lower(a.local)) == Dedot(Lower(b.local)) && Canon(a) == Canon(b)
  {
    var i :| 0 <= i < |a.local| && a.local[i] == '.' && b.local == a.local[..i] + a.local[i + 1..];
    var x, y := a.local[..i], a.local[i + 1..];
    assert a.local == x + "." + y;
    LowerAround(x, '.', y);
    LowerJoin(x, y);
    DotVanishes(Lower(x), Lower(y));
  }

  lemma TagEditKeepsCanon(a: Address, b: Address)
    requires TagEdit(a, b)
    ensures Canon(a) == Canon(b)
  {
    var tag :| a.local == b.local + "+" + tag;
    LowerAround(b.local, '+', tag);
    TagVanishes(Lower(b.local), Lower(tag));
  }

  lemma TagVanishes(x: string, tag: string)
    ensures CutTag(Dedot(x + "+" + tag)) == CutTag(Dedot(x))
  {
    DedotJoin(x + "+", tag);
    DedotJoin(x, "+");
    assert Dedot("+") == "+" by { assert "+"[1..] == ""; }
    CutTagJoin(Dedot(x), Dedot(tag));
  }

  lemma EditKeepsCanon(a: Address, b: Address)
    requires Edit(a, b)
    ensures Canon(a) == Canon(b)
  {
    if DotEdit(a, b) {
      DotEditKeepsCanon(a, b);
    } else if TagEdit(a, b) {
      TagEditKeepsCanon(a, b);
    }
  }

  lemma {:induction false} PathKeepsCanon(c: seq<Address>)
    requires Path(Near, c)
    ensures Canon(c[0]) == Canon(c[|c| - 1])
  {
    if |c| > 1 {
      PathKeepsCanon(c[..|c| - 1]);
      NearKeepsCanon(c[|c| - 2], c[|c| - 1]);
    }
  }

  lemma NearKeepsCanon(a: Address, b: Address)
    requires Near(a, b)
    ensures Canon(a) == Canon(b)
  {
    if Edit(a, b) {
      EditKeepsCanon(a, b);
    } else {
      EditKeepsCanon(b, a);
    }
  }

  lemma DropDot(s: string, i: nat)
    requires ValidLocal(s) && i < |s| && s[i] == '.'
    ensures ValidLocal(s[..i] + s[i + 1..])
  {
    var t := s[..i] + s[i + 1..];
    assert 0 < i < |s| - 1;
    assert forall j :: 0 <= j < |t| ==> t[j] == if j < i then s[j] else s[j + 1];
    assert s[i - 1] != '.' && s[i + 1] != '.';
  }

  lemma LinkEdit(a: Address, b: Address)
    requires Near(a, b)
    ensures Linked(a, b)
  {
    JoinedOne(Near, a, b);
  }

  lemma LinkJoin(a: Address, b: Address, c: Address)
    requires Linked(a, b) && Linked(b, c)
    ensures Linked(a, c)
  {
    JoinedThrough(Near, a, b, c);
  }

  lemma DedotDrops(s: string, k: nat)
    requires k < |s| && s[k] == '.'
    ensures Dedot(s[..k] + s[k + 1..]) == Dedot(s)
  {
    assert s == s[..k] + "." + s[k + 1..];
    DotVanishes(s[..k], s[k + 1..]);
  }

  lemma {:induction false} LinkDedot(a: Address)
    requires Valid(a) && OnGmail(a)
    ensures Valid(Address(Dedot(a.local), a.domain)) && Linked(a, Address(Dedot(a.local), a.domain))
    decreases |a.local|
  {
    var k := FirstDot(a.local);
    if k == |a.local| {
      DedotFixed(a.local);
      JoinedSelf(Near, a);
    } else {
      var b := Address(a.local[..k] + a.local[k + 1..], a.domain);
      DedotDrops(a.local, k);
      LinkDot(a, k);
      LinkDedot(b);
      LinkJoin(a, b, Address(Dedot(a.local), a.domain));
    }
  }

  lemma ShorterIsValid(a: Address, l: string)
    requires Valid(a) && ValidLocal(l) && |l| <= |a.local|
    ensures Valid(Address(l, a.domain))
  {
    assert |Written(Address(l, a.domain))| <= |Written(a)|;
  }

  /** A plain local part is what is left of its tag, then the tag. */
  lemma TagSplits(s: string)
    requires Plain(s)
    ensures var l := CutTag(s);
            Plain(l) && |l| <= |s| && (|l| == |s| ==> l == s) && (|l| < |s| ==> s == l + "+" + s[|l| + 1..])
  {
    CutTagPlain(s);
  }

  lemma LinkTag(a: Address, l: string, tag: string)
    requires Valid(a) && OnGmail(a) && ValidLocal(l) && a.local == l + "+" + tag
    ensures Valid(Address(l, a.domain)) && Linked(a, Address(l, a.domain))
  {
    var b := Address(l, a.domain);
    ShorterIsValid(a, l);
    assert TagEdit(a, b);
    LinkEdit(a, b);
  }

  lemma LinkDot(a: Address, k: nat)
    requires Valid(a) && OnGmail(a) && k < |a.local| && a.local[k] == '.'
    ensures var b := Address(a.local[..k] + a.local[k + 1..], a.domain);
            Valid(b) && Linked(a, b)
  {
    var b := Address(a.local[..k] + a.local[k + 1..], a.domain);
    DropDot(a.local, k);
    ShorterIsValid(a, b.local);
    assert DotEdit(a, b);
    LinkEdit(a, b);
  }

  lemma LinkCut(a: Address)
    requires Valid(a) && OnGmail(a) && Plain(a.local) && a.local[0] != '+'
    ensures Valid(Address(CutTag(a.local), a.domain)) && Linked(a, Address(CutTag(a.local), a.domain))
  {
    var l := CutTag(a.local);
    TagSplits(a.local);
    CutTagPlain(a.local);
    PlainIsLocal(l);
    if |l| == |a.local| {
      JoinedSelf(Near, a);
    } else {
      LinkTag(a, l, a.local[|l| + 1..]);
    }
  }

  lemma LinkCanon(a: Address)
    requires Valid(a) && !OnlyTag(a)
    ensures Linked(a, Canon(a))
  {
    var b := Address(Lower(a.local), Lower(a.domain));
    LowerKeepsLocal(a.local);
    LowerKeepsDomain(a.domain);
    LowerTwice(a.local);
    LowerTwice(a.domain);
    LinkEdit(a, b);
    if OnGmail(a) {
      LinkGmail(b);
      LinkJoin(a, b, Canon(b));
      assert Canon(b) == Canon(a);
    }
  }

  lemma LinkGmail(b: Address)
    requires Valid(b) && OnGmail(b) && Lower(b.local) == b.local && b.local[0] != '+'
    ensures Linked(b, Canon(b))
  {
    var c := Address(Dedot(b.local), b.domain);
    LinkDedot(b);
    DedotPlain(b.local);
    var d := Address(CutTag(c.local), b.domain);
    LinkCut(c);
    LinkJoin(b, c, d);
    CanonValid(b);
    GmailIsValid();
    assert FoldEdit(d, Canon(b));
    LinkEdit(d, Canon(b));
    LinkJoin(b, d, Canon(b));
  }

  lemma LinkedShareKey(a: Address, b: Address)
    requires Linked(a, b)
    ensures KeyOf(a) == KeyOf(b)
  {
    var c :| Path(Near, c) && c[0] == a && c[|c| - 1] == b;
    PathKeepsCanon(c);
    KeyIsWritten(a);
    KeyIsWritten(b);
  }

  lemma SameKeyLinks(a: Address, b: Address)
    requires Valid(a) && Valid(b) && !OnlyTag(a) && !OnlyTag(b) && KeyOf(a) == KeyOf(b)
    ensures Linked(a, b)
  {
    KeyIsWritten(a);
    KeyIsWritten(b);
    CanonValid(a);
    CanonValid(b);
    SplitWritten(Canon(a));
    SplitWritten(Canon(b));
    LinkCanon(a);
    LinkCanon(b);
    JoinedBack(Near, b, Canon(b));
    LinkJoin(a, Canon(a), b);
  }

  /**
   Two valid addresses share a key exactly if one can be turned into the other by changing case,
   Gmail dots or tags, and the googlemail fold, staying valid on the way, or if both are Gmail
   addresses whose local part starts with '+'.
   */
  lemma SameKeyIff(a: Address, b: Address)
    requires Valid(a) && Valid(b)
    ensures KeyOf(a) == KeyOf(b) <==> Linked(a, b) || (OnlyTag(a) && OnlyTag(b))
  {
    if Linked(a, b) {
      LinkedShareKey(a, b);
    } else if OnlyTag(a) && OnlyTag(b) {
      OnlyTagKey(a);
      OnlyTagKey(b);
    } else if KeyOf(a) == KeyOf(b) {
      KeyIsValidIff(a);
      KeyIsValidIff(b);
      SameKeyLinks(a, b);
    }
  }
}
