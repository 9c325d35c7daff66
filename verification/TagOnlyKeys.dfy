/**
 Gmail addresses whose local part starts with '+' all get the key "@gmail.com"
 (internal/pipeline/normalize.go): the key keeps nothing of them. This tells exactly which different
 mailboxes share it.
 */
module TagOnlyKeys {
  import opened Paths
  import opened Syntax
  import opened CanonicalKeys

  /** What follows the leading '+' up to the next one. */
  function Core(s: string): string {
    if s == "" then "" else CutTag(s[1..])
  }

  /** What tells tag-only addresses apart: their first tag, without case and dots. */
  function TagCore(a: Address): string {
    Core(Dedot(Lower(a.local)))
  }

  lemma TagEditKeepsCore(a: Address, b: Address)
    requires TagEdit(a, b) && ValidLocal(b.local)
    ensures TagCore(a) == TagCore(b)
  {
    var tag :| a.local == b.local + "+" + tag;
    var x, y := Lower(b.local), Lower(tag);
    LowerAround(b.local, '+', tag);
    DedotJoin(x + "+", y);
    DedotJoin(x, "+");
    assert Dedot("+") == "+" by { assert "+"[1..] == ""; }
    LowerKeepsLocal(b.local);
    DedotPlain(x);
    assert (Dedot(x) + "+" + Dedot(y))[1..] == Dedot(x)[1..] + "+" + Dedot(y);
    CutTagJoin(Dedot(x)[1..], Dedot(y));
  }

  lemma EditKeepsCore(a: Address, b: Address)
    requires Valid(a) && Valid(b) && Edit(a, b)
    ensures TagCore(a) == TagCore(b)
  {
    if DotEdit(a, b) {
      DotEditKeepsCanon(a, b);
    } else if TagEdit(a, b) {
      TagEditKeepsCore(a, b);
    }
  }

  lemma {:induction false} PathKeepsCore(c: seq<Address>)
    requires Path(Near, c)
    ensures TagCore(c[0]) == TagCore(c[|c| - 1])
  {
    if |c| > 1 {
      PathKeepsCore(c[..|c| - 1]);
      var x, y := c[|c| - 2], c[|c| - 1];
      assert Near(x, y);
      if Edit(x, y) {
        EditKeepsCore(x, y);
      } else {
        EditKeepsCore(y, x);
      }
    }
  }

  lemma LinkedKeepsCore(a: Address, b: Address)
    requires Linked(a, b)
    ensures TagCore(a) == TagCore(b)
  {
    var c :| Path(Near, c) && c[0] == a && c[|c| - 1] == b;
    PathKeepsCore(c);
  }

  // ---------------------------------------------------------------- the same first tag links

  /** The plainest address with the same first tag. */
  function Bare(a: Address): Address {
    Address("+" + TagCore(a), "gmail.com")
  }

  lemma LinkDomain(b: Address)
    requires Valid(b) && OnGmail(b)
    ensures Valid(Address(b.local, "gmail.com")) && Linked(b, Address(b.local, "gmail.com"))
  {
    var c := Address(b.local, "gmail.com");
    GmailAddressIsValid(b.local);
    GmailIsLower();
    assert FoldEdit(b, c);
    LinkEdit(b, c);
  }

  lemma SecondTagSplits(s: string)
    requires Plain(s) && s != "" && s[0] == '+'
    ensures var l := "+" + CutTag(s[1..]);
            ValidLocal(l) && (l == s || (|l| < |s| && s == l + "+" + s[|l| + 1..]))
  {
    var rest := s[1..];
    TagSplits(rest);
    assert s == "+" + rest;
    PlainIsLocal("+" + CutTag(rest));
  }

  /** Dot-free already: cutting the second tag is one edit. */
  lemma LinkSecondTag(c: Address)
    requires Valid(c) && OnlyTag(c) && Plain(c.local)
    ensures var d := Address("+" + CutTag(c.local[1..]), c.domain);
            Valid(d) && Linked(c, d)
  {
    var l := "+" + CutTag(c.local[1..]);
    SecondTagSplits(c.local);
    if l == c.local {
      JoinedSelf(Near, c);
    } else {
      LinkTag(c, l, c.local[|l| + 1..]);
    }
  }

  lemma LinkLower(a: Address)
    requires Valid(a)
    ensures var b := Address(Lower(a.local), Lower(a.domain));
            Valid(b) && Linked(a, b)
  {
    var b := Address(Lower(a.local), Lower(a.domain));
    LowerKeepsLocal(a.local);
    LowerKeepsDomain(a.domain);
    LowerTwice(a.local);
    LowerTwice(a.domain);
    LinkEdit(a, b);
  }

  lemma LinkBare(a: Address)
    requires Valid(a) && OnlyTag(a)
    ensures Linked(a, Bare(a))
  {
    var b := Address(Lower(a.local), Lower(a.domain));
    LinkLower(a);
    LowerTwice(a.domain);
    LowerCharKeeps(a.local[0]);
    var c := Address(Dedot(b.local), b.domain);
    LinkDedot(b);
    DedotPlain(b.local);
    LinkJoin(a, b, c);
    var d := Address("+" + CutTag(c.local[1..]), c.domain);
    LinkSecondTag(c);
    LinkJoin(a, c, d);
    LinkDomain(d);
    LinkJoin(a, d, Bare(a));
  }

  /** Tag-only addresses are the same mailbox exactly if they have the same first tag. */
  lemma LinkedTagsIff(a: Address, b: Address)
    requires Valid(a) && Valid(b) && OnlyTag(a) && OnlyTag(b)
    ensures Linked(a, b) <==> TagCore(a) == TagCore(b)
  {
    if Linked(a, b) {
      LinkedKeepsCore(a, b);
    }
    if TagCore(a) == TagCore(b) {
      LinkBare(a);
      LinkBare(b);
      JoinedBack(Near, b, Bare(b));
      LinkJoin(a, Bare(a), b);
    }
  }

  /**
   Keys are meant to keep different mailboxes apart. They fail to exactly for two Gmail addresses
   that start with '+' and differ in their first tag.
   */
  lemma StrangersShareKeyIff(a: Address, b: Address)
    requires Valid(a) && Valid(b)
    ensures KeyOf(a) == KeyOf(b) && !Linked(a, b) <==> OnlyTag(a) && OnlyTag(b) && TagCore(a) != TagCore(b)
  {
    SameKeyIff(a, b);
    if OnlyTag(a) && OnlyTag(b) {
      LinkedTagsIff(a, b);
    }
  }

  lemma OneLetterValid(c: char)
    requires c == 'a' || c == 'b'
    ensures Valid(Address(['+', c], "gmail.com"))
  {
    PlainIsLocal(['+', c]);
    GmailAddressIsValid(['+', c]);
  }

  lemma OneLetterTag(c: char)
    requires c == 'a' || c == 'b'
    ensures var x := Address(['+', c], "gmail.com");
            OnlyTag(x) && TagCore(x) == [c]
  {
    var x := Address(['+', c], "gmail.com");
    GmailIsLower();
    assert Lower(x.local) == x.local;
    DedotFixed(x.local);
    assert x.local[1..] == [c];
    CutTagFixed([c]);
  }

  /** Two mailboxes that the cache takes for one. */
  lemma PlusAPlusB()
    ensures var a, b := Address("+a", "gmail.com"), Address("+b", "gmail.com");
            Valid(a) && Valid(b) && KeyOf(a) == KeyOf(b) && !Linked(a, b)
  {
    assert "+a" == ['+', 'a'] && "+b" == ['+', 'b'];
    OneLetterValid('a');
    OneLetterValid('b');
    OneLetterTag('a');
    OneLetterTag('b');
    assert ['a'] != ['b'] by { assert ['a'][0] != ['b'][0]; }
    StrangersShareKeyIff(Address("+a", "gmail.com"), Address("+b", "gmail.com"));
  }
}
