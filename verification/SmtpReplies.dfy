/** How the builtin engine reads an SMTP reply (pkg/engine/builtin/classify.go). */
module SmtpReplies {
  import opened Text
  import opened Syntax
  import opened Verdicts
  import Egress

  /** What a reply says about the mailbox, and what it tells the egress pool. */
  datatype Reading = Reading(status: Status, sub: SubStatus, kind: Egress.Kind)

  const BLOCK_KEYWORDS := [
    "spam", "block", "blacklist", "blocklist", "denied", "reputation",
    "not allowed", "banned", "policy", "rejected due", "rbl", "dnsbl",
    "access denied", "unsolicited"]

  predicate Contains(s: string, t: string) {
    exists k | 0 <= k <= |s| :: t <= s[k..]
  }

  predicate Blocks(text: string) {
    exists i | 0 <= i < |BLOCK_KEYWORDS| :: Contains(Lower(text), BLOCK_KEYWORDS[i])
  }

  /** One string is found in another exactly if it stands somewhere in it. */
  lemma ContainsIff(s: string, t: string)
    ensures Contains(s, t) <==> exists front, back :: s == front + t + back
  {
    if Contains(s, t) {
      var k :| 0 <= k <= |s| && t <= s[k..];
      assert s == s[..k] + t + s[k + |t|..];
    }
    if exists front, back :: s == front + t + back {
      var front, back :| s == front + t + back;
      assert s[|front|..] == t + back;
    }
  }

  /** A text blocks exactly if some keyword stands in it, in any case. */
  lemma BlocksIff(text: string)
    ensures Blocks(text) <==>
            exists keyword, front, back :: keyword in BLOCK_KEYWORDS && Lower(text) == front + keyword + back
  {
    if Blocks(text) {
      var i :| 0 <= i < |BLOCK_KEYWORDS| && Contains(Lower(text), BLOCK_KEYWORDS[i]);
      ContainsIff(Lower(text), BLOCK_KEYWORDS[i]);
      var front, back :| Lower(text) == front + BLOCK_KEYWORDS[i] + back;
      assert BLOCK_KEYWORDS[i] in BLOCK_KEYWORDS;
    }
    if exists keyword, front, back :: keyword in BLOCK_KEYWORDS && Lower(text) == front + keyword + back {
      var keyword, front, back :| keyword in BLOCK_KEYWORDS && Lower(text) == front + keyword + back;
      ContainsIff(Lower(text), keyword);
      var i :| 0 <= i < |BLOCK_KEYWORDS| && BLOCK_KEYWORDS[i] == keyword;
      assert Contains(Lower(text), BLOCK_KEYWORDS[i]);
    }
  }

  method KeywordBlock(text: string) returns (found: bool)
    ensures found == Blocks(text)
  {
    var m := Lower(text);
    for i := 0 to |BLOCK_KEYWORDS|
      invariant forall j :: 0 <= j < i ==> !Contains(m, BLOCK_KEYWORDS[j])
    {
      if Contains(m, BLOCK_KEYWORDS[i]) {
        return true;
      }
    }
    return false;
  }

  // ---------------------------------------------------------------- enhanced status codes

  function UntilSpace(s: string): string {
    if s == "" || IsSpace(s[0]) then "" else [s[0]] + UntilSpace(s[1..])
  }

  /** The first white-space separated field, or "". */
  function FirstField(text: string): string {
    UntilSpace(TrimLeft(text))
  }

  predicate Digits(s: string) {
    s != "" && forall i :: 0 <= i < |s| ==> '0' <= s[i] <= '9'
  }

  /** A leading enhanced status code, or "". */
  function EnhancedStatus(text: string): string {
    var parts := Split(FirstField(text));
    if |parts| == 3 && (forall i :: 0 <= i < 3 ==> Digits(parts[i])) then FirstField(text) else ""
  }

  predicate IsPolicy(enhanced: string) {
    var parts := Split(enhanced);
    |parts| == 3 && parts[1] == "7"
  }

  function Read(code: int, text: string): Reading {
    if 200 <= code < 300 then Reading(Deliverable, ValidMailbox, Egress.Accepted)
    else if code == 552 then Reading(Risky, FullMailbox, Egress.Accepted)
    else if 400 <= code < 500 then
      if Blocks(text) then Reading(Unknown, BlockedUs, Egress.Blocked)
      else Reading(Unknown, Greylisted, Egress.TempFail)
    else if 500 <= code < 600 then
      if IsPolicy(EnhancedStatus(text)) || Blocks(text) then Reading(Unknown, BlockedUs, Egress.Blocked)
      else Reading(Undeliverable, MailboxNotFound, Egress.MailboxGone)
    else Reading(Unknown, TemporaryFailure, Egress.TempFail)
  }

  // ---------------------------------------------------------------- the grammar of a policy refusal

  /** 1*DIGIT. */
  ghost predicate Number(s: string) {
    s != "" && forall i :: 0 <= i < |s| ==> s[i] in "0123456789"
  }

  lemma DigitsIff(s: string)
    ensures Digits(s) <==> Number(s)
  {
    forall i | 0 <= i < |s|
      ensures '0' <= s[i] <= '9' <==> s[i] in "0123456789"
    {
      DigitIs(s[i]);
    }
  }

  lemma DigitIs(c: char)
    ensures '0' <= c <= '9' <==> c in "0123456789"
  {
    var all := "0123456789";
    if '0' <= c <= '9' {
      assert all[c as int - '0' as int] == c;
    }
  }

  ghost predicate Blank(s: string) {
    forall i :: 0 <= i < |s| ==> IsSpace(s[i])
  }

  ghost predicate Ends(tail: string) {
    tail == "" || IsSpace(tail[0])
  }

  /** Optional space, class "." "7" "." detail (section 2 of RFC 3463), then space or the end. */
  ghost predicate PolicyAs(text: string, lead: string, a: string, c: string, tail: string) {
    && Blank(lead) && Number(a) && Number(c) && Ends(tail)
    && text == lead + ((a + "." + ("7" + "." + c)) + tail)
  }

  ghost predicate PolicyShaped(text: string) {
    exists lead, a, c, tail :: PolicyAs(text, lead, a, c, tail)
  }

  lemma JoinThree(p: seq<string>)
    requires |p| == 3
    ensures JoinDots(p) == p[0] + "." + (p[1] + "." + p[2])
  {
    assert p[1..][1..] == [p[2]];
    assert JoinDots(p[1..]) == p[1] + "." + JoinDots(p[1..][1..]);
  }

  /** The first field is the first run of non-spaces, and nothing else is. */
  lemma {:induction false} FieldIs(lead: string, tok: string, tail: string)
    requires Blank(lead) && tok != "" && (forall i :: 0 <= i < |tok| ==> !IsSpace(tok[i])) && Ends(tail)
    ensures FirstField(lead + (tok + tail)) == tok
  {
    var text := lead + (tok + tail);
    if lead == "" {
      assert text == tok + tail;
      UntilSpaceIs(tok, tail);
    } else {
      assert text[1..] == lead[1..] + (tok + tail) && text[0] == lead[0];
      FieldIs(lead[1..], tok, tail);
    }
  }

  lemma {:induction false} UntilSpaceIs(tok: string, tail: string)
    requires (forall i :: 0 <= i < |tok| ==> !IsSpace(tok[i])) && Ends(tail)
    ensures UntilSpace(tok + tail) == tok
  {
    if tok == "" {
      assert tok + tail == tail;
    } else {
      assert (tok + tail)[1..] == tok[1..] + tail;
      UntilSpaceIs(tok[1..], tail);
    }
  }

  lemma {:induction false} FieldWithin(text: string) returns (lead: string, tail: string)
    ensures Blank(lead) && Ends(tail) && text == lead + (FirstField(text) + tail)
  {
    if text != "" && IsSpace(text[0]) {
      var l, t := FieldWithin(text[1..]);
      lead, tail := [text[0]] + l, t;
      assert text == [text[0]] + text[1..];
    } else {
      lead := "";
      tail := UntilSpaceWithin(text);
    }
  }

  lemma {:induction false} UntilSpaceWithin(s: string) returns (tail: string)
    ensures Ends(tail) && s == UntilSpace(s) + tail
  {
    if s == "" || IsSpace(s[0]) {
      tail := s;
    } else {
      tail := UntilSpaceWithin(s[1..]);
      assert s == [s[0]] + s[1..];
    }
  }

  lemma DigitsArePlain(s: string)
    requires Digits(s)
    ensures '.' !in s && forall i :: 0 <= i < |s| ==> !IsSpace(s[i])
  {
  }

  lemma ThreeParts(a: string, c: string)
    requires Digits(a) && Digits(c)
    ensures Split(a + "." + ("7" + "." + c)) == [a, "7", c]
  {
    DigitsArePlain(a);
    DigitsArePlain(c);
    SplitAtDot(a, "7" + "." + c);
    SplitAtDot("7", c);
    SplitWord(c);
  }

  /** The code recognises exactly the replies that open with an x.7.x enhanced status. */
  lemma PolicyIffShaped(text: string)
    ensures IsPolicy(EnhancedStatus(text)) <==> PolicyShaped(text)
  {
    if IsPolicy(EnhancedStatus(text)) {
      ShapedWhenPolicy(text);
    }
    if PolicyShaped(text) {
      var lead, a, c, tail :| PolicyAs(text, lead, a, c, tail);
      PolicyWhenShaped(text, lead, a, c, tail);
    }
  }

  lemma ShapedWhenPolicy(text: string)
    requires IsPolicy(EnhancedStatus(text))
    ensures PolicyShaped(text)
  {
    var tok := FirstField(text);
    var parts := Split(tok);
    SplitWord("");
    SplitJoins(tok);
    JoinThree(parts);
    var lead, tail := FieldWithin(text);
    DigitsIff(parts[0]);
    DigitsIff(parts[2]);
    assert PolicyAs(text, lead, parts[0], parts[2], tail);
  }

  lemma PolicyWhenShaped(text: string, lead: string, a: string, c: string, tail: string)
    requires PolicyAs(text, lead, a, c, tail)
    ensures IsPolicy(EnhancedStatus(text))
  {
    var tok := a + "." + ("7" + "." + c);
    DigitsIff(a);
    DigitsIff(c);
    DigitsArePlain(a);
    DigitsArePlain(c);
    FieldIs(lead, tok, tail);
    ThreeParts(a, c);
    assert Digits("7");
  }

  // ---------------------------------------------------------------- what a reply can mean

  /** A hard refusal that blames us rather than the mailbox. */
  ghost predicate BlamesUs(text: string) {
    PolicyShaped(text) || Blocks(text)
  }

  /**
   The reading of every reply: only a 2xx makes a mailbox live, only an unblaming 5xx other than 552
   makes it dead, and the pool hears a block exactly when the verdict is a block.
   */
  lemma ReadingLaws(code: int, text: string)
    ensures var r := Read(code, text);
            && (r.status == Deliverable <==> 200 <= code < 300)
            && (r.status == Undeliverable <==> 500 <= code < 600 && code != 552 && !BlamesUs(text))
            && (r.status == Risky <==> code == 552)
            && (r.sub == BlockedUs <==> (400 <= code < 500 && Blocks(text))
                                        || (500 <= code < 600 && code != 552 && BlamesUs(text)))
            && (r.sub == Greylisted <==> 400 <= code < 500 && !Blocks(text))
            && Agrees(r)
  {
    PolicyIffShaped(text);
  }

  /** The signal and the verdict tell one story. */
  predicate Agrees(r: Reading) {
    && r.kind != Egress.Timeout && r.kind != Egress.OtherKind
    && (r.kind == Egress.Blocked <==> r.status == Unknown && r.sub == BlockedUs)
    && (r.kind == Egress.MailboxGone <==> r.status == Undeliverable && r.sub == MailboxNotFound)
    && (r.kind == Egress.Accepted <==> r.status == Deliverable || r.status == Risky)
    && (r.kind == Egress.ConnRefused <==> r.status == Unknown && r.sub == NoConnect)
    && (r.kind == Egress.TempFail <==> r.status == Unknown && r.sub in {Greylisted, TemporaryFailure})
    && (r.status == Deliverable <==> r.sub == ValidMailbox)
    && (r.status == Risky <==> r.sub == FullMailbox || r.sub == CatchAll)
  }
}
