/**
 The addresses that are accepted, as a grammar: a dot-atom (section 3.2.3 of RFC 5322), an '@', and a
 host name of letter-digit-hyphen labels (section 2.3.1 of RFC 1035, as relaxed by section 2.1 of RFC
 1123) with an alphabetic top-level domain, within the size limits.
 */
module AddressGrammar {
  import opened Common
  import opened Syntax

  ghost predicate Letter(c: char) {
    c in LOWERS || c in UPPERS
  }

  ghost predicate LetDig(c: char) {
    Letter(c) || c in DIGITS
  }

  lemma LetDigIs(c: char)
    ensures (Alpha(c) <==> Letter(c)) && (Alnum(c) <==> LetDig(c))
  {
    RunIs(LOWERS, 'a', c);
    RunIs(UPPERS, 'A', c);
    RunIs(DIGITS, '0', c);
  }

  /** let-dig [ 0*61(let-dig / "-") let-dig ] */
  ghost predicate Label(s: string) {
    && s != "" && LetDig(s[0])
    && (|s| > 1 ==>
          && LetDig(s[|s| - 1]) && |s[1..|s| - 1]| <= 61
          && forall i :: 1 <= i < |s| - 1 ==> LetDig(s[i]) || s[i] == '-')
  }

  /** 2*letter */
  ghost predicate Word(s: string) {
    |s| >= 2 && forall i :: 0 <= i < |s| ==> Letter(s[i])
  }

  ghost predicate Labels(labels: seq<string>) {
    && |labels| >= 2 && (forall i :: 0 <= i < |labels| ==> Label(labels[i]))
    && Word(labels[|labels| - 1])
  }

  /** 1*(label ".") top-level-domain */
  ghost predicate HostName(d: string) {
    exists labels :: Labels(labels) && JoinDots(labels) == d
  }

  /** The recogniser's shape of a label, piece by piece. */
  lemma LabelShape(s: string)
    ensures ValidLabel(s) <==>
            && s != "" && Alnum(s[0])
            && (|s| > 1 ==>
                  && Alnum(s[|s| - 1]) && |s| <= 63
                  && forall i :: 1 <= i < |s| - 1 ==> Alnum(s[i]) || s[i] == '-')
  {
  }

  lemma LabelIff(s: string)
    ensures ValidLabel(s) <==> Label(s)
  {
    LabelShape(s);
    if s != "" {
      LetDigIs(s[0]);
      LetDigIs(s[|s| - 1]);
      MiddleIff(s);
    }
  }

  lemma MiddleIff(s: string)
    ensures (forall i :: 1 <= i < |s| - 1 ==> Alnum(s[i]) || s[i] == '-') <==>
            (forall i :: 1 <= i < |s| - 1 ==> LetDig(s[i]) || s[i] == '-')
  {
    forall i | 1 <= i < |s| - 1
      ensures Alnum(s[i]) <==> LetDig(s[i])
    {
      LetDigIs(s[i]);
    }
  }

  lemma WordIff(s: string)
    ensures |s| >= 2 && AllAlpha(s) <==> Word(s)
  {
    forall i | 0 <= i < |s|
      ensures Alpha(s[i]) <==> Letter(s[i])
    {
      LetDigIs(s[i]);
    }
  }

  lemma LabelsIff(labels: seq<string>)
    ensures ValidLabels(labels) <==> Labels(labels)
  {
    forall i | 0 <= i < |labels|
      ensures ValidLabel(labels[i]) <==> Label(labels[i])
    {
      LabelIff(labels[i]);
    }
    if labels != [] {
      WordIff(labels[|labels| - 1]);
    }
  }

  /** Splitting undoes joining, when no piece has a dot in it. */
  lemma {:induction false} JoinSplits(parts: seq<string>)
    requires parts != [] && forall i :: 0 <= i < |parts| ==> '.' !in parts[i]
    ensures Split(JoinDots(parts)) == parts
  {
    if |parts| == 1 {
      SplitWord(parts[0]);
    } else {
      JoinSplits(parts[1..]);
      SplitAtDot(parts[0], JoinDots(parts[1..]));
    }
  }

  lemma {:induction false} JoinEnds(parts: seq<string>)
    requires parts != [] && forall i :: 0 <= i < |parts| ==> parts[i] != ""
    ensures var d, last := JoinDots(parts), parts[|parts| - 1];
            d != "" && d[0] == parts[0][0] && d[|d| - 1] == last[|last| - 1]
  {
    if |parts| > 1 {
      JoinEnds(parts[1..]);
    }
  }

  lemma LabelHasNoDot(s: string)
    requires ValidLabel(s)
    ensures '.' !in s && s != "" && s[0] != '.' && s[|s| - 1] != '.'
  {
  }

  /** The recogniser of domains accepts exactly the grammar's host names. */
  lemma HostNameIff(d: string)
    ensures ValidDomain(d) <==> HostName(d)
  {
    if ValidDomain(d) {
      LabelsIff(Split(d));
      SplitJoins(d);
    }
    if HostName(d) {
      var labels :| Labels(labels) && JoinDots(labels) == d;
      LabelsIff(labels);
      forall i | 0 <= i < |labels|
        ensures '.' !in labels[i] && labels[i] != "" && labels[i][0] != '.' && labels[i][|labels[i]| - 1] != '.'
      {
        LabelHasNoDot(labels[i]);
      }
      JoinSplits(labels);
      JoinEnds(labels);
    }
  }

  /** The grammar and the limits: 64 characters before the '@', and 254 in all. */
  ghost predicate IsAddress(s: string, a: Address) {
    && s == a.local + "@" + a.domain && DotAtom(a.local) && HostName(a.domain)
    && |a.local| <= 64 && |s| <= 254
  }

  /** An input is taken as an address exactly if the grammar derives it, and is taken apart as it does. */
  lemma AddressIff(s: string, a: Address)
    ensures SplitAndValidate(s) == Some(a) <==> IsAddress(s, a)
  {
    ValidLocalIffDotAtom(a.local);
    HostNameIff(a.domain);
    if SplitAndValidate(s) == Some(a) {
      WrittenSplit(s);
    }
    if IsAddress(s, a) {
      SplitWritten(a);
    }
  }

  /** So no input is two addresses, and one that the grammar does not derive is rejected. */
  lemma RejectedIff(s: string)
    ensures SplitAndValidate(s).None? <==> !exists a :: IsAddress(s, a)
  {
    if SplitAndValidate(s).Some? {
      AddressIff(s, SplitAndValidate(s).value);
    } else {
      forall a
        ensures !IsAddress(s, a)
      {
        AddressIff(s, a);
      }
    }
  }
}
