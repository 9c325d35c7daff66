/** The builtin probe engine (pkg/engine/builtin/builtin.go). Mail servers are oracles. */
module Engine {
  import opened Verdicts
  import opened SmtpReplies
  import opened Pipeline
  import Egress

  /** A server's answer to one command; the connection may be lost instead. */
  datatype Reply = Lost | Said(code: int, text: string)

  /** Everything one mail exchanger would answer during a probe. */
  datatype Session =
    | Unreachable
    | Session(greeting: Reply, ehlo: Reply, helo: Reply, mail: Reply, rcpt: Reply, stray: Reply)

  /** What a probe of one host concludes, before it is written up as a verdict. */
  datatype Finding = Finding(reading: Reading, code: int, catchAll: bool)

  const BLOCKED := Reading(Unknown, BlockedUs, Egress.Blocked)

  predicate Positive(r: Reply) {
    r.Said? && 200 <= r.code < 300
  }

  predicate Hears(r: Reply) {
    r.Said? && r.code < 400
  }

  /** The banner must be a 220; its reply code is kept when there is one. */
  predicate Greeted(s: Session)
    requires s.Session?
  {
    s.greeting.Said? && s.greeting.code == 220
  }

  predicate Hailed(s: Session)
    requires s.Session?
  {
    Hears(s.ehlo) || Hears(s.helo)
  }

  function Found(detect: bool, s: Session): Finding
    requires s.Session?
  {
    if !Greeted(s) then Finding(BLOCKED, if s.greeting.Said? then s.greeting.code else 0, false)
    else if !Hailed(s) then Finding(BLOCKED, 0, false)
    else if s.mail.Lost? then Finding(Read(0, "mail from io error"), 0, false)
    else if !Positive(s.mail) then Finding(Read(s.mail.code, s.mail.text), s.mail.code, false)
    else if s.rcpt.Lost? then Finding(Reading(Unknown, TemporaryFailure, Egress.TempFail), 0, false)
    else
      var reading := Read(s.rcpt.code, s.rcpt.text);
      if reading.status == Deliverable && detect && Positive(s.stray)
      then Finding(reading.(status := Risky, sub := CatchAll), s.rcpt.code, true)
      else Finding(reading, s.rcpt.code, false)
  }

  const NO_HOST := Finding(Reading(Unknown, NoConnect, Egress.ConnRefused), 0, false)

  function Reported(t: Task, egressId: string, f: Finding, now: int): Verdict {
    Verdict(t.email, if t.normalized != "" then t.normalized else t.email, f.reading.status, f.reading.sub,
            NoChecks.(catchAll := f.catchAll, smtpCode := f.code), t.provider, egressId, false, now)
  }

  function Signals(t: Task, egressId: string, f: Finding): seq<Egress.Signal> {
    [Egress.Signal(f.reading.kind, egressId, if t.provider != "" then t.provider else t.domain)]
  }

  /** The first host that can be reached, in the resolver's order; |hosts| when none can. */
  function FirstUp(net: string -> Session, hosts: seq<string>): (k: nat)
    ensures k <= |hosts| && (k < |hosts| ==> net(hosts[k]).Session?)
    ensures forall i :: 0 <= i < k ==> net(hosts[i]).Unreachable?
  {
    if hosts == [] || net(hosts[0]).Session? then 0 else 1 + FirstUp(net, hosts[1..])
  }

  /** Only the first reachable host is believed. */
  function FoundBy(detect: bool, net: string -> Session, hosts: seq<string>): Finding {
    var k := FirstUp(net, hosts);
    if k < |hosts| then Found(detect, net(hosts[k])) else NO_HOST
  }

  /** The command sequence against one host, in the order the commands are sent. */
  method ProbeHost(detect: bool, s: Session) returns (f: Finding, connected: bool)
    ensures connected == s.Session?
    ensures connected ==> f == Found(detect, s) && Tells(detect, s, f.reading)
  {
    if s.Session? {
      FoundExactly(detect, s);
    }
    if s.Unreachable? {
      return NO_HOST, false;
    }
    if s.greeting.Lost? || s.greeting.code != 220 {
      return Finding(BLOCKED, if s.greeting.Said? then s.greeting.code else 0, false), true;
    }
    var hailed := Hears(s.ehlo);
    if !hailed {
      hailed := Hears(s.helo);
    }
    if !hailed {
      return Finding(BLOCKED, 0, false), true;
    }
    var code, text := 0, "mail from io error";
    if s.mail.Said? {
      code, text := s.mail.code, s.mail.text;
    }
    if !(200 <= code < 300) {
      return Finding(Read(code, text), code, false), true;
    }
    if s.rcpt.Lost? {
      return Finding(Reading(Unknown, TemporaryFailure, Egress.TempFail), 0, false), true;
    }
    var reading, catchAll := Read(s.rcpt.code, s.rcpt.text), false;
    if reading.status == Deliverable && detect {
      catchAll := Positive(s.stray);
      if catchAll {
        reading := reading.(status := Risky, sub := CatchAll);
      }
    }
    return Finding(reading, s.rcpt.code, catchAll), true;
  }

  method Verify(detect: bool, net: string -> Session, t: Task, egressId: string, now: int)
    returns (v: Verdict, signals: seq<Egress.Signal>)
    ensures v == Reported(t, egressId, FoundBy(detect, net, t.mx), now)
    ensures signals == Signals(t, egressId, FoundBy(detect, net, t.mx))
    ensures |signals| == 1 && signals[0].egressId == v.egressId == egressId
    ensures var k := FirstUp(net, t.mx);
            if k < |t.mx| then Tells(detect, net(t.mx[k]), Reading(v.status, v.subStatus, signals[0].kind))
            else v.status == Unknown && v.subStatus == NoConnect && signals[0].kind == Egress.ConnRefused
  {
    for i := 0 to |t.mx|
      invariant forall j :: 0 <= j < i ==> net(t.mx[j]).Unreachable?
    {
      var f, connected := ProbeHost(detect, net(t.mx[i]));
      if connected {
        assert FirstUp(net, t.mx) == i;
        return Reported(t, egressId, f, now), Signals(t, egressId, f);
      }
    }
    assert FirstUp(net, t.mx) == |t.mx|;
    return Reported(t, egressId, NO_HOST, now), Signals(t, egressId, NO_HOST);
  }

  // ---------------------------------------------------------------- what a conversation comes to

  /** The reply's class is the first digit of its code (section 4.2.1 of RFC 5321). */
  ghost predicate Says(r: Reply, digit: int) {
    r.Said? && r.code / 100 == digit
  }

  /** The host greets with a 220 and takes one of the two hellos. */
  ghost predicate Envelope(s: Session) {
    && s.Session? && s.greeting.Said? && s.greeting.code == 220
    && ((s.ehlo.Said? && s.ehlo.code / 100 < 4) || (s.helo.Said? && s.helo.code / 100 < 4))
  }

  /** The reply that decides is the sender's, if that is not taken, and otherwise the recipient's. */
  ghost function Decisive(s: Session): Reply
    requires s.Session?
  {
    if Says(s.mail, 2) then s.rcpt else s.mail
  }

  /** A reply that the engine takes as proof that the mailbox is missing. */
  ghost predicate Condemns(r: Reply) {
    Says(r, 5) && r.code != 552 && !BlamesUs(r.text)
  }

  /** A reply that holds something against us. */
  ghost predicate Blames(r: Reply) {
    (Says(r, 4) && Blocks(r.text)) || (Says(r, 5) && r.code != 552 && BlamesUs(r.text))
  }

  /** The conversation in which a host takes the recipient, and no stranger. */
  ghost predicate Welcomes(detect: bool, s: Session) {
    Envelope(s) && Says(s.mail, 2) && Says(s.rcpt, 2) && (detect ==> !Says(s.stray, 2))
  }

  /** The host takes the recipient, and a stranger as well. */
  ghost predicate TakesAnyone(detect: bool, s: Session) {
    Envelope(s) && Says(s.mail, 2) && Says(s.rcpt, 2) && detect && Says(s.stray, 2)
  }

  /** The conversations in which a host disowns the recipient, or the sender before any recipient is named. */
  ghost predicate Disowns(s: Session) {
    Envelope(s) && Condemns(Decisive(s))
  }

  /** The conversations in which a host turns us away: at the door, or with a reply that blames us. */
  ghost predicate TurnsUsAway(s: Session) {
    s.Session? && (!Envelope(s) || Blames(Decisive(s)))
  }

  ghost predicate Overflows(s: Session) {
    Envelope(s) && Decisive(s).Said? && Decisive(s).code == 552
  }

  ghost predicate PutsOff(s: Session) {
    Envelope(s) && Says(Decisive(s), 4) && !Blocks(Decisive(s).text)
  }

  /** The connection breaks at the decisive reply, or that reply is of no class that decides. */
  ghost predicate Trails(s: Session) {
    Envelope(s) && !Says(Decisive(s), 2) && !Says(Decisive(s), 4) && !Says(Decisive(s), 5)
  }

  lemma Classes(r: Reply)
    requires r.Said?
    ensures (Says(r, 2) <==> 200 <= r.code < 300) && (Says(r, 4) <==> 400 <= r.code < 500)
    ensures (Says(r, 5) <==> 500 <= r.code < 600) && (r.code / 100 < 4 <==> r.code < 400)
  {
  }

  lemma EnvelopeIff(s: Session)
    requires s.Session?
    ensures Envelope(s) <==> Greeted(s) && Hailed(s)
  {
  }

  /** The reading of a single decisive reply. */
  lemma ReadExactly(r: Reply)
    requires r.Said?
    ensures var x := Read(r.code, r.text);
            && (Says(r, 2) ==> x == Reading(Deliverable, ValidMailbox, Egress.Accepted))
            && (r.code == 552 ==> x == Reading(Risky, FullMailbox, Egress.Accepted))
            && (Condemns(r) ==> x == Reading(Undeliverable, MailboxNotFound, Egress.MailboxGone))
            && (Blames(r) ==> x == Reading(Unknown, BlockedUs, Egress.Blocked))
            && (Says(r, 4) && !Blocks(r.text) ==> x == Reading(Unknown, Greylisted, Egress.TempFail))
            && (!Says(r, 2) && !Says(r, 4) && !Says(r, 5) ==> x == Reading(Unknown, TemporaryFailure, Egress.TempFail))
  {
    Classes(r);
    ReadingLaws(r.code, r.text);
  }

  /** What each kind of conversation comes to: the verdict, its reason, and what the pool hears. */
  ghost predicate Tells(detect: bool, s: Session, x: Reading) {
    && (Welcomes(detect, s) ==> x == Reading(Deliverable, ValidMailbox, Egress.Accepted))
    && (TakesAnyone(detect, s) ==> x == Reading(Risky, CatchAll, Egress.Accepted))
    && (Overflows(s) ==> x == Reading(Risky, FullMailbox, Egress.Accepted))
    && (Disowns(s) ==> x == Reading(Undeliverable, MailboxNotFound, Egress.MailboxGone))
    && (TurnsUsAway(s) ==> x == Reading(Unknown, BlockedUs, Egress.Blocked))
    && (PutsOff(s) ==> x == Reading(Unknown, Greylisted, Egress.TempFail))
    && (Trails(s) ==> x == Reading(Unknown, TemporaryFailure, Egress.TempFail))
  }

  lemma FoundExactly(detect: bool, s: Session)
    requires s.Session?
    ensures Tells(detect, s, Found(detect, s).reading)
  {
    EnvelopeIff(s);
    if Envelope(s) {
      if s.mail.Said? {
        Classes(s.mail);
        ReadExactly(s.mail);
      }
      if s.rcpt.Said? {
        ReadExactly(s.rcpt);
      }
      if s.stray.Said? {
        Classes(s.stray);
      }
    }
  }

  /** Every conversation is of one of these kinds. */
  lemma ConversationsAreCovered(detect: bool, s: Session)
    requires s.Session?
    ensures || Welcomes(detect, s) || TakesAnyone(detect, s) || Overflows(s) || Disowns(s) || TurnsUsAway(s)
            || PutsOff(s) || Trails(s)
  {
  }

  /**
   The verdict on a mailbox, and what the pool hears of the probe, are decided by the conversation
   with the first reachable host: each of the seven kinds of conversation gives its own, and only
   that one. Hosts behind the first reachable one have no say, and with none the mailbox is unreached.
   */
  lemma StatusIff(detect: bool, net: string -> Session, hosts: seq<string>)
    ensures var k, x := FirstUp(net, hosts), FoundBy(detect, net, hosts).reading;
            && (x == Reading(Unknown, NoConnect, Egress.ConnRefused) <==>
                forall i :: 0 <= i < |hosts| ==> net(hosts[i]).Unreachable?)
            && (k == |hosts| ==>
                  FoundBy(detect, net, hosts) == Finding(Reading(Unknown, NoConnect, Egress.ConnRefused), 0, false))
            && (k < |hosts| ==>
                  var s := net(hosts[k]);
                  && (x == Reading(Deliverable, ValidMailbox, Egress.Accepted) <==> Welcomes(detect, s))
                  && (x == Reading(Risky, CatchAll, Egress.Accepted) <==> TakesAnyone(detect, s))
                  && (x == Reading(Risky, FullMailbox, Egress.Accepted) <==> Overflows(s))
                  && (x == Reading(Undeliverable, MailboxNotFound, Egress.MailboxGone) <==> Disowns(s))
                  && (x == Reading(Unknown, BlockedUs, Egress.Blocked) <==> TurnsUsAway(s))
                  && (x == Reading(Unknown, Greylisted, Egress.TempFail) <==> PutsOff(s))
                  && (x == Reading(Unknown, TemporaryFailure, Egress.TempFail) <==> Trails(s)))
  {
    var k := FirstUp(net, hosts);
    if k < |hosts| {
      FoundExactly(detect, net(hosts[k]));
      ConversationsAreCovered(detect, net(hosts[k]));
    }
  }

  /** The reply code that is kept is the decisive one; a mailbox is marked catch-all with its verdict. */
  lemma FoundDetails(detect: bool, s: Session)
    requires s.Session?
    ensures var f := Found(detect, s);
            && (f.catchAll <==> TakesAnyone(detect, s))
            && (Envelope(s) ==> f.code == if Decisive(s).Said? then Decisive(s).code else 0)
            && (!Envelope(s) && s.greeting.Said? && s.greeting.code != 220 ==> f.code == s.greeting.code)
            && (!Envelope(s) && (s.greeting.Lost? || s.greeting.code == 220) ==> f.code == 0)
  {
    EnvelopeIff(s);
    FoundExactly(detect, s);
    ConversationsAreCovered(detect, s);
    if s.mail.Said? {
      Classes(s.mail);
    }
  }

  /** One signal per probe, about the identity it went through, and it tells the same story as the verdict. */
  lemma OneHonestSignal(detect: bool, net: string -> Session, t: Task, egressId: string, now: int)
    ensures var f := FoundBy(detect, net, t.mx);
            var v, signals := Reported(t, egressId, f, now), Signals(t, egressId, f);
            && |signals| == 1 && signals[0].egressId == egressId && v.egressId == egressId
            && f.reading == Reading(v.status, v.subStatus, signals[0].kind) && Agrees(f.reading)
  {
    StatusIff(detect, net, t.mx);
    var k := FirstUp(net, t.mx);
    if k < |t.mx| {
      ConversationsAreCovered(detect, net(t.mx[k]));
    }
  }

  /**
   So "undeliverable" is the recipient's fault exactly when the sender was accepted: a host that
   refuses our sender outright condemns every mailbox behind it, whatever it would say of the recipient.
   */
  lemma DeadMailboxWasNamedIff(detect: bool, net: string -> Session, hosts: seq<string>)
    requires FoundBy(detect, net, hosts).reading.status == Undeliverable
    ensures var s := net(hosts[FirstUp(net, hosts)]);
            Says(s.mail, 2) && Condemns(s.rcpt) <==> !Condemns(s.mail)
  {
    StatusIff(detect, net, hosts);
    var k := FirstUp(net, hosts);
    if k < |hosts| {
      ConversationsAreCovered(detect, net(hosts[k]));
    }
  }

  /** A concrete host that would accept the recipient, yet makes the mailbox "not found". */
  lemma SenderRefusalCondemns(t: Task, host: string)
    requires t.mx == [host]
    ensures exists net: string -> Session ::
              && net(host).Session? && Says(net(host).rcpt, 2)
              && FoundBy(true, net, t.mx).reading == Reading(Undeliverable, MailboxNotFound, Egress.MailboxGone)
  {
    var s := Session(Said(220, ""), Said(250, ""), Said(250, ""), Said(550, ""), Said(250, ""), Said(550, ""));
    var net := (h: string) => s;
    NothingBlames();
    ReadingLaws(550, "");
    assert FirstUp(net, t.mx) == 0;
    assert net(host) == s;
    ReadingLaws(250, "");
    assert FoundBy(true, net, t.mx).reading == Read(550, "");
  }

  lemma NothingBlames()
    ensures !BlamesUs("")
  {
    PolicyIffShaped("");
    forall i | 0 <= i < |BLOCK_KEYWORDS|
      ensures !Contains("", BLOCK_KEYWORDS[i])
    {
    }
  }
}
