/** Sending one mail to every configured recipient, with retries
    (internal/mail/mail.go, lines 85-150), over an arbitrary transport. */
module Mail {
  import opened Basics

  /** What one DialAndSendWithContext call comes to. */
  datatype Outcome = Delivered | Cancelled | Failed

  datatype SendError = NoContent | BadFrom | BadRecipient | WasCancelled | Exhausted(last: Option<Outcome>)

  /** The two bodies of a mail; an empty one is not set on the message. */
  datatype Content = Content(text: string, html: string)

  /** One dial: the position of the recipient it is for, what it carries, and
      its outcome. */
  datatype Dial = Dial(recipient: nat, content: Content, outcome: Outcome)

  function Deliveries(log: seq<Dial>): nat {
    if log == [] then 0 else Deliveries(log[..|log| - 1]) + if log[|log| - 1].outcome.Delivered? then 1 else 0
  }

  function DialsFor(log: seq<Dial>, recipient: nat): nat {
    if log == [] then 0
    else DialsFor(log[..|log| - 1], recipient) + if log[|log| - 1].recipient == recipient then 1 else 0
  }

  function AtMost(retries: int): nat { if retries > 0 then retries else 0 }

  /** The rules every log of dials keeps: a dial goes to the first recipient
      not yet served, nothing follows a cancelled dial, and no recipient is
      dialled more often than there are tries. */
  ghost predicate Orderly(log: seq<Dial>, retries: int) {
    && (forall i :: 0 <= i < |log| ==> log[i].recipient == Deliveries(log[..i]))
    && (forall i :: 0 <= i < |log| - 1 ==> !log[i].outcome.Cancelled?)
    && (forall r: nat :: DialsFor(log, r) <= AtMost(retries))
  }

  /** How the log of a whole sending explains its result. */
  predicate Explains(log: seq<Dial>, recipients: nat, retries: int, err: Option<SendError>) {
    var n := Deliveries(log);
    && n <= recipients
    && (err.None? <==> n == recipients)
    && (log != [] && log[|log| - 1].outcome.Cancelled? <==> err == Some(WasCancelled))
    && match err
       case Some(Exhausted(last)) =>
         && DialsFor(log, n) == AtMost(retries)
         && last == if AtMost(retries) == 0 then None else Some(Failed)
       case Some(WasCancelled) => true
       case Some(_) => DialsFor(log, n) == 0
       case None => DialsFor(log, n) == 0
  }

  /** Between dials: `recipient` is next and has had `tries` dials. */
  ghost predicate Midway(log: seq<Dial>, recipient: nat, tries: nat, retries: int) {
    && Orderly(log, retries) && Deliveries(log) == recipient && DialsFor(log, recipient) == tries
    && (log != [] ==> !log[|log| - 1].outcome.Cancelled?)
  }

  /** The log grew by dials of one content with the transport's own outcomes. */
  predicate Grew(before: seq<Dial>, log: seq<Dial>, content: Content, transport: nat -> Outcome) {
    before <= log && forall i :: |before| <= i < |log| ==> log[i].content == content && log[i].outcome == transport(i)
  }

  /** How the dials for one recipient explain the result of send. */
  ghost predicate Answers(before: seq<Dial>, log: seq<Dial>, recipient: nat, retries: int, err: Option<SendError>) {
    match err
    case None => Orderly(log, retries) && Deliveries(log) == recipient + 1 && log[|log| - 1].outcome.Delivered?
    case Some(WasCancelled) =>
      && Orderly(log, retries) && Deliveries(log) == recipient
      && log != [] && log[|log| - 1].outcome.Cancelled?
    case Some(Exhausted(last)) =>
      Midway(log, recipient, AtMost(retries), retries) && last == if AtMost(retries) == 0 then None else Some(Failed)
    case Some(_) => log == before
  }

  /** Inside the retry loop, after `tries` failed dials. */
  ghost predicate Retrying(before: seq<Dial>, log: seq<Dial>, recipient: nat, tries: nat, retries: int,
                           last: Option<Outcome>, content: Content, transport: nat -> Outcome) {
    && Grew(before, log, content, transport) && Midway(log, recipient, tries, retries)
    && last == if tries == 0 then None else Some(Failed)
  }

  /** How a call of send ends. */
  ghost predicate Ends(before: seq<Dial>, log: seq<Dial>, recipient: nat, retries: int,
                       err: Option<SendError>, content: Content, transport: nat -> Outcome) {
    Grew(before, log, content, transport) && Answers(before, log, recipient, retries, err)
  }

  class Mailer {
    const to: seq<string>
    const retries: int
    const fromIsValid: bool
    const isAddress: string -> bool
    const transport: nat -> Outcome  // the outcome of the k-th dial of a sending
    var dials: seq<Dial>

    constructor (to: seq<string>, retries: int, fromIsValid: bool, isAddress: string -> bool, transport: nat -> Outcome)
      ensures this.to == to && this.retries == retries && this.fromIsValid == fromIsValid
      ensures this.isAddress == isAddress && this.transport == transport && dials == []
    {
      this.to, this.retries, this.fromIsValid := to, retries, fromIsValid;
      this.isAddress, this.transport, this.dials := isAddress, transport, [];
    }

    /** The checks made before anything is dialled. */
    function Prepare(address: string, content: Content): Option<SendError> {
      if content.text == "" && content.html == "" then Some(NoContent)
      else if !fromIsValid then Some(BadFrom)
      else if !isAddress(address) then Some(BadRecipient)
      else None
    }

    /** A mail without any body, a bad sender and a bad recipient are reported, in
        this order; otherwise the result is the retry loop's. */
    predicate FollowsChecks(recipient: nat, content: Content, err: Option<SendError>)
      requires recipient < |to|
    {
      && (err == Some(NoContent) <==> content.text == "" && content.html == "")
      && (err == Some(BadFrom) <==> (content.text != "" || content.html != "") && !fromIsValid)
      && (err == Some(BadRecipient) <==>
            (content.text != "" || content.html != "") && fromIsValid && !isAddress(to[recipient]))
    }

    method Send(recipient: nat, content: Content) returns (err: Option<SendError>)
      requires recipient < |to| && Midway(dials, recipient, 0, retries)
      modifies this`dials
      ensures Ends(old(dials), dials, recipient, retries, err, content, transport)
      ensures FollowsChecks(recipient, content, err)
    {
      err := Prepare(to[recipient], content);
      if err.None? { err := Retry(recipient, content); }
    }

    /** The retry loop of send. */
    method Retry(recipient: nat, content: Content) returns (err: Option<SendError>)
      requires Midway(dials, recipient, 0, retries)
      modifies this`dials
      ensures Ends(old(dials), dials, recipient, retries, err, content, transport)
      ensures err.None? || err.value.WasCancelled? || err.value.Exhausted?
    {
      var last := None;
      var i := 1;
      while i <= retries
        invariant 1 <= i && i - 1 <= AtMost(retries)
        invariant Retrying(old(dials), dials, recipient, i - 1, retries, last, content, transport)
        decreases retries - i
      {
        var dial := Dial(recipient, content, transport(|dials|));
        Redial(old(dials), dials, dial, i - 1, retries, last, transport);
        dials := dials + [dial];
        if dial.outcome.Delivered? { return None; }
        if dial.outcome.Cancelled? { return Some(WasCancelled); }
        last := Some(dial.outcome);
        i := i + 1;
      }
      err := Some(Exhausted(last));
    }

    /** The log and the result of a whole sending of one content. */
    ghost predicate Accounts(content: Content, err: Option<SendError>)
      reads this
    {
      && Orderly(dials, retries) && Explains(dials, |to|, retries, err)
      && Grew([], dials, content, transport)
      && (err.Some? ==> FollowsChecks(Deliveries(dials), content, err))
    }

    /** The recipient loop of the three exported methods; `dials` becomes the
        log of this sending. */
    method SendToAll(content: Content) returns (err: Option<SendError>)
      modifies this`dials
      ensures Accounts(content, err)
    {
      dials := [];
      var k := 0;
      while k < |to|
        invariant 0 <= k <= |to|
        invariant Midway(dials, k, 0, retries)
        invariant Grew([], dials, content, transport)
      {
        ghost var before := dials;
        err := Send(k, content);
        if err.Some? {
          Stopped(before, dials, k, |to|, retries, err);
          return;
        }
        k := k + 1;
        NotYetDialled(dials, k);
      }
      err := None;
    }

    method SendHTMLEmail(body: string) returns (err: Option<SendError>)
      modifies this`dials
      ensures Accounts(Content("", body), err)
    {
      err := SendToAll(Content("", body));
    }

    method SendTXTEmail(body: string) returns (err: Option<SendError>)
      modifies this`dials
      ensures Accounts(Content(body, ""), err)
    {
      err := SendToAll(Content(body, ""));
    }

    method SendMultipartEmail(textBody: string, htmlBody: string) returns (err: Option<SendError>)
      modifies this`dials
      ensures Accounts(Content(textBody, htmlBody), err)
    {
      err := SendToAll(Content(textBody, htmlBody));
    }
  }

  /** One more dial to the recipient in turn keeps the log orderly. */
  lemma OrderlyExtend(log: seq<Dial>, d: Dial, retries: int)
    requires Orderly(log, retries)
    requires d.recipient == Deliveries(log) && DialsFor(log, d.recipient) < AtMost(retries)
    requires log != [] ==> !log[|log| - 1].outcome.Cancelled?
    ensures Orderly(log + [d], retries)
  {
    var l := log + [d];
    assert l[..|log|] == log;
    forall i | 0 <= i < |l| ensures l[i].recipient == Deliveries(l[..i]) {
      if i < |log| { assert l[..i] == log[..i]; }
    }
    forall r: nat ensures DialsFor(l, r) <= AtMost(retries) {}
  }

  lemma CountsExtend(log: seq<Dial>, d: Dial)
    ensures Deliveries(log + [d]) == Deliveries(log) + if d.outcome.Delivered? then 1 else 0
    ensures DialsFor(log + [d], d.recipient) == DialsFor(log, d.recipient) + 1
  {
    assert (log + [d])[..|log|] == log;
  }

  /** What one more dial means for the call of send it belongs to. */
  lemma Redial(before: seq<Dial>, log: seq<Dial>, d: Dial, tries: nat, retries: int,
               last: Option<Outcome>, transport: nat -> Outcome)
    requires Retrying(before, log, d.recipient, tries, retries, last, d.content, transport) && tries < AtMost(retries)
    requires d.outcome == transport(|log|)
    ensures match d.outcome
            case Delivered => Ends(before, log + [d], d.recipient, retries, None, d.content, transport)
            case Cancelled => Ends(before, log + [d], d.recipient, retries, Some(WasCancelled), d.content, transport)
            case Failed =>
              Retrying(before, log + [d], d.recipient, tries + 1, retries, Some(Failed), d.content, transport)
  {
    OrderlyExtend(log, d, retries);
    CountsExtend(log, d);
    var l := log + [d];
    assert l[|l| - 1] == d;
    assert Grew(before, l, d.content, transport);
  }

  /** A sending that stops at recipient k is explained by its log. */
  lemma Stopped(before: seq<Dial>, log: seq<Dial>, k: nat, recipients: nat, retries: int, err: Option<SendError>)
    requires Midway(before, k, 0, retries) && k < recipients && err.Some?
    requires Answers(before, log, k, retries, err)
    ensures Deliveries(log) == k
    ensures Orderly(log, retries) && Explains(log, recipients, retries, err)
  {
  }

  /** Nobody past the recipients already served has been dialled. */
  lemma {:induction false} NotYetDialled(log: seq<Dial>, r: nat)
    requires forall i :: 0 <= i < |log| ==> log[i].recipient == Deliveries(log[..i])
    requires r >= Deliveries(log)
    requires log != [] && r == Deliveries(log) ==> log[|log| - 1].outcome.Delivered?
    ensures DialsFor(log, r) == 0
  {
    if log == [] {
    } else {
      var front := log[..|log| - 1];
      assert forall i :: 0 <= i < |front| ==> front[i] == log[i] && front[..i] == log[..i];
      assert log[|log| - 1].recipient == Deliveries(front) < r;
      NotYetDialled(front, r);
    }
  }

  /** The recipients of the successful dials, in order. */
  function Served(log: seq<Dial>): seq<nat> {
    if log == [] then []
    else Served(log[..|log| - 1]) + if log[|log| - 1].outcome.Delivered? then [log[|log| - 1].recipient] else []
  }

  /** The served recipients are a prefix of the list, each served once. */
  lemma {:induction false} ServedIsPrefix(log: seq<Dial>, retries: int)
    requires Orderly(log, retries)
    ensures |Served(log)| == Deliveries(log)
    ensures forall i :: 0 <= i < |Served(log)| ==> Served(log)[i] == i
  {
    if log == [] {
    } else {
      var front := log[..|log| - 1];
      assert forall i :: 0 <= i < |front| ==> front[i] == log[i] && front[..i] == log[..i];
      FrontIsOrderly(log, retries);
      ServedIsPrefix(front, retries);
    }
  }

  lemma FrontIsOrderly(log: seq<Dial>, retries: int)
    requires Orderly(log, retries) && log != []
    ensures Orderly(log[..|log| - 1], retries)
  {
    var front := log[..|log| - 1];
    assert forall i :: 0 <= i < |front| ==> front[i] == log[i] && front[..i] == log[..i];
    forall r: nat ensures DialsFor(front, r) <= AtMost(retries) {
      assert DialsFor(log, r) <= AtMost(retries);
    }
  }

  /** Nothing is dialled for anyone behind the recipient that stopped the
      sending, and nothing at all when no tries are configured. */
  lemma NobodyBehind(log: seq<Dial>, retries: int, recipients: nat, err: Option<SendError>, r: nat)
    requires Orderly(log, retries) && Explains(log, recipients, retries, err)
    ensures r > Deliveries(log) ==> DialsFor(log, r) == 0
    ensures retries <= 0 ==> log == [] && (err.None? <==> recipients == 0)
  {
    if r > Deliveries(log) { NotYetDialled(log, r); }
    assert log != [] ==> DialsFor(log, log[|log| - 1].recipient) >= 1;
  }
}
