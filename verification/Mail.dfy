/** A batch of emails over one SMTP connection: the result at each position is that message's own. */
module Mail {
  import opened Common

  datatype Request = Request(to: Option<string>, subject: string)

  /** success, and the server's answer or the error. */
  datatype EmailResult = EmailResult(success: bool, response: string)

  datatype Settings = Settings(host: Option<string>, from: Option<string>, white: char -> bool)

  /** What the network does: whether connecting raises, and what sending each message gives or raises. */
  datatype Network = Network(connect: Option<string>, send: nat -> Result<string, string>)

  const NOT_CONFIGURED := "SMTP not configured (Smtp:Host / Smtp:From)."
  const NO_RECIPIENT := "No recipient address."

  predicate Blank(s: Option<string>, white: char -> bool) {
    match s
    case None => true
    case Some(t) => forall i | 0 <= i < |t| :: white(t[i])
  }

  function Trunc(s: string): string {
    if |s| <= 1000 then s else s[..1000]
  }

  predicate Configured(cfg: Settings) {
    !Blank(cfg.host, cfg.white) && !Blank(cfg.from, cfg.white)
  }

  predicate Sendable(reqs: seq<Request>, i: nat, cfg: Settings) {
    i < |reqs| && !Blank(reqs[i].to, cfg.white)
  }

  /** The server takes the message at position i. */
  predicate Taken(reqs: seq<Request>, cfg: Settings, net: Network, i: nat) {
    Configured(cfg) && Sendable(reqs, i, cfg) && net.connect == None && net.send(i).Ok?
  }

  /** The positions a connection is used for, in order. */
  function ToSend(reqs: seq<Request>, cfg: Settings): seq<nat> {
    if reqs == [] then []
    else
      var n := |reqs| - 1;
      ToSend(reqs[..n], cfg) + if Sendable(reqs, n, cfg) then [n] else []
  }

  lemma {:induction false} ToSendExactly(reqs: seq<Request>, cfg: Settings)
    ensures forall i: nat :: i in ToSend(reqs, cfg) <==> Sendable(reqs, i, cfg)
    ensures forall a, b | 0 <= a < b < |ToSend(reqs, cfg)| :: ToSend(reqs, cfg)[a] < ToSend(reqs, cfg)[b]
  {
    if reqs != [] {
      var n := |reqs| - 1;
      var rest := ToSend(reqs[..n], cfg);
      ToSendExactly(reqs[..n], cfg);
      forall i: nat ensures i in ToSend(reqs, cfg) <==> Sendable(reqs, i, cfg) {
        assert Sendable(reqs[..n], i, cfg) <==> i < n && Sendable(reqs, i, cfg);
      }
      forall a | 0 <= a < |rest| ensures rest[a] < n {
        assert rest[a] in rest;
      }
    }
  }

  /** After the first pass: a message without a recipient has its result already. */
  function Marked(reqs: seq<Request>, i: nat, cfg: Settings): Option<EmailResult> {
    if Sendable(reqs, i, cfg) then None else Some(EmailResult(false, NO_RECIPIENT))
  }

  function Filled(reqs: seq<Request>, i: nat, cfg: Settings, result: EmailResult): EmailResult {
    if Sendable(reqs, i, cfg) then result else EmailResult(false, NO_RECIPIENT)
  }

  /**
   One result per request and in its place, whatever happens to the others. A connection is opened
   only if something can be sent, and each such message is handed over exactly once.
   */
  method SendBatch(reqs: seq<Request>, cfg: Settings, net: Network)
    returns (results: array<Option<EmailResult>>, connected: bool, sent: seq<nat>)
    ensures results.Length == |reqs| && forall i | 0 <= i < |reqs| :: results[i].Some?
    ensures connected <==> Configured(cfg) && exists i: nat :: Sendable(reqs, i, cfg)
    ensures sent == if connected && net.connect == None then ToSend(reqs, cfg) else []
    ensures forall i | 0 <= i < |reqs| ::
              results[i].value.success <==> i in sent && net.send(i).Ok?
    ensures forall i | 0 <= i < |reqs| ::
              results[i].value.response ==
              if !Configured(cfg) then NOT_CONFIGURED
              else if !Sendable(reqs, i, cfg) then NO_RECIPIENT
              else if net.connect.Some? then Trunc(net.connect.value)
              else match net.send(i) case Ok(answer) => Trunc(answer) case Err(error) => Trunc(error)
  {
    results := new Option<EmailResult>[|reqs|](i => None);
    connected, sent := false, [];
    if Blank(cfg.host, cfg.white) || Blank(cfg.from, cfg.white) {
      for i := 0 to |reqs|
        invariant forall j | 0 <= j < i :: results[j] == Some(EmailResult(false, NOT_CONFIGURED))
      {
        results[i] := Some(EmailResult(false, NOT_CONFIGURED));
      }
      return;
    }
    for i := 0 to |reqs|
      invariant connected <==> exists j: nat :: j < i && Sendable(reqs, j, cfg)
      invariant forall j | 0 <= j < i ::
                  results[j] == Marked(reqs, j, cfg)
      invariant forall j | i <= j < |reqs| :: results[j] == None
    {
      if Blank(reqs[i].to, cfg.white) {
        results[i] := Some(EmailResult(false, NO_RECIPIENT));
      } else {
        connected := true;
        assert Sendable(reqs, i, cfg);
      }
    }
    ToSendExactly(reqs, cfg);
    if !connected {
      return;
    }
    sent := Deliver(results, reqs, cfg, net);
  }

  /** The connection, and one message after another over it; results already marked stay. */
  method Deliver(results: array<Option<EmailResult>>, reqs: seq<Request>, cfg: Settings, net: Network)
    returns (sent: seq<nat>)
    requires results.Length == |reqs| && forall j | 0 <= j < |reqs| :: results[j] == Marked(reqs, j, cfg)
    modifies results
    ensures sent == if net.connect == None then ToSend(reqs, cfg) else []
    ensures forall j | 0 <= j < |reqs| :: results[j] == Some(Filled(reqs, j, cfg, Answer(net, j)))
  {
    sent := [];
    if net.connect.Some? {
      var msg := Trunc(net.connect.value);
      for i := 0 to |reqs|
        invariant forall j | i <= j < |reqs| :: results[j] == Marked(reqs, j, cfg)
        invariant forall j | 0 <= j < i :: results[j] == Some(Filled(reqs, j, cfg, Answer(net, j)))
      {
        if results[i] == None {
          results[i] := Some(EmailResult(false, msg));
        }
      }
      return;
    }
    for i := 0 to |reqs|
      invariant sent == ToSend(reqs[..i], cfg)
      invariant forall j | i <= j < |reqs| :: results[j] == Marked(reqs, j, cfg)
      invariant forall j | 0 <= j < i :: results[j] == Some(Filled(reqs, j, cfg, Answer(net, j)))
    {
      assert reqs[..i + 1][..i] == reqs[..i];
      if results[i] == None {
        sent := sent + [i];
        match net.send(i) {
          case Ok(response) => results[i] := Some(EmailResult(true, Trunc(response)));
          case Err(error) => results[i] := Some(EmailResult(false, Trunc(error)));
        }
      }
    }
    assert reqs[..|reqs|] == reqs;
  }

  /** What becomes of a message that has a recipient. */
  function Answer(net: Network, i: nat): EmailResult {
    match net.connect
    case Some(error) => EmailResult(false, Trunc(error))
    case None =>
      match net.send(i)
      case Ok(response) => EmailResult(true, Trunc(response))
      case Err(error) => EmailResult(false, Trunc(error))
  }
}
