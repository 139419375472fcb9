/**
 * The `POST /` handler of src/index.js: compute the signed message and the
 * expected tag, verify the supplied signature, parse the body, and act on the
 * message type. The HMAC digest, `JSON.parse` and the request to Discord are
 * the parameters `hmac`, `parse` (None where it throws) and `deliver` (false
 * where the request rejects).
 */
module Webhook {
  import opened Wrappers
  import opened EventSub
  import Signature
  import DiscordEmbed
  import Utf8
  import JsText

  /** `res.sendStatus(204)`: no body. */
  const NoContent := Response(204, None, "")

  /** `res.sendStatus(403)`: the status text as a plain-text body. */
  const Forbidden := Response(403, Some("text/plain"), "Forbidden")

  /** The request forwarded to Discord for an event. */
  function ForwardRequest(e: SuspiciousUserEvent, cfg: Config): (r: DiscordRequest)
    ensures r.httpMethod == "POST" && r.contentType == "application/json"
    ensures var base := JsText.Template(cfg.discordWebhookUrl) + "?wait=true";
      |r.url| >= |base| && r.url[..|base|] == base
    ensures var thread := "&thread_id=" + cfg.threadId.GetOr("");
      JsText.Truthy(cfg.threadId) ==> |r.url| > |thread| && r.url[|r.url| - |thread|..] == thread
    ensures r.url == DiscordEmbed.WebhookUrl(cfg.discordWebhookUrl, cfg.threadId)
    ensures r.payload == DiscordEmbed.PayloadFor(e)
    ensures |r.payload.embeds| == 1 && DiscordEmbed.InLayoutOrder(r.payload.embeds[0].fields)
  {
    DiscordRequest(
      DiscordEmbed.WebhookUrl(cfg.discordWebhookUrl, cfg.threadId),
      "POST", "application/json",
      DiscordEmbed.PayloadFor(e))
  }

  /**
   * The switch on the message type, for a verified and parsed body. A
   * notification reads `subscription.type`; only a suspicious-user message
   * builds and forwards a payload, and its 204 is sent only after the request
   * to Discord has completed. A verification request gets its challenge back
   * as plain text; revocations and every other type get 204.
   */
  function Dispatch(messageType: Option<string>, n: Notification, cfg: Config, deliver: DiscordRequest -> bool): (r: Outcome)
    ensures r.Responded? ==> r.response.status in {200, 204}
    ensures r.forwarded.Some? ==>
      && messageType == Some(NotificationType)
      && n.subscription.Some? && n.subscription.value.subscriptionType == Some(SuspiciousUserMessage)
      && n.event.Some? && r.forwarded == Some(ForwardRequest(n.event.value, cfg))
    ensures messageType == Some(VerificationType) ==>
      r == Responded(Response(200, Some("text/plain"), n.challenge.GetOr("")), None)
    ensures messageType != Some(NotificationType) && messageType != Some(VerificationType) ==>
      r == Responded(NoContent, None)
  {
    if messageType == Some(NotificationType) then
      match n.subscription
      case None => Threw(TypeError, None)
      case Some(sub) =>
        if sub.subscriptionType == Some(SuspiciousUserMessage) then
          match n.event
          case None => Threw(TypeError, None)
          case Some(e) =>
            var request := ForwardRequest(e, cfg);
            if deliver(request) then Responded(NoContent, Some(request)) else Threw(FetchError, Some(request))
        else Responded(NoContent, None)
    else if messageType == Some(VerificationType) then
      Responded(Response(200, Some("text/plain"), n.challenge.GetOr("")), None)
    else if messageType == Some(RevocationType) then
      Responded(NoContent, None)
    else
      Responded(NoContent, None)
  }

  /** The tag the handler expects for a request, once the secret is set. */
  function TagFor(req: Request, secret: string, hmac: (string, string) -> string): (r: string)
    ensures MessageIdHeader in req.headers && MessageTimestampHeader in req.headers ==>
      r == Signature.HmacPrefix + hmac(secret, req.headers[MessageIdHeader] + req.headers[MessageTimestampHeader] + req.body)
  {
    var r := Signature.ExpectedTag(hmac, secret,
      Signature.SignedMessage(Header(req, MessageIdHeader), Header(req, MessageTimestampHeader), req.body));
    assert r == r[..|Signature.HmacPrefix|] + r[|Signature.HmacPrefix|..];
    r
  }

  /**
   * The whole handler. An unset secret makes `createHmac` throw; a failed
   * comparison answers 403 before the body is parsed; a body that is not JSON
   * makes `JSON.parse` throw (there is no 400 answer).
   */
  function Handle(req: Request, cfg: Config, hmac: (string, string) -> string,
                  parse: string -> Option<Notification>, deliver: DiscordRequest -> bool): (r: Outcome)
    ensures r.Responded? ==> r.response.status in {200, 204, 403}
    ensures cfg.secret.None? ==> r == Threw(TypeError, None)
  {
    match cfg.secret
    case None => Threw(TypeError, None)
    case Some(secret) =>
      match Signature.Verify(TagFor(req, secret, hmac), Header(req, MessageSignatureHeader))
      case Err(e) => Threw(e, None)
      case Ok(false) => Responded(Forbidden, None)
      case Ok(true) =>
        match parse(req.body)
        case None => Threw(SyntaxError, None)
        case Some(n) => Dispatch(Header(req, MessageTypeHeader), n, cfg, deliver)
  }

  /** The request carries exactly the signature the handler expects. */
  predicate Authentic(req: Request, cfg: Config, hmac: (string, string) -> string) {
    cfg.secret.Some? && Header(req, MessageSignatureHeader) == Some(TagFor(req, cfg.secret.value, hmac))
  }

  /**
   * Unless the signature is exactly the expected tag, nothing is forwarded
   * and the outcome does not depend on the body's parse or on Discord: the
   * body is never parsed.
   */
  lemma UnauthenticRequestsStopAtTheSignature(req: Request, cfg: Config, hmac: (string, string) -> string,
      parse1: string -> Option<Notification>, deliver1: DiscordRequest -> bool,
      parse2: string -> Option<Notification>, deliver2: DiscordRequest -> bool)
    requires !Authentic(req, cfg, hmac)
    ensures Handle(req, cfg, hmac, parse1, deliver1) == Handle(req, cfg, hmac, parse2, deliver2)
    ensures Handle(req, cfg, hmac, parse1, deliver1).forwarded.None?
  {
    if cfg.secret.Some? {
      Signature.VerifyAcceptsOnlyTheTag(TagFor(req, cfg.secret.value, hmac), Header(req, MessageSignatureHeader));
    }
  }

  /**
   * A wrong signature of the right byte length is answered 403; a missing one
   * or one of another length makes the comparison throw instead.
   */
  lemma ForgedSignatureOutcome(req: Request, cfg: Config, hmac: (string, string) -> string,
      parse: string -> Option<Notification>, deliver: DiscordRequest -> bool)
    requires cfg.secret.Some? && !Authentic(req, cfg, hmac)
    ensures var sig := Header(req, MessageSignatureHeader);
      var tag := TagFor(req, cfg.secret.value, hmac);
      Handle(req, cfg, hmac, parse, deliver) ==
        if sig.None? then Threw(TypeError, None)
        else if |Utf8.Encode(sig.value)| != |Utf8.Encode(tag)| then Threw(RangeError, None)
        else Responded(Forbidden, None)
  {
    Signature.VerifyAcceptsOnlyTheTag(TagFor(req, cfg.secret.value, hmac), Header(req, MessageSignatureHeader));
  }

  /** An authentic request whose body is not JSON makes the handler throw: no response, nothing forwarded. */
  lemma UnparsableBodyThrows(req: Request, cfg: Config, hmac: (string, string) -> string,
      parse: string -> Option<Notification>, deliver: DiscordRequest -> bool)
    requires Authentic(req, cfg, hmac) && parse(req.body).None?
    ensures Handle(req, cfg, hmac, parse, deliver) == Threw(SyntaxError, None)
  {
    Signature.VerifyAcceptsOnlyTheTag(TagFor(req, cfg.secret.value, hmac), Header(req, MessageSignatureHeader));
  }

  /** An authentic verification request is answered 200, as plain text, with the challenge exactly. */
  lemma ChallengeEchoed(req: Request, cfg: Config, hmac: (string, string) -> string,
      parse: string -> Option<Notification>, deliver: DiscordRequest -> bool)
    requires Authentic(req, cfg, hmac)
    requires Header(req, MessageTypeHeader) == Some(VerificationType)
    requires parse(req.body).Some? && parse(req.body).value.challenge.Some?
    ensures Handle(req, cfg, hmac, parse, deliver) ==
      Responded(Response(200, Some("text/plain"), parse(req.body).value.challenge.value), None)
  {
    Signature.VerifyAcceptsOnlyTheTag(TagFor(req, cfg.secret.value, hmac), Header(req, MessageSignatureHeader));
  }

  /** Authentic revocations, and messages of a type the handler does not know, get 204 and forward nothing. */
  lemma OtherTypesAcknowledged(req: Request, cfg: Config, hmac: (string, string) -> string,
      parse: string -> Option<Notification>, deliver: DiscordRequest -> bool)
    requires Authentic(req, cfg, hmac) && parse(req.body).Some?
    requires Header(req, MessageTypeHeader) != Some(NotificationType)
    requires Header(req, MessageTypeHeader) != Some(VerificationType)
    ensures Handle(req, cfg, hmac, parse, deliver) == Responded(NoContent, None)
  {
    Signature.VerifyAcceptsOnlyTheTag(TagFor(req, cfg.secret.value, hmac), Header(req, MessageSignatureHeader));
  }

  /** An authentic notification of any other subscription type is acknowledged with 204 and only logged. */
  lemma OtherNotificationsNotForwarded(req: Request, cfg: Config, hmac: (string, string) -> string,
      parse: string -> Option<Notification>, deliver: DiscordRequest -> bool)
    requires Authentic(req, cfg, hmac) && parse(req.body).Some?
    requires Header(req, MessageTypeHeader) == Some(NotificationType)
    requires parse(req.body).value.subscription.Some?
    requires parse(req.body).value.subscription.value.subscriptionType != Some(SuspiciousUserMessage)
    ensures Handle(req, cfg, hmac, parse, deliver) == Responded(NoContent, None)
  {
    Signature.VerifyAcceptsOnlyTheTag(TagFor(req, cfg.secret.value, hmac), Header(req, MessageSignatureHeader));
  }

  /**
   * An authentic suspicious-user message is forwarded once, as the embed of
   * its event posted to the webhook URL; the sender gets 204 only if that
   * request completes, and otherwise the handler throws.
   */
  lemma SuspiciousUserMessageForwarded(req: Request, cfg: Config, hmac: (string, string) -> string,
      parse: string -> Option<Notification>, deliver: DiscordRequest -> bool)
    requires Authentic(req, cfg, hmac) && parse(req.body).Some?
    requires Header(req, MessageTypeHeader) == Some(NotificationType)
    requires parse(req.body).value.subscription.Some?
    requires parse(req.body).value.subscription.value.subscriptionType == Some(SuspiciousUserMessage)
    requires parse(req.body).value.event.Some?
    ensures var request := ForwardRequest(parse(req.body).value.event.value, cfg);
      Handle(req, cfg, hmac, parse, deliver) ==
        if deliver(request) then Responded(NoContent, Some(request)) else Threw(FetchError, Some(request))
  {
    Signature.VerifyAcceptsOnlyTheTag(TagFor(req, cfg.secret.value, hmac), Header(req, MessageSignatureHeader));
  }

  /** Whatever is forwarded is the payload of an authentic suspicious-user message. */
  lemma OnlyAuthenticSuspiciousMessagesForwarded(req: Request, cfg: Config, hmac: (string, string) -> string,
      parse: string -> Option<Notification>, deliver: DiscordRequest -> bool)
    ensures var forwarded := Handle(req, cfg, hmac, parse, deliver).forwarded;
      forwarded.Some? ==> Authentic(req, cfg, hmac) && Header(req, MessageTypeHeader) == Some(NotificationType)
    ensures var forwarded := Handle(req, cfg, hmac, parse, deliver).forwarded;
      forwarded.Some? ==>
        && parse(req.body).Some? && parse(req.body).value.event.Some?
        && parse(req.body).value.subscription.Some?
        && parse(req.body).value.subscription.value.subscriptionType == Some(SuspiciousUserMessage)
        && forwarded == Some(ForwardRequest(parse(req.body).value.event.value, cfg))
  {
    if Handle(req, cfg, hmac, parse, deliver).forwarded.Some? {
      if !Authentic(req, cfg, hmac) {
        UnauthenticRequestsStopAtTheSignature(req, cfg, hmac, parse, deliver, parse, deliver);
      } else {
        Signature.VerifyAcceptsOnlyTheTag(TagFor(req, cfg.secret.value, hmac), Header(req, MessageSignatureHeader));
      }
    }
  }
}
