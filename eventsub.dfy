/**
 * The values the EventSub POST handler (src/index.js) works with: the
 * incoming request, the parsed notification, the Discord message it builds,
 * and what the handler ends in.
 */
module EventSub {
  import opened Wrappers

  /** Header names as Node presents them: lower case. */
  const MessageIdHeader := "twitch-eventsub-message-id"
  const MessageTimestampHeader := "twitch-eventsub-message-timestamp"
  const MessageSignatureHeader := "twitch-eventsub-message-signature"
  const MessageTypeHeader := "twitch-eventsub-message-type"

  const VerificationType := "webhook_callback_verification"
  const NotificationType := "notification"
  const RevocationType := "revocation"

  const SuspiciousUserMessage := "channel.suspicious_user.message"

  /** An inbound request: headers keyed by lower-case name, and the raw body text. */
  datatype Request = Request(headers: map<string, string>, body: string)

  function Header(req: Request, name: string): (r: Option<string>)
    ensures r.Some? <==> name in req.headers
    ensures r.Some? ==> r.value == req.headers[name]
  {
    if name in req.headers then Some(req.headers[name]) else None
  }

  /** The process environment the handler reads. */
  datatype Config = Config(secret: Option<string>, discordWebhookUrl: Option<string>, threadId: Option<string>)

  /** `event.message` of a suspicious-user message notification. */
  datatype ChatMessage = ChatMessage(messageId: Option<string>, text: Option<string>)

  /** The `event` object of a `channel.suspicious_user.message` notification; any member may be absent. */
  datatype SuspiciousUserEvent = SuspiciousUserEvent(
    broadcasterUserId: Option<string>,
    broadcasterUserLogin: Option<string>,
    broadcasterUserName: Option<string>,
    userId: Option<string>,
    userLogin: Option<string>,
    userName: Option<string>,
    lowTrustStatus: Option<string>,
    sharedBanChannelIds: Option<seq<string>>,
    types: Option<seq<string>>,
    banEvasionEvaluation: Option<string>,
    message: Option<ChatMessage>)

  /** The `subscription` object; only its `type` is consulted. */
  datatype Subscription = Subscription(subscriptionType: Option<string>)

  /** The parsed JSON body, as far as the handler reads it. */
  datatype Notification = Notification(
    challenge: Option<string>,
    subscription: Option<Subscription>,
    event: Option<SuspiciousUserEvent>)

  /** One field of a Discord embed. */
  datatype Field = Field(name: string, value: string, inline: bool)

  datatype Embed = Embed(color: int, title: string, fields: seq<Field>, description: string)

  /** The JSON body posted to Discord. */
  datatype DiscordPayload = DiscordPayload(embeds: seq<Embed>)

  /** The one outbound call: a POST of a JSON payload to a URL. */
  datatype DiscordRequest = DiscordRequest(url: string, httpMethod: string, contentType: string, payload: DiscordPayload)

  /** What JavaScript throws on the handler's paths. */
  datatype JsError =
    | TypeError    // reading a member of undefined, or Buffer.from(undefined)
    | RangeError   // timingSafeEqual on buffers of different lengths
    | SyntaxError  // JSON.parse on a body that is not JSON
    | FetchError   // the model's label for a rejected request to Discord (Node's fetch rejects with a TypeError)

  /** The response sent: status, content type when one is set, and body. */
  datatype Response = Response(status: int, contentType: Option<string>, body: string)

  /**
   * How handling a request ends: a response was sent, or an exception
   * escaped the handler without one. Either way, at most one request to
   * Discord was issued.
   */
  datatype Outcome =
    | Responded(response: Response, forwarded: Option<DiscordRequest>)
    | Threw(error: JsError, forwarded: Option<DiscordRequest>)
}
