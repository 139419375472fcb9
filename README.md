# Twitch suspicious-user EventSub relay, modelled in Dafny

The service takes Twitch EventSub webhook calls on `POST /`. It checks their
HMAC-SHA256 signature. It then answers verification challenges, acknowledges
revocations and unknown message types, and relays `channel.suspicious_user.message`
notifications to a Discord webhook as a red embed. A small OAuth helper
(`/auth`, `/auth-callback`) sends a moderator to Twitch's authorize page and
reports the tokens it got back.

The model has these modules:

- `EventSub` (eventsub.dfy): the request, the parsed notification, the Discord
  request and the handler's outcome as datatypes. A header that is absent is
  `None`.
- `Signature` (signature.dfy): the signed message, built with JavaScript's `+` on
  possibly missing headers. Also the expected tag `sha256=<hex>` and
  `verifyMessage`. `verifyMessage` compares UTF-8 bytes and throws rather than
  answering false when the lengths differ or the header is missing.
- `DiscordEmbed` (discordembed.dfy): the embed as a function, the field-pushing
  builder as a method proved equal to it, and the webhook URL, likewise.
- `Webhook` (webhook.dfy): the message-type switch and the whole handler.
  Its outcome is a response or a thrown error, plus the request forwarded to
  Discord, if any.
- `Auth` (auth.dfy): the authorize URL, the scope choice,
  `getAccessLevel` and the text `authCallback` answers with.
- Supporting modules:
  - `JsText`: JavaScript's template rendering of `undefined`, truthiness,
    `Array.join`, and ASCII `toLowerCase`.
  - `Utf8`: the UTF-8 encoding done by `Buffer.from`, with a decoder and the
    round trip.
  - `UriComponent`: `encodeURIComponent`, with a decoder and the round trip.
  - `Wrappers`: `Option` and `Result`.

Several things the program reaches are parameters of the model:

- The HMAC-SHA256 hex digest is `hmac(secret, message)`.
- `JSON.parse` of the body is `parse(body)`. `None` means the parse throws.
- The Discord `fetch` is `deliver(request)`. `false` means the fetch rejects.
- Twitch's token exchange plus `getUser` is `exchange(code)`.
- `process.env` is a `Config` value.

## Model

| member | source | states |
|---|---|---|
| Signature.HeaderSum | src/index.js:62-63 | JavaScript's `+` on the two header values: present values concatenate, one missing value renders as `undefined`, two missing ones add to `NaN` |
| Signature.SignedMessage | src/index.js:61-64 | with both headers present the message is id, then timestamp, then body; whatever the headers, the body is the suffix |
| Signature.SignedMessageDeterminesParts | src/index.js:61-64 | for ids and timestamps of fixed length, the signed message determines id, timestamp and body |
| Signature.ExpectedTag | src/index.js:65-67 | the tag is `sha256=` followed by exactly the HMAC of the message under the secret |
| Signature.Verify | src/index.js:185-190 | a missing signature throws TypeError, a byte-length mismatch throws RangeError, and no other error occurs |
| Signature.VerifyAcceptsOnlyTheTag | src/index.js:185-190 | the comparison is true exactly for the expected tag, and false exactly for other values of the same UTF-8 byte length |
| Signature.AsciiLengthMismatchThrows | src/index.js:185-190 | for ASCII strings, a signature of another length makes the comparison throw |
| Utf8.EncodeChar | src/index.js:187-188 | one character is one to four bytes, a single byte exactly for ASCII, trailing bytes being continuation bytes |
| Utf8.Encode | src/index.js:187-188 | the bytes of a string are at least as many as its characters, and exactly as many when all characters are ASCII |
| Utf8.DecodeEncode | src/index.js:187-188 | decoding the UTF-8 bytes of a string returns that string |
| Utf8.EncodeInjective | src/index.js:187-188 | two strings have the same bytes exactly when they are equal |
| DiscordEmbed.LowTrustLabel | src/index.js:94-103 | each of `active_monitoring`, `restricted` and `none` has its own label; every other or missing status is `N/A`, in both directions |
| DiscordEmbed.Description | src/index.js:106 | the description is the message text fenced by triple backticks, or `N/A` when there is no message or no text |
| DiscordEmbed.UserLink | src/index.js:83-92 | the link text starts with the display name in backticks and goes on with exactly the login and the user id in backticks, separated by ` - `; the link target is the Twitch channel page of the login |
| DiscordEmbed.MandatoryFields | src/index.js:83-104 | three fields named Broadcaster, User and Low Trust Status, in layout order and ranked before every optional field |
| DiscordEmbed.EmbedFor | src/index.js:77-140 | colour `0xcc3333`, the title, the description, three to seven fields, the first three Broadcaster, User and Low Trust Status with their values, none inline |
| DiscordEmbed.PayloadFor | src/index.js:77-109 | exactly one red, titled embed whose description is the chat message in a code block and whose fields are exactly the event's embed fields: the mandatory fields first, all in layout order |
| DiscordEmbed.EmbedFieldOrder | src/index.js:82-140 | the fields always appear in the fixed order: mandatory fields, then shared bans, types, ban-evasion, message id; and no field has a name outside those seven |
| DiscordEmbed.EmbedSharedBans | src/index.js:110-119 | a Shared Ban Channels field exists exactly when the list is present and non-empty, and it holds the ids joined by ", " |
| DiscordEmbed.EmbedTypes | src/index.js:120-126 | a Types field exists exactly when the list is present and non-empty, and it holds the types joined by ", " |
| DiscordEmbed.EmbedEvasion | src/index.js:127-133 | a Type of Ban Evader field exists exactly when the evaluation is a non-empty string, and it holds that string |
| DiscordEmbed.EmbedMessageId | src/index.js:134-140 | a Message ID field exists exactly when the message has a non-empty id, and it holds that id |
| DiscordEmbed.EmbedOptionalFields | src/index.js:110-140 | all four optional fields together: each is found exactly when its source is present, with its value |
| DiscordEmbed.BareEventEmbed | src/index.js:77-109 | an event without optional data gets only the three mandatory fields and the description N/A |
| DiscordEmbed.FieldNamed | src/index.js:82-140 | a lookup used only to state properties (the code never looks fields up by name): it finds the first field of that name in the list, or reports that none has it |
| DiscordEmbed.BuildPayload | src/index.js:77-140 | the step-by-step pushes of the handler build exactly the specified payload |
| DiscordEmbed.WebhookUrl | src/index.js:142-145 | the URL is the base (or `undefined`) with `?wait=true`; it is longer exactly when `THREAD_ID` is non-empty, then ending in `&thread_id=` and the id |
| DiscordEmbed.BuildWebhookUrl | src/index.js:142-145 | the string-appending code builds exactly that URL |
| Webhook.ForwardRequest | src/index.js:141-152 | a POST with JSON content to exactly the webhook URL `WebhookUrl` builds (the base with `?wait=true`, ending in the thread parameter when a thread is set), carrying the payload, whose one embed has its fields in layout order |
| Webhook.TagFor | src/index.js:61-67 | with both headers present, the expected tag is `sha256=` and the HMAC of id, timestamp and body under the secret |
| Webhook.Dispatch | src/index.js:72-178 | responses are 200 or 204; forwarding happens only for a suspicious-user notification, with that event's request; a verification message gets its challenge echoed; revocation and other types get 204 |
| Webhook.Handle | src/index.js:59-183 | every response is 200, 204 or 403; without a secret the handler throws before anything else |
| Webhook.UnauthenticRequestsStopAtTheSignature | src/index.js:69-71 | unless the signature is the expected tag, nothing is forwarded and neither the body's parse nor Discord affects the outcome |
| Webhook.ForgedSignatureOutcome | src/index.js:179-182 | a wrong signature of the right length gets 403; other wrong signatures make the handler throw |
| Webhook.UnparsableBodyThrows | src/index.js:71 | an authentic request whose body is not JSON throws; the handler itself sends no response and nothing is forwarded |
| Webhook.ChallengeEchoed | src/index.js:160-165 | an authentic verification request gets 200, text/plain, with exactly its challenge |
| Webhook.OtherTypesAcknowledged | src/index.js:166-177 | authentic revocation and unknown message types get 204 and nothing is forwarded |
| Webhook.OtherNotificationsNotForwarded | src/index.js:154-159 | an authentic notification of another subscription type gets 204 and nothing is forwarded |
| Webhook.SuspiciousUserMessageForwarded | src/index.js:73-159 | an authentic suspicious-user message is forwarded as its embed to the webhook URL; 204 follows only if the delivery succeeds, otherwise the handler throws |
| Webhook.OnlyAuthenticSuspiciousMessagesForwarded | src/index.js:69-159 | anything forwarded came from an authentic notification of the suspicious-user subscription type with an event, and is exactly that event's request |
| JsText.Lower | src/auth.js:59 | lower-casing keeps the length and maps each character |
| JsText.Join | src/index.js:110-126 | the join starts with the first element and is as long as the elements together plus one separator fewer than there are elements; no elements give "" |
| JsText.JoinSnoc | src/index.js:110-126 | joining the list built by pushing one piece at a time onto the back gives the join of the earlier pieces, a separator, and the new piece |
| JsText.SplitJoin | src/auth.js:13 | splitting a join at its separator gives back the parts when no part contains it |
| Auth.RequestedScopes | src/auth.js:17-23 | exactly one scope is requested: the manage scope when `manage`, the read scope otherwise |
| Auth.AuthorizeUrl | src/auth.js:11-15 | the URL is the authorize endpoint with `client_id` and then `redirect_uri` inserted unencoded (or `undefined`), ending with `&response_type=code&scope=` and the encoded scope list |
| Auth.AuthUrl | src/auth.js:17-23 | the redirect goes to the authorize endpoint for the client, and its `scope` value decodes to the manage scope when `manage`, the read scope otherwise |
| Auth.AuthorizeUrlScopeValue | src/auth.js:11-15 | what follows the URL's last `=` is exactly the encoded scope list |
| UriComponent.Encode | src/auth.js:13 | the encoding is never shorter than the text, and exactly as long when no character needs escaping |
| UriComponent.EncodeQuerySafe | src/auth.js:13 | the encoded scope list contains only unreserved characters and `%` |
| UriComponent.EncodeUnreservedIdentity | src/auth.js:13 | text made only of unreserved characters is left as it is |
| UriComponent.DecodeEncode | src/auth.js:13 | decoding the encoded text returns it |
| Auth.ScopeParameterRoundTrip | src/auth.js:11-15 | the scope parameter is URL-safe, decodes to the space-joined scopes and splits back into them |
| Auth.AuthScopesRecoverable | src/auth.js:17-23 | the scope parameter of either redirect decodes to the one requested scope |
| Auth.AccessLevel | src/auth.js:25-31 | `Manage` exactly when the manage scope was granted, `Read` exactly when it was not |
| Auth.RequestedAccessLevel | src/auth.js:17-31 | granting what was requested yields `Manage` for the manage flow and `Read` for the read flow |
| Auth.GrantedText | src/auth.js:59-65 | the plain success text exactly when the lower-cased display name is the login; otherwise the login follows in parentheses |
| Auth.ErrorText | src/auth.js:69-76 | the text starts with the heading line and the error; it goes on exactly when a description is given, then with a newline and the description |
| Auth.ErrorTextLines | src/auth.js:69-76 | the error text's lines are the heading, the error, and the description exactly when one is given |
| Auth.AuthCallback | src/auth.js:33-82 | no answer exactly when there is a code and a step of the token exchange threw; any answer is text/plain; with neither code nor error the fixed text; with only an error the error text |
| Auth.CallbackWithoutCodeIgnoresExchange | src/auth.js:35-81 | without a code the token exchange does not affect the answer |
| Auth.CallbackWithCode | src/auth.js:35-68 | with a code the answer is the success text for the granted scopes and user, Twitch's response text when the token request was refused, or nothing when a step threw |

## Behaviour of the code worth knowing

In each of these cases a caller might expect a gentler answer than the code
gives. The model follows the code.

- The comparison does not answer false for a missing signature or one of
  another length. `Buffer.from(undefined)` throws a TypeError, and
  `timingSafeEqual` throws a RangeError. Either way the handler rejects
  and itself sends no response, not even a 403.
- A body that is not JSON is not answered with 400. `JSON.parse` throws
  inside the handler.
- The 204 for a suspicious-user message is sent only after the Discord request
  has completed. If that request rejects, the handler throws and itself
  sends no acknowledgement.
- Nothing refuses a request whose id or timestamp header is missing.
  JavaScript turns the missing values into `undefined` or `NaN` text inside the
  signed message.
- A notification without `subscription`, or a suspicious-user notification
  without `event`, makes the handler throw a TypeError. A notification of
  another subscription type without `event` is still answered 204.
- `authCallback` itself sends no response when the token request or the user lookup
  rejects, when the token response is not JSON, or when it lacks `scope` or
  the user's `display_name`: each of these throws inside the handler.

## Left out

- The Express server setup, helmet, the rate limiter, `GET /` and the port
  come from libraries and have no decisions to model.
- The HMAC-SHA256 digest is a parameter, `hmac`. SHA-256 is not modelled.
- `JSON.parse` is a parameter, `parse`. JSON documents whose top level is not an
  object, and fields of unexpected types, are not modelled.
- The Discord `fetch` and the text of its response are a parameter, `deliver`.
  All `console.log` output is left out.
- `Webhook.OtherTypesAcknowledged`: the TypeError of a revocation without
  `subscription` is not modelled. It is thrown by logging after the 204 is sent,
  so it does not change the response.
- The OAuth token request, `fetchResponse.json()` and `getUser` in
  src/utils.js are folded into the parameter `exchange`. Its `Failed` case
  stands for every exception they raise. src/utils.js is not part of this
  model.
- `res.redirect` is left out; the model gives the URL it redirects to.
- src/create-eventsub-subscription.js is a one-off command-line script and is
  not part of this model.
- `process.env` is the `Config` value, including an unset secret (thrown
  TypeError) and an unset webhook URL (rendered `undefined`).
- `JsText.Lower`: only ASCII letters are lower-cased. JavaScript's full
  Unicode case mapping is not modelled.
- The Buffer-to-string conversion of the raw body is left out; the body is a
  string.
- Express's choice of charset and its default status texts are left out, apart
  from the `Forbidden` body of the 403.
- The constant-time property of `timingSafeEqual` is not expressible in this
  model.
- Repeated headers are not modelled; a header has one value.
- What Express does with a handler that throws or rejects is not modelled: the
  model stops at "the handler itself sends no response". Express 4 leaves a
  rejected async handler as an unhandled rejection, and Express 5 answers 500.
