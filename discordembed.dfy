/**
 * The Discord message built for a `channel.suspicious_user.message` event
 * (src/index.js:77-145): one embed whose field list always starts with the
 * broadcaster, the user and the low-trust status and then gains, in a fixed
 * order, the optional fields the event carries; and the webhook URL it is
 * posted to.
 */
module DiscordEmbed {
  import opened Wrappers
  import opened JsText
  import opened EventSub

  const Red := 0xcc3333
  const Title := "Message from suspicious user"

  /** The human label of `low_trust_status`; anything but the three known values is "N/A". */
  function LowTrustLabel(status: Option<string>): (r: string)
    ensures r == "Monitoring" <==> status == Some("active_monitoring")
    ensures r == "Restricted" <==> status == Some("restricted")
    ensures r == "None" <==> status == Some("none")
    ensures r == "N/A" <==> status !in {Some("active_monitoring"), Some("restricted"), Some("none")}
  {
    if status == Some("active_monitoring") then "Monitoring"
    else if status == Some("restricted") then "Restricted"
    else if status == Some("none") then "None"
    else "N/A"
  }

  /** A user as a Markdown link: display name, login and id, linking to the channel page of the login. */
  function UserLink(name: Option<string>, login: Option<string>, id: Option<string>): (r: string)
    ensures var text := "[`" + Template(name) + "` (`";
      var target := "](<https://www.twitch.tv/" + Template(login) + ">)";
      |r| >= |text| + |target| && r[..|text|] == text && r[|r| - |target|..] == target
    ensures var text := "[`" + Template(name) + "` (`";
      var target := "](<https://www.twitch.tv/" + Template(login) + ">)";
      |r| >= |text| + |target| && r[|text|..|r| - |target|] == Template(login) + "` - `" + Template(id) + "`)"
  {
    var text := "[`" + Template(name) + "` (`";
    var target := "](<https://www.twitch.tv/" + Template(login) + ">)";
    var middle := Template(login) + "` - `" + Template(id) + "`)";
    var r := text + middle + target;
    assert r[..|text|] == text && r[|text|..|r| - |target|] == middle && r[|r| - |target|..] == target;
    r
  }

  /** The chat message in a code block; "N/A" when there is no message text. */
  function Description(message: Option<ChatMessage>): (r: string)
    ensures |r| >= 6 && r[..3] == "```" && r[|r| - 3..] == "```"
    ensures message.Some? && message.value.text.Some? ==> r[3..|r| - 3] == message.value.text.value
    ensures message.None? || message.value.text.None? ==> r[3..|r| - 3] == "N/A"
  {
    var text := if message.Some? then message.value.text.GetOr("N/A") else "N/A";
    "```" + text + "```"
  }

  predicate SharedBansPresent(e: SuspiciousUserEvent) {
    e.sharedBanChannelIds.Some? && |e.sharedBanChannelIds.value| > 0
  }

  predicate TypesPresent(e: SuspiciousUserEvent) {
    e.types.Some? && |e.types.value| > 0
  }

  predicate EvasionPresent(e: SuspiciousUserEvent) {
    Truthy(e.banEvasionEvaluation)
  }

  predicate MessageIdPresent(e: SuspiciousUserEvent) {
    e.message.Some? && Truthy(e.message.value.messageId)
  }

  /**
   * The three fields every embed starts with, in layout order and ranked
   * before every optional field.
   */
  function MandatoryFields(e: SuspiciousUserEvent): (r: seq<Field>)
    ensures |r| == 3 && r[0].name == "Broadcaster" && r[1].name == "User" && r[2].name == "Low Trust Status"
    ensures InLayoutOrder(r) && RanksBelow(r, 3)
  {
    Ranks();
    [
      Field("Broadcaster", UserLink(e.broadcasterUserName, e.broadcasterUserLogin, e.broadcasterUserId), false),
      Field("User", UserLink(e.userName, e.userLogin, e.userId), false),
      Field("Low Trust Status", LowTrustLabel(e.lowTrustStatus), false)
    ]
  }

  function SharedBansField(e: SuspiciousUserEvent): Field
    requires SharedBansPresent(e)
  {
    Field("Shared Ban Channels", Join(e.sharedBanChannelIds.value, ", "), false)
  }

  function TypesField(e: SuspiciousUserEvent): Field
    requires TypesPresent(e)
  {
    Field("Types", Join(e.types.value, ", "), false)
  }

  function EvasionField(e: SuspiciousUserEvent): Field
    requires EvasionPresent(e)
  {
    Field("Type of Ban Evader", e.banEvasionEvaluation.value, false)
  }

  function MessageIdField(e: SuspiciousUserEvent): Field
    requires MessageIdPresent(e)
  {
    Field("Message ID", e.message.value.messageId.value, false)
  }

  function SharedBansPart(e: SuspiciousUserEvent): seq<Field> {
    if SharedBansPresent(e) then [SharedBansField(e)] else []
  }

  function TypesPart(e: SuspiciousUserEvent): seq<Field> {
    if TypesPresent(e) then [TypesField(e)] else []
  }

  function EvasionPart(e: SuspiciousUserEvent): seq<Field> {
    if EvasionPresent(e) then [EvasionField(e)] else []
  }

  function MessageIdPart(e: SuspiciousUserEvent): seq<Field> {
    if MessageIdPresent(e) then [MessageIdField(e)] else []
  }

  /**
   * The embed for an event: red, titled, with the message as description;
   * the mandatory fields, then each optional one the event carries, so at
   * most seven, none inline.
   */
  function EmbedFor(e: SuspiciousUserEvent): (r: Embed)
    ensures var f := r.fields;
      && 3 <= |f| <= 7
      && f[0] == Field("Broadcaster", UserLink(e.broadcasterUserName, e.broadcasterUserLogin, e.broadcasterUserId), false)
      && f[1] == Field("User", UserLink(e.userName, e.userLogin, e.userId), false)
      && f[2] == Field("Low Trust Status", LowTrustLabel(e.lowTrustStatus), false)
      && (forall i | 0 <= i < |f| :: !f[i].inline)
    ensures r.color == Red && r.title == Title
    ensures r.description == Description(e.message)
  {
    Embed(Red, Title,
      MandatoryFields(e) + SharedBansPart(e) + TypesPart(e) + EvasionPart(e) + MessageIdPart(e),
      Description(e.message))
  }

  /** The payload posted to Discord: a single red embed whose fields are in layout order. */
  function PayloadFor(e: SuspiciousUserEvent): (r: DiscordPayload)
    ensures |r.embeds| == 1 && r.embeds[0].color == Red && r.embeds[0].title == Title
    ensures |r.embeds[0].fields| >= 3 && r.embeds[0].fields[..3] == MandatoryFields(e)
    ensures InLayoutOrder(r.embeds[0].fields)
    ensures r.embeds[0].fields == EmbedFor(e).fields && r.embeds[0].description == Description(e.message)
  {
    EmbedFieldOrder(e);
    DiscordPayload([EmbedFor(e)])
  }

  /**
   * Builds the payload as the handler does: the embed with its three
   * mandatory fields first, then each optional field pushed onto its field
   * list when present.
   */
  method BuildPayload(e: SuspiciousUserEvent) returns (payload: DiscordPayload)
    ensures payload == PayloadFor(e)
  {
    var fields := MandatoryFields(e);
    if e.sharedBanChannelIds.Some? && |e.sharedBanChannelIds.value| > 0 {
      fields := fields + [Field("Shared Ban Channels", Join(e.sharedBanChannelIds.value, ", "), false)];
    }
    assert fields == MandatoryFields(e) + SharedBansPart(e);
    if e.types.Some? && |e.types.value| > 0 {
      fields := fields + [Field("Types", Join(e.types.value, ", "), false)];
    }
    assert fields == MandatoryFields(e) + SharedBansPart(e) + TypesPart(e);
    if e.banEvasionEvaluation.Some? && e.banEvasionEvaluation.value != "" {
      fields := fields + [Field("Type of Ban Evader", e.banEvasionEvaluation.value, false)];
    }
    assert fields == MandatoryFields(e) + SharedBansPart(e) + TypesPart(e) + EvasionPart(e);
    if e.message.Some? && e.message.value.messageId.Some? && e.message.value.messageId.value != "" {
      fields := fields + [Field("Message ID", e.message.value.messageId.value, false)];
    }
    assert fields == EmbedFor(e).fields;
    payload := DiscordPayload([Embed(Red, Title, fields, Description(e.message))]);
  }

  /** The field names of the embed layout, in order. */
  const LayoutNames: seq<string> :=
    ["Broadcaster", "User", "Low Trust Status", "Shared Ban Channels", "Types", "Type of Ban Evader", "Message ID"]

  /** The position of `name` in `names`; |names| when absent. */
  function IndexIn(name: string, names: seq<string>): (r: nat)
    ensures r <= |names|
  {
    if names == [] then 0 else if names[0] == name then 0 else 1 + IndexIn(name, names[1..])
  }

  /** The position a field name has in the embed layout. */
  function Rank(name: string): nat {
    IndexIn(name, LayoutNames)
  }

  /** Field names appear in layout order, each at most once. */
  predicate InLayoutOrder(fields: seq<Field>) {
    forall i, j | 0 <= i < j < |fields| :: Rank(fields[i].name) < Rank(fields[j].name)
  }

  predicate RanksBelow(fields: seq<Field>, k: nat) {
    forall i | 0 <= i < |fields| :: Rank(fields[i].name) < k
  }

  /**
   * The first field with the given name, if any. The source never looks
   * fields up; this lookup is how properties of the field list are stated.
   */
  function FieldNamed(fields: seq<Field>, name: string): (r: Option<Field>)
    ensures r.Some? ==> r.value.name == name
    ensures r.Some? ==> exists i | 0 <= i < |fields| :: fields[i] == r.value && forall j | 0 <= j < i :: fields[j].name != name
    ensures r.None? ==> forall i | 0 <= i < |fields| :: fields[i].name != name
  {
    if fields == [] then None
    else if fields[0].name == name then Some(fields[0])
    else
      FieldNamed(fields[1..], name)
  }

  lemma {:induction false} FieldNamedAppend(a: seq<Field>, b: seq<Field>, name: string)
    ensures FieldNamed(a + b, name) == if FieldNamed(a, name).Some? then FieldNamed(a, name) else FieldNamed(b, name)
  {
    if a == [] {
      assert a + b == b;
    } else {
      assert (a + b)[1..] == a[1..] + b;
      FieldNamedAppend(a[1..], b, name);
    }
  }

  lemma Ranks()
    ensures Rank("Broadcaster") == 0 && Rank("User") == 1 && Rank("Low Trust Status") == 2
    ensures Rank("Shared Ban Channels") == 3 && Rank("Types") == 4
    ensures Rank("Type of Ban Evader") == 5 && Rank("Message ID") == 6
  {
  }

  /** Appending at most one field of rank `k` after fields ranked below `k` keeps the layout order. */
  lemma AppendInOrder(fields: seq<Field>, part: seq<Field>, k: nat)
    requires InLayoutOrder(fields) && RanksBelow(fields, k)
    requires |part| <= 1 && forall i | 0 <= i < |part| :: Rank(part[i].name) == k
    ensures InLayoutOrder(fields + part) && RanksBelow(fields + part, k + 1)
  {
  }

  /**
   * The field names follow the layout order Broadcaster, User, Low Trust
   * Status, Shared Ban Channels, Types, Type of Ban Evader, Message ID, and
   * none appears twice.
   */
  lemma EmbedFieldOrder(e: SuspiciousUserEvent)
    ensures InLayoutOrder(EmbedFor(e).fields)
    ensures RanksBelow(EmbedFor(e).fields, |LayoutNames|)
  {
    Ranks();
    var m := MandatoryFields(e);
    assert InLayoutOrder(m) && RanksBelow(m, 3);
    AppendInOrder(m, SharedBansPart(e), 3);
    AppendInOrder(m + SharedBansPart(e), TypesPart(e), 4);
    AppendInOrder(m + SharedBansPart(e) + TypesPart(e), EvasionPart(e), 5);
    AppendInOrder(m + SharedBansPart(e) + TypesPart(e) + EvasionPart(e), MessageIdPart(e), 6);
    assert |LayoutNames| == 7;
  }

  predicate RanksAbove(fields: seq<Field>, k: nat) {
    forall i | 0 <= i < |fields| :: Rank(fields[i].name) > k
  }

  lemma RanksAboveAppend(a: seq<Field>, b: seq<Field>, k: nat)
    requires RanksAbove(a, k) && RanksAbove(b, k)
    ensures RanksAbove(a + b, k)
  {
  }

  /**
   * In fields ranked below `k`, then at most one field named `name` of rank
   * `k`, then fields ranked above `k`, the lookup of `name` finds that one
   * field or nothing.
   */
  lemma FieldNamedInLayout(pre: seq<Field>, part: seq<Field>, post: seq<Field>, name: string, k: nat)
    requires RanksBelow(pre, k) && RanksAbove(post, k) && Rank(name) == k
    requires |part| <= 1 && (part != [] ==> part[0].name == name)
    ensures FieldNamed(pre + part + post, name) == if part == [] then None else Some(part[0])
  {
    FieldNamedAbsent(pre, name);
    FieldNamedAbsent(post, name);
    FieldNamedAppend(pre + part, post, name);
    FieldNamedAppend(pre, part, name);
  }

  /** A name no field carries is not found. */
  lemma {:induction false} FieldNamedAbsent(fields: seq<Field>, name: string)
    requires forall i | 0 <= i < |fields| :: fields[i].name != name
    ensures FieldNamed(fields, name) == None
  {
    if fields != [] {
      FieldNamedAbsent(fields[1..], name);
    }
  }

  lemma Regroup(m: seq<Field>, s: seq<Field>, t: seq<Field>, v: seq<Field>, i: seq<Field>)
    ensures m + s + t + v + i == m + s + (t + (v + i))
    ensures m + s + t + v + i == (m + s) + t + (v + i)
  {
  }

  /** Where each part of the field list sits in the layout. */
  lemma PartsInLayout(e: SuspiciousUserEvent)
    ensures var m, s, t, v := MandatoryFields(e), SharedBansPart(e), TypesPart(e), EvasionPart(e);
      RanksBelow(m + s, 4) && RanksBelow(m + s + t, 5) && RanksBelow(m + s + t + v, 6)
    ensures RanksAbove(TypesPart(e) + (EvasionPart(e) + MessageIdPart(e)), 3)
    ensures RanksAbove(EvasionPart(e) + MessageIdPart(e), 4)
    ensures RanksAbove(MessageIdPart(e), 5)
  {
    Ranks();
    var m, s, t, v, i := MandatoryFields(e), SharedBansPart(e), TypesPart(e), EvasionPart(e), MessageIdPart(e);
    assert InLayoutOrder(m) && RanksBelow(m, 3);
    AppendInOrder(m, s, 3);
    AppendInOrder(m + s, t, 4);
    AppendInOrder(m + s + t, v, 5);
    assert RanksAbove(i, 5) && RanksAbove(v, 4) && RanksAbove(t, 3);
    RanksAboveAppend(v, i, 4);
    RanksAboveAppend(t, v + i, 3);
  }

  lemma EmbedSharedBans(e: SuspiciousUserEvent)
    ensures FieldNamed(EmbedFor(e).fields, "Shared Ban Channels") ==
      if SharedBansPresent(e) then Some(SharedBansField(e)) else None
  {
    Ranks();
    PartsInLayout(e);
    var m, s, t, v, i := MandatoryFields(e), SharedBansPart(e), TypesPart(e), EvasionPart(e), MessageIdPart(e);
    assert RanksBelow(m, 3);
    Regroup(m, s, t, v, i);
    FieldNamedInLayout(m, s, t + (v + i), "Shared Ban Channels", 3);
  }

  lemma EmbedTypes(e: SuspiciousUserEvent)
    ensures FieldNamed(EmbedFor(e).fields, "Types") ==
      if TypesPresent(e) then Some(TypesField(e)) else None
  {
    Ranks();
    PartsInLayout(e);
    var m, s, t, v, i := MandatoryFields(e), SharedBansPart(e), TypesPart(e), EvasionPart(e), MessageIdPart(e);
    Regroup(m, s, t, v, i);
    FieldNamedInLayout(m + s, t, v + i, "Types", 4);
  }

  lemma EmbedEvasion(e: SuspiciousUserEvent)
    ensures FieldNamed(EmbedFor(e).fields, "Type of Ban Evader") ==
      if EvasionPresent(e) then Some(EvasionField(e)) else None
  {
    Ranks();
    PartsInLayout(e);
    var m, s, t, v, i := MandatoryFields(e), SharedBansPart(e), TypesPart(e), EvasionPart(e), MessageIdPart(e);
    FieldNamedInLayout(m + s + t, v, i, "Type of Ban Evader", 5);
  }

  lemma EmbedMessageId(e: SuspiciousUserEvent)
    ensures FieldNamed(EmbedFor(e).fields, "Message ID") ==
      if MessageIdPresent(e) then Some(MessageIdField(e)) else None
  {
    Ranks();
    PartsInLayout(e);
    var m, s, t, v, i := MandatoryFields(e), SharedBansPart(e), TypesPart(e), EvasionPart(e), MessageIdPart(e);
    assert m + s + t + v + i + [] == m + s + t + v + i;
    FieldNamedInLayout(m + s + t + v, i, [], "Message ID", 6);
  }

  /**
   * Each optional field is in the embed exactly when the event carries it
   * (a non-empty list, or a non-empty string), with a list joined by ", ".
   */
  lemma EmbedOptionalFields(e: SuspiciousUserEvent)
    ensures FieldNamed(EmbedFor(e).fields, "Shared Ban Channels") ==
      if SharedBansPresent(e) then Some(Field("Shared Ban Channels", Join(e.sharedBanChannelIds.value, ", "), false)) else None
    ensures FieldNamed(EmbedFor(e).fields, "Types") ==
      if TypesPresent(e) then Some(Field("Types", Join(e.types.value, ", "), false)) else None
    ensures FieldNamed(EmbedFor(e).fields, "Type of Ban Evader") ==
      if EvasionPresent(e) then Some(Field("Type of Ban Evader", e.banEvasionEvaluation.value, false)) else None
    ensures FieldNamed(EmbedFor(e).fields, "Message ID") ==
      if MessageIdPresent(e) then Some(Field("Message ID", e.message.value.messageId.value, false)) else None
  {
    EmbedSharedBans(e);
    EmbedTypes(e);
    EmbedEvasion(e);
    EmbedMessageId(e);
  }

  /** An event with no optional members gets just the three mandatory fields, and "N/A" in the code block. */
  lemma BareEventEmbed(e: SuspiciousUserEvent)
    requires e.sharedBanChannelIds.None? && e.types.None? && e.banEvasionEvaluation.None? && e.message.None?
    ensures EmbedFor(e).fields == MandatoryFields(e)
    ensures EmbedFor(e).description == "```N/A```"
    ensures e.lowTrustStatus.None? ==> EmbedFor(e).fields[2].value == "N/A"
  {
    assert MandatoryFields(e) + [] == MandatoryFields(e);
  }

  /**
   * The Discord webhook URL: the configured URL with `?wait=true`, and
   * `&thread_id=` with the thread id appended exactly when one is set and
   * not empty.
   */
  function WebhookUrl(base: Option<string>, threadId: Option<string>): (r: string)
    ensures |r| >= |Template(base)| + 10
    ensures r[..|Template(base)| + 10] == Template(base) + "?wait=true"
    ensures Truthy(threadId) <==> |r| > |Template(base)| + 10
    ensures Truthy(threadId) ==> r[|Template(base)| + 10..] == "&thread_id=" + threadId.value
  {
    var url := Template(base) + "?wait=true";
    if Truthy(threadId) then url + "&thread_id=" + threadId.value else url
  }

  /** Builds the webhook URL as the handler does, appending the thread parameter in place. */
  method BuildWebhookUrl(base: Option<string>, threadId: Option<string>) returns (url: string)
    ensures url == WebhookUrl(base, threadId)
  {
    url := Template(base) + "?wait=true";
    if threadId.Some? && threadId.value != "" {
      url := url + "&thread_id=" + threadId.value;
    }
  }
}
