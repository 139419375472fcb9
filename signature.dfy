/**
 * Twitch EventSub webhook signatures: the signed message, the expected tag,
 * and `verifyMessage`'s byte comparison through `crypto.timingSafeEqual`.
 * The HMAC-SHA256 hex digest is the parameter `hmac(secret, message)`.
 */
module Signature {
  import opened Wrappers
  import opened EventSub
  import Utf8
  import JsText

  const HmacPrefix := "sha256="

  /**
   * JavaScript's `id + timestamp` on two header values, either of which may be
   * undefined: an undefined string operand renders as "undefined", and two
   * undefined operands add to NaN.
   */
  function HeaderSum(id: Option<string>, timestamp: Option<string>): (r: string)
    ensures id.Some? || timestamp.Some? ==> r == JsText.Template(id) + JsText.Template(timestamp)
    ensures id.None? && timestamp.None? ==> r == "NaN"
  {
    match (id, timestamp)
    case (Some(a), Some(b)) => a + b
    case (Some(a), None) => a + "undefined"
    case (None, Some(b)) => "undefined" + b
    case (None, None) => "NaN"
  }

  /**
   * The signed message: message id, timestamp and raw body, concatenated with
   * no separator. The body always comes last and unchanged.
   */
  function SignedMessage(id: Option<string>, timestamp: Option<string>, body: string): (r: string)
    ensures id.Some? && timestamp.Some? ==> r == id.value + timestamp.value + body
    ensures |r| >= |body| && r[|r| - |body|..] == body
  {
    HeaderSum(id, timestamp) + body
  }

  /**
   * With ids and timestamps of fixed lengths (Twitch's message ids are UUIDs),
   * the signed message determines all three parts.
   */
  lemma SignedMessageDeterminesParts(id1: string, ts1: string, body1: string, id2: string, ts2: string, body2: string)
    requires |id1| == |id2| && |ts1| == |ts2|
    requires SignedMessage(Some(id1), Some(ts1), body1) == SignedMessage(Some(id2), Some(ts2), body2)
    ensures id1 == id2 && ts1 == ts2 && body1 == body2
  {
    var m := SignedMessage(Some(id1), Some(ts1), body1);
    assert m[..|id1|] == id1 && m[..|id2|] == id2;
    assert m[|id1|..|id1| + |ts1|] == ts1 && m[|id2|..|id2| + |ts2|] == ts2;
    assert m[|id1| + |ts1|..] == body1 && m[|id2| + |ts2|..] == body2;
  }

  /** The expected tag: the literal prefix `sha256=` and then the HMAC hex digest of the message. */
  function ExpectedTag(hmac: (string, string) -> string, secret: string, message: string): (r: string)
    ensures |r| == |HmacPrefix| + |hmac(secret, message)|
    ensures r[..|HmacPrefix|] == HmacPrefix
    ensures r[|HmacPrefix|..] == hmac(secret, message)
  {
    HmacPrefix + hmac(secret, message)
  }

  /**
   * `verifyMessage(tag, supplied)`: both strings are turned into UTF-8 buffers.
   * A missing signature header throws a TypeError, buffers of different
   * lengths throw a RangeError, and otherwise the result is byte equality.
   */
  function Verify(tag: string, supplied: Option<string>): (r: Result<bool, JsError>)
    ensures r == Err(TypeError) <==> supplied.None?
    ensures r == Err(RangeError) <==>
      supplied.Some? && |Utf8.Encode(supplied.value)| != |Utf8.Encode(tag)|
    ensures r.Err? ==> r.error in {TypeError, RangeError}
  {
    match supplied
    case None => Err(TypeError)
    case Some(s) =>
      var expected, given := Utf8.Encode(tag), Utf8.Encode(s);
      if |expected| != |given| then Err(RangeError) else Ok(expected == given)
  }

  /** Verification succeeds exactly for the tag itself; any other signature of the same byte length is refused. */
  lemma VerifyAcceptsOnlyTheTag(tag: string, supplied: Option<string>)
    ensures Verify(tag, supplied) == Ok(true) <==> supplied == Some(tag)
    ensures Verify(tag, supplied) == Ok(false) <==>
      supplied.Some? && supplied.value != tag && |Utf8.Encode(supplied.value)| == |Utf8.Encode(tag)|
  {
    if supplied.Some? {
      Utf8.EncodeInjective(tag, supplied.value);
    }
  }

  /** An ASCII signature whose length differs from an ASCII tag's makes `verifyMessage` throw. */
  lemma AsciiLengthMismatchThrows(tag: string, supplied: string)
    requires forall i | 0 <= i < |tag| :: tag[i] as int < 0x80
    requires forall i | 0 <= i < |supplied| :: supplied[i] as int < 0x80
    requires |supplied| != |tag|
    ensures Verify(tag, Some(supplied)) == Err(RangeError)
  {
  }
}
