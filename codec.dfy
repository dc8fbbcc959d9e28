/** TwitterCodec.decode: from a raw journal payload to a Graylog message, or none. */
module Codec {
  import opened Wrappers
  import opened Messages
  import opened Normalizer

  /**
   * The payload is read as UTF-8 JSON and handed to TwitterObjectFactory.createStatus,
   * given here as the parameter createStatus (None where it throws TwitterException).
   * A payload that does not parse yields no message (decode returns null) instead of
   * an exception; one that parses yields the normalised message of its status.
   */
  function Decode(raw: RawMessage, createStatus: seq<byte> -> Option<Status>): (m: Option<Message>)
    ensures m.None? <==> createStatus(raw.payload).None?
    ensures m.Some? ==> m.value == CreateMessageFromStatus(createStatus(raw.payload).value)
  {
    match createStatus(raw.payload)
    case None => None
    case Some(status) => Some(CreateMessageFromStatus(status))
  }

  /**
   * A decoded message comes from host twitter.com, carries the status text as its
   * message and the status id under tweet_id.
   */
  lemma DecodedMessageBasics(raw: RawMessage, createStatus: seq<byte> -> Option<Status>, s: Status)
    requires createStatus(raw.payload) == Some(s)
    ensures Decode(raw, createStatus).Some?
    ensures var m := Decode(raw, createStatus).value;
      m.source == "twitter.com" && m.message == s.text && GetField(m.fields, "tweet_id") == Some(Number(s.id))
  {
    RequiredFieldValues(s);
  }

  /**
   * Decoding keeps everything the parser produced: reading the status back from
   * the decoded message gives exactly what createStatus returned, and nothing
   * when it failed.
   */
  lemma DecodeLossless(raw: RawMessage, createStatus: seq<byte> -> Option<Status>)
    ensures (match Decode(raw, createStatus) case None => None case Some(m) => StatusFromMessage(m))
            == createStatus(raw.payload)
  {
    if createStatus(raw.payload).Some? {
      NormalizationLossless(createStatus(raw.payload).value);
    }
  }
}
