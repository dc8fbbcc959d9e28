/**
 * TwitterTransport: the same stream lifecycle as the input, but the listener
 * hands each status's raw JSON to the input's processRawMessage, to be decoded
 * later by the codec; the stream is built with the JSON store enabled so that
 * the raw JSON is kept.
 */
module Transport {
  import opened Wrappers
  import opened Messages
  import opened TrackTerms
  import opened Settings
  import opened Twitter4j
  import opened Codec
  import Input

  /**
   * What the transport's StatusListener hands to processRawMessage for one event:
   * the UTF-8 bytes of the status's raw JSON (rawJson stands for
   * TwitterObjectFactory.getRawJSON), and nothing for any other callback. An
   * IOException from processRawMessage is logged and dropped, so it does not stop
   * the listener.
   */
  function OnEvent(e: StreamEvent, rawJson: Status -> seq<byte>): (handed: seq<RawMessage>)
    ensures |handed| <= 1
    ensures handed != [] <==> e.OnStatus?
    ensures e.OnStatus? ==> handed[0].payload == rawJson(e.status)
  {
    match e
    case OnStatus(status) => [RawMessage(rawJson(status))]
    case _ => []
  }

  /** The raw messages handed over for a sequence of events, in delivery order. */
  function HandedFor(events: seq<StreamEvent>, rawJson: Status -> seq<byte>): seq<RawMessage>
  {
    if events == [] then [] else OnEvent(events[0], rawJson) + HandedFor(events[1..], rawJson)
  }

  /** The codec run on one raw message: its message, or nothing when it does not parse. */
  function DecodeOne(raw: RawMessage, createStatus: seq<byte> -> Option<Status>): seq<Message>
  {
    match Decode(raw, createStatus)
    case None => []
    case Some(m) => [m]
  }

  /** The codec run over the journal: one message per payload that parses, in order. */
  function DecodeAll(raws: seq<RawMessage>, createStatus: seq<byte> -> Option<Status>): seq<Message>
  {
    if raws == [] then [] else DecodeOne(raws[0], createStatus) + DecodeAll(raws[1..], createStatus)
  }

  lemma {:induction false} DecodeAllConcat(a: seq<RawMessage>, b: seq<RawMessage>, createStatus: seq<byte> -> Option<Status>)
    ensures DecodeAll(a + b, createStatus) == DecodeAll(a, createStatus) + DecodeAll(b, createStatus)
    decreases |a|
  {
    if a == [] {
      assert a + b == b;
    } else {
      var ab := a + b;
      assert ab[0] == a[0] && ab[1..] == a[1..] + b;
      DecodeAllConcat(a[1..], b, createStatus);
    }
  }

  /**
   * The two routes agree: when parsing the raw JSON of each status the stream
   * delivers gives that status back, decoding what the transport hands over yields exactly the messages the
   * input's listener inserts for the same events.
   */
  lemma {:induction false} TransportThenCodecMatchesInput(
    events: seq<StreamEvent>, rawJson: Status -> seq<byte>, createStatus: seq<byte> -> Option<Status>)
    requires forall i :: 0 <= i < |events| && events[i].OnStatus? ==>
      createStatus(rawJson(events[i].status)) == Some(events[i].status)
    ensures DecodeAll(HandedFor(events, rawJson), createStatus) == Input.InsertedFor(events)
  {
    if events != [] {
      var handed := OnEvent(events[0], rawJson);
      DecodeAllConcat(handed, HandedFor(events[1..], rawJson), createStatus);
      assert forall i :: 0 <= i < |events[1..]| ==> events[1..][i] == events[i + 1];
      TransportThenCodecMatchesInput(events[1..], rawJson, createStatus);
      if events[0].OnStatus? {
        assert handed[1..] == [];
        assert DecodeAll(handed, createStatus) == DecodeOne(handed[0], createStatus);
        assert DecodeAll(handed, createStatus) == Input.OnEvent(events[0]);
      }
    }
  }

  class TwitterTransport {
    const configuration: Configuration
    var twitterStream: TwitterStream?

    constructor (configuration: Configuration)
      ensures this.configuration == configuration && twitterStream == null
    {
      this.configuration := configuration;
      twitterStream := null;
    }

    /**
     * launch: the keywords are split into the track list (a missing keywords
     * setting makes the splitter throw); a stream with the JSON store enabled is
     * created only when none is held; then the raw-message listener is added and
     * filter is called. There is no configuration check here.
     */
    method Launch() returns (r: Outcome<Input.LaunchError>)
      modifies this`twitterStream, twitterStream
      ensures r.Fail? <==> Keywords !in configuration
      ensures r.Fail? ==> r.error == Input.KeywordsNotSet && twitterStream == old(twitterStream)
      ensures r.Fail? && twitterStream != null ==> twitterStream.calls == old(twitterStream.calls)
      ensures r.Pass? ==> twitterStream != null
      ensures r.Pass? && old(twitterStream) != null ==>
        && twitterStream == old(twitterStream)
        && twitterStream.calls == old(twitterStream.calls) + Input.LaunchCalls(RawMessageListener, configuration[Keywords])
      ensures r.Pass? && old(twitterStream) == null ==>
        && fresh(twitterStream)
        && twitterStream.configuration == StreamConfigurationOf(configuration, true)
        && twitterStream.calls == Input.LaunchCalls(RawMessageListener, configuration[Keywords])
    {
      var keywords := GetString(configuration, Keywords);
      if keywords.None? {
        return Fail(Input.KeywordsNotSet);
      }
      var query := FilterQuery(Track(keywords.value));
      var stream := twitterStream;
      if stream == null {
        stream := new TwitterStream(StreamConfigurationOf(configuration, true));
        twitterStream := stream;
      }
      Input.Subscribe(stream, RawMessageListener, query);
      return Pass;
    }

    /** stop: cleanUp, then shutdown, on the held stream. */
    method Stop() returns (r: Outcome<Input.StopError>)
      modifies twitterStream
      ensures r.Fail? <==> twitterStream == null
      ensures r.Fail? ==> r.error == Input.NoStream
      ensures twitterStream != null ==> twitterStream.calls == old(twitterStream.calls) + [CleanUp, Shutdown]
    {
      if twitterStream == null {
        return Fail(Input.NoStream);
      }
      twitterStream.CleanUp();
      twitterStream.Shutdown();
      return Pass;
    }
  }

  /**
   * A transport launched once and then stopped makes exactly these calls, on a
   * stream created with the JSON store enabled.
   */
  method LaunchThenStop(configuration: Configuration) returns (stream: TwitterStream?, calls: seq<StreamCall>)
    requires Keywords in configuration
    ensures stream != null && stream.configuration.jsonStoreEnabled
    ensures calls == Input.LaunchCalls(RawMessageListener, configuration[Keywords]) + [CleanUp, Shutdown]
  {
    var transport := new TwitterTransport(configuration);
    var launched := transport.Launch();
    stream := transport.twitterStream;
    var stopped := transport.Stop();
    calls := stream.calls;
  }
}
