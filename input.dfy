/**
 * TwitterInput: the configuration check, the attribute view with the two secrets
 * masked, the status listener, and launch/stop driving the TwitterStream handle,
 * which is created lazily by launch unless one was injected.
 */
module Input {
  import opened Wrappers
  import opened Messages
  import opened Normalizer
  import opened TrackTerms
  import opened Settings
  import opened Twitter4j

  /** The keys checkConfiguration requires, in the order it checks them. */
  const MandatoryConfigFields: seq<string> := [ConsumerKey, ConsumerSecret, AccessToken, AccessTokenSecret]

  /** The ConfigurationException message for an unset mandatory key. */
  function MissingKeyMessage(key: string): string
  {
    key + " must not be empty."
  }

  /** The position of the first key in keys that is not set; |keys| when all are. */
  function FirstUnset(c: Configuration, keys: seq<string>): (i: nat)
    ensures i <= |keys|
    ensures forall j :: 0 <= j < i ==> StringIsSet(c, keys[j])
    ensures i < |keys| ==> !StringIsSet(c, keys[i])
  {
    if keys == [] || !StringIsSet(c, keys[0]) then 0
    else 1 + FirstUnset(c, keys[1..])
  }

  /** Two configurations that agree on which of the keys are set fail on the same key. */
  lemma {:induction false} FirstUnsetDependsOnlyOnKeys(c: Configuration, d: Configuration, keys: seq<string>)
    requires forall k :: k in keys ==> (StringIsSet(c, k) <==> StringIsSet(d, k))
    ensures FirstUnset(c, keys) == FirstUnset(d, keys)
    decreases |keys|
  {
    if keys != [] {
      assert keys[0] in keys;
      assert forall k :: k in keys[1..] ==> k in keys;
      FirstUnsetDependsOnlyOnKeys(c, d, keys[1..]);
    }
  }

  /** The keywords setting is not checked: adding, changing or removing it changes nothing. */
  lemma KeywordsNotRequired(c: Configuration, keywords: string)
    ensures FirstUnset(c[Keywords := keywords], MandatoryConfigFields) == FirstUnset(c, MandatoryConfigFields)
    ensures FirstUnset(c - {Keywords}, MandatoryConfigFields) == FirstUnset(c, MandatoryConfigFields)
  {
    FirstUnsetDependsOnlyOnKeys(c[Keywords := keywords], c, MandatoryConfigFields);
    FirstUnsetDependsOnlyOnKeys(c - {Keywords}, c, MandatoryConfigFields);
  }

  /** The configuration the input's unit tests use. */
  function TestConfiguration(): Configuration
  {
    map[Keywords := "TEST_keywords1,TEST_keywords2",
        ConsumerKey := "TEST_oauth_consumer_key",
        ConsumerSecret := "TEST_oauth_consumer_secret",
        AccessToken := "TEST_oauth_access_token",
        AccessTokenSecret := "TEST_oauth_access_token_secret"]
  }

  /**
   * The checkConfiguration tests: the full test configuration and the one without
   * keywords pass; removing any one OAuth key fails on that key.
   */
  lemma CheckConfigurationTests()
    ensures FirstUnset(TestConfiguration(), MandatoryConfigFields) == 4
    ensures FirstUnset(TestConfiguration() - {Keywords}, MandatoryConfigFields) == 4
    ensures forall i :: 0 <= i < 4 ==>
      FirstUnset(TestConfiguration() - {MandatoryConfigFields[i]}, MandatoryConfigFields) == i
  {
    var c := TestConfiguration();
    assert FirstUnset(c, MandatoryConfigFields) == 4;
    KeywordsNotRequired(c, c[Keywords]);
    forall i | 0 <= i < 4
      ensures FirstUnset(c - {MandatoryConfigFields[i]}, MandatoryConfigFields) == i
    {
      var d := c - {MandatoryConfigFields[i]};
      assert !StringIsSet(d, MandatoryConfigFields[i]);
      assert forall j :: 0 <= j < 4 && j != i ==> StringIsSet(d, MandatoryConfigFields[j]);
    }
  }

  /** Why launch can fail before touching the stream. */
  datatype LaunchError =
    | KeywordsNotSet  // Splitter.split throws when handed a null string

  /** Why stop can fail. */
  datatype StopError =
    | NoStream  // twitterStream.cleanUp() is called on a null field and throws

  /** The calls launch makes on the stream: register the listener, then filter. */
  function LaunchCalls(listener: Listener, keywords: string): seq<StreamCall>
  {
    [AddListener(listener), Filter(FilterQuery(Track(keywords)))]
  }

  /** Registers the listener on the stream, then starts filtering with the query. */
  method Subscribe(stream: TwitterStream, listener: Listener, query: FilterQuery)
    modifies stream
    ensures stream.calls == old(stream.calls) + [AddListener(listener), Filter(query)]
  {
    stream.AddListener(listener);
    stream.Filter(query);
  }

  /** The mask getAttributes shows in place of a secret. */
  const Mask := "****"

  predicate IsSecret(key: string)
  {
    key == AccessTokenSecret || key == ConsumerSecret
  }

  /** The entry transformer of getAttributes. */
  function RedactEntry(key: string, value: string): string
  {
    if IsSecret(key) then Mask else value
  }

  /** getAttributes: every setting, with the two OAuth secrets replaced by the mask. */
  function Redact(source: Configuration): (view: Configuration)
    ensures view.Keys == source.Keys
    ensures forall k :: k in view && IsSecret(k) ==> view[k] == Mask
    ensures forall k :: k in view && !IsSecret(k) ==> view[k] == source[k]
  {
    map k | k in source :: RedactEntry(k, source[k])
  }

  /** Masking twice is masking once. */
  lemma RedactIdempotent(source: Configuration)
    ensures Redact(Redact(source)) == Redact(source)
  {
    var once := Redact(source);
    var twice := Redact(once);
    assert forall k :: k in twice ==> twice[k] == once[k];
  }

  /** Only the two secrets can change, and a changed value is always the mask. */
  lemma RedactChangesOnlySecrets(source: Configuration)
    ensures forall k :: k in source && Redact(source)[k] != source[k] ==> IsSecret(k) && Redact(source)[k] == Mask
  {
  }

  /** The getAttributes test: both secrets of the test configuration read "****". */
  lemma GetAttributesTest()
    ensures ConsumerSecret in Redact(TestConfiguration()) && AccessTokenSecret in Redact(TestConfiguration())
    ensures Redact(TestConfiguration())[ConsumerSecret] == "****"
    ensures Redact(TestConfiguration())[AccessTokenSecret] == "****"
  {
  }

  /** What the input's StatusListener inserts into the process buffer for one event. */
  function OnEvent(e: StreamEvent): (inserted: seq<Message>)
    ensures |inserted| <= 1
    ensures inserted != [] <==> e.OnStatus?
  {
    match e
    case OnStatus(status) => [CreateMessageFromStatus(status)]
    case _ => []
  }

  /** The messages inserted for a sequence of events, in delivery order. */
  function InsertedFor(events: seq<StreamEvent>): seq<Message>
  {
    if events == [] then [] else OnEvent(events[0]) + InsertedFor(events[1..])
  }

  /** The statuses among the events, in order. */
  function StatusesOf(events: seq<StreamEvent>): (statuses: seq<Status>)
    ensures |statuses| <= |events|
  {
    if events == [] then []
    else (if events[0].OnStatus? then [events[0].status] else []) + StatusesOf(events[1..])
  }

  /**
   * One message per status, in order, and none for deletion notices, track
   * limitation notices, scrub-geo events, stall warnings or exceptions.
   */
  lemma {:induction false} InsertedForStatuses(events: seq<StreamEvent>)
    ensures |InsertedFor(events)| == |StatusesOf(events)|
    ensures forall i :: 0 <= i < |InsertedFor(events)| ==>
      InsertedFor(events)[i] == CreateMessageFromStatus(StatusesOf(events)[i])
  {
    if events != [] {
      var rest := events[1..];
      InsertedForStatuses(rest);
      var head := if events[0].OnStatus? then [events[0].status] else [];
      assert StatusesOf(events) == head + StatusesOf(rest);
      assert InsertedFor(events) == OnEvent(events[0]) + InsertedFor(rest);
      assert |OnEvent(events[0])| == |head|;
      forall i | 0 <= i < |InsertedFor(events)|
        ensures InsertedFor(events)[i] == CreateMessageFromStatus(StatusesOf(events)[i])
      {
        if i < |head| {
          assert InsertedFor(events)[i] == OnEvent(events[0])[0];
          assert StatusesOf(events)[i] == events[0].status;
        } else {
          assert InsertedFor(events)[i] == InsertedFor(rest)[i - |head|];
          assert StatusesOf(events)[i] == StatusesOf(rest)[i - |head|];
        }
      }
    }
  }

  class TwitterInput {
    var configuration: Configuration
    var twitterStream: TwitterStream?

    /** The public constructor: no stream yet. */
    constructor ()
      ensures configuration == map[] && twitterStream == null
    {
      configuration := map[];
      twitterStream := null;
    }

    /** The constructor the tests use to inject a stream. */
    constructor WithStream(stream: TwitterStream)
      ensures configuration == map[] && twitterStream == stream
    {
      configuration := map[];
      twitterStream := stream;
    }

    method SetConfiguration(c: Configuration)
      modifies this`configuration
      ensures configuration == c
    {
      configuration := c;
    }

    /**
     * checkConfiguration: the mandatory keys in order; the first one not set is
     * reported as "<key> must not be empty.".
     */
    method CheckConfiguration(c: Configuration) returns (r: Outcome<string>)
      ensures r.Pass? <==> forall k :: k in MandatoryConfigFields ==> StringIsSet(c, k)
      ensures var i := FirstUnset(c, MandatoryConfigFields);
        i < |MandatoryConfigFields| ==> r == Fail(MissingKeyMessage(MandatoryConfigFields[i]))
    {
      for i := 0 to |MandatoryConfigFields|
        invariant forall j :: 0 <= j < i ==> StringIsSet(c, MandatoryConfigFields[j])
      {
        var key := MandatoryConfigFields[i];
        if !StringIsSet(c, key) {
          return Fail(MissingKeyMessage(key));
        }
      }
      return Pass;
    }

    /** getAttributes. */
    function GetAttributes(): (view: Configuration)
      reads this
      ensures view.Keys == configuration.Keys
      ensures forall k :: k in view ==> view[k] == RedactEntry(k, configuration[k])
    {
      Redact(configuration)
    }

    /**
     * launch: the keywords are split into the track list (a missing keywords setting
     * makes the splitter throw before anything else happens); a stream is created
     * from the OAuth settings only when none is held; then the listener is added
     * and filter is called with the track list.
     */
    method Launch() returns (r: Outcome<LaunchError>)
      modifies this`twitterStream, twitterStream
      ensures r.Fail? <==> Keywords !in configuration
      ensures r.Fail? ==> r.error == KeywordsNotSet && twitterStream == old(twitterStream)
      ensures r.Fail? && twitterStream != null ==> twitterStream.calls == old(twitterStream.calls)
      ensures r.Pass? ==> twitterStream != null
      ensures r.Pass? && old(twitterStream) != null ==>
        && twitterStream == old(twitterStream)
        && twitterStream.calls == old(twitterStream.calls) + LaunchCalls(BufferingListener, configuration[Keywords])
      ensures r.Pass? && old(twitterStream) == null ==>
        && fresh(twitterStream)
        && twitterStream.configuration == StreamConfigurationOf(configuration, false)
        && twitterStream.calls == LaunchCalls(BufferingListener, configuration[Keywords])
    {
      var keywords := GetString(configuration, Keywords);
      if keywords.None? {
        return Fail(KeywordsNotSet);
      }
      var query := FilterQuery(Track(keywords.value));
      var stream := twitterStream;
      if stream == null {
        stream := new TwitterStream(StreamConfigurationOf(configuration, false));
        twitterStream := stream;
      }
      Subscribe(stream, BufferingListener, query);
      return Pass;
    }

    /** stop: cleanUp, then shutdown, on the held stream; nothing else. */
    method Stop() returns (r: Outcome<StopError>)
      modifies twitterStream
      ensures r.Fail? <==> twitterStream == null
      ensures r.Fail? ==> r.error == NoStream
      ensures twitterStream != null ==> twitterStream.calls == old(twitterStream.calls) + [CleanUp, Shutdown]
    {
      if twitterStream == null {
        return Fail(NoStream);
      }
      twitterStream.CleanUp();
      twitterStream.Shutdown();
      return Pass;
    }
  }

  /** A stream created by the factory in the tests' place: any configuration will do. */
  function MockConfiguration(): StreamConfiguration
  {
    StreamConfiguration(None, None, None, None, false)
  }

  /** launch on an injected stream with the test configuration and the given keywords: the listener, then the filter. */
  method LaunchOnInjectedStream(keywords: string) returns (calls: seq<StreamCall>)
    ensures calls == LaunchCalls(BufferingListener, keywords)
  {
    var stream := new TwitterStream(MockConfiguration());
    var input := new TwitterInput.WithStream(stream);
    input.SetConfiguration(TestConfiguration()[Keywords := keywords]);
    var r := input.Launch();
    calls := stream.calls;
  }

  /**
   * testLaunch: with an injected stream and the test keywords, launch adds the
   * listener and filters on exactly the two test keywords.
   */
  method TestLaunch() returns (calls: seq<StreamCall>)
    ensures calls == [AddListener(BufferingListener), Filter(FilterQuery(["TEST_keywords1", "TEST_keywords2"]))]
  {
    TrackOfTestKeywords();
    calls := LaunchOnInjectedStream("TEST_keywords1,TEST_keywords2");
  }

  /** testStop: stop on an injected stream calls cleanUp and shutdown once each and nothing else. */
  method TestStop() returns (calls: seq<StreamCall>)
    ensures calls == [CleanUp, Shutdown]
  {
    var stream := new TwitterStream(MockConfiguration());
    var input := new TwitterInput.WithStream(stream);
    var r := input.Stop();
    calls := stream.calls;
  }

  /** stop before any launch has no stream to stop and fails. */
  method StopBeforeLaunch() returns (r: Outcome<StopError>)
    ensures r == Fail(NoStream)
  {
    var input := new TwitterInput();
    r := input.Stop();
  }

  /**
   * launch is not idempotent: a second launch reuses the stream but registers a
   * second listener and filters again.
   */
  method LaunchTwice(keywords: string) returns (calls: seq<StreamCall>)
    ensures calls == LaunchCalls(BufferingListener, keywords) + LaunchCalls(BufferingListener, keywords)
  {
    var input := new TwitterInput();
    input.SetConfiguration(TestConfiguration()[Keywords := keywords]);
    var first := input.Launch();
    var stream := input.twitterStream;
    var second := input.Launch();
    calls := stream.calls;
  }
}
