/**
 * The part of twitter4j the input and the transport drive: the configuration
 * handed to TwitterStreamFactory, the filter query, the listener callbacks, and
 * the TwitterStream handle itself, reduced to the log of calls it receives.
 */
module Twitter4j {
  import opened Wrappers
  import opened Messages
  import opened Settings

  /** What ConfigurationBuilder.build() receives before the stream is created. */
  datatype StreamConfiguration = StreamConfiguration(
    consumerKey: Option<string>,
    consumerSecret: Option<string>,
    accessToken: Option<string>,
    accessTokenSecret: Option<string>,
    jsonStoreEnabled: bool)

  /** The four OAuth settings as read with getString, plus the JSON-store flag. */
  function StreamConfigurationOf(c: Configuration, jsonStoreEnabled: bool): StreamConfiguration
  {
    StreamConfiguration(
      GetString(c, ConsumerKey), GetString(c, ConsumerSecret),
      GetString(c, AccessToken), GetString(c, AccessTokenSecret),
      jsonStoreEnabled)
  }

  /**
   * The stream is configured from the four OAuth settings alone: two configurations
   * that agree on those (keywords and any other setting aside) configure the same stream.
   */
  lemma StreamConfigurationUsesOnlyOAuth(c: Configuration, d: Configuration, jsonStoreEnabled: bool)
    requires forall k :: k in [ConsumerKey, ConsumerSecret, AccessToken, AccessTokenSecret] ==>
      (k in c <==> k in d) && (k in c ==> c[k] == d[k])
    ensures StreamConfigurationOf(c, jsonStoreEnabled) == StreamConfigurationOf(d, jsonStoreEnabled)
  {
    assert ConsumerKey in [ConsumerKey, ConsumerSecret, AccessToken, AccessTokenSecret];
    assert ConsumerSecret in [ConsumerKey, ConsumerSecret, AccessToken, AccessTokenSecret];
    assert AccessToken in [ConsumerKey, ConsumerSecret, AccessToken, AccessTokenSecret];
    assert AccessTokenSecret in [ConsumerKey, ConsumerSecret, AccessToken, AccessTokenSecret];
  }

  /** Changing or removing the keywords setting never changes the stream's configuration. */
  lemma StreamConfigurationIgnoresKeywords(c: Configuration, keywords: string, jsonStoreEnabled: bool)
    ensures StreamConfigurationOf(c[Keywords := keywords], jsonStoreEnabled) == StreamConfigurationOf(c, jsonStoreEnabled)
    ensures StreamConfigurationOf(c - {Keywords}, jsonStoreEnabled) == StreamConfigurationOf(c, jsonStoreEnabled)
  {
    StreamConfigurationUsesOnlyOAuth(c[Keywords := keywords], c, jsonStoreEnabled);
    StreamConfigurationUsesOnlyOAuth(c - {Keywords}, c, jsonStoreEnabled);
  }

  /** twitter4j.FilterQuery with only track terms set. */
  datatype FilterQuery = FilterQuery(track: seq<string>)

  /** Which of the plugin's two anonymous StatusListener classes was registered. */
  datatype Listener =
    | BufferingListener   // TwitterInput: inserts a normalised message into the process buffer
    | RawMessageListener  // TwitterTransport: hands the raw JSON to processRawMessage

  /** A call made on a TwitterStream. */
  datatype StreamCall =
    | AddListener(listener: Listener)
    | Filter(query: FilterQuery)
    | CleanUp
    | Shutdown

  /** The callbacks of twitter4j.StatusListener, one constructor per method. */
  datatype StreamEvent =
    | OnStatus(status: Status)
    | OnDeletionNotice(statusId: int, userId: int)
    | OnTrackLimitationNotice(numberOfLimitedStatuses: int)
    | OnScrubGeo(userId: int, upToStatusId: int)
    | OnStallWarning(warning: string, percentFull: int)
    | OnException(exceptionMessage: string)

  /**
   * twitter4j.TwitterStream as the plugin sees it: created by the factory from a
   * configuration (or injected), it records every call made on it, in order.
   */
  class TwitterStream {
    const configuration: StreamConfiguration
    var calls: seq<StreamCall>

    constructor (configuration: StreamConfiguration)
      ensures this.configuration == configuration && calls == []
    {
      this.configuration := configuration;
      calls := [];
    }

    method AddListener(listener: Listener)
      modifies this
      ensures calls == old(calls) + [StreamCall.AddListener(listener)]
    {
      calls := calls + [StreamCall.AddListener(listener)];
    }

    method Filter(query: FilterQuery)
      modifies this
      ensures calls == old(calls) + [StreamCall.Filter(query)]
    {
      calls := calls + [StreamCall.Filter(query)];
    }

    method CleanUp()
      modifies this
      ensures calls == old(calls) + [StreamCall.CleanUp]
    {
      calls := calls + [StreamCall.CleanUp];
    }

    method Shutdown()
      modifies this
      ensures calls == old(calls) + [StreamCall.Shutdown]
    {
      calls := calls + [StreamCall.Shutdown];
    }
  }
}
