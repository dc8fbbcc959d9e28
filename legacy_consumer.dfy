/**
 * The legacy TwitterStreamingConsumer: it posts the track string to the streaming
 * endpoint, reads the response line by line, turns every non-empty line into a
 * LogMessage and inserts it into the target buffer; any exception abandons the
 * connection, and the consumer then connects again.
 */
module Legacy {
  import opened Wrappers
  import opened JavaStrings
  import opened Messages
  import Normalizer
  import TrackTerms

  /** The author of a tweet as Gson fills it from the JSON line. */
  datatype TweetUser = TweetUser(
    id: int,
    screenName: string,
    timeZone: string,
    location: string,
    lang: string,
    followersCount: int,
    statusesCount: int)

  /** A tweet as Gson fills it; the user is null when the line has none. */
  datatype Tweet = Tweet(text: string, id: int, user: Option<TweetUser>)

  /** The legacy Graylog LogMessage, with its additional data in the order it is added. */
  datatype LogMessage = LogMessage(
    host: string,
    shortMessage: string,
    fullMessage: Option<string>,
    facility: string,
    level: int,
    additionalData: seq<Field>)

  /** The keys of the seven user fields, in the order they are added. */
  const LegacyUserKeys: seq<string> :=
    ["user_id", "user_name", "user_timezone", "user_location", "user_language", "user_followers", "user_tweets"]

  function UserData(u: TweetUser): (data: seq<Field>)
    ensures Keys(data) == LegacyUserKeys
  {
    [ ("user_id", Number(u.id)),
      ("user_name", Text(u.screenName)),
      ("user_timezone", Text(u.timeZone)),
      ("user_location", Text(u.location)),
      ("user_language", Text(u.lang)),
      ("user_followers", Number(u.followersCount)),
      ("user_tweets", Number(u.statusesCount)) ]
  }

  /**
   * parseLogMessageFromTweet: host twitter.com, the text as short message, facility
   * "tweets", level 6 and the tweet id; when the tweet has a user, also the tweet's
   * URL as full message and the seven user fields.
   */
  function ParseLogMessageFromTweet(t: Tweet): (lm: LogMessage)
    ensures lm.host == "twitter.com" && lm.shortMessage == t.text
    ensures lm.facility == "tweets" && lm.level == 6
    ensures Keys(lm.additionalData) == ["tweet_id"] + (if t.user.Some? then LegacyUserKeys else [])
    ensures lm.fullMessage.Some? <==> t.user.Some?
    ensures lm.fullMessage.Some? ==> Normalizer.StatusIdOf(lm.fullMessage.value) == Some(t.id)
    ensures t.user.Some? ==> lm.fullMessage == Some(Normalizer.TweetUrl(t.user.value.screenName, t.id))
  {
    var idData := [("tweet_id", Number(t.id))];
    assert Keys(idData) == ["tweet_id"];
    match t.user
    case None =>
      LogMessage("twitter.com", t.text, None, "tweets", 6, idData)
    case Some(u) =>
      KeysAppend(idData, UserData(u));
      LogMessage("twitter.com", t.text, Some(Normalizer.TweetUrl(u.screenName, t.id)), "tweets", 6,
                 idData + UserData(u))
  }

  lemma TweetIdNotUserKey()
    ensures forall k :: k in LegacyUserKeys ==> k != "tweet_id"
  {
  }

  /** The user fields are added all together or not at all, exactly when the tweet has a user. */
  lemma UserDataAllOrNothing(t: Tweet)
    ensures forall k :: k in LegacyUserKeys ==>
      (k in Keys(ParseLogMessageFromTweet(t).additionalData) <==> t.user.Some?)
    ensures GetField(ParseLogMessageFromTweet(t).additionalData, "tweet_id") == Some(Number(t.id))
  {
    var keys := Keys(ParseLogMessageFromTweet(t).additionalData);
    TweetIdNotUserKey();
    KeysDistinct(t);
    GetFieldAt(ParseLogMessageFromTweet(t).additionalData, 0);
    if t.user.Some? {
      assert forall k :: k in LegacyUserKeys ==> k in keys;
    } else {
      assert forall k :: k in keys ==> k == "tweet_id";
    }
  }

  /** The seven user values read back from the additional data. */
  function UserFromData(data: seq<Field>): Option<TweetUser>
  {
    var id :- Normalizer.NumberField(data, "user_id");
    var screenName :- Normalizer.TextField(data, "user_name");
    var timeZone :- Normalizer.TextField(data, "user_timezone");
    var location :- Normalizer.TextField(data, "user_location");
    var lang :- Normalizer.TextField(data, "user_language");
    var followers :- Normalizer.NumberField(data, "user_followers");
    var statuses :- Normalizer.NumberField(data, "user_tweets");
    Some(TweetUser(id, screenName, timeZone, location, lang, followers, statuses))
  }

  /** Reads the tweet back from a log message: the inverse of parseLogMessageFromTweet. */
  function TweetFromLogMessage(lm: LogMessage): Option<Tweet>
  {
    var id :- Normalizer.NumberField(lm.additionalData, "tweet_id");
    Some(Tweet(lm.shortMessage, id, UserFromData(lm.additionalData)))
  }

  lemma LegacyKeysDistinct()
    ensures Distinct(["tweet_id"] + LegacyUserKeys)
  {
    assert ["tweet_id"] + LegacyUserKeys == ["tweet_id", "user_id", "user_name", "user_timezone", "user_location",
                                             "user_language", "user_followers", "user_tweets"];
  }

  /** No key of a legacy log message is added twice. */
  lemma KeysDistinct(t: Tweet)
    ensures Distinct(Keys(ParseLogMessageFromTweet(t).additionalData))
  {
    LegacyKeysDistinct();
  }

  lemma UserFromUserData(data: seq<Field>, u: TweetUser)
    requires GetField(data, "user_id") == Some(Number(u.id))
    requires GetField(data, "user_name") == Some(Text(u.screenName))
    requires GetField(data, "user_timezone") == Some(Text(u.timeZone))
    requires GetField(data, "user_location") == Some(Text(u.location))
    requires GetField(data, "user_language") == Some(Text(u.lang))
    requires GetField(data, "user_followers") == Some(Number(u.followersCount))
    requires GetField(data, "user_tweets") == Some(Number(u.statusesCount))
    ensures UserFromData(data) == Some(u)
  {
  }

  /** The user read back from the additional data of a tweet that has one. */
  lemma UserReadBack(t: Tweet)
    requires t.user.Some?
    ensures UserFromData(ParseLogMessageFromTweet(t).additionalData) == t.user
  {
    var data := ParseLogMessageFromTweet(t).additionalData;
    KeysDistinct(t);
    GetFieldAt(data, 1);
    GetFieldAt(data, 2);
    GetFieldAt(data, 3);
    GetFieldAt(data, 4);
    GetFieldAt(data, 5);
    GetFieldAt(data, 6);
    GetFieldAt(data, 7);
    UserFromUserData(data, t.user.value);
  }

  /** parseLogMessageFromTweet loses nothing Gson read from the line. */
  lemma ParseLogMessageLossless(t: Tweet)
    ensures TweetFromLogMessage(ParseLogMessageFromTweet(t)) == Some(t)
  {
    var data := ParseLogMessageFromTweet(t).additionalData;
    UserDataAllOrNothing(t);
    assert Normalizer.NumberField(data, "tweet_id") == Some(t.id);
    if t.user.Some? {
      UserReadBack(t);
    } else {
      assert "user_id" in LegacyUserKeys;
      assert Normalizer.NumberField(data, "user_id") == None;
    }
  }

  /** The buffer messages are inserted into. */
  class Buffer {
    var cached: seq<LogMessage>

    constructor ()
      ensures cached == []
    {
      cached := [];
    }

    method InsertCached(m: LogMessage)
      modifies this
      ensures cached == old(cached) + [m]
    {
      cached := cached + [m];
    }
  }

  /**
   * Handling this line throws: it is not empty and Gson cannot read a tweet from it
   * (or reads null, which parseLogMessageFromTweet dereferences).
   */
  predicate Fails(line: string, parse: string -> Option<Tweet>)
  {
    line != "" && parse(line).None?
  }

  /** The messages a line that does not throw inserts: none when it is empty, else its tweet's. */
  function LineMessages(line: string, parse: string -> Option<Tweet>): seq<LogMessage>
    requires !Fails(line, parse)
  {
    if line == "" then [] else [ParseLogMessageFromTweet(parse(line).value)]
  }

  /** The messages one connection inserts: one per non-empty line, up to the first line that throws. */
  function Inserted(lines: seq<string>, parse: string -> Option<Tweet>): seq<LogMessage>
  {
    if lines == [] || Fails(lines[0], parse) then []
    else LineMessages(lines[0], parse) + Inserted(lines[1..], parse)
  }

  /** The position of the first line that throws; |lines| when none does. */
  function FirstFailure(lines: seq<string>, parse: string -> Option<Tweet>): (k: nat)
    ensures k <= |lines|
  {
    if lines == [] || Fails(lines[0], parse) then 0
    else 1 + FirstFailure(lines[1..], parse)
  }

  /** Every line before the first failure is handled, and the line there throws. */
  lemma {:induction false} FirstFailureFacts(lines: seq<string>, parse: string -> Option<Tweet>)
    ensures forall j :: 0 <= j < FirstFailure(lines, parse) ==> !Fails(lines[j], parse)
    ensures FirstFailure(lines, parse) < |lines| ==> Fails(lines[FirstFailure(lines, parse)], parse)
    decreases |lines|
  {
    if lines != [] && !Fails(lines[0], parse) {
      var rest := lines[1..];
      FirstFailureFacts(rest, parse);
      forall j | 0 <= j < FirstFailure(lines, parse) ensures !Fails(lines[j], parse) {
        if j > 0 {
          assert lines[j] == rest[j - 1];
        }
      }
    }
  }

  /** How reading one connection ended. */
  datatype ConnectionEnd =
    | EndOfStream       // readLine returned null
    | Abandoned(line: nat)  // handling this line threw; the rest of the response is dropped

  function EndOf(lines: seq<string>, parse: string -> Option<Tweet>): ConnectionEnd
  {
    var k := FirstFailure(lines, parse);
    if k < |lines| then Abandoned(k) else EndOfStream
  }

  /**
   * The inner loop of consume over the lines of one response (the lines readLine
   * returns before null, or before an I/O error, which ends the connection the
   * same way).
   */
  method ConsumeLines(target: Buffer, lines: seq<string>, parse: string -> Option<Tweet>) returns (end: ConnectionEnd)
    modifies target
    ensures target.cached == old(target.cached) + Inserted(lines, parse)
    ensures end == EndOf(lines, parse)
  {
    var i := 0;
    while i < |lines|
      invariant 0 <= i <= |lines|
      invariant forall j :: 0 <= j < i ==> !Fails(lines[j], parse)
      invariant old(target.cached) + Inserted(lines, parse) == target.cached + Inserted(lines[i..], parse)
    {
      var line := lines[i];
      ghost var before := target.cached;
      if |line| > 0 {
        var tweet := parse(line);
        if tweet.None? {
          InsertedFrom(lines, i, parse);
          FirstFailureIs(lines, i, parse);
          return Abandoned(i);
        }
        target.InsertCached(ParseLogMessageFromTweet(tweet.value));
      }
      InsertedLineStep(old(target.cached), before, target.cached, lines, i, parse);
      i := i + 1;
    }
    FirstFailureIs(lines, i, parse);
    assert lines[i..] == [];
    return EndOfStream;
  }

  /** The messages from line i on: none if it throws, else its own and then the rest's. */
  lemma InsertedFrom(lines: seq<string>, i: nat, parse: string -> Option<Tweet>)
    requires i < |lines|
    ensures Inserted(lines[i..], parse) ==
      if Fails(lines[i], parse) then [] else LineMessages(lines[i], parse) + Inserted(lines[i + 1..], parse)
  {
    assert lines[i..][0] == lines[i] && lines[i..][1..] == lines[i + 1..];
  }

  /**
   * One more line handled: if the buffer held start plus the messages of the lines
   * before i, inserting those of line i keeps that so.
   */
  lemma InsertedLineStep(start: seq<LogMessage>, before: seq<LogMessage>, after: seq<LogMessage>,
                         lines: seq<string>, i: nat, parse: string -> Option<Tweet>)
    requires i < |lines| && !Fails(lines[i], parse)
    requires start + Inserted(lines, parse) == before + Inserted(lines[i..], parse)
    requires after == before + LineMessages(lines[i], parse)
    ensures start + Inserted(lines, parse) == after + Inserted(lines[i + 1..], parse)
  {
    InsertedFrom(lines, i, parse);
  }

  /** The first failure is at k when no earlier line throws and line k (if any) does. */
  lemma FirstFailureIs(lines: seq<string>, k: nat, parse: string -> Option<Tweet>)
    requires k <= |lines|
    requires forall j :: 0 <= j < k ==> !Fails(lines[j], parse)
    requires k < |lines| ==> Fails(lines[k], parse)
    ensures FirstFailure(lines, parse) == k
  {
    FirstFailureFacts(lines, parse);
  }

  /** A connection that handles every line. */
  predicate Completes(lines: seq<string>, parse: string -> Option<Tweet>)
  {
    FirstFailure(lines, parse) == |lines|
  }

  /** Reading a response in two parts: the second part counts only if the first one completes. */
  lemma {:induction false} InsertedConcat(a: seq<string>, b: seq<string>, parse: string -> Option<Tweet>)
    ensures Inserted(a + b, parse) == Inserted(a, parse) + (if Completes(a, parse) then Inserted(b, parse) else [])
    decreases |a|
  {
    if a == [] {
      assert a + b == b;
    } else {
      var rest := a[1..];
      var ab := a + b;
      assert ab[0] == a[0] && ab[1..] == rest + b;
      InsertedConcat(rest, b, parse);
      if !Fails(a[0], parse) {
        assert FirstFailure(a, parse) == 1 + FirstFailure(rest, parse);
      }
    }
  }

  /** Empty lines insert nothing. */
  lemma EmptyLinesSkipped(a: seq<string>, b: seq<string>, parse: string -> Option<Tweet>)
    ensures Inserted(a + [""] + b, parse) == Inserted(a + b, parse)
  {
    InsertedConcat(a, [""] + b, parse);
    InsertedConcat(a, b, parse);
    assert a + [""] + b == a + ([""] + b);
    InsertedEmptyFirst(b, parse);
  }

  lemma InsertedEmptyFirst(b: seq<string>, parse: string -> Option<Tweet>)
    ensures Inserted([""] + b, parse) == Inserted(b, parse)
  {
    assert ([""] + b)[0] == "" && ([""] + b)[1..] == b;
    assert LineMessages("", parse) == [];
  }

  /** After the first line that throws, nothing more of that response is read. */
  lemma RestAbandoned(lines: seq<string>, rest: seq<string>, parse: string -> Option<Tweet>)
    requires !Completes(lines, parse)
    ensures Inserted(lines + rest, parse) == Inserted(lines, parse)
  {
    InsertedConcat(lines, rest, parse);
  }

  /** The non-empty lines, in order. */
  function NonEmptyLines(lines: seq<string>): (r: seq<string>)
    ensures |r| <= |lines|
    ensures forall i :: 0 <= i < |r| ==> r[i] != "" && r[i] in lines
  {
    if lines == [] then []
    else (if lines[0] == "" then [] else [lines[0]]) + NonEmptyLines(lines[1..])
  }

  /**
   * When every line is handled, the connection inserts exactly one message per
   * non-empty line, in line order: the message of the tweet read from that line.
   */
  lemma {:induction false} OneMessagePerNonEmptyLine(lines: seq<string>, parse: string -> Option<Tweet>)
    requires Completes(lines, parse)
    ensures |Inserted(lines, parse)| == |NonEmptyLines(lines)|
    ensures forall i :: 0 <= i < |NonEmptyLines(lines)| ==>
      parse(NonEmptyLines(lines)[i]).Some? &&
      Inserted(lines, parse)[i] == ParseLogMessageFromTweet(parse(NonEmptyLines(lines)[i]).value)
  {
    if lines != [] {
      var rest := lines[1..];
      assert Completes(rest, parse);
      OneMessagePerNonEmptyLine(rest, parse);
      if lines[0] != "" {
        var m := ParseLogMessageFromTweet(parse(lines[0]).value);
        assert Inserted(lines, parse) == [m] + Inserted(rest, parse);
        assert NonEmptyLines(lines) == [lines[0]] + NonEmptyLines(rest);
        forall i | 0 <= i < |NonEmptyLines(lines)|
          ensures parse(NonEmptyLines(lines)[i]).Some?
          ensures Inserted(lines, parse)[i] == ParseLogMessageFromTweet(parse(NonEmptyLines(lines)[i]).value)
        {
          if i > 0 {
            assert NonEmptyLines(lines)[i] == NonEmptyLines(rest)[i - 1];
            assert Inserted(lines, parse)[i] == Inserted(rest, parse)[i - 1];
          }
        }
      } else {
        assert NonEmptyLines(lines) == NonEmptyLines(rest);
      }
    }
  }

  /** The endpoint consume posts to. */
  const TargetBase := "stream.twitter.com"
  const Target := "/1/statuses/filter.json"

  /** The request consume makes for each connection. */
  datatype Request = Request(
    scopeHost: string,
    scopePort: int,
    user: string,
    password: string,
    url: string,
    params: seq<(string, string)>)

  /**
   * The filter request: basic credentials scoped to the stream host on port 443, a
   * POST to the filter endpoint, and the track string as the single form parameter.
   */
  function FilterRequest(user: string, password: string, track: string): Request
  {
    Request(TargetBase, 443, user, password, "https://" + TargetBase + Target, [("track", track)])
  }

  /**
   * The track string goes out as it was configured: two different track strings
   * always make two different requests, whereas the newer input's splitter maps
   * different strings to the same terms (TrackTerms.TrackOfPaddedTrailingComma).
   */
  lemma TrackSentVerbatim(user: string, password: string, a: string, b: string)
    requires FilterRequest(user, password, a) == FilterRequest(user, password, b)
    ensures a == b
  {
    assert FilterRequest(user, password, a).params[0].1 == a;
  }

  /** The messages inserted over a sequence of connections. */
  function InsertedAll(connections: seq<seq<string>>, parse: string -> Option<Tweet>): seq<LogMessage>
  {
    if connections == [] then []
    else Inserted(connections[0], parse) + InsertedAll(connections[1..], parse)
  }

  /**
   * One more connection of the run: if the buffer held start plus the messages of
   * the connections before n, inserting those of connection n keeps that so.
   */
  lemma InsertedAllStep(start: seq<LogMessage>, before: seq<LogMessage>, after: seq<LogMessage>,
                        connections: seq<seq<string>>, n: nat, parse: string -> Option<Tweet>)
    requires n < |connections|
    requires start + InsertedAll(connections, parse) == before + InsertedAll(connections[n..], parse)
    requires after == before + Inserted(connections[n], parse)
    ensures start + InsertedAll(connections, parse) == after + InsertedAll(connections[n + 1..], parse)
  {
    InsertedAllFrom(connections, n, parse);
  }

  lemma InsertedAllFrom(connections: seq<seq<string>>, n: nat, parse: string -> Option<Tweet>)
    requires n < |connections|
    ensures InsertedAll(connections[n..], parse) == Inserted(connections[n], parse) + InsertedAll(connections[n + 1..], parse)
  {
    var tail := connections[n..];
    assert tail[0] == connections[n] && tail[1..] == connections[n + 1..];
  }

  class TwitterStreamingConsumer {
    const user: string
    const password: string

    constructor (user: string, password: string)
      ensures this.user == user && this.password == password
    {
      this.user := user;
      this.password := password;
    }

    /**
     * consume, over the responses of successive connections: each attempt sends the
     * same request, reads its response with the inner loop, and then reconnects
     * whether the response ended or was abandoned.
     */
    method Consume(target: Buffer, track: string, connections: seq<seq<string>>, parse: string -> Option<Tweet>)
      returns (requests: seq<Request>, ends: seq<ConnectionEnd>)
      modifies target
      ensures |requests| == |connections| && |ends| == |connections|
      ensures forall i :: 0 <= i < |requests| ==> requests[i] == FilterRequest(user, password, track)
      ensures forall i :: 0 <= i < |ends| ==> ends[i] == EndOf(connections[i], parse)
      ensures target.cached == old(target.cached) + InsertedAll(connections, parse)
    {
      var request := FilterRequest(user, password, track);
      requests := [];
      ends := [];
      var n := 0;
      while n < |connections|
        invariant 0 <= n <= |connections|
        invariant |requests| == n && |ends| == n
        invariant forall i :: 0 <= i < n ==> requests[i] == request
        invariant forall i :: 0 <= i < n ==> ends[i] == EndOf(connections[i], parse)
        invariant old(target.cached) + InsertedAll(connections, parse)
                  == target.cached + InsertedAll(connections[n..], parse)
      {
        var lines := connections[n];
        requests := requests + [request];
        ghost var before := target.cached;
        var end := ConsumeLines(target, lines, parse);
        InsertedAllStep(old(target.cached), before, target.cached, connections, n, parse);
        ends := ends + [end];
        n := n + 1;
      }
      assert connections[n..] == [];
    }
  }
}
