/**
 * createMessageFromStatus: the straight-line build of a Graylog message from a
 * twitter4j Status. The input's status listener and the codec carry two identical
 * copies of this code; both are modelled by CreateMessageFromStatus.
 */
module Normalizer {
  import opened Wrappers
  import opened JavaStrings
  import opened Messages

  const Host := "twitter.com"

  /** The keys added for every status, in the order they are added. */
  const RequiredKeys: seq<string> := [
    "facility", "level", "tweet_id", "tweet_is_retweet",
    "tweet_favorite_count", "tweet_retweet_count", "tweet_language"]

  /** The keys added only when the status has a geolocation. */
  const GeoKeys: seq<string> := ["tweet_geo_long", "tweet_geo_lat"]

  /** The keys added only when the status has a user. */
  const UserKeys: seq<string> := [
    "tweet_url", "user_id", "user_name", "user_description", "user_timezone",
    "user_utc_offset", "user_location", "user_language", "user_url",
    "user_followers", "user_tweets", "user_favorites"]

  /** Everything after the last '/' of s (all of s when it has none). */
  function LastSegment(s: string): (r: string)
    ensures '/' !in r
  {
    if s == [] || s[|s| - 1] == '/' then []
    else LastSegment(s[..|s| - 1]) + [s[|s| - 1]]
  }

  lemma {:induction false} LastSegmentAfterSlash(prefix: string, t: string)
    requires '/' !in t
    ensures LastSegment(prefix + "/" + t) == t
    decreases |t|
  {
    var s := prefix + "/" + t;
    if t != [] {
      var t' := t[..|t| - 1];
      assert s[..|s| - 1] == prefix + "/" + t';
      assert t[|t| - 1] in t;
      assert forall c :: c in t' ==> c in t;
      LastSegmentAfterSlash(prefix, t');
      assert t' + [t[|t| - 1]] == t;
    }
  }

  /** The status id read back from a tweet URL: the number after the last '/'. */
  function StatusIdOf(url: string): Option<int>
  {
    ParseLong(LastSegment(url))
  }

  /** The fixed parts of a tweet URL. */
  const UrlBase := "https://twitter.com/"
  const StatusPath := "/status/"

  lemma TweetUrlLastSegment(screenName: string, id: int)
    ensures LastSegment(UrlBase + screenName + StatusPath + LongToString(id)) == LongToString(id)
  {
    var prefix := UrlBase + screenName + "/status";
    assert StatusPath == "/status" + "/";
    assert UrlBase + screenName + StatusPath + LongToString(id) == prefix + "/" + LongToString(id);
    LastSegmentAfterSlash(prefix, LongToString(id));
  }

  /**
   * "https://twitter.com/" + screenName + "/status/" + id: the id is appended in
   * decimal and can be read back from the end of the URL, whatever the screen name.
   */
  function TweetUrl(screenName: string, id: int): (url: string)
    ensures StatusIdOf(url) == Some(id)
    ensures |url| > |UrlBase| && url[..|UrlBase|] == UrlBase
  {
    var url := UrlBase + screenName + StatusPath + LongToString(id);
    TweetUrlFacts(screenName, id);
    url
  }

  lemma TweetUrlFacts(screenName: string, id: int)
    ensures StatusIdOf(UrlBase + screenName + StatusPath + LongToString(id)) == Some(id)
    ensures (UrlBase + screenName + StatusPath + LongToString(id))[..|UrlBase|] == UrlBase
  {
    TweetUrlLastSegment(screenName, id);
    var rest := screenName + StatusPath + LongToString(id);
    PrefixOfConcat(UrlBase, rest);
    assert UrlBase + rest == UrlBase + screenName + StatusPath + LongToString(id);
  }

  /** Different tweets (by screen name or by id) never share a URL. */
  lemma TweetUrlInjective(name1: string, id1: int, name2: string, id2: int)
    requires TweetUrl(name1, id1) == TweetUrl(name2, id2)
    ensures name1 == name2 && id1 == id2
  {
    assert StatusIdOf(TweetUrl(name1, id1)) == Some(id1);
    assert StatusIdOf(TweetUrl(name2, id2)) == Some(id2);
    TweetUrlSplit(name1, id1);
    TweetUrlSplit(name2, id1);
    CancelAround(UrlBase, name1, name2, StatusPath + LongToString(id1));
  }

  lemma TweetUrlSplit(screenName: string, id: int)
    ensures TweetUrl(screenName, id) == UrlBase + screenName + (StatusPath + LongToString(id))
  {
  }

  /** A common prefix and suffix cancel. */
  lemma CancelAround(p: string, x: string, y: string, s: string)
    requires p + x + s == p + y + s
    ensures x == y
  {
    assert |x| == |y|;
    assert x == (p + x + s)[|p|..|p| + |x|];
    assert y == (p + y + s)[|p|..|p| + |y|];
  }

  lemma PrefixOfConcat(a: string, b: string)
    ensures (a + b)[..|a|] == a
  {
  }

  function RequiredFields(s: Status): (fields: seq<Field>)
    ensures Keys(fields) == RequiredKeys
  {
    [ ("facility", Text("Tweets")),
      ("level", Number(6)),
      ("tweet_id", Number(s.id)),
      ("tweet_is_retweet", Text(BoolToString(s.isRetweet))),
      ("tweet_favorite_count", Number(s.favoriteCount)),
      ("tweet_retweet_count", Number(s.retweetCount)),
      ("tweet_language", Text(s.lang)) ]
  }

  function GeoFields(geo: Option<GeoLocation>): (fields: seq<Field>)
    ensures Keys(fields) == if geo.Some? then GeoKeys else []
  {
    match geo
    case None => []
    case Some(g) => [("tweet_geo_long", Decimal(g.longitude)), ("tweet_geo_lat", Decimal(g.latitude))]
  }

  function UserFields(user: Option<User>, statusId: int): (fields: seq<Field>)
    ensures Keys(fields) == if user.Some? then UserKeys else []
  {
    match user
    case None => []
    case Some(u) =>
      [ ("tweet_url", Text(TweetUrl(u.screenName, statusId))),
        ("user_id", Number(u.id)),
        ("user_name", Text(u.screenName)),
        ("user_description", Text(u.description)),
        ("user_timezone", Text(u.timeZone)),
        ("user_utc_offset", Number(u.utcOffset)),
        ("user_location", Text(u.location)),
        ("user_language", Text(u.lang)),
        ("user_url", Text(u.url)),
        ("user_followers", Number(u.followersCount)),
        ("user_tweets", Number(u.statusesCount)),
        ("user_favorites", Number(u.favouritesCount)) ]
  }

  /** The keys a status produces, in order: required, then geo, then user. */
  function ExpectedKeys(s: Status): seq<string>
  {
    RequiredKeys + (if s.geoLocation.Some? then GeoKeys else []) + (if s.user.Some? then UserKeys else [])
  }

  lemma KeyBlocksDistinct()
    ensures Distinct(RequiredKeys) && Distinct(GeoKeys) && Distinct(UserKeys)
    ensures forall k :: k in RequiredKeys ==> k !in GeoKeys && k !in UserKeys
    ensures forall k :: k in GeoKeys ==> k !in UserKeys
  {
  }

  lemma ExpectedKeysDistinct(s: Status)
    ensures Distinct(ExpectedKeys(s))
  {
    KeyBlocksDistinct();
    var geo := if s.geoLocation.Some? then GeoKeys else [];
    var user := if s.user.Some? then UserKeys else [];
    DistinctAppend(RequiredKeys, geo);
    DistinctAppend(RequiredKeys + geo, user);
  }

  /** createMessageFromStatus (TwitterCodec.java and the input's status listener). */
  function CreateMessageFromStatus(s: Status): (m: Message)
    ensures m.source == Host && m.message == s.text && m.timestamp == s.createdAt
    ensures Keys(m.fields) == ExpectedKeys(s)
    ensures Distinct(Keys(m.fields))
    ensures |m.fields| == 7 + (if s.geoLocation.Some? then 2 else 0) + (if s.user.Some? then 12 else 0)
  {
    var required, geo, user := RequiredFields(s), GeoFields(s.geoLocation), UserFields(s.user, s.id);
    KeysAppend(required, geo);
    KeysAppend(required + geo, user);
    ExpectedKeysDistinct(s);
    Message(s.text, Host, s.createdAt, required + geo + user)
  }

  /** The number of addField calls: 7, 9, 19 or 21. */
  lemma FieldCount(s: Status)
    ensures |CreateMessageFromStatus(s).fields| in {7, 9, 19, 21}
    ensures |CreateMessageFromStatus(s).fields| == 7 <==> s.geoLocation.None? && s.user.None?
    ensures |CreateMessageFromStatus(s).fields| == 21 <==> s.geoLocation.Some? && s.user.Some?
  {
  }

  /** The value added under the key at position i, read back through GetField. */
  lemma FieldAt(s: Status, i: nat)
    requires i < |CreateMessageFromStatus(s).fields|
    ensures var f := CreateMessageFromStatus(s).fields;
      GetField(f, f[i].0) == Some(f[i].1)
  {
    GetFieldAt(CreateMessageFromStatus(s).fields, i);
  }

  /**
   * The always-present fields: facility "Tweets", level 6, the status id, the
   * retweet flag as the text "true" or "false", the two counts and the language.
   */
  lemma RequiredFieldValues(s: Status)
    ensures var f := CreateMessageFromStatus(s).fields;
      && GetField(f, "facility") == Some(Text("Tweets"))
      && GetField(f, "level") == Some(Number(6))
      && GetField(f, "tweet_id") == Some(Number(s.id))
      && GetField(f, "tweet_is_retweet") == Some(Text(if s.isRetweet then "true" else "false"))
      && GetField(f, "tweet_favorite_count") == Some(Number(s.favoriteCount))
      && GetField(f, "tweet_retweet_count") == Some(Number(s.retweetCount))
      && GetField(f, "tweet_language") == Some(Text(s.lang))
  {
    var f := CreateMessageFromStatus(s).fields;
    assert f[..7] == RequiredFields(s);
    FieldAt(s, 0);
    FieldAt(s, 1);
    FieldAt(s, 2);
    FieldAt(s, 3);
    FieldAt(s, 4);
    FieldAt(s, 5);
    FieldAt(s, 6);
  }

  /** The geo pair is added both or neither, exactly when the status has a geolocation. */
  lemma GeoBothOrNeither(s: Status)
    ensures var keys := Keys(CreateMessageFromStatus(s).fields);
      && ("tweet_geo_long" in keys <==> s.geoLocation.Some?)
      && ("tweet_geo_lat" in keys <==> s.geoLocation.Some?)
    ensures s.geoLocation.Some? ==>
      var f := CreateMessageFromStatus(s).fields;
      && GetField(f, "tweet_geo_long") == Some(Decimal(s.geoLocation.value.longitude))
      && GetField(f, "tweet_geo_lat") == Some(Decimal(s.geoLocation.value.latitude))
  {
    var f := CreateMessageFromStatus(s).fields;
    KeyBlocksDistinct();
    if s.geoLocation.Some? {
      assert f[7..9] == GeoFields(s.geoLocation);
      FieldAt(s, 7);
      FieldAt(s, 8);
    }
  }

  lemma UserKeysPresent(s: Status)
    requires s.user.Some?
    ensures forall k :: k in UserKeys ==> k in Keys(CreateMessageFromStatus(s).fields)
  {
    var geo := if s.geoLocation.Some? then GeoKeys else [];
    assert Keys(CreateMessageFromStatus(s).fields) == (RequiredKeys + geo) + UserKeys;
  }

  lemma UserKeysAbsent(s: Status)
    requires s.user.None?
    ensures forall k :: k in UserKeys ==> k !in Keys(CreateMessageFromStatus(s).fields)
  {
    var geo := if s.geoLocation.Some? then GeoKeys else [];
    assert Keys(CreateMessageFromStatus(s).fields) == RequiredKeys + geo + [];
    KeyBlocksDistinct();
  }

  /** The twelve user keys are present exactly when the status has a user. */
  lemma UserBlockAllOrNothing(s: Status)
    ensures forall k :: k in UserKeys ==> (k in Keys(CreateMessageFromStatus(s).fields) <==> s.user.Some?)
  {
    if s.user.Some? {
      UserKeysPresent(s);
    } else {
      UserKeysAbsent(s);
    }
  }

  /** The user block read on its own: each key maps to the matching User getter. */
  lemma UserFieldValues(u: User, statusId: int)
    ensures var f := UserFields(Some(u), statusId);
      && GetField(f, "tweet_url") == Some(Text(TweetUrl(u.screenName, statusId)))
      && GetField(f, "user_id") == Some(Number(u.id))
      && GetField(f, "user_name") == Some(Text(u.screenName))
      && GetField(f, "user_description") == Some(Text(u.description))
      && GetField(f, "user_timezone") == Some(Text(u.timeZone))
      && GetField(f, "user_utc_offset") == Some(Number(u.utcOffset))
      && GetField(f, "user_location") == Some(Text(u.location))
      && GetField(f, "user_language") == Some(Text(u.lang))
      && GetField(f, "user_url") == Some(Text(u.url))
      && GetField(f, "user_followers") == Some(Number(u.followersCount))
      && GetField(f, "user_tweets") == Some(Number(u.statusesCount))
      && GetField(f, "user_favorites") == Some(Number(u.favouritesCount))
  {
    var f := UserFields(Some(u), statusId);
    KeyBlocksDistinct();
    GetFieldAt(f, 0);
    GetFieldAt(f, 1);
    GetFieldAt(f, 2);
    GetFieldAt(f, 3);
    GetFieldAt(f, 4);
    GetFieldAt(f, 5);
    GetFieldAt(f, 6);
    GetFieldAt(f, 7);
    GetFieldAt(f, 8);
    GetFieldAt(f, 9);
    GetFieldAt(f, 10);
    GetFieldAt(f, 11);
  }

  /** In the message, a user key reads what the user block alone holds. */
  lemma UserBlockInMessage(s: Status, k: string)
    requires s.user.Some? && k in UserKeys
    ensures GetField(CreateMessageFromStatus(s).fields, k) == GetField(UserFields(s.user, s.id), k)
  {
    var pre := RequiredFields(s) + GeoFields(s.geoLocation);
    assert CreateMessageFromStatus(s).fields == pre + UserFields(s.user, s.id);
    GetFieldAppend(pre, UserFields(s.user, s.id), k);
  }

  /** Each of the twelve user fields carries the matching User getter's value. */
  lemma UserBlockValues(s: Status)
    requires s.user.Some?
    ensures var f := CreateMessageFromStatus(s).fields;
      var u := s.user.value;
      && GetField(f, "tweet_url") == Some(Text(TweetUrl(u.screenName, s.id)))
      && GetField(f, "user_id") == Some(Number(u.id))
      && GetField(f, "user_name") == Some(Text(u.screenName))
      && GetField(f, "user_description") == Some(Text(u.description))
      && GetField(f, "user_timezone") == Some(Text(u.timeZone))
      && GetField(f, "user_utc_offset") == Some(Number(u.utcOffset))
      && GetField(f, "user_location") == Some(Text(u.location))
      && GetField(f, "user_language") == Some(Text(u.lang))
      && GetField(f, "user_url") == Some(Text(u.url))
      && GetField(f, "user_followers") == Some(Number(u.followersCount))
      && GetField(f, "user_tweets") == Some(Number(u.statusesCount))
      && GetField(f, "user_favorites") == Some(Number(u.favouritesCount))
  {
    UserFieldValues(s.user.value, s.id);
    forall k | k in UserKeys
      ensures GetField(CreateMessageFromStatus(s).fields, k) == GetField(UserFields(s.user, s.id), k)
    {
      UserBlockInMessage(s, k);
    }
  }

  function NumberField(fields: seq<Field>, key: string): Option<int>
  {
    match GetField(fields, key)
    case Some(Number(n)) => Some(n)
    case _ => None
  }

  function TextField(fields: seq<Field>, key: string): Option<string>
  {
    match GetField(fields, key)
    case Some(Text(t)) => Some(t)
    case _ => None
  }

  function DecimalField(fields: seq<Field>, key: string): Option<real>
  {
    match GetField(fields, key)
    case Some(Decimal(d)) => Some(d)
    case _ => None
  }

  function GeoFromFields(fields: seq<Field>): Option<GeoLocation>
  {
    match (DecimalField(fields, "tweet_geo_long"), DecimalField(fields, "tweet_geo_lat"))
    case (Some(longitude), Some(latitude)) => Some(GeoLocation(latitude, longitude))
    case _ => None
  }

  function UserFromFields(fields: seq<Field>): Option<User>
  {
    var id :- NumberField(fields, "user_id");
    var screenName :- TextField(fields, "user_name");
    var description :- TextField(fields, "user_description");
    var timeZone :- TextField(fields, "user_timezone");
    var utcOffset :- NumberField(fields, "user_utc_offset");
    var location :- TextField(fields, "user_location");
    var lang :- TextField(fields, "user_language");
    var url :- TextField(fields, "user_url");
    var followers :- NumberField(fields, "user_followers");
    var statuses :- NumberField(fields, "user_tweets");
    var favourites :- NumberField(fields, "user_favorites");
    Some(User(id, screenName, description, timeZone, utcOffset, location, lang, url, followers, statuses, favourites))
  }

  /** Reads a status back from a normalised message: the inverse of the normaliser. */
  function StatusFromMessage(m: Message): Option<Status>
  {
    var id :- NumberField(m.fields, "tweet_id");
    var retweetText :- TextField(m.fields, "tweet_is_retweet");
    var isRetweet :- ParseBool(retweetText);
    var favorites :- NumberField(m.fields, "tweet_favorite_count");
    var retweets :- NumberField(m.fields, "tweet_retweet_count");
    var lang :- TextField(m.fields, "tweet_language");
    Some(Status(m.message, m.timestamp, id, isRetweet, favorites, retweets, lang,
                GeoFromFields(m.fields), UserFromFields(m.fields)))
  }

  lemma GeoReadBack(s: Status)
    ensures GeoFromFields(CreateMessageFromStatus(s).fields) == s.geoLocation
  {
    GeoBothOrNeither(s);
  }

  lemma UserFromUserFields(fields: seq<Field>, u: User)
    requires GetField(fields, "user_id") == Some(Number(u.id))
    requires GetField(fields, "user_name") == Some(Text(u.screenName))
    requires GetField(fields, "user_description") == Some(Text(u.description))
    requires GetField(fields, "user_timezone") == Some(Text(u.timeZone))
    requires GetField(fields, "user_utc_offset") == Some(Number(u.utcOffset))
    requires GetField(fields, "user_location") == Some(Text(u.location))
    requires GetField(fields, "user_language") == Some(Text(u.lang))
    requires GetField(fields, "user_url") == Some(Text(u.url))
    requires GetField(fields, "user_followers") == Some(Number(u.followersCount))
    requires GetField(fields, "user_tweets") == Some(Number(u.statusesCount))
    requires GetField(fields, "user_favorites") == Some(Number(u.favouritesCount))
    ensures UserFromFields(fields) == Some(u)
  {
    assert NumberField(fields, "user_id") == Some(u.id);
    assert TextField(fields, "user_name") == Some(u.screenName);
    assert TextField(fields, "user_description") == Some(u.description);
    assert TextField(fields, "user_timezone") == Some(u.timeZone);
    assert NumberField(fields, "user_utc_offset") == Some(u.utcOffset);
    assert TextField(fields, "user_location") == Some(u.location);
    assert TextField(fields, "user_language") == Some(u.lang);
    assert TextField(fields, "user_url") == Some(u.url);
    assert NumberField(fields, "user_followers") == Some(u.followersCount);
    assert NumberField(fields, "user_tweets") == Some(u.statusesCount);
    assert NumberField(fields, "user_favorites") == Some(u.favouritesCount);
  }

  lemma UserReadBack(s: Status)
    ensures UserFromFields(CreateMessageFromStatus(s).fields) == s.user
  {
    UserBlockAllOrNothing(s);
    if s.user.Some? {
      UserBlockValues(s);
      UserFromUserFields(CreateMessageFromStatus(s).fields, s.user.value);
    } else {
      assert "user_id" in UserKeys;
    }
  }

  /**
   * Normalisation loses nothing: every getter value of the status, geolocation and
   * user included, can be read back from the message.
   */
  lemma NormalizationLossless(s: Status)
    ensures StatusFromMessage(CreateMessageFromStatus(s)) == Some(s)
  {
    var m := CreateMessageFromStatus(s);
    RequiredFieldValues(s);
    GeoReadBack(s);
    UserReadBack(s);
    StatusFromRequiredFields(m, s);
  }

  lemma StatusFromRequiredFields(m: Message, s: Status)
    requires m.message == s.text && m.timestamp == s.createdAt
    requires GetField(m.fields, "tweet_id") == Some(Number(s.id))
    requires GetField(m.fields, "tweet_is_retweet") == Some(Text(if s.isRetweet then "true" else "false"))
    requires GetField(m.fields, "tweet_favorite_count") == Some(Number(s.favoriteCount))
    requires GetField(m.fields, "tweet_retweet_count") == Some(Number(s.retweetCount))
    requires GetField(m.fields, "tweet_language") == Some(Text(s.lang))
    requires GeoFromFields(m.fields) == s.geoLocation && UserFromFields(m.fields) == s.user
    ensures StatusFromMessage(m) == Some(s)
  {
    assert NumberField(m.fields, "tweet_id") == Some(s.id);
    assert TextField(m.fields, "tweet_is_retweet") == Some(BoolToString(s.isRetweet));
    assert ParseBool(BoolToString(s.isRetweet)) == Some(s.isRetweet);
    assert NumberField(m.fields, "tweet_favorite_count") == Some(s.favoriteCount);
    assert NumberField(m.fields, "tweet_retweet_count") == Some(s.retweetCount);
    assert TextField(m.fields, "tweet_language") == Some(s.lang);
  }
}
