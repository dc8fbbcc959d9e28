# Graylog Twitter input: a verified model of its core

This project models, in Dafny, the deterministic core of the Graylog Twitter
plugin and proves what that code promises:

- **Track list** (`TrackTerms`): the `keywords` setting is cut into the
  `FilterQuery` track terms by Guava's `Splitter.on(',').omitEmptyStrings().trimResults()`.
  The model has split, trim and omit-empty as functions, and lemmas for each. Every
  term is non-empty, trimmed and comma-free. Order and duplicates are kept. Split
  and join invert each other. The test keywords give exactly the two test terms.
- **Normaliser** (`Normalizer`, with `Messages` and `JavaStrings`):
  `createMessageFromStatus` becomes the ordered list of `addField` pairs. The
  input's listener and the codec hold two identical copies of this method, so it
  is defined once and both call sites use it. The lemmas cover:
  - the seven always-present fields;
  - the geo pair, added both or neither;
  - the twelve-key user block, added all or nothing;
  - `tweet_url` as the exact concatenation, with the id readable back from its tail;
  - `tweet_is_retweet` as the text `"true"`/`"false"`;
  - the field count of 7, 9, 19 or 21;
  - that nothing is lost: a status can be read back from its message.
- **Codec** (`Codec`): `decode` returns no message when the payload does not
  parse, and otherwise the normalised message. It keeps everything the parser
  produced.
- **Input** (`Input`):
  - `checkConfiguration` is a loop tied to a reference function for "first unset
    key". The keywords setting is not required.
  - `getAttributes` masks the two secrets and nothing else, and masking is
    idempotent.
  - The status listener produces one message per status, and none for any other
    callback.
  - `TwitterInput` is a class with a nullable `twitterStream` field. `launch`
    creates the stream lazily, then calls `addListener` and then `filter`.
    `stop` calls `cleanUp` and then `shutdown`.
  - The unit tests are modelled as methods whose postconditions are the call
    logs they check.
- **Transport** (`Transport`): the same lifecycle, with the JSON store enabled
  and the raw-message listener. A lemma shows that when parsing raw JSON is a
  left inverse of rendering it, "transport, then codec" yields the same messages
  as the input's listener.
- **Legacy consumer** (`Legacy`):
  - `parseLogMessageFromTweet`, with its read-back.
  - The per-connection line loop of `consume`, as a `while` loop over a `Buffer`
    object. It inserts one message per non-empty line, in order, and abandons the
    connection at the first line that throws.
  - The reconnecting outer loop, over a finite sequence of connections. Every
    connection sends the same request, which carries the track string verbatim.

`Twitter4j` holds the parts of twitter4j the plugin drives:
- the stream configuration built from the OAuth settings;
- the filter query;
- the listener callbacks;
- a `TwitterStream` class that records every call made on it, in order.

`Settings` holds the plugin's configuration map, with `getString` and
`stringIsSet`.

Behaviour worth noting:
- A missing `keywords` setting is not treated as "no terms". `Splitter.split(null)`
  throws, so `launch` fails (`Fail(KeywordsNotSet)`) before touching the stream.
- `stop` before any `launch` dereferences a null stream, so the model returns
  `Fail(NoStream)`. It is not a safe no-op.
- `launch` is not idempotent. A second call on the same object adds a second
  listener and filters again (`LaunchTwice`).
- There is no reconnect backoff and no classification of faults. The legacy
  consumer reconnects after every connection, whatever happened.
- The transport performs no configuration check of its own.

## Model

| member | source | states |
|---|---|---|
| JavaStrings.BoolToString | src/main/java/org/graylog2/inputs/twitter/TwitterInput.java:153 | Boolean.toString gives exactly "true" or "false", and parsing it gives the flag back |
| JavaStrings.LongToString | src/main/java/org/graylog2/inputs/twitter/TwitterInput.java:167 | the decimal rendering of the status id is non-empty, has no '/', and parses back to the id |
| JavaStrings.LongToStringInjective | src/main/java/org/graylog2/inputs/twitter/TwitterInput.java:167 | two different ids never render to the same text |
| Normalizer.TweetUrl | src/main/java/org/graylog2/inputs/twitter/TwitterInput.java:167 | tweet_url starts with "https://twitter.com/" and the status id can be read back from the segment after its last '/', whatever the screen name |
| Normalizer.TweetUrlFacts | src/main/java/org/graylog2/inputs/twitter/TwitterCodec.java:93 | the concatenation "https://twitter.com/" + screenName + "/status/" + id ends in the id and starts with the base URL |
| Normalizer.TweetUrlInjective | src/main/java/org/graylog2/inputs/twitter/TwitterCodec.java:93 | two tweet URLs are equal only when both the screen name and the id are equal |
| Normalizer.RequiredFields | src/main/java/org/graylog2/inputs/twitter/TwitterInput.java:150-156 | the seven always-added keys, in their order: facility, level, tweet_id, tweet_is_retweet, tweet_favorite_count, tweet_retweet_count, tweet_language |
| Normalizer.GeoFields | src/main/java/org/graylog2/inputs/twitter/TwitterInput.java:159-163 | tweet_geo_long then tweet_geo_lat when there is a geolocation, no keys otherwise |
| Normalizer.UserFields | src/main/java/org/graylog2/inputs/twitter/TwitterInput.java:165-179 | the twelve user keys in their order when there is a user, no keys otherwise |
| Normalizer.CreateMessageFromStatus | src/main/java/org/graylog2/inputs/twitter/TwitterInput.java:147-181 | source "twitter.com", message = status text, timestamp = creation time; the keys are required, then geo, then user, none added twice, 7 + 2 + 12 as present; the codec's identical copy (TwitterCodec.java:73-107) is this same function, so both give the same addField sequence for every status |
| Normalizer.ExpectedKeysDistinct | src/main/java/org/graylog2/inputs/twitter/TwitterCodec.java:76-105 | no key is added twice, whichever blocks are present, so no addField overwrites another |
| Normalizer.FieldCount | src/main/java/org/graylog2/inputs/twitter/TwitterInput.java:150-179 | the number of addField calls is 7, 9, 19 or 21; 7 exactly without geo and user, 21 exactly with both |
| Normalizer.RequiredFieldValues | src/main/java/org/graylog2/inputs/twitter/TwitterInput.java:148-156 | facility "Tweets", level 6, tweet_id = id, tweet_is_retweet = "true"/"false", both counts and the language, read back from the message |
| Normalizer.GeoBothOrNeither | src/main/java/org/graylog2/inputs/twitter/TwitterInput.java:159-163 | each geo key is present exactly when the status has a geolocation, carrying its longitude and latitude |
| Normalizer.UserBlockAllOrNothing | src/main/java/org/graylog2/inputs/twitter/TwitterInput.java:165-179 | each of the twelve user keys is present exactly when the status has a user |
| Normalizer.UserFieldValues | src/main/java/org/graylog2/inputs/twitter/TwitterCodec.java:93-104 | in the user block, each key maps to the matching User getter and tweet_url to the tweet URL |
| Normalizer.UserBlockValues | src/main/java/org/graylog2/inputs/twitter/TwitterInput.java:167-178 | in the whole message, each user key reads the matching User getter and tweet_url the tweet URL |
| Normalizer.GeoReadBack | src/main/java/org/graylog2/inputs/twitter/TwitterCodec.java:85-89 | the geolocation read back from the message is the status's geolocation, absent included |
| Normalizer.UserReadBack | src/main/java/org/graylog2/inputs/twitter/TwitterCodec.java:91-105 | the user read back from the message is the status's user, absent included |
| Normalizer.NormalizationLossless | src/main/java/org/graylog2/inputs/twitter/TwitterInput.java:147-181 | reading a status back from its message gives exactly that status: normalisation loses no getter value |
| TrackTerms.Trim | src/main/java/org/graylog2/inputs/twitter/TwitterInput.java:203 | trimResults leaves no whitespace at either end, and gives "" exactly for an all-whitespace piece |
| TrackTerms.TrimExcludes | src/main/java/org/graylog2/inputs/twitter/TwitterInput.java:203 | trimming adds no character: one a piece lacks, its trimmed form lacks too |
| TrackTerms.TrimUnique | src/main/java/org/graylog2/inputs/twitter/TwitterInput.java:203 | whitespace around a trimmed core is exactly what trimming removes |
| TrackTerms.TrimOfTrimmed | src/main/java/org/graylog2/inputs/twitter/TwitterInput.java:203 | a piece with no surrounding whitespace is left unchanged |
| TrackTerms.TrimIdempotent | src/main/java/org/graylog2/inputs/twitter/TwitterInput.java:203 | trimming twice is trimming once |
| TrackTerms.Split | src/main/java/org/graylog2/inputs/twitter/TwitterInput.java:203 | Splitter.on(',') yields at least one piece, empty pieces included |
| TrackTerms.SplitPieces | src/main/java/org/graylog2/inputs/twitter/TwitterInput.java:203 | no piece contains the separator, and joining the pieces with it gives the input back |
| TrackTerms.SplitJoin | src/main/java/org/graylog2/inputs/twitter/TwitterInput.java:203 | splitting the join of separator-free pieces gives those pieces back |
| TrackTerms.SplitConcat | src/main/java/org/graylog2/inputs/twitter/TwitterInput.java:203 | splitting a + "," + b splits a and b separately, in order |
| TrackTerms.SplitNoSeparator | src/main/java/org/graylog2/inputs/twitter/TwitterInput.java:203 | a string without the separator is a single piece |
| TrackTerms.TrimAndOmit | src/main/java/org/graylog2/inputs/twitter/TwitterInput.java:203 | trimResults then omitEmptyStrings never yields more terms than pieces |
| TrackTerms.TrimAndOmitTrimmed | src/main/java/org/graylog2/inputs/twitter/TwitterInput.java:203 | every term is non-empty and has no surrounding whitespace |
| TrackTerms.TrimAndOmitExcludes | src/main/java/org/graylog2/inputs/twitter/TwitterInput.java:203 | a character that occurs in no piece occurs in no term |
| TrackTerms.TrimAndOmitConcat | src/main/java/org/graylog2/inputs/twitter/TwitterInput.java:203 | the pieces are handled one at a time, in order |
| TrackTerms.Track | src/main/java/org/graylog2/inputs/twitter/TwitterInput.java:203-204 | the track list never has more terms than the keywords string has comma-separated pieces |
| TrackTerms.TrackTermsWellFormed | src/main/java/org/graylog2/inputs/twitter/TwitterTransport.java:123-124 | every track term is non-empty, trimmed and comma-free |
| TrackTerms.TrackConcat | src/main/java/org/graylog2/inputs/twitter/TwitterInput.java:203-204 | the terms of a + "," + b are the terms of a followed by those of b: order and duplicates kept |
| TrackTerms.TrackSingle | src/main/java/org/graylog2/inputs/twitter/TwitterInput.java:203-204 | a comma-free string gives its trimmed self as one term, or no term when blank |
| TrackTerms.TrackOfWord | src/main/java/org/graylog2/inputs/twitter/TwitterInput.java:203-204 | a plain keyword is its own track list |
| TrackTerms.TrackOfTwoWords | src/main/java/org/graylog2/inputs/twitter/TwitterInput.java:203-204 | two plain keywords give exactly those two terms, in order, equal ones included |
| TrackTerms.TrackOfTestKeywords | src/test/java/org/graylog2/inputs/twitter/TwitterInputTest.java:114-129 | "TEST_keywords1,TEST_keywords2" gives [TEST_keywords1, TEST_keywords2] |
| TrackTerms.TrackOfPaddedWord | src/main/java/org/graylog2/inputs/twitter/TwitterInput.java:203-204 | padding around a keyword is trimmed off |
| TrackTerms.TrackOfBlank | src/main/java/org/graylog2/inputs/twitter/TwitterInput.java:203-204 | a blank piece contributes no term |
| TrackTerms.TrackOfPaddedThen | src/main/java/org/graylog2/inputs/twitter/TwitterInput.java:203-204 | a padded leading keyword comes first, trimmed, before the rest's terms |
| TrackTerms.TrackOfPaddedTrailingComma | src/main/java/org/graylog2/inputs/twitter/TwitterInput.java:203-204 | the splitter conflates strings: " foo," and "foo" both give [foo] |
| TrackTerms.TrackOfBlankThen | src/main/java/org/graylog2/inputs/twitter/TwitterInput.java:203-204 | a leading blank piece is dropped |
| TrackTerms.TrackOfMixedPieces | src/main/java/org/graylog2/inputs/twitter/TwitterTransport.java:123-124 | plain, padded and blank pieces together give the non-blank terms trimmed, in order |
| TrackTerms.TrackOfSpacedKeywords | src/main/java/org/graylog2/inputs/twitter/TwitterInput.java:203-204 | "foo, bar ,,baz" gives [foo, bar, baz] |
| Twitter4j.StreamConfigurationUsesOnlyOAuth | src/main/java/org/graylog2/inputs/twitter/TwitterTransport.java:82-87 | the stream is configured from the four OAuth settings alone: configurations that agree on those configure the same stream |
| Twitter4j.StreamConfigurationIgnoresKeywords | src/main/java/org/graylog2/inputs/twitter/TwitterInput.java:136-140 | setting, changing or removing the keywords never changes the stream configuration; the keywords only reach the filter query |
| Codec.Decode | src/main/java/org/graylog2/inputs/twitter/TwitterCodec.java:61-71 | no message exactly when the payload does not parse; otherwise the normalised message of the parsed status |
| Codec.DecodedMessageBasics | src/main/java/org/graylog2/inputs/twitter/TwitterCodec.java:70-78 | a parsed payload gives a message from twitter.com with the status text and the status id |
| Codec.DecodeLossless | src/main/java/org/graylog2/inputs/twitter/TwitterCodec.java:61-71 | reading the status back from the decoded message gives what the parser returned, and nothing when it failed |
| Input.FirstUnset | src/main/java/org/graylog2/inputs/twitter/TwitterInput.java:127-130 | the position of the first key that is not set: all earlier keys are set, that one is not |
| Input.FirstUnsetDependsOnlyOnKeys | src/main/java/org/graylog2/inputs/twitter/TwitterInput.java:127-130 | the outcome depends only on which checked keys are set |
| Input.KeywordsNotRequired | src/main/java/org/graylog2/inputs/twitter/TwitterInput.java:61-63 | adding, changing or removing the keywords setting never changes the check |
| Input.CheckConfigurationTests | src/test/java/org/graylog2/inputs/twitter/TwitterInputTest.java:44-109 | the full test configuration and the one without keywords pass; without any one OAuth key it fails on that key |
| Input.TwitterInput.CheckConfiguration | src/main/java/org/graylog2/inputs/twitter/TwitterInput.java:125-132 | passes exactly when all four OAuth keys are set; otherwise fails with "<first unset key> must not be empty." |
| Input.Subscribe | src/main/java/org/graylog2/inputs/twitter/TwitterInput.java:212-213 | the stream's log grows by addListener then filter, nothing else |
| Input.Redact | src/main/java/org/graylog2/inputs/twitter/TwitterInput.java:232-243 | same keys; the two secrets read "****"; every other value unchanged |
| Input.RedactIdempotent | src/main/java/org/graylog2/inputs/twitter/TwitterInput.java:232-243 | masking twice is masking once |
| Input.RedactChangesOnlySecrets | src/main/java/org/graylog2/inputs/twitter/TwitterInput.java:237-238 | a value that changes is a secret's, and it becomes "****" |
| Input.GetAttributesTest | src/test/java/org/graylog2/inputs/twitter/TwitterInputTest.java:148-163 | both secrets of the test configuration read "****" |
| Input.TwitterInput.GetAttributes | src/main/java/org/graylog2/inputs/twitter/TwitterInput.java:232-243 | the held configuration's keys, each value passed through the entry transformer |
| Input.OnEvent | src/main/java/org/graylog2/inputs/twitter/TwitterInput.java:142-200 | a status inserts exactly one message; every other callback inserts none |
| Input.InsertedForStatuses | src/main/java/org/graylog2/inputs/twitter/TwitterInput.java:143-145 | over a run of events, the inserted messages are the normalised statuses, one each, in order |
| Input.TwitterInput.constructor | src/main/java/org/graylog2/inputs/twitter/TwitterInput.java:71-72 | a new input holds no stream |
| Input.TwitterInput.WithStream | src/main/java/org/graylog2/inputs/twitter/TwitterInput.java:74-77 | the injected stream is held |
| Input.TwitterInput.Launch | src/main/java/org/graylog2/inputs/twitter/TwitterInput.java:203-214 | fails, touching nothing, exactly when keywords is missing; otherwise reuses a held stream or creates one from the OAuth settings, then logs addListener then filter with the track list |
| Input.TwitterInput.Stop | src/main/java/org/graylog2/inputs/twitter/TwitterInput.java:216-220 | fails exactly when there is no stream; otherwise the log grows by cleanUp then shutdown |
| Input.LaunchOnInjectedStream | src/test/java/org/graylog2/inputs/twitter/TwitterInputTest.java:111-130 | launch on an injected stream, with the test configuration and given keywords, makes exactly the listener call and a filter on the keywords' track list |
| Input.TestLaunch | src/test/java/org/graylog2/inputs/twitter/TwitterInputTest.java:111-130 | with the test keywords, the filter call carries exactly [TEST_keywords1, TEST_keywords2] |
| Input.TestStop | src/test/java/org/graylog2/inputs/twitter/TwitterInputTest.java:132-141 | stop on an injected stream makes cleanUp and shutdown once each and no other call |
| Input.StopBeforeLaunch | src/main/java/org/graylog2/inputs/twitter/TwitterInput.java:217-219 | stop with no stream fails |
| Input.LaunchTwice | src/main/java/org/graylog2/inputs/twitter/TwitterInput.java:208-213 | a second launch reuses the stream and repeats addListener and filter |
| Transport.OnEvent | src/main/java/org/graylog2/inputs/twitter/TwitterTransport.java:89-119 | a status hands over exactly one raw message carrying its raw JSON; every other callback hands over none |
| Transport.TransportThenCodecMatchesInput | src/main/java/org/graylog2/inputs/twitter/TwitterTransport.java:90-100 | when parsing gives back each delivered status from its raw JSON, decoding what the transport hands over gives exactly the input's messages for the same events |
| Transport.TwitterTransport.constructor | src/main/java/org/graylog2/inputs/twitter/TwitterTransport.java:68-72 | a new transport holds its configuration and no stream |
| Transport.TwitterTransport.Launch | src/main/java/org/graylog2/inputs/twitter/TwitterTransport.java:81-134 | fails, touching nothing, exactly when keywords is missing; otherwise reuses a held stream or creates one with the JSON store enabled, then logs addListener then filter |
| Transport.TwitterTransport.Stop | src/main/java/org/graylog2/inputs/twitter/TwitterTransport.java:136-140 | fails exactly when there is no stream; otherwise the log grows by cleanUp then shutdown |
| Transport.LaunchThenStop | src/main/java/org/graylog2/inputs/twitter/TwitterTransport.java:128-140 | launch then stop on a fresh transport: one JSON-store stream, with listener, filter, cleanUp and shutdown in that order |
| Legacy.UserData | src/main/java/org/graylog2/twitterinput/input/TwitterStreamingConsumer.java:114-120 | the seven user keys, in the order they are added |
| Legacy.ParseLogMessageFromTweet | src/main/java/org/graylog2/twitterinput/input/TwitterStreamingConsumer.java:102-124 | host twitter.com, text, facility "tweets", level 6, tweet_id first; a full message exactly when there is a user, and then it is the tweet URL of that user's screen name and the tweet id |
| Legacy.UserDataAllOrNothing | src/main/java/org/graylog2/twitterinput/input/TwitterStreamingConsumer.java:110-121 | tweet_id always reads the id; each user key is present exactly when the tweet has a user |
| Legacy.KeysDistinct | src/main/java/org/graylog2/twitterinput/input/TwitterStreamingConsumer.java:110-121 | no additional-data key is added twice |
| Legacy.UserReadBack | src/main/java/org/graylog2/twitterinput/input/TwitterStreamingConsumer.java:112-121 | the user read back from the additional data is the tweet's user |
| Legacy.ParseLogMessageLossless | src/main/java/org/graylog2/twitterinput/input/TwitterStreamingConsumer.java:102-124 | reading the tweet back from the log message gives exactly the tweet |
| Legacy.Buffer.InsertCached | src/main/java/org/graylog2/twitterinput/input/TwitterStreamingConsumer.java:84-86 | the message is appended to the buffer |
| Legacy.FirstFailureFacts | src/main/java/org/graylog2/twitterinput/input/TwitterStreamingConsumer.java:76-89 | every line before the first failure is handled without throwing, and the line there throws |
| Legacy.ConsumeLines | src/main/java/org/graylog2/twitterinput/input/TwitterStreamingConsumer.java:76-89 | the buffer grows by exactly the messages of the lines before the first failure; the loop ends at the end of the stream or at that line |
| Legacy.InsertedConcat | src/main/java/org/graylog2/twitterinput/input/TwitterStreamingConsumer.java:76-89 | a later part of a response counts only if the earlier part is handled completely |
| Legacy.EmptyLinesSkipped | src/main/java/org/graylog2/twitterinput/input/TwitterStreamingConsumer.java:83-87 | an empty line inserts nothing |
| Legacy.RestAbandoned | src/main/java/org/graylog2/twitterinput/input/TwitterStreamingConsumer.java:90-92 | after a line that throws, nothing more of that response is inserted |
| Legacy.NonEmptyLines | src/main/java/org/graylog2/twitterinput/input/TwitterStreamingConsumer.java:83 | the non-empty lines, each taken from the response |
| Legacy.OneMessagePerNonEmptyLine | src/main/java/org/graylog2/twitterinput/input/TwitterStreamingConsumer.java:76-89 | when no line throws, one message per non-empty line, in line order, each the message of that line's tweet |
| Legacy.TrackSentVerbatim | src/main/java/org/graylog2/twitterinput/input/TwitterStreamingConsumer.java:69-71 | the track string goes out unchanged: two different track strings always give two different requests |
| Legacy.TwitterStreamingConsumer.Consume | src/main/java/org/graylog2/twitterinput/input/TwitterStreamingConsumer.java:57-96 | every connection sends the same filter request and ends as its lines dictate; the buffer grows by every connection's messages, in order |

## Left out

- Network and time are not modelled:
  - the HTTP client, credentials provider and response reader of the legacy consumer;
  - the `Thread.sleep(5000)` between connections;
  - the twitter4j streaming machinery behind `TwitterStream`.
  The responses are given as a sequence of connections, each a sequence of lines.
- Logging is not modelled: all `LOG` calls and the consumer's `System.err` output. The static `System.setProperty` call has no effect on anything modelled.
- twitter4j's `TwitterObjectFactory.createStatus` and `getRawJSON`, and Gson's `fromJson`, are parameters. `createStatus` is `seq<byte> -> Option<Status>`, `rawJson` is `Status -> seq<byte>`, and `parse` is `string -> Option<Tweet>`. A parse error is `None`; so is a `null` tweet, which `parseLogMessageFromTweet` dereferences.
- UTF-8 encoding of payloads is not modelled. The raw JSON is given directly as bytes.
- `getRequestedConfiguration`, `TwitterTransport.Config`, the plugin metadata and module classes, and the legacy `twitterinput/input/TwitterInput.java` only describe configuration fields or register classes. They are not part of this model.
- The Graylog `Message`, `Configuration` and `Buffer` classes are outside this repository:
  - `Message.addField` is modelled as appending a `(key, value)` pair, with a later pair winning on lookup. Whether Graylog drops null or empty values is not modelled.
  - `Configuration.stringIsSet` is modelled as "present and not empty".
  - Configuration values are modelled as strings only.
- Floating-point and time values are copied through, never computed on: geolocation doubles are `real`, and `DateTime` is the creation instant as an integer.
- Java `null` strings from twitter4j getters are not distinguished from other strings. A status or tweet is assumed to have its getters' values.
- Statuses, users and tweets keep only the fields the code reads. The id fields are integers; the 64-bit range of `long` is not enforced, since no arithmetic is done on them. `Tweet.java` of the legacy package is not part of this model; its fields are read as `long`, `String` and `int`.
- Legacy.TwitterStreamingConsumer.Consume: the source loops forever. The model runs over a finite sequence of connections, and states what each prefix of the run inserts.
- Legacy.FilterRequest: the request is built as the code builds it, but only its parameter list is the subject of a lemma. The URL, scope and credentials are stated by its definition alone.
- Transport.OnEvent: an `IOException` from `processRawMessage` is logged and swallowed. The model hands the raw message over and does not model a failing journal.
- Twitter4j.TwitterStream stands in for a foreign interface. Its methods only record the calls made on them.
