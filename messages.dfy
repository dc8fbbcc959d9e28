/**
 * The values the normaliser reads and writes: twitter4j's Status, User and
 * GeoLocation as plain records, and Graylog's Message as the short message, the
 * host, the timestamp and the ordered list of (key, value) pairs handed to
 * Message.addField.
 */
module Messages {
  import opened Wrappers

  /** A byte of a raw payload. */
  newtype byte = x: int | 0 <= x < 256

  /** twitter4j.GeoLocation; the doubles are copied through, never computed on. */
  datatype GeoLocation = GeoLocation(latitude: real, longitude: real)

  /** The twitter4j.User getters the normaliser calls. */
  datatype User = User(
    id: int,
    screenName: string,
    description: string,
    timeZone: string,
    utcOffset: int,
    location: string,
    lang: string,
    url: string,
    followersCount: int,
    statusesCount: int,
    favouritesCount: int)

  /**
   * The twitter4j.Status getters the normaliser calls; createdAt is the creation
   * instant in milliseconds, geoLocation and user are null when absent.
   */
  datatype Status = Status(
    text: string,
    createdAt: int,
    id: int,
    isRetweet: bool,
    favoriteCount: int,
    retweetCount: int,
    lang: string,
    geoLocation: Option<GeoLocation>,
    user: Option<User>)

  /** The Java types of the values the normaliser adds: String, int/long, double. */
  datatype FieldValue = Text(text: string) | Number(number: int) | Decimal(decimal: real)

  type Field = (string, FieldValue)

  /** org.graylog2.plugin.Message: message text, source host, timestamp, added fields in order. */
  datatype Message = Message(message: string, source: string, timestamp: int, fields: seq<Field>)

  /** org.graylog2.plugin.journal.RawMessage, reduced to its payload bytes. */
  datatype RawMessage = RawMessage(payload: seq<byte>)

  /** The keys of the added fields, in the order they were added. */
  function Keys(fields: seq<Field>): (keys: seq<string>)
    ensures |keys| == |fields|
    ensures forall i :: 0 <= i < |fields| ==> keys[i] == fields[i].0
  {
    seq(|fields|, i requires 0 <= i < |fields| => fields[i].0)
  }

  lemma KeysAppend(a: seq<Field>, b: seq<Field>)
    ensures Keys(a + b) == Keys(a) + Keys(b)
  {
  }

  /** Message.getField: the value added last under key, as addField overwrites. */
  function GetField(fields: seq<Field>, key: string): (v: Option<FieldValue>)
    ensures v.None? <==> key !in Keys(fields)
  {
    if fields == [] then None
    else if fields[|fields| - 1].0 == key then Some(fields[|fields| - 1].1)
    else
      assert Keys(fields) == Keys(fields[..|fields| - 1]) + [fields[|fields| - 1].0];
      GetField(fields[..|fields| - 1], key)
  }

  /** No key is added twice. */
  predicate Distinct(keys: seq<string>)
  {
    forall i, j :: 0 <= i < j < |keys| ==> keys[i] != keys[j]
  }

  lemma DistinctAppend(a: seq<string>, b: seq<string>)
    requires Distinct(a) && Distinct(b)
    requires forall k :: k in a ==> k !in b
    ensures Distinct(a + b)
  {
    forall i, j | 0 <= i < j < |a + b| ensures (a + b)[i] != (a + b)[j] {
      if j >= |a| && i < |a| {
        assert (a + b)[i] in a && (a + b)[j] in b;
      }
    }
  }

  /** With distinct keys, the value stored under the i-th key is the i-th value. */
  lemma {:induction false} GetFieldAt(fields: seq<Field>, i: nat)
    requires Distinct(Keys(fields)) && i < |fields|
    ensures GetField(fields, fields[i].0) == Some(fields[i].1)
    decreases |fields|
  {
    var n := |fields| - 1;
    if i < n {
      assert Keys(fields)[i] != Keys(fields)[n];
      var init := fields[..n];
      assert Keys(init) == Keys(fields)[..n];
      GetFieldAt(init, i);
    }
  }

  /** A key added in the later block is read back from that block alone. */
  lemma {:induction false} GetFieldAppend(a: seq<Field>, b: seq<Field>, key: string)
    requires key in Keys(b)
    ensures GetField(a + b, key) == GetField(b, key)
    decreases |b|
  {
    var n := |b| - 1;
    assert (a + b)[|a + b| - 1] == b[n];
    if b[n].0 != key {
      assert (a + b)[..|a + b| - 1] == a + b[..n];
      assert Keys(b) == Keys(b[..n]) + [b[n].0];
      GetFieldAppend(a, b[..n], key);
    }
  }
}
