/** The ordered header list of a Kafka message and the trace-context carrier
    over it. Set and Keys are written identically in the chat producer and
    the notification consumer, so they are defined once here; the two Get
    functions differ (the consumer unquotes) and both live here so they can
    be compared. */
module Headers {
  import opened Results

  /** One Kafka header; the byte value is held as the string it converts to. */
  datatype Header = Header(key: string, value: string)

  type HeaderList = seq<Header>

  predicate HasKey(hs: HeaderList, key: string)
  {
    exists i :: 0 <= i < |hs| && hs[i].key == key
  }

  /** Index of the first header whose key is `key`: the header the
      carriers' range loops stop at. */
  function FirstIndex(hs: HeaderList, key: string): (r: Option<nat>)
    ensures r.None? <==> !HasKey(hs, key)
    ensures r.Some? ==> r.value < |hs| && hs[r.value].key == key
    ensures r.Some? ==> forall j :: 0 <= j < r.value ==> hs[j].key != key
  {
    if |hs| == 0 then None
    else if hs[0].key == key then Some(0)
    else match FirstIndex(hs[1..], key)
      case None => None
      case Some(i) => Some(i + 1)
  }

  /** Producer carrier Get: the value of the first header with this key,
      verbatim, or "" when no header has it. */
  function ProducerGet(hs: HeaderList, key: string): (v: string)
    ensures !HasKey(hs, key) ==> v == ""
    ensures v != "" ==> exists i :: 0 <= i < |hs| && hs[i] == Header(key, v)
  {
    match FirstIndex(hs, key)
    case None => ""
    case Some(i) => hs[i].value
  }

  /** A value the consumer treats as JSON-quoted: longer than two
      characters and wrapped in double quotes. */
  predicate IsQuoted(v: string)
  {
    |v| > 2 && v[0] == '"' && v[|v| - 1] == '"'
  }

  /** The consumer's unquoting: strips one leading and one trailing `"`
      from a quoted value, leaves every other value alone. */
  function Unquote(v: string): (r: string)
    ensures IsQuoted(v) ==> v == "\"" + r + "\"" && |r| > 0
    ensures !IsQuoted(v) ==> r == v
  {
    if IsQuoted(v) then v[1..|v| - 1] else v
  }

  /** Consumer carrier Get: the first matching value, unquoted; "" when
      absent. */
  function ConsumerGet(hs: HeaderList, key: string): (v: string)
    ensures v == Unquote(ProducerGet(hs, key))
  {
    match FirstIndex(hs, key)
    case None => ""
    case Some(i) => Unquote(hs[i].value)
  }

  /** Carrier Set: appends one header, never replaces. */
  function Set(hs: HeaderList, key: string, value: string): (r: HeaderList)
    ensures |r| == |hs| + 1 && r[..|hs|] == hs && r[|hs|] == Header(key, value)
  {
    hs + [Header(key, value)]
  }

  /** Carrier Keys: the keys of all headers, in order, duplicates kept. */
  method Keys(hs: HeaderList) returns (keys: seq<string>)
    ensures |keys| == |hs|
    ensures forall i :: 0 <= i < |hs| ==> keys[i] == hs[i].key
  {
    keys := [];
    var n := 0;
    while n < |hs|
      invariant 0 <= n <= |hs|
      invariant |keys| == n
      invariant forall i :: 0 <= i < n ==> keys[i] == hs[i].key
    {
      keys := keys + [hs[n].key];
      n := n + 1;
    }
  }

  /** Both Get functions find the first match: the value of the first header
      carrying the key, and "" when no header carries it. */
  lemma GetFindsFirstMatch(hs: HeaderList, key: string, i: nat)
    requires i < |hs| && hs[i].key == key
    requires forall j :: 0 <= j < i ==> hs[j].key != key
    ensures ProducerGet(hs, key) == hs[i].value
    ensures ConsumerGet(hs, key) == Unquote(hs[i].value)
  {
    assert HasKey(hs, key);
  }

  lemma GetMissingKey(hs: HeaderList, key: string)
    requires forall j :: 0 <= j < |hs| ==> hs[j].key != key
    ensures ProducerGet(hs, key) == "" && ConsumerGet(hs, key) == ""
  {
    assert !HasKey(hs, key);
  }

  /** Set then Get on a list that lacks the key returns the value set. */
  lemma {:induction false} SetThenGet(hs: HeaderList, key: string, value: string)
    requires !HasKey(hs, key)
    ensures ProducerGet(Set(hs, key, value), key) == value
  {
    GetFindsFirstMatch(Set(hs, key, value), key, |hs|);
  }

  /** A second Set of a key already present changes nothing Get reports:
      the first match wins. */
  lemma {:induction false} SetIsShadowed(hs: HeaderList, key: string, value: string)
    requires HasKey(hs, key)
    ensures ProducerGet(Set(hs, key, value), key) == ProducerGet(hs, key)
    ensures ConsumerGet(Set(hs, key, value), key) == ConsumerGet(hs, key)
  {
    var i := FirstIndex(hs, key).value;
    GetFindsFirstMatch(Set(hs, key, value), key, i);
    GetFindsFirstMatch(hs, key, i);
  }

  /** Set of one key leaves Get of every other key unchanged. */
  lemma {:induction false} SetKeepsOtherKeys(hs: HeaderList, key: string, value: string, other: string)
    requires other != key
    ensures ProducerGet(Set(hs, key, value), other) == ProducerGet(hs, other)
    ensures ConsumerGet(Set(hs, key, value), other) == ConsumerGet(hs, other)
  {
    var r := Set(hs, key, value);
    match FirstIndex(hs, other)
    case None =>
      GetMissingKey(r, other);
    case Some(i) =>
      GetFindsFirstMatch(r, other, i);
  }

  /** Keys after Set: the old keys followed by the new one. */
  method KeysAfterSet(hs: HeaderList, key: string, value: string) returns (before: seq<string>, after: seq<string>)
    ensures after == before + [key]
  {
    before := Keys(hs);
    after := Keys(Set(hs, key, value));
  }

  /** Producer-to-consumer round trip: a value the producer carrier set
      under a fresh key is read back by the consumer carrier exactly when
      it is not a quoted value; a quoted one comes back without its quotes. */
  lemma {:induction false} ProducerToConsumer(hs: HeaderList, key: string, value: string)
    requires !HasKey(hs, key)
    ensures ConsumerGet(Set(hs, key, value), key) == value <==> !IsQuoted(value)
    ensures IsQuoted(value) ==> "\"" + ConsumerGet(Set(hs, key, value), key) + "\"" == value
  {
    GetFindsFirstMatch(Set(hs, key, value), key, |hs|);
    if IsQuoted(value) {
      assert |Unquote(value)| < |value|;
    }
  }

  /** The two-character value `""` and the one-character value `"` are not
      unquoted. */
  lemma ShortQuotesKept()
    ensures Unquote("\"\"") == "\"\""
    ensures Unquote("\"") == "\""
    ensures Unquote("\"a\"") == "a"
  {
  }
}
