/**
 * JSON values, and the codecs that the content adapter uses: the JSON parser
 * and printer, UTF-8 and base64. The codecs are parameters. `Lawful` says what
 * the adapter relies on, and JsonCodecExample.dfy gives codecs that satisfy it.
 */
module JsonText {
  import opened Options
  import opened Sequences
  import Decimal

  type Bytes = seq<bv8>

  /**
   * A parsed JSON value. A number is the value that the printer keeps, so minus
   * zero is zero, and only whether a value is a number matters here.
   */
  datatype Json =
    | Null
    | Bool(value: bool)
    | Num(number: int)
    | Str(text: string)
    | Arr(items: seq<Json>)
    | Obj(members: seq<Member>)

  datatype Member = Member(key: string, json: Json)

  // --- Objects as ordered members ------------------------------------------------

  /** A key that an object lists before the others, in numeric order. */
  predicate IsIndexKey(key: string) {
    && key != "" && Decimal.AllDigits(key)
    && (key[0] == '0' ==> |key| == 1)
    && Decimal.Value(key) < 0xFFFF_FFFF
  }

  predicate KeyBefore(one: string, other: string) {
    if IsIndexKey(one) && IsIndexKey(other) then Decimal.Value(one) < Decimal.Value(other)
    else one != other && !IsIndexKey(other)
  }

  /** The members of a JavaScript object: unique keys, index keys first and ascending. */
  ghost predicate Ordered(members: seq<Member>) {
    forall i, j :: 0 <= i < j < |members| ==> KeyBefore(members[i].key, members[j].key)
  }

  ghost predicate WellFormed(json: Json) {
    match json
    case Arr(items) => forall i :: 0 <= i < |items| ==> WellFormed(items[i])
    case Obj(members) => Ordered(members) && forall i :: 0 <= i < |members| ==> WellFormed(members[i].json)
    case _ => true
  }

  /** The text is a string value somewhere inside the value. */
  ghost predicate TextIn(json: Json, text: string) {
    match json
    case Str(t) => t == text
    case Arr(items) => exists i :: 0 <= i < |items| && TextIn(items[i], text)
    case Obj(members) => exists i :: 0 <= i < |members| && TextIn(members[i].json, text)
    case _ => false
  }

  predicate Has(members: seq<Member>, key: string) {
    exists i :: 0 <= i < |members| && members[i].key == key
  }

  function Get(members: seq<Member>, key: string): (value: Option<Json>)
    ensures value.Some? <==> Has(members, key)
    ensures value.Some? ==> Member(key, value.value) in members
  {
    if members == [] then None
    else if members[0].key == key then Some(members[0].json)
    else
      assert forall i :: 1 <= i < |members| ==> members[1..][i - 1] == members[i];
      Get(members[1..], key)
  }

  /** The members without one key. */
  function Without(members: seq<Member>, key: string): seq<Member> {
    if members == [] then []
    else if members[0].key == key then Without(members[1..], key)
    else [members[0]] + Without(members[1..], key)
  }

  /** The members with one key set. A key that is present keeps its place, and a new key comes last. */
  function With(members: seq<Member>, key: string, json: Json): seq<Member> {
    if members == [] then [Member(key, json)]
    else if members[0].key == key then [Member(key, json)] + members[1..]
    else [members[0]] + With(members[1..], key, json)
  }

  lemma {:induction false} WithoutMembers(members: seq<Member>, key: string)
    ensures !Has(Without(members, key), key)
    ensures forall m :: m in Without(members, key) <==> m in members && m.key != key
  {
    if members != [] {
      WithoutMembers(members[1..], key);
      assert members == [members[0]] + members[1..];
      var less := Without(members, key);
      forall i | 0 <= i < |less| ensures less[i].key != key {
        assert less[i] in less;
      }
    }
  }

  lemma {:induction false} WithoutAppended(members: seq<Member>, key: string, json: Json)
    requires !Has(members, key)
    ensures Without(members + [Member(key, json)], key) == members
    ensures With(members, key, json) == members + [Member(key, json)]
  {
    if members == [] {
      assert Without([Member(key, json)], key) == Without([Member(key, json)][1..], key) == [];
    } else {
      assert members[0].key != key;
      assert forall i :: 0 <= i < |members| - 1 ==> members[1..][i] == members[i + 1];
      assert (members + [Member(key, json)])[1..] == members[1..] + [Member(key, json)];
      WithoutAppended(members[1..], key, json);
    }
  }

  /** Setting the last member again replaces its value. */
  lemma {:induction false} WithLast(members: seq<Member>, key: string, json: Json, other: Json)
    requires !Has(members, key)
    ensures With(members + [Member(key, json)], key, other) == members + [Member(key, other)]
  {
    var more := members + [Member(key, json)];
    if members == [] {
      assert more[1..] == [];
    } else {
      assert members[0].key != key;
      assert forall i :: 0 <= i < |members| - 1 ==> members[1..][i] == members[i + 1];
      assert more[1..] == members[1..] + [Member(key, json)];
      WithLast(members[1..], key, json, other);
    }
  }

  lemma {:induction false} GetAppended(members: seq<Member>, key: string, json: Json, other: string)
    requires !Has(members, key)
    ensures Get(members + [Member(key, json)], other) == if other == key then Some(json) else Get(members, other)
  {
    var more := members + [Member(key, json)];
    if members == [] {
      assert more[1..] == [];
    } else {
      assert members[0].key != key;
      assert forall i :: 0 <= i < |members| - 1 ==> members[1..][i] == members[i + 1];
      assert more[1..] == members[1..] + [Member(key, json)];
      GetAppended(members[1..], key, json, other);
    }
  }

  lemma {:induction false} GetWithout(members: seq<Member>, key: string, other: string)
    requires other != key
    ensures Get(Without(members, key), other) == Get(members, other)
  {
    if members != [] {
      GetWithout(members[1..], key, other);
      if members[0].key != key {
        assert Without(members, key)[1..] == Without(members[1..], key);
      }
    }
  }

  lemma {:induction false} GetWith(members: seq<Member>, key: string, json: Json, other: string)
    ensures Get(With(members, key, json), other) == if other == key then Some(json) else Get(members, other)
  {
    if members == [] {
      assert With(members, key, json)[1..] == [];
    } else if members[0].key == key {
      assert With(members, key, json)[1..] == members[1..];
    } else {
      GetWith(members[1..], key, json, other);
      assert With(members, key, json)[1..] == With(members[1..], key, json);
    }
  }

  /** Removing a key keeps the order of the members. */
  lemma {:induction false} WithoutOrdered(members: seq<Member>, key: string)
    requires WellFormed(Obj(members))
    ensures WellFormed(Obj(Without(members, key)))
  {
    if members != [] {
      var rest := members[1..];
      assert WellFormed(Obj(rest));
      WithoutOrdered(rest, key);
      WithoutMembers(rest, key);
      if members[0].key != key {
        var less := Without(rest, key);
        assert Without(members, key) == [members[0]] + less;
        forall j | 0 <= j < |less| ensures KeyBefore(members[0].key, less[j].key) {
          assert less[j] in rest;
          var k :| 0 <= k < |rest| && rest[k] == less[j];
          assert members[k + 1] == less[j];
        }
        assert Ordered([members[0]] + less);
      }
    }
  }

  /** Appending a key that is no index and not present keeps the order of the members. */
  lemma AppendedOrdered(members: seq<Member>, key: string, json: Json)
    requires WellFormed(Obj(members)) && WellFormed(json) && !Has(members, key) && !IsIndexKey(key)
    ensures WellFormed(Obj(members + [Member(key, json)]))
  {
    var more := members + [Member(key, json)];
    forall i, j | 0 <= i < j < |more| ensures KeyBefore(more[i].key, more[j].key) {
      if j == |members| {
        assert more[i] == members[i];
      }
    }
  }

  /** Setting a present key keeps the keys and their order. */
  lemma {:induction false} WithKeepsKeys(members: seq<Member>, key: string, json: Json)
    requires Has(members, key)
    ensures |With(members, key, json)| == |members|
    ensures forall i :: 0 <= i < |members| ==>
              && With(members, key, json)[i].key == members[i].key
              && (With(members, key, json)[i] == members[i] || With(members, key, json)[i].json == json)
  {
    if members[0].key != key {
      assert Has(members[1..], key) by {
        var i :| 0 <= i < |members| && members[i].key == key;
        assert members[1..][i - 1].key == key;
      }
      WithKeepsKeys(members[1..], key, json);
    }
  }

  lemma WithOrdered(members: seq<Member>, key: string, json: Json)
    requires WellFormed(Obj(members)) && WellFormed(json) && Has(members, key)
    ensures WellFormed(Obj(With(members, key, json)))
  {
    WithKeepsKeys(members, key, json);
  }

  // --- What removing and setting a key mean -----------------------------------------

  /** Exactly one member of the key went out, and every other member stays in its place. */
  ghost predicate IsRest(members: seq<Member>, key: string, rest: seq<Member>) {
    exists i :: 0 <= i < |members| && members[i].key == key && rest == members[..i] + members[i + 1..]
  }

  /** The same keys in the same order, with the same values but for one key. */
  ghost predicate SameBut(before: seq<Member>, after: seq<Member>, key: string) {
    && |before| == |after|
    && forall i :: 0 <= i < |before| ==>
         before[i].key == after[i].key && (before[i].key != key ==> before[i] == after[i])
  }

  lemma KeysDiffer(members: seq<Member>)
    requires Ordered(members)
    ensures forall i, j :: 0 <= i < j < |members| ==> members[i].key != members[j].key
  {
    forall i, j | 0 <= i < j < |members| ensures members[i].key != members[j].key {
      assert KeyBefore(members[i].key, members[j].key);
    }
  }

  lemma GetIff(members: seq<Member>, key: string, json: Json)
    requires Ordered(members)
    ensures Get(members, key) == Some(json) <==> Member(key, json) in members
  {
    if Member(key, json) in members {
      var i :| 0 <= i < |members| && members[i] == Member(key, json);
      var found := Member(key, Get(members, key).value);
      var j :| 0 <= j < |members| && members[j] == found;
      KeysDiffer(members);
    }
  }

  lemma {:induction false} WithoutNone(members: seq<Member>, key: string)
    requires !Has(members, key)
    ensures Without(members, key) == members
  {
    if members != [] {
      assert members[0].key != key;
      assert forall i :: 0 <= i < |members| - 1 ==> members[1..][i] == members[i + 1];
      WithoutNone(members[1..], key);
    }
  }

  lemma {:induction false} WithoutAt(members: seq<Member>, key: string, i: nat)
    requires Ordered(members) && i < |members| && members[i].key == key
    ensures Without(members, key) == members[..i] + members[i + 1..]
  {
    assert forall j :: 0 <= j < |members| - 1 ==> members[1..][j] == members[j + 1];
    KeysDiffer(members);
    if i == 0 {
      WithoutNone(members[1..], key);
    } else {
      WithoutAt(members[1..], key, i - 1);
      assert members[1..][..i - 1] == members[1..i] && members[1..][i..] == members[i + 1..];
      assert members[..i] == [members[0]] + members[1..i];
    }
  }

  /** Removing a present key gives exactly the other members, and nothing else is such a rest. */
  lemma WithoutIsTheRest(members: seq<Member>, key: string, rest: seq<Member>)
    requires Ordered(members) && Has(members, key)
    ensures IsRest(members, key, rest) <==> rest == Without(members, key)
  {
    var i :| 0 <= i < |members| && members[i].key == key;
    WithoutAt(members, key, i);
    if IsRest(members, key, rest) {
      var j :| 0 <= j < |members| && members[j].key == key && rest == members[..j] + members[j + 1..];
      WithoutAt(members, key, j);
    }
  }

  /** Setting a present key changes the value of that key and nothing else. */
  lemma {:induction false} WithIsSameBut(members: seq<Member>, key: string, json: Json)
    requires Has(members, key)
    ensures SameBut(members, With(members, key, json), key)
    ensures Get(With(members, key, json), key) == Some(json)
  {
    GetWith(members, key, json, key);
    if members[0].key != key {
      assert Has(members[1..], key) by {
        var i :| 0 <= i < |members| && members[i].key == key;
        assert members[1..][i - 1].key == key;
      }
      WithIsSameBut(members[1..], key, json);
    }
  }

  // --- The codecs -------------------------------------------------------------------

  datatype Codec = Codec(
    parse: string -> Option<Json>,
    stringify: Json -> string,
    encode: string -> Bytes,
    decode: Bytes -> string,
    decodeFatal: Bytes -> Option<string>,
    toBase64: Bytes -> string,
    fromBase64: string -> Option<Bytes>)

  /** UTF-8 gives the text back. A text with a leading byte order mark does not come back. */
  predicate RoundTrips(c: Codec, text: string) {
    c.decodeFatal(c.encode(text)) == Some(text) && c.decode(c.encode(text)) == text
  }

  /** The printer and the parser are inverse on values. Other text can parse too. */
  ghost predicate ParserLaws(c: Codec) {
    && (forall json {:trigger c.stringify(json)} ::
          WellFormed(json) ==> c.parse(c.stringify(json)) == Some(json))
    && (forall text {:trigger c.parse(text)} :: c.parse(text).Some? ==> WellFormed(c.parse(text).value))
    && (forall text, inner {:trigger TextIn(c.parse(text).value, inner)} ::
          c.parse(text).Some? && TextIn(c.parse(text).value, inner) ==> |inner| < |text|)
  }

  ghost predicate Utf8Laws(c: Codec) {
    && (forall json: Json {:trigger c.stringify(json)} :: json.Obj? ==> RoundTrips(c, c.stringify(json)))
    && (forall bytes :: c.decodeFatal(bytes).Some? ==>
          c.decode(bytes) == c.decodeFatal(bytes).value && |c.decodeFatal(bytes).value| <= |bytes|)
  }

  ghost predicate Base64Laws(c: Codec) {
    && (forall bytes :: c.fromBase64(c.toBase64(bytes)) == Some(bytes))
    && (forall text :: c.fromBase64(text).Some? ==> |c.fromBase64(text).value| <= |text|)
    && (forall bytes, json: Json :: json.Obj? ==> c.toBase64(bytes) != c.stringify(json))
  }

  ghost predicate Lawful(c: Codec) {
    ParserLaws(c) && Utf8Laws(c) && Base64Laws(c)
  }
}
