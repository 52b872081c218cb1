/**
 * Codecs that satisfy the laws of JsonText, so the laws do not contradict each
 * other: a tagged printer, unary text bytes, and a text of bits for bytes.
 */
module JsonCodecExample {
  import opened Options
  import opened JsonText
  import Decimal

  // --- The printer -----------------------------------------------------------------

  /** Each character after a mark, and an end. */
  function PrintText(text: string): string {
    if text == "" then "e" else ['c', text[0]] + PrintText(text[1..])
  }

  /** More than the places of an array or an object. */
  function Width(json: Json): nat {
    match json
    case Arr(items) => |items| + 1
    case Obj(members) => |members| + 1
    case _ => 0
  }

  function PrintJson(json: Json): string
    decreases json, Width(json)
  {
    match json
    case Null => "n"
    case Bool(b) => if b then "t" else "f"
    case Num(n) => "i" + PrintText(Decimal.PrintInt(n))
    case Str(text) => "s" + PrintText(text)
    case Arr(items) => "[" + PrintItems(json, 0)
    case Obj(members) => "{" + PrintMembers(json, 0)
  }

  /** The items of an array from one place on. */
  function PrintItems(json: Json, from: nat): string
    requires json.Arr? && from <= |json.items|
    decreases json, |json.items| - from
  {
    if from == |json.items| then "e" else "c" + (PrintJson(json.items[from]) + PrintItems(json, from + 1))
  }

  function PrintMembers(json: Json, from: nat): string
    requires json.Obj? && from <= |json.members|
    decreases json, |json.members| - from
  {
    if from == |json.members| then "e"
    else "c" + (PrintText(json.members[from].key) + (PrintJson(json.members[from].json) + PrintMembers(json, from + 1)))
  }

  // --- No printed value is the start of another ----------------------------------------

  /** Equal texts with equal first parts have equal rests. */
  lemma SameRest(first: string, one: string, other: string)
    requires first + one == first + other
    ensures one == other
  {
    assert (first + one)[|first|..] == one && (first + other)[|first|..] == other;
  }

  lemma Associative(a: string, b: string, c: string)
    ensures (a + b) + c == a + (b + c)
  {
  }

  lemma {:induction false} TextIsPrefixFree(a: string, b: string, r: string, s: string)
    requires PrintText(a) + r == PrintText(b) + s
    ensures a == b && r == s
  {
    assert (PrintText(a) + r)[0] == PrintText(a)[0] && (PrintText(b) + s)[0] == PrintText(b)[0];
    if a == "" {
      SameRest("e", r, s);
    } else {
      assert (PrintText(a) + r)[1] == a[0] && (PrintText(b) + s)[1] == b[0];
      Associative(['c', a[0]], PrintText(a[1..]), r);
      Associative(['c', b[0]], PrintText(b[1..]), s);
      SameRest(['c', a[0]], PrintText(a[1..]) + r, PrintText(b[1..]) + s);
      TextIsPrefixFree(a[1..], b[1..], r, s);
      assert a == [a[0]] + a[1..] && b == [b[0]] + b[1..];
    }
  }

  lemma {:induction false} JsonIsPrefixFree(a: Json, b: Json, r: string, s: string)
    requires PrintJson(a) + r == PrintJson(b) + s
    ensures a == b && r == s
    decreases a, Width(a)
  {
    assert (PrintJson(a) + r)[0] == PrintJson(a)[0] && (PrintJson(b) + s)[0] == PrintJson(b)[0];
    var tag, restA, restB := [PrintJson(a)[0]], PrintJson(a)[1..], PrintJson(b)[1..];
    assert PrintJson(a) == tag + restA && PrintJson(b) == tag + restB;
    Associative(tag, restA, r);
    Associative(tag, restB, s);
    SameRest(tag, restA + r, restB + s);
    match a
    case Num(n) =>
      TextIsPrefixFree(Decimal.PrintInt(n), Decimal.PrintInt(b.number), r, s);
      Decimal.PrintIntInjective(n, b.number);
    case Str(text) => TextIsPrefixFree(text, b.text, r, s);
    case Arr(items) => ItemsArePrefixFree(a, b, 0, r, s);
    case Obj(members) => MembersArePrefixFree(a, b, 0, r, s);
    case _ =>
      assert restA == "" && restB == "";
      assert restA + r == r && restB + s == s;
  }

  lemma {:induction false} ItemsArePrefixFree(a: Json, b: Json, from: nat, r: string, s: string)
    requires a.Arr? && b.Arr? && from <= |a.items| && from <= |b.items| && a.items[..from] == b.items[..from]
    requires PrintItems(a, from) + r == PrintItems(b, from) + s
    ensures a == b && r == s
    decreases a, |a.items| - from
  {
    assert (PrintItems(a, from) + r)[0] == PrintItems(a, from)[0];
    assert (PrintItems(b, from) + s)[0] == PrintItems(b, from)[0];
    if from == |a.items| {
      SameRest("e", r, s);
    } else {
      var one, other := PrintJson(a.items[from]), PrintJson(b.items[from]);
      var restA, restB := PrintItems(a, from + 1), PrintItems(b, from + 1);
      Associative("c", one + restA, r);
      Associative("c", other + restB, s);
      SameRest("c", (one + restA) + r, (other + restB) + s);
      Associative(one, restA, r);
      Associative(other, restB, s);
      JsonIsPrefixFree(a.items[from], b.items[from], restA + r, restB + s);
      ItemsArePrefixFree(a, b, from + 1, r, s);
    }
  }

  lemma {:induction false} MembersArePrefixFree(a: Json, b: Json, from: nat, r: string, s: string)
    requires a.Obj? && b.Obj? && from <= |a.members| && from <= |b.members|
    requires a.members[..from] == b.members[..from]
    requires PrintMembers(a, from) + r == PrintMembers(b, from) + s
    ensures a == b && r == s
    decreases a, |a.members| - from
  {
    assert (PrintMembers(a, from) + r)[0] == PrintMembers(a, from)[0];
    assert (PrintMembers(b, from) + s)[0] == PrintMembers(b, from)[0];
    if from == |a.members| {
      SameRest("e", r, s);
    } else {
      var keyA, keyB := PrintText(a.members[from].key), PrintText(b.members[from].key);
      var one, other := PrintJson(a.members[from].json), PrintJson(b.members[from].json);
      var restA, restB := PrintMembers(a, from + 1), PrintMembers(b, from + 1);
      Associative("c", keyA + (one + restA), r);
      Associative("c", keyB + (other + restB), s);
      SameRest("c", (keyA + (one + restA)) + r, (keyB + (other + restB)) + s);
      Associative(keyA, one + restA, r);
      Associative(keyB, other + restB, s);
      TextIsPrefixFree(a.members[from].key, b.members[from].key, (one + restA) + r, (other + restB) + s);
      Associative(one, restA, r);
      Associative(other, restB, s);
      JsonIsPrefixFree(a.members[from].json, b.members[from].json, restA + r, restB + s);
      MembersArePrefixFree(a, b, from + 1, r, s);
    }
  }

  lemma PrintIsInjective(a: Json, b: Json)
    requires PrintJson(a) == PrintJson(b)
    ensures a == b
  {
    assert PrintJson(a) + "" == PrintJson(a) && PrintJson(b) + "" == PrintJson(b);
    JsonIsPrefixFree(a, b, "", "");
  }

  // --- A text inside a value is shorter than the printed value -----------------------------

  lemma {:induction false} TextIsLonger(text: string)
    ensures |PrintText(text)| > |text|
  {
    if text != "" {
      TextIsLonger(text[1..]);
    }
  }

  lemma {:induction false} InnerIsShorter(json: Json, inner: string)
    requires TextIn(json, inner)
    ensures |inner| < |PrintJson(json)|
    decreases json, 0
  {
    match json
    case Str(text) => TextIsLonger(text);
    case Arr(items) =>
      var i :| 0 <= i < |items| && TextIn(items[i], inner);
      InnerIsShorter(items[i], inner);
      ItemIsShorter(json, 0, i);
    case Obj(members) =>
      var i :| 0 <= i < |members| && TextIn(members[i].json, inner);
      InnerIsShorter(members[i].json, inner);
      MemberIsShorter(json, 0, i);
  }

  lemma {:induction false} ItemIsShorter(json: Json, from: nat, i: nat)
    requires json.Arr? && from <= i < |json.items|
    ensures |PrintJson(json.items[i])| < |PrintItems(json, from)|
    decreases i - from
  {
    if from < i {
      ItemIsShorter(json, from + 1, i);
    }
  }

  lemma {:induction false} MemberIsShorter(json: Json, from: nat, i: nat)
    requires json.Obj? && from <= i < |json.members|
    ensures |PrintJson(json.members[i].json)| < |PrintMembers(json, from)|
    decreases i - from
  {
    if from < i {
      MemberIsShorter(json, from + 1, i);
    }
  }

  // --- Bytes of a text -----------------------------------------------------------------------

  /** A number as that many ones and a zero. */
  function Unary(n: nat): Bytes {
    if n == 0 then [0] else [1] + Unary(n - 1)
  }

  function Encode(text: string): Bytes {
    if text == "" then [] else Unary(text[0] as int) + Encode(text[1..])
  }

  lemma {:induction false} UnaryIsPrefixFree(m: nat, n: nat, r: Bytes, s: Bytes)
    requires Unary(m) + r == Unary(n) + s
    ensures m == n && r == s
  {
    assert (Unary(m) + r)[0] == Unary(m)[0] && (Unary(n) + s)[0] == Unary(n)[0];
    if m == 0 {
      assert ([0 as bv8] + r)[1..] == r && ([0 as bv8] + s)[1..] == s;
    } else {
      assert (Unary(m) + r)[1..] == Unary(m - 1) + r && (Unary(n) + s)[1..] == Unary(n - 1) + s;
      UnaryIsPrefixFree(m - 1, n - 1, r, s);
    }
  }

  lemma {:induction false} EncodeIsInjective(one: string, other: string)
    requires Encode(one) == Encode(other)
    ensures one == other && |one| <= |Encode(one)|
  {
    if one != "" && other != "" {
      UnaryIsPrefixFree(one[0] as int, other[0] as int, Encode(one[1..]), Encode(other[1..]));
      EncodeIsInjective(one[1..], other[1..]);
      assert one == [one[0]] + one[1..] && other == [other[0]] + other[1..];
    } else {
      assert forall n: nat :: |Unary(n)| > 0;
    }
  }

  // --- A text of bytes ---------------------------------------------------------------------------

  function Bit(b: bv8): char {
    if b == 0 then '0' else '1'
  }

  function ByteText(b: bv8): string {
    [Bit(b & 1), Bit(b & 2), Bit(b & 4), Bit(b & 8), Bit(b & 16), Bit(b & 32), Bit(b & 64), Bit(b & 128)]
  }

  function BytesText(bytes: Bytes): string {
    if bytes == [] then "" else ByteText(bytes[0]) + BytesText(bytes[1..])
  }

  lemma BitsMakeTheByte(one: bv8, other: bv8)
    requires Bit(one & 1) == Bit(other & 1) && Bit(one & 2) == Bit(other & 2)
    requires Bit(one & 4) == Bit(other & 4) && Bit(one & 8) == Bit(other & 8)
    requires Bit(one & 16) == Bit(other & 16) && Bit(one & 32) == Bit(other & 32)
    requires Bit(one & 64) == Bit(other & 64) && Bit(one & 128) == Bit(other & 128)
    ensures one == other
  {
  }

  lemma ByteTextIsInjective(one: bv8, other: bv8)
    requires ByteText(one) == ByteText(other)
    ensures one == other
  {
    var a, b := ByteText(one), ByteText(other);
    assert a[0] == b[0] && a[1] == b[1] && a[2] == b[2] && a[3] == b[3];
    assert a[4] == b[4] && a[5] == b[5] && a[6] == b[6] && a[7] == b[7];
    BitsMakeTheByte(one, other);
  }

  lemma {:induction false} BytesTextIsInjective(one: Bytes, other: Bytes)
    requires BytesText(one) == BytesText(other)
    ensures one == other && |one| <= |BytesText(one)|
  {
    if one != [] && other != [] {
      var a, b := BytesText(one), BytesText(other);
      assert a[..8] == ByteText(one[0]) && b[..8] == ByteText(other[0]);
      assert a[8..] == BytesText(one[1..]) && b[8..] == BytesText(other[1..]);
      ByteTextIsInjective(one[0], other[0]);
      BytesTextIsInjective(one[1..], other[1..]);
      assert one == [one[0]] + one[1..] && other == [other[0]] + other[1..];
    }
  }

  // --- The codecs --------------------------------------------------------------------------------------

  ghost predicate Prints(json: Json, text: string) {
    WellFormed(json) && PrintJson(json) == text
  }

  ghost function Parse(text: string): Option<Json> {
    if exists json :: Prints(json, text) then
      var json :| Prints(json, text);
      Some(json)
    else None
  }

  ghost function DecodeFatal(bytes: Bytes): Option<string> {
    if exists text :: Encode(text) == bytes then
      var text :| Encode(text) == bytes;
      Some(text)
    else None
  }

  function ToBase64(bytes: Bytes): string {
    "b" + BytesText(bytes)
  }

  ghost function FromBase64(text: string): Option<Bytes> {
    if exists bytes :: ToBase64(bytes) == text then
      var bytes :| ToBase64(bytes) == text;
      Some(bytes)
    else None
  }

  ghost function ExampleCodec(): Codec {
    Codec(text => Parse(text), json => PrintJson(json), text => Encode(text),
          bytes => DecodeFatal(bytes).GetOr(""), bytes => DecodeFatal(bytes),
          bytes => ToBase64(bytes), text => FromBase64(text))
  }

  lemma ExampleParses()
    ensures ParserLaws(ExampleCodec())
  {
    forall json | WellFormed(json) ensures Parse(PrintJson(json)) == Some(json) {
      assert Prints(json, PrintJson(json));
      PrintIsInjective(json, Parse(PrintJson(json)).value);
    }
    forall text, inner | Parse(text).Some? && TextIn(Parse(text).value, inner) ensures |inner| < |text| {
      InnerIsShorter(Parse(text).value, inner);
    }
  }

  lemma ExampleDecodes()
    ensures Utf8Laws(ExampleCodec())
  {
    forall text ensures DecodeFatal(Encode(text)) == Some(text) {
      EncodeIsInjective(text, DecodeFatal(Encode(text)).value);
    }
    forall bytes | DecodeFatal(bytes).Some? ensures |DecodeFatal(bytes).value| <= |bytes| {
      EncodeIsInjective(DecodeFatal(bytes).value, DecodeFatal(bytes).value);
    }
  }

  lemma ToBase64IsInjective(one: Bytes, other: Bytes)
    requires ToBase64(one) == ToBase64(other)
    ensures one == other && |one| <= |ToBase64(one)|
  {
    assert ToBase64(one)[1..] == BytesText(one) && ToBase64(other)[1..] == BytesText(other);
    BytesTextIsInjective(one, other);
  }

  lemma ExampleHasBase64()
    ensures Base64Laws(ExampleCodec())
  {
    forall bytes ensures FromBase64(ToBase64(bytes)) == Some(bytes) {
      ToBase64IsInjective(bytes, FromBase64(ToBase64(bytes)).value);
    }
    forall text | FromBase64(text).Some? ensures |FromBase64(text).value| <= |text| {
      ToBase64IsInjective(FromBase64(text).value, FromBase64(text).value);
    }
    forall bytes, json: Json | json.Obj? ensures ToBase64(bytes) != PrintJson(json) {
      assert ToBase64(bytes)[0] == 'b' && PrintJson(json)[0] == '{';
    }
  }

  /** There are codecs that satisfy every law that the content adapter relies on. */
  lemma LawfulCodecsExist()
    ensures Lawful(ExampleCodec())
  {
    ExampleParses();
    ExampleDecodes();
    ExampleHasBase64();
  }
}
