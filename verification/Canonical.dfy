// Canonical JSON: the serializer, a parser that undoes it, and what follows.
module Canonical {
  import opened Basics
  import opened Ordering
  import opened Sorting
  import opened Utf8

  // A supported structure. A dict is its items in insertion order.
  datatype Structure =
    | Null
    | Bool(b: bool)
    | Int(n: int)
    | Str(s: string)
    | List(items: seq<Structure>)
    | Dict(fields: seq<Field>)

  datatype Field = Field(key: string, value: Structure)

  // What a structure means: a dict is a finite map.
  datatype Value =
    | JNull
    | JBool(b: bool)
    | JInt(n: int)
    | JStr(s: string)
    | JList(items: seq<Value>)
    | JObject(fields: map<string, Value>)

  function Keys(fields: seq<Field>): set<string> {
    set f | f in fields :: f.key
  }

  // A dict holds each key once.
  ghost predicate Valid(v: Structure)
    decreases v
  {
    match v
    case List(items) => forall i | 0 <= i < |items| :: Valid(items[i])
    case Dict(fields) =>
      (forall i, j | 0 <= i < j < |fields| :: fields[i].key != fields[j].key)
      && forall i | 0 <= i < |fields| :: Valid(fields[i].value)
    case _ => true
  }

  function Index(fields: seq<Field>, key: string): (i: nat)
    requires key in Keys(fields)
    ensures i < |fields| && fields[i].key == key
  {
    if fields[0].key == key then 0 else
      assert key in Keys(fields[1..]);
      1 + Index(fields[1..], key)
  }

  function Denote(v: Structure): Value
    decreases v
  {
    match v
    case Null => JNull
    case Bool(b) => JBool(b)
    case Int(n) => JInt(n)
    case Str(s) => JStr(s)
    case List(items) => JList(seq(|items|, i requires 0 <= i < |items| => Denote(items[i])))
    case Dict(fields) => JObject(map k | k in Keys(fields) :: Denote(fields[Index(fields, k)].value))
  }

  // ---- Strings ----

  function HexDigit(n: nat): char
    requires n < 16
  {
    "0123456789abcdef"[n]
  }

  function EscapeChar(c: char): string {
    if c == '"' then "\\\""
    else if c == '\\' then "\\\\"
    else if c == '\U{8}' then "\\b"
    else if c == '\U{c}' then "\\f"
    else if c == '\n' then "\\n"
    else if c == '\r' then "\\r"
    else if c == '\t' then "\\t"
    else if c as int < 0x20 then "\\u00" + [HexDigit(c as int / 16), HexDigit(c as int % 16)]
    else [c]
  }

  function Escaped(s: string): string {
    if s == "" then "" else EscapeChar(s[0]) + Escaped(s[1..])
  }

  function Quoted(s: string): string {
    "\"" + Escaped(s) + "\""
  }

  lemma {:induction false} EscapedSnoc(s: string, c: char)
    ensures Escaped(s + [c]) == Escaped(s) + EscapeChar(c)
  {
    if s != "" {
      assert (s + [c])[1..] == s[1..] + [c];
      EscapedSnoc(s[1..], c);
    }
  }

  lemma EscapedStep(s: string, i: nat)
    requires i < |s|
    ensures Escaped(s[..i + 1]) == Escaped(s[..i]) + EscapeChar(s[i])
  {
    assert s[..i + 1] == s[..i] + [s[i]];
    EscapedSnoc(s[..i], s[i]);
  }

  method QuoteString(value: string) returns (r: string)
    ensures r == Quoted(value)
  {
    var body := "";
    for i := 0 to |value|
      invariant body == Escaped(value[..i])
    {
      EscapedStep(value, i);
      var spelled := SpellChar(value[i]);
      body := body + spelled;
    }
    assert value[..|value|] == value;
    r := "\"" + body + "\"";
  }

  // A short escape where JSON has one, \u00xx for the other control characters, and else itself.
  method SpellChar(c: char) returns (r: string)
    ensures r == EscapeChar(c)
  {
    var n := c as int;
    match c {
      case '"' => r := "\\\"";
      case '\\' => r := "\\\\";
      case '\n' => r := "\\n";
      case '\r' => r := "\\r";
      case '\t' => r := "\\t";
      case _ =>
        if n == 8 || n == 12 {
          r := ['\\', if n == 8 then 'b' else 'f'];
        } else if n < 0x20 {
          r := "\\u00" + ["0123456789abcdef"[n / 16], "0123456789abcdef"[n % 16]];
        } else {
          r := [c];
        }
    }
  }

  // ---- The serializer ----

  function Digits(n: nat): (r: string)
    ensures r != ""
  {
    if n < 10 then [HexDigit(n)] else Digits(n / 10) + [HexDigit(n % 10)]
  }

  function Json(v: Structure): string
    decreases v, 1, 0
  {
    match v
    case Null => "null"
    case Bool(b) => if b then "true" else "false"
    case Int(n) => if n < 0 then "-" + Digits(-n) else Digits(n)
    case Str(s) => Quoted(s)
    case List(items) => "[" + JsonItems(v, 0) + "]"
    case Dict(fields) => "{" + JsonFields(v, Sorted(Keys(fields))) + "}"
  }

  // From the i-th item on, comma-separated.
  function JsonItems(v: Structure, i: nat): string
    requires v.List? && i <= |v.items|
    decreases v, 0, |v.items| - i
  {
    if i == |v.items| then ""
    else Json(v.items[i]) + (if i + 1 == |v.items| then "" else "," + JsonItems(v, i + 1))
  }

  // One field of an object, and the text behind it.
  function FieldText(key: string, text: string, end: string): string {
    Quoted(key) + (":" + (text + end))
  }

  function JsonFields(v: Structure, keys: seq<string>): string
    requires v.Dict? && Elements(keys) <= Keys(v.fields)
    decreases v, 0, |keys|
  {
    if keys == [] then ""
    else
      assert keys[0] in Elements(keys) && Elements(keys[1..]) <= Elements(keys);
      FieldText(keys[0], Json(v.fields[Index(v.fields, keys[0])].value),
                if |keys| == 1 then "" else "," + JsonFields(v, keys[1..]))
  }

  // ---- The parser ----

  function HexValue(c: char): (r: Option<nat>)
    ensures r.Some? ==> r.value < 16
  {
    if '0' <= c <= '9' then Some(c as int - '0' as int)
    else if 'a' <= c <= 'f' then Some(c as int - 'a' as int + 10)
    else if 'A' <= c <= 'F' then Some(c as int - 'A' as int + 10)
    else None
  }

  function UnescapeSimple(c: char): Option<char> {
    if c == '"' || c == '\\' || c == '/' then Some(c)
    else if c == 'b' then Some('\U{8}')
    else if c == 'f' then Some('\U{c}')
    else if c == 'n' then Some('\n')
    else if c == 'r' then Some('\r')
    else if c == 't' then Some('\t')
    else None
  }

  function FourHex(s: string): Option<char>
    requires |s| >= 4
  {
    var a, b, c, d := HexValue(s[0]), HexValue(s[1]), HexValue(s[2]), HexValue(s[3]);
    if a.None? || b.None? || c.None? || d.None? then None
    else
      var n := ((a.value * 16 + b.value) * 16 + c.value) * 16 + d.value;
      if n < 0xD800 then Some(n as char) else if 0xE000 <= n < 0x10000 then Some(n as char) else None
  }

  // The first character of a string body and how much text spelled it.
  function ParseChar(s: string): (r: Option<(char, nat)>)
    ensures r.Some? ==> 1 <= r.value.1 <= |s|
  {
    if s == "" || s[0] == '"' || s[0] as int < 0x20 then None
    else if s[0] != '\\' then Some((s[0], 1))
    else if |s| >= 6 && s[1] == 'u' then
      var c := FourHex(s[2..]);
      if c.None? then None else Some((c.value, 6))
    else if |s| >= 2 && UnescapeSimple(s[1]).Some? then Some((UnescapeSimple(s[1]).value, 2))
    else None
  }

  // From behind the opening quote to behind the closing one.
  function ParseBody(s: string): (r: Option<(string, string)>)
    ensures r.Some? ==> |r.value.1| < |s|
  {
    if s == "" then None
    else if s[0] == '"' then Some(("", s[1..]))
    else
      var c := ParseChar(s);
      if c.None? then None
      else
        var tail := ParseBody(s[c.value.1..]);
        if tail.None? then None else Some(([c.value.0] + tail.value.0, tail.value.1))
  }

  function IsDigit(c: char): bool { '0' <= c <= '9' }

  function ParseDigits(s: string, value: nat): (r: (nat, string))
    ensures |r.1| <= |s|
  {
    if s == "" || !IsDigit(s[0]) then (value, s)
    else ParseDigits(s[1..], value * 10 + (s[0] as int - '0' as int))
  }

  function ParseInt(s: string): (r: Option<(Value, string)>)
    ensures r.Some? ==> |r.value.1| < |s|
  {
    var negative := s != "" && s[0] == '-';
    var digits := if negative then s[1..] else s;
    if digits == "" || !IsDigit(digits[0]) then None
    else
      var (n, tail) := ParseDigits(digits[1..], digits[0] as int - '0' as int);
      Some((JInt(if negative then 0 - n else n), tail))
  }

  function ParseAtom(s: string): (r: Option<(Value, string)>)
    ensures r.Some? ==> |r.value.1| < |s|
  {
    if "null" <= s then Some((JNull, s[4..]))
    else if "true" <= s then Some((JBool(true), s[4..]))
    else if "false" <= s then Some((JBool(false), s[5..]))
    else ParseInt(s)
  }

  function ParseText(s: string): (r: Option<(Value, string)>)
    requires s != ""
    ensures r.Some? ==> |r.value.1| < |s|
  {
    var body := ParseBody(s[1..]);
    if body.None? then None else Some((JStr(body.value.0), body.value.1))
  }

  function ParseValue(s: string): (r: Option<(Value, string)>)
    ensures r.Some? ==> |r.value.1| < |s|
    decreases |s|, 1
  {
    if s == "" then None
    else if s[0] == '"' then ParseText(s)
    else if s[0] == '[' then ParseList(s)
    else if s[0] == '{' then ParseObject(s)
    else ParseAtom(s)
  }

  function ParseList(s: string): (r: Option<(Value, string)>)
    requires s != ""
    ensures r.Some? ==> |r.value.1| < |s|
    decreases |s|, 0
  {
    if |s| > 1 && s[1] == ']' then Some((JList([]), s[2..]))
    else
      var items := ParseItems(s[1..]);
      if items.None? then None else Some((JList(items.value.0), items.value.1))
  }

  function ParseObject(s: string): (r: Option<(Value, string)>)
    requires s != ""
    ensures r.Some? ==> |r.value.1| < |s|
    decreases |s|, 0
  {
    if |s| > 1 && s[1] == '}' then Some((JObject(map[]), s[2..]))
    else
      var fields := ParseFields(s[1..]);
      if fields.None? then None else Some((JObject(fields.value.0), fields.value.1))
  }

  // One or more items, to behind the closing bracket.
  function ParseItems(s: string): (r: Option<(seq<Value>, string)>)
    ensures r.Some? ==> |r.value.1| < |s|
    decreases |s|, 2
  {
    var first := ParseValue(s);
    if first.None? || first.value.1 == "" then None
    else
      var tail := first.value.1;
      if tail[0] == ']' then Some(([first.value.0], tail[1..]))
      else if tail[0] == ',' then
        var others := ParseItems(tail[1..]);
        if others.None? then None else Some(([first.value.0] + others.value.0, others.value.1))
      else None
  }

  // One or more fields, to behind the closing brace; a repeated key keeps its last value.
  function ParseFields(s: string): (r: Option<(map<string, Value>, string)>)
    ensures r.Some? ==> |r.value.1| < |s|
    decreases |s|, 2
  {
    if s == "" || s[0] != '"' then None
    else
      var key := ParseBody(s[1..]);
      if key.None? || key.value.1 == "" || key.value.1[0] != ':' then None
      else
        var first := ParseValue(key.value.1[1..]);
        if first.None? || first.value.1 == "" then None
        else
          var tail, here := first.value.1, map[key.value.0 := first.value.0];
          if tail[0] == '}' then Some((here, tail[1..]))
          else if tail[0] == ',' then
            var others := ParseFields(tail[1..]);
            if others.None? then None else Some((here + others.value.0, others.value.1))
          else None
  }

  // ---- Strings come back, and are legal JSON ----

  lemma CharReturns(c: char, tail: string)
    ensures |EscapeChar(c)| >= 1 && EscapeChar(c)[0] != '"'
    ensures ParseChar(EscapeChar(c) + tail) == Some((c, |EscapeChar(c)|))
  {
    var s := EscapeChar(c) + tail;
    if |EscapeChar(c)| == 6 {
      var n := c as int;
      assert s[2..][..4] == "00" + [HexDigit(n / 16), HexDigit(n % 16)];
      assert s[2] == '0' && s[3] == '0' && s[4] == HexDigit(n / 16) && s[5] == HexDigit(n % 16);
      HexReturns(n / 16);
      HexReturns(n % 16);
      assert n / 16 * 16 + n % 16 == n;
      assert n as char == c;
    }
  }

  lemma HexReturns(n: nat)
    requires n < 16
    ensures HexValue(HexDigit(n)) == Some(n)
  {
  }

  lemma {:induction false} BodyReturns(s: string, tail: string)
    ensures ParseBody(Escaped(s) + "\"" + tail) == Some((s, tail))
  {
    var text := Escaped(s) + "\"" + tail;
    if s == "" {
      assert text == "\"" + tail;
    } else {
      var more := Escaped(s[1..]) + "\"" + tail;
      assert text == EscapeChar(s[0]) + more;
      CharReturns(s[0], more);
      BodyReturns(s[1..], tail);
      assert text[|EscapeChar(s[0])|..] == more;
      assert [s[0]] + s[1..] == s;
    }
  }

  predicate IsHex(c: char) { '0' <= c <= '9' || 'a' <= c <= 'f' || 'A' <= c <= 'F' }

  // One `char` of section 7 of RFC 8259.
  predicate LegalChar(u: string) {
    || (|u| == 1 && u[0] as int >= 0x20 && u[0] != '"' && u[0] != '\\')
    || (|u| == 2 && u[0] == '\\' && u[1] in "\"\\/bfnrt")
    || (|u| == 6 && u[0] == '\\' && u[1] == 'u' && forall i | 2 <= i < 6 :: IsHex(u[i]))
  }

  // A sequence of them.
  ghost predicate LegalBody(s: string)
    decreases |s|
  {
    s == "" || exists k | 1 <= k <= |s| :: LegalChar(s[..k]) && LegalBody(s[k..])
  }

  /** Every written string is a legal JSON string. */
  lemma {:induction false} EscapedIsLegal(s: string)
    ensures LegalBody(Escaped(s))
  {
    if s != "" {
      var k := |EscapeChar(s[0])|;
      EscapedIsLegal(s[1..]);
      assert Escaped(s)[..k] == EscapeChar(s[0]) && Escaped(s)[k..] == Escaped(s[1..]);
      CharLegal(s[0]);
    }
  }

  lemma CharLegal(c: char)
    ensures LegalChar(EscapeChar(c))
  {
    if |EscapeChar(c)| == 6 {
      var n := c as int;
      assert EscapeChar(c) == ['\\', 'u', '0', '0', HexDigit(n / 16), HexDigit(n % 16)];
      HexReturns(n / 16);
      HexReturns(n % 16);
    }
  }

  /** Of all legal spellings of a character the one written is the shortest, and
      the only one of its length unless it is a \u escape. */
  lemma ShortestSpelling(c: char, u: string)
    requires LegalChar(u) && ParseChar(u) == Some((c, |u|))
    ensures |EscapeChar(c)| <= |u| && (|EscapeChar(c)| == |u| < 6 ==> EscapeChar(c) == u)
    ensures |EscapeChar(c)| == 6 ==> forall i | 0 <= i < 6 :: !('A' <= EscapeChar(c)[i] <= 'F')
  {
    if |u| == 1 { assert u == [u[0]]; }
    if |u| == 2 { assert u == [u[0], u[1]]; }
  }

  // ---- The layout of lists and dicts ----

  // The parts with a comma between each two.
  ghost function Joined(parts: seq<string>): string {
    if parts == [] then "" else if |parts| == 1 then parts[0] else parts[0] + ("," + Joined(parts[1..]))
  }

  lemma {:induction false} ItemsAreJoined(v: Structure, i: nat)
    requires v.List? && i <= |v.items|
    ensures JsonItems(v, i) == Joined(seq(|v.items| - i, j requires 0 <= j < |v.items| - i => Json(v.items[i + j])))
    decreases |v.items| - i
  {
    if i < |v.items| {
      var parts := seq(|v.items| - i, j requires 0 <= j < |v.items| - i => Json(v.items[i + j]));
      ItemsAreJoined(v, i + 1);
      LaterItems(v.items, i);
      assert parts[0] == Json(v.items[i]);
    }
  }

  lemma LaterItems(items: seq<Structure>, i: nat)
    requires i < |items|
    ensures seq(|items| - i, j requires 0 <= j < |items| - i => Json(items[i + j]))[1..]
            == seq(|items| - (i + 1), j requires 0 <= j < |items| - (i + 1) => Json(items[i + 1 + j]))
  {
  }

  lemma ListLayout(items: seq<Structure>)
    ensures Json(List(items)) == "[" + Joined(seq(|items|, j requires 0 <= j < |items| => Json(items[j]))) + "]"
  {
    ItemsAreJoined(List(items), 0);
    assert seq(|items| - 0, j requires 0 <= j < |items| - 0 => Json(items[0 + j]))
        == seq(|items|, j requires 0 <= j < |items| => Json(items[j]));
  }

  // The text of one field.
  ghost predicate FieldOf(fields: seq<Field>, key: string, text: string) {
    exists f :: f in fields && f.key == key && text == Quoted(key) + ":" + Json(f.value)
  }

  lemma {:induction false} FieldsAreJoined(v: Structure, keys: seq<string>) returns (parts: seq<string>)
    requires v.Dict? && Elements(keys) <= Keys(v.fields)
    ensures |parts| == |keys| && JsonFields(v, keys) == Joined(parts)
    ensures forall i | 0 <= i < |keys| :: FieldOf(v.fields, keys[i], parts[i])
  {
    parts := [];
    if keys != [] {
      assert keys[0] in Elements(keys) && Elements(keys[1..]) <= Elements(keys);
      var f := v.fields[Index(v.fields, keys[0])];
      var rest := FieldsAreJoined(v, keys[1..]);
      var first := Quoted(keys[0]) + ":" + Json(f.value);
      assert f in v.fields && FieldOf(v.fields, keys[0], first);
      parts := [first] + rest;
      assert parts[1..] == rest;
      FieldJoined(keys[0], Json(f.value), if |keys| == 1 then "" else "," + JsonFields(v, keys[1..]));
      forall i | 0 <= i < |keys| ensures FieldOf(v.fields, keys[i], parts[i]) {
        if i > 0 { assert keys[i] == keys[1..][i - 1] && parts[i] == rest[i - 1]; }
      }
    }
  }

  lemma FieldJoined(key: string, text: string, end: string)
    ensures FieldText(key, text, end) == Quoted(key) + ":" + text + end
  {
  }

  /** A dict is its fields, each once, in the order of the UTF-8 bytes of the keys. */
  lemma DictLayout(fields: seq<Field>) returns (keys: seq<string>, parts: seq<string>)
    ensures |parts| == |keys| && Json(Dict(fields)) == "{" + Joined(parts) + "}"
    ensures forall i, j | 0 <= i < j < |keys| :: BytesBefore(Encoded(keys[i]), Encoded(keys[j]))
    ensures forall k :: k in keys <==> exists f :: f in fields && f.key == k
    ensures forall i | 0 <= i < |keys| :: FieldOf(fields, keys[i], parts[i])
  {
    keys := Sorted(Keys(fields));
    parts := FieldsAreJoined(Dict(fields), keys);
    forall i, j | 0 <= i < j < |keys| ensures BytesBefore(Encoded(keys[i]), Encoded(keys[j])) {
      AscendingFrom(keys, i, j);
      BeforeIsByteOrder(keys[i], keys[j]);
    }
    forall k ensures k in keys <==> exists f :: f in fields && f.key == k {
      assert k in keys <==> k in Elements(keys);
    }
  }

  // ---- Integers come back ----

  predicate AllDigits(s: string) {
    forall i | 0 <= i < |s| :: IsDigit(s[i])
  }

  predicate Stops(tail: string) {
    tail == "" || !IsDigit(tail[0])
  }

  function Number(s: string, value: nat): nat
    requires AllDigits(s)
  {
    if s == "" then value else Number(s[1..], value * 10 + (s[0] as int - '0' as int))
  }

  lemma {:induction false} NumberSnoc(s: string, c: char, value: nat)
    requires AllDigits(s) && IsDigit(c)
    ensures AllDigits(s + [c]) && Number(s + [c], value) == Number(s, value) * 10 + (c as int - '0' as int)
  {
    assert forall i | 0 <= i < |s + [c]| :: IsDigit((s + [c])[i]);
    if s != "" {
      assert (s + [c])[1..] == s[1..] + [c];
      NumberSnoc(s[1..], c, value * 10 + (s[0] as int - '0' as int));
    }
  }

  lemma {:induction false} DigitsAreNumber(n: nat)
    ensures AllDigits(Digits(n)) && Number(Digits(n), 0) == n
  {
    if n >= 10 {
      DigitsAreNumber(n / 10);
      NumberSnoc(Digits(n / 10), HexDigit(n % 10), 0);
    } else {
      assert Number(Digits(n)[1..], n) == n;
    }
  }

  lemma {:induction false} DigitsReturn(s: string, tail: string, value: nat)
    requires AllDigits(s) && Stops(tail)
    ensures ParseDigits(s + tail, value) == (Number(s, value), tail)
  {
    if s == "" {
      assert s + tail == tail;
    } else {
      assert (s + tail)[1..] == s[1..] + tail;
      DigitsReturn(s[1..], tail, value * 10 + (s[0] as int - '0' as int));
    }
  }

  lemma UnsignedReturns(digits: string, tail: string)
    requires AllDigits(digits) && digits != "" && Stops(tail)
    ensures ParseInt(digits + tail) == Some((JInt(Number(digits, 0)), tail))
    ensures ParseInt("-" + (digits + tail)) == Some((JInt(0 - Number(digits, 0)), tail))
  {
    var s := digits + tail;
    assert s[0] == digits[0] && IsDigit(s[0]) && s[1..] == digits[1..] + tail;
    DigitsReturn(digits[1..], tail, digits[0] as int - '0' as int);
    assert ("-" + s)[1..] == s;
  }

  lemma IntReturns(n: int, tail: string)
    requires Stops(tail)
    ensures ParseInt(Json(Int(n)) + tail) == Some((JInt(n), tail))
    ensures IsDigit(Json(Int(n))[0]) || Json(Int(n))[0] == '-'
  {
    var m: nat := if n < 0 then -n else n;
    DigitsAreNumber(m);
    UnsignedReturns(Digits(m), tail);
    assert IsDigit(Digits(m)[0]);
    if n < 0 { assert Json(Int(n)) + tail == "-" + (Digits(m) + tail); }
  }

  // ---- The round trip ----

  // What may follow a value inside a document, or the end of it.
  predicate Follows(tail: string) {
    tail == "" || tail[0] == ',' || tail[0] == ']' || tail[0] == '}'
  }

  // How the text of a value begins, by the kind of the value.
  lemma Begins(v: Structure)
    ensures Json(v) != "" && Json(v)[0] != ']' && Json(v)[0] != '}'
    ensures match v
      case Null => Json(v) == "null"
      case Bool(b) => Json(v) == "true" || Json(v) == "false"
      case Int(n) => IsDigit(Json(v)[0]) || Json(v)[0] == '-'
      case Str(s) => Json(v)[0] == '"'
      case List(items) => Json(v)[0] == '['
      case Dict(fields) => Json(v)[0] == '{'
  {
    if v.Int? { IntReturns(v.n, ""); }
  }

  lemma AtomsReturn(tail: string)
    ensures ParseValue("null" + tail) == Some((JNull, tail))
    ensures ParseValue("true" + tail) == Some((JBool(true), tail))
    ensures ParseValue("false" + tail) == Some((JBool(false), tail))
    ensures ParseValue("[]" + tail) == Some((JList([]), tail))
    ensures ParseValue("{}" + tail) == Some((JObject(map[]), tail))
  {
    assert ("null" + tail)[4..] == tail && ("true" + tail)[4..] == tail && ("false" + tail)[5..] == tail;
    assert ("[]" + tail)[2..] == tail && ("{}" + tail)[2..] == tail;
  }

  lemma StringReturns(x: string, tail: string)
    ensures ParseValue(Quoted(x) + tail) == Some((JStr(x), tail))
  {
    BodyReturns(x, tail);
    BehindQuote(Escaped(x), tail);
  }

  lemma BehindQuote(e: string, tail: string)
    ensures ("\"" + e + "\"" + tail)[0] == '"' && ("\"" + e + "\"" + tail)[1..] == e + "\"" + tail
  {
  }

  lemma BracketsReturn(inner: string, items: seq<Value>, tail: string)
    requires inner != "" && inner[0] != ']' && ParseItems(inner + ("]" + tail)) == Some((items, tail))
    ensures ParseValue("[" + inner + "]" + tail) == Some((JList(items), tail))
  {
    BehindBracket('[', inner, ']', tail);
    assert ParseList("[" + inner + "]" + tail) == Some((JList(items), tail));
  }

  lemma BracesReturn(inner: string, fields: map<string, Value>, tail: string)
    requires inner != "" && inner[0] != '}' && ParseFields(inner + ("}" + tail)) == Some((fields, tail))
    ensures ParseValue("{" + inner + "}" + tail) == Some((JObject(fields), tail))
  {
    BehindBracket('{', inner, '}', tail);
    assert ParseObject("{" + inner + "}" + tail) == Some((JObject(fields), tail));
  }

  lemma BehindBracket(open: char, inner: string, close: char, tail: string)
    requires inner != ""
    ensures var s := [open] + inner + [close] + tail;
      |s| > 1 && s[0] == open && s[1] == inner[0] && s[1..] == inner + ([close] + tail)
  {
  }

  lemma IntParses(s: string)
    requires s != "" && (IsDigit(s[0]) || s[0] == '-')
    ensures ParseValue(s) == ParseInt(s)
  {
  }

  /** The parser undoes the serializer, whatever follows the value. */
  lemma {:induction false} RoundTrip(v: Structure, tail: string)
    requires Valid(v) && Follows(tail)
    ensures ParseValue(Json(v) + tail) == Some((Denote(v), tail))
    decreases v, 1, 0
  {
    match v
    case Null => AtomsReturn(tail);
    case Bool(b) => AtomsReturn(tail);
    case Int(n) =>
      IntReturns(n, tail);
      IntParses(Json(v) + tail);
    case Str(x) => StringReturns(x, tail);
    case List(items) => ListReturns(v, tail);
    case Dict(fields) => DictReturns(v, tail);
  }

  lemma {:induction false} ListReturns(v: Structure, tail: string)
    requires v.List? && Valid(v)
    ensures ParseValue(Json(v) + tail) == Some((Denote(v), tail))
    decreases v, 0, |v.items| + 1
  {
    if v.items == [] {
      AtomsReturn(tail);
      assert Denote(v).items == [] && Json(v) == "[]";
    } else {
      ItemsReturn(v, 0, tail);
      Begins(v.items[0]);
      BracketsReturn(JsonItems(v, 0), Denote(v).items, tail);
    }
  }

  lemma ItemsEnd(text: string, x: Value, tail: string)
    requires ParseValue(text + ("]" + tail)) == Some((x, "]" + tail))
    ensures ParseItems(text + ("]" + tail)) == Some(([x], tail))
  {
    assert ("]" + tail)[1..] == tail;
  }

  lemma ItemsMore(text: string, x: Value, more: string, others: seq<Value>, tail: string)
    requires ParseValue(text + ("," + more)) == Some((x, "," + more)) && ParseItems(more) == Some((others, tail))
    ensures ParseItems(text + ("," + more)) == Some(([x] + others, tail))
  {
    assert ("," + more)[1..] == more;
  }

  lemma {:induction false} ItemsReturn(v: Structure, i: nat, tail: string)
    requires v.List? && Valid(v) && i < |v.items|
    ensures ParseItems(JsonItems(v, i) + ("]" + tail)) == Some((Denote(v).items[i..], tail))
    decreases v, 0, |v.items| - i
  {
    var text, x := Json(v.items[i]), Denote(v.items[i]);
    assert Denote(v).items[i] == x;
    if i + 1 == |v.items| {
      assert JsonItems(v, i) == text;
      RoundTrip(v.items[i], "]" + tail);
      ItemsEnd(text, x, tail);
      assert Denote(v).items[i..] == [x];
    } else {
      var more := JsonItems(v, i + 1) + ("]" + tail);
      assert JsonItems(v, i) + ("]" + tail) == text + ("," + more);
      RoundTrip(v.items[i], "," + more);
      ItemsReturn(v, i + 1, tail);
      ItemsMore(text, x, more, Denote(v).items[i + 1..], tail);
      assert Denote(v).items[i..] == [x] + Denote(v).items[i + 1..];
    }
  }

  lemma {:induction false} DictReturns(v: Structure, tail: string)
    requires v.Dict? && Valid(v)
    ensures ParseValue(Json(v) + tail) == Some((Denote(v), tail))
    decreases v, 0, |Sorted(Keys(v.fields))| + 1
  {
    var keys := Sorted(Keys(v.fields));
    AllFieldsMapped(v);
    if keys == [] {
      AtomsReturn(tail);
      assert Json(v) == "{}";
    } else {
      FieldsText(v, keys, "}" + tail);
      FieldsReturn(v, keys, tail);
      BracesReturn(JsonFields(v, keys), FieldMap(v, keys), tail);
    }
  }

  lemma AllFieldsMapped(v: Structure)
    requires v.Dict?
    ensures Denote(v).fields == FieldMap(v, Sorted(Keys(v.fields)))
    ensures Sorted(Keys(v.fields)) == [] ==> Denote(v).fields == map[]
  {
    var keys := Sorted(Keys(v.fields));
    assert forall k :: k in keys <==> k in Elements(keys);
  }

  function FieldMap(v: Structure, keys: seq<string>): map<string, Value>
    requires v.Dict? && Elements(keys) <= Keys(v.fields)
  {
    map k | k in keys :: assert k in Elements(keys); Denote(v.fields[Index(v.fields, k)].value)
  }

  lemma FieldTextShape(k: string, text: string, end: string)
    ensures FieldText(k, text, end)[0] == '"'
    ensures FieldText(k, text, end)[1..] == Escaped(k) + "\"" + (":" + (text + end))
  {
    BehindQuote(Escaped(k), ":" + (text + end));
  }

  lemma FieldTextAppend(q: string, text: string, end: string, tail: string)
    ensures (q + (":" + (text + end))) + tail == q + (":" + (text + (end + tail)))
  {
  }

  lemma CommaAppend(more: string, end: string)
    ensures ("," + more) + end == "," + (more + end)
    ensures "" + end == end
  {
  }

  lemma FieldsEnd(k: string, text: string, x: Value, tail: string)
    requires ParseValue(text + ("}" + tail)) == Some((x, "}" + tail))
    ensures ParseFields(FieldText(k, text, "}" + tail)) == Some((map[k := x], tail))
  {
    var end := "}" + tail;
    FieldTextShape(k, text, end);
    BodyReturns(k, ":" + (text + end));
    assert (":" + (text + end))[1..] == text + end;
    assert end[1..] == tail;
  }

  lemma FieldsMore(k: string, text: string, x: Value, more: string, others: map<string, Value>, tail: string)
    requires ParseValue(text + ("," + more)) == Some((x, "," + more)) && ParseFields(more) == Some((others, tail))
    ensures ParseFields(FieldText(k, text, "," + more)) == Some((map[k := x] + others, tail))
  {
    var end := "," + more;
    FieldTextShape(k, text, end);
    BodyReturns(k, ":" + (text + end));
    assert (":" + (text + end))[1..] == text + end;
    assert end[1..] == more;
  }

  lemma FieldsText(v: Structure, keys: seq<string>, end: string)
    requires v.Dict? && Elements(keys) <= Keys(v.fields) && keys != []
    ensures keys[0] in Elements(keys) && Elements(keys[1..]) <= Elements(keys)
    ensures JsonFields(v, keys) != "" && JsonFields(v, keys)[0] == '"'
    ensures var text := Json(v.fields[Index(v.fields, keys[0])].value);
      JsonFields(v, keys) + end
        == FieldText(keys[0], text, if |keys| == 1 then end else "," + (JsonFields(v, keys[1..]) + end))
  {
    assert keys[0] in Elements(keys) && Elements(keys[1..]) <= Elements(keys);
    var text := Json(v.fields[Index(v.fields, keys[0])].value);
    var more := if |keys| == 1 then "" else "," + JsonFields(v, keys[1..]);
    FieldTextShape(keys[0], text, more);
    FieldTextAppend(Quoted(keys[0]), text, more, end);
    CommaAppend(if |keys| == 1 then "" else JsonFields(v, keys[1..]), end);
  }

  lemma {:induction false} FieldsReturn(v: Structure, keys: seq<string>, tail: string)
    requires v.Dict? && Valid(v) && Elements(keys) <= Keys(v.fields) && Ascending(keys) && keys != []
    ensures ParseFields(JsonFields(v, keys) + ("}" + tail)) == Some((FieldMap(v, keys), tail))
    decreases v, 0, |keys|
  {
    FieldsText(v, keys, "}" + tail);
    FieldMapSplit(v, keys);
    var value := v.fields[Index(v.fields, keys[0])].value;
    var end := if |keys| == 1 then "}" + tail else "," + (JsonFields(v, keys[1..]) + ("}" + tail));
    assert Follows(end);
    RoundTrip(value, end);
    if |keys| > 1 { FieldsReturn(v, keys[1..], tail); }
    FieldReturns(keys[0], Json(value), Denote(value), |keys| == 1, JsonFields(v, keys[1..]) + ("}" + tail),
      FieldMap(v, keys[1..]), tail);
  }

  // The first field, once the value and the other fields come back.
  lemma FieldReturns(k: string, text: string, x: Value, last: bool, more: string, others: map<string, Value>,
                     tail: string)
    requires var end := if last then "}" + tail else "," + more; ParseValue(text + end) == Some((x, end))
    requires if last then others == map[] else ParseFields(more) == Some((others, tail))
    ensures ParseFields(FieldText(k, text, if last then "}" + tail else "," + more))
            == Some((map[k := x] + others, tail))
  {
    if last {
      FieldsEnd(k, text, x, tail);
      assert map[k := x] + others == map[k := x];
    } else {
      FieldsMore(k, text, x, more, others, tail);
    }
  }

  lemma FieldMapSplit(v: Structure, keys: seq<string>)
    requires v.Dict? && Elements(keys) <= Keys(v.fields) && Ascending(keys) && keys != []
    ensures keys[0] in Elements(keys) && Elements(keys[1..]) <= Elements(keys)
    ensures FieldMap(v, keys)
            == map[keys[0] := Denote(v.fields[Index(v.fields, keys[0])].value)] + FieldMap(v, keys[1..])
  {
    assert keys[0] in Elements(keys) && Elements(keys[1..]) <= Elements(keys);
    forall x | x in keys[1..] ensures x != keys[0] { AscendingHead(keys, x); }
  }

  // ---- Equal bytes, equal values ----

  lemma {:induction false} SameValueSameText(a: Structure, b: Structure)
    requires Denote(a) == Denote(b)
    ensures Json(a) == Json(b)
    decreases a, 1, 0
  {
    match a
    case List(items) =>
      assert |Denote(a).items| == |a.items| && |Denote(b).items| == |b.items|;
      ItemsSame(a, b, 0);
    case Dict(fields) =>
      assert Denote(a).fields.Keys == Keys(a.fields) && Denote(b).fields.Keys == Keys(b.fields);
      FieldsSame(a, b, Sorted(Keys(a.fields)));
    case _ =>
  }

  lemma {:induction false} ItemsSame(a: Structure, b: Structure, i: nat)
    requires a.List? && b.List? && Denote(a) == Denote(b) && i <= |a.items| == |b.items|
    ensures JsonItems(a, i) == JsonItems(b, i)
    decreases a, 0, |a.items| - i
  {
    if i < |a.items| {
      assert Denote(a.items[i]) == Denote(a).items[i] == Denote(b).items[i] == Denote(b.items[i]);
      SameValueSameText(a.items[i], b.items[i]);
      ItemsSame(a, b, i + 1);
    }
  }

  lemma {:induction false} FieldsSame(a: Structure, b: Structure, keys: seq<string>)
    requires a.Dict? && b.Dict? && Denote(a) == Denote(b) && Elements(keys) <= Keys(a.fields)
    ensures Keys(a.fields) == Keys(b.fields) && JsonFields(a, keys) == JsonFields(b, keys)
    decreases a, 0, |keys|
  {
    assert Denote(a).fields.Keys == Keys(a.fields) && Denote(b).fields.Keys == Keys(b.fields);
    if keys != [] {
      var k := keys[0];
      assert k in Elements(keys) && Elements(keys[1..]) <= Elements(keys);
      var x, y := a.fields[Index(a.fields, k)].value, b.fields[Index(b.fields, k)].value;
      assert Denote(x) == Denote(a).fields[k] == Denote(b).fields[k] == Denote(y);
      SameValueSameText(x, y);
      FieldsSame(a, b, keys[1..]);
    }
  }

  /** Two structures have the same canonical text exactly when they are the
      same value: same kinds, same items, dicts equal as maps. */
  lemma SameTextIffSameValue(a: Structure, b: Structure)
    requires Valid(a) && Valid(b)
    ensures Json(a) == Json(b) <==> Denote(a) == Denote(b)
  {
    assert Json(a) + "" == Json(a) && Json(b) + "" == Json(b);
    RoundTrip(a, "");
    RoundTrip(b, "");
    if Denote(a) == Denote(b) { SameValueSameText(a, b); }
  }

  // A key finds the same field, wherever it stands.
  lemma SameField(f: seq<Field>, g: seq<Field>, k: string)
    requires (forall i, j | 0 <= i < j < |f| :: f[i].key != f[j].key) && k in Keys(f) && k in Keys(g)
    requires forall x | x in g :: x in f
    ensures f[Index(f, k)] == g[Index(g, k)]
  {
    assert g[Index(g, k)] in f;
    var i :| 0 <= i < |f| && f[i] == g[Index(g, k)];
    assert f[Index(f, k)].key == f[i].key;
  }

  lemma SameDict(f: seq<Field>, g: seq<Field>)
    requires Keys(f) == Keys(g) && forall k | k in Keys(f) :: f[Index(f, k)] == g[Index(g, k)]
    ensures Denote(Dict(f)) == Denote(Dict(g))
  {
    assert Denote(Dict(f)).fields == Denote(Dict(g)).fields;
  }

  /** The order in which a dict was filled does not show. */
  lemma InsertionOrderIsInvisible(f: seq<Field>, g: seq<Field>)
    requires Valid(Dict(f)) && multiset(f) == multiset(g)
    ensures Json(Dict(f)) == Json(Dict(g))
  {
    SameMembers(f, g);
    assert Keys(f) == Keys(g);
    forall k | k in Keys(f) ensures f[Index(f, k)] == g[Index(g, k)] { SameField(f, g, k); }
    SameDict(f, g);
    SameValueSameText(Dict(f), Dict(g));
  }
}
