/**
 * JSON text as PHP's `json_encode` writes it under its default flags, and a
 * reader for such text. The reader is the partner of the writer: every value
 * written is read back unchanged (`DecodeSerialize`).
 *
 * Default flags mean: no whitespace; `"`, `\` and `/` are escaped with a
 * backslash; backspace, form feed, newline, carriage return and tab use their
 * short escapes; every other control character and every character outside
 * ASCII is written as `\u` and four lower-case hex digits, characters beyond
 * U+FFFF as a UTF-16 surrogate pair.
 */
module Json {
  import opened Wrappers
  import opened Php

  datatype Json =
    | JNull
    | JBool(b: bool)
    | JInt(i: int)
    | JString(s: string)
    | JArray(items: seq<Json>)
    | JObject(members: seq<Member>)

  datatype Member = Member(name: string, value: Json)

  // ----- hex digits -----

  function HexDigit(d: nat): char
    requires d < 16
  {
    if d < 10 then ('0' as int + d) as char else ('a' as int + d - 10) as char
  }

  function HexValue(c: char): Option<nat>
  {
    if '0' <= c <= '9' then Some(c as int - '0' as int)
    else if 'a' <= c <= 'f' then Some(c as int - 'a' as int + 10)
    else if 'A' <= c <= 'F' then Some(c as int - 'A' as int + 10)
    else None
  }

  /** Two hex digits for a byte. */
  function Hex2(b: nat): (h: string)
    requires b < 0x100
    ensures |h| == 2
  {
    [HexDigit(b / 16), HexDigit(b % 16)]
  }

  /** Four hex digits for a UTF-16 code unit. */
  function Hex4(n: nat): (h: string)
    requires n < 0x10000
    ensures |h| == 4
  {
    Hex2(n / 0x100) + Hex2(n % 0x100)
  }

  // ----- writer -----

  /** The characters `json_encode` writes as a backslash and one letter or symbol. */
  predicate IsShortEscaped(c: char)
  {
    c == '"' || c == '\\' || c == '/' || c as int == 8 || c as int == 12 || c == '\n' || c == '\r' || c == '\t'
  }

  /** The character after the backslash in a short escape. */
  function ShortEscapeLetter(c: char): char
    requires IsShortEscaped(c)
  {
    if c as int == 8 then 'b'
    else if c as int == 12 then 'f'
    else if c == '\n' then 'n'
    else if c == '\r' then 'r'
    else if c == '\t' then 't'
    else c
  }

  /** How `json_encode` writes one character inside a string literal. */
  function Escape(c: char): (e: string)
    ensures |e| > 0 && e[0] != '"'
  {
    if IsShortEscaped(c) then ['\\', ShortEscapeLetter(c)]
    else if c as int < 0x20 || 0x80 <= c as int < 0x10000 then ['\\', 'u'] + Hex4(c as int)
    else if c as int >= 0x10000 then
      var w := c as int - 0x10000;
      ['\\', 'u'] + Hex4(0xD800 + w / 0x400) + ['\\', 'u'] + Hex4(0xDC00 + w % 0x400)
    else [c]
  }

  function EscapeAll(s: string): string
  {
    if |s| == 0 then [] else Escape(s[0]) + EscapeAll(s[1..])
  }

  function Quote(s: string): string
  {
    ['"'] + EscapeAll(s) + ['"']
  }

  function Serialize(j: Json): string
    decreases j, 2
  {
    match j
    case JNull => "null"
    case JBool(b) => if b then "true" else "false"
    case JInt(i) => Decimal(i)
    case JString(s) => Quote(s)
    case JArray(items) => ['['] + SerializeItems(items) + [']']
    case JObject(members) => ['{'] + SerializeMembers(members) + ['}']
  }

  /** The items of an array, separated by commas. */
  function SerializeItems(items: seq<Json>): string
    decreases items, 1
  {
    if |items| == 0 then []
    else if |items| == 1 then Serialize(items[0])
    else Serialize(items[0]) + [','] + SerializeItems(items[1..])
  }

  /** One object member, `"name":value`. */
  function SerializeMember(m: Member): string
    decreases m, 0
  {
    Quote(m.name) + [':'] + Serialize(m.value)
  }

  /** The members of an object, separated by commas. */
  function SerializeMembers(members: seq<Member>): string
    decreases members, 1
  {
    if |members| == 0 then []
    else if |members| == 1 then SerializeMember(members[0])
    else SerializeMember(members[0]) + [','] + SerializeMembers(members[1..])
  }

  // ----- from PHP values -----

  /** The name an array key gets as an object member name. */
  function KeyName(k: Php.Key): string
  {
    match k
    case IntKey(i) => Decimal(i)
    case StrKey(s) => s
  }

  /**
   * The JSON value `json_encode` writes for a PHP value: an array whose keys
   * are 0, 1, ..., n-1 in order becomes a JSON array, any other array an object.
   */
  function FromPhp(v: Php.Value): Json
    decreases v, 1
  {
    match v
    case Null => JNull
    case Bool(b) => JBool(b)
    case Int(i) => JInt(i)
    case Str(s) => JString(s)
    case Arr(entries) =>
      if Php.IsList(entries) then JArray(FromPhpItems(entries)) else JObject(FromPhpMembers(entries))
  }

  /** The values of a PHP list, converted one by one; the keys are dropped. */
  function FromPhpItems(entries: seq<Php.Entry>): (items: seq<Json>)
    decreases entries, 0
    ensures |items| == |entries|
  {
    if |entries| == 0 then []
    else
      var e := entries[0];
      assert e.val < e;
      [FromPhp(e.val)] + FromPhpItems(entries[1..])
  }

  /** The entries of a PHP array that is not a list, as object members named after their keys. */
  function FromPhpMembers(entries: seq<Php.Entry>): (members: seq<Member>)
    decreases entries, 0
    ensures |members| == |entries|
  {
    if |entries| == 0 then []
    else
      var e := entries[0];
      assert e.val < e;
      [Member(KeyName(e.key), FromPhp(e.val))] + FromPhpMembers(entries[1..])
  }

  /** Item `k` of the JSON array written for a PHP list is the JSON value of the list's element `k`. */
  lemma {:induction false} FromPhpItemsAt(entries: seq<Php.Entry>, k: nat)
    requires k < |entries|
    ensures FromPhpItems(entries)[k] == FromPhp(entries[k].val)
    decreases k
  {
    if k > 0 {
      FromPhpItemsAt(entries[1..], k - 1);
    }
  }

  /** `json_encode(v)`: the text reads back as the JSON value of `v`. */
  function Encode(v: Php.Value): (s: string)
    ensures Decode(s) == Some(FromPhp(v))
  {
    DecodeSerialize(FromPhp(v));
    Serialize(FromPhp(v))
  }

  // ----- reader -----

  /** Four hex digits at the front of `s`, read as a UTF-16 code unit. */
  function ParseHex4(s: string): Option<(nat, string)>
  {
    if |s| < 4 then None
    else match (HexValue(s[0]), HexValue(s[1]), HexValue(s[2]), HexValue(s[3]))
      case (Some(a), Some(b), Some(c), Some(d)) => Some((0x100 * (16 * a + b) + (16 * c + d), s[4..]))
      case _ => None
  }

  /** The code point a `\u` escape denotes, with its low surrogate when it needs one. */
  function ParseUnicode(s: string): (r: Option<(char, string)>)
    ensures r.Some? ==> |r.value.1| < |s|
  {
    match ParseHex4(s)
    case None => None
    case Some((hi, t)) =>
      if 0xD800 <= hi < 0xDC00 then
        if |t| >= 2 && t[0] == '\\' && t[1] == 'u' then
          match ParseHex4(t[2..])
          case None => None
          case Some((lo, t')) =>
            if 0xDC00 <= lo < 0xE000 then Some(((0x10000 + (hi - 0xD800) * 0x400 + (lo - 0xDC00)) as char, t'))
            else None
        else None
      else if 0xDC00 <= hi < 0xE000 then None
      else Some((hi as char, t))
  }

  /** The character a backslash and the letter or symbol `e` stand for. */
  function ShortEscapeChar(e: char): Option<char>
  {
    if e == '"' || e == '\\' || e == '/' then Some(e)
    else if e == 'b' then Some(8 as char)
    else if e == 'f' then Some(12 as char)
    else if e == 'n' then Some('\n')
    else if e == 'r' then Some('\r')
    else if e == 't' then Some('\t')
    else None
  }

  /** One character of a string literal, escaped or not; a quote ends the literal instead. */
  function ParseChar(s: string): (r: Option<(char, string)>)
    ensures r.Some? ==> |r.value.1| < |s|
  {
    if |s| == 0 || s[0] == '"' || s[0] as int < 0x20 then None
    else if s[0] != '\\' then Some((s[0], s[1..]))
    else if |s| < 2 then None
    else
      var e := s[1];
      if e == 'u' then ParseUnicode(s[2..])
      else match ShortEscapeChar(e)
        case Some(c) => Some((c, s[2..]))
        case None => None
  }

  /** The rest of a string literal after its opening quote, up to and including its closing quote. */
  function ParseStringBody(s: string): (r: Option<(string, string)>)
    ensures r.Some? ==> |r.value.1| < |s|
    decreases |s|
  {
    if |s| > 0 && s[0] == '"' then Some(([], s[1..]))
    else match ParseChar(s)
      case None => None
      case Some((c, t)) =>
        match ParseStringBody(t)
        case None => None
        case Some((body, rest)) => Some(([c] + body, rest))
  }

  /** The length of the run of digits at the front of `s`. */
  function DigitRun(s: string): (n: nat)
    ensures n <= |s|
    ensures forall k :: 0 <= k < n ==> IsDigit(s[k])
    ensures n < |s| ==> !IsDigit(s[n])
  {
    if |s| == 0 || !IsDigit(s[0]) then 0 else 1 + DigitRun(s[1..])
  }

  /** The number a string of decimal digits denotes. */
  function DigitsValue(ds: string): nat
    requires forall k :: 0 <= k < |ds| ==> IsDigit(ds[k])
  {
    if |ds| == 0 then 0
    else
      var last := ds[|ds| - 1];
      assert IsDigit(last);
      10 * DigitsValue(ds[..|ds| - 1]) + (last as int - '0' as int)
  }

  /** An integer with an optional minus sign; a zero is the only number that may start with `0`. */
  function ParseInt(s: string): (r: Option<(Json, string)>)
    ensures r.Some? ==> |r.value.1| < |s|
  {
    var neg := |s| > 0 && s[0] == '-';
    var body := if neg then s[1..] else s;
    var n := DigitRun(body);
    if n == 0 || (n > 1 && body[0] == '0') then None
    else
      var v: int := DigitsValue(body[..n]);
      Some((JInt(if neg then -v else v), body[n..]))
  }

  /** One JSON value at the front of `s`, and what follows it. */
  function ParseValue(s: string): (r: Option<(Json, string)>)
    ensures r.Some? ==> |r.value.1| < |s|
    decreases |s|, 1
  {
    if |s| == 0 then None
    else if s[0] == 'n' then
      if |s| >= 4 && s[..4] == "null" then Some((JNull, s[4..])) else None
    else if s[0] == 't' then
      if |s| >= 4 && s[..4] == "true" then Some((JBool(true), s[4..])) else None
    else if s[0] == 'f' then
      if |s| >= 5 && s[..5] == "false" then Some((JBool(false), s[5..])) else None
    else if s[0] == '"' then
      match ParseStringBody(s[1..])
      case None => None
      case Some((str, rest)) => Some((JString(str), rest))
    else if s[0] == '[' then
      if |s| >= 2 && s[1] == ']' then Some((JArray([]), s[2..]))
      else match ParseItems(s[1..])
        case None => None
        case Some((items, rest)) => Some((JArray(items), rest))
    else if s[0] == '{' then
      if |s| >= 2 && s[1] == '}' then Some((JObject([]), s[2..]))
      else match ParseMembers(s[1..])
        case None => None
        case Some((members, rest)) => Some((JObject(members), rest))
    else ParseInt(s)
  }

  /** The items of a non-empty array, up to and including its closing bracket. */
  function ParseItems(s: string): (r: Option<(seq<Json>, string)>)
    ensures r.Some? ==> |r.value.1| < |s|
    decreases |s|, 2
  {
    match ParseValue(s)
    case None => None
    case Some((v, t)) =>
      if |t| > 0 && t[0] == ']' then Some(([v], t[1..]))
      else if |t| > 0 && t[0] == ',' then
        match ParseItems(t[1..])
        case None => None
        case Some((vs, rest)) => Some(([v] + vs, rest))
      else None
  }

  /** One object member, `"name":value`, and what follows it. */
  function ParseMember(s: string): (r: Option<(Member, string)>)
    ensures r.Some? ==> |r.value.1| < |s|
    decreases |s|, 2
  {
    if |s| == 0 || s[0] != '"' then None
    else match ParseStringBody(s[1..])
      case None => None
      case Some((name, t)) =>
        if |t| == 0 || t[0] != ':' then None
        else match ParseValue(t[1..])
          case None => None
          case Some((v, u)) => Some((Member(name, v), u))
  }

  /** The members of a non-empty object, up to and including its closing brace. */
  function ParseMembers(s: string): (r: Option<(seq<Member>, string)>)
    ensures r.Some? ==> |r.value.1| < |s|
    decreases |s|, 3
  {
    match ParseMember(s)
    case None => None
    case Some((m, t)) =>
      if |t| > 0 && t[0] == '}' then Some(([m], t[1..]))
      else if |t| > 0 && t[0] == ',' then
        match ParseMembers(t[1..])
        case None => None
        case Some((ms, rest)) => Some(([m] + ms, rest))
      else None
  }

  /** `json_decode`: a whole text holding exactly one value. */
  function Decode(s: string): Option<Json>
  {
    match ParseValue(s)
    case Some((j, rest)) => if rest == [] then Some(j) else None
    case None => None
  }

  // ----- the reader undoes the writer -----

  /** What may follow a value inside JSON text: nothing, a comma or a closing bracket or brace. */
  predicate Terminator(rest: string)
  {
    |rest| == 0 || rest[0] == ',' || rest[0] == ']' || rest[0] == '}'
  }

  lemma Hex4RoundTrip(n: nat, t: string)
    requires n < 0x10000
    ensures ParseHex4(Hex4(n) + t) == Some((n, t))
  {
    var hi, lo := n / 0x100, n % 0x100;
    var s := Hex4(n) + t;
    assert s[0] == HexDigit(hi / 16) && s[1] == HexDigit(hi % 16);
    assert s[2] == HexDigit(lo / 16) && s[3] == HexDigit(lo % 16);
    assert s[4..] == t;
    assert 16 * (hi / 16) + hi % 16 == hi;
    assert 16 * (lo / 16) + lo % 16 == lo;
    assert 0x100 * hi + lo == n;
  }

  lemma {:induction false} DigitsValueOf(n: nat)
    ensures DigitsValue(Digits(n)) == n
    decreases n
  {
    var ds := Digits(n);
    if n >= 10 {
      DigitsValueOf(n / 10);
      assert ds[..|ds| - 1] == Digits(n / 10);
    }
  }

  lemma {:induction false} DigitRunOf(ds: string, rest: string)
    requires forall k :: 0 <= k < |ds| ==> IsDigit(ds[k])
    requires |rest| == 0 || !IsDigit(rest[0])
    ensures DigitRun(ds + rest) == |ds|
    decreases |ds|
  {
    if |ds| > 0 {
      assert (ds + rest)[1..] == ds[1..] + rest;
      DigitRunOf(ds[1..], rest);
    } else {
      assert ds + rest == rest;
    }
  }

  /** The digits of a natural number, followed by a terminator, read back as that number. */
  lemma NatDigitsRead(m: nat, rest: string)
    requires Terminator(rest)
    ensures var body := Digits(m) + rest;
      DigitRun(body) == |Digits(m)| && DigitsValue(body[..|Digits(m)|]) == m && body[|Digits(m)|..] == rest
      && IsDigit(body[0]) && (|Digits(m)| > 1 ==> body[0] != '0')
  {
    var ds := Digits(m);
    DigitsValueOf(m);
    DigitRunOf(ds, rest);
    var body := ds + rest;
    assert body[..|ds|] == ds && body[|ds|..] == rest;
    assert body[0] == ds[0];
  }

  /** How `ParseInt` reads a run of `n` digits, after a minus sign or not. */
  lemma ParseIntUnfold(s: string, neg: bool, body: string, n: nat, rest: string)
    requires neg ==> |s| > 0 && s[0] == '-' && s[1..] == body
    requires !neg ==> s == body && |s| > 0 && s[0] != '-'
    requires DigitRun(body) == n && 0 < n && !(n > 1 && body[0] == '0') && body[n..] == rest
    ensures var v: int := DigitsValue(body[..n]);
      ParseInt(s) == Some((JInt(if neg then -v else v), rest))
  {
  }

  lemma ParseNatOf(m: nat, rest: string)
    requires Terminator(rest)
    ensures ParseInt(Digits(m) + rest) == Some((JInt(m), rest))
  {
    var body := Digits(m) + rest;
    NatDigitsRead(m, rest);
    ParseIntUnfold(body, false, body, |Digits(m)|, rest);
  }

  lemma ParseNegOf(m: nat, rest: string)
    requires Terminator(rest)
    requires m > 0
    ensures ParseInt(['-'] + Digits(m) + rest) == Some((JInt(-(m as int)), rest))
  {
    var body := Digits(m) + rest;
    NatDigitsRead(m, rest);
    var s := ['-'] + Digits(m) + rest;
    assert s == ['-'] + body;
    assert s[1..] == body;
    ParseIntUnfold(s, true, body, |Digits(m)|, rest);
  }

  lemma ParseIntOf(i: int, rest: string)
    requires Terminator(rest)
    ensures ParseInt(Decimal(i) + rest) == Some((JInt(i), rest))
  {
    if i < 0 {
      ParseNegOf(-i, rest);
    } else {
      ParseNatOf(i, rest);
    }
  }

  lemma IntRoundTrip(i: int, rest: string)
    requires Terminator(rest)
    ensures ParseValue(Decimal(i) + rest) == Some((JInt(i), rest))
  {
    var s := Decimal(i) + rest;
    var m: nat := if i < 0 then -i else i;
    assert s[0] == '-' || s[0] == Digits(m)[0];
    assert IsDigit(Digits(m)[0]);
    assert ParseValue(s) == ParseInt(s);
    ParseIntOf(i, rest);
  }

  /**
   * The reader accepts only well-formed numbers: a number whose leading zero is
   * followed by another digit is refused, with or without a minus sign, alone
   * or as the first item of an array.
   */
  lemma LeadingZeroRefused(s: string)
    requires |s| >= 2 && s[0] == '0' && IsDigit(s[1])
    ensures ParseValue(s) == None && ParseValue(['-'] + s) == None
    ensures ParseItems(s) == None
    ensures Decode(s) == None && Decode(['-'] + s) == None
  {
    assert DigitRun(s) >= 2 by { assert s[1..][0] == s[1]; }
    assert (['-'] + s)[1..] == s;
  }

  /** The characters `json_encode` writes with a two-character escape read back. */
  lemma ShortEscapeRoundTrip(c: char, t: string)
    requires IsShortEscaped(c)
    ensures ParseChar(Escape(c) + t) == Some((c, t))
  {
    var s := Escape(c) + t;
    assert s[0] == '\\' && s[1] == ShortEscapeLetter(c) && s[2..] == t;
    assert ShortEscapeChar(ShortEscapeLetter(c)) == Some(c);
  }

  lemma ParseCharUnicode(x: string)
    ensures ParseChar(['\\', 'u'] + x) == ParseUnicode(x)
  {
    assert (['\\', 'u'] + x)[2..] == x;
  }

  lemma BmpRoundTrip(c: char, t: string)
    requires c as int < 0x10000
    ensures ParseUnicode(Hex4(c as int) + t) == Some((c, t))
  {
    Hex4RoundTrip(c as int, t);
  }

  lemma SurrogatePairRoundTrip(c: char, t: string)
    requires 0x10000 <= c as int
    ensures
      var w := c as int - 0x10000;
      ParseUnicode(Hex4(0xD800 + w / 0x400) + ['\\', 'u'] + Hex4(0xDC00 + w % 0x400) + t) == Some((c, t))
  {
    var w := c as int - 0x10000;
    var hi, lo := 0xD800 + w / 0x400, 0xDC00 + w % 0x400;
    var t1 := ['\\', 'u'] + Hex4(lo) + t;
    assert Hex4(hi) + ['\\', 'u'] + Hex4(lo) + t == Hex4(hi) + t1;
    Hex4RoundTrip(hi, t1);
    assert t1[2..] == Hex4(lo) + t;
    Hex4RoundTrip(lo, t);
    assert 0x10000 + (hi - 0xD800) * 0x400 + (lo - 0xDC00) == c as int;
  }

  lemma BmpEscapeRoundTrip(c: char, t: string)
    requires !IsShortEscaped(c)
    requires c as int < 0x20 || 0x80 <= c as int < 0x10000
    ensures ParseChar(Escape(c) + t) == Some((c, t))
  {
    var x := Hex4(c as int);
    assert Escape(c) + t == ['\\', 'u'] + (x + t);
    ParseCharUnicode(x + t);
    BmpRoundTrip(c, t);
  }

  lemma AstralEscapeRoundTrip(c: char, t: string)
    requires 0x10000 <= c as int
    ensures ParseChar(Escape(c) + t) == Some((c, t))
  {
    var w := c as int - 0x10000;
    var x := Hex4(0xD800 + w / 0x400) + ['\\', 'u'] + Hex4(0xDC00 + w % 0x400);
    assert Escape(c) + t == ['\\', 'u'] + (x + t);
    ParseCharUnicode(x + t);
    SurrogatePairRoundTrip(c, t);
  }

  /** Every character `json_encode` writes inside a string literal reads back as itself. */
  lemma EscapeRoundTrip(c: char, t: string)
    ensures ParseChar(Escape(c) + t) == Some((c, t))
  {
    if IsShortEscaped(c) {
      ShortEscapeRoundTrip(c, t);
    } else if c as int < 0x20 || 0x80 <= c as int < 0x10000 {
      BmpEscapeRoundTrip(c, t);
    } else if 0x10000 <= c as int {
      AstralEscapeRoundTrip(c, t);
    } else {
      var s := Escape(c) + t;
      assert s[0] == c && s[1..] == t;
    }
  }

  lemma {:induction false} StringRoundTrip(str: string, rest: string)
    ensures ParseStringBody(EscapeAll(str) + ['"'] + rest) == Some((str, rest))
    decreases |str|
  {
    var s := EscapeAll(str) + ['"'] + rest;
    if |str| == 0 {
      assert s == ['"'] + rest;
    } else {
      var t := EscapeAll(str[1..]) + ['"'] + rest;
      assert s == Escape(str[0]) + t;
      EscapeRoundTrip(str[0], t);
      StringRoundTrip(str[1..], rest);
      assert [str[0]] + str[1..] == str;
    }
  }

  /** No serialized value starts with a closing bracket or brace. */
  lemma FirstChar(j: Json)
    ensures |Serialize(j)| > 0 && Serialize(j)[0] != ']' && Serialize(j)[0] != '}'
  {
    if j.JInt? {
      var i := j.i;
      var ds := Digits(if i < 0 then -i else i);
      assert IsDigit(ds[0]);
    }
  }

  lemma {:induction false} ValueRoundTrip(j: Json, rest: string)
    requires Terminator(rest)
    ensures ParseValue(Serialize(j) + rest) == Some((j, rest))
    decreases j, 2
  {
    match j
    case JNull => LiteralRoundTrip(j, rest);
    case JBool(_) => LiteralRoundTrip(j, rest);
    case JInt(i) => IntRoundTrip(i, rest);
    case JString(str) => StringValueRoundTrip(str, rest);
    case JArray(items) => ArrayRoundTrip(items, rest);
    case JObject(members) => ObjectRoundTrip(members, rest);
  }

  lemma LiteralRoundTrip(j: Json, rest: string)
    requires j.JNull? || j.JBool?
    ensures ParseValue(Serialize(j) + rest) == Some((j, rest))
  {
    var s := Serialize(j) + rest;
    if j.JNull? {
      assert s[0] == 'n' && s[..4] == "null" && s[4..] == rest;
    } else if j.b {
      assert s[0] == 't' && s[..4] == "true" && s[4..] == rest;
    } else {
      assert s[0] == 'f' && s[..5] == "false" && s[5..] == rest;
    }
  }

  lemma StringValueRoundTrip(str: string, rest: string)
    ensures ParseValue(Serialize(JString(str)) + rest) == Some((JString(str), rest))
  {
    var s := Serialize(JString(str)) + rest;
    assert s[0] == '"' && s[1..] == EscapeAll(str) + ['"'] + rest;
    StringRoundTrip(str, rest);
  }

  lemma {:induction false} ArrayRoundTrip(items: seq<Json>, rest: string)
    ensures ParseValue(Serialize(JArray(items)) + rest) == Some((JArray(items), rest))
    decreases items, 1
  {
    var s := Serialize(JArray(items)) + rest;
    if |items| == 0 {
      assert s == ['[', ']'] + rest;
    } else {
      FirstChar(items[0]);
      assert s[0] == '[' && s[1..] == SerializeItems(items) + [']'] + rest;
      assert s[1] == Serialize(items[0])[0];
      ItemsRoundTrip(items, rest);
    }
  }

  lemma {:induction false} ObjectRoundTrip(members: seq<Member>, rest: string)
    ensures ParseValue(Serialize(JObject(members)) + rest) == Some((JObject(members), rest))
    decreases members, 1
  {
    var s := Serialize(JObject(members)) + rest;
    if |members| == 0 {
      assert s == ['{', '}'] + rest;
    } else {
      assert s[0] == '{' && s[1..] == SerializeMembers(members) + ['}'] + rest;
      assert s[1] == '"';
      MembersRoundTrip(members, rest);
    }
  }

  lemma {:induction false} ItemsRoundTrip(items: seq<Json>, rest: string)
    requires |items| > 0
    ensures ParseItems(SerializeItems(items) + [']'] + rest) == Some((items, rest))
    decreases items, 0
  {
    var s := SerializeItems(items) + [']'] + rest;
    if |items| == 1 {
      assert s == Serialize(items[0]) + ([']'] + rest);
      ValueRoundTrip(items[0], [']'] + rest);
      assert [items[0]] == items;
    } else {
      var t := SerializeItems(items[1..]) + [']'] + rest;
      assert s == Serialize(items[0]) + ([','] + t);
      ValueRoundTrip(items[0], [','] + t);
      assert ([','] + t)[1..] == t;
      ItemsRoundTrip(items[1..], rest);
      assert [items[0]] + items[1..] == items;
    }
  }

  lemma {:induction false} MemberRoundTrip(m: Member, rest: string)
    requires Terminator(rest)
    ensures ParseMember(SerializeMember(m) + rest) == Some((m, rest))
    decreases m, 0
  {
    var v := m.value;
    var q, sv := Quote(m.name), Serialize(v);
    var t := [':'] + (sv + rest);
    var s := SerializeMember(m) + rest;
    assert SerializeMember(m) == q + [':'] + sv;
    assert s == q + t;
    QuoteRoundTrip(m.name, t);
    assert t[1..] == sv + rest;
    assert v < m;
    ValueRoundTrip(v, rest);
    ParseMemberUnfold(s, m.name, t, v, rest);
  }

  /** A quoted name reads back, up to what follows its closing quote. */
  lemma QuoteRoundTrip(name: string, t: string)
    ensures var s := Quote(name) + t;
      |s| > 0 && s[0] == '"' && ParseStringBody(s[1..]) == Some((name, t))
  {
    var s := Quote(name) + t;
    assert s == ['"'] + (EscapeAll(name) + ['"'] + t);
    StringRoundTrip(name, t);
  }

  lemma ParseMemberUnfold(s: string, name: string, t: string, v: Json, rest: string)
    requires |s| > 0 && s[0] == '"' && ParseStringBody(s[1..]) == Some((name, t))
    requires |t| > 0 && t[0] == ':' && ParseValue(t[1..]) == Some((v, rest))
    ensures ParseMember(s) == Some((Member(name, v), rest))
  {
  }

  lemma ParseMembersLast(s: string, m: Member, u: string)
    requires ParseMember(s) == Some((m, u)) && |u| > 0 && u[0] == '}'
    ensures ParseMembers(s) == Some(([m], u[1..]))
  {
  }

  lemma ParseMembersNext(s: string, m: Member, u: string, ms: seq<Member>, rest: string)
    requires ParseMember(s) == Some((m, u)) && |u| > 0 && u[0] == ','
    requires ParseMembers(u[1..]) == Some((ms, rest))
    ensures ParseMembers(s) == Some(([m] + ms, rest))
  {
  }

  lemma {:induction false} MembersRoundTrip(members: seq<Member>, rest: string)
    requires |members| > 0
    ensures ParseMembers(SerializeMembers(members) + ['}'] + rest) == Some((members, rest))
    decreases members, 0
  {
    var s := SerializeMembers(members) + ['}'] + rest;
    var sm := SerializeMember(members[0]);
    if |members| == 1 {
      var u := ['}'] + rest;
      assert SerializeMembers(members) == sm;
      assert s == sm + u;
      MemberRoundTrip(members[0], u);
      assert u[1..] == rest;
      ParseMembersLast(s, members[0], u);
      assert [members[0]] == members;
    } else {
      var rm := SerializeMembers(members[1..]);
      var t := rm + ['}'] + rest;
      var u := [','] + t;
      assert SerializeMembers(members) == sm + [','] + rm;
      assert s == sm + u;
      MemberRoundTrip(members[0], u);
      assert u[1..] == t;
      MembersRoundTrip(members[1..], rest);
      ParseMembersNext(s, members[0], u, members[1..], rest);
      assert [members[0]] + members[1..] == members;
    }
  }

  /** `json_decode(json_encode(j))` gives `j` back: the writer loses nothing. */
  lemma DecodeSerialize(j: Json)
    ensures Decode(Serialize(j)) == Some(j)
  {
    ValueRoundTrip(j, []);
    assert Serialize(j) + [] == Serialize(j);
  }
}
