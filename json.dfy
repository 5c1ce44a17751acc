/**
 * JSON values as the proxy and the browser clients handle them: how Python
 * and JavaScript read a decoded value (truthiness, `.get`, property access,
 * string conversion), and the string escaping of RFC 8259, section 7, as
 * Python's `json.dumps` writes it (`ensure_ascii` on), with the decoder that
 * `JSON.parse` applies to a string literal.
 */
module Json {
  import opened Wrappers
  import opened Text

  /** A decoded JSON value. Numbers are integers in this model. */
  datatype Value =
    | Null
    | Bool(b: bool)
    | Num(n: int)
    | Str(s: string)
    | Arr(items: seq<Value>)
    | Obj(fields: map<string, Value>)

  // ---------------------------------------------------------------------------
  // Python's reading of a decoded value

  /** Python's `bool(v)`. */
  predicate PyTruthy(v: Value)
  {
    match v
    case Null => false
    case Bool(b) => b
    case Num(n) => n != 0
    case Str(s) => s != ""
    case Arr(items) => items != []
    case Obj(fields) => fields != map[]
  }

  /** Python's `d.get(k)`: the stored value, or `None` when `k` is absent. */
  function PyGet(d: map<string, Value>, k: string): Value
  {
    if k in d then d[k] else Null
  }

  /** `type(v).__name__` for a value `json.loads` produced. */
  function PyTypeName(v: Value): string
  {
    match v
    case Null => "NoneType"
    case Bool(_) => "bool"
    case Num(_) => "int"
    case Str(_) => "str"
    case Arr(_) => "list"
    case Obj(_) => "dict"
  }

  // ---------------------------------------------------------------------------
  // JavaScript's reading of a decoded value

  /** JavaScript truthiness: arrays and objects are truthy even when empty. */
  predicate JsTruthy(v: Value)
  {
    match v
    case Null => false
    case Bool(b) => b
    case Num(n) => n != 0
    case Str(s) => s != ""
    case Arr(_) => true
    case Obj(_) => true
  }

  /**
   * `v.k` on a value other than `null`, for the property names the clients
   * read (none of which strings, arrays or `Object.prototype` define):
   * an object's own property, otherwise `undefined` (`None`).
   */
  function Prop(v: Value, k: string): Option<Value>
  {
    match v
    case Obj(fields) => if k in fields then Some(fields[k]) else None
    case _ => None
  }

  /** Truthiness of a property read, `undefined` being falsy. */
  predicate JsTruthyProp(p: Option<Value>)
  {
    p.Some? && JsTruthy(p.value)
  }

  /**
   * The string `s += v` appends: `String(v)`. An array converts to its
   * elements joined by `,`, with `null` elements converting to nothing.
   */
  function JsString(v: Value): string
    decreases v
  {
    match v
    case Null => "null"
    case Bool(b) => if b then "true" else "false"
    case Num(n) => IntToString(n)
    case Str(s) => s
    case Arr(items) =>
      Join(seq(|items|, i requires 0 <= i < |items| => if items[i] == Null then "" else JsString(items[i])), ",")
    case Obj(_) => "[object Object]"
  }

  // ---------------------------------------------------------------------------
  // String literals (RFC 8259, section 7)

  function HexDigit(d: nat): (c: char)
    requires d < 16
    ensures '0' <= c <= '9' || 'a' <= c <= 'f'
  {
    if d < 10 then ('0' as int + d) as char else ('a' as int + d - 10) as char
  }

  /** The value of a hexadecimal digit of either case. */
  function HexValue(c: char): (r: Option<nat>)
    ensures r.Some? ==> r.value < 16
  {
    if '0' <= c <= '9' then Some(c as int - '0' as int)
    else if 'a' <= c <= 'f' then Some(c as int - 'a' as int + 10)
    else if 'A' <= c <= 'F' then Some(c as int - 'A' as int + 10)
    else None
  }

  /** Two lower-case hexadecimal digits. */
  function Hex2(n: nat): (r: string)
    requires n < 0x100
    ensures |r| == 2
  {
    [HexDigit(n / 16), HexDigit(n % 16)]
  }

  /** Four lower-case hexadecimal digits, as Python's encoder writes them. */
  function Hex4(n: nat): (r: string)
    requires n < 0x10000
    ensures |r| == 4
  {
    Hex2(n / 0x100) + Hex2(n % 0x100)
  }

  /** Reads the four hexadecimal digits at the front of `t`. */
  function ParseHex4(t: string): (r: Option<nat>)
    requires |t| >= 4
    ensures r.Some? ==> r.value < 0x10000
  {
    match (HexValue(t[0]), HexValue(t[1]), HexValue(t[2]), HexValue(t[3]))
    case (Some(a), Some(b), Some(c), Some(d)) => Some(a * 0x1000 + b * 0x100 + c * 16 + d)
    case _ => None
  }

  function UnicodeEscape(n: nat): (r: string)
    requires n < 0x10000
    ensures |r| == 6
  {
    "\\u" + Hex4(n)
  }

  /**
   * How `json.dumps` writes one character inside a string literal: printable
   * ASCII other than `"` and `\` as itself; `"`, `\`, backspace, form feed,
   * line feed, carriage return and tab as two-character escapes; any other
   * character below U+10000 as `\uXXXX`; and a character above as the
   * `\uXXXX\uXXXX` escapes of its UTF-16 surrogate pair.
   */
  function EscapeChar(c: char): (r: string)
    ensures 1 <= |r| <= 12
    ensures forall i :: 0 <= i < |r| ==> ' ' <= r[i] <= '~'
    ensures r[0] != '"'
  {
    if c == '"' then "\\\""
    else if c == '\\' then "\\\\"
    else if c as int == 8 then "\\b"
    else if c as int == 12 then "\\f"
    else if c == '\n' then "\\n"
    else if c == '\r' then "\\r"
    else if c == '\t' then "\\t"
    else if ' ' <= c <= '~' then [c]
    else if c as int < 0x10000 then UnicodeEscape(c as int)
    else
      var n := c as int - 0x10000;
      UnicodeEscape(0xD800 + n / 0x400) + UnicodeEscape(0xDC00 + n % 0x400)
  }

  /** The escaped characters of `s`, between the quotes of its literal. */
  function EscapeBody(s: string): (r: string)
    ensures forall i :: 0 <= i < |r| ==> ' ' <= r[i] <= '~'
    decreases |s|
  {
    if s == [] then "" else EscapeChar(s[0]) + EscapeBody(s[1..])
  }

  /**
   * `json.dumps(s)` for a string `s`. Every character of the literal is
   * printable ASCII, so no line feed ever appears in it.
   */
  function EncodeString(s: string): (r: string)
    ensures |r| >= 2 && r[0] == '"' && r[|r| - 1] == '"'
    ensures forall i :: 0 <= i < |r| ==> ' ' <= r[i] <= '~'
  {
    "\"" + EscapeBody(s) + "\""
  }

  /** The character a two-character escape `\x` stands for. */
  function ShortEscape(x: char): Option<char>
  {
    if x == '"' then Some('"')
    else if x == '\\' then Some('\\')
    else if x == '/' then Some('/')
    else if x == 'b' then Some(8 as char)
    else if x == 'f' then Some(12 as char)
    else if x == 'n' then Some('\n')
    else if x == 'r' then Some('\r')
    else if x == 't' then Some('\t')
    else None
  }

  predicate IsHighSurrogate(u: nat) { 0xD800 <= u <= 0xDBFF }

  predicate IsLowSurrogate(u: nat) { 0xDC00 <= u <= 0xDFFF }

  /**
   * Decodes the character at the front of the body of a string literal and
   * says how many characters of `t` it used. A surrogate escape that is not
   * part of a pair has no character to stand for here and is refused.
   */
  function DecodeChar(t: string): (r: Option<(char, nat)>)
    requires t != []
    ensures r.Some? ==> 0 < r.value.1 <= |t|
  {
    if t[0] == '\\' then
      if |t| >= 2 && t[1] == 'u' then
        if |t| < 6 then None
        else match ParseHex4(t[2..6])
          case None => None
          case Some(u) =>
            if IsHighSurrogate(u) then
              if |t| >= 12 && t[6] == '\\' && t[7] == 'u' then
                match ParseHex4(t[8..12])
                case None => None
                case Some(l) =>
                  if IsLowSurrogate(l) then Some(((0x10000 + (u - 0xD800) * 0x400 + (l - 0xDC00)) as char, 12))
                  else None
              else None
            else if IsLowSurrogate(u) then None
            else Some((u as char, 6))
      else if |t| >= 2 then
        match ShortEscape(t[1])
        case None => None
        case Some(c) => Some((c, 2))
      else None
    else if t[0] == '"' || (t[0] as int) < 0x20 then None
    else Some((t[0], 1))
  }

  /**
   * Decodes the body of a string literal up to its closing quote: the value
   * and the index of that quote in `t`.
   */
  function DecodeBody(t: string): (r: Option<(string, nat)>)
    ensures r.Some? ==> r.value.1 < |t| && t[r.value.1] == '"'
    decreases |t|
  {
    if t == [] then None
    else if t[0] == '"' then Some(([], 0))
    else
      match DecodeChar(t)
      case None => None
      case Some((c, k)) =>
        match DecodeBody(t[k..])
        case None => None
        case Some((s, j)) => Some(([c] + s, k + j))
  }

  /** The string literal at the front of `t`, as `JSON.parse` reads it: its value and its length. */
  function ParseString(t: string): (r: Option<(string, nat)>)
    ensures r.Some? ==> 2 <= r.value.1 <= |t| && t[r.value.1 - 1] == '"'
  {
    if t != [] && t[0] == '"' then
      match DecodeBody(t[1..])
      case None => None
      case Some((s, j)) => Some((s, j + 2))
    else None
  }

  lemma HexDigitRoundTrip(d: nat)
    requires d < 16
    ensures HexValue(HexDigit(d)) == Some(d)
  {
  }

  lemma HexRoundTrip(n: nat, rest: string)
    requires n < 0x10000
    ensures ParseHex4(Hex4(n) + rest) == Some(n)
  {
    var t := Hex4(n) + rest;
    var hi, lo := n / 0x100, n % 0x100;
    HexDigitRoundTrip(hi / 16);
    HexDigitRoundTrip(hi % 16);
    HexDigitRoundTrip(lo / 16);
    HexDigitRoundTrip(lo % 16);
    assert t[0] == HexDigit(hi / 16) && t[1] == HexDigit(hi % 16);
    assert t[2] == HexDigit(lo / 16) && t[3] == HexDigit(lo % 16);
    assert hi == hi / 16 * 16 + hi % 16;
    assert lo == lo / 16 * 16 + lo % 16;
    assert n == hi * 0x100 + lo;
  }

  lemma UnicodeEscapeDecodes(n: nat, rest: string)
    requires n < 0x10000
    ensures |UnicodeEscape(n) + rest| >= 6
    ensures (UnicodeEscape(n) + rest)[..2] == "\\u"
    ensures ParseHex4((UnicodeEscape(n) + rest)[2..6]) == Some(n)
  {
    var t := UnicodeEscape(n) + rest;
    assert t[2..6] == Hex4(n) + [];
    HexRoundTrip(n, []);
  }

  lemma DecodeBmpEscape(n: nat, rest: string)
    requires n < 0x10000 && !IsHighSurrogate(n) && !IsLowSurrogate(n)
    ensures DecodeChar(UnicodeEscape(n) + rest) == Some((n as char, 6))
  {
    UnicodeEscapeDecodes(n, rest);
  }

  lemma DecodePairEscape(c: char, rest: string)
    requires c as int >= 0x10000
    ensures var n := c as int - 0x10000;
      DecodeChar(UnicodeEscape(0xD800 + n / 0x400) + UnicodeEscape(0xDC00 + n % 0x400) + rest) == Some((c, 12))
  {
    var n := c as int - 0x10000;
    var hi, lo := 0xD800 + n / 0x400, 0xDC00 + n % 0x400;
    var t := UnicodeEscape(hi) + UnicodeEscape(lo) + rest;
    UnicodeEscapeDecodes(hi, UnicodeEscape(lo) + rest);
    UnicodeEscapeDecodes(lo, rest);
    assert t == UnicodeEscape(hi) + (UnicodeEscape(lo) + rest);
    assert t[6..] == UnicodeEscape(lo) + rest;
    assert t[8..12] == (UnicodeEscape(lo) + rest)[2..6];
    assert ParseHex4(t[2..6]) == Some(hi);
    assert ParseHex4(t[8..12]) == Some(lo);
    assert 0x10000 + (hi - 0xD800) * 0x400 + (lo - 0xDC00) == c as int;
  }

  /** Each escape `json.dumps` writes decodes to the character it escapes, using exactly its own length. */
  lemma DecodeEscapeChar(c: char, rest: string)
    ensures DecodeChar(EscapeChar(c) + rest) == Some((c, |EscapeChar(c)|))
  {
    if c == '"' || c == '\\' || c as int == 8 || c as int == 12 || c == '\n' || c == '\r' || c == '\t' {
    } else if ' ' <= c <= '~' {
    } else if c as int < 0x10000 {
      DecodeBmpEscape(c as int, rest);
    } else {
      DecodePairEscape(c, rest);
    }
  }

  lemma {:induction false} DecodeBodyRoundTrip(s: string, rest: string)
    ensures DecodeBody(EscapeBody(s) + "\"" + rest) == Some((s, |EscapeBody(s)|))
    decreases |s|
  {
    if s == [] {
      assert (EscapeBody(s) + "\"" + rest)[0] == '"';
    } else {
      DecodeBodyRoundTrip(s[1..], rest);
      DecodeBodyCons(s, rest);
    }
  }

  /** Decoding the escaped body of `s` is decoding its first character, then the rest. */
  lemma DecodeBodyCons(s: string, rest: string)
    requires s != []
    requires DecodeBody(EscapeBody(s[1..]) + "\"" + rest) == Some((s[1..], |EscapeBody(s[1..])|))
    ensures DecodeBody(EscapeBody(s) + "\"" + rest) == Some((s, |EscapeBody(s)|))
  {
    var e, body := EscapeChar(s[0]), EscapeBody(s[1..]);
    var tail := body + "\"" + rest;
    assert EscapeBody(s) == e + body;
    assert EscapeBody(s) + "\"" + rest == e + tail;
    DecodeBodyStep(s[0], tail, s[1..], |body|);
    assert [s[0]] + s[1..] == s;
    assert |EscapeBody(s)| == |e| + |body|;
  }

  /** The body decoder reads one escaped character and goes on after it. */
  lemma DecodeBodyStep(c: char, tail: string, s: string, j: nat)
    requires DecodeBody(tail) == Some((s, j))
    ensures DecodeBody(EscapeChar(c) + tail) == Some(([c] + s, |EscapeChar(c)| + j))
  {
    var e := EscapeChar(c);
    DecodeEscapeChar(c, tail);
    assert (e + tail)[0] == e[0] != '"';
    assert (e + tail)[|e|..] == tail;
  }

  /**
   * `JSON.parse` reads back exactly the string `json.dumps` wrote, and the
   * literal ends exactly where the encoding ends, whatever follows it.
   */
  lemma {:induction false} EncodeStringRoundTrip(s: string, rest: string)
    ensures ParseString(EncodeString(s) + rest) == Some((s, |EncodeString(s)|))
  {
    var t := EncodeString(s) + rest;
    assert t[1..] == EscapeBody(s) + "\"" + rest;
    DecodeBodyRoundTrip(s, rest);
  }
}
