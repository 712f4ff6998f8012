/** The encoder behind `json.dumps(obj)` with its default settings:
    `ensure_ascii`, `allow_nan`, no indentation, the separators `", "` and
    `": "`, and dicts written in insertion order, as CPython's C encoder
    writes them. */
module JsonEncoder {
  import opened JsonValue

  /** Printable ASCII, the only characters `ensure_ascii` lets through. */
  predicate Printable(c: char) {
    ' ' <= c <= '~'
  }

  predicate AllPrintable(s: string) {
    forall i :: 0 <= i < |s| ==> Printable(s[i])
  }

  /** A lower-case hexadecimal digit. */
  function HexChar(d: nat): (c: char)
    requires d < 16
    ensures Printable(c)
  {
    if d < 10 then ('0' as int + d) as char else ('a' as int + d - 10) as char
  }

  /** Four lower-case hexadecimal digits, as `\u%04x` writes them. */
  function Hex4(n: nat): (h: string)
    requires n < 0x10000
    ensures |h| == 4 && AllPrintable(h)
  {
    [HexChar(n / 0x1000), HexChar(n / 0x100 % 16), HexChar(n / 0x10 % 16), HexChar(n % 16)]
  }

  /** The UTF-16 surrogate pair of a code point beyond the Basic Multilingual Plane. */
  function HighSurrogate(c: CodePoint): int
    requires c >= 0x10000
  {
    0xD800 + (c - 0x10000) / 0x400
  }

  function LowSurrogate(c: CodePoint): int
    requires c >= 0x10000
  {
    0xDC00 + (c - 0x10000) % 0x400
  }

  /** One code point of a str as `ensure_ascii` writes it: a quote, a
      backslash and five control characters get their short escape, other
      printable ASCII stays, everything else becomes `\uXXXX`, and a code
      point beyond U+FFFF becomes the escapes of its surrogate pair. */
  function EscapePoint(c: CodePoint): (e: string)
    ensures e != [] && AllPrintable(e)
  {
    if c == 0x22 then "\\\""
    else if c == 0x5C then "\\\\"
    else if c == 0x08 then "\\b"
    else if c == 0x0C then "\\f"
    else if c == 0x0A then "\\n"
    else if c == 0x0D then "\\r"
    else if c == 0x09 then "\\t"
    else if 0x20 <= c <= 0x7E then [c as char]
    else if c < 0x10000 then "\\u" + Hex4(c)
    else "\\u" + Hex4(HighSurrogate(c)) + "\\u" + Hex4(LowSurrogate(c))
  }

  function EscapeString(s: JString): (e: string)
    ensures AllPrintable(e)
  {
    if s == [] then [] else EscapePoint(s[0]) + EscapeString(s[1..])
  }

  /** A str between double quotes. */
  function Quote(s: JString): (q: string)
    ensures AllPrintable(q)
  {
    "\"" + EscapeString(s) + "\""
  }

  function DigitChar(d: nat): (c: char)
    requires d < 10
  {
    ('0' as int + d) as char
  }

  /** The decimal digits of `n`, without leading zeros. */
  function Decimal(n: nat): (ds: string)
    ensures ds != []
  {
    if n < 10 then [DigitChar(n)] else Decimal(n / 10) + [DigitChar(n % 10)]
  }

  /** `int.__repr__`. */
  function IntText(i: int): string {
    if i < 0 then "-" + Decimal(0 - i) else Decimal(i)
  }

  /** `json.dumps`. `floatText` gives the text written for the float a
      lexeme denotes (`float.__repr__`, or `Infinity` where the lexeme
      overflows to infinity). */
  function Dumps(v: Value, floatText: string -> string): string
    decreases v
  {
    match v
    case Null => "null"
    case Bool(b) => if b then "true" else "false"
    case Int(i) => IntText(i)
    case Float(lexeme) => floatText(lexeme)
    case Constant(c) =>
      (match c
       case NaN => "NaN"
       case Infinity => "Infinity"
       case NegativeInfinity => "-Infinity")
    case Str(s) => Quote(s)
    case Array(items) => if items == [] then "[]" else "[" + DumpsItems(items, floatText) + "]"
    case Object(ms) => if ms == [] then "{}" else "{" + DumpsMembers(ms, floatText) + "}"
  }

  /** The elements of a non-empty list, separated by `", "`. */
  function DumpsItems(items: seq<Value>, floatText: string -> string): string
    requires items != []
    decreases items
  {
    if |items| == 1 then Dumps(items[0], floatText)
    else Dumps(items[0], floatText) + ", " + DumpsItems(items[1..], floatText)
  }

  /** The members of a non-empty dict, `key: value` separated by `", "`. */
  function DumpsMembers(ms: seq<Member>, floatText: string -> string): string
    requires ms != []
    decreases ms
  {
    var m := Quote(ms[0].key) + ": " + Dumps(ms[0].value, floatText);
    if |ms| == 1 then m else m + ", " + DumpsMembers(ms[1..], floatText)
  }
}
