/** The JSON decoder `extract_json` relies on: `json.loads` and
    `json.JSONDecoder.raw_decode`, as CPython's scanner implements them
    (the grammar of RFC 8259, sections 2 and 4 to 7, plus Python's NaN,
    Infinity and -Infinity constants).

    Every scanning function works on the input that remains and returns the
    value it read together with the input after it. */
module JsonDecoder {
  import opened JsonValue

  datatype Scan<+T> = Scanned(value: T, rest: string) | Invalid

  /** The outcome of `json.loads` or `raw_decode`: a value, or a `JSONDecodeError`. */
  datatype Decoded<+T> = Decoded(value: T) | DecodeError

  /** Scanning `s` read at least one character before leaving `rest`. */
  predicate Consumed(s: string, rest: string) {
    |rest| < |s|
  }

  predicate StartsWith(s: string, p: string) {
    |p| <= |s| && s[..|p|] == p
  }

  /** Whitespace in the sense of section 2 of RFC 8259. */
  predicate IsWs(c: char) {
    c == ' ' || c == '\t' || c == '\n' || c == '\r'
  }

  function SkipWs(s: string): (t: string)
    ensures |t| <= |s|
    ensures t == [] || !IsWs(t[0])
  {
    if s != [] && IsWs(s[0]) then SkipWs(s[1..]) else s
  }

  /** What `SkipWs` drops is whitespace, and what it keeps is the rest of the input. */
  lemma {:induction false} SkipWsDrops(s: string)
    ensures s[|s| - |SkipWs(s)|..] == SkipWs(s)
    ensures forall i :: 0 <= i < |s| - |SkipWs(s)| ==> IsWs(s[i])
  {
    if s != [] && IsWs(s[0]) {
      SkipWsDrops(s[1..]);
      assert s[1..][|s| - 1 - |SkipWs(s)|..] == s[|s| - |SkipWs(s)|..];
      forall i | 0 < i < |s| - |SkipWs(s)| ensures IsWs(s[i]) {
        assert s[1..][i - 1] == s[i];
      }
    }
  }

  // ---------------------------------------------------------------------
  // Numbers (section 6 of RFC 8259): the longest match of
  // -?(0|[1-9][0-9]*)(\.[0-9]+)?([eE][-+]?[0-9]+)? at the head of the input.
  // ---------------------------------------------------------------------

  predicate IsDigit(c: char) {
    '0' <= c <= '9'
  }

  /** The first index from `i` on that does not hold a digit. */
  function DigitsEnd(s: string, i: nat): (j: nat)
    requires i <= |s|
    ensures i <= j <= |s|
    ensures j == |s| || !IsDigit(s[j])
    decreases |s| - i
  {
    if i < |s| && IsDigit(s[i]) then DigitsEnd(s, i + 1) else i
  }

  /** The number a run of decimal digits denotes. */
  function DigitsValue(ds: string): int {
    if ds == [] then 0
    else DigitsValue(ds[..|ds| - 1]) * 10 + (ds[|ds| - 1] as int - '0' as int)
  }

  /** The end of the integer part `-?(0|[1-9][0-9]*)`, 0 when there is none. */
  function IntPartEnd(s: string): (n: nat)
    ensures n <= |s|
  {
    var i := if s != [] && s[0] == '-' then 1 else 0;
    if i < |s| && s[i] == '0' then i + 1
    else if i < |s| && '1' <= s[i] <= '9' then DigitsEnd(s, i + 1)
    else 0
  }

  /** The end of the fraction `\.[0-9]+` that may start at `i` (`i` when there is none). */
  function FracEnd(s: string, i: nat): (j: nat)
    requires i <= |s|
    ensures i <= j <= |s|
  {
    if i + 1 < |s| && s[i] == '.' && IsDigit(s[i + 1]) then DigitsEnd(s, i + 2) else i
  }

  /** The end of the exponent `[eE][-+]?[0-9]+` that may start at `i` (`i`
      when there is none: an `e` not followed by digits is left unread). */
  function ExpEnd(s: string, i: nat): (j: nat)
    requires i <= |s|
    ensures i <= j <= |s|
  {
    if i < |s| && (s[i] == 'e' || s[i] == 'E') then
      var d := if i + 1 < |s| && (s[i + 1] == '+' || s[i + 1] == '-') then i + 2 else i + 1;
      var j := DigitsEnd(s, d);
      if d < j then j else i
    else i
  }

  /** `int(lexeme)` for a lexeme `-?[0-9]+`. */
  function IntegerValue(lexeme: string): int {
    if lexeme != [] && lexeme[0] == '-' then 0 - DigitsValue(lexeme[1..]) else DigitsValue(lexeme)
  }

  /** The value of a number lexeme whose integer part is `intLength` long:
      an `int` when there is nothing after the integer part, a float otherwise. */
  function NumberValue(lexeme: string, intLength: nat): Value {
    if intLength == |lexeme| then Int(IntegerValue(lexeme)) else Float(lexeme)
  }

  /** A number: the longest lexeme the grammar allows at the head of `s`. */
  function ScanNumber(s: string): (r: Scan<Value>)
    ensures r.Scanned? ==> Consumed(s, r.rest) && (r.value.Int? || r.value.Float?)
    ensures r.Scanned? ==> s[0] == '-' || IsDigit(s[0])
  {
    var n := IntPartEnd(s);
    if n == 0 then Invalid
    else
      var end := ExpEnd(s, FracEnd(s, n));
      Scanned(NumberValue(s[..end], n), s[end..])
  }

  // ---------------------------------------------------------------------
  // Strings (section 7 of RFC 8259).
  // ---------------------------------------------------------------------

  predicate IsHexDigit(c: char) {
    '0' <= c <= '9' || 'a' <= c <= 'f' || 'A' <= c <= 'F'
  }

  predicate AllHex(s: string) {
    forall i :: 0 <= i < |s| ==> IsHexDigit(s[i])
  }

  function HexDigitValue(c: char): (d: nat)
    requires IsHexDigit(c)
    ensures d < 16
  {
    if '0' <= c <= '9' then c as int - '0' as int
    else if 'a' <= c <= 'f' then c as int - 'a' as int + 10
    else c as int - 'A' as int + 10
  }

  /** The number a run of hexadecimal digits denotes. */
  function HexValue(h: string): nat
    requires AllHex(h)
  {
    if h == [] then 0 else HexValue(h[..|h| - 1]) * 16 + HexDigitValue(h[|h| - 1])
  }

  /** The escapes `\"`, `\\`, `\/`, `\b`, `\f`, `\n`, `\r` and `\t`. */
  predicate IsSimpleEscape(c: char) {
    c == '"' || c == '\\' || c == '/' || c == 'b' || c == 'f' || c == 'n' || c == 'r' || c == 't'
  }

  function SimpleEscape(c: char): CodePoint
    requires IsSimpleEscape(c)
  {
    match c
    case '"' => 0x22
    case '\\' => 0x5C
    case '/' => 0x2F
    case 'b' => 0x08
    case 'f' => 0x0C
    case 'n' => 0x0A
    case 'r' => 0x0D
    case 't' => 0x09
  }

  predicate IsHighSurrogate(c: int) {
    0xD800 <= c < 0xDC00
  }

  predicate IsLowSurrogate(c: int) {
    0xDC00 <= c < 0xE000
  }

  /** The code point a UTF-16 surrogate pair stands for. */
  function JoinSurrogates(hi: int, lo: int): CodePoint
    requires IsHighSurrogate(hi) && IsLowSurrogate(lo)
  {
    0x10000 + (hi - 0xD800) * 0x400 + (lo - 0xDC00)
  }

  /** The body of a string literal after its opening quote; `acc` holds the
      code points decoded so far. Raw control characters are refused (strict
      mode); `\uXXXX` takes exactly four hexadecimal digits; an escaped high
      surrogate followed by an escaped low surrogate becomes one code point,
      while any other escaped surrogate is kept as it is. */
  function ScanStringBody(s: string, acc: JString): (r: Scan<JString>)
    ensures r.Scanned? ==> Consumed(s, r.rest)
    decreases |s|
  {
    if s == [] then Invalid
    else if s[0] == '"' then Scanned(acc, s[1..])
    else if s[0] == '\\' then
      if |s| < 2 then Invalid
      else if s[1] == 'u' then
        if |s| < 6 || !AllHex(s[2..6]) then Invalid
        else
          var c := HexValue(s[2..6]);
          assert c < 0x10000 by { HexValueBound(s[2..6]); assert Pow16(4) == 0x10000; }
          if IsHighSurrogate(c) && |s| >= 8 && s[6] == '\\' && s[7] == 'u' then
            if |s| < 12 || !AllHex(s[8..12]) then Invalid
            else
              var c2 := HexValue(s[8..12]);
              if IsLowSurrogate(c2) then ScanStringBody(s[12..], acc + [JoinSurrogates(c, c2)])
              else ScanStringBody(s[6..], acc + [c])
          else ScanStringBody(s[6..], acc + [c])
      else if IsSimpleEscape(s[1]) then ScanStringBody(s[2..], acc + [SimpleEscape(s[1])])
      else Invalid
    else if s[0] as int < 0x20 then Invalid
    else ScanStringBody(s[1..], acc + [s[0] as int])
  }

  lemma {:induction false} HexValueBound(h: string)
    requires AllHex(h)
    ensures HexValue(h) < Pow16(|h|)
  {
    if h != [] {
      HexValueBound(h[..|h| - 1]);
    }
  }

  function Pow16(n: nat): (p: nat)
    ensures p > 0
  {
    if n == 0 then 1 else 16 * Pow16(n - 1)
  }

  // ---------------------------------------------------------------------
  // Values, arrays (section 5) and objects (section 4).
  // ---------------------------------------------------------------------

  /** A literal name such as `null`; a name that is not spelt out in full is
      not a number either, so nothing is read. */
  function ScanName(s: string, name: string, v: Value): (r: Scan<Value>)
    requires name != []
    ensures r.Scanned? ==> Consumed(s, r.rest) && r.value == v
  {
    if StartsWith(s, name) then Scanned(v, s[|name|..]) else Invalid
  }

  /** The characters a value can start with. */
  predicate StartsValue(c: char) {
    c == '"' || c == '{' || c == '[' || c == 'n' || c == 't' || c == 'f'
    || c == 'N' || c == 'I' || c == '-' || IsDigit(c)
  }

  /** `scan_once`: one value starting exactly at the head of `s`. */
  function ScanValue(s: string): (r: Scan<Value>)
    ensures r.Scanned? ==> Consumed(s, r.rest) && StartsValue(s[0])
    ensures r.Scanned? && s[0] == '{' ==> r.value.Object?
    decreases |s|, 0
  {
    if s == [] then Invalid
    else if s[0] == '"' then
      match ScanStringBody(s[1..], [])
      case Invalid => Invalid
      case Scanned(cs, rest) => Scanned(Str(cs), rest)
    else if s[0] == '{' then ScanObject(s[1..])
    else if s[0] == '[' then ScanArray(s[1..])
    else ScanLiteral(s)
  }

  /** A name or a number. A `-` followed by `I` can only start `-Infinity`:
      a number needs a digit there. */
  function ScanLiteral(s: string): (r: Scan<Value>)
    requires s != []
    ensures r.Scanned? ==> Consumed(s, r.rest) && StartsValue(s[0])
  {
    if s[0] == 'n' then ScanName(s, "null", Null)
    else if s[0] == 't' then ScanName(s, "true", Bool(true))
    else if s[0] == 'f' then ScanName(s, "false", Bool(false))
    else if s[0] == 'N' then ScanName(s, "NaN", Constant(NaN))
    else if s[0] == 'I' then ScanName(s, "Infinity", Constant(Infinity))
    else if s[0] == '-' && 1 < |s| && s[1] == 'I' then ScanName(s, "-Infinity", Constant(NegativeInfinity))
    else ScanNumber(s)
  }

  /** An array after its `[`. */
  function ScanArray(s: string): (r: Scan<Value>)
    ensures r.Scanned? ==> Consumed(s, r.rest) && r.value.Array?
    decreases |s|, 2
  {
    var t := SkipWs(s);
    if t != [] && t[0] == ']' then Scanned(Array([]), t[1..])
    else ScanItems(t, [])
  }

  /** The elements of an array from the next element on; `acc` holds the
      elements read so far. */
  function ScanItems(s: string, acc: seq<Value>): (r: Scan<Value>)
    ensures r.Scanned? ==> Consumed(s, r.rest) && r.value.Array?
    decreases |s|, 1
  {
    match ScanValue(s)
    case Invalid => Invalid
    case Scanned(v, u) => AfterItem(u, acc + [v])
  }

  /** What may follow an element: `]`, or `,` and the next element. */
  function AfterItem(u: string, items: seq<Value>): (r: Scan<Value>)
    ensures r.Scanned? ==> |r.rest| < |u| && r.value.Array?
    decreases |u|, 0
  {
    var u := SkipWs(u);
    if u != [] && u[0] == ']' then Scanned(Array(items), u[1..])
    else if u == [] || u[0] != ',' then Invalid
    else ScanItems(SkipWs(u[1..]), items)
  }

  /** An object after its `{`. */
  function ScanObject(s: string): (r: Scan<Value>)
    ensures r.Scanned? ==> Consumed(s, r.rest) && r.value.Object?
    decreases |s|, 3
  {
    var t := SkipWs(s);
    if t != [] && t[0] == '}' then Scanned(Object([]), t[1..])
    else ScanMembers(t, [])
  }

  /** The members of an object from the next key on; `acc` is the dict built
      so far. */
  function ScanMembers(s: string, acc: seq<Member>): (r: Scan<Value>)
    ensures r.Scanned? ==> Consumed(s, r.rest) && r.value.Object?
    decreases |s|, 2
  {
    if s == [] || s[0] != '"' then Invalid
    else
      match ScanStringBody(s[1..], [])
      case Invalid => Invalid
      case Scanned(key, t) =>
        var t := SkipWs(t);
        if t == [] || t[0] != ':' then Invalid
        else ScanMemberValue(SkipWs(t[1..]), key, acc)
  }

  /** The value of the member under `key`, stored into `acc`: a repeated key
      keeps its first position and takes the last value. */
  function ScanMemberValue(s: string, key: JString, acc: seq<Member>): (r: Scan<Value>)
    ensures r.Scanned? ==> Consumed(s, r.rest) && r.value.Object?
    decreases |s|, 1
  {
    match ScanValue(s)
    case Invalid => Invalid
    case Scanned(v, u) => AfterMember(u, Put(acc, key, v))
  }

  /** What may follow a member: `}`, or `,` and the next member. */
  function AfterMember(u: string, members: seq<Member>): (r: Scan<Value>)
    ensures r.Scanned? ==> |r.rest| < |u| && r.value.Object?
    decreases |u|, 0
  {
    var u := SkipWs(u);
    if u != [] && u[0] == '}' then Scanned(Object(members), u[1..])
    else if u == [] || u[0] != ',' then Invalid
    else ScanMembers(SkipWs(u[1..]), members)
  }

  // ---------------------------------------------------------------------
  // The two entry points.
  // ---------------------------------------------------------------------

  const ByteOrderMark: char := '\U{FEFF}'

  /** `json.loads(s)`: a leading byte order mark is refused; otherwise
      whitespace, one value, whitespace, and then the end of the input. */
  function Loads(s: string): (r: Decoded<Value>)
  {
    if s != [] && s[0] == ByteOrderMark then DecodeError
    else
      match ScanValue(SkipWs(s))
      case Invalid => DecodeError
      case Scanned(v, rest) => if SkipWs(rest) == [] then Decoded(v) else DecodeError
  }

  /** `JSONDecoder().raw_decode(s, i)`: one value starting exactly at index
      `i`, with no whitespace skipped; the index after it comes back with
      it, and whatever follows is not looked at. */
  function RawDecode(s: string, i: nat): (r: Decoded<(Value, nat)>)
    ensures r.Decoded? ==> i < r.value.1 <= |s|
  {
    if i >= |s| then DecodeError
    else
      match ScanValue(s[i..])
      case Invalid => DecodeError
      case Scanned(v, rest) => Decoded((v, |s| - |rest|))
  }
}
