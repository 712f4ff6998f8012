/** The decoder reads back every str the encoder writes, except a str in
    which a high surrogate is immediately followed by a low one: the two
    escapes that `ensure_ascii` writes for such a pair are read back as the
    single code point they encode in UTF-16. */
module StringRoundTrip {
  import opened JsonValue
  import opened JsonDecoder
  import opened JsonEncoder

  /** No high surrogate of `s` is directly followed by a low surrogate. */
  predicate NoSurrogatePair(s: JString) {
    forall i :: 0 <= i < |s| - 1 ==> !(IsHighSurrogate(s[i]) && IsLowSurrogate(s[i + 1]))
  }

  lemma HexCharValue(d: nat)
    requires d < 16
    ensures IsHexDigit(HexChar(d)) && HexDigitValue(HexChar(d)) == d
  {
  }

  lemma Hex4Digits(n: nat)
    requires n < 0x10000
    ensures n == ((n / 0x1000 * 16 + n / 0x100 % 16) * 16 + n / 0x10 % 16) * 16 + n % 16
  {
    var a := n / 0x10;
    var b := a / 0x10;
    assert n / 0x100 == b;
    assert n / 0x1000 == b / 0x10;
  }

  /** `\uXXXX` as the encoder writes it reads back as the number it encodes. */
  lemma Hex4Value(n: nat)
    requires n < 0x10000
    ensures AllHex(Hex4(n)) && HexValue(Hex4(n)) == n
  {
    var h := Hex4(n);
    HexCharValue(n / 0x1000);
    HexCharValue(n / 0x100 % 16);
    HexCharValue(n / 0x10 % 16);
    HexCharValue(n % 16);
    assert h[..1][..0] == [];
    assert h[..2][..1] == h[..1];
    assert h[..3][..2] == h[..2];
    assert HexValue(h[..1]) == n / 0x1000;
    assert HexValue(h[..2]) == n / 0x1000 * 16 + n / 0x100 % 16;
    assert HexValue(h[..3]) == (n / 0x1000 * 16 + n / 0x100 % 16) * 16 + n / 0x10 % 16;
    Hex4Digits(n);
  }

  lemma SurrogatesJoin(c: CodePoint)
    requires c >= 0x10000
    ensures IsHighSurrogate(HighSurrogate(c)) && IsLowSurrogate(LowSurrogate(c))
    ensures JoinSurrogates(HighSurrogate(c), LowSurrogate(c)) == c
  {
  }

  /** What may follow the escape of a high surrogate without the decoder
      joining it to that surrogate: anything but `\u`, or `\u` and four
      hexadecimal digits that do not make a low surrogate. */
  predicate NoLowEscapeAhead(w: string) {
    !(|w| >= 2 && w[0] == '\\' && w[1] == 'u')
    || (|w| >= 6 && AllHex(w[2..6]) && !IsLowSurrogate(HexValue(w[2..6])))
  }

  /** A code point written as one `\uXXXX` escape. */
  lemma UnicodeEscapeStep(c: CodePoint, w: string, acc: JString)
    requires c < 0x10000
    requires IsHighSurrogate(c) ==> NoLowEscapeAhead(w)
    ensures ScanStringBody("\\u" + Hex4(c) + w, acc) == ScanStringBody(w, acc + [c])
  {
    var s := "\\u" + Hex4(c) + w;
    assert s[0] == '\\' && s[1] == 'u';
    assert s[2..6] == Hex4(c);
    Hex4Value(c);
    assert s[6..] == w;
    if |w| >= 2 {
      assert s[6] == w[0] && s[7] == w[1];
    }
    if |w| >= 6 {
      assert s[8..12] == w[2..6];
    }
  }

  /** A code point beyond U+FFFF, written as the escapes of its surrogate pair. */
  lemma PairEscapeStep(c: CodePoint, w: string, acc: JString)
    requires c >= 0x10000
    ensures ScanStringBody("\\u" + Hex4(HighSurrogate(c)) + "\\u" + Hex4(LowSurrogate(c)) + w, acc)
         == ScanStringBody(w, acc + [c])
  {
    var hi, lo := HighSurrogate(c), LowSurrogate(c);
    var s := "\\u" + Hex4(hi) + "\\u" + Hex4(lo) + w;
    SurrogatesJoin(c);
    Hex4Value(hi);
    Hex4Value(lo);
    assert s[0] == '\\' && s[1] == 'u' && s[6] == '\\' && s[7] == 'u';
    assert s[2..6] == Hex4(hi);
    assert s[8..12] == Hex4(lo);
    assert s[12..] == w;
  }

  /** The decoder reads one escaped code point and goes on after it. */
  lemma PointStep(c: CodePoint, w: string, acc: JString)
    requires IsHighSurrogate(c) ==> NoLowEscapeAhead(w)
    ensures ScanStringBody(EscapePoint(c) + w, acc) == ScanStringBody(w, acc + [c])
  {
    var s := EscapePoint(c) + w;
    if c < 0x20 || c == 0x22 || c == 0x5C || 0x7F <= c {
      if c == 0x22 || c == 0x5C || c == 0x08 || c == 0x0C || c == 0x0A || c == 0x0D || c == 0x09 {
        assert s[0] == '\\' && s[2..] == w;
        assert IsSimpleEscape(s[1]) && SimpleEscape(s[1]) == c;
      } else if c < 0x10000 {
        UnicodeEscapeStep(c, w, acc);
      } else {
        PairEscapeStep(c, w, acc);
      }
    } else {
      assert s[0] == c as char && s[1..] == w;
    }
  }

  /** The escape of anything but a low surrogate is not the escape of a
      low surrogate. */
  lemma PointHead(c: CodePoint, w: string)
    requires !IsLowSurrogate(c)
    ensures NoLowEscapeAhead(EscapePoint(c) + w)
  {
    var e := EscapePoint(c) + w;
    if c == 0x22 || c == 0x5C || c == 0x08 || c == 0x0C || c == 0x0A || c == 0x0D || c == 0x09 {
      assert e[1] != 'u';
    } else if 0x20 <= c <= 0x7E {
      assert e[0] == c as char;
    } else if c < 0x10000 {
      assert e[2..6] == Hex4(c);
      Hex4Value(c);
    } else {
      assert e[2..6] == Hex4(HighSurrogate(c));
      Hex4Value(HighSurrogate(c));
    }
  }

  /** The escapes of a str that does not start with a low surrogate never
      start with the escape of one. */
  lemma EscapeHead(s: JString, tail: string)
    requires s == [] ==> NoLowEscapeAhead(tail)
    requires s != [] ==> !IsLowSurrogate(s[0])
    ensures NoLowEscapeAhead(EscapeString(s) + tail)
  {
    if s == [] {
      assert EscapeString(s) + tail == tail;
    } else {
      assert EscapeString(s) + tail == EscapePoint(s[0]) + (EscapeString(s[1..]) + tail);
      PointHead(s[0], EscapeString(s[1..]) + tail);
    }
  }

  lemma TailNoPair(s: JString)
    requires s != [] && NoSurrogatePair(s)
    ensures NoSurrogatePair(s[1..])
  {
    forall i | 0 <= i < |s| - 2
      ensures !(IsHighSurrogate(s[1..][i]) && IsLowSurrogate(s[1..][i + 1]))
    {
      assert s[1..][i] == s[i + 1] && s[1..][i + 1] == s[i + 2];
    }
  }

  /** What follows the escape of a high surrogate in a str without pairs. */
  lemma AfterHigh(s: JString, rest: string)
    requires s != [] && NoSurrogatePair(s) && IsHighSurrogate(s[0])
    ensures NoLowEscapeAhead(EscapeString(s[1..]) + "\"" + rest)
  {
    if |s| >= 2 {
      assert !IsLowSurrogate(s[1]);
    }
    EscapeHead(s[1..], "\"" + rest);
    assert EscapeString(s[1..]) + "\"" + rest == EscapeString(s[1..]) + ("\"" + rest);
  }

  /** One code point of a str and the decoder goes on with the next. */
  lemma StringStep(s: JString, acc: JString, rest: string)
    requires s != [] && NoSurrogatePair(s)
    ensures ScanStringBody(EscapeString(s) + "\"" + rest, acc)
         == ScanStringBody(EscapeString(s[1..]) + "\"" + rest, acc + [s[0]])
  {
    var w := EscapeString(s[1..]) + "\"" + rest;
    assert EscapeString(s) + "\"" + rest == EscapePoint(s[0]) + w;
    if IsHighSurrogate(s[0]) {
      AfterHigh(s, rest);
    }
    PointStep(s[0], w, acc);
  }

  /** A quoted str reads back as the str, and the decoder goes on after the
      closing quote. */
  lemma {:induction false} StringBodyRoundTrip(s: JString, acc: JString, rest: string)
    requires NoSurrogatePair(s)
    ensures ScanStringBody(EscapeString(s) + "\"" + rest, acc) == Scanned(acc + s, rest)
  {
    if s == [] {
      assert EscapeString(s) + "\"" + rest == "\"" + rest;
      assert acc + s == acc;
    } else {
      StringStep(s, acc, rest);
      TailNoPair(s);
      StringBodyRoundTrip(s[1..], acc + [s[0]], rest);
      assert acc + [s[0]] + s[1..] == acc + s;
    }
  }
}
