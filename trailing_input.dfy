/** What follows a value does not change how the value is read, as long as
    the scanner has already decided where the value ends. That is the case
    for everything but a number at the very end of the input, whose digits
    could go on. */
module TrailingInput {
  import opened JsonValue
  import opened JsonDecoder

  /** Characters that could continue a number. */
  predicate ContinuesNumber(c: char) {
    IsDigit(c) || c == '.' || c == 'e' || c == 'E'
  }

  /** After `v`, the input `rest` settles where `v` ends. */
  predicate Settled(v: Value, rest: string) {
    (v.Int? || v.Float?) ==> rest != [] && !ContinuesNumber(rest[0])
  }

  lemma AppendSlices(x: string, t: string, k: nat)
    requires k <= |x|
    ensures (x + t)[k..] == x[k..] + t
    ensures (x + t)[..k] == x[..k]
  {
  }

  lemma StartsWithAppend(x: string, p: string, t: string)
    requires StartsWith(x, p)
    ensures StartsWith(x + t, p)
  {
    assert (x + t)[..|p|] == x[..|p|];
  }

  lemma StartsWithHead(s: string, p: string)
    requires StartsWith(s, p) && p != []
    ensures s[0] == p[0]
  {
    assert s[..|p|][0] == s[0];
  }

  lemma {:induction false} SkipWsAppend(x: string, t: string)
    requires SkipWs(x) != []
    ensures SkipWs(x + t) == SkipWs(x) + t
  {
    if IsWs(x[0]) {
      AppendSlices(x, t, 1);
      SkipWsAppend(x[1..], t);
    }
  }

  lemma {:induction false} DigitsEndAppend(x: string, t: string, i: nat)
    requires i <= |x| && DigitsEnd(x, i) < |x|
    ensures DigitsEnd(x + t, i) == DigitsEnd(x, i)
    decreases |x| - i
  {
    assert (x + t)[i] == x[i];
    if IsDigit(x[i]) {
      DigitsEndAppend(x, t, i + 1);
    }
  }

  lemma IntPartAppend(x: string, t: string)
    requires 0 < IntPartEnd(x) < |x|
    ensures IntPartEnd(x + t) == IntPartEnd(x)
  {
    var xt := x + t;
    assert xt[0] == x[0];
    var i := if x[0] == '-' then 1 else 0;
    assert xt[i] == x[i];
    if x[i] != '0' {
      DigitsEndAppend(x, t, i + 1);
    }
  }

  lemma FracAppend(x: string, t: string, n: nat)
    requires n < |x| && FracEnd(x, n) < |x|
    requires FracEnd(x, n) == n ==> x[n] != '.'
    ensures FracEnd(x + t, n) == FracEnd(x, n)
  {
    var xt := x + t;
    assert xt[n] == x[n];
    if n + 1 < |x| {
      assert xt[n + 1] == x[n + 1];
    }
    if FracEnd(x, n) > n {
      DigitsEndAppend(x, t, n + 2);
    }
  }

  lemma ExpAppend(x: string, t: string, f: nat)
    requires f < |x| && ExpEnd(x, f) < |x|
    requires ExpEnd(x, f) == f ==> x[f] != 'e' && x[f] != 'E'
    ensures ExpEnd(x + t, f) == ExpEnd(x, f)
  {
    var xt := x + t;
    assert xt[f] == x[f];
    if ExpEnd(x, f) > f {
      assert xt[f + 1] == x[f + 1];
      var d := if x[f + 1] == '+' || x[f + 1] == '-' then f + 2 else f + 1;
      DigitsEndAppend(x, t, d);
    }
  }

  lemma NumberAppend(x: string, t: string)
    requires ScanNumber(x).Scanned?
    requires Settled(ScanNumber(x).value, ScanNumber(x).rest)
    ensures ScanNumber(x + t) == Scanned(ScanNumber(x).value, ScanNumber(x).rest + t)
  {
    var n := IntPartEnd(x);
    var f := FracEnd(x, n);
    var end := ExpEnd(x, f);
    assert end < |x| && !ContinuesNumber(x[end]) by {
      assert ScanNumber(x).rest == x[end..];
    }
    IntPartAppend(x, t);
    FracAppend(x, t, n);
    ExpAppend(x, t, f);
    AppendSlices(x, t, end);
  }

  lemma {:induction false} StringBodyAppend(x: string, acc: JString, t: string)
    requires ScanStringBody(x, acc).Scanned?
    ensures ScanStringBody(x + t, acc)
         == Scanned(ScanStringBody(x, acc).value, ScanStringBody(x, acc).rest + t)
    decreases |x|
  {
    var xt := x + t;
    assert xt[0] == x[0];
    if x[0] == '"' {
      AppendSlices(x, t, 1);
    } else if x[0] == '\\' {
      assert xt[1] == x[1];
      if x[1] == 'u' {
        AppendSlices(x, t, 6);
        assert xt[2..6] == x[2..6];
        var c := HexValue(x[2..6]);
        assert c < 0x10000 by { HexValueBound(x[2..6]); assert Pow16(4) == 0x10000; }
        if IsHighSurrogate(c) && |x| == 7 {
          // a lone high surrogate can only be followed by the closing quote
          assert x[6..] == [x[6]];
          assert x[6] == '"';
        }
        if IsHighSurrogate(c) && |x| >= 8 && x[6] == '\\' && x[7] == 'u' {
          AppendSlices(x, t, 12);
          assert xt[8..12] == x[8..12];
          var c2 := HexValue(x[8..12]);
          if IsLowSurrogate(c2) {
            StringBodyAppend(x[12..], acc + [JoinSurrogates(c, c2)], t);
          } else {
            StringBodyAppend(x[6..], acc + [c], t);
          }
        } else {
          assert !(IsHighSurrogate(c) && |xt| >= 8 && xt[6] == '\\' && xt[7] == 'u');
          StringBodyAppend(x[6..], acc + [c], t);
        }
      } else {
        AppendSlices(x, t, 2);
        StringBodyAppend(x[2..], acc + [SimpleEscape(x[1])], t);
      }
    } else {
      AppendSlices(x, t, 1);
      StringBodyAppend(x[1..], acc + [x[0] as int], t);
    }
  }

  /** A literal name reads the same with anything after it. */
  lemma NameAppend(x: string, name: string, v: Value, t: string)
    requires name != [] && ScanName(x, name, v).Scanned?
    ensures ScanName(x + t, name, v) == Scanned(v, ScanName(x, name, v).rest + t)
  {
    StartsWithAppend(x, name, t);
    AppendSlices(x, t, |name|);
  }

  /** The scanner reads the same value from `x + t` as from `x`, and leaves
      `t` after what it left before. */
  lemma {:induction false} ValueAppend(x: string, t: string)
    requires ScanValue(x).Scanned?
    requires Settled(ScanValue(x).value, ScanValue(x).rest)
    ensures ScanValue(x + t) == Scanned(ScanValue(x).value, ScanValue(x).rest + t)
    decreases |x|, 0
  {
    var xt := x + t;
    assert xt[0] == x[0];
    AppendSlices(x, t, 1);
    var c := x[0];
    if c == '"' {
      StringBodyAppend(x[1..], [], t);
    } else if c == '{' {
      ObjectAppend(x[1..], t);
    } else if c == '[' {
      ArrayAppend(x[1..], t);
    } else {
      LiteralAppend(x, t);
    }
  }

  /** The same for a literal name or a number. */
  lemma LiteralAppend(x: string, t: string)
    requires x != [] && ScanLiteral(x).Scanned?
    requires Settled(ScanLiteral(x).value, ScanLiteral(x).rest)
    ensures ScanLiteral(x + t) == Scanned(ScanLiteral(x).value, ScanLiteral(x).rest + t)
  {
    var xt := x + t;
    assert xt[0] == x[0];
    var c := x[0];
    if c == 'n' {
      NameAppend(x, "null", Null, t);
    } else if c == 't' {
      NameAppend(x, "true", Bool(true), t);
    } else if c == 'f' {
      NameAppend(x, "false", Bool(false), t);
    } else if c == 'N' {
      NameAppend(x, "NaN", Constant(NaN), t);
    } else if c == 'I' {
      NameAppend(x, "Infinity", Constant(Infinity), t);
    } else if c == '-' && x[1] == 'I' {
      assert xt[1] == x[1];
      NameAppend(x, "-Infinity", Constant(NegativeInfinity), t);
    } else {
      if c == '-' {
        assert xt[1] == x[1];
      }
      NumberAppend(x, t);
    }
  }

  lemma {:induction false} ArrayAppend(x: string, t: string)
    requires ScanArray(x).Scanned?
    ensures ScanArray(x + t) == Scanned(ScanArray(x).value, ScanArray(x).rest + t)
    decreases |x|, 2
  {
    var w := SkipWs(x);
    assert w != [];
    SkipWsAppend(x, t);
    if w[0] == ']' {
      AppendSlices(w, t, 1);
    } else {
      ItemsAppend(w, [], t);
    }
  }

  /** A value followed by a separator or a closing bracket, possibly after
      whitespace, is settled. */
  lemma SettledBeforeSeparator(v: Value, u: string)
    requires SkipWs(u) != [] && SkipWs(u)[0] in ",]}:"
    ensures Settled(v, u)
  {
    if !IsWs(u[0]) {
      assert SkipWs(u) == u;
    }
  }

  lemma {:induction false} ItemsAppend(x: string, acc: seq<Value>, t: string)
    requires ScanItems(x, acc).Scanned?
    ensures ScanItems(x + t, acc) == Scanned(ScanItems(x, acc).value, ScanItems(x, acc).rest + t)
    decreases |x|, 1
  {
    var sv := ScanValue(x);
    var v, u := sv.value, sv.rest;
    assert ScanItems(x, acc) == AfterItem(u, acc + [v]);
    SettledBeforeSeparator(v, u);
    ValueAppend(x, t);
    AfterItemAppend(u, acc + [v], t);
  }

  lemma {:induction false} AfterItemAppend(u: string, items: seq<Value>, t: string)
    requires AfterItem(u, items).Scanned?
    ensures AfterItem(u + t, items) == Scanned(AfterItem(u, items).value, AfterItem(u, items).rest + t)
    decreases |u|, 0
  {
    var u' := SkipWs(u);
    SkipWsAppend(u, t);
    AppendSlices(u', t, 1);
    if u'[0] != ']' {
      var w := SkipWs(u'[1..]);
      assert w != [];
      SkipWsAppend(u'[1..], t);
      ItemsAppend(w, items, t);
    }
  }

  lemma {:induction false} ObjectAppend(x: string, t: string)
    requires ScanObject(x).Scanned?
    ensures ScanObject(x + t) == Scanned(ScanObject(x).value, ScanObject(x).rest + t)
    decreases |x|, 3
  {
    var w := SkipWs(x);
    assert w != [];
    SkipWsAppend(x, t);
    if w[0] == '}' {
      AppendSlices(w, t, 1);
    } else {
      MembersAppend(w, [], t);
    }
  }

  /** The key of a member, after its opening quote. */
  lemma KeyAppend(x: string, t: string)
    requires x != [] && x[0] == '"' && ScanStringBody(x[1..], []).Scanned?
    ensures (x + t)[0] == '"'
    ensures ScanStringBody((x + t)[1..], [])
         == Scanned(ScanStringBody(x[1..], []).value, ScanStringBody(x[1..], []).rest + t)
  {
    assert (x + t)[0] == x[0];
    AppendSlices(x, t, 1);
    StringBodyAppend(x[1..], [], t);
  }

  /** The colon between a key and its value, with the whitespace around it. */
  lemma ColonAppend(k: string, t: string)
    requires SkipWs(k) != [] && SkipWs(k)[0] == ':' && SkipWs(SkipWs(k)[1..]) != []
    ensures SkipWs(k + t) != [] && SkipWs(k + t)[0] == ':'
    ensures SkipWs(SkipWs(k + t)[1..]) == SkipWs(SkipWs(k)[1..]) + t
  {
    var k' := SkipWs(k);
    SkipWsAppend(k, t);
    AppendSlices(k', t, 1);
    SkipWsAppend(k'[1..], t);
  }

  lemma {:induction false} MembersAppend(x: string, acc: seq<Member>, t: string)
    requires ScanMembers(x, acc).Scanned?
    ensures ScanMembers(x + t, acc) == Scanned(ScanMembers(x, acc).value, ScanMembers(x, acc).rest + t)
    decreases |x|, 2
  {
    var sk := ScanStringBody(x[1..], []);
    var key, k := sk.value, sk.rest;
    KeyAppend(x, t);
    var y := SkipWs(SkipWs(k)[1..]);
    ColonAppend(k, t);
    assert ScanMembers(x, acc) == ScanMemberValue(y, key, acc);
    assert ScanMembers(x + t, acc) == ScanMemberValue(y + t, key, acc);
    MemberValueAppend(y, key, acc, t);
  }

  lemma {:induction false} MemberValueAppend(x: string, key: JString, acc: seq<Member>, t: string)
    requires ScanMemberValue(x, key, acc).Scanned?
    ensures ScanMemberValue(x + t, key, acc)
         == Scanned(ScanMemberValue(x, key, acc).value, ScanMemberValue(x, key, acc).rest + t)
    decreases |x|, 1
  {
    var sv := ScanValue(x);
    var v, u := sv.value, sv.rest;
    assert ScanMemberValue(x, key, acc) == AfterMember(u, Put(acc, key, v));
    SettledBeforeSeparator(v, u);
    ValueAppend(x, t);
    AfterMemberAppend(u, Put(acc, key, v), t);
  }

  lemma {:induction false} AfterMemberAppend(u: string, members: seq<Member>, t: string)
    requires AfterMember(u, members).Scanned?
    ensures AfterMember(u + t, members) == Scanned(AfterMember(u, members).value, AfterMember(u, members).rest + t)
    decreases |u|, 0
  {
    var u' := SkipWs(u);
    SkipWsAppend(u, t);
    AppendSlices(u', t, 1);
    if u'[0] != '}' {
      var w := SkipWs(u'[1..]);
      assert w != [];
      SkipWsAppend(u'[1..], t);
      MembersAppend(w, members, t);
    }
  }
}
