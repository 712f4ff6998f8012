/** `json.loads(json.dumps(v)) == v` for every value whose text the encoder
    determines without the float conversion: no floats, dicts with unique
    keys, and no str holding a high surrogate directly followed by a low
    one. */
module ValueRoundTrip {
  import opened JsonValue
  import opened JsonDecoder
  import opened JsonEncoder
  import opened StringRoundTrip
  import opened TrailingInput

  /** The values the round trip is about. */
  predicate Plain(v: Value)
    decreases v
  {
    match v
    case Float(_) => false
    case Str(s) => NoSurrogatePair(s)
    case Array(items) => forall i :: 0 <= i < |items| ==> Plain(items[i])
    case Object(ms) =>
      UniqueKeys(ms) && forall i :: 0 <= i < |ms| ==> NoSurrogatePair(ms[i].key) && Plain(ms[i].value)
    case _ => true
  }

  /** What follows an integer cannot make it longer. */
  predicate EndsAfter(v: Value, rest: string) {
    v.Int? ==> rest == [] || !ContinuesNumber(rest[0])
  }

  // ---------------------------------------------------------------------
  // Integers.
  // ---------------------------------------------------------------------

  /** The decimal digits of `n` have no leading zero and read back as `n`. */
  lemma {:induction false} DecimalValue(n: nat)
    ensures forall i :: 0 <= i < |Decimal(n)| ==> IsDigit(Decimal(n)[i])
    ensures Decimal(n)[0] == '0' ==> n == 0
    ensures DigitsValue(Decimal(n)) == n
  {
    if n >= 10 {
      var ds := Decimal(n / 10);
      DecimalValue(n / 10);
      assert (ds + [DigitChar(n % 10)])[..|ds|] == ds;
      assert Decimal(n)[0] == ds[0];
    } else {
      assert [DigitChar(n)][..0] == [];
    }
  }

  lemma {:induction false} DigitsEndAt(x: string, i: nat, j: nat)
    requires i <= j <= |x|
    requires forall k :: i <= k < j ==> IsDigit(x[k])
    requires j == |x| || !IsDigit(x[j])
    ensures DigitsEnd(x, i) == j
    decreases j - i
  {
    if i < j {
      DigitsEndAt(x, i + 1, j);
    }
  }

  lemma IntTextShape(i: int)
    ensures var t := IntText(i); var sign := if i < 0 then 1 else 0;
      |t| > sign && (t[0] == '-' <==> i < 0)
      && (forall k :: sign <= k < |t| ==> IsDigit(t[k]))
      && (t[sign] == '0' ==> |t| == sign + 1)
      && IntegerValue(t) == i
  {
    var n := if i < 0 then 0 - i else i;
    DecimalValue(n);
    var ds := Decimal(n);
    if n == 0 {
      assert |ds| == 1;
    }
    if i < 0 {
      assert IntText(i)[1..] == ds;
    }
  }

  lemma IntRoundTrip(i: int, rest: string)
    requires rest == [] || !ContinuesNumber(rest[0])
    ensures ScanNumber(IntText(i) + rest) == Scanned(Int(i), rest)
  {
    var t := IntText(i);
    var x := t + rest;
    var sign := if i < 0 then 1 else 0;
    IntTextShape(i);
    assert x[0] == t[0] && x[sign] == t[sign];
    if t[sign] != '0' {
      forall k | sign + 1 <= k < |t| ensures IsDigit(x[k]) {
        assert x[k] == t[k];
      }
      if rest != [] {
        assert x[|t|] == rest[0];
      }
      DigitsEndAt(x, sign + 1, |t|);
    }
    assert IntPartEnd(x) == |t|;
    if rest != [] {
      assert x[|t|] == rest[0];
    }
    assert ExpEnd(x, FracEnd(x, |t|)) == |t|;
    assert x[..|t|] == t && x[|t|..] == rest;
  }

  /** Text that starts with a digit, or with `-` and a digit, is a number. */
  lemma DispatchNumber(x: string)
    requires x != [] && (IsDigit(x[0]) || (|x| >= 2 && x[0] == '-' && IsDigit(x[1])))
    ensures ScanValue(x) == ScanNumber(x)
  {
    DispatchLiteral(x);
    assert x[0] != 'n' && x[0] != 't' && x[0] != 'f' && x[0] != 'N' && x[0] != 'I';
    assert !(x[0] == '-' && 1 < |x| && x[1] == 'I');
  }

  lemma DispatchLiteral(x: string)
    requires x != [] && x[0] != '"' && x[0] != '{' && x[0] != '['
    ensures ScanValue(x) == ScanLiteral(x)
  {
  }

  lemma IntValueRoundTrip(i: int, rest: string)
    requires rest == [] || !ContinuesNumber(rest[0])
    ensures ScanValue(IntText(i) + rest) == Scanned(Int(i), rest)
  {
    var t := IntText(i);
    var x := t + rest;
    IntTextShape(i);
    IntRoundTrip(i, rest);
    assert x[0] == t[0];
    if i < 0 {
      assert x[1] == t[1];
    }
    DispatchNumber(x);
  }

  // ---------------------------------------------------------------------
  // Values.
  // ---------------------------------------------------------------------

  /** The text of a value starts with the character the decoder dispatches on. */
  lemma DumpsHead(v: Value, ft: string -> string)
    requires Plain(v)
    ensures Dumps(v, ft) != [] && StartsValue(Dumps(v, ft)[0])
    ensures !IsWs(Dumps(v, ft)[0]) && Dumps(v, ft)[0] != ByteOrderMark && Dumps(v, ft)[0] != ']'
  {
    match v
    case Int(i) => IntTextShape(i);
    case Array(items) => if items != [] { assert Dumps(v, ft)[0] == '['; }
    case Object(ms) => if ms != [] { assert Dumps(v, ft)[0] == '{'; }
    case _ =>
  }

  lemma SkipSpace(y: string)
    requires y != [] && !IsWs(y[0])
    ensures SkipWs(" " + y) == y
  {
    assert (" " + y)[1..] == y;
  }

  lemma NamedRoundTrip(v: Value, ft: string -> string, rest: string)
    requires v.Null? || v.Bool? || v.Constant?
    ensures ScanValue(Dumps(v, ft) + rest) == Scanned(v, rest)
  {
    var t := Dumps(v, ft);
    var x := t + rest;
    assert x[0] == t[0];
    DispatchLiteral(x);
    NameRead(t, v, rest);
    match v
    case Null => assert ScanLiteral(x) == ScanName(x, "null", Null);
    case Bool(b) =>
      if b {
        assert ScanLiteral(x) == ScanName(x, "true", Bool(true));
      } else {
        assert ScanLiteral(x) == ScanName(x, "false", Bool(false));
      }
    case Constant(c) =>
      match c
      case NaN => assert ScanLiteral(x) == ScanName(x, "NaN", Constant(NaN));
      case Infinity => assert ScanLiteral(x) == ScanName(x, "Infinity", Constant(Infinity));
      case NegativeInfinity =>
        assert x[1] == t[1];
        assert ScanLiteral(x) == ScanName(x, "-Infinity", Constant(NegativeInfinity));
  }

  lemma NameRead(name: string, v: Value, rest: string)
    requires name != []
    ensures ScanName(name + rest, name, v) == Scanned(v, rest)
  {
    assert (name + rest)[..|name|] == name;
    assert (name + rest)[|name|..] == rest;
  }

  lemma StrRoundTrip(s: JString, ft: string -> string, rest: string)
    requires NoSurrogatePair(s)
    ensures ScanValue(Dumps(Str(s), ft) + rest) == Scanned(Str(s), rest)
  {
    var x := Dumps(Str(s), ft) + rest;
    assert x[1..] == EscapeString(s) + "\"" + rest;
    StringBodyRoundTrip(s, [], rest);
    assert [] + s == s;
  }

  // The decoder's steps through an array or an object, one lemma each.

  lemma OpenArray(y: string)
    requires y != [] && !IsWs(y[0]) && y[0] != ']'
    ensures ScanValue("[" + y) == ScanItems(y, [])
  {
    assert ("[" + y)[1..] == y;
  }

  lemma EmptyArray(rest: string)
    ensures ScanValue("[]" + rest) == Scanned(Array([]), rest)
  {
    assert ("[]" + rest)[1..] == "]" + rest;
    assert ("]" + rest)[1..] == rest;
  }

  lemma CloseItems(rest: string, items: seq<Value>)
    ensures AfterItem("]" + rest, items) == Scanned(Array(items), rest)
  {
    assert ("]" + rest)[1..] == rest;
  }

  lemma NextItem(y: string, items: seq<Value>)
    requires y != [] && !IsWs(y[0])
    ensures AfterItem(", " + y, items) == ScanItems(y, items)
  {
    assert (", " + y)[1..] == " " + y;
    SkipSpace(y);
  }

  lemma OpenObject(y: string)
    requires y != [] && y[0] == '"'
    ensures ScanValue("{" + y) == ScanMembers(y, [])
  {
    assert ("{" + y)[1..] == y;
  }

  lemma EmptyObject(rest: string)
    ensures ScanValue("{}" + rest) == Scanned(Object([]), rest)
  {
    assert ("{}" + rest)[1..] == "}" + rest;
    assert ("}" + rest)[1..] == rest;
  }

  lemma CloseMembers(rest: string, ms: seq<Member>)
    ensures AfterMember("}" + rest, ms) == Scanned(Object(ms), rest)
  {
    assert ("}" + rest)[1..] == rest;
  }

  lemma NextMember(y: string, ms: seq<Member>)
    requires y != [] && y[0] == '"'
    ensures AfterMember(", " + y, ms) == ScanMembers(y, ms)
  {
    assert (", " + y)[1..] == " " + y;
    SkipSpace(y);
  }

  lemma ColonStep(y: string)
    requires y != [] && !IsWs(y[0])
    ensures SkipWs(": " + y) == ": " + y
    ensures SkipWs((": " + y)[1..]) == y
  {
    assert (": " + y)[1..] == " " + y;
    SkipSpace(y);
  }

  lemma KeyStep(key: JString, y: string, acc: seq<Member>)
    requires NoSurrogatePair(key) && y != [] && !IsWs(y[0])
    ensures ScanMembers(Quote(key) + ": " + y, acc) == ScanMemberValue(y, key, acc)
  {
    var x := Quote(key) + ": " + y;
    assert x[1..] == EscapeString(key) + "\"" + (": " + y);
    StringBodyRoundTrip(key, [], ": " + y);
    assert [] + key == key;
    KeyColon(x, key, y, acc);
  }

  /** A key read, then `: ` and the value. */
  lemma KeyColon(x: string, key: JString, y: string, acc: seq<Member>)
    requires x != [] && x[0] == '"' && ScanStringBody(x[1..], []) == Scanned(key, ": " + y)
    requires y != [] && !IsWs(y[0])
    ensures ScanMembers(x, acc) == ScanMemberValue(y, key, acc)
  {
    ColonStep(y);
  }

  /** The decoder reads the text of a value back as the value and goes on
      after it. */
  lemma {:induction false} ValueRoundTrip(v: Value, ft: string -> string, rest: string)
    requires Plain(v) && EndsAfter(v, rest)
    ensures ScanValue(Dumps(v, ft) + rest) == Scanned(v, rest)
    decreases v, 2
  {
    match v
    case Int(i) => IntValueRoundTrip(i, rest);
    case Str(s) => StrRoundTrip(s, ft, rest);
    case Array(items) => ArrayRoundTrip(items, ft, rest);
    case Object(ms) => ObjectRoundTrip(ms, ft, rest);
    case _ => NamedRoundTrip(v, ft, rest);
  }

  lemma {:induction false} ArrayRoundTrip(items: seq<Value>, ft: string -> string, rest: string)
    requires forall i :: 0 <= i < |items| ==> Plain(items[i])
    ensures ScanValue(Dumps(Array(items), ft) + rest) == Scanned(Array(items), rest)
    decreases items, 2
  {
    if items == [] {
      EmptyArray(rest);
    } else {
      assert [] + items == items;
      var y := DumpsItems(items, ft) + "]" + rest;
      assert Dumps(Array(items), ft) + rest == "[" + y;
      DumpsHead(items[0], ft);
      assert y[0] == Dumps(items[0], ft)[0];
      OpenArray(y);
      ItemsRoundTrip(items, [], ft, rest);
    }
  }

  /** The text after the first element of a non-empty list. */
  function ItemsTail(items: seq<Value>, ft: string -> string, rest: string): string
    requires items != []
  {
    if |items| == 1 then "]" + rest else ", " + (DumpsItems(items[1..], ft) + "]" + rest)
  }

  lemma {:induction false} ItemsRoundTrip(items: seq<Value>, acc: seq<Value>, ft: string -> string, rest: string)
    requires items != [] && forall i :: 0 <= i < |items| ==> Plain(items[i])
    ensures ScanItems(DumpsItems(items, ft) + "]" + rest, acc) == Scanned(Array(acc + items), rest)
    decreases items, 1
  {
    var acc' := acc + [items[0]];
    if |items| == 1 {
      assert acc' == acc + items;
      ItemStep(items, acc, ft, rest);
      CloseItems(rest, acc');
    } else {
      assert acc' + items[1..] == acc + items;
      var y := DumpsItems(items[1..], ft) + "]" + rest;
      DumpsHead(items[1], ft);
      assert y[0] == Dumps(items[1], ft)[0];
      ItemStep(items, acc, ft, rest);
      NextItem(y, acc');
      ItemsRoundTrip(items[1..], acc', ft, rest);
    }
  }

  /** The first element of a list, up to the separator after it. */
  lemma {:induction false} ItemStep(items: seq<Value>, acc: seq<Value>, ft: string -> string, rest: string)
    requires items != [] && forall i :: 0 <= i < |items| ==> Plain(items[i])
    ensures ScanItems(DumpsItems(items, ft) + "]" + rest, acc)
         == AfterItem(ItemsTail(items, ft, rest), acc + [items[0]])
    decreases items, 0
  {
    var v := items[0];
    var u := ItemsTail(items, ft, rest);
    assert DumpsItems(items, ft) + "]" + rest == Dumps(v, ft) + u;
    ValueRoundTrip(v, ft, u);
  }

  lemma {:induction false} ObjectRoundTrip(ms: seq<Member>, ft: string -> string, rest: string)
    requires UniqueKeys(ms)
    requires forall i :: 0 <= i < |ms| ==> NoSurrogatePair(ms[i].key) && Plain(ms[i].value)
    ensures ScanValue(Dumps(Object(ms), ft) + rest) == Scanned(Object(ms), rest)
    decreases ms, 3
  {
    if ms == [] {
      EmptyObject(rest);
    } else {
      var y := DumpsMembers(ms, ft) + "}" + rest;
      assert Dumps(Object(ms), ft) + rest == "{" + y;
      assert y[0] == '"';
      OpenObject(y);
      assert [] + ms == ms;
      UniqueFresh([], ms);
      MembersRoundTrip(ms, [], ft, rest);
    }
  }

  /** Each key of `ms` is new when the decoder stores it after `acc`. */
  predicate FreshKeys(acc: seq<Member>, ms: seq<Member>)
    decreases |ms|
  {
    ms == [] || (ms[0].key !in Keys(acc) && FreshKeys(acc + [ms[0]], ms[1..]))
  }

  /** A key that is not among the earlier keys of a dict with unique keys. */
  lemma NextKeyFresh(acc: seq<Member>, ms: seq<Member>)
    requires ms != [] && UniqueKeys(acc + ms)
    ensures ms[0].key !in Keys(acc)
    ensures UniqueKeys(acc + [ms[0]] + ms[1..])
  {
    var all := acc + ms;
    forall i | 0 <= i < |acc| ensures Keys(acc)[i] != ms[0].key {
      assert all[i] == acc[i] && all[|acc|] == ms[0];
    }
    assert acc + [ms[0]] + ms[1..] == all;
  }

  lemma {:induction false} UniqueFresh(acc: seq<Member>, ms: seq<Member>)
    requires UniqueKeys(acc + ms)
    ensures FreshKeys(acc, ms)
    decreases |ms|
  {
    if ms != [] {
      NextKeyFresh(acc, ms);
      UniqueFresh(acc + [ms[0]], ms[1..]);
    }
  }

  /** The text after the first member of a non-empty dict. */
  function MembersTail(ms: seq<Member>, ft: string -> string, rest: string): string
    requires ms != []
  {
    if |ms| == 1 then "}" + rest else ", " + (DumpsMembers(ms[1..], ft) + "}" + rest)
  }

  lemma {:induction false} MembersRoundTrip(ms: seq<Member>, acc: seq<Member>, ft: string -> string, rest: string)
    requires ms != [] && FreshKeys(acc, ms)
    requires forall i :: 0 <= i < |ms| ==> NoSurrogatePair(ms[i].key) && Plain(ms[i].value)
    ensures ScanMembers(DumpsMembers(ms, ft) + "}" + rest, acc) == Scanned(Object(acc + ms), rest)
    decreases ms, 2
  {
    var acc' := acc + [ms[0]];
    if |ms| == 1 {
      assert acc' == acc + ms;
      MemberStep(ms, acc, ft, rest);
      CloseMembers(rest, acc');
    } else {
      assert acc' + ms[1..] == acc + ms;
      var y := DumpsMembers(ms[1..], ft) + "}" + rest;
      assert y[0] == '"';
      MemberStep(ms, acc, ft, rest);
      NextMember(y, acc');
      MembersRoundTrip(ms[1..], acc', ft, rest);
    }
  }

  /** The first member of a dict, up to the separator after it. */
  lemma {:induction false} MemberStep(ms: seq<Member>, acc: seq<Member>, ft: string -> string, rest: string)
    requires ms != [] && ms[0].key !in Keys(acc)
    requires NoSurrogatePair(ms[0].key) && Plain(ms[0].value)
    ensures ScanMembers(DumpsMembers(ms, ft) + "}" + rest, acc)
         == AfterMember(MembersTail(ms, ft, rest), acc + [ms[0]])
    decreases ms, 1
  {
    var key, v := ms[0].key, ms[0].value;
    var y := Dumps(v, ft) + MembersTail(ms, ft, rest);
    MemberText(ms, ft, rest);
    DumpsHead(v, ft);
    assert y[0] == Dumps(v, ft)[0];
    KeyStep(key, y, acc);
    MemberValueStep(ms, acc, ft, rest);
  }

  /** The text of a dict's members, split after the first key. */
  lemma MemberText(ms: seq<Member>, ft: string -> string, rest: string)
    requires ms != []
    ensures DumpsMembers(ms, ft) + "}" + rest
         == Quote(ms[0].key) + ": " + (Dumps(ms[0].value, ft) + MembersTail(ms, ft, rest))
  {
  }

  lemma {:induction false} MemberValueStep(ms: seq<Member>, acc: seq<Member>, ft: string -> string, rest: string)
    requires ms != [] && ms[0].key !in Keys(acc) && Plain(ms[0].value)
    ensures ScanMemberValue(Dumps(ms[0].value, ft) + MembersTail(ms, ft, rest), ms[0].key, acc)
         == AfterMember(MembersTail(ms, ft, rest), acc + [ms[0]])
    decreases ms, 0
  {
    ValueRoundTrip(ms[0].value, ft, MembersTail(ms, ft, rest));
    PutFresh(acc, ms[0].key, ms[0].value);
  }

  /** `json.loads(json.dumps(v)) == v`. */
  lemma LoadsDumps(v: Value, ft: string -> string)
    requires Plain(v)
    ensures Loads(Dumps(v, ft)) == Decoded(v)
  {
    var t := Dumps(v, ft);
    DumpsHead(v, ft);
    ValueRoundTrip(v, ft, []);
    assert t + [] == t;
  }
}
