/** `extract_json`: the JSON object in a model's reply, found either as the
    whole reply or as the first object embedded in surrounding text. */
module Extraction {
  import opened JsonValue
  import opened JsonDecoder
  import opened TrailingInput

  /** What `extract_json` can be handed: a dict, a str, or anything else
      (None, a number, a list, ...). A Python dict's keys are distinct;
      `extract_json` returns a dict as it is, so nothing here depends on
      that, and `JsonValue.UniqueKeys` states it where a proof needs it. */
  datatype Response = DictResponse(members: seq<Member>) | TextResponse(text: string) | OtherResponse

  /** The ValueErrors `extract_json` raises, one per message. */
  datatype Failure = EmptyOrInvalidType | MissingOpeningBrace | NotAnObject | FailedToExtract

  datatype Extracted = Extracted(value: Value) | Raised(failure: Failure)

  // ---------------------------------------------------------------------
  // The str methods it uses.
  // ---------------------------------------------------------------------

  /** `str.isspace` of one character: the characters `str.strip()` removes. */
  predicate PySpace(c: char) {
    var n := c as int;
    (0x09 <= n <= 0x0D) || (0x1C <= n <= 0x20) || n == 0x85 || n == 0xA0 || n == 0x1680
    || (0x2000 <= n <= 0x200A) || n == 0x2028 || n == 0x2029 || n == 0x202F || n == 0x205F
    || n == 0x3000
  }

  predicate Blank(s: string) {
    forall i :: 0 <= i < |s| ==> PySpace(s[i])
  }

  /** `s.lstrip()`: what is left after the leading spaces. */
  function StripStart(s: string): (r: string)
    ensures |r| <= |s| && r == s[|s| - |r|..]
    ensures r == [] || !PySpace(r[0])
    ensures forall i :: 0 <= i < |s| - |r| ==> PySpace(s[i])
  {
    if s != [] && PySpace(s[0]) then StripStart(s[1..]) else s
  }

  /** `s.rstrip()`: what is left before the trailing spaces. */
  function StripEnd(s: string): (r: string)
    ensures |r| <= |s| && r == s[..|r|]
    ensures r == [] || !PySpace(r[|r| - 1])
    ensures forall i :: |r| <= i < |s| ==> PySpace(s[i])
  {
    if s != [] && PySpace(s[|s| - 1]) then StripEnd(s[..|s| - 1]) else s
  }

  /** `s.strip()`. */
  function Strip(s: string): (r: string)
    ensures |r| <= |s|
    ensures r == [] || (!PySpace(r[0]) && !PySpace(r[|r| - 1]))
  {
    StripEnd(StripStart(s))
  }

  /** `s.strip()` is empty exactly when every character of `s` is a space. */
  lemma StripBlank(s: string)
    ensures Strip(s) == [] <==> Blank(s)
  {
    var t := StripStart(s);
    assert t != [] ==> t[0] == s[|s| - |t|];
    if Strip(s) == [] {
      assert t == [];
    }
  }

  /** `s.find(c)`: the first index of `c` in `s`, or -1. */
  function Find(s: string, c: char): (r: int)
    ensures -1 <= r < |s|
    ensures r == -1 <==> c !in s
    ensures 0 <= r ==> s[r] == c && c !in s[..r]
  {
    if s == [] then -1
    else if s[0] == c then 0
    else
      var k := Find(s[1..], c);
      if k == -1 then -1
      else
        assert s[..k + 1] == [s[0]] + s[1..][..k];
        k + 1
  }

  /** A reply made only of `str.strip()` spaces is not JSON. */
  lemma BlankNotJson(s: string)
    requires Blank(s)
    ensures Loads(s).DecodeError?
  {
    if s != [] {
      SpaceNotValue(s[0]);
    }
    var t := SkipWs(s);
    SkipWsDrops(s);
    if t != [] {
      assert t[0] == s[|s| - |t|];
      SpaceNotValue(t[0]);
    }
  }

  /** No JSON value starts with a `str.isspace` character. */
  lemma SpaceNotValue(c: char)
    requires PySpace(c)
    ensures !StartsValue(c) && c != ByteOrderMark
  {
  }

  // ---------------------------------------------------------------------
  // extract_json
  // ---------------------------------------------------------------------

  /** `extract_json(response)`. A dict comes back as it is; a str that is not
      blank is decoded whole, and when that fails the value that starts at
      its first `{` is decoded on its own, whatever follows it. */
  function ExtractJson(response: Response): (r: Extracted)
    ensures response.DictResponse? ==> r == Extracted(Object(response.members))
    ensures r == Raised(EmptyOrInvalidType)
        <==> response.OtherResponse? || (response.TextResponse? && Blank(response.text))
    ensures response.TextResponse? && Loads(response.text).Decoded?
        ==> r == Extracted(Loads(response.text).value)
    ensures r == Raised(MissingOpeningBrace)
        <==> response.TextResponse? && Loads(response.text).DecodeError?
             && !Blank(response.text) && '{' !in response.text
    ensures r != Raised(NotAnObject)
    ensures r.Extracted? && !r.value.Object? ==> response.TextResponse? && Loads(response.text).Decoded?
  {
    match response
    case DictResponse(ms) => Extracted(Object(ms))
    case OtherResponse => Raised(EmptyOrInvalidType)
    case TextResponse(s) =>
      StripBlank(s);
      if Blank(s) then BlankNotJson(s); Raised(EmptyOrInvalidType)
      else
        match Loads(s)
        case Decoded(v) => Extracted(v)
        case DecodeError => FromFirstBrace(s)
  }

  /** The value that starts at the first `{` of `s`, which has to be an object. */
  function FromFirstBrace(s: string): (r: Extracted)
    ensures r == Raised(MissingOpeningBrace) <==> '{' !in s
    ensures r.Extracted? ==> r.value.Object?
    ensures r != Raised(NotAnObject)
  {
    var start := Find(s, '{');
    if start == -1 then Raised(MissingOpeningBrace)
    else
      match RawDecode(s, start)
      case DecodeError => Raised(FailedToExtract)
      case Decoded((v, _)) =>
        assert s[start..][0] == '{';
        if v.Object? then Extracted(v) else Raised(NotAnObject)
  }

  /** The first `{` of `p + x + t` is that of `x` when `p` has none. */
  lemma FindAfter(p: string, x: string, t: string)
    requires '{' !in p && x != [] && x[0] == '{'
    ensures Find(p + x + t, '{') == |p|
    ensures (p + x + t)[|p|..] == x + t
  {
    var s := p + x + t;
    var r := Find(s, '{');
    assert s[..|p|] == p;
    assert s[|p|] == '{';
    forall k | |p| < k <= |s|
      ensures '{' in s[..k]
    {
      assert s[..k][|p|] == '{';
    }
  }

  /** An object embedded in text that is not JSON as a whole is extracted,
      whatever follows it, when no `{` comes before it. */
  lemma EmbeddedObject(p: string, x: string, t: string)
    requires '{' !in p && x != [] && x[0] == '{'
    requires ScanValue(x).Scanned? && ScanValue(x).rest == []
    requires Loads(p + x + t).DecodeError?
    ensures ScanValue(x).value.Object?
    ensures ExtractJson(TextResponse(p + x + t)) == Extracted(ScanValue(x).value)
  {
    var s := p + x + t;
    FindAfter(p, x, t);
    ValueAppend(x, t);
    assert [] + t == t;
    assert !PySpace(s[|p|]);
  }

  // ---------------------------------------------------------------------
  // An object only.
  // ---------------------------------------------------------------------

  /** `extract_json` as its docstring and its `-> dict` annotation describe
      it: JSON that is not an object as a whole is searched for an embedded
      object like any other text. */
  function ExtractObject(response: Response): (r: Extracted)
    ensures r.Extracted? ==> r.value.Object?
    ensures r != Raised(NotAnObject)
  {
    match response
    case TextResponse(s) =>
      if Blank(s) then Raised(EmptyOrInvalidType)
      else
        (match Loads(s)
         case Decoded(v) => if v.Object? then Extracted(v) else FromFirstBrace(s)
         case DecodeError => FromFirstBrace(s))
    case _ => ExtractJson(response)
  }

  /** The two agree on every reply but one that is JSON, and not an object,
      as a whole. */
  lemma ExtractAgree(response: Response)
    ensures ExtractObject(response) == ExtractJson(response)
        <==> !(response.TextResponse? && Loads(response.text).Decoded?
               && !Loads(response.text).value.Object?)
  {
    if response.TextResponse? && Blank(response.text) {
      BlankNotJson(response.text);
    }
  }
}
