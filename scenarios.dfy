/** Replies of the kinds `extract_json`'s docstring and `invoke`'s comments
    describe, taken through the model: an object on its own or inside
    prose, prose with no object, a reply that is JSON but not a dict, and a
    brace in the prose before the object.

    Each literal reply is a parameter pinned by `requires s == "..."`, and
    its facts (such as having no `{`) are stated index by index in small
    lemmas of their own: a long string literal in a proof makes the solver
    unroll it character by character wherever it appears. */
module Scenarios {
  import opened JsonValue
  import opened JsonDecoder
  import opened JsonEncoder
  import opened StringRoundTrip
  import opened ValueRoundTrip
  import opened Extraction
  import opened Invoke

  // ---------------------------------------------------------------------
  // For every value.
  // ---------------------------------------------------------------------

  /** The text `json.dumps` writes for a value, handed over on its own, is
      extracted as that value, whether or not it is an object. */
  lemma ExtractDumps(v: Value, ft: string -> string)
    requires Plain(v)
    ensures ExtractJson(TextResponse(Dumps(v, ft))) == Extracted(v)
  {
    LoadsDumps(v, ft);
  }

  /** An object's text inside prose with no `{` before it is extracted,
      whatever follows it, once the whole reply is not JSON. */
  lemma EmbeddedDumps(p: string, v: Value, t: string, ft: string -> string)
    requires '{' !in p && Plain(v) && v.Object?
    requires Loads(p + Dumps(v, ft) + t).DecodeError?
    ensures ExtractJson(TextResponse(p + Dumps(v, ft) + t)) == Extracted(v)
  {
    var x := Dumps(v, ft);
    assert x[0] == '{';
    ValueRoundTrip.ValueRoundTrip(v, ft, []);
    assert x + [] == x;
    EmbeddedObject(p, x, t);
  }

  /** A reply that is JSON as a whole but not an object reaches `.get`, and
      the AttributeError it raises is not caught. */
  lemma NonObjectRaises(v: Value, ft: string -> string)
    requires Plain(v) && !v.Object?
    ensures CleanedReply(TextResponse(Dumps(v, ft)), ft) == AttributeError
  {
    LoadsDumps(v, ft);
  }

  // ---------------------------------------------------------------------
  // The reply `invoke` is written for.
  // ---------------------------------------------------------------------

  /** `{"dsl_query": DEFAULT_MATCH_ALL_QUERY}` with prose around it: the
      object is found after the prose, and its query is written back with
      `json.dumps`'s spaces. */
  lemma EndToEnd(ft: string -> string)
    ensures var reply := "Sure! " + ("{\"dsl_query\":" + DefaultMatchAllQuery + "}") + " Hope that helps.";
      ExtractJson(TextResponse(reply)) == Extracted(Object([Member(DslQuery, MatchAllQuery)]))
      && CleanedReply(TextResponse(reply), ft) == CleanedText("{\"query\": {\"match_all\": {}}}")
  {
    EndToEndAt("Sure! ", "{\"dsl_query\":", "dsl_query", " Hope that helps.");
    MissingKeyText(ft);
  }

  lemma EndToEndAt(p: string, a: string, k: string, t: string)
    requires p == "Sure! " && a == "{\"dsl_query\":" && k == "dsl_query" && t == " Hope that helps."
    ensures ExtractJson(TextResponse(p + (a + DefaultMatchAllQuery + "}") + t))
         == Extracted(Object([Member(Points(k), MatchAllQuery)]))
    ensures Points(k) == DslQuery
  {
    var x := a + DefaultMatchAllQuery + "}";
    QueryObject(a, k);
    SureNotJson(p, x, t);
    EmbeddedObject(p, x, t);
  }

  /** `{"dsl_query":DEFAULT_MATCH_ALL_QUERY}` reads as a dict holding the
      match-all query under `dsl_query`. */
  lemma QueryObject(a: string, k: string)
    requires a == "{\"dsl_query\":" && k == "dsl_query"
    ensures var x := a + DefaultMatchAllQuery + "}";
      x[0] == '{' && ScanValue(x) == Scanned(Object([Member(Points(k), MatchAllQuery)]), [])
  {
    QueryKey(a, k);
    WrappedQuery(Points(k));
  }

  /** `DEFAULT_MATCH_ALL_QUERY` as the value of a one-member dict. */
  lemma WrappedQuery(key: JString)
    requires NoSurrogatePair(key)
    ensures ScanValue(ObjText(key, DefaultMatchAllQuery)) == Scanned(Object([Member(key, MatchAllQuery)]), [])
  {
    var x := ObjText(key, DefaultMatchAllQuery);
    DefaultQueryScan("}" + []);
    CompactObject(key, DefaultMatchAllQuery, MatchAllQuery, []);
    assert x + [] == x;
  }

  lemma QueryKey(a: string, k: string)
    requires a == "{\"dsl_query\":" && k == "dsl_query"
    ensures a + DefaultMatchAllQuery + "}" == ObjText(Points(k), DefaultMatchAllQuery)
    ensures NoSurrogatePair(Points(k))
  {
    KeyText(a, k);
    AsciiEscape(k);
  }

  /** Prose that starts with `S` and holds no `{`. */
  lemma SureNotJson(p: string, x: string, t: string)
    requires p == "Sure! "
    ensures '{' !in p && Loads(p + x + t).DecodeError?
  {
    assert (p + x + t)[0] == 'S';
    NotJsonAtS(p + x + t);
    assert p[0] != '{' && p[1] != '{' && p[2] != '{' && p[3] != '{' && p[4] != '{' && p[5] != '{';
  }

  /** A key written as it is, with the `{` before it and the `:` after it. */
  lemma KeyText(a: string, k: string)
    requires a == "{\"dsl_query\":" && k == "dsl_query"
    ensures a == "{" + ("\"" + k + "\"") + ":" && AsciiText(k)
  {
  }

  /** Text that starts with a letter no JSON value starts with is not JSON. */
  lemma NotJsonAtS(s: string)
    requires s != [] && !StartsValue(s[0]) && !IsWs(s[0]) && s[0] != ByteOrderMark
    ensures Loads(s).DecodeError?
  {
    assert SkipWs(s) == s;
  }

  // ---------------------------------------------------------------------
  // The three ways a reply that is not JSON as a whole can go.
  // ---------------------------------------------------------------------

  /** No `{`: the match-all text is written back as it is, whether the
      reply is blank or holds prose (with or without spaces around it). */
  lemma NoBraceFallsBack(s: string, ft: string -> string)
    requires Loads(s).DecodeError? && '{' !in s
    ensures !Blank(s) ==> ExtractJson(TextResponse(s)) == Raised(MissingOpeningBrace)
    ensures Blank(s) ==> ExtractJson(TextResponse(s)) == Raised(EmptyOrInvalidType)
    ensures CleanedReply(TextResponse(s), ft) == CleanedText(DefaultMatchAllQuery)
  {
  }

  /** The text from the first `{` on is not JSON: the same. */
  lemma BadObjectFallsBack(s: string, p: string, x: string, ft: string -> string)
    requires s == p + x + [] && '{' !in p && x != [] && x[0] == '{' && ScanValue(x).Invalid?
    requires Loads(s).DecodeError?
    ensures ExtractJson(TextResponse(s)) == Raised(FailedToExtract)
    ensures CleanedReply(TextResponse(s), ft) == CleanedText(DefaultMatchAllQuery)
  {
    FindAfter(p, x, []);
    assert x + [] == x;
    assert !PySpace(s[|p|]);
  }

  /** A dict without `dsl_query`, the whole reply or inside prose: the
      match-all query is written back, with `json.dumps`'s spaces, and the
      same when `extract_json` returns objects only. */
  lemma NoQueryKey(s: string, ms: seq<Member>, ft: string -> string)
    requires ExtractJson(TextResponse(s)) == Extracted(Object(ms)) && DslQuery !in Keys(ms)
    ensures CleanedReply(TextResponse(s), ft) == CleanedText("{\"query\": {\"match_all\": {}}}")
    ensures CleanedReplyObjectOnly(TextResponse(s), ft) == CleanedText("{\"query\": {\"match_all\": {}}}")
  {
    MissingKeyText(ft);
    ExtractAgree(TextResponse(s));
  }

  // ---------------------------------------------------------------------
  // Replies with no object in them.
  // ---------------------------------------------------------------------

  /** A refusal holds no `{`: the match-all text is written back as it is. */
  lemma Refusal(s: string, ft: string -> string)
    requires s == "I cannot comply."
    ensures ExtractJson(TextResponse(s)) == Raised(MissingOpeningBrace)
    ensures CleanedReply(TextResponse(s), ft) == CleanedText(DefaultMatchAllQuery)
  {
    RefusalText(s);
    assert !Blank(s);
    NoBraceFallsBack(s, ft);
  }

  lemma RefusalText(s: string)
    requires s == "I cannot comply."
    ensures Loads(s).DecodeError? && '{' !in s && !PySpace(s[0])
  {
    assert SkipWs(s) == s;
    DispatchLiteral(s);
    assert s[..8][1] == ' ';
    RefusalNoBrace(s);
  }

  lemma RefusalNoBrace(s: string)
    requires s == "I cannot comply."
    ensures '{' !in s
  {
    assert s[0] != '{' && s[1] != '{' && s[2] != '{' && s[3] != '{' && s[4] != '{' && s[5] != '{'
      && s[6] != '{' && s[7] != '{' && s[8] != '{' && s[9] != '{' && s[10] != '{' && s[11] != '{'
      && s[12] != '{' && s[13] != '{' && s[14] != '{' && s[15] != '{';
  }

  /** Prose that starts like `null` but is not. */
  lemma NoJson(s: string, ft: string -> string)
    requires s == "no json here"
    ensures ExtractJson(TextResponse(s)) == Raised(MissingOpeningBrace)
    ensures CleanedReply(TextResponse(s), ft) == CleanedText(DefaultMatchAllQuery)
  {
    NoJsonText(s);
    assert !Blank(s);
    NoBraceFallsBack(s, ft);
  }

  lemma NoJsonText(s: string)
    requires s == "no json here"
    ensures Loads(s).DecodeError? && '{' !in s && !PySpace(s[0])
  {
    assert SkipWs(s) == s;
    DispatchLiteral(s);
    assert s[..4][1] == 'o';
    NoJsonNoBrace(s);
  }

  lemma NoJsonNoBrace(s: string)
    requires s == "no json here"
    ensures '{' !in s
  {
    assert s[0] != '{' && s[1] != '{' && s[2] != '{' && s[3] != '{' && s[4] != '{' && s[5] != '{'
      && s[6] != '{' && s[7] != '{' && s[8] != '{' && s[9] != '{' && s[10] != '{' && s[11] != '{';
  }

  // ---------------------------------------------------------------------
  // A malformed object, and a brace before the object.
  // ---------------------------------------------------------------------

  /** The text from the first `{` is not JSON: the decode error is raised
      as a ValueError and the match-all text is written back. */
  lemma Malformed(s: string, ft: string -> string)
    requires s == "prefix {\"a\": }"
    ensures ExtractJson(TextResponse(s)) == Raised(FailedToExtract)
    ensures CleanedReply(TextResponse(s), ft) == CleanedText(DefaultMatchAllQuery)
  {
    var p, x := "prefix ", "{\"a\": }";
    MalformedText(s, p, x);
    NotJsonAtS(s);
    MissingValue(x);
    BadObjectFallsBack(s, p, x, ft);
  }

  lemma MalformedText(s: string, p: string, x: string)
    requires s == "prefix {\"a\": }" && p == "prefix " && x == "{\"a\": }"
    ensures s == p + x + [] && '{' !in p && s[0] == 'p' && x != [] && x[0] == '{'
  {
    assert p[0] != '{' && p[1] != '{' && p[2] != '{' && p[3] != '{' && p[4] != '{' && p[5] != '{' && p[6] != '{';
  }

  /** `{"a": }`: a key and a colon, and no value. */
  lemma MissingValue(x: string)
    requires x == "{\"a\": }"
    ensures ScanValue(x).Invalid?
  {
    var b := x[2..];
    assert b[0] == 'a' && b[1..] == x[3..] && x[3] == '"';
    assert ScanStringBody(x[3..], [b[0] as int]) == Scanned([b[0] as int], x[4..]);
    assert [] + [b[0] as int] == [b[0] as int];
    assert ScanStringBody(b, []) == Scanned([b[0] as int], x[4..]);
    assert x[1..][1..] == b;
    assert x[4..][1..] == x[5..] && x[5..][1..] == x[6..];
    assert SkipWs(x[5..]) == x[6..];
    DispatchLiteral(x[6..]);
    assert ScanValue(x[6..]).Invalid?;
    assert ScanMembers(x[1..], []).Invalid?;
  }

  /** A `{` in the prose before the object: the decode starts there and
      fails, although a valid object follows. */
  lemma BraceInProse(s: string, ft: string -> string)
    requires s == "see {this} {\"real\": 1}"
    ensures ExtractJson(TextResponse(s)) == Raised(FailedToExtract)
    ensures CleanedReply(TextResponse(s), ft) == CleanedText(DefaultMatchAllQuery)
    ensures RawDecode(s, 11) == Decoded((Object([Member(Points("real"), Int(1))]), |s|))
  {
    ProseFallsBack(s, "see ", "{this} {\"real\": 1}", ft);
    RealFollows(s, "{\"real\": 1}", "real");
  }

  lemma ProseFallsBack(s: string, p: string, x: string, ft: string -> string)
    requires s == "see {this} {\"real\": 1}" && p == "see " && x == "{this} {\"real\": 1}"
    ensures ExtractJson(TextResponse(s)) == Raised(FailedToExtract)
    ensures CleanedReply(TextResponse(s), ft) == CleanedText(DefaultMatchAllQuery)
  {
    ProseBraceText(s, p, x);
    NotJsonAtS(s);
    assert ScanObject(x[1..]).Invalid?;
    BadObjectFallsBack(s, p, x, ft);
  }

  lemma ProseBraceText(s: string, p: string, x: string)
    requires s == "see {this} {\"real\": 1}" && p == "see " && x == "{this} {\"real\": 1}"
    ensures s == p + x + [] && '{' !in p && s[0] == 's'
    ensures x[0] == '{' && x[1] == 't'
  {
    assert p[0] != '{' && p[1] != '{' && p[2] != '{' && p[3] != '{';
  }

  /** The object after the `{` in the prose. */
  lemma RealFollows(s: string, y: string, r: string)
    requires s == "see {this} {\"real\": 1}" && y == "{\"real\": 1}" && r == "real"
    ensures RawDecode(s, 11) == Decoded((Object([Member(Points(r), Int(1))]), |s|))
  {
    assert s[11..] == y;
    RealObject(y, r);
  }

  /** `{"real": 1}`, the text `json.dumps` writes for that dict. */
  lemma RealObject(y: string, r: string)
    requires y == "{\"real\": 1}" && r == "real"
    ensures ScanValue(y) == Scanned(Object([Member(Points(r), Int(1))]), [])
  {
    var ft: string -> string := lexeme => lexeme;
    var v := Object([Member(Points(r), Int(1))]);
    RealText(y, r);
    AsciiEscape(r);
    DumpsSingle(Points(r), Int(1), ft);
    SingleUnique(Points(r), Int(1));
    assert IntText(1) == "1";
    ValueRoundTrip.ValueRoundTrip(v, ft, []);
    assert y + [] == y;
  }

  lemma RealText(y: string, r: string)
    requires y == "{\"real\": 1}" && r == "real"
    ensures y == "{" + ("\"" + r + "\"") + ": " + "1" + "}" && AsciiText(r)
  {
  }

  // ---------------------------------------------------------------------
  // An object without `dsl_query`.
  // ---------------------------------------------------------------------

  /** The match-all query is written back, with `json.dumps`'s spaces. */
  lemma MissingKey(s: string, ft: string -> string)
    requires s == "{\"other_key\":1}"
    ensures ExtractJson(TextResponse(s)) == Extracted(Object([Member(Points("other_key"), Int(1))]))
    ensures CleanedReply(TextResponse(s), ft) == CleanedText("{\"query\": {\"match_all\": {}}}")
  {
    MissingKeyAt(s, "other_key", ft);
  }

  lemma MissingKeyAt(s: string, k: string, ft: string -> string)
    requires s == "{\"other_key\":1}" && k == "other_key"
    ensures ExtractJson(TextResponse(s)) == Extracted(Object([Member(Points(k), Int(1))]))
    ensures CleanedReply(TextResponse(s), ft) == CleanedText("{\"query\": {\"match_all\": {}}}")
  {
    OtherKeyLoads(s, k);
    OtherKeyNotQuery(k);
    NoQueryKey(s, [Member(Points(k), Int(1))], ft);
  }

  lemma OtherKeyNotQuery(k: string)
    requires k == "other_key"
    ensures DslQuery !in Keys([Member(Points(k), Int(1))])
  {
    assert Points(k)[0] != DslQuery[0];
  }

  lemma OtherKeyLoads(s: string, k: string)
    requires s == "{\"other_key\":1}" && k == "other_key"
    ensures Loads(s) == Decoded(Object([Member(Points(k), Int(1))]))
  {
    OtherKeyText(s, k);
    AsciiEscape(k);
    assert s == ObjText(Points(k), "1");
    assert IntText(1) == "1";
    IntValueRoundTrip(1, "}" + []);
    CompactObject(Points(k), "1", Int(1), []);
    assert s + [] == s;
    assert SkipWs(s) == s;
  }

  lemma OtherKeyText(s: string, k: string)
    requires s == "{\"other_key\":1}" && k == "other_key"
    ensures s == "{" + ("\"" + k + "\"") + ":" + "1" + "}" && AsciiText(k)
  {
  }

  // ---------------------------------------------------------------------
  // A reply that is a JSON list.
  // ---------------------------------------------------------------------

  /** `[1,2,3]` is JSON as a whole, so `extract_json` returns the list and
      `invoke` fails on `.get`; returning objects only, the match-all text
      would be written back. */
  lemma ListReply(s: string, ft: string -> string)
    requires s == "[1,2,3]"
    ensures ExtractJson(TextResponse(s)) == Extracted(Array([Int(1), Int(2), Int(3)]))
    ensures CleanedReply(TextResponse(s), ft) == AttributeError
    ensures CleanedReplyObjectOnly(TextResponse(s), ft) == CleanedText(DefaultMatchAllQuery)
  {
    ListLoads(s);
    NotObjectReply(s, Array([Int(1), Int(2), Int(3)]), ft);
  }

  /** JSON that is not an object, with no `{` in it. */
  lemma NotObjectReply(s: string, v: Value, ft: string -> string)
    requires Loads(s) == Decoded(v) && !v.Object? && '{' !in s
    ensures ExtractJson(TextResponse(s)) == Extracted(v)
    ensures CleanedReply(TextResponse(s), ft) == AttributeError
    ensures CleanedReplyObjectOnly(TextResponse(s), ft) == CleanedText(DefaultMatchAllQuery)
  {
    CleanedAgree(TextResponse(s), ft);
  }

  lemma ListLoads(s: string)
    requires s == "[1,2,3]"
    ensures Loads(s) == Decoded(Array([Int(1), Int(2), Int(3)]))
  {
    ListText(s);
    OpenArray(s[1..]);
    ListItems(s[1..], s[3..], s[5..]);
  }

  lemma ListText(s: string)
    requires s == "[1,2,3]"
    ensures s[5..] == "3" + ("]" + []) && s[3..] == "2" + ("," + s[5..]) && s[1..] == "1" + ("," + s[3..])
    ensures s == "[" + s[1..] && SkipWs(s) == s && s[1] == '1' && '{' !in s
  {
    assert s[0] != '{' && s[1] != '{' && s[2] != '{' && s[3] != '{' && s[4] != '{' && s[5] != '{' && s[6] != '{';
  }

  /** `1,2,3]`: three elements and the closing bracket. */
  lemma ListItems(u1: string, u2: string, u3: string)
    requires u3 == "3" + ("]" + []) && u2 == "2" + ("," + u3) && u1 == "1" + ("," + u2)
    ensures ScanItems(u1, []) == Scanned(Array([Int(1), Int(2), Int(3)]), [])
  {
    assert ("," + u2)[1..] == u2 && ("," + u3)[1..] == u3;
    assert [] + [Int(1)] == [Int(1)] && [Int(1)] + [Int(2)] == [Int(1), Int(2)];
    assert [Int(1), Int(2)] + [Int(3)] == [Int(1), Int(2), Int(3)];
    IntItem(u1, 1, "," + u2, []);
    IntItem(u2, 2, "," + u3, [Int(1)]);
    IntItem(u3, 3, "]" + [], [Int(1), Int(2)]);
    CloseItems([], [Int(1), Int(2), Int(3)]);
  }

  /** An integer element, then what follows it. */
  lemma IntItem(u: string, n: int, w: string, acc: seq<Value>)
    requires 0 <= n < 10 && u == [DigitChar(n)] + w && w != [] && w[0] != '.' && w[0] != 'e' && w[0] != 'E'
    requires w[0] == ']' || (w[0] == ',' && |w| > 1 && !IsWs(w[1]))
    ensures ScanItems(u, acc) == AfterItem(w, acc + [Int(n)])
    ensures w[0] == ',' ==> AfterItem(w, acc + [Int(n)]) == ScanItems(w[1..], acc + [Int(n)])
  {
    assert IntText(n) == [DigitChar(n)];
    IntValueRoundTrip(n, w);
  }
}
