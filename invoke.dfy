/** What `invoke` writes back in place of the model's reply: the `dsl_query`
    of the extracted object encoded again, the match-all query when the
    object has none, and the match-all text itself when extraction fails. */
module Invoke {
  import opened JsonValue
  import opened JsonDecoder
  import opened JsonEncoder
  import opened StringRoundTrip
  import opened ValueRoundTrip
  import opened Extraction

  /** `DEFAULT_MATCH_ALL_QUERY`. */
  const DefaultMatchAllQuery: string := "{\"query\":{\"match_all\":{}}}"

  /** The key looked up in the extracted object. */
  const DslQuery: JString := Points("dsl_query")

  /** The value `DEFAULT_MATCH_ALL_QUERY` denotes. */
  const MatchAllQuery: Value :=
    Object([Member(Points("query"), Object([Member(Points("match_all"), Object([]))]))])

  /** What comes of the reply: the text written back, or the AttributeError
      that `.get` raises on a value that is not a dict, which nothing catches. */
  datatype Cleaned = CleanedText(text: string) | AttributeError

  /** The query that the text written back is meant to hold. */
  function SelectedQuery(ms: seq<Member>): (q: Value)
    ensures Get(ms, DslQuery).Some? ==> q == Get(ms, DslQuery).value
    ensures DslQuery !in Keys(ms) ==> q == MatchAllQuery
  {
    match Get(ms, DslQuery)
    case Some(q) => q
    case None => MatchAllQuery
  }

  /** The `try` block of `invoke` after `extract_json`: `.get("dsl_query",
      json.loads(DEFAULT_MATCH_ALL_QUERY))`, then `json.dumps`; a ValueError
      of `extract_json` gives `DEFAULT_MATCH_ALL_QUERY` unchanged. `.get` is
      looked up before its default is decoded. */
  function CleanedJsonString(extracted: Extracted, floatText: string -> string): (r: Cleaned)
    ensures r.AttributeError? <==> extracted.Extracted? && !extracted.value.Object?
    ensures extracted.Raised? ==> r == CleanedText(DefaultMatchAllQuery)
    ensures extracted.Extracted? && extracted.value.Object?
        ==> r == CleanedText(Dumps(SelectedQuery(extracted.value.members), floatText))
  {
    match extracted
    case Raised(_) => CleanedText(DefaultMatchAllQuery)
    case Extracted(v) =>
      if !v.Object? then AttributeError
      else
        DefaultQueryDecodes();
        match Loads(DefaultMatchAllQuery)
        case DecodeError => CleanedText(DefaultMatchAllQuery)
        case Decoded(fallback) =>
          match Get(v.members, DslQuery)
          case Some(q) => CleanedText(Dumps(q, floatText))
          case None => CleanedText(Dumps(fallback, floatText))
  }

  /** `invoke` from the reply's text to what it writes back. */
  function CleanedReply(messageText: Response, floatText: string -> string): (r: Cleaned)
    ensures r.AttributeError?
        <==> messageText.TextResponse? && Loads(messageText.text).Decoded?
             && !Loads(messageText.text).value.Object?
  {
    CleanedJsonString(ExtractJson(messageText), floatText)
  }

  /** The same with `extract_json` returning objects only. */
  function CleanedReplyObjectOnly(messageText: Response, floatText: string -> string): (r: Cleaned)
    ensures r.CleanedText?
  {
    CleanedJsonString(ExtractObject(messageText), floatText)
  }

  /** With objects only, `invoke` writes back the same text for every reply
      but one that is JSON, and not an object, as a whole: there it writes
      the match-all text back where `.get` would have raised. */
  lemma CleanedAgree(messageText: Response, ft: string -> string)
    ensures !(messageText.TextResponse? && Loads(messageText.text).Decoded?
              && !Loads(messageText.text).value.Object?)
        ==> CleanedReplyObjectOnly(messageText, ft) == CleanedReply(messageText, ft)
    ensures messageText.TextResponse? && Loads(messageText.text).Decoded?
            && !Loads(messageText.text).value.Object? && '{' !in messageText.text
        ==> CleanedReplyObjectOnly(messageText, ft) == CleanedText(DefaultMatchAllQuery)
  {
    ExtractAgree(messageText);
  }

  /** Whatever `invoke` writes back decodes to the query it selected, or to
      the match-all query when extraction failed. */
  lemma CleanedDecodes(extracted: Extracted, ft: string -> string)
    requires extracted.Extracted? ==> extracted.value.Object? && Plain(SelectedQuery(extracted.value.members))
    ensures CleanedJsonString(extracted, ft).CleanedText?
    ensures Loads(CleanedJsonString(extracted, ft).text)
         == Decoded(if extracted.Raised? then MatchAllQuery else SelectedQuery(extracted.value.members))
  {
    if extracted.Raised? {
      DefaultQueryDecodes();
    } else {
      LoadsDumps(SelectedQuery(extracted.value.members), ft);
    }
  }

  /** The match-all query written back for an object without `dsl_query` is
      not `DEFAULT_MATCH_ALL_QUERY`'s text: `json.dumps` puts a space after
      each `:`. Both decode to the same query. */
  lemma MissingKeyText(ft: string -> string)
    ensures Dumps(MatchAllQuery, ft) == "{\"query\": {\"match_all\": {}}}"
    ensures Dumps(MatchAllQuery, ft) != DefaultMatchAllQuery
    ensures Plain(MatchAllQuery)
  {
    SpacedAt(DefaultMatchAllQuery, "{\"query\": {\"match_all\": {}}}", "query", "match_all", ft);
  }

  lemma SpacedAt(d: string, sp: string, q: string, m: string, ft: string -> string)
    requires d == "{\"query\":{\"match_all\":{}}}" && sp == "{\"query\": {\"match_all\": {}}}"
    requires q == "query" && m == "match_all"
    ensures Dumps(TwoLevel(q, m), ft) == sp && sp != d && Plain(TwoLevel(q, m))
  {
    QueryTexts(d, sp, q, m);
    SpacedQuery(q, m, ft);
  }

  /** A dict holding one dict that holds an empty one. */
  function TwoLevel(q: string, m: string): Value {
    Object([Member(Points(q), Object([Member(Points(m), Object([]))]))])
  }

  /** The two texts of the match-all query, piece by piece. */
  lemma QueryTexts(d: string, sp: string, q: string, m: string)
    requires d == "{\"query\":{\"match_all\":{}}}" && sp == "{\"query\": {\"match_all\": {}}}"
    requires q == "query" && m == "match_all"
    ensures AsciiText(q) && AsciiText(m)
    ensures d == "{" + ("\"" + q + "\"") + ":" + ("{" + ("\"" + m + "\"") + ":" + "{}" + "}") + "}"
    ensures sp == "{" + ("\"" + q + "\"") + ": " + ("{" + ("\"" + m + "\"") + ": " + "{}" + "}") + "}"
    ensures d != sp
  {
    CompactText(d, q, m);
    SpacedText(sp, q, m);
    assert |d| != |sp|;
  }

  lemma CompactText(d: string, q: string, m: string)
    requires d == "{\"query\":{\"match_all\":{}}}" && q == "query" && m == "match_all"
    ensures d == "{" + ("\"" + q + "\"") + ":" + ("{" + ("\"" + m + "\"") + ":" + "{}" + "}") + "}"
  {
  }

  lemma SpacedText(sp: string, q: string, m: string)
    requires sp == "{\"query\": {\"match_all\": {}}}" && q == "query" && m == "match_all"
    ensures sp == "{" + ("\"" + q + "\"") + ": " + ("{" + ("\"" + m + "\"") + ": " + "{}" + "}") + "}"
  {
  }

  /** The two-level query as `json.dumps` writes it, for any two keys that
      are written as they are. */
  lemma SpacedQuery(q: string, m: string, ft: string -> string)
    requires AsciiText(q) && AsciiText(m)
    ensures Dumps(TwoLevel(q, m), ft)
         == "{" + ("\"" + q + "\"") + ": " + ("{" + ("\"" + m + "\"") + ": " + "{}" + "}") + "}"
    ensures Plain(TwoLevel(q, m))
  {
    var inner := Object([Member(Points(m), Object([]))]);
    AsciiEscape(q);
    AsciiEscape(m);
    DumpsSingle(Points(m), Object([]), ft);
    DumpsSingle(Points(q), inner, ft);
    SingleUnique(Points(m), Object([]));
    SingleUnique(Points(q), inner);
  }

  /** A one-member dict as `json.dumps` writes it. */
  lemma DumpsSingle(key: JString, v: Value, ft: string -> string)
    ensures Dumps(Object([Member(key, v)]), ft) == "{" + Quote(key) + ": " + Dumps(v, ft) + "}"
  {
  }

  lemma SingleUnique(key: JString, v: Value)
    ensures UniqueKeys([Member(key, v)])
  {
  }

  // ---------------------------------------------------------------------
  // Reading `DEFAULT_MATCH_ALL_QUERY`.
  // ---------------------------------------------------------------------

  /** Printable ASCII but the quote and the backslash: a str of these is
      written as it is. */
  predicate AsciiText(s: string) {
    forall i :: 0 <= i < |s| ==> ' ' <= s[i] <= '~' && s[i] != '"' && s[i] != '\\'
  }

  lemma {:induction false} AsciiEscape(s: string)
    requires AsciiText(s)
    ensures EscapeString(Points(s)) == s
    ensures NoSurrogatePair(Points(s))
  {
    if s != [] {
      assert Points(s) == [s[0] as int] + Points(s[1..]);
      assert Points(s)[1..] == Points(s[1..]);
      assert AsciiText(s[1..]) by {
        forall i | 0 <= i < |s| - 1
          ensures ' ' <= s[1..][i] <= '~' && s[1..][i] != '"' && s[1..][i] != '\\'
        {
          assert s[1..][i] == s[i + 1];
        }
      }
      AsciiEscape(s[1..]);
    }
  }

  /** The compact text of a one-member dict. */
  function ObjText(key: JString, x: string): string {
    "{" + Quote(key) + ":" + x + "}"
  }

  /** A compact one-member dict reads back as that member. */
  lemma CompactObject(key: JString, x: string, v: Value, rest: string)
    requires NoSurrogatePair(key)
    requires x != [] && !IsWs(x[0]) && ScanValue(x + ("}" + rest)) == Scanned(v, "}" + rest)
    ensures ScanValue(ObjText(key, x) + rest) == Scanned(Object([Member(key, v)]), rest)
  {
    var w := x + ("}" + rest);
    var y := Quote(key) + ":" + w;
    assert ObjText(key, x) + rest == "{" + y;
    OpenObject(y);
    QuotedKey(key, w);
    CompactKey(y, key, w);
    SingleMemberValue(w, key, v, rest);
  }

  lemma QuotedKey(key: JString, w: string)
    requires NoSurrogatePair(key)
    ensures (Quote(key) + ":" + w)[0] == '"'
    ensures ScanStringBody((Quote(key) + ":" + w)[1..], []) == Scanned(key, ":" + w)
  {
    assert (Quote(key) + ":" + w)[1..] == EscapeString(key) + "\"" + (":" + w);
    StringBodyRoundTrip(key, [], ":" + w);
    assert [] + key == key;
  }

  /** A key read, then `:` and the value, with no space between. */
  lemma CompactKey(y: string, key: JString, w: string)
    requires y != [] && y[0] == '"' && ScanStringBody(y[1..], []) == Scanned(key, ":" + w)
    requires w != [] && !IsWs(w[0])
    ensures ScanMembers(y, []) == ScanMemberValue(w, key, [])
  {
    assert (":" + w)[1..] == w;
  }

  /** The value of the only member, and the closing brace. */
  lemma SingleMemberValue(w: string, key: JString, v: Value, rest: string)
    requires ScanValue(w) == Scanned(v, "}" + rest)
    ensures ScanMemberValue(w, key, []) == Scanned(Object([Member(key, v)]), rest)
  {
    PutFresh([], key, v);
    CloseMembers(rest, [Member(key, v)]);
  }

  /** The compact two-level query, for any two keys written as they are. */
  lemma CompactQuery(q: string, m: string, rest: string)
    requires AsciiText(q) && AsciiText(m)
    ensures ScanValue(("{" + ("\"" + q + "\"") + ":" + ("{" + ("\"" + m + "\"") + ":" + "{}" + "}") + "}") + rest)
         == Scanned(TwoLevel(q, m), rest)
  {
    AsciiEscape(q);
    AsciiEscape(m);
    EmptyObject("}" + ("}" + rest));
    CompactObject(Points(m), "{}", Object([]), "}" + rest);
    CompactObject(Points(q), ObjText(Points(m), "{}"), Object([Member(Points(m), Object([]))]), rest);
  }

  /** `json.loads(DEFAULT_MATCH_ALL_QUERY)` is the match-all query. */
  lemma DefaultQueryDecodes()
    ensures Loads(DefaultMatchAllQuery) == Decoded(MatchAllQuery)
  {
    DecodesAt(DefaultMatchAllQuery, "query", "match_all");
  }

  lemma DecodesAt(d: string, q: string, m: string)
    requires d == "{\"query\":{\"match_all\":{}}}" && q == "query" && m == "match_all"
    ensures Loads(d) == Decoded(TwoLevel(q, m))
  {
    QueryTexts(d, "{\"query\": {\"match_all\": {}}}", q, m);
    CompactQuery(q, m, []);
    assert d + [] == d;
    assert SkipWs(d) == d;
  }

  /** `DEFAULT_MATCH_ALL_QUERY` and whatever follows it. */
  lemma DefaultQueryScan(rest: string)
    ensures ScanValue(DefaultMatchAllQuery + rest) == Scanned(MatchAllQuery, rest)
  {
    ScanAt(DefaultMatchAllQuery, "query", "match_all", rest);
  }

  lemma ScanAt(d: string, q: string, m: string, rest: string)
    requires d == "{\"query\":{\"match_all\":{}}}" && q == "query" && m == "match_all"
    ensures ScanValue(d + rest) == Scanned(TwoLevel(q, m), rest)
  {
    QueryTexts(d, "{\"query\": {\"match_all\": {}}}", q, m);
    CompactQuery(q, m, rest);
  }
}
