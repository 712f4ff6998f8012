# extract_json and the match-all fallback, in Dafny

This project models the JSON handling of the Bedrock/Strands agent entrypoint
in `agent_example.py`. The agent replies with text that should hold an
OpenSearch query as a JSON object, possibly with prose around it. The model
covers these parts of it:

- `extract_json(response)`. It turns that reply into a value or one of four
  `ValueError`s:
  - a dict is returned unchanged;
  - an empty, blank or non-string response is refused;
  - otherwise the whole text goes to `json.loads`;
  - when that fails, the text is decoded with
    `JSONDecoder().raw_decode` from its first `{`, ignoring what follows.
- The `try` block of `invoke` that follows the extraction:
  - it picks `dsl_query` out of the extracted dict, defaulting to
    `json.loads(DEFAULT_MATCH_ALL_QUERY)`;
  - it writes the result back with `json.dumps`;
  - when extraction raises a `ValueError`, it writes back the literal
    `DEFAULT_MATCH_ALL_QUERY` instead.

The decoder and encoder it relies on are modelled as well, as CPython's `json`
module behaves with default settings:

- `JsonDecoder`: `json.loads` and `raw_decode`. This is the grammar of
  RFC 8259 (sections 2 and 4 to 7) plus Python's own rules:
  - the `NaN`, `Infinity` and `-Infinity` names are accepted;
  - strict control characters are refused;
  - a `\uXXXX` surrogate pair is joined into one code point;
  - a repeated key keeps its first position and takes the last value;
  - a number is the longest match at the head of the input;
  - a leading byte order mark is refused by `json.loads`.
- `JsonEncoder`: `json.dumps` with `ensure_ascii`, the separators `", "`
  and `": "`, and insertion order. The text of a float is a parameter
  (`floatText`).
- `StringRoundTrip`, `ValueRoundTrip`: `json.loads(json.dumps(v)) == v` for
  every value without floats, with unique keys and with no surrogate pair
  held directly in a str.
- `TrailingInput`: what follows a value never changes how it is read, unless
  the value is a number with nothing after it, or a number followed by a
  digit, `.`, `e` or `E`. This is why `raw_decode` can ignore the text after
  the object.
- `Extraction`: `str.strip`, `str.find`, `extract_json`, and a corrected
  `extract_json` (see Findings).
- `Invoke`: the selection and write-back step, `DEFAULT_MATCH_ALL_QUERY`, and
  facts about it.
- `Scenarios`: replies of each kind, taken through the whole step.

The code differs from the behaviour the function's name, docstring and
`-> dict` annotation suggest in two places, and the model follows the code:

- A reply that is JSON as a whole is returned whatever it is. A list, a
  string or a number then reaches `.get`, which raises an `AttributeError`
  that `invoke` does not catch (see Findings).
- What `invoke` writes back is `json.dumps`'s spaced text. When the dict has
  no `dsl_query`, that is `{"query": {"match_all": {}}}`, not the compact
  `DEFAULT_MATCH_ALL_QUERY` (`Invoke.MissingKeyText`). Only a failed
  extraction writes the compact literal back.

## Model

| member | source | states |
|---|---|---|
| Extraction.ExtractJson | agent_example.py:195-232 | a dict comes back unchanged; `EmptyOrInvalidType` exactly for a non-string or a blank text; a text that is JSON as a whole gives that value, of whatever kind; `MissingOpeningBrace` exactly when that parse fails and there is no `{`; "not an object" is never raised; a result that is not a dict only comes from the whole-text parse |
| Extraction.FromFirstBrace | agent_example.py:215-232 | `MissingOpeningBrace` exactly when there is no `{`; whatever is decoded from the first `{` is a dict, so the "not an object" branch is never taken |
| Extraction.StripStart | agent_example.py:206 | `lstrip` leaves a suffix that does not start with a space, and what it removed is all spaces |
| Extraction.StripEnd | agent_example.py:206 | `rstrip` leaves a prefix that does not end with a space, and what it removed is all spaces |
| Extraction.Strip | agent_example.py:206 | `strip` leaves text that neither starts nor ends with a space |
| Extraction.StripBlank | agent_example.py:206 | `response.strip()` is empty exactly when every character is a space in the sense of `str.isspace` |
| Extraction.Find | agent_example.py:216 | `find('{')` is -1 exactly when there is no `{`, and otherwise the index of the first one |
| Extraction.BlankNotJson | agent_example.py:206-211 | a blank text is not JSON either, so refusing it before `json.loads` changes nothing |
| Extraction.FindAfter | agent_example.py:216-224 | with no `{` in the prose, decoding starts exactly at the object |
| Extraction.EmbeddedObject | agent_example.py:216-230 | an object after prose with no `{`, followed by anything, is extracted once the whole text is not JSON |
| Extraction.ExtractObject | agent_example.py:210-228 | the corrected `extract_json` only ever returns a dict and never raises "not an object" |
| Extraction.ExtractAgree | agent_example.py:210-228 | the corrected and the written `extract_json` agree on every response except a text that is JSON, and not an object, as a whole |
| Invoke.SelectedQuery | agent_example.py:262 | the value under `dsl_query` when the key is there; the match-all query when it is not |
| Invoke.CleanedJsonString | agent_example.py:259-268 | a `ValueError` gives back `DEFAULT_MATCH_ALL_QUERY` unchanged; a dict gives `json.dumps` of the selected query; a value that is not a dict raises an `AttributeError`, and exactly then |
| Invoke.CleanedReply | agent_example.py:259-268 | the reply raises an `AttributeError` exactly when it is JSON, and not a dict, as a whole |
| Invoke.CleanedReplyObjectOnly | agent_example.py:259-268 | with the corrected `extract_json`, `invoke` always writes a text back |
| Invoke.CleanedAgree | agent_example.py:259-268 | the two write the same text back except for a reply that is JSON, and not a dict, as a whole; there the corrected one writes the match-all text back when the reply holds no `{` |
| Invoke.CleanedDecodes | agent_example.py:262-268 | what is written back decodes to the selected query, or to the match-all query after a failed extraction |
| Invoke.MissingKeyText | agent_example.py:262-263 | without `dsl_query`, the text written back is `{"query": {"match_all": {}}}`, which differs from `DEFAULT_MATCH_ALL_QUERY` |
| Invoke.DefaultQueryDecodes | agent_example.py:193 | `json.loads(DEFAULT_MATCH_ALL_QUERY)` is the dict `{"query": {"match_all": {}}}` |
| Invoke.DefaultQueryScan | agent_example.py:193 | the decoder reads `DEFAULT_MATCH_ALL_QUERY` as that dict whatever follows it |
| Invoke.SpacedQuery | agent_example.py:263 | `json.dumps` of a two-level query, with a space after each `:` |
| Invoke.CompactQuery | agent_example.py:193 | the compact text of a two-level query reads back as that query |
| Invoke.CompactObject | agent_example.py:193 | a compact one-member dict reads back as that member |
| JsonEncoder.EscapePoint | agent_example.py:263 | with `ensure_ascii`, one code point is written as a non-empty run of printable ASCII |
| JsonEncoder.EscapeString | agent_example.py:263 | with `ensure_ascii`, the body of a str is written in printable ASCII only |
| JsonEncoder.Quote | agent_example.py:263 | a str is written between double quotes in printable ASCII only |
| Invoke.AsciiEscape | agent_example.py:263 | `json.dumps` writes a str of printable ASCII without quotes or backslashes as it is |
| Invoke.QueryTexts | agent_example.py:193 | `DEFAULT_MATCH_ALL_QUERY` and the spaced text of the same query, piece by piece, and that they differ |
| JsonValue.Get | agent_example.py:262 | `.get(k)` finds nothing exactly when `k` is not a key, and otherwise a member stored under `k` |
| JsonValue.PutKeys | agent_example.py:211 | storing into a dict keeps the key order, and a new key goes last |
| JsonValue.PutGet | agent_example.py:211 | after storing `v` under `k`, `k` gives `v` and every other key is unaffected |
| JsonValue.PutUnique | agent_example.py:211 | storing into a dict keeps its keys unique |
| JsonValue.PutFresh | agent_example.py:211 | storing a new key appends it |
| JsonDecoder.SkipWs | agent_example.py:211 | whitespace skipping leaves nothing or a non-whitespace character first |
| JsonDecoder.SkipWsDrops | agent_example.py:211 | what is skipped is whitespace and what is left is the rest of the input |
| JsonDecoder.ScanNumber | agent_example.py:211 | a number consumes input, starts with `-` or a digit, and is an int or a float |
| JsonDecoder.ScanStringBody | agent_example.py:211 | reading the body of a string literal consumes input |
| JsonDecoder.ScanValue | agent_example.py:224 | a value consumes input, starts with a character a value can start with, and is a dict when it starts with `{` |
| JsonDecoder.ScanObject | agent_example.py:224 | what follows `{` is read as a dict |
| JsonDecoder.ScanArray | agent_example.py:211 | what follows `[` is read as a list |
| JsonDecoder.RawDecode | agent_example.py:224 | `raw_decode(s, i)` ends after `i` and within `s` |
| TrailingInput.ValueAppend | agent_example.py:224 | appending text after a value that has settled leaves the value as it is and appends to what is left, so `raw_decode` ignores the text after the object |
| StringRoundTrip.StringBodyRoundTrip | agent_example.py:263 | a str written by `json.dumps` reads back as the same code points, and the decoder goes on after the closing quote. This includes code points beyond U+FFFF, which are written as the two escapes of a surrogate pair. It excludes a str that holds a high surrogate directly followed by a low one, which CPython reads back joined |
| ValueRoundTrip.ValueRoundTrip | agent_example.py:263 | the text `json.dumps` writes for a value reads back as that value, whatever follows it |
| ValueRoundTrip.LoadsDumps | agent_example.py:262-263 | `json.loads(json.dumps(v)) == v` |
| ValueRoundTrip.IntRoundTrip | agent_example.py:263 | the decimal text of an int reads back as that int when nothing can continue it |
| ValueRoundTrip.StrRoundTrip | agent_example.py:263 | a str written by `json.dumps` reads back as itself, escaped quotes included |
| ValueRoundTrip.DumpsHead | agent_example.py:263 | the text of a value starts with the character the decoder dispatches on |
| Scenarios.ExtractDumps | agent_example.py:210-211 | the text `json.dumps` writes for any value, sent on its own, is extracted as that value, whether or not it is a dict |
| Scenarios.EmbeddedDumps | agent_example.py:215-230 | the text of a dict inside prose with no `{` before it is extracted as that dict, whatever follows it |
| Scenarios.NonObjectRaises | agent_example.py:210-211 | the text of any value that is not a dict, sent on its own, makes `invoke` raise an `AttributeError` |
| Scenarios.NoBraceFallsBack | agent_example.py:206-218 | text that is not JSON and has no `{` writes the match-all literal back; it raises "missing opening brace" unless it is blank, and "empty or invalid type" when it is |
| Scenarios.BadObjectFallsBack | agent_example.py:224-232 | text whose first `{` starts no valid JSON raises "failed to extract", and the match-all literal is written back |
| Scenarios.NoQueryKey | agent_example.py:259-263 | an extracted dict without `dsl_query`, the whole reply or inside prose, writes back the spaced match-all text, and so does the corrected `extract_json` |
| Scenarios.EndToEnd | agent_example.py:259-263 | `Sure! {"dsl_query":{"query":{"match_all":{}}}} Hope that helps.` is extracted as that dict and writes back `{"query": {"match_all": {}}}` |
| Scenarios.Refusal | agent_example.py:216-218 | `I cannot comply.` raises "missing opening brace", and the match-all literal is written back |
| Scenarios.NoJson | agent_example.py:216-218 | `no json here`, which starts like `null`, does the same |
| Scenarios.Malformed | agent_example.py:231-232 | `prefix {"a": }` raises "failed to extract", and the match-all literal is written back |
| Scenarios.BraceInProse | agent_example.py:216-232 | `see {this} {"real": 1}` fails to extract although a valid dict starts at index 11 |
| Scenarios.MissingKey | agent_example.py:262-263 | `{"other_key":1}` is extracted as that dict and writes back `{"query": {"match_all": {}}}` |
| Scenarios.ListReply | agent_example.py:210-211 | `[1,2,3]` is extracted as the list, so `invoke` raises an `AttributeError`; with the corrected `extract_json` the match-all literal is written back |
| Scenarios.NotObjectReply | agent_example.py:210-211 | JSON that is not a dict and holds no `{` raises an `AttributeError` as written, and writes the match-all literal back when corrected |

## Left out

- Recursion depth: CPython's scanner raises `RecursionError` on deeply nested input. The model reads any depth.
- Digit limit: `int()` on more than 4300 digits raises `ValueError` in recent CPython. The model reads integers of any length.
- Error details: the messages and positions of `JSONDecodeError` and of the `ValueError`s. Only which error is raised is modelled.
- Lone surrogates in the reply: a Dafny `string` cannot hold a lone surrogate, so it cannot be part of the reply's text. Decoded strs can hold one, through a `\uXXXX` escape.
- Floats: a JSON number with a fraction or an exponent is kept as its lexeme. The text `json.dumps` writes for it is the parameter `floatText`. Because of that, the round-trip lemmas leave floats out.
- `json.dumps` of a dict that was handed in directly and holds values JSON cannot represent raises `TypeError`. The model's dicts hold JSON values only.
- A dict handed in is returned as the same object. The model returns an equal value and does not model object identity.
- The rest of `invoke` is not modelled: the `print`s, the agent call, `agent.messages.clear()`, reading the text out of `result.message` and writing the text back into it.
- The module-level configuration is not modelled: environment variables, the SSL patch, authentication headers, the system prompt and the agent/MCP construction.
- temp_agent.py is not part of this model. It holds only agent wiring and a commented-out copy of `extract_json`.
- JsonEncoder.Dumps has no `ensures` of its own. What it writes is stated by `ValueRoundTrip.LoadsDumps` and `ValueRoundTrip.ValueRoundTrip` (its text reads back as the value), `ValueRoundTrip.DumpsHead` (its first character), `Invoke.SpacedQuery` and `Invoke.MissingKeyText` (the `": "` separator), and the `JsonEncoder.Quote` row (its strs are printable ASCII).
- JsonDecoder.Loads has no `ensures` of its own. What it does is stated by `ValueRoundTrip.LoadsDumps`, `Extraction.BlankNotJson` and the scenarios.
- The escaped-quote case (`{"a":"say \"hi\""}`) has no scenario of its own. `ValueRoundTrip.StrRoundTrip` and `Scenarios.ExtractDumps` cover every str, escaped quotes included.

## Findings

| source | as written | input that shows it | evidently intended | confidence | as-written member | corrected member |
|---|---|---|---|---|---|---|
| agent_example.py:210-211 | the whole-text `json.loads` result is returned whatever its kind, so `invoke` calls `.get` on a list and the `AttributeError` escapes the `except (ValueError, json.JSONDecodeError)` | `[1,2,3]` | only a dict is returned, as the docstring, the `-> dict` annotation and the check at lines 226-228 say; a reply that is JSON but not a dict is searched for an object like other text, and ends in the match-all fallback | medium; not executed | Scenarios.ListReply | Extraction.ExtractObject |
