/** JSON values as Python's json module builds them: None, bool, int, float,
    str, list and dict. A Python str is a sequence of code points and may hold
    lone surrogates, so decoded strings are sequences of code points rather
    than Dafny strings. A dict keeps its keys unique and in insertion order. */
module JsonValue {

  datatype Option<+T> = None | Some(value: T)

  /** A Unicode code point, surrogates 0xD800..0xDFFF included. */
  type CodePoint = c: int | 0 <= c < 0x110000

  /** The contents of a Python str. */
  type JString = seq<CodePoint>

  /** The non-standard constants Python's decoder accepts and its encoder writes. */
  datatype NonFinite = NaN | Infinity | NegativeInfinity

  datatype Value =
    | Null
    | Bool(b: bool)
    | Int(i: int)
    /** A JSON number with a fraction or an exponent, kept as its lexeme:
        the conversion to a binary float is not modelled. */
    | Float(lexeme: string)
    | Constant(c: NonFinite)
    | Str(s: JString)
    | Array(items: seq<Value>)
    /** A dict: its members in insertion order. */
    | Object(members: seq<Member>)

  datatype Member = Member(key: JString, value: Value)

  /** The code points of a Dafny string. */
  function Points(s: string): (r: JString)
    ensures |r| == |s|
    ensures forall i :: 0 <= i < |s| ==> r[i] == s[i] as int
  {
    if s == [] then [] else [s[0] as int] + Points(s[1..])
  }

  /** The keys of a dict, in insertion order. */
  function Keys(ms: seq<Member>): (ks: seq<JString>)
    ensures |ks| == |ms|
    ensures forall i :: 0 <= i < |ms| ==> ks[i] == ms[i].key
  {
    if ms == [] then [] else [ms[0].key] + Keys(ms[1..])
  }

  /** No key occurs twice: what a Python dict guarantees. */
  predicate UniqueKeys(ms: seq<Member>) {
    forall i, j :: 0 <= i < j < |ms| ==> ms[i].key != ms[j].key
  }

  /** `d.get(k)`: the value stored under `k`, if any. */
  function Get(ms: seq<Member>, k: JString): (r: Option<Value>)
    ensures r.None? <==> k !in Keys(ms)
    ensures r.Some? ==> exists i :: 0 <= i < |ms| && ms[i] == Member(k, r.value)
  {
    if ms == [] then None
    else if ms[0].key == k then Some(ms[0].value)
    else Get(ms[1..], k)
  }

  /** `d[k] = v`: a key already present keeps its position and takes the new
      value; a new key goes to the end. */
  function Put(ms: seq<Member>, k: JString, v: Value): seq<Member> {
    if ms == [] then [Member(k, v)]
    else if ms[0].key == k then [Member(k, v)] + ms[1..]
    else [ms[0]] + Put(ms[1..], k, v)
  }

  /** Insertion order: `d[k] = v` leaves the key order alone unless `k` is new,
      which then comes last. */
  lemma {:induction false} PutKeys(ms: seq<Member>, k: JString, v: Value)
    ensures Keys(Put(ms, k, v)) == if k in Keys(ms) then Keys(ms) else Keys(ms) + [k]
  {
    if ms != [] {
      assert Keys(ms) == [ms[0].key] + Keys(ms[1..]);
      if ms[0].key != k {
        PutKeys(ms[1..], k, v);
        assert Keys(Put(ms, k, v)) == [ms[0].key] + Keys(Put(ms[1..], k, v));
      } else {
        assert Keys(Put(ms, k, v)) == [k] + Keys(ms[1..]);
      }
    }
  }

  /** After `d[k] = v`, `d.get(k)` is `v` and every other key is unaffected. */
  lemma {:induction false} PutGet(ms: seq<Member>, k: JString, v: Value, k': JString)
    ensures Get(Put(ms, k, v), k') == if k' == k then Some(v) else Get(ms, k')
  {
    if ms != [] && ms[0].key != k {
      PutGet(ms[1..], k, v, k');
      assert Put(ms, k, v)[1..] == Put(ms[1..], k, v);
    }
  }

  /** `d[k] = v` keeps the keys of a dict unique. */
  lemma PutUnique(ms: seq<Member>, k: JString, v: Value)
    requires UniqueKeys(ms)
    ensures UniqueKeys(Put(ms, k, v))
  {
    PutKeys(ms, k, v);
    var r := Put(ms, k, v);
    forall i, j | 0 <= i < j < |r| ensures r[i].key != r[j].key {
      assert Keys(r)[i] == r[i].key && Keys(r)[j] == r[j].key;
      if k !in Keys(ms) && j == |ms| {
        assert Keys(ms)[i] == ms[i].key;
      } else {
        assert Keys(ms)[i] == ms[i].key && Keys(ms)[j] == ms[j].key;
      }
    }
  }

  /** Putting a key that is not yet present appends it. */
  lemma {:induction false} PutFresh(ms: seq<Member>, k: JString, v: Value)
    requires k !in Keys(ms)
    ensures Put(ms, k, v) == ms + [Member(k, v)]
  {
    if ms != [] {
      assert ms[0].key == Keys(ms)[0];
      assert Keys(ms[1..]) == Keys(ms)[1..];
      PutFresh(ms[1..], k, v);
      assert ms == [ms[0]] + ms[1..];
    }
  }
}
