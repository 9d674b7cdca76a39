/** What a query text must hold for its parameters to come out of it: a weight that
    unescaping never adds to (`net/url`, `QueryUnescape` and `ParseQuery`). */
module QueryWeight {
  import opened Common
  import opened Text
  import opened QueryCodec
  import Lex

  // ---------- weights ----------

  /** The percent sign, and a letter of each of the names `secretKey` and `base_url`. */
  predicate Heavy(c: char) {
    c == '%' || c == 'K' || c == '_'
  }

  function WeightOf(c: char): nat {
    if Heavy(c) then 1 else 0
  }

  function Weight(s: string): nat {
    if s == "" then 0 else WeightOf(s[0]) + Weight(s[1..])
  }

  /** The text begins with a percent-encoded byte. */
  predicate Encoded(s: string) {
    |s| >= 3 && s[0] == '%' && IsHex(s[1]) && IsHex(s[2])
  }

  function Decoded(s: string): char
    requires Encoded(s)
  {
    (16 * HexValue(s[1]) + HexValue(s[2])) as char
  }

  /** The weight of the text once it is unescaped. */
  function Content(s: string): nat {
    if s == "" then 0
    else if Encoded(s) then WeightOf(Decoded(s)) + Content(s[3..])
    else WeightOf(s[0]) + Content(s[1..])
  }

  lemma {:induction false} WeightAppend(a: string, b: string)
    ensures Weight(a + b) == Weight(a) + Weight(b)
  {
    if a == "" {
      assert a + b == b;
    } else {
      WeightAppend(a[1..], b);
      assert (a + b)[1..] == a[1..] + b;
    }
  }

  lemma {:induction false} WeightPrefix(a: string, s: string)
    requires a <= s
    ensures Weight(a) <= Weight(s)
  {
    WeightAppend(a, s[|a|..]);
    assert s == a + s[|a|..];
  }

  lemma {:induction false} WeightDrop(s: string, n: nat)
    requires n <= |s|
    ensures Weight(s[n..]) <= Weight(s)
  {
    WeightAppend(s[..n], s[n..]);
    assert s == s[..n] + s[n..];
  }

  /** Unescaping adds no weight: an encoded byte has its percent sign. */
  lemma {:induction false} ContentBound(s: string)
    ensures Content(s) <= Weight(s)
  {
    if s != "" {
      if Encoded(s) {
        ContentBound(s[3..]);
        WeightDrop(s[1..], 2);
        assert s[1..][2..] == s[3..];
      } else {
        ContentBound(s[1..]);
      }
    }
  }

  lemma {:induction false} WeightCons(c: char, s: string)
    ensures Weight([c] + s) == WeightOf(c) + Weight(s)
  {
    assert ([c] + s)[1..] == s;
  }

  lemma {:induction false} ContentUnescape(s: string)
    requires Unescape(s).Some?
    ensures Weight(Unescape(s).value) == Content(s)
  {
    if s != "" {
      if s[0] == '%' {
        assert Encoded(s);
        ContentUnescape(s[3..]);
        WeightCons(Decoded(s), Unescape(s[3..]).value);
      } else {
        ContentUnescape(s[1..]);
        WeightCons(if s[0] == '+' then ' ' else s[0], Unescape(s[1..]).value);
      }
    }
  }

  /** A delimiter is never part of an encoded byte. */
  predicate Delimits(c: char) {
    !IsHex(c) && !Heavy(c)
  }

  lemma {:induction false} EncodedBefore(a: string, c: char, b: string)
    requires Delimits(c) && a != ""
    ensures Encoded(a + [c] + b) <==> Encoded(a)
    ensures Encoded(a) ==> Decoded(a + [c] + b) == Decoded(a)
  {
    var s := a + [c] + b;
    assert s[0] == a[0] && s[|a|] == c;
    assert |a| >= 3 ==> s[1] == a[1] && s[2] == a[2];
  }

  lemma {:induction false} ContentSplit(a: string, c: char, b: string)
    requires Delimits(c)
    ensures Content(a + [c] + b) == Content(a) + Content(b)
  {
    var s := a + [c] + b;
    if a == "" {
      assert s[0] == c && s[1..] == b;
    } else {
      EncodedBefore(a, c, b);
      var n := if Encoded(a) then 3 else 1;
      ContentSplit(a[n..], c, b);
      assert s[n..] == a[n..] + [c] + b;
    }
  }

  lemma {:induction false} ContentEscape(s: string)
    requires IsBytes(s)
    ensures Content(Escape(s)) == Weight(s)
  {
    UnescapeEscape(s);
    ContentUnescape(Escape(s));
  }

  lemma {:induction false} ContentPair(k: string, v: string)
    requires IsBytes(k) && IsBytes(v)
    ensures Content(Pair(k, v)) == Weight(k) + Weight(v)
  {
    ContentSplit(Escape(k), '=', Escape(v));
    ContentEscape(k);
    ContentEscape(v);
  }

  // ---------- parsed keys ----------

  /** Keys and first values together. */
  function Total(keys: seq<string>, m: Values): nat
    requires forall k :: k in keys ==> k in m && m[k] != []
  {
    if keys == [] then 0 else Weight(keys[0]) + Weight(m[keys[0]][0]) + Total(keys[1..], m)
  }

  lemma {:induction false} TotalWithout(keys: seq<string>, m: Values, i: nat)
    requires i < |keys| && forall k :: k in keys ==> k in m && m[k] != []
    ensures forall k :: k in Without(keys, i) ==> k in keys
    ensures Total(keys, m) == Weight(keys[i]) + Weight(m[keys[i]][0]) + Total(Without(keys, i), m)
  {
    if i == 0 {
      assert Without(keys, 0) == keys[1..];
    } else {
      TotalWithout(keys[1..], m, i - 1);
      assert Without(keys, i) == [keys[0]] + Without(keys[1..], i - 1);
    }
  }

  lemma {:induction false} TotalSame(keys: seq<string>, m: Values, n: Values)
    requires forall k :: k in keys ==> k in m && m[k] != [] && k in n && n[k] != [] && m[k][0] == n[k][0]
    ensures Total(keys, m) == Total(keys, n)
  {
    if keys != [] {
      TotalSame(keys[1..], m, n);
    }
  }

  // ---------- the parsing loop ----------

  ghost predicate NonEmpty(m: Values) {
    forall k :: k in m ==> m[k] != []
  }

  /** The first segment of a query and what follows it. */
  function FirstSegment(query: string): Cut {
    CutFirst(query, '&')
  }

  function KeyOf(segment: string): Option<string> {
    Unescape(CutFirst(segment, '=').before)
  }

  function ValueOf(segment: string): Option<string> {
    Unescape(CutFirst(segment, '=').after)
  }

  predicate BadSegment(segment: string) {
    ';' in segment || (segment != "" && (KeyOf(segment).None? || ValueOf(segment).None?))
  }

  function AddSegment(m: Values, segment: string): Values
    requires !BadSegment(segment)
  {
    if segment == "" then m else Add(m, KeyOf(segment).value, ValueOf(segment).value)
  }

  lemma {:induction false} CutAt(s: string, c: char)
    ensures var i := IndexOf(s, c);
            CutFirst(s, c) == if i < 0 then Cut(s, false, "") else Cut(s[..i], true, s[i + 1..])
  {
  }

  lemma {:induction false} Fields(segment: string)
    ensures var e := IndexOf(segment, '=');
            && KeyOf(segment) == Unescape(if e < 0 then segment else segment[..e])
            && ValueOf(segment) == Unescape(if e < 0 then "" else segment[e + 1..])
  {
    CutAt(segment, '=');
  }

  /** The loop body on a segment that has been cut off. */
  function Next(segment: string, rest: string, m: Values, bad: bool): (Values, bool) {
    if BadSegment(segment) then ParseSegments(rest, m, true)
    else ParseSegments(rest, AddSegment(m, segment), bad)
  }

  lemma {:induction false} OneTurn(query: string, segment: string, rest: string, m: Values, bad: bool)
    requires query != ""
    requires var i := IndexOf(query, '&');
             segment == (if i < 0 then query else query[..i]) && rest == (if i < 0 then "" else query[i + 1..])
    ensures ParseSegments(query, m, bad) == Next(segment, rest, m, bad)
  {
    Fields(segment);
  }

  lemma {:induction false} Turn(query: string, m: Values, bad: bool)
    requires query != ""
    ensures var c := FirstSegment(query);
            |c.after| < |query| && ParseSegments(query, m, bad) == Next(c.before, c.after, m, bad)
  {
    CutAt(query, '&');
    OneTurn(query, FirstSegment(query).before, FirstSegment(query).after, m, bad);
  }

  lemma {:induction false} BadStays(query: string, m: Values)
    ensures ParseSegments(query, m, true).1
    decreases |query|
  {
    if query != "" {
      Turn(query, m, true);
      var c := FirstSegment(query);
      BadStays(c.after, if BadSegment(c.before) then m else AddSegment(m, c.before));
    }
  }

  /** First values stay. */
  lemma {:induction false} FirstStays(query: string, m: Values, bad: bool)
    requires NonEmpty(m)
    ensures NonEmpty(ParseSegments(query, m, bad).0)
    ensures forall k :: k in m ==> k in ParseSegments(query, m, bad).0 && ParseSegments(query, m, bad).0[k][0] == m[k][0]
    decreases |query|
  {
    if query != "" {
      Turn(query, m, bad);
      var c := FirstSegment(query);
      if BadSegment(c.before) {
        FirstStays(c.after, m, true);
      } else {
        FirstStays(c.after, AddSegment(m, c.before), bad);
      }
    }
  }

  lemma {:induction false} SegmentContent(segment: string)
    requires segment != "" && !BadSegment(segment)
    ensures Weight(KeyOf(segment).value) + Weight(ValueOf(segment).value) <= Content(segment)
  {
    var c := CutFirst(segment, '=');
    ContentUnescape(c.before);
    ContentUnescape(c.after);
    if c.found {
      ContentSplit(c.before, '=', c.after);
    }
  }

  lemma {:induction false} QueryContent(query: string)
    ensures Content(query) == Content(FirstSegment(query).before) + Content(FirstSegment(query).after)
  {
    var c := FirstSegment(query);
    if c.found {
      ContentSplit(c.before, '&', c.after);
    }
  }

  lemma {:induction false} FirstIn(keys: seq<string>)
    ensures keys == [] || keys[0] in keys
  {
  }

  /** Different keys that came out of a query have come out of different parts of it. */
  lemma {:induction false} TotalBound(query: string, m: Values, keys: seq<string>)
    requires NonEmpty(m) && Distinct(keys)
    requires var r := ParseSegments(query, m, false); !r.1 && forall k :: k in keys ==> k in r.0 && k !in m
    ensures NonEmpty(ParseSegments(query, m, false).0)
    ensures Total(keys, ParseSegments(query, m, false).0) <= Content(query)
    decreases |query|, 1
  {
    var r := ParseSegments(query, m, false);
    FirstStays(query, m, false);
    if query == "" {
      FirstIn(keys);
    } else {
      Turn(query, m, false);
      QueryContent(query);
      var c := FirstSegment(query);
      if BadSegment(c.before) {
        BadStays(c.after, m);
      } else if c.before == "" {
        TotalBound(c.after, m, keys);
      } else {
        SegmentContent(c.before);
        TotalTurn(c.before, c.after, m, keys);
      }
    }
  }

  lemma {:induction false} TotalTurn(segment: string, rest: string, m: Values, keys: seq<string>)
    requires NonEmpty(m) && Distinct(keys) && segment != "" && !BadSegment(segment)
    requires var r := ParseSegments(rest, AddSegment(m, segment), false);
             !r.1 && forall k :: k in keys ==> k in r.0 && k !in m
    ensures NonEmpty(ParseSegments(rest, AddSegment(m, segment), false).0)
    ensures Total(keys, ParseSegments(rest, AddSegment(m, segment), false).0)
         <= Weight(KeyOf(segment).value) + Weight(ValueOf(segment).value) + Content(rest)
    decreases |rest|, 2
  {
    var k, v := KeyOf(segment).value, ValueOf(segment).value;
    var m' := AddSegment(m, segment);
    FirstStays(rest, m', false);
    if k in keys {
      var i :| 0 <= i < |keys| && keys[i] == k;
      TotalWithout(keys, ParseSegments(rest, m', false).0, i);
      WithoutKey(keys, i);
      TotalBound(rest, m', Without(keys, i));
    } else {
      TotalBound(rest, m', keys);
    }
  }

  lemma {:induction false} WithoutKey(keys: seq<string>, i: nat)
    requires i < |keys| && Distinct(keys)
    ensures Distinct(Without(keys, i)) && forall k :: k in Without(keys, i) ==> k in keys && k != keys[i]
  {
  }

  // ---------- a printed query behind other text ----------

  lemma {:induction false} SplitAppend(z: string, rest: string)
    ensures var c := FirstSegment(z);
            FirstSegment(z + "&" + rest)
            == if c.found then Cut(c.before, true, c.after + "&" + rest) else Cut(z, true, rest)
  {
    var c := FirstSegment(z);
    if c.found {
      CutFirstGlue(Cut(c.before, true, c.after + "&" + rest), '&');
      assert z + "&" + rest == Glue(Cut(c.before, true, c.after + "&" + rest), '&');
    } else {
      CutFirstGlue(Cut(z, true, rest), '&');
    }
  }

  /** Parsing goes on behind an ampersand with what it has so far. */
  lemma {:induction false} SegmentsSplit(z: string, rest: string, m: Values, bad: bool)
    ensures ParseSegments(z + "&" + rest, m, bad)
         == var r := ParseSegments(z, m, bad); ParseSegments(rest, r.0, r.1)
    decreases |z|
  {
    SplitAppend(z, rest);
    Turn(z + "&" + rest, m, bad);
    var c := FirstSegment(z);
    if z != "" {
      Turn(z, m, bad);
      if c.found {
        if BadSegment(c.before) {
          SegmentsSplit(c.after, rest, m, true);
        } else {
          SegmentsSplit(c.after, rest, AddSegment(m, c.before), bad);
        }
      }
    }
  }

  /** A printed query adds its own keys and leaves the others alone. */
  lemma {:induction false} OthersStay(keys: seq<string>, params: map<string, string>, m: Values)
    requires forall k :: k in keys ==> k in params && IsBytes(k) && IsBytes(params[k])
    ensures var r := ParseSegments(EncodeKeys(keys, params), m, false);
            forall k :: k !in keys ==> (k in r.0 <==> k in m) && (k in m ==> r.0[k] == m[k])
  {
    if keys != [] {
      var k, rest := keys[0], keys[1..];
      ParsePair(k, params[k], EncodeKeys(rest, params), EncodeKeys(keys, params), m);
      OthersStay(rest, params, Add(m, k, params[k]));
    }
  }

  function Joined(x: string, params: map<string, string>): string {
    if params == map[] then x else x + "?" + Encode(params)
  }

  /** The first pair of a printed query is read as part of the text before it; what it says
      is there once more, or weighs nothing. */
  ghost predicate SaidAgain(params: map<string, string>, m: Values) {
    forall k :: k in params ==> Again(m, k, params[k])
  }

  predicate Again(m: Values, k: string, v: string) {
    (k in m && m[k] != [] && Weight(v) <= Weight(m[k][0])) || Weight(k) + Weight(v) == 0
  }

  lemma {:induction false} FirstPair(x: string, k: string, v: string)
    requires IsBytes(k) && IsBytes(v)
    ensures Content(x + "?" + Pair(k, v)) == Content(x) + Weight(k) + Weight(v)
  {
    ContentSplit(x, '?', Pair(k, v));
    ContentPair(k, v);
  }

  /** The part of a joined text up to the end of the first pair. */
  lemma {:induction false} OpeningBound(x: string, k: string, v: string, m: Values, others: seq<string>)
    requires IsBytes(k) && IsBytes(v) && k !in others && Distinct(others)
    requires var r := ParseSegments(x + "?" + Pair(k, v), map[], false);
             !r.1 && r.0 == m && (forall e :: e in others ==> e in m)
    requires NonEmpty(m)
    requires Again(m, k, v)
    ensures Total(others, m) <= Content(x)
  {
    FirstPair(x, k, v);
    var z := x + "?" + Pair(k, v);
    if Weight(k) + Weight(v) == 0 {
      TotalBound(z, map[], others);
    } else {
      var keys := [k] + others;
      assert keys[1..] == others;
      TotalBound(z, map[], keys);
    }
  }

  lemma {:induction false} JoinedFirst(x: string, params: map<string, string>, keys: seq<string>)
    requires keys == Lex.SortedKeys(params.Keys) && params != map[]
    ensures keys != [] && keys[0] in params
    ensures var z := x + "?" + Pair(keys[0], params[keys[0]]);
            Joined(x, params) == if |keys| == 1 then z else z + "&" + EncodeKeys(keys[1..], params)
  {
    assert params.Keys != {};
    assert keys[0] in keys;
    Associative(x + "?", Pair(keys[0], params[keys[0]]), "&" + EncodeKeys(keys[1..], params));
    Associative(Pair(keys[0], params[keys[0]]), "&", EncodeKeys(keys[1..], params));
    Associative(x + "?" + Pair(keys[0], params[keys[0]]), "&", EncodeKeys(keys[1..], params));
  }

  lemma {:induction false} Behind(x: string, params: map<string, string>, keys: seq<string>, m: Values,
                                  others: seq<string>)
    requires AllBytes(params) && Distinct(others) && forall e :: e in others ==> e !in params && e in m
    requires keys != [] && Distinct(keys) && forall k :: k in keys ==> k in params
    requires NonEmpty(m) && SaidAgain(params, m)
    requires ParseSegments(x + "?" + Pair(keys[0], params[keys[0]]) + "&" + EncodeKeys(keys[1..], params), map[], false)
          == (m, false)
    ensures Total(others, m) <= Content(x)
  {
    var k, rest := keys[0], keys[1..];
    var z := x + "?" + Pair(k, params[k]);
    var r := ParseSegments(z, map[], false);
    SegmentsSplit(z, EncodeKeys(rest, params), map[], false);
    FirstStays(z, map[], false);
    if r.1 {
      BadStays(EncodeKeys(rest, params), r.0);
    }
    OthersStay(rest, params, r.0);
    TailMembers(keys, k);
    forall e | e in others
      ensures e !in rest
    {
      TailMembers(keys, e);
    }
    assert k in m <==> k in r.0;
    OpeningBound(x, k, params[k], r.0, others);
    TotalSame(others, r.0, m);
  }

  /** Whatever text a printed query is appended to: what the whole is parsed to, beyond the
      printed parameters, has come out of that text. */
  lemma {:induction false} TextBeforeQuery(x: string, params: map<string, string>, others: seq<string>)
    requires AllBytes(params) && Distinct(others) && forall e :: e in others ==> e !in params
    requires var m := ParseQuery(Joined(x, params));
             m.Some? && SaidAgain(params, m.value) && forall e :: e in others ==> e in m.value
    ensures var m := ParseQuery(Joined(x, params)).value;
            NonEmpty(m) && Total(others, m) <= Content(x)
  {
    var text := Joined(x, params);
    FirstStays(text, map[], false);
    if params == map[] {
      TotalBound(x, map[], others);
    } else {
      JoinedBound(x, params, Lex.SortedKeys(params.Keys), ParseQuery(text).value, others);
    }
  }

  lemma {:induction false} JoinedBound(x: string, params: map<string, string>, keys: seq<string>, m: Values,
                                       others: seq<string>)
    requires AllBytes(params) && Distinct(others) && forall e :: e in others ==> e !in params && e in m
    requires params != map[] && keys == Lex.SortedKeys(params.Keys) && NonEmpty(m) && SaidAgain(params, m)
    requires ParseSegments(Joined(x, params), map[], false) == (m, false)
    ensures Total(others, m) <= Content(x)
  {
    JoinedFirst(x, params, keys);
    if |keys| == 1 {
      OpeningBound(x, keys[0], params[keys[0]], m, others);
    } else {
      Behind(x, params, keys, m, others);
    }
  }
}
