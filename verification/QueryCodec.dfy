/** `net/url`: percent-encoding of query components (section 2.1 of RFC 3986,
    with `+` for space), `Values.Encode` and `ParseQuery`. */
module QueryCodec {
  import opened Common
  import opened Text
  import Lex

  // ---------- one component ----------

  predicate Unreserved(c: char) {
    || 'a' <= c <= 'z' || 'A' <= c <= 'Z' || '0' <= c <= '9'
    || c == '-' || c == '_' || c == '.' || c == '~'
  }

  function HexDigit(d: nat): char
    requires d < 16
  {
    if d < 10 then (d + 48) as char else (d + 55) as char
  }

  predicate IsHex(c: char) {
    '0' <= c <= '9' || 'A' <= c <= 'F' || 'a' <= c <= 'f'
  }

  function HexValue(c: char): (d: nat)
    requires IsHex(c)
    ensures d < 16
  {
    if c <= '9' then c as int - 48
    else if c <= 'F' then c as int - 55
    else c as int - 87
  }

  function EscapeChar(c: char): string {
    if Unreserved(c) then [c]
    else if c == ' ' then "+"
    else ['%', HexDigit(c as int / 16 % 16), HexDigit(c as int % 16)]
  }

  /** `url.QueryEscape`. */
  function Escape(s: string): string {
    if s == "" then "" else EscapeChar(s[0]) + Escape(s[1..])
  }

  /** `url.QueryUnescape`; `None` is its error. */
  function Unescape(s: string): Option<string> {
    if s == "" then Some("")
    else if s[0] == '%' then
      if |s| < 3 || !IsHex(s[1]) || !IsHex(s[2]) then None
      else
        match Unescape(s[3..])
        case None => None
        case Some(t) => Some([(16 * HexValue(s[1]) + HexValue(s[2])) as char] + t)
    else
      match Unescape(s[1..])
      case None => None
      case Some(t) => Some([if s[0] == '+' then ' ' else s[0]] + t)
  }

  /** The characters escaping can produce: none of them delimits anything. */
  predicate IsSafe(c: char) {
    Unreserved(c) || c == '%' || c == '+'
  }

  ghost predicate AllSafe(s: string) {
    forall c :: c in s ==> IsSafe(c)
  }

  lemma {:induction false} EscapeIsSafe(s: string)
    ensures AllSafe(Escape(s))
  {
    if s != "" {
      EscapeIsSafe(s[1..]);
    }
  }

  lemma {:induction false} HexRoundTrip(d: nat)
    requires d < 16
    ensures IsHex(HexDigit(d)) && HexValue(HexDigit(d)) == d
  {
  }

  /** One escaped byte in front of a text that can be unescaped. */
  lemma {:induction false} UnescapeHead(c: char, t: string)
    requires c as int < 256 && Unescape(t).Some?
    ensures Unescape(EscapeChar(c) + t) == Some([c] + Unescape(t).value)
  {
    var s := EscapeChar(c) + t;
    assert s[|EscapeChar(c)|..] == t;
    if !Unreserved(c) && c != ' ' {
      HexRoundTrip(c as int / 16);
      HexRoundTrip(c as int % 16);
      assert s[0] == '%' && s[1] == HexDigit(c as int / 16) && s[2] == HexDigit(c as int % 16);
    } else {
      assert s[0] == if c == ' ' then '+' else c;
    }
  }

  /** Unescaping undoes escaping on every byte string. */
  lemma {:induction false} UnescapeEscape(s: string)
    requires IsBytes(s)
    ensures Unescape(Escape(s)) == Some(s)
  {
    if s != "" {
      UnescapeEscape(s[1..]);
      UnescapeHead(s[0], Escape(s[1..]));
      assert s == [s[0]] + s[1..];
    }
  }

  // ---------- the two alphabets ----------

  const DIGITS: string := "0123456789ABCDEF"
  const LOWER_DIGITS: string := "0123456789abcdef"
  const CAPITALS: string := "ABCDEFGHIJKLMNOPQRSTUVWXYZ"
  const SMALL: string := "abcdefghijklmnopqrstuvwxyz"
  const UNRESERVED: string := CAPITALS + SMALL + "0123456789" + "-_.~"

  lemma {:induction false} CapitalAt(c: char)
    ensures 'A' <= c <= 'Z' <==> c in CAPITALS
  {
    if 'A' <= c <= 'Z' {
      assert CAPITALS[c as int - 'A' as int] == c;
    }
  }

  lemma {:induction false} SmallAt(c: char)
    ensures 'a' <= c <= 'z' <==> c in SMALL
  {
    if 'a' <= c <= 'z' {
      assert SMALL[c as int - 'a' as int] == c;
    }
  }

  lemma {:induction false} NumberAt(c: char)
    ensures '0' <= c <= '9' <==> c in "0123456789"
  {
    if '0' <= c <= '9' {
      assert "0123456789"[c as int - '0' as int] == c;
    }
  }

  lemma {:induction false} MarkAt(c: char)
    ensures c == '-' || c == '_' || c == '.' || c == '~' <==> c in "-_.~"
  {
    assert "-_.~"[0] == '-' && "-_.~"[1] == '_' && "-_.~"[2] == '.' && "-_.~"[3] == '~';
  }

  /** The unreserved characters of RFC 3986, section 2.3. */
  lemma {:induction false} UnreservedAlphabet(c: char)
    ensures Unreserved(c) <==> c in UNRESERVED
  {
    CapitalAt(c);
    SmallAt(c);
    NumberAt(c);
    MarkAt(c);
  }

  /** Hexadecimal digits are read in either case and written in capitals. */
  lemma {:induction false} HexAlphabet(c: char, d: nat)
    requires d < 16
    ensures IsHex(c) <==> c in DIGITS || c in LOWER_DIGITS
    ensures HexDigit(d) == DIGITS[d]
    ensures HexValue(DIGITS[d]) == d && HexValue(LOWER_DIGITS[d]) == d
  {
  }

  lemma {:induction false} EscapeOne(c: char)
    ensures Escape([c]) == EscapeChar(c)
  {
    assert [c][1..] == "";
    assert Escape([c]) == EscapeChar(c) + "";
  }

  /** A percent sign and two hexadecimal digits, the higher one first. */
  ghost predicate Percent(c: char, text: string) {
    exists hi: nat, lo: nat :: hi < 16 && lo < 16 && c as int == 16 * hi + lo && text == ['%', DIGITS[hi], DIGITS[lo]]
  }

  lemma {:induction false} EscapeOther(c: char)
    requires c as int < 256 && !Unreserved(c) && c != ' '
    ensures Percent(c, EscapeChar(c))
  {
    var hi: nat, lo: nat := c as int / 16 % 16, c as int % 16;
    HexAlphabet(c, hi);
    HexAlphabet(c, lo);
    assert c as int == 16 * hi + lo;
  }

  /** What one byte is escaped to: itself if unreserved, a plus sign for a blank, and else a
      percent sign and its two hexadecimal digits. */
  lemma {:induction false} EscapeByte(c: char)
    requires c as int < 256
    ensures c in UNRESERVED ==> Escape([c]) == [c]
    ensures c == ' ' ==> Escape([c]) == "+"
    ensures c !in UNRESERVED && c != ' ' ==> Percent(c, Escape([c]))
  {
    EscapeOne(c);
    UnreservedAlphabet(c);
    if !Unreserved(c) && c != ' ' {
      EscapeOther(c);
    }
  }

  lemma {:induction false} EscapeAppend(s: string, t: string)
    ensures Escape(s + t) == Escape(s) + Escape(t)
  {
    if s == "" {
      assert s + t == t;
    } else {
      EscapeAppend(s[1..], t);
      assert (s + t)[1..] == s[1..] + t;
      Associative(EscapeChar(s[0]), Escape(s[1..]), Escape(t));
    }
  }

  // ---------- a whole query ----------

  /** `url.Values`. */
  type Values = map<string, seq<string>>

  function Pair(k: string, v: string): string {
    Escape(k) + "=" + Escape(v)
  }

  function EncodeKeys(keys: seq<string>, params: map<string, string>): string
    requires forall k :: k in keys ==> k in params
  {
    if keys == [] then ""
    else if |keys| == 1 then Pair(keys[0], params[keys[0]])
    else Pair(keys[0], params[keys[0]]) + "&" + EncodeKeys(keys[1..], params)
  }

  /** `Values.Encode` for values set once each: pairs in key order. */
  function Encode(params: map<string, string>): string {
    EncodeKeys(Lex.SortedKeys(params.Keys), params)
  }

  function Add(m: Values, k: string, v: string): Values {
    m[k := if k in m then m[k] + [v] else [v]]
  }

  /** The loop of `url.parseQuery`; `bad` records that some segment was malformed. */
  function ParseSegments(query: string, m: Values, bad: bool): (Values, bool)
    decreases |query|
  {
    if query == "" then (m, bad)
    else
      var i := IndexOf(query, '&');
      var segment := if i < 0 then query else query[..i];
      var rest := if i < 0 then "" else query[i + 1..];
      if ';' in segment then ParseSegments(rest, m, true)
      else if segment == "" then ParseSegments(rest, m, bad)
      else
        var e := IndexOf(segment, '=');
        var key := Unescape(if e < 0 then segment else segment[..e]);
        var value := Unescape(if e < 0 then "" else segment[e + 1..]);
        if key.None? || value.None? then ParseSegments(rest, m, true)
        else ParseSegments(rest, Add(m, key.value, value.value), bad)
  }

  /** `url.ParseQuery`; `None` is its error. */
  function ParseQuery(query: string): Option<Values> {
    var (m, bad) := ParseSegments(query, map[], false);
    if bad then None else Some(m)
  }

  /** `Values.Get`. */
  function Get(m: Values, k: string): string {
    if k in m && m[k] != [] then m[k][0] else ""
  }

  function Listed(keys: seq<string>, params: map<string, string>): Values
    requires forall k :: k in keys ==> k in params
  {
    map k | k in keys :: [params[k]]
  }

  function Singletons(params: map<string, string>): Values {
    map k | k in params :: [params[k]]
  }

  // ---------- the round trip ----------

  lemma {:induction false} SafeHasNo(s: string, c: char)
    requires AllSafe(s) && !IsSafe(c)
    ensures c !in s
  {
  }

  /** The characters of an encoded query. */
  predicate IsQueryChar(c: char) {
    IsSafe(c) || c == '=' || c == '&'
  }

  ghost predicate AllQueryChars(s: string) {
    forall c :: c in s ==> IsQueryChar(c)
  }

  lemma {:induction false} PairChars(k: string, v: string)
    ensures AllQueryChars(Pair(k, v)) && '&' !in Pair(k, v) && Pair(k, v) != ""
  {
    EscapeIsSafe(k);
    EscapeIsSafe(v);
  }

  lemma {:induction false} EncodeKeysChars(keys: seq<string>, params: map<string, string>)
    requires forall k :: k in keys ==> k in params
    ensures AllQueryChars(EncodeKeys(keys, params))
    ensures keys != [] ==> EncodeKeys(keys, params) != ""
  {
    if keys != [] {
      PairChars(keys[0], params[keys[0]]);
      EncodeKeysChars(keys[1..], params);
    }
  }

  /** Where the loop cuts the query. */
  lemma {:induction false} CutSegment(segment: string, more: string, query: string)
    requires '&' !in segment
    requires (query == segment && more == "") || query == segment + "&" + more
    ensures var i := IndexOf(query, '&');
            && (if i < 0 then query else query[..i]) == segment
            && (if i < 0 then "" else query[i + 1..]) == more
  {
    if query == segment + "&" + more {
      IndexOfAppend(segment, '&', more);
      assert query[..|segment|] == segment && query[|segment| + 1..] == more;
    }
  }

  /** One turn of the parsing loop on a well-formed segment. */
  lemma {:induction false} ParseSegment(segment: string, more: string, query: string, m: Values)
    requires segment != "" && '&' !in segment && ';' !in segment
    requires (query == segment && more == "") || query == segment + "&" + more
    ensures var e := IndexOf(segment, '=');
            var key := Unescape(if e < 0 then segment else segment[..e]);
            var value := Unescape(if e < 0 then "" else segment[e + 1..]);
            key.Some? && value.Some? ==>
              ParseSegments(query, m, false) == ParseSegments(more, Add(m, key.value, value.value), false)
  {
    CutSegment(segment, more, query);
    assert query != "";
  }

  /** Parsing one printed pair, followed by nothing or by `&` and more. */
  lemma {:induction false} ParsePair(k: string, v: string, more: string, query: string, m: Values)
    requires IsBytes(k) && IsBytes(v)
    requires (query == Pair(k, v) && more == "") || query == Pair(k, v) + "&" + more
    ensures ParseSegments(query, m, false) == ParseSegments(more, Add(m, k, v), false)
  {
    var p := Pair(k, v);
    PairChars(k, v);
    assert !IsQueryChar(';');
    ParseSegment(p, more, query, m);
    CutPair(k, v);
    UnescapeEscape(k);
    UnescapeEscape(v);
  }

  /** Where a printed pair is cut. */
  lemma {:induction false} CutPair(k: string, v: string)
    ensures var p := Pair(k, v);
            var e := IndexOf(p, '=');
            e >= 0 && p[..e] == Escape(k) && p[e + 1..] == Escape(v)
  {
    var p := Pair(k, v);
    EscapeIsSafe(k);
    SafeHasNo(Escape(k), '=');
    IndexOfAppend(Escape(k), '=', Escape(v));
    assert p[..|Escape(k)|] == Escape(k);
    assert p[|Escape(k)| + 1..] == Escape(v);
  }

  lemma {:induction false} ParseEncodeKeys(keys: seq<string>, params: map<string, string>, m: Values)
    requires forall k :: k in keys ==> k in params && IsBytes(k) && IsBytes(params[k]) && k !in m
    requires Distinct(keys)
    ensures ParseSegments(EncodeKeys(keys, params), m, false) == (m + Listed(keys, params), false)
  {
    if keys == [] {
      assert m + Listed(keys, params) == m;
    } else {
      var k, rest := keys[0], keys[1..];
      var m' := Add(m, k, params[k]);
      ParsePair(k, params[k], EncodeKeys(rest, params), EncodeKeys(keys, params), m);
      forall j | j in rest
        ensures j in keys && j !in m'
      {
        TailMembers(keys, j);
      }
      ParseEncodeKeys(rest, params, m');
      ListedCons(keys, params, m);
    }
  }

  lemma {:induction false} ListedCons(keys: seq<string>, params: map<string, string>, m: Values)
    requires keys != [] && forall k :: k in keys ==> k in params && k !in m
    requires Distinct(keys)
    ensures Add(m, keys[0], params[keys[0]]) + Listed(keys[1..], params) == m + Listed(keys, params)
  {
    var k, rest := keys[0], keys[1..];
    assert keys == [k] + rest;
    forall j
      ensures j in rest <==> j in keys && j != k
    {
      TailMembers(keys, j);
    }
  }

  ghost predicate AllBytes(params: map<string, string>) {
    forall k :: k in params ==> IsBytes(k) && IsBytes(params[k])
  }

  /** Parsing an encoded query gives back every key with its one value, and nothing else. */
  lemma {:induction false} ParseEncode(params: map<string, string>)
    requires AllBytes(params)
    ensures ParseQuery(Encode(params)) == Some(Singletons(params))
  {
    var keys := Lex.SortedKeys(params.Keys);
    ParseEncodeKeys(keys, params, map[]);
    ListedAll(keys, params);
  }

  lemma {:induction false} ListedAll(keys: seq<string>, params: map<string, string>)
    requires forall k :: k in keys <==> k in params
    ensures map[] + Listed(keys, params) == Singletons(params)
  {
  }

  /** Encoded text is never empty and holds no white space and no delimiter of a URI. */
  lemma {:induction false} EncodeShape(params: map<string, string>)
    requires params != map[]
    ensures Encode(params) != "" && AllQueryChars(Encode(params))
  {
    assert params.Keys != {};
    EncodeKeysChars(Lex.SortedKeys(params.Keys), params);
  }

  lemma {:induction false} QueryCharsArePlain(s: string)
    requires AllQueryChars(s) && s != ""
    ensures '?' !in s && ',' !in s && '@' !in s && !IsSpace(s[|s| - 1])
  {
    assert s[|s| - 1] in s;
    assert !IsQueryChar('?') && !IsQueryChar(',') && !IsQueryChar('@');
  }
}
