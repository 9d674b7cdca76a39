/** An alias of a name with a scheme mark (engine/uri.go, `RegisterSchemeAlias`): what is read
    as the query then begins inside the provider, and a configuration that is not plain can
    come back all the same. */
module UriAlias {
  import opened Common
  import opened Text
  import opened Uri
  import opened UriScan
  import QueryCodec
  import Lex

  /** The name the alias `x` leads to. */
  const LOOP: string := "x://k?0&"
  const ECHO: string := "://k?0"

  ghost predicate OneAlias(env: Env) {
    env.factories == {} && env.aliases == map["x" := LOOP]
  }

  /** A key and two empty parameters, the second of them a piece of the text itself. */
  function Looped(): Config {
    Config(LOOP, LOOP, "", "", "", "k", "", map["0" := "", ECHO := ""], "", "", "", 0, "", None, 0)
  }

  lemma {:induction false} NotKnown()
    ensures "0" !in KNOWN && ECHO !in KNOWN && SECRET != "0" && SECRET != ECHO && "0" != ECHO
  {
    assert |ECHO| == 6 && ECHO[0] == ':' && |SECRET| == 9;
  }

  lemma {:induction false} LoopedParams(env: Env)
    ensures Params(env, Looped()) == map["0" := "", ECHO := ""]
  {
    NotKnown();
    assert OwnParams(env, Looped()) == map[];
  }

  lemma {:induction false} LoopedKeys()
    ensures Lex.SortedKeys({"0", ECHO}) == ["0", ECHO]
  {
    NotKnown();
    var keys := ["0", ECHO];
    assert Lex.Leq("0", ECHO);
    assert |{"0", ECHO}| == 2;
    Lex.SortedUnique(Lex.SortedKeys({"0", ECHO}), keys);
  }

  function Behind(): string {
    QueryCodec.Pair(ECHO, "")
  }

  lemma {:induction false} EncodeTwo(k: string, v: string, j: string, w: string)
    requires k != j && Lex.SortedKeys({k, j}) == [k, j]
    ensures QueryCodec.Encode(map[k := v, j := w]) == QueryCodec.Pair(k, v) + "&" + QueryCodec.Pair(j, w)
  {
    var params := map[k := v, j := w];
    assert params.Keys == {k, j};
    assert [k, j][1..] == [j];
    assert QueryCodec.EncodeKeys([j], params) == QueryCodec.Pair(j, w);
  }

  lemma {:induction false} ZeroPair()
    ensures QueryCodec.Pair("0", "") == "0="
  {
    assert "0"[1..] == "";
    assert QueryCodec.Escape("0") == "0";
  }

  lemma {:induction false} TwoParams(params: map<string, string>)
    requires params == map["0" := "", ECHO := ""]
    ensures QueryText(params) == "0=&" + Behind()
  {
    NotKnown();
    LoopedKeys();
    EncodeTwo("0", "", ECHO, "");
    ZeroPair();
    assert "0=" + "&" == "0=&";
    assert "0" in params;
  }

  lemma {:induction false} LoopedQuery(env: Env)
    ensures QueryText(Params(env, Looped())) == "0=&" + Behind()
  {
    LoopedParams(env);
    TwoParams(Params(env, Looped()));
  }

  lemma {:induction false} SameText(b: string)
    ensures LOOP + MARK + ("k" + ['?'] + ("0=&" + b)) == "x" + MARK + ("k" + ['?'] + ("0&" + ECHO + "=&" + b))
  {
    assert LOOP + MARK + ("k" + ['?'] + ("0=&" + b)) == (LOOP + MARK + "k?0=&") + b;
    assert "x" + MARK + ("k" + ['?'] + ("0&" + ECHO + "=&" + b)) == ("x" + MARK + "k?0&" + ECHO + "=&") + b;
    assert LOOP + MARK + "k?0=&" == "x" + MARK + "k?0&" + ECHO + "=&";
  }

  lemma {:induction false} PrintedLooped(env: Env, query: string)
    requires query == QueryText(Params(env, Looped())) != ""
    ensures Printed(env, Looped()) == LOOP + MARK + ("k" + ['?'] + query)
  {
    NotKnown();
    assert SecretOf(Looped()) == "";
    assert AuthorityText("k", "", "") == "k";
  }

  function Seen(): string {
    "0&" + ECHO + "=&" + Behind()
  }

  lemma {:induction false} LoopedText(env: Env)
    ensures Printed(env, Looped()) == "x" + MARK + WithQuery("k", Seen())
  {
    LoopedQuery(env);
    PrintedLooped(env, "0=&" + Behind());
    SameText(Behind());
    assert Seen() != "";
  }

  lemma {:induction false} PlainUnescape(s: string)
    requires '%' !in s && '+' !in s
    ensures QueryCodec.Unescape(s) == Some(s)
  {
    if s != "" {
      PlainUnescape(s[1..]);
      assert s == [s[0]] + s[1..];
    }
  }

  /** A segment without escapes, with or without an equals sign and then no value. */
  lemma {:induction false} BareSegment(k: string, rest: string, m: QueryCodec.Values)
    requires k != "" && forall c :: c in k ==> c !in "%+&;="
    ensures QueryCodec.ParseSegments(k + "&" + rest, m, false)
         == QueryCodec.ParseSegments(rest, QueryCodec.Add(m, k, ""), false)
    ensures QueryCodec.ParseSegments(k + "=" + "&" + rest, m, false)
         == QueryCodec.ParseSegments(rest, QueryCodec.Add(m, k, ""), false)
  {
    PlainUnescape(k);
    QueryCodec.ParseSegment(k, rest, k + "&" + rest, m);
    var e := k + "=";
    IndexOfAppend(k, '=', "");
    assert e == k + "=" + "";
    assert e[..|k|] == k && e[|k| + 1..] == "";
    QueryCodec.ParseSegment(e, rest, e + "&" + rest, m);
  }

  lemma {:induction false} EchoOnce()
    ensures QueryCodec.Add(QueryCodec.Add(map[], "0", ""), ECHO, "") == map["0" := [""], ECHO := [""]]
  {
    NotKnown();
  }

  lemma {:induction false} TwoSegments(k: string, j: string, b: string, m: QueryCodec.Values)
    requires k != "" && (forall c :: c in k ==> c !in "%+&;=") && j != "" && (forall c :: c in j ==> c !in "%+&;=")
    ensures QueryCodec.ParseSegments(k + "&" + (j + "=" + "&" + b), m, false)
         == QueryCodec.ParseSegments(b, QueryCodec.Add(QueryCodec.Add(m, k, ""), j, ""), false)
  {
    BareSegment(k, j + "=" + "&" + b, m);
    BareSegment(j, b, QueryCodec.Add(m, k, ""));
  }

  lemma {:induction false} LoopedSegments(b: string, m: QueryCodec.Values)
    requires m == map["0" := [""], ECHO := [""]]
    ensures QueryCodec.ParseSegments("0" + "&" + (ECHO + "=" + "&" + b), map[], false)
         == QueryCodec.ParseSegments(b, m, false)
  {
    TwoSegments("0", ECHO, b, map[]);
    EchoOnce();
  }

  lemma {:induction false} LastPair(m: QueryCodec.Values, n: QueryCodec.Values)
    requires n == QueryCodec.Add(m, ECHO, "")
    ensures QueryCodec.ParseSegments(Behind(), m, false) == (n, false)
  {
    assert IsBytes(ECHO) && IsBytes("");
    QueryCodec.ParsePair(ECHO, "", "", Behind(), m);
    assert QueryCodec.ParseSegments("", n, false) == (n, false);
  }

  lemma {:induction false} EchoTwice(m: QueryCodec.Values)
    requires m == map["0" := [""], ECHO := [""]]
    ensures QueryCodec.Add(m, ECHO, "") == map["0" := [""], ECHO := ["", ""]]
  {
    NotKnown();
    assert m[ECHO] + [""] == ["", ""];
  }

  lemma {:induction false} LastSegment(m: QueryCodec.Values)
    requires m == map["0" := [""], ECHO := [""]]
    ensures QueryCodec.ParseSegments(Behind(), m, false) == (map["0" := [""], ECHO := ["", ""]], false)
  {
    EchoTwice(m);
    LastPair(m, map["0" := [""], ECHO := ["", ""]]);
  }

  lemma {:induction false} LoopedParse()
    ensures QueryCodec.ParseQuery(Seen()) == Some(map["0" := [""], ECHO := ["", ""]])
  {
    SeenParts(Behind());
    LoopedSegments(Behind(), map["0" := [""], ECHO := [""]]);
    LastSegment(map["0" := [""], ECHO := [""]]);
  }

  lemma {:induction false} SeenParts(b: string)
    ensures "0&" + ECHO + "=&" + b == "0" + "&" + (ECHO + "=" + "&" + b)
  {
  }

  lemma {:induction false} NothingKnown(vals: QueryCodec.Values)
    requires vals == map["0" := [""], ECHO := ["", ""]]
    ensures forall k :: k in KNOWN ==> QueryCodec.Get(vals, k) == ""
    ensures ExtraParams(vals) == map["0" := "", ECHO := ""]
  {
    NotKnown();
  }

  lemma {:induction false} BareConfigure(env: Env, vals: QueryCodec.Values)
    requires forall k :: k in KNOWN ==> QueryCodec.Get(vals, k) == ""
    ensures Configure(env, LOOP, Authority("k", false, "", false, ""), vals) == Looped().(metadata := ExtraParams(vals))
  {
    assert Atoi("") == None;
    assert map[] + ExtraParams(vals) == ExtraParams(vals);
  }

  lemma {:induction false} LoopedConfigure(env: Env, vals: QueryCodec.Values)
    requires vals == map["0" := [""], ECHO := ["", ""]]
    ensures Configure(env, LOOP, Authority("k", false, "", false, ""), vals) == Looped()
  {
    NothingKnown(vals);
    BareConfigure(env, vals);
  }

  lemma {:induction false} KeyOnly()
    ensures ParseAuthority(TrimRight("k")) == ParseAuthority("k") == Authority("k", false, "", false, "")
  {
    assert TrimRight("k") == "k";
    CutLastGlue(Cut("k", false, ""), '@');
    CutFirstGlue(Cut("k", false, ""), ':');
  }

  lemma {:induction false} AliasLeads(env: Env)
    requires OneAlias(env)
    ensures ResolveScheme(env, ToLower(TrimLeft("x"))) == LOOP
  {
    assert TrimLeft("x") == "x" && ToLower("x") == "x";
  }

  lemma {:induction false} LoopedFinish(env: Env)
    ensures Finish(env, LOOP, Authority("k", false, "", false, ""), Seen()) == Ok(Looped())
  {
    LoopedParse();
    LoopedConfigure(env, map["0" := [""], ECHO := ["", ""]]);
  }

  lemma {:induction false} NoMarkInX()
    ensures NoMark("x")
  {
  }

  lemma {:induction false} ScanLooped(env: Env, query: string)
    requires OneAlias(env) && query != "" && !IsSpace(query[|query| - 1])
    ensures Parsed(env, "x" + MARK + WithQuery("k", query))
         == Finish(env, LOOP, Authority("k", false, "", false, ""), query)
  {
    NoMarkInX();
    ScanPrinted(env, "x", "k", query);
    KeyOnly();
    AliasLeads(env);
  }

  lemma {:induction false} LastOfSeen()
    ensures Seen() != "" && Seen()[|Seen()| - 1] == '='
  {
    assert Behind() == QueryCodec.Escape(ECHO) + "=" + "";
    assert Behind()[|Behind()| - 1] == '=';
  }
  lemma {:induction false} LoopedBack(env: Env, text: string)
    requires OneAlias(env) && text == "x" + MARK + WithQuery("k", Seen())
    ensures Parsed(env, text) == Ok(Looped())
  {
    LastOfSeen();
    ScanLooped(env, Seen());
    LoopedFinish(env);
  }

  /** With that alias registered, a configuration whose provider has a mark in it comes back:
      the round trip is not confined to plain configurations then. */
  lemma {:induction false} AliasBringsBack(env: Env)
    requires OneAlias(env)
    ensures Parsed(env, Printed(env, Looped())) == Ok(Looped()) && !NoMark(Looped().provider)
  {
    assert MarkAt(LOOP, 1);
    LoopedText(env);
    LoopedBack(env, Printed(env, Looped()));
  }
}
