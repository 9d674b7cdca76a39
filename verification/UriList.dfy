/** Comma-separated lists of engine URIs and the de-duplication of their names
    (engine/uri.go, `ParseURIs`). */
module UriList {
  import opened Common
  import opened Text
  import opened Uri
  import opened UriScan
  import opened UriRoundTrip
  import QueryCodec
  import UriCode

  // ---------- specification ----------

  /** One comma-separated part: skipped, rejected or a configuration. */
  datatype Part = Blank | Bad(error: Error) | Good(cfg: Config)

  function ReadPart(env: Env, part: string): Part {
    if Trim(part) == "" then Blank
    else
      match Parsed(env, Trim(part))
      case Err(e) => Bad(e)
      case Ok(c) => Good(c)
  }

  function ReadParts(env: Env, parts: seq<string>): seq<Part> {
    seq(|parts|, i requires 0 <= i < |parts| => ReadPart(env, parts[i]))
  }

  /** The configurations of the parts from position `i` on, behind those found before, or
      the first error. */
  function Collect(parts: seq<Part>, i: nat, found: seq<Config>): Result<seq<Config>, Error>
    requires i <= |parts|
    decreases |parts| - i
  {
    if i == |parts| then Ok(found)
    else
      match parts[i]
      case Blank => Collect(parts, i + 1, found)
      case Bad(e) => Err(e)
      case Good(c) => Collect(parts, i + 1, found + [c])
  }

  function Names(cfgs: seq<Config>): seq<string> {
    seq(|cfgs|, i requires 0 <= i < |cfgs| => cfgs[i].name)
  }

  function Count(names: seq<string>, x: string): nat {
    if names == [] then 0 else Count(names[..|names| - 1], x) + if names[|names| - 1] == x then 1 else 0
  }

  function Suffixed(name: string, n: nat): string {
    name + "-" + Decimal(n)
  }

  /** The name the `i`-th configuration of a list ends up with. */
  function FinalName(names: seq<string>, i: nat): string
    requires i < |names|
  {
    var n := Count(names[..i + 1], names[i]);
    if n > 1 then Suffixed(names[i], n) else names[i]
  }

  function FinalNames(names: seq<string>): seq<string> {
    seq(|names|, i requires 0 <= i < |names| => FinalName(names, i))
  }

  function Deduped(cfgs: seq<Config>): (r: seq<Config>)
    ensures |r| == |cfgs|
  {
    seq(|cfgs|, i requires 0 <= i < |cfgs| => cfgs[i].(name := FinalName(Names(cfgs), i)))
  }

  /** The result of `ParseURIs`. */
  function ParsedList(env: Env, raw: string): Result<seq<Config>, Error> {
    var text := Trim(raw);
    if text == "" then Err(EmptyInput)
    else
      match Collect(ReadParts(env, Split(text, ',')), 0, [])
      case Err(e) => Err(e)
      case Ok(cfgs) => if cfgs == [] then Err(NoURIs) else Ok(Deduped(cfgs))
  }

  // ---------- the loop ----------

  lemma {:induction false} NamesAppend(cfgs: seq<Config>, c: Config)
    ensures Names(cfgs + [c]) == Names(cfgs) + [c.name]
  {
  }

  lemma {:induction false} DedupedAppend(cfgs: seq<Config>, c: Config)
    ensures Deduped(cfgs + [c]) == Deduped(cfgs) + [Ranked(c, Count(Names(cfgs), c.name) + 1)]
    ensures forall x :: Count(Names(cfgs + [c]), x) == Count(Names(cfgs), x) + if x == c.name then 1 else 0
  {
    NamesAppend(cfgs, c);
    var names, names' := Names(cfgs), Names(cfgs + [c]);
    assert names'[..|cfgs| + 1] == names' && names'[..|cfgs|] == names;
    forall i | 0 <= i < |cfgs|
      ensures FinalName(names', i) == FinalName(names, i)
    {
      assert names'[..i + 1] == names[..i + 1];
    }
  }

  /** The configuration of rank `n` among those that share its name. */
  function Ranked(c: Config, n: nat): Config {
    if n > 1 then c.(name := Suffixed(c.name, n)) else c
  }

  /** A Go map of counters reads 0 for a missing key. */
  function Tally(m: map<string, nat>, x: string): nat {
    if x in m then m[x] else 0
  }

  ghost predicate Tallies(m: map<string, nat>, names: seq<string>) {
    forall x :: Tally(m, x) == Count(names, x)
  }

  /** Counting one more name hands out the rank de-duplication gives it. */
  lemma {:induction false} TallyStep(m: map<string, nat>, cfgs: seq<Config>, c: Config, n: nat)
    requires Tallies(m, Names(cfgs)) && n == Tally(m, c.name) + 1
    ensures Tallies(m[c.name := n], Names(cfgs + [c]))
    ensures Deduped(cfgs + [c]) == Deduped(cfgs) + [Ranked(c, n)]
  {
    DedupedAppend(cfgs, c);
  }

  lemma {:induction false} CollectStep(parts: seq<Part>, i: nat, found: seq<Config>)
    requires i < |parts|
    ensures Collect(parts, i, found)
         == match parts[i] {
              case Blank => Collect(parts, i + 1, found)
              case Bad(e) => Err(e)
              case Good(c) => Collect(parts, i + 1, found + [c])
            }
  {
  }

  method ParseURIs(env: Env, raw: string) returns (r: Result<seq<Config>, Error>)
    ensures r == ParsedList(env, raw)
  {
    var text := Trim(raw);
    if text == "" {
      return Err(EmptyInput);
    }
    r := ParseParts(env, Split(text, ','));
    if r.Ok? && r.value == [] {
      r := Err(NoURIs);
    }
  }

  method ParseParts(env: Env, parts: seq<string>) returns (r: Result<seq<Config>, Error>)
    ensures r == match Collect(ReadParts(env, parts), 0, []) { case Err(e) => Err(e) case Ok(cs) => Ok(Deduped(cs)) }
  {
    var configs: seq<Config> := [];
    var nameCount: map<string, nat> := map[];
    ghost var done: seq<Config> := [];
    ghost var read := ReadParts(env, parts);
    for i := 0 to |parts|
      invariant Collect(read, 0, []) == Collect(read, i, done)
      invariant configs == Deduped(done)
      invariant Tallies(nameCount, Names(done))
    {
      CollectStep(read, i, done);
      var part := Trim(parts[i]);
      if part != "" {
        var parsed := UriCode.ParseURI(env, part);
        if parsed.Err? {
          return Err(parsed.error);
        }
        var cfg := parsed.value;
        var n := Tally(nameCount, cfg.name) + 1;
        TallyStep(nameCount, done, cfg, n);
        nameCount := nameCount[cfg.name := n];
        done := done + [cfg];
        configs := configs + [Ranked(cfg, n)];
      }
    }
    return Ok(configs);
  }

  // ---------- distinct names ----------

  /** Some name is another one with a suffix that de-duplication hands out. */
  ghost predicate Collides(names: seq<string>, x: string, y: string, k: nat) {
    x in names && 2 <= k <= Count(names, y) && x == Suffixed(y, k)
  }

  lemma {:induction false} SuffixInjective(x: string, m: nat, y: string, n: nat)
    requires Suffixed(x, m) == Suffixed(y, n)
    ensures x == y && m == n
  {
    assert '-' !in Decimal(m) && '-' !in Decimal(n);
    LastIndexOfAppend(x, '-', Decimal(m));
    LastIndexOfAppend(y, '-', Decimal(n));
    var w := Suffixed(x, m);
    assert w[..|x|] == x && w[..|y|] == y;
    assert w[|x| + 1..] == Decimal(m) && w[|y| + 1..] == Decimal(n);
    DecimalInjective(m, n);
  }

  lemma {:induction false} CountGrows(names: seq<string>, x: string, i: nat, j: nat)
    requires i <= j <= |names|
    ensures Count(names[..i], x) <= Count(names[..j], x)
    decreases j
  {
    if i < j {
      CountGrows(names, x, i, j - 1);
      assert names[..j][..j - 1] == names[..j - 1];
    }
  }

  lemma {:induction false} CountAt(names: seq<string>, i: nat)
    requires i < |names|
    ensures Count(names[..i + 1], names[i]) == Count(names[..i], names[i]) + 1
  {
    assert names[..i + 1][..i] == names[..i];
  }

  /** Every rank up to the count is taken by some position. */
  lemma {:induction false} RankTaken(names: seq<string>, x: string, k: nat) returns (m: nat)
    requires 1 <= k <= Count(names, x)
    ensures m < |names| && names[m] == x && Count(names[..m + 1], x) == k
  {
    var last := |names| - 1;
    if k <= Count(names[..last], x) {
      m := RankTaken(names[..last], x, k);
      assert names[..last][..m + 1] == names[..m + 1];
    } else {
      m := last;
      assert names[..last + 1] == names;
    }
  }

  lemma {:induction false} EqualFinalsCollide(names: seq<string>, i: nat, j: nat)
    requires i < j < |names| && FinalName(names, i) == FinalName(names, j)
    ensures exists x, y, k :: Collides(names, x, y, k)
  {
    var a, b := names[i], names[j];
    var m, n := Count(names[..i + 1], a), Count(names[..j + 1], b);
    CountAt(names, i);
    CountAt(names, j);
    CountGrows(names, a, i + 1, j);
    CountGrows(names, a, i + 1, |names|);
    CountGrows(names, b, j + 1, |names|);
    assert names[..|names|] == names;
    if m > 1 && n > 1 {
      SuffixInjective(a, m, b, n);
    } else if m > 1 {
      assert Collides(names, b, a, m);
    } else if n > 1 {
      assert Collides(names, a, b, n);
    }
  }

  /** A name that occurs has a first occurrence, which keeps it. */
  lemma {:induction false} CountPositive(names: seq<string>, x: string)
    requires x in names
    ensures Count(names, x) >= 1
  {
    var i :| 0 <= i < |names| && names[i] == x;
    CountAt(names, i);
    CountGrows(names, x, i + 1, |names|);
    assert names[..|names|] == names;
  }

  lemma {:induction false} CollisionRepeats(names: seq<string>, x: string, y: string, k: nat)
    requires Collides(names, x, y, k)
    ensures !Distinct(FinalNames(names))
  {
    CountPositive(names, x);
    var f := RankTaken(names, x, 1);
    var m := RankTaken(names, y, k);
    assert |x| > |y|;
    var finals := FinalNames(names);
    assert finals[f] == x && finals[m] == x && f != m;
  }

  /** De-duplicated names are pairwise distinct exactly when no input name is another
      input name with a suffix between 2 and the number of times that other name occurs. */
  lemma {:induction false} DistinctIff(names: seq<string>)
    ensures Distinct(FinalNames(names)) <==> !exists x, y, k :: Collides(names, x, y, k)
  {
    if !Distinct(FinalNames(names)) {
      var i, j :| 0 <= i < j < |names| && FinalNames(names)[i] == FinalNames(names)[j];
      EqualFinalsCollide(names, i, j);
    }
    if x, y, k :| Collides(names, x, y, k) {
      CollisionRepeats(names, x, y, k);
    }
  }

  /** The smallest colliding list: `a`, `a`, `a-2`. */
  lemma {:induction false} CollisionExample()
    ensures FinalNames(["a", "a", "a-2"]) == ["a", "a-2", "a-2"]
  {
    var names := ["a", "a", "a-2"];
    assert names[..1] == ["a"] && names[..2] == ["a", "a"] && names[..3] == names;
    assert names[..0] == [] && ["a"][..0] == [] && ["a", "a"][..1] == ["a"] && names[..2][..1] == ["a"];
    assert Count(["a"], "a") == 1;
    assert Count(["a", "a"], "a") == 2;
    assert Count(["a"], "a-2") == 0;
    assert Count(["a", "a"], "a-2") == 0;
    assert Count(names, "a-2") == 1;
    assert Decimal(2) == "2";
    assert "a" + "-" + "2" == "a-2";
  }

  // ---------- the round trip of lists ----------

  /** Nothing the printer leaves unescaped holds a comma, and no space leads the text. */
  ghost predicate CommaFree(cfg: Config) {
    && ',' !in cfg.provider && ',' !in cfg.apiKey && ',' !in SecretOf(cfg) && ',' !in cfg.baseURL
    && (cfg.provider != "" ==> !IsSpace(cfg.provider[0]))
  }

  ghost predicate Listable(env: Env, cfg: Config) {
    GoTyped(cfg) && Plain(cfg) && WellFormed(env, cfg) && CommaFree(cfg)
  }

  function PrintedEach(env: Env, cfgs: seq<Config>): seq<string> {
    seq(|cfgs|, i requires 0 <= i < |cfgs| => Printed(env, cfgs[i]))
  }

  lemma {:induction false} AuthorityNoComma(key: string, secret: string, baseURL: string)
    requires ',' !in key && ',' !in secret && ',' !in baseURL
    ensures ',' !in AuthorityText(key, secret, baseURL)
  {
    assert ',' !in TrimPrefix(baseURL, HTTPS);
    assert ',' !in HostPart(baseURL);
    assert ',' !in UserText(key, secret);
  }

  lemma {:induction false} QueryTextShape(params: map<string, string>)
    ensures var q := QueryText(params);
            && (q == "" <==> params == map[])
            && ',' !in q
            && (q != "" ==> !IsSpace(q[|q| - 1]))
  {
    if params != map[] {
      QueryCodec.EncodeShape(params);
      QueryCodec.QueryCharsArePlain(QueryCodec.Encode(params));
    }
  }

  lemma {:induction false} TextShape(p: string, a: string, q: string)
    requires ',' !in p && ',' !in a && ',' !in q
    requires p != "" ==> !IsSpace(p[0])
    requires a != "" && (q == "" ==> !IsSpace(a[|a| - 1]))
    requires q != "" ==> !IsSpace(q[|q| - 1])
    ensures var t := p + MARK + WithQuery(a, q);
            ',' !in t && t != "" && NoOuterSpace(t)
  {
    var t := p + MARK + WithQuery(a, q);
    assert t[0] == if p != "" then p[0] else ':';
    assert t[|t| - 1] == if q != "" then q[|q| - 1] else a[|a| - 1];
  }

  lemma {:induction false} PrintedShape(env: Env, cfg: Config)
    requires Listable(env, cfg)
    ensures ',' !in Printed(env, cfg)
    ensures Printed(env, cfg) != "" && NoOuterSpace(Printed(env, cfg))
  {
    var a := AuthorityText(cfg.apiKey, SecretOf(cfg), cfg.baseURL);
    AuthorityNoComma(cfg.apiKey, SecretOf(cfg), cfg.baseURL);
    QueryTextShape(Params(env, cfg));
    assert a != "";
    TextShape(cfg.provider, a, QueryText(Params(env, cfg)));
  }

  lemma {:induction false} ParseOnePrinted(env: Env, cfg: Config)
    requires DurationsRoundTrip(env) && Listable(env, cfg)
    ensures ReadPart(env, Printed(env, cfg)) == Good(cfg)
  {
    PrintedShape(env, cfg);
    TrimOfTrimmed(Printed(env, cfg));
    RoundTrip(env, cfg);
  }

  lemma {:induction false} JoinEnds(parts: seq<string>)
    requires parts != [] && forall i :: 0 <= i < |parts| ==> parts[i] != "" && NoOuterSpace(parts[i])
    ensures Join(parts, ',') != "" && NoOuterSpace(Join(parts, ','))
  {
    if |parts| > 1 {
      JoinEnds(parts[1..]);
    }
  }

  lemma {:induction false} CollectGood(parts: seq<Part>, i: nat, cfgs: seq<Config>)
    requires i <= |parts| == |cfgs|
    requires forall j :: 0 <= j < |cfgs| ==> parts[j] == Good(cfgs[j])
    ensures Collect(parts, i, cfgs[..i]) == Ok(cfgs)
    decreases |parts| - i
  {
    if i < |parts| {
      CollectGood(parts, i + 1, cfgs);
      assert cfgs[..i] + [cfgs[i]] == cfgs[..i + 1];
    } else {
      assert cfgs[..i] == cfgs;
    }
  }

  lemma {:induction false} DistinctKeepNames(names: seq<string>)
    ensures FinalNames(names) == names <==> Distinct(names)
  {
    if Distinct(names) {
      forall i | 0 <= i < |names|
        ensures FinalName(names, i) == names[i]
      {
        if Count(names[..i + 1], names[i]) > 1 {
          CountAt(names, i);
          var m := RankTaken(names[..i], names[i], 1);
        }
      }
    } else {
      var i, j :| 0 <= i < j < |names| && names[i] == names[j];
      CountAt(names, i);
      CountAt(names, j);
      CountGrows(names, names[i], i + 1, j);
      assert |FinalName(names, j)| > |names[j]|;
      assert FinalNames(names)[j] != names[j];
    }
  }

  lemma {:induction false} DedupedIff(cfgs: seq<Config>)
    ensures Deduped(cfgs) == cfgs <==> Distinct(Names(cfgs))
  {
    var names := Names(cfgs);
    DistinctKeepNames(names);
    if Deduped(cfgs) == cfgs {
      forall i | 0 <= i < |cfgs|
        ensures FinalNames(names)[i] == names[i]
      {
        assert Deduped(cfgs)[i].name == FinalName(names, i);
      }
      assert FinalNames(names) == names;
    } else {
      var i :| 0 <= i < |cfgs| && Deduped(cfgs)[i] != cfgs[i];
      assert FinalNames(names)[i] != names[i];
    }
  }

  /** The round trip of a list: parsing the comma-joined texts gives back exactly the
      list, if and only if the names are pairwise distinct. */
  lemma {:induction false} ListRoundTrip(env: Env, cfgs: seq<Config>)
    requires DurationsRoundTrip(env) && cfgs != []
    requires forall i :: 0 <= i < |cfgs| ==> Listable(env, cfgs[i])
    ensures ParsedList(env, Join(PrintedEach(env, cfgs), ',')) == Ok(cfgs) <==> Distinct(Names(cfgs))
  {
    var texts := PrintedEach(env, cfgs);
    forall i | 0 <= i < |cfgs|
      ensures ',' !in texts[i] && texts[i] != "" && NoOuterSpace(texts[i])
      ensures ReadPart(env, texts[i]) == Good(cfgs[i])
    {
      PrintedShape(env, cfgs[i]);
      ParseOnePrinted(env, cfgs[i]);
    }
    JoinEnds(texts);
    TrimOfTrimmed(Join(texts, ','));
    SplitJoin(texts, ',');
    CollectGood(ReadParts(env, texts), 0, cfgs);
    DedupedIff(cfgs);
  }
}
