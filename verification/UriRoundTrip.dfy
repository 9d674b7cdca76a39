/** Printing a configuration as a URI and parsing it back: exactly which configurations
    survive (engine/uri.go, `ToURI` then `ParseURI`). */
module UriRoundTrip {
  import opened Common
  import opened Text
  import opened Uri
  import opened UriScan
  import QueryCodec
  import opened QueryWeight
  import opened UriWeight

  /** `time.Duration` text is an opaque pair of inverse functions. */
  ghost predicate DurationsRoundTrip(env: Env) {
    forall d {:trigger env.showDuration(d)} :: d > 0 ==>
      && env.showDuration(d) != ""
      && IsBytes(env.showDuration(d))
      && env.readDuration(env.showDuration(d)) == Some(d)
  }

  /** The types of the Go record: strings of bytes and a 64-bit integer. */
  ghost predicate GoTyped(cfg: Config) {
    && IsBytes(cfg.name) && IsBytes(cfg.model) && IsBytes(cfg.quality) && IsBytes(cfg.style)
    && IsBytes(cfg.background) && IsBytes(cfg.outputFormat) && IsBytes(cfg.moderation)
    && IsBytes(cfg.capability)
    && QueryCodec.AllBytes(cfg.metadata)
    && cfg.outputCompression <= MAX_INT
  }

  /** The names that come back: the one parsing would invent, and every other one but the
      empty name, the provider, and the provider with the model as it appears in names. */
  predicate NameSurvives(cfg: Config) {
    || cfg.name == DefaultName(cfg.provider, cfg.model)
    || !(cfg.name == "" || cfg.name == cfg.provider || cfg.name == cfg.provider + "-" + SanitizeName(cfg.model))
  }

  /** No text of the configuration can be mistaken for a query or a second scheme mark. */
  ghost predicate Plain(cfg: Config) {
    NoMark(cfg.provider) && '?' !in SecretOf(cfg) && '?' !in cfg.baseURL
  }

  /** The configurations that survive. */
  predicate WellFormed(env: Env, cfg: Config) {
    && ResolveScheme(env, ToLower(TrimLeft(cfg.provider))) == cfg.provider
    && cfg.apiKey != "" && '?' !in cfg.apiKey
    && CleanAuthority(cfg.apiKey, SecretOf(cfg), cfg.baseURL)
    && (SECRET in cfg.metadata ==> cfg.metadata[SECRET] != "")
    && (forall k :: k in cfg.metadata ==> k !in KNOWN)
    && cfg.outputCompression >= 0
    && cfg.pollInterval >= 0
    && NameSurvives(cfg)
    && (Params(env, cfg) == map[] ==> !EndsInSpace(AuthorityText(cfg.apiKey, SecretOf(cfg), cfg.baseURL)))
  }

  ghost predicate NoKnownMetadata(cfg: Config) {
    forall k :: k in cfg.metadata ==> k !in KNOWN
  }

  lemma {:induction false} SecretIsNotKnown()
    ensures SECRET !in KNOWN
  {
    assert |SECRET| == 9;
  }

  // ---------- the query ----------

  lemma {:induction false} KnownIsBytes(k: string)
    requires k in KNOWN
    ensures IsBytes(k)
  {
  }

  lemma {:induction false} OwnIsBytes(env: Env, cfg: Config, k: string)
    requires DurationsRoundTrip(env) && GoTyped(cfg)
    ensures IsBytes(OwnParam(env, cfg, k))
  {
  }

  lemma {:induction false} ParamsAreBytes(env: Env, cfg: Config)
    requires DurationsRoundTrip(env) && GoTyped(cfg)
    ensures QueryCodec.AllBytes(Params(env, cfg))
  {
    forall k | k in KNOWN
      ensures IsBytes(k) && IsBytes(OwnParam(env, cfg, k))
    {
      KnownIsBytes(k);
      OwnIsBytes(env, cfg, k);
    }
  }

  lemma {:induction false} ParseOwnQuery(env: Env, cfg: Config)
    requires DurationsRoundTrip(env) && GoTyped(cfg)
    ensures QueryCodec.ParseQuery(QueryText(Params(env, cfg)))
         == Some(QueryCodec.Singletons(Params(env, cfg)))
  {
    ParamsAreBytes(env, cfg);
    QueryCodec.ParseEncode(Params(env, cfg));
  }

  lemma {:induction false} OwnLookup(env: Env, cfg: Config, k: string)
    requires NoKnownMetadata(cfg) && k in KNOWN
    ensures QueryCodec.Get(QueryCodec.Singletons(Params(env, cfg)), k) == OwnParam(env, cfg, k)
  {
  }

  lemma {:induction false} ExtraLookup(env: Env, cfg: Config)
    requires NoKnownMetadata(cfg)
    ensures ExtraParams(QueryCodec.Singletons(Params(env, cfg))) == cfg.metadata - {SECRET}
  {
  }

  // ---------- field by field ----------

  lemma {:induction false} MetadataIff(metadata: map<string, string>, secret: string)
    ensures (if secret != "" then map[SECRET := secret] else map[]) + (metadata - {SECRET}) == metadata
       <==> (if SECRET in metadata then metadata[SECRET] != "" && metadata[SECRET] == secret else secret == "")
  {
    var m := (if secret != "" then map[SECRET := secret] else map[]) + (metadata - {SECRET});
    assert SECRET in m <==> secret != "";
    assert SECRET in m ==> m[SECRET] == secret;
    assert forall k :: k != SECRET ==> (k in m <==> k in metadata) && (k in m ==> m[k] == metadata[k]);
  }

  lemma {:induction false} CompressionIff(n: int)
    requires n <= MAX_INT
    ensures ReadOr0(Atoi(if n > 0 then Decimal(n) else "")) == n <==> n >= 0
  {
    if n > 0 {
      AtoiDecimal(n);
    }
  }

  /** Which configurations the parsed fields rebuild, given what the authority parsed to. */
  lemma {:induction false} ConfigureIff(env: Env, cfg: Config, provider: string, a: Authority)
    requires DurationsRoundTrip(env) && GoTyped(cfg) && NoKnownMetadata(cfg)
    ensures Configure(env, provider, a, QueryCodec.Singletons(Params(env, cfg))) == cfg
       <==> && provider == cfg.provider
            && a.key == cfg.apiKey
            && a.secret == SecretOf(cfg)
            && FullBase(a, NeedsHttp(cfg.baseURL)) == cfg.baseURL
            && (SECRET in cfg.metadata ==> cfg.metadata[SECRET] != "")
            && cfg.outputCompression >= 0
            && cfg.pollInterval >= 0
            && NameSurvives(cfg)
  {
    var vals := QueryCodec.Singletons(Params(env, cfg));
    var c := Configure(env, provider, a, vals);
    forall k | k in KNOWN
      ensures QueryCodec.Get(vals, k) == OwnParam(env, cfg, k)
    {
      OwnLookup(env, cfg, k);
    }
    OwnTexts(env, cfg);
    OwnChoices(env, cfg);
    assert c.model == cfg.model && c.quality == cfg.quality && c.style == cfg.style
        && c.background == cfg.background && c.outputFormat == cfg.outputFormat
        && c.moderation == cfg.moderation && c.capability == cfg.capability && c.wait == cfg.wait;
    assert c.metadata == cfg.metadata <==>
             a.secret == SecretOf(cfg) && (SECRET in cfg.metadata ==> cfg.metadata[SECRET] != "") by {
      ExtraLookup(env, cfg);
      MetadataIff(cfg.metadata, a.secret);
    }
    CompressionIff(cfg.outputCompression);
    assert c.pollInterval == cfg.pollInterval <==> cfg.pollInterval >= 0;
    assert c.baseURL == FullBase(a, NeedsHttp(cfg.baseURL));
    assert provider == cfg.provider ==> (c.name == cfg.name <==> NameSurvives(cfg));
  }

  // ---------- the whole text ----------

  /** The authority text as the parser sees it: trimmed when nothing follows it. */
  function SeenAuthority(env: Env, cfg: Config): string {
    var text := AuthorityText(cfg.apiKey, SecretOf(cfg), cfg.baseURL);
    if Params(env, cfg) == map[] then TrimRight(text) else text
  }

  lemma {:induction false} AuthorityHasNoQuery(key: string, secret: string, baseURL: string)
    requires '?' !in key && '?' !in secret && '?' !in baseURL
    ensures '?' !in AuthorityText(key, secret, baseURL)
  {
    assert '?' !in TrimPrefix(baseURL, HTTPS);
    assert '?' !in HostPart(baseURL);
    assert '?' !in UserText(key, secret);
  }

  lemma {:induction false} ParsePrinted(env: Env, cfg: Config)
    requires DurationsRoundTrip(env) && GoTyped(cfg) && Plain(cfg) && '?' !in cfg.apiKey
    ensures Parsed(env, Printed(env, cfg))
         == (if ParseAuthority(SeenAuthority(env, cfg)).key == "" then Err(MissingKey)
             else Ok(Configure(env, ResolveScheme(env, ToLower(TrimLeft(cfg.provider))),
                               ParseAuthority(SeenAuthority(env, cfg)),
                               QueryCodec.Singletons(Params(env, cfg)))))
  {
    var params := Params(env, cfg);
    var query := QueryText(params);
    var text := AuthorityText(cfg.apiKey, SecretOf(cfg), cfg.baseURL);
    AuthorityHasNoQuery(cfg.apiKey, SecretOf(cfg), cfg.baseURL);
    if params != map[] {
      QueryCodec.EncodeShape(params);
      QueryCodec.QueryCharsArePlain(query);
    }
    ScanPrinted(env, cfg.provider, text, query);
    ParseOwnQuery(env, cfg);
  }

  /** The round trip: every well-formed plain configuration comes back unchanged. */
  lemma {:induction false} RoundTrip(env: Env, cfg: Config)
    requires DurationsRoundTrip(env) && GoTyped(cfg) && Plain(cfg)
    requires WellFormed(env, cfg)
    ensures Parsed(env, Printed(env, cfg)) == Ok(cfg)
  {
    ParsePrinted(env, cfg);
    AuthorityForward(cfg.apiKey, SecretOf(cfg), cfg.baseURL);
    ConfigureIff(env, cfg, cfg.provider, ParseAuthority(SeenAuthority(env, cfg)));
  }

  lemma {:induction false} KeyWithin(a: Authority, c: char)
    requires c !in AuthorityOf(a)
    ensures c !in a.key
  {
    var user := Glue(Cut(a.key, a.hasColon, a.secret), ':');
    assert c !in user;
  }

  lemma {:induction false} FinishFacts(env: Env, provider: string, text: string, query: string)
    requires '?' !in text
    ensures var r := Finish(env, provider, ParseAuthority(text), query);
            r.Ok? ==>
              && r.value.apiKey != "" && ':' !in r.value.apiKey && '?' !in r.value.apiKey
              && NoKnownMetadata(r.value)
  {
    SecretIsNotKnown();
    KeyWithin(ParseAuthority(text), '?');
  }

  lemma {:induction false} ParsedAt(env: Env, raw: string, text: string, i: int, rest: Cut)
    requires text == Trim(raw) != "" && i == IndexOfText(text, MARK) >= 0
    requires rest == CutFirst(text[i + 3..], '?')
    ensures Parsed(env, raw)
         == Finish(env, ResolveScheme(env, ToLower(text[..i])), ParseAuthority(rest.before), rest.after)
  {
  }

  lemma {:induction false} ParsedNowhere(env: Env, raw: string)
    requires Trim(raw) == "" || IndexOfText(Trim(raw), MARK) < 0
    ensures Parsed(env, raw).Err?
  {
  }

  /** What every successfully parsed configuration satisfies, whatever the text. */
  lemma {:induction false} ParsedFacts(env: Env, raw: string)
    ensures Parsed(env, raw).Ok? ==>
              var c := Parsed(env, raw).value;
              c.apiKey != "" && ':' !in c.apiKey && '?' !in c.apiKey && NoKnownMetadata(c)
  {
    var text := Trim(raw);
    var i := IndexOfText(text, MARK);
    if text != "" && i >= 0 {
      var rest := CutFirst(text[i + 3..], '?');
      ParsedAt(env, raw, text, i, rest);
      FinishFacts(env, ResolveScheme(env, ToLower(text[..i])), rest.before, rest.after);
    } else {
      ParsedNowhere(env, raw);
    }
  }

  lemma {:induction false} SeenIsWhole(env: Env, cfg: Config)
    requires NoKnownMetadata(cfg)
    ensures var text := AuthorityText(cfg.apiKey, SecretOf(cfg), cfg.baseURL);
            && SeenAuthority(env, cfg) <= text
            && (NeedsHttp(cfg.baseURL) ==> SeenAuthority(env, cfg) == text)
            && (SeenAuthority(env, cfg) == text ==> Params(env, cfg) == map[] ==> !EndsInSpace(text))
  {
    if NeedsHttp(cfg.baseURL) {
      OwnChoices(env, cfg);
      assert "scheme" in KNOWN;
      assert "scheme" in Params(env, cfg);
    }
  }

  /** The converse: a plain configuration that comes back unchanged is well formed. */
  lemma {:induction false} OnlyWellFormed(env: Env, cfg: Config)
    requires DurationsRoundTrip(env) && GoTyped(cfg) && Plain(cfg)
    requires Parsed(env, Printed(env, cfg)) == Ok(cfg)
    ensures WellFormed(env, cfg)
  {
    ParsedFacts(env, Printed(env, cfg));
    ParsePrinted(env, cfg);
    ConfigureIff(env, cfg, ResolveScheme(env, ToLower(TrimLeft(cfg.provider))),
                 ParseAuthority(SeenAuthority(env, cfg)));
    SeenIsWhole(env, cfg);
    AuthorityBackward(cfg.apiKey, SecretOf(cfg), cfg.baseURL, SeenAuthority(env, cfg));
  }

  // ---------- texts that are not plain ----------

  lemma {:induction false} LowerHasNoMark(s: string)
    requires NoMark(s)
    ensures NoMark(ToLower(s))
  {
    forall j: nat
      ensures !MarkAt(ToLower(s), j)
    {
      assert !MarkAt(s, j);
    }
  }

  /** A text that names its own secret or base URL in its query, or whose scheme is an alias
      of a name with a scheme mark in it. */
  ghost predicate Quotes(env: Env, raw: string) {
    var text := Trim(raw);
    var i := IndexOfText(text, MARK);
    i >= 0 && (AliasHasMark(env, ToLower(text[..i])) || QueryQuotes(CutFirst(text[i + 3..], '?').after))
  }

  ghost predicate AliasHasMark(env: Env, scheme: string) {
    scheme !in env.factories && scheme in env.aliases && !NoMark(env.aliases[scheme])
  }

  predicate NamesSecret(vals: QueryCodec.Values) {
    SECRET in vals
  }

  predicate NamesBase(vals: QueryCodec.Values) {
    QueryCodec.Get(vals, "base_url") != ""
  }

  predicate QueryQuotes(query: string) {
    var vals := QueryCodec.ParseQuery(query);
    vals.Some? && (NamesSecret(vals.value) || NamesBase(vals.value))
  }

  lemma {:induction false} AuthorityWithin(a: Authority, c: char)
    requires c !in AuthorityOf(a)
    ensures c !in a.secret || !a.hasColon
    ensures c !in a.host || !a.hasAt
  {
    var user := Glue(Cut(a.key, a.hasColon, a.secret), ':');
    assert c !in user;
  }

  lemma {:induction false} BaseHasNoQuery(host: string, scheme: string)
    requires '?' !in host
    ensures '?' !in WithScheme(BaseOfHost(host), scheme)
  {
    assert '?' !in HTTP && '?' !in HTTPS && '?' !in MARK;
    var base := BaseOfHost(host);
    assert '?' !in base;
    assert '?' !in TrimPrefix(base, HTTPS);
    assert '?' !in HostPart(base);
    assert '?' !in "http" && '?' !in "https";
  }

  /** What a query that quotes nothing configures is plain, apart from the provider. */
  lemma {:induction false} ConfiguredPlain(env: Env, provider: string, text: string, vals: QueryCodec.Values)
    requires '?' !in text && SECRET !in vals && QueryCodec.Get(vals, "base_url") == ""
    ensures var c := Configure(env, provider, ParseAuthority(text), vals);
            '?' !in SecretOf(c) && '?' !in c.baseURL
  {
    var a := ParseAuthority(text);
    AuthorityWithin(a, '?');
    BaseHasNoQuery(a.host, QueryCodec.Get(vals, "scheme"));
    assert SECRET !in ExtraParams(vals);
  }

  /** Whatever the text, parsing one that does not quote gives a plain configuration. */
  lemma {:induction false} ParsedPlain(env: Env, raw: string)
    requires Parsed(env, raw).Ok? && !Quotes(env, raw)
    ensures Plain(Parsed(env, raw).value)
  {
    var text := Trim(raw);
    var i := IndexOfText(text, MARK);
    if text == "" || i < 0 {
      ParsedNowhere(env, raw);
    } else {
      var rest := CutFirst(text[i + 3..], '?');
      ParsedAt(env, raw, text, i, rest);
      NoMarkBefore(text, i);
      LowerHasNoMark(text[..i]);
      ConfiguredPlain(env, ResolveScheme(env, ToLower(text[..i])), rest.before,
                      QueryCodec.ParseQuery(rest.after).value);
    }
  }

  // ---------- texts that would have to quote themselves ----------

  /** A printed duration has no percent sign and no capital or underscore: it is made of
      digits, points and units. */
  ghost predicate DurationsPlain(env: Env) {
    forall d {:trigger env.showDuration(d)} :: d > 0 ==> Weight(env.showDuration(d)) == 0
  }

  /** The authority as the parser sees it, in front of the printed query. */
  function SeenText(env: Env, cfg: Config): string {
    WithQuery(SeenAuthority(env, cfg), QueryText(Params(env, cfg)))
  }

  lemma {:induction false} ParseSeen(env: Env, cfg: Config)
    requires NoMark(cfg.provider)
    ensures var c := CutFirst(SeenText(env, cfg), '?');
            Parsed(env, Printed(env, cfg))
            == Finish(env, ResolveScheme(env, ToLower(TrimLeft(cfg.provider))), ParseAuthority(c.before), c.after)
  {
    QueryEnd(Params(env, cfg));
    PrintedParts(env, cfg);
    ScanWhole(env, cfg.provider, AuthorityText(cfg.apiKey, SecretOf(cfg), cfg.baseURL), QueryText(Params(env, cfg)));
    QueryNotEmpty(Params(env, cfg));
  }

  lemma {:induction false} QueryEnd(params: map<string, string>)
    ensures var q := QueryText(params); q != "" ==> !IsSpace(q[|q| - 1])
  {
    if params != map[] {
      QueryCodec.EncodeShape(params);
      QueryCodec.QueryCharsArePlain(QueryText(params));
    }
  }

  lemma {:induction false} QueryNotEmpty(params: map<string, string>)
    ensures QueryText(params) == "" <==> params == map[]
  {
    if params != map[] {
      QueryCodec.EncodeShape(params);
    }
  }

  lemma {:induction false} PrintedParts(env: Env, cfg: Config)
    ensures Printed(env, cfg)
         == cfg.provider + MARK
            + WithQuery(AuthorityText(cfg.apiKey, SecretOf(cfg), cfg.baseURL), QueryText(Params(env, cfg)))
  {
  }

  lemma {:induction false} CutInside(y: string, q: string)
    requires '?' in y
    ensures var d := CutFirst(y, '?');
            && y == d.before + "?" + d.after
            && CutFirst(WithQuery(y, q), '?') == Cut(d.before, true, WithQuery(d.after, q))
  {
    var d := CutFirst(y, '?');
    var c := Cut(d.before, true, WithQuery(d.after, q));
    if q != "" {
      Associative(d.before + "?", d.after, "?" + q);
      Associative(d.after, "?", q);
      Associative(y, "?", q);
    }
    assert WithQuery(y, q) == Glue(c, '?');
    CutFirstGlue(c, '?');
  }

  lemma {:induction false} JoinedText(x: string, params: map<string, string>)
    ensures WithQuery(x, QueryText(params)) == Joined(x, params)
  {
    if params != map[] {
      QueryCodec.EncodeShape(params);
      Associative(x, "?", QueryText(params));
    }
  }

  /** Where the seen text is cut: inside the authority if there is a `?` in it. */
  lemma {:induction false} CutSeen(y: string, params: map<string, string>)
    ensures var c := CutFirst(WithQuery(y, QueryText(params)), '?');
            if '?' in y then
              y == c.before + "?" + CutFirst(y, '?').after && c.after == Joined(CutFirst(y, '?').after, params)
            else c == Cut(y, QueryText(params) != "", QueryText(params))
  {
    if '?' in y {
      CutInside(y, QueryText(params));
      JoinedText(CutFirst(y, '?').after, params);
    } else {
      CutFirstGlue(Cut(y, QueryText(params) != "", QueryText(params)), '?');
    }
  }

  // ---------- what the printed parameters say once more ----------

  lemma {:induction false} GotText(vals: QueryCodec.Values, k: string, v: string)
    requires QueryCodec.Get(vals, k) == v != ""
    ensures k in vals && vals[k] != [] && vals[k][0] == v
  {
  }

  lemma {:induction false} GotAgain(vals: QueryCodec.Values, k: string, v: string)
    requires QueryCodec.Get(vals, k) == v
    ensures v != "" ==> Again(vals, k, v)
  {
    if v != "" {
      GotText(vals, k, v);
    }
  }

  lemma {:induction false} TextsAgain(env: Env, cfg: Config, a: Authority, vals: QueryCodec.Values, k: string)
    requires cfg == Configure(env, cfg.provider, a, vals)
    requires k in {"model", "quality", "style", "background", "output_format", "moderation", "capability", "base_url"}
    ensures OwnParam(env, cfg, k) != "" ==> Again(vals, k, OwnParam(env, cfg, k))
  {
    OwnTexts(env, cfg);
    GotAgain(vals, "model", cfg.model);
    GotAgain(vals, "quality", cfg.quality);
    GotAgain(vals, "style", cfg.style);
    GotAgain(vals, "background", cfg.background);
    GotAgain(vals, "output_format", cfg.outputFormat);
    GotAgain(vals, "moderation", cfg.moderation);
    GotAgain(vals, "capability", cfg.capability);
  }

  lemma {:induction false} NameAgain(env: Env, cfg: Config, a: Authority, vals: QueryCodec.Values)
    requires cfg == Configure(env, cfg.provider, a, vals) && NamePrinted(cfg)
    ensures Again(vals, "name", cfg.name)
  {
    assert cfg.name != DefaultName(cfg.provider, cfg.model);
    GotAgain(vals, "name", cfg.name);
  }

  lemma {:induction false} NumberAgain(env: Env, cfg: Config, a: Authority, vals: QueryCodec.Values)
    requires cfg == Configure(env, cfg.provider, a, vals) && cfg.outputCompression > 0
    ensures Again(vals, "output_compression", Decimal(cfg.outputCompression))
  {
    assert Atoi("") == None;
    assert QueryCodec.Get(vals, "output_compression") != "";
    LightText(Decimal(cfg.outputCompression));
  }

  lemma {:induction false} IntervalAgain(env: Env, cfg: Config, a: Authority, vals: QueryCodec.Values)
    requires DurationsPlain(env) && cfg == Configure(env, cfg.provider, a, vals) && cfg.pollInterval > 0
    ensures Again(vals, "poll_interval", env.showDuration(cfg.pollInterval))
  {
    assert QueryCodec.Get(vals, "poll_interval") != "";
  }

  lemma {:induction false} ChoicesAgain(env: Env, cfg: Config, a: Authority, vals: QueryCodec.Values, k: string)
    requires DurationsPlain(env) && cfg == Configure(env, cfg.provider, a, vals)
    requires k in {"scheme", "wait", "name", "output_compression", "poll_interval"}
    ensures OwnParam(env, cfg, k) != "" ==> Again(vals, k, OwnParam(env, cfg, k))
  {
    OwnChoices(env, cfg);
    if OwnParam(env, cfg, k) != "" {
      if k == "name" {
        NameAgain(env, cfg, a, vals);
      } else if k == "output_compression" {
        NumberAgain(env, cfg, a, vals);
      } else if k == "poll_interval" {
        IntervalAgain(env, cfg, a, vals);
      } else {
        LightAgain(env, cfg, k);
      }
    }
  }

  lemma {:induction false} LightAgain(env: Env, cfg: Config, k: string)
    requires k == "scheme" || k == "wait"
    ensures Weight(k) + Weight(OwnParam(env, cfg, k)) == 0
  {
    LightChoices();
    assert Weight("") == 0;
  }

  lemma {:induction false} OwnAgain(env: Env, cfg: Config, a: Authority, vals: QueryCodec.Values, k: string)
    requires DurationsPlain(env) && cfg == Configure(env, cfg.provider, a, vals)
    requires k in KNOWN && OwnParam(env, cfg, k) != ""
    ensures Again(vals, k, OwnParam(env, cfg, k))
  {
    if k in {"scheme", "wait", "name", "output_compression", "poll_interval"} {
      ChoicesAgain(env, cfg, a, vals, k);
    } else {
      TextsAgain(env, cfg, a, vals, k);
    }
  }

  /** The parameters of a configuration that was read from a query are in that query again,
      apart from some that weigh nothing. */
  lemma {:induction false} ParamsSaidAgain(env: Env, cfg: Config, a: Authority, vals: QueryCodec.Values)
    requires DurationsPlain(env) && NoKnownMetadata(cfg) && cfg == Configure(env, cfg.provider, a, vals)
    ensures SaidAgain(Params(env, cfg), vals)
  {
    var params := Params(env, cfg);
    forall k | k in params
      ensures Again(vals, k, params[k])
    {
      if k in cfg.metadata && k != SECRET {
        assert k in ExtraParams(vals) && ExtraParams(vals)[k] == cfg.metadata[k];
      } else {
        OwnAgain(env, cfg, a, vals, k);
      }
    }
  }

  // ---------- nothing that comes back quotes itself ----------

  function Quoted(vals: QueryCodec.Values): seq<string> {
    (if NamesSecret(vals) then [SECRET] else []) + if NamesBase(vals) then ["base_url"] else []
  }

  lemma {:induction false} QuotedIsNew(env: Env, cfg: Config, vals: QueryCodec.Values)
    requires NoKnownMetadata(cfg)
    ensures Distinct(Quoted(vals)) && forall e :: e in Quoted(vals) ==> e in vals && e !in Params(env, cfg)
  {
    SecretIsNotKnown();
    OwnTexts(env, cfg);
    assert |SECRET| == 9 && |"base_url"| == 8;
  }

  lemma {:induction false} NamedSecret(env: Env, cfg: Config, a: Authority, vals: QueryCodec.Values)
    requires NonEmpty(vals) && cfg == Configure(env, cfg.provider, a, vals) && NamesSecret(vals)
    ensures Weight(SECRET) + Weight(vals[SECRET][0]) >= 1 + Weight(SecretOf(cfg))
  {
    HeavyAt(SECRET, 6);
    SecretIsNotKnown();
    assert SECRET in ExtraParams(vals) && ExtraParams(vals)[SECRET] == vals[SECRET][0];
    assert cfg.metadata[SECRET] == vals[SECRET][0];
  }

  lemma {:induction false} NamedBase(env: Env, cfg: Config, a: Authority, vals: QueryCodec.Values)
    requires cfg == Configure(env, cfg.provider, a, vals) && NamesBase(vals)
    ensures "base_url" in vals && vals["base_url"] != []
    ensures Weight("base_url") + Weight(vals["base_url"][0]) >= 1 + Weight(cfg.baseURL)
  {
    HeavyAt("base_url", 4);
    GotText(vals, "base_url", cfg.baseURL);
  }

  lemma {:induction false} TotalSplit(keys: seq<string>, more: seq<string>, m: QueryCodec.Values)
    requires |keys| == 1 && forall k :: k in keys + more ==> k in m && m[k] != []
    ensures keys[0] in m && m[keys[0]] != []
    ensures forall k :: k in more ==> k in m && m[k] != []
    ensures Total(keys + more, m) == Weight(keys[0]) + Weight(m[keys[0]][0]) + Total(more, m)
  {
    assert keys[0] in keys + more;
    assert (keys + more)[1..] == more;
  }

  lemma {:induction false} QuotedTotal(vals: QueryCodec.Values, secret: nat, base: nat)
    requires NonEmpty(vals) && forall e :: e in Quoted(vals) ==> e in vals
    requires NamesSecret(vals) ==> Weight(SECRET) + Weight(vals[SECRET][0]) >= secret
    requires NamesBase(vals) ==> "base_url" in vals && Weight("base_url") + Weight(vals["base_url"][0]) >= base
    ensures Total(Quoted(vals), vals) >= (if NamesSecret(vals) then secret else 0) + if NamesBase(vals) then base else 0
  {
    var last := if NamesBase(vals) then ["base_url"] else [];
    assert forall e :: e in last ==> e in Quoted(vals);
    if NamesBase(vals) {
      TotalSplit(last, [], vals);
      assert last + [] == last;
    }
    if NamesSecret(vals) {
      TotalSplit([SECRET], last, vals);
    } else {
      assert Quoted(vals) == last;
    }
  }

  /** Secret and base URL that were named in a query came out of it with their names. */
  lemma {:induction false} QuotedWeight(env: Env, cfg: Config, a: Authority, vals: QueryCodec.Values)
    requires NonEmpty(vals) && cfg == Configure(env, cfg.provider, a, vals)
    requires forall e :: e in Quoted(vals) ==> e in vals
    ensures Total(Quoted(vals), vals)
         >= (if NamesSecret(vals) then 1 + Weight(SecretOf(cfg)) else 0)
            + if NamesBase(vals) then 1 + Weight(cfg.baseURL) else 0
  {
    if NamesSecret(vals) {
      NamedSecret(env, cfg, a, vals);
    }
    if NamesBase(vals) {
      NamedBase(env, cfg, a, vals);
    }
    QuotedTotal(vals, 1 + Weight(SecretOf(cfg)), 1 + Weight(cfg.baseURL));
  }

  /** What is not named in the query came out of the authority. */
  lemma {:induction false} UnquotedWeight(env: Env, cfg: Config, a: Authority, vals: QueryCodec.Values)
    requires NonEmpty(vals) && cfg == Configure(env, cfg.provider, a, vals)
    ensures !NamesSecret(vals) ==> a.secret == SecretOf(cfg)
    ensures !NamesBase(vals) ==> Weight(cfg.baseURL) <= Weight(a.host)
  {
    BaseWeight(a.host, QueryCodec.Get(vals, "scheme"));
    if !NamesSecret(vals) {
      assert SECRET !in ExtraParams(vals);
    }
  }

  /** What the text behind the cut weighs, at most. */
  lemma {:induction false} RestWeight(env: Env, cfg: Config, before: string, x: string)
    requires before + "?" + x == SeenAuthority(env, cfg) && ParseAuthority(before).key == cfg.apiKey
    ensures var a := ParseAuthority(before);
            Weight(a.secret) + Weight(a.host) + Weight(x) <= Weight(SecretOf(cfg)) + Weight(cfg.baseURL)
  {
    AuthorityWeight(ParseAuthority(before));
    GlueWeight(Cut(before, true, x), '?');
    WeightPrefix(SeenAuthority(env, cfg), AuthorityText(cfg.apiKey, SecretOf(cfg), cfg.baseURL));
    PrintedWeight(cfg.apiKey, SecretOf(cfg), cfg.baseURL);
    HostPartWeight(cfg.baseURL);
  }

  /** What the query says beyond the printed parameters came out of the text behind the cut. */
  lemma {:induction false} QuotedFits(env: Env, cfg: Config, a: Authority, x: string, vals: QueryCodec.Values)
    requires DurationsRoundTrip(env) && DurationsPlain(env) && GoTyped(cfg) && NoKnownMetadata(cfg)
    requires QueryCodec.ParseQuery(Joined(x, Params(env, cfg))) == Some(vals)
    requires cfg == Configure(env, cfg.provider, a, vals)
    ensures NonEmpty(vals) && forall e :: e in Quoted(vals) ==> e in vals
    ensures Total(Quoted(vals), vals) <= Weight(x)
  {
    ParamsAreBytes(env, cfg);
    ParamsSaidAgain(env, cfg, a, vals);
    QuotedIsNew(env, cfg, vals);
    TextBeforeQuery(x, Params(env, cfg), Quoted(vals));
    ContentBound(x);
  }

  /** A configuration whose query is cut off inside the authority does not come back with its
      own secret or base URL named in it: the text would have to weigh more than itself. */
  lemma {:induction false} NeverQuotes(env: Env, cfg: Config, before: string, x: string, vals: QueryCodec.Values)
    requires DurationsRoundTrip(env) && DurationsPlain(env) && GoTyped(cfg) && NoKnownMetadata(cfg)
    requires before + "?" + x == SeenAuthority(env, cfg)
    requires QueryCodec.ParseQuery(Joined(x, Params(env, cfg))) == Some(vals)
    requires cfg == Configure(env, cfg.provider, ParseAuthority(before), vals)
    ensures !NamesSecret(vals) && !NamesBase(vals)
  {
    var a := ParseAuthority(before);
    QuotedFits(env, cfg, a, x, vals);
    QuotedWeight(env, cfg, a, vals);
    UnquotedWeight(env, cfg, a, vals);
    RestWeight(env, cfg, before, x);
  }

  /** A query that is cut off whole names neither. */
  lemma {:induction false} PrintedNamesNothing(env: Env, cfg: Config, vals: QueryCodec.Values)
    requires DurationsRoundTrip(env) && GoTyped(cfg) && NoKnownMetadata(cfg)
    requires QueryCodec.ParseQuery(QueryText(Params(env, cfg))) == Some(vals)
    ensures !NamesSecret(vals) && !NamesBase(vals)
  {
    ParseOwnQuery(env, cfg);
    SecretIsNotKnown();
    OwnLookup(env, cfg, "base_url");
    OwnTexts(env, cfg);
  }

  lemma {:induction false} FinishOk(env: Env, cfg: Config, provider: string, a: Authority, query: string)
    requires Finish(env, provider, a, query) == Ok(cfg)
    ensures provider == cfg.provider
    ensures var vals := QueryCodec.ParseQuery(query); vals.Some? && cfg == Configure(env, provider, a, vals.value)
  {
  }

  /** A configuration that comes back has no `?` in its secret or its base URL. */
  lemma {:induction false} BackIsPlain(env: Env, cfg: Config)
    requires DurationsRoundTrip(env) && DurationsPlain(env) && GoTyped(cfg) && NoMark(cfg.provider)
    requires Parsed(env, Printed(env, cfg)) == Ok(cfg)
    ensures Plain(cfg)
  {
    var y, params := SeenAuthority(env, cfg), Params(env, cfg);
    var c := CutFirst(SeenText(env, cfg), '?');
    ParsedFacts(env, Printed(env, cfg));
    ParseSeen(env, cfg);
    FinishOk(env, cfg, ResolveScheme(env, ToLower(TrimLeft(cfg.provider))), ParseAuthority(c.before), c.after);
    CutSeen(y, params);
    var vals := QueryCodec.ParseQuery(c.after).value;
    if '?' in y {
      NeverQuotes(env, cfg, c.before, CutFirst(y, '?').after, vals);
    } else {
      PrintedNamesNothing(env, cfg, vals);
    }
    ConfiguredPlain(env, cfg.provider, c.before, vals);
  }

  /** No registered alias leads to a name with a scheme mark in it. */
  ghost predicate AliasesPlain(env: Env) {
    forall s :: s in env.aliases ==> NoMark(env.aliases[s])
  }

  lemma {:induction false} ResolvedPlain(env: Env, scheme: string)
    requires AliasesPlain(env) && NoMark(scheme)
    ensures NoMark(ResolveScheme(env, scheme))
  {
  }

  lemma {:induction false} ProviderPlain(env: Env, raw: string)
    requires AliasesPlain(env) && Parsed(env, raw).Ok?
    ensures NoMark(Parsed(env, raw).value.provider)
  {
    var text := Trim(raw);
    var i := IndexOfText(text, MARK);
    if text == "" || i < 0 {
      ParsedNowhere(env, raw);
    } else {
      var rest := CutFirst(text[i + 3..], '?');
      var provider := ResolveScheme(env, ToLower(text[..i]));
      ParsedAt(env, raw, text, i, rest);
      NoMarkBefore(text, i);
      LowerHasNoMark(text[..i]);
      ResolvedPlain(env, ToLower(text[..i]));
      FinishOk(env, Parsed(env, raw).value, provider, ParseAuthority(rest.before), rest.after);
    }
  }

  /** `ParseURI` after `ToURI` gives a configuration back exactly if it is plain and well
      formed. Only an alias of a name with a scheme mark could lead to another one. */
  lemma {:induction false} RoundTripIff(env: Env, cfg: Config)
    requires DurationsRoundTrip(env) && DurationsPlain(env) && GoTyped(cfg)
    requires AliasesPlain(env) || NoMark(cfg.provider)
    ensures Parsed(env, Printed(env, cfg)) == Ok(cfg) <==> Plain(cfg) && WellFormed(env, cfg)
  {
    if Plain(cfg) && WellFormed(env, cfg) {
      RoundTrip(env, cfg);
    } else if Parsed(env, Printed(env, cfg)) == Ok(cfg) {
      if AliasesPlain(env) {
        ProviderPlain(env, Printed(env, cfg));
      }
      BackIsPlain(env, cfg);
      OnlyWellFormed(env, cfg);
    }
  }

  predicate Excluded(cfg: Config) {
    || (HasPrefix(cfg.baseURL, HTTPS) && IsLocalHost(TrimPrefix(cfg.baseURL, HTTPS)))
    || (cfg.name == cfg.provider && cfg.model != "")
    || (cfg.name == cfg.provider + "-" && cfg.model == "")
    || cfg.outputCompression < 0
    || cfg.pollInterval < 0
  }

  lemma {:induction false} ExcludedNames(cfg: Config)
    requires (cfg.name == cfg.provider && cfg.model != "") || (cfg.name == cfg.provider + "-" && cfg.model == "")
    ensures !NameSurvives(cfg)
  {
    assert SanitizeName("") == "";
    assert cfg.provider + "-" + "" == cfg.provider + "-";
    assert |DefaultName(cfg.provider, cfg.model)| > |cfg.provider| <==> cfg.model != "";
  }

  lemma {:induction false} ExcludedBase(baseURL: string)
    requires HasPrefix(baseURL, HTTPS) && IsLocalHost(TrimPrefix(baseURL, HTTPS))
    ensures !CarriedBase(baseURL) && baseURL != ""
  {
    PrefixFacts(TrimPrefix(baseURL, HTTPS));
  }

  /** Families that never come back: an https URL of a local host, a name equal to the
      provider beside a model, the provider with a dash and no model, a negative number. */
  lemma {:induction false} Exclusions(env: Env, cfg: Config)
    requires DurationsRoundTrip(env) && DurationsPlain(env) && GoTyped(cfg) && Excluded(cfg)
    requires AliasesPlain(env) || NoMark(cfg.provider)
    ensures Parsed(env, Printed(env, cfg)) != Ok(cfg)
  {
    if (cfg.name == cfg.provider && cfg.model != "") || (cfg.name == cfg.provider + "-" && cfg.model == "") {
      ExcludedNames(cfg);
    } else if HasPrefix(cfg.baseURL, HTTPS) && IsLocalHost(TrimPrefix(cfg.baseURL, HTTPS)) {
      ExcludedBase(cfg.baseURL);
    }
    assert !WellFormed(env, cfg);
    RoundTripIff(env, cfg);
  }

  /** Why: an https URL of a local host prints without a scheme and is read back as http. */
  lemma {:induction false} LocalHttpsBecomesHttp(host: string)
    requires IsLocalHost(host)
    ensures HostPart(HTTPS + host) == host && !NeedsHttp(HTTPS + host)
    ensures WithScheme(BaseOfHost(HostPart(HTTPS + host)), "") == HTTP + host != HTTPS + host
  {
    PrefixFacts(host);
    SchemeIsNotLocal(host);
    assert (HTTP + host)[4] == ':' && (HTTPS + host)[4] == 's';
  }
}
