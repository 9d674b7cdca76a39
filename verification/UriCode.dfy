/** The step-by-step code of `ToURI`, `ParseURI` and `applyParams` (engine/uri.go),
    proved to compute the texts and configurations of module `Uri`. */
module UriCode {
  import opened Common
  import opened Text
  import opened Uri
  import QueryCodec

  // ---------- ToURI ----------

  /** `Set` guarded by a non-empty value. */
  function PutText(m: map<string, string>, k: string, v: string): map<string, string> {
    if v != "" then m[k := v] else m
  }

  /** The parameters printed for the fields whose keys are in `keys`. */
  ghost function OwnOver(env: Env, cfg: Config, keys: set<string>): map<string, string> {
    map k | k in keys && OwnParam(env, cfg, k) != "" :: OwnParam(env, cfg, k)
  }

  lemma {:induction false} PutOwn(env: Env, cfg: Config, keys: set<string>, k: string, v: string)
    requires v == OwnParam(env, cfg, k)
    ensures PutText(OwnOver(env, cfg, keys), k, v) == OwnOver(env, cfg, keys + {k})
  {
  }

  lemma {:induction false} OwnOverAll(env: Env, cfg: Config, keys: set<string>)
    requires keys + {"base_url"} == KNOWN
    ensures OwnOver(env, cfg, keys) == OwnParams(env, cfg)
  {
    OwnTexts(env, cfg);
  }

  method FieldParams(env: Env, cfg: Config) returns (params: map<string, string>)
    requires forall d :: d > 0 ==> env.showDuration(d) != ""
    ensures params == OwnParams(env, cfg)
  {
    OwnTexts(env, cfg);
    ghost var keys: set<string> := {};
    params := map[];
    assert params == OwnOver(env, cfg, keys);

    PutOwn(env, cfg, keys, "model", cfg.model);
    params, keys := PutText(params, "model", cfg.model), keys + {"model"};
    PutOwn(env, cfg, keys, "quality", cfg.quality);
    params, keys := PutText(params, "quality", cfg.quality), keys + {"quality"};
    PutOwn(env, cfg, keys, "style", cfg.style);
    params, keys := PutText(params, "style", cfg.style), keys + {"style"};
    PutOwn(env, cfg, keys, "background", cfg.background);
    params, keys := PutText(params, "background", cfg.background), keys + {"background"};
    PutOwn(env, cfg, keys, "output_format", cfg.outputFormat);
    params, keys := PutText(params, "output_format", cfg.outputFormat), keys + {"output_format"};
    PutOwn(env, cfg, keys, "moderation", cfg.moderation);
    params, keys := PutText(params, "moderation", cfg.moderation), keys + {"moderation"};
    PutOwn(env, cfg, keys, "capability", cfg.capability);
    params, keys := PutText(params, "capability", cfg.capability), keys + {"capability"};
    params := ChoiceParams(env, cfg, params, keys);
  }

  lemma {:induction false} PutCompression(env: Env, cfg: Config, keys: set<string>, v: string)
    requires v == if cfg.outputCompression > 0 then Decimal(cfg.outputCompression) else ""
    ensures PutText(OwnOver(env, cfg, keys), "output_compression", v) == OwnOver(env, cfg, keys + {"output_compression"})
  {
    OwnChoices(env, cfg);
    PutOwn(env, cfg, keys, "output_compression", v);
  }

  lemma {:induction false} PutName(env: Env, cfg: Config, keys: set<string>, v: string)
    requires v == if NamePrinted(cfg) then cfg.name else ""
    ensures PutText(OwnOver(env, cfg, keys), "name", v) == OwnOver(env, cfg, keys + {"name"})
  {
    OwnChoices(env, cfg);
    PutOwn(env, cfg, keys, "name", v);
  }

  lemma {:induction false} PutWait(env: Env, cfg: Config, keys: set<string>, v: string)
    requires v == match cfg.wait { case None => "" case Some(b) => if b then "true" else "false" }
    ensures PutText(OwnOver(env, cfg, keys), "wait", v) == OwnOver(env, cfg, keys + {"wait"})
  {
    PutOwn(env, cfg, keys, "wait", v);
  }

  lemma {:induction false} PutInterval(env: Env, cfg: Config, keys: set<string>, v: string)
    requires v == if cfg.pollInterval > 0 then env.showDuration(cfg.pollInterval) else ""
    ensures PutText(OwnOver(env, cfg, keys), "poll_interval", v) == OwnOver(env, cfg, keys + {"poll_interval"})
  {
    OwnChoices(env, cfg);
    PutOwn(env, cfg, keys, "poll_interval", v);
  }

  lemma {:induction false} PutScheme(env: Env, cfg: Config, keys: set<string>, v: string)
    requires v == if NeedsHttp(cfg.baseURL) then "http" else ""
    ensures PutText(OwnOver(env, cfg, keys), "scheme", v) == OwnOver(env, cfg, keys + {"scheme"})
  {
    OwnChoices(env, cfg);
    PutOwn(env, cfg, keys, "scheme", v);
  }

  lemma {:induction false} AllKeys(printed: set<string>)
    requires printed == {"model", "quality", "style", "background", "output_format", "moderation", "capability"}
    ensures printed + {"output_compression"} + {"name"} + {"wait"} + {"poll_interval"} + {"scheme"} + {"base_url"} == KNOWN
  {
  }

  /** The fields that are printed under a condition of their own. */
  method ChoiceParams(env: Env, cfg: Config, start: map<string, string>, ghost printed: set<string>)
      returns (params: map<string, string>)
    requires forall d :: d > 0 ==> env.showDuration(d) != ""
    requires start == OwnOver(env, cfg, printed)
    requires printed == {"model", "quality", "style", "background", "output_format", "moderation", "capability"}
    ensures params == OwnParams(env, cfg)
  {
    ghost var keys := printed;
    params := start;
    AllKeys(printed);

    var compression := if cfg.outputCompression > 0 then Decimal(cfg.outputCompression) else "";
    PutCompression(env, cfg, keys, compression);
    params, keys := PutText(params, "output_compression", compression), keys + {"output_compression"};
    var name := "";
    if cfg.name != "" && cfg.name != cfg.provider && cfg.name != cfg.provider + "-" + SanitizeName(cfg.model) {
      name := cfg.name;
    }
    PutName(env, cfg, keys, name);
    params, keys := PutText(params, "name", name), keys + {"name"};
    var wait := match cfg.wait { case None => "" case Some(b) => if b then "true" else "false" };
    PutWait(env, cfg, keys, wait);
    params, keys := PutText(params, "wait", wait), keys + {"wait"};
    var interval := if cfg.pollInterval > 0 then env.showDuration(cfg.pollInterval) else "";
    PutInterval(env, cfg, keys, interval);
    params, keys := PutText(params, "poll_interval", interval), keys + {"poll_interval"};
    var scheme := "";
    if cfg.baseURL != "" && HasPrefix(cfg.baseURL, HTTP) && !IsLocalHost(TrimPrefix(cfg.baseURL, HTTP)) {
      scheme := "http";
    }
    PutScheme(env, cfg, keys, scheme);
    params, keys := PutText(params, "scheme", scheme), keys + {"scheme"};
    OwnOverAll(env, cfg, keys);
  }

  /** The loop over the metadata map, in any order, leaving out the secret key. */
  method AddMetadata(own: map<string, string>, metadata: map<string, string>) returns (params: map<string, string>)
    ensures params == own + (metadata - {SECRET})
  {
    params := own;
    var todo := metadata.Keys;
    while todo != {}
      invariant todo <= metadata.Keys
      invariant params == own + (map k | k in metadata && k !in todo && k != SECRET :: metadata[k])
    {
      var k :| k in todo;
      todo := todo - {k};
      if k != SECRET {
        params := params[k := metadata[k]];
      }
    }
  }

  method ToURI(env: Env, cfg: Config) returns (uri: string)
    requires forall d :: d > 0 ==> env.showDuration(d) != ""
    ensures uri == Printed(env, cfg)
  {
    var b := cfg.provider + MARK;
    var rest := cfg.apiKey;
    var sk := if SECRET in cfg.metadata then cfg.metadata[SECRET] else "";
    if sk != "" {
      rest := rest + ":" + sk;
    }
    if cfg.baseURL != "" {
      var hostPath := TrimPrefix(cfg.baseURL, HTTPS);
      hostPath := TrimPrefix(hostPath, HTTP);
      rest := rest + "@" + hostPath;
    }
    assert rest == AuthorityText(cfg.apiKey, SecretOf(cfg), cfg.baseURL);
    var own := FieldParams(env, cfg);
    var params := AddMetadata(own, cfg.metadata);
    if |params| > 0 {
      QueryCodec.EncodeShape(params);
      rest := rest + "?" + QueryCodec.Encode(params);
    }
    uri := b + rest;
  }

  // ---------- ParseURI ----------

  method ApplyParams(env: Env, cfg: Config, params: QueryCodec.Values) returns (c: Config)
    ensures c == cfg.(
      baseURL := Override(QueryCodec.Get(params, "base_url"), cfg.baseURL),
      model := Override(QueryCodec.Get(params, "model"), cfg.model),
      quality := Override(QueryCodec.Get(params, "quality"), cfg.quality),
      style := Override(QueryCodec.Get(params, "style"), cfg.style),
      background := Override(QueryCodec.Get(params, "background"), cfg.background),
      outputFormat := Override(QueryCodec.Get(params, "output_format"), cfg.outputFormat),
      moderation := Override(QueryCodec.Get(params, "moderation"), cfg.moderation),
      outputCompression := KeepOr(Atoi(QueryCodec.Get(params, "output_compression")), cfg.outputCompression),
      name := Override(QueryCodec.Get(params, "name"), cfg.name),
      wait := if QueryCodec.Get(params, "wait") != "" then ReadWait(QueryCodec.Get(params, "wait")) else cfg.wait,
      pollInterval := if QueryCodec.Get(params, "poll_interval") != ""
        then KeepOr(env.readDuration(QueryCodec.Get(params, "poll_interval")), cfg.pollInterval)
        else cfg.pollInterval,
      capability := Override(QueryCodec.Get(params, "capability"), cfg.capability),
      metadata := cfg.metadata + ExtraParams(params))
  {
    c := cfg;
    c := c.(baseURL := Override(QueryCodec.Get(params, "base_url"), c.baseURL));
    c := c.(model := Override(QueryCodec.Get(params, "model"), c.model));
    c := c.(quality := Override(QueryCodec.Get(params, "quality"), c.quality));
    c := c.(style := Override(QueryCodec.Get(params, "style"), c.style));
    c := c.(background := Override(QueryCodec.Get(params, "background"), c.background));
    c := c.(outputFormat := Override(QueryCodec.Get(params, "output_format"), c.outputFormat));
    c := c.(moderation := Override(QueryCodec.Get(params, "moderation"), c.moderation));
    var v := QueryCodec.Get(params, "output_compression");
    if v != "" {
      c := c.(outputCompression := KeepOr(Atoi(v), c.outputCompression));
    }
    c := c.(name := Override(QueryCodec.Get(params, "name"), c.name));
    v := QueryCodec.Get(params, "wait");
    if v != "" {
      c := c.(wait := Some(v == "true" || v == "1" || v == "yes"));
    }
    v := QueryCodec.Get(params, "poll_interval");
    if v != "" {
      c := c.(pollInterval := KeepOr(env.readDuration(v), c.pollInterval));
    }
    c := c.(capability := Override(QueryCodec.Get(params, "capability"), c.capability));
    var extra := AddExtra(cfg.metadata, params);
    c := c.(metadata := extra);
  }

  function KeepOr(v: Option<int>, current: int): int {
    match v
    case Some(n) => n
    case None => current
  }

  /** The unknown parameters outside of `todo`. */
  ghost function ExtraBut(params: QueryCodec.Values, todo: set<string>): map<string, string> {
    map k | k in params && k !in todo && k !in KNOWN && params[k] != [] :: params[k][0]
  }

  lemma {:induction false} ExtraNext(m: map<string, string>, params: QueryCodec.Values, todo: set<string>, k: string)
    requires k in todo && k in params
    ensures m + ExtraBut(params, todo - {k})
         == if k !in KNOWN && params[k] != [] then (m + ExtraBut(params, todo))[k := params[k][0]]
            else m + ExtraBut(params, todo)
  {
  }

  /** The loop over the remaining parameters, in any order. */
  method AddExtra(metadata: map<string, string>, params: QueryCodec.Values) returns (m: map<string, string>)
    ensures m == metadata + ExtraParams(params)
  {
    m := metadata;
    var todo := params.Keys;
    while todo != {}
      invariant todo <= params.Keys
      invariant m == metadata + ExtraBut(params, todo)
    {
      var k :| k in todo;
      ExtraNext(metadata, params, todo, k);
      todo := todo - {k};
      if k !in KNOWN && |params[k]| != 0 {
        m := m[k := params[k][0]];
      }
    }
    assert ExtraBut(params, {}) == ExtraParams(params);
  }

  /** `resolveScheme`: a registered factory goes first, then an alias, then the name itself. */
  method Resolve(env: Env, scheme: string) returns (r: string)
    ensures r == ResolveScheme(env, scheme)
    ensures scheme in env.factories ==> r == scheme
    ensures scheme !in env.factories && scheme in env.aliases ==> r == env.aliases[scheme]
    ensures scheme !in env.factories && scheme !in env.aliases ==> r == scheme
  {
    if scheme in env.factories {
      return scheme;
    }
    if scheme in env.aliases {
      return env.aliases[scheme];
    }
    r := scheme;
  }

  method ParseURI(env: Env, raw: string) returns (r: Result<Config, Error>)
    ensures r == Parsed(env, raw)
  {
    var text := Trim(raw);
    if text == "" {
      return Err(EmptyInput);
    }
    var schemeEnd := IndexOfText(text, MARK);
    if schemeEnd < 0 {
      return Err(NoScheme);
    }
    var provider := Resolve(env, ToLower(text[..schemeEnd]));
    var split := CutFirst(text[schemeEnd + 3..], '?');
    r := ParseRest(env, provider, split.before, split.after);
  }

  /** The configuration the user and host parts describe, before any parameter. */
  function BareConfig(provider: string, a: Authority): Config {
    Config("", provider, "", "", "", a.key, BaseOfHost(a.host),
           if a.secret != "" then map[SECRET := a.secret] else map[], "", "", "", 0, "", None, 0)
  }

  lemma {:induction false} AuthorityParts(rest: string, at: Cut, user: Cut)
    requires at == CutLast(rest, '@') && user == CutFirst(at.before, ':')
    ensures ParseAuthority(rest) == Authority(user.before, user.found, user.after, at.found, at.after)
  {
  }

  method ReadAuthority(provider: string, rest: string) returns (cfg: Config)
    ensures cfg == BareConfig(provider, ParseAuthority(rest))
  {
    cfg := Config("", provider, "", "", "", "", "", map[], "", "", "", 0, "", None, 0);
    var at := CutLast(rest, '@');
    var user := CutFirst(at.before, ':');
    AuthorityParts(rest, at, user);
    cfg := cfg.(apiKey := user.before);
    if user.after != "" {
      cfg := cfg.(metadata := map[SECRET := user.after]);
    }
    if at.after != "" {
      var urlScheme := "https";
      if IsLocalHost(at.after) {
        urlScheme := "http";
      }
      cfg := cfg.(baseURL := urlScheme + MARK + at.after);
    }
    assert "http" + MARK == HTTP && "https" + MARK == HTTPS;
  }

  /** What is left to do with the parsed parameters. */
  method ReadParams(env: Env, bare: Config, provider: string, ghost a: Authority, params: QueryCodec.Values)
      returns (cfg: Config)
    requires bare == BareConfig(provider, a)
    ensures cfg == Configure(env, provider, a, params)
  {
    cfg := bare;
    var s := QueryCodec.Get(params, "scheme");
    if (s == "http" || s == "https") && cfg.baseURL != "" {
      cfg := cfg.(baseURL := s + MARK + HostPart(cfg.baseURL));
    }
    assert cfg == BareConfig(provider, a).(baseURL := WithScheme(BaseOfHost(a.host), s));
    cfg := ApplyParams(env, cfg, params);
    if cfg.name == "" {
      if cfg.model != "" {
        cfg := cfg.(name := provider + "-" + SanitizeName(cfg.model));
      } else {
        cfg := cfg.(name := provider);
      }
    }
    assert Atoi("") == None;
  }

  /** The body of `ParseURI` after the scheme and the query are split off. */
  method ParseRest(env: Env, provider: string, rest: string, query: string) returns (r: Result<Config, Error>)
    ensures r == Finish(env, provider, ParseAuthority(rest), query)
  {
    var cfg := ReadAuthority(provider, rest);
    if cfg.apiKey == "" {
      return Err(MissingKey);
    }
    var parsed := QueryCodec.ParseQuery(query);
    if parsed.None? {
      return Err(BadQuery);
    }
    cfg := ReadParams(env, cfg, provider, ParseAuthority(rest), parsed.value);
    r := Ok(cfg);
  }
}
