/** Engine URIs (engine/uri.go): the configuration record, printing it as a URI
    and parsing a URI back. */
module Uri {
  import opened Common
  import opened Text
  import QueryCodec

  /** `EngineConfig`, as far as a URI carries it. A nil metadata map is an empty one. */
  datatype Config = Config(
    name: string,
    provider: string,
    model: string,
    quality: string,
    style: string,
    apiKey: string,
    baseURL: string,
    metadata: map<string, string>,
    background: string,
    outputFormat: string,
    moderation: string,
    outputCompression: int,
    capability: string,
    wait: Option<bool>,
    pollInterval: int
  )

  /** What parsing and printing read besides their argument: the registered
      factories and aliases, and the text form of a duration. */
  datatype Env = Env(
    factories: set<string>,
    aliases: map<string, string>,
    showDuration: int -> string,
    readDuration: string -> Option<int>
  )

  datatype Error = EmptyInput | NoScheme | MissingKey | BadQuery | NoURIs

  const HTTP := "http://"
  const HTTPS := "https://"
  const MARK := "://"
  const SECRET := "secretKey"

  const KNOWN: set<string> := {
    "base_url", "model", "quality", "style", "background", "output_format", "moderation",
    "output_compression", "name", "wait", "poll_interval", "capability", "scheme"
  }

  // ---------- names and hosts ----------

  /** `resolveScheme`. */
  function ResolveScheme(env: Env, scheme: string): string {
    if scheme in env.factories then scheme
    else if scheme in env.aliases then env.aliases[scheme]
    else scheme
  }

  /** The host cut at its first slash, and then at its first colon. */
  function HostName(hostPath: string): (name: string)
    ensures '/' !in name && ':' !in name && name <= hostPath
    ensures |name| < |hostPath| ==> hostPath[|name|] == '/' || hostPath[|name|] == ':'
  {
    var slash := IndexOf(hostPath, '/');
    var host := if slash >= 0 then hostPath[..slash] else hostPath;
    var colon := IndexOf(host, ':');
    if colon >= 0 then host[..colon] else host
  }

  /** `isLocalHost`. */
  predicate IsLocalHost(hostPath: string) {
    var name := HostName(hostPath);
    name == "localhost" || name == "127.0.0.1" || name == "[::1]"
  }

  /** The third comparison never holds, since the name has no colon: local are exactly the
      two other names, with any port and path. */
  lemma {:induction false} LocalHostIff(hostPath: string)
    ensures IsLocalHost(hostPath) <==> HostName(hostPath) == "localhost" || HostName(hostPath) == "127.0.0.1"
  {
    assert "[::1]"[1] == ':';
  }

  /** The IPv6 loopback address is never local, whatever port and path follow it. */
  lemma {:induction false} LoopbackIsNotLocal(rest: string)
    ensures !IsLocalHost("[::1]" + rest)
  {
    var h := "[::1]" + rest;
    assert h[0] == '[' && h[1] == ':';
    LocalHostIff(h);
    assert HostName(h) != "" ==> HostName(h)[0] == '[';
  }

  function NameChar(c: char): char {
    if 'a' <= c <= 'z' || '0' <= c <= '9' || c == '-' then c else '-'
  }

  function TrimDashesLeft(s: string): string {
    if s != "" && s[0] == '-' then TrimDashesLeft(s[1..]) else s
  }

  function TrimDashesRight(s: string): string {
    if s != "" && s[|s| - 1] == '-' then TrimDashesRight(s[..|s| - 1]) else s
  }

  /** In lower case, with dashes for everything that is no letter, digit or dash. */
  function Dashed(s: string): (r: string)
    ensures |r| == |s| && forall k :: 0 <= k < |r| ==> r[k] == NameChar(LowerChar(s[k]))
  {
    var l := ToLower(s);
    seq(|l|, k requires 0 <= k < |l| => NameChar(l[k]))
  }

  /** `sanitizeName`. */
  function SanitizeName(s: string): string {
    TrimDashesRight(TrimDashesLeft(Dashed(s)))
  }

  /** The name a URI without a `name` parameter gets. */
  function DefaultName(provider: string, model: string): string {
    if model != "" then provider + "-" + SanitizeName(model) else provider
  }

  // ---------- what a default name looks like ----------

  predicate LowerAlnum(c: char) {
    'a' <= c <= 'z' || '0' <= c <= '9'
  }

  /** A character of a model name as it appears in a default name. */
  ghost predicate Shows(c: char, d: char) {
    && ('A' <= c <= 'Z' ==> d as int == c as int - 'A' as int + 'a' as int)
    && (LowerAlnum(c) ==> d == c)
    && (!LowerAlnum(c) && !('A' <= c <= 'Z') ==> d == '-')
  }

  ghost predicate IsDash(c: char) {
    Shows(c, '-')
  }

  /** `t` is the model from `i` to `j` as it appears in a name, all else being dashes, and it
      neither begins nor ends with a dash. */
  ghost predicate NameOf(model: string, t: string, i: nat, j: nat) {
    && i <= j <= |model| && |t| == j - i
    && (forall k :: 0 <= k < |t| ==> Shows(model[i + k], t[k]) && (LowerAlnum(t[k]) || t[k] == '-'))
    && (forall k :: 0 <= k < i || j <= k < |model| ==> IsDash(model[k]))
    && (t != "" ==> t[0] != '-' && t[|t| - 1] != '-')
  }

  lemma {:induction false} DashesLeft(s: string) returns (i: nat)
    ensures i <= |s| && TrimDashesLeft(s) == s[i..] && forall k :: 0 <= k < i ==> s[k] == '-'
    ensures i < |s| ==> s[i] != '-'
  {
    i := 0;
    if s != "" && s[0] == '-' {
      var k := DashesLeft(s[1..]);
      i := k + 1;
      assert s[1..][k..] == s[i..];
      assert forall m :: 0 < m < i ==> s[m] == s[1..][m - 1];
    }
  }

  lemma {:induction false} DashesRight(s: string) returns (j: nat)
    ensures j <= |s| && TrimDashesRight(s) == s[..j] && forall k :: j <= k < |s| ==> s[k] == '-'
    ensures j > 0 ==> s[j - 1] != '-'
  {
    j := |s|;
    if s != "" && s[|s| - 1] == '-' {
      j := DashesRight(s[..|s| - 1]);
      assert s[..|s| - 1][..j] == s[..j];
    }
  }

  lemma {:induction false} NameCharShows(c: char)
    ensures Shows(c, NameChar(LowerChar(c))) && (LowerAlnum(NameChar(LowerChar(c))) || NameChar(LowerChar(c)) == '-')
  {
  }

  lemma {:induction false} TrimBoth(s: string) returns (i: nat, j: nat)
    ensures i <= j <= |s| && TrimDashesRight(TrimDashesLeft(s)) == s[i..j]
    ensures forall k :: 0 <= k < i || j <= k < |s| ==> s[k] == '-'
    ensures i < j ==> s[i] != '-' && s[j - 1] != '-'
  {
    i := DashesLeft(s);
    var n := DashesRight(s[i..]);
    j := i + n;
    assert s[i..][..n] == s[i..j];
    forall k | j <= k < |s|
      ensures s[k] == '-'
    {
      assert s[i..][k - i] == s[k];
    }
    assert n > 0 ==> s[i..][n - 1] == s[j - 1];
  }

  lemma {:induction false} CutName(model: string, i: nat, j: nat)
    requires i <= j <= |model|
    requires forall k :: 0 <= k < i || j <= k < |model| ==> Dashed(model)[k] == '-'
    requires i < j ==> Dashed(model)[i] != '-' && Dashed(model)[j - 1] != '-'
    ensures NameOf(model, Dashed(model)[i..j], i, j)
  {
    forall k | 0 <= k < |model|
      ensures Shows(model[k], Dashed(model)[k]) && (LowerAlnum(Dashed(model)[k]) || Dashed(model)[k] == '-')
    {
      NameCharShows(model[k]);
    }
  }

  /** Without a model the default name is the provider; with one, it is the provider, a dash,
      and the model in lower case with dashes for everything else, outer ones trimmed. */
  lemma {:induction false} DefaultNameMeans(provider: string, model: string) returns (t: string, i: nat, j: nat)
    ensures model == "" ==> DefaultName(provider, model) == provider
    ensures model != "" ==> DefaultName(provider, model) == provider + "-" + t && NameOf(model, t, i, j)
  {
    i, j := TrimBoth(Dashed(model));
    t := Dashed(model)[i..j];
    CutName(model, i, j);
    assert SanitizeName(model) == t;
  }

  // ---------- printing ----------

  function SecretOf(cfg: Config): string {
    if SECRET in cfg.metadata then cfg.metadata[SECRET] else ""
  }

  /** The base URL without its scheme. */
  function HostPart(baseURL: string): string {
    TrimPrefix(TrimPrefix(baseURL, HTTPS), HTTP)
  }

  function UserText(key: string, secret: string): string {
    Glue(Cut(key, secret != "", secret), ':')
  }

  function AuthorityText(key: string, secret: string, baseURL: string): string {
    Glue(Cut(UserText(key, secret), baseURL != "", if baseURL != "" then HostPart(baseURL) else ""), '@')
  }

  /** Whether the base URL has a plain-http scheme its host does not imply. */
  predicate NeedsHttp(baseURL: string) {
    baseURL != "" && HasPrefix(baseURL, HTTP) && !IsLocalHost(TrimPrefix(baseURL, HTTP))
  }

  predicate NamePrinted(cfg: Config) {
    cfg.name != "" && cfg.name != cfg.provider && cfg.name != cfg.provider + "-" + SanitizeName(cfg.model)
  }

  /** The value a configuration field prints under a query key; empty when it is not printed. */
  function OwnParam(env: Env, cfg: Config, key: string): string {
    if key == "scheme" then (if NeedsHttp(cfg.baseURL) then "http" else "")
    else if key == "capability" then cfg.capability
    else if key == "poll_interval" then (if cfg.pollInterval > 0 then env.showDuration(cfg.pollInterval) else "")
    else if key == "wait" then
      match cfg.wait {
        case None => ""
        case Some(b) => if b then "true" else "false"
      }
    else if key == "name" then (if NamePrinted(cfg) then cfg.name else "")
    else if key == "output_compression" then (if cfg.outputCompression > 0 then Decimal(cfg.outputCompression) else "")
    else if key == "moderation" then cfg.moderation
    else if key == "output_format" then cfg.outputFormat
    else if key == "background" then cfg.background
    else if key == "style" then cfg.style
    else if key == "quality" then cfg.quality
    else if key == "model" then cfg.model
    else ""
  }

  /** What each field prints under its own key. */
  lemma {:induction false} OwnTexts(env: Env, cfg: Config)
    ensures OwnParam(env, cfg, "model") == cfg.model && OwnParam(env, cfg, "quality") == cfg.quality
    ensures OwnParam(env, cfg, "style") == cfg.style && OwnParam(env, cfg, "background") == cfg.background
    ensures OwnParam(env, cfg, "output_format") == cfg.outputFormat
    ensures OwnParam(env, cfg, "moderation") == cfg.moderation
    ensures OwnParam(env, cfg, "capability") == cfg.capability
    ensures OwnParam(env, cfg, "base_url") == ""
  {
  }

  lemma {:induction false} OwnChoices(env: Env, cfg: Config)
    ensures OwnParam(env, cfg, "scheme") == if NeedsHttp(cfg.baseURL) then "http" else ""
    ensures OwnParam(env, cfg, "name") == if NamePrinted(cfg) then cfg.name else ""
    ensures OwnParam(env, cfg, "output_compression")
         == if cfg.outputCompression > 0 then Decimal(cfg.outputCompression) else ""
    ensures OwnParam(env, cfg, "poll_interval")
         == if cfg.pollInterval > 0 then env.showDuration(cfg.pollInterval) else ""
    ensures ReadWait(OwnParam(env, cfg, "wait")) == cfg.wait
  {
  }

  function OwnParams(env: Env, cfg: Config): map<string, string> {
    map k | k in KNOWN && OwnParam(env, cfg, k) != "" :: OwnParam(env, cfg, k)
  }

  function Params(env: Env, cfg: Config): map<string, string> {
    OwnParams(env, cfg) + (cfg.metadata - {SECRET})
  }

  function QueryText(params: map<string, string>): string {
    if params == map[] then "" else QueryCodec.Encode(params)
  }

  /** The text `ToURI` prints. */
  function Printed(env: Env, cfg: Config): string {
    var query := QueryText(Params(env, cfg));
    cfg.provider + MARK
    + Glue(Cut(AuthorityText(cfg.apiKey, SecretOf(cfg), cfg.baseURL), query != "", query), '?')
  }

  // ---------- parsing ----------

  /** The part between `://` and `?`. */
  datatype Authority = Authority(key: string, hasColon: bool, secret: string, hasAt: bool, host: string)

  function AuthorityOf(a: Authority): string {
    Glue(Cut(Glue(Cut(a.key, a.hasColon, a.secret), ':'), a.hasAt, a.host), '@')
  }

  /** Split at the last `@`, then the user part at its first `:`. */
  function ParseAuthority(text: string): (a: Authority)
    ensures text == AuthorityOf(a)
    ensures ':' !in a.key && '@' !in a.host
    ensures !a.hasAt ==> '@' !in text && a.host == ""
    ensures !a.hasColon ==> a.secret == ""
  {
    var at := CutLast(text, '@');
    var user := CutFirst(at.before, ':');
    Authority(user.before, user.found, user.after, at.found, at.after)
  }

  function BaseOfHost(host: string): string {
    if host == "" then "" else (if IsLocalHost(host) then HTTP else HTTPS) + host
  }

  /** The `scheme` parameter replaces the scheme of a base URL taken from the host. */
  function WithScheme(baseURL: string, scheme: string): string {
    if (scheme == "http" || scheme == "https") && baseURL != "" then scheme + MARK + HostPart(baseURL) else baseURL
  }

  function Override(v: string, current: string): string {
    if v != "" then v else current
  }

  function ReadWait(v: string): Option<bool> {
    if v == "" then None else Some(v == "true" || v == "1" || v == "yes")
  }

  function ReadOr0(v: Option<int>): int {
    match v
    case Some(n) => n
    case None => 0
  }

  function ExtraParams(vals: QueryCodec.Values): map<string, string> {
    map k | k in vals && k !in KNOWN && vals[k] != [] :: vals[k][0]
  }

  /** The configuration an authority and a parsed query describe. */
  function Configure(env: Env, provider: string, a: Authority, vals: QueryCodec.Values): Config {
    var model := QueryCodec.Get(vals, "model");
    Config(
      name := Override(QueryCodec.Get(vals, "name"), DefaultName(provider, model)),
      provider := provider,
      model := model,
      quality := QueryCodec.Get(vals, "quality"),
      style := QueryCodec.Get(vals, "style"),
      apiKey := a.key,
      baseURL := Override(QueryCodec.Get(vals, "base_url"),
                          WithScheme(BaseOfHost(a.host), QueryCodec.Get(vals, "scheme"))),
      metadata := (if a.secret != "" then map[SECRET := a.secret] else map[]) + ExtraParams(vals),
      background := QueryCodec.Get(vals, "background"),
      outputFormat := QueryCodec.Get(vals, "output_format"),
      moderation := QueryCodec.Get(vals, "moderation"),
      outputCompression := ReadOr0(Atoi(QueryCodec.Get(vals, "output_compression"))),
      capability := QueryCodec.Get(vals, "capability"),
      wait := ReadWait(QueryCodec.Get(vals, "wait")),
      pollInterval := ReadDurationOr0(env, QueryCodec.Get(vals, "poll_interval"))
    )
  }

  /** The name of a configuration: the `name` parameter, or else one made from provider and
      model. */
  lemma {:induction false} NameMeans(env: Env, provider: string, a: Authority, vals: QueryCodec.Values)
      returns (t: string, i: nat, j: nat)
    ensures var c := Configure(env, provider, a, vals);
            && (QueryCodec.Get(vals, "name") != "" ==> c.name == QueryCodec.Get(vals, "name"))
            && (QueryCodec.Get(vals, "name") == "" && c.model == "" ==> c.name == provider)
            && (QueryCodec.Get(vals, "name") == "" && c.model != "" ==>
                  c.name == provider + "-" + t && NameOf(c.model, t, i, j))
  {
    t, i, j := DefaultNameMeans(provider, QueryCodec.Get(vals, "model"));
  }

  function ReadDurationOr0(env: Env, v: string): int {
    if v == "" then 0 else ReadOr0(env.readDuration(v))
  }

  function Finish(env: Env, provider: string, a: Authority, query: string): Result<Config, Error> {
    if a.key == "" then Err(MissingKey)
    else
      match QueryCodec.ParseQuery(query)
      case None => Err(BadQuery)
      case Some(vals) => Ok(Configure(env, provider, a, vals))
  }

  /** Parsing a trimmed, non-empty text. */
  function ParsedText(env: Env, text: string): Result<Config, Error> {
    var i := IndexOfText(text, MARK);
    if i < 0 then Err(NoScheme)
    else
      var rest := CutFirst(text[i + 3..], '?');
      Finish(env, ResolveScheme(env, ToLower(text[..i])), ParseAuthority(rest.before), rest.after)
  }

  /** The result of `ParseURI`. */
  function Parsed(env: Env, raw: string): Result<Config, Error> {
    var text := Trim(raw);
    if text == "" then Err(EmptyInput) else ParsedText(env, text)
  }
}
