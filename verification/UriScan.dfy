/** How the scanner of `ParseURI` takes a printed text apart again. */
module UriScan {
  import opened Common
  import opened Text
  import opened Uri
  import QueryCodec

  /** `MARK` starts at position `j`. */
  ghost predicate MarkAt(s: string, j: nat) {
    j + 3 <= |s| && s[j] == ':' && s[j + 1] == '/' && s[j + 2] == '/'
  }

  lemma {:induction false} MarkAtPrefix(s: string, j: nat)
    requires j <= |s|
    ensures MARK <= s[j..] <==> MarkAt(s, j)
  {
    if MarkAt(s, j) {
      assert s[j..][..3] == MARK;
    }
    assert MARK[0] == ':' && MARK[1] == '/' && MARK[2] == '/';
  }

  ghost predicate NoMark(s: string) {
    forall j: nat :: !MarkAt(s, j)
  }

  /** The first mark of a text is the one after a mark-free prefix. */
  lemma {:induction false} MarkIndex(s: string, x: string)
    requires NoMark(s)
    ensures IndexOfText(s + MARK + x, MARK) == |s|
  {
    var w := s + MARK + x;
    assert w[|s|] == ':' && w[|s| + 1] == '/' && w[|s| + 2] == '/';
    MarkAtPrefix(w, |s|);
    IndexOfTextIsFirst(w, MARK, |s|);
    var i := IndexOfText(w, MARK);
    MarkAtPrefix(w, i);
    assert !MarkAt(s, i);
  }

  lemma {:induction false} NoMarkBefore(text: string, i: nat)
    requires i <= |text| && i == IndexOfText(text, MARK)
    ensures NoMark(text[..i])
  {
    forall j: nat
      ensures !MarkAt(text[..i], j)
    {
      if MarkAt(text[..i], j) {
        MarkAtPrefix(text, j);
        IndexOfTextIsFirst(text, MARK, j);
      }
    }
  }

  lemma {:induction false} TrimLeftNoMark(p: string)
    requires NoMark(p)
    ensures NoMark(TrimLeft(p))
  {
    if p != "" && IsSpace(p[0]) {
      forall j: nat
        ensures !MarkAt(p[1..], j)
      {
        assert !MarkAt(p, j + 1);
      }
      TrimLeftNoMark(p[1..]);
    }
  }

  lemma {:induction false} TrimText(p: string, x: string)
    ensures Trim(p + MARK + x) == TrimLeft(p) + MARK + TrimRight(x)
  {
    assert p + MARK + x == p + (MARK + x);
    TrimLeftAppend(p, MARK + x);
    var s := TrimLeft(p) + MARK;
    assert TrimLeft(p) + (MARK + x) == s + x;
    assert s[|s| - 1] == '/';
    TrimRightAppend(s, x);
  }

  function WithQuery(a: string, q: string): string {
    Glue(Cut(a, q != "", q), '?')
  }

  lemma {:induction false} TrimQuery(a: string, q: string)
    requires q != "" ==> !IsSpace(q[|q| - 1])
    ensures TrimRight(WithQuery(a, q)) == WithQuery(if q == "" then TrimRight(a) else a, q)
  {
    var t := WithQuery(a, q);
    if q != "" {
      assert t[|t| - 1] == q[|q| - 1];
    }
  }

  lemma {:induction false} ScanText(env: Env, s: string, rest: string)
    requires NoMark(s)
    ensures var c := CutFirst(rest, '?');
            ParsedText(env, s + MARK + rest)
            == Finish(env, ResolveScheme(env, ToLower(s)), ParseAuthority(c.before), c.after)
  {
    var text := s + MARK + rest;
    MarkIndex(s, rest);
    assert text[..|s|] == s && text[|s| + 3..] == rest;
  }

  /** Parsing a printed text: the scheme is cut at the mark, the query at the first `?` of
      what follows, and trimming only ever touches the two ends. */
  lemma {:induction false} ScanWhole(env: Env, p: string, a: string, q: string)
    requires NoMark(p)
    requires q != "" ==> !IsSpace(q[|q| - 1])
    ensures var c := CutFirst(WithQuery(if q == "" then TrimRight(a) else a, q), '?');
            Parsed(env, p + MARK + WithQuery(a, q))
            == Finish(env, ResolveScheme(env, ToLower(TrimLeft(p))), ParseAuthority(c.before), c.after)
  {
    TrimText(p, WithQuery(a, q));
    TrimQuery(a, q);
    TrimLeftNoMark(p);
    ScanText(env, TrimLeft(p), WithQuery(if q == "" then TrimRight(a) else a, q));
  }

  /** When the authority has no `?`, the query is cut off whole. */
  lemma {:induction false} ScanPrinted(env: Env, p: string, a: string, q: string)
    requires NoMark(p) && '?' !in a
    requires q != "" ==> !IsSpace(q[|q| - 1])
    ensures Parsed(env, p + MARK + WithQuery(a, q))
         == Finish(env, ResolveScheme(env, ToLower(TrimLeft(p))),
                   ParseAuthority(if q == "" then TrimRight(a) else a), q)
  {
    ScanWhole(env, p, a, q);
    CutFirstGlue(Cut(if q == "" then TrimRight(a) else a, q != "", q), '?');
  }

  // ---------- the authority ----------

  /** A base URL the host part can carry: its scheme is the one its host implies, or is
      plain http and travels as a `scheme` parameter. */
  predicate CarriedBase(baseURL: string) {
    || (HasPrefix(baseURL, HTTPS)
        && var host := TrimPrefix(baseURL, HTTPS);
           host != "" && !HasPrefix(host, HTTP) && !IsLocalHost(host))
    || (HasPrefix(baseURL, HTTP)
        && var host := TrimPrefix(baseURL, HTTP);
           host != "" && !HasPrefix(host, HTTP))
  }

  /** The delimiters an authority text may not hold in the wrong place. */
  predicate CleanAuthority(key: string, secret: string, baseURL: string) {
    && ':' !in key
    && (if baseURL == "" then '@' !in key && '@' !in secret
        else CarriedBase(baseURL) && '@' !in HostPart(baseURL))
  }

  /** The base URL parsing arrives at, given whether `scheme=http` was printed. */
  function FullBase(a: Authority, http: bool): string {
    WithScheme(BaseOfHost(a.host), if http then "http" else "")
  }

  lemma {:induction false} PrefixFacts(x: string)
    ensures HasPrefix(HTTPS + x, HTTPS) && TrimPrefix(HTTPS + x, HTTPS) == x
    ensures HasPrefix(HTTP + x, HTTP) && TrimPrefix(HTTP + x, HTTP) == x
    ensures !HasPrefix(HTTP + x, HTTPS) && !HasPrefix(HTTPS + x, HTTP)
  {
    assert (HTTPS + x)[..8] == HTTPS && (HTTP + x)[..7] == HTTP;
    assert (HTTPS + x)[8..] == x && (HTTP + x)[7..] == x;
    assert (HTTP + x)[4] == ':' && (HTTPS + x)[4] == 's' && HTTPS[4] == 's' && HTTP[4] == ':';
  }

  /** A local host is not empty and never starts with a scheme. */
  lemma {:induction false} SchemeIsNotLocal(host: string)
    ensures HasPrefix(host, HTTP) ==> !IsLocalHost(host)
    ensures !IsLocalHost("")
  {
    if HasPrefix(host, HTTP) {
      var before, after := "http:", "/" + TrimPrefix(host, HTTP);
      assert host == before + "/" + after;
      IndexOfAppend(before, '/', after);
      assert host[..5] == before;
      assert before == "http" + ":" + "";
      IndexOfAppend("http", ':', "");
      assert before[..4] == "http";
    }
  }

  lemma {:induction false} SameLength(u: string, x: string, y: string)
    requires u + x == u + y
    ensures x == y
  {
    assert x == (u + x)[|u|..] && y == (u + y)[|u|..];
  }

  lemma {:induction false} HttpsForward(host: string)
    requires host != "" && !HasPrefix(host, HTTP) && !IsLocalHost(host)
    ensures HostPart(HTTPS + host) == host && !NeedsHttp(HTTPS + host)
    ensures WithScheme(BaseOfHost(host), "") == HTTPS + host
  {
    PrefixFacts(host);
  }

  /** Replacing the scheme of a base URL by plain http. */
  lemma {:induction false} HttpReplaces(scheme: string, host: string)
    requires scheme == HTTP || scheme == HTTPS
    ensures scheme == HTTPS ==> WithScheme(scheme + host, "http") == HTTP + TrimPrefix(host, HTTP)
    ensures scheme == HTTP ==> WithScheme(scheme + host, "http") == HTTP + host
  {
    PrefixFacts(host);
    assert "http" + MARK == HTTP;
  }

  lemma {:induction false} BaseHasScheme(host: string)
    ensures BaseOfHost(host) == "" || HasPrefix(BaseOfHost(host), HTTPS) || HasPrefix(BaseOfHost(host), HTTP)
  {
    PrefixFacts(host);
  }

  lemma {:induction false} HttpNeeds(host: string)
    ensures HostPart(HTTP + host) == host && (NeedsHttp(HTTP + host) <==> !IsLocalHost(host))
  {
    PrefixFacts(host);
    assert HTTP + host != "";
  }

  lemma {:induction false} HttpForward(host: string)
    requires host != "" && !HasPrefix(host, HTTP)
    ensures WithScheme(BaseOfHost(host), if IsLocalHost(host) then "" else "http") == HTTP + host
  {
    if IsLocalHost(host) {
      assert BaseOfHost(host) == HTTP + host;
    } else {
      assert BaseOfHost(host) == HTTPS + host;
      HttpReplaces(HTTPS, host);
      assert TrimPrefix(host, HTTP) == host;
    }
  }

  /** Where the base URL ends up after printing its host part. */
  lemma {:induction false} BaseForward(baseURL: string)
    requires CarriedBase(baseURL)
    ensures HostPart(baseURL) != ""
    ensures WithScheme(BaseOfHost(HostPart(baseURL)), if NeedsHttp(baseURL) then "http" else "") == baseURL
  {
    if HasPrefix(baseURL, HTTPS) {
      PrefixFacts(TrimPrefix(baseURL, HTTPS));
      HttpsForward(TrimPrefix(baseURL, HTTPS));
    } else {
      HttpNeeds(TrimPrefix(baseURL, HTTP));
      HttpForward(TrimPrefix(baseURL, HTTP));
    }
  }

  lemma {:induction false} HttpsBackward(x: string, host: string)
    requires host <= HostPart(HTTPS + x) && BaseOfHost(host) == HTTPS + x
    ensures host == x == HostPart(HTTPS + x) && CarriedBase(HTTPS + x)
  {
    PrefixFacts(x);
    PrefixFacts(host);
    assert HostPart(HTTPS + x) == TrimPrefix(x, HTTP);
    assert host == x;
  }

  lemma {:induction false} LocalBackward(x: string, host: string)
    requires host <= x && BaseOfHost(host) == HTTP + x
    ensures host == x && x != "" && !HasPrefix(x, HTTP)
  {
    PrefixFacts(x);
    PrefixFacts(host);
    assert host == x;
    SchemeIsNotLocal(x);
  }

  lemma {:induction false} HttpBackward(x: string, host: string)
    requires host <= HostPart(HTTP + x)
    requires !IsLocalHost(x) ==> host == HostPart(HTTP + x)
    requires WithScheme(BaseOfHost(host), if IsLocalHost(x) then "" else "http") == HTTP + x
    ensures host == x == HostPart(HTTP + x) && CarriedBase(HTTP + x)
  {
    PrefixFacts(x);
    assert HostPart(HTTP + x) == x;
    if IsLocalHost(x) {
      LocalBackward(x, host);
    } else {
      assert x != "" by {
        assert BaseOfHost("") == "" && WithScheme("", "http") == "";
      }
      HttpReplaces(HTTPS, x);
      SameLength(HTTP, TrimPrefix(x, HTTP), x);
    }
  }

  /** The converse: only a carried base URL survives, and only with its whole host part. */
  lemma {:induction false} BaseBackward(baseURL: string, host: string)
    requires baseURL != ""
    requires host <= HostPart(baseURL)
    requires NeedsHttp(baseURL) ==> host == HostPart(baseURL)
    requires WithScheme(BaseOfHost(host), if NeedsHttp(baseURL) then "http" else "") == baseURL
    ensures host == HostPart(baseURL) && CarriedBase(baseURL)
  {
    if HasPrefix(baseURL, HTTPS) {
      PrefixFacts(TrimPrefix(baseURL, HTTPS));
      HttpsBackward(TrimPrefix(baseURL, HTTPS), host);
    } else if HasPrefix(baseURL, HTTP) {
      PrefixFacts(TrimPrefix(baseURL, HTTP));
      HttpBackward(TrimPrefix(baseURL, HTTP), host);
    } else {
      BaseHasScheme(host);
    }
  }

  lemma {:induction false} AuthorityForward(key: string, secret: string, baseURL: string)
    requires CleanAuthority(key, secret, baseURL)
    ensures var a := ParseAuthority(AuthorityText(key, secret, baseURL));
            a.key == key && a.secret == secret && FullBase(a, NeedsHttp(baseURL)) == baseURL
  {
    var host := if baseURL != "" then HostPart(baseURL) else "";
    var user := UserText(key, secret);
    CutLastGlue(Cut(user, baseURL != "", host), '@');
    CutFirstGlue(Cut(key, secret != "", secret), ':');
    if baseURL != "" {
      BaseForward(baseURL);
    }
  }

  /** Two authority texts with the same key and secret, one a prefix of the other, have
      the same separators. */
  lemma {:induction false} SameSeparators(key: string, secret: string, host: string, a: Authority)
    requires a.key == key && a.secret == secret && a.hasAt && (!a.hasColon ==> secret == "")
    requires AuthorityOf(a) <= UserText(key, secret) + "@" + host
    ensures AuthorityOf(a) == UserText(key, secret) + "@" + a.host && a.host <= host
  {
    var text := AuthorityOf(a);
    var user := UserText(key, secret);
    var full := user + "@" + host;
    assert text[|key|] == if a.hasColon then ':' else '@';
    assert full[|key|] == if secret != "" then ':' else '@';
    assert text == user + "@" + a.host;
    assert full[|user| + 1..] == host && text[|user| + 1..] == a.host;
  }

  lemma {:induction false} AuthorityBackward(key: string, secret: string, baseURL: string, text: string)
    requires text <= AuthorityText(key, secret, baseURL)
    requires NeedsHttp(baseURL) ==> text == AuthorityText(key, secret, baseURL)
    requires var a := ParseAuthority(text);
             a.key == key && a.secret == secret && FullBase(a, NeedsHttp(baseURL)) == baseURL
    ensures text == AuthorityText(key, secret, baseURL)
    ensures CleanAuthority(key, secret, baseURL)
  {
    var a := ParseAuthority(text);
    if baseURL == "" {
      NoHostBackward(key, secret, a, text);
    } else {
      var host := HostPart(baseURL);
      assert a.host != "";
      SameSeparators(key, secret, host, a);
      if NeedsHttp(baseURL) {
        SameLength(UserText(key, secret) + "@", a.host, host);
      }
      BaseBackward(baseURL, a.host);
    }
  }

  lemma {:induction false} NoHostBackward(key: string, secret: string, a: Authority, text: string)
    requires text == AuthorityOf(a) && text <= UserText(key, secret)
    requires a.key == key && a.secret == secret && a.host == ""
    requires !a.hasAt ==> '@' !in text
    requires !a.hasColon ==> secret == ""
    ensures text == UserText(key, secret) && '@' !in key && '@' !in secret
  {
    assert |text| <= |UserText(key, secret)|;
    assert !a.hasAt && (a.hasColon <==> secret != "");
    if a.hasColon {
      assert forall c :: c in key || c in secret ==> c in text;
    }
  }
}
