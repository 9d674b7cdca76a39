/** Masking the keys of an engine URI (engine/uri.go, `RedactURI`). */
module UriRedact {
  import opened Text
  import opened Uri
  import opened UriScan

  const MASK := "***"

  /** `redactSingle`. */
  function RedactSingle(s: string): string {
    if |s| <= 4 then MASK else s[..3] + MASK
  }

  /** `redactKey`. */
  function RedactKey(key: string): string {
    var k := CutFirst(key, ':');
    Glue(Cut(RedactSingle(k.before), k.found, if k.found then RedactSingle(k.after) else ""), ':')
  }

  /** The part between the mark and the query. */
  function RedactAuthority(text: string): string {
    var at := CutLast(text, '@');
    Glue(Cut(RedactKey(at.before), at.found, at.after), '@')
  }

  function RedactRest(rest: string): string {
    var q := CutFirst(rest, '?');
    Glue(Cut(RedactAuthority(q.before), q.found, q.after), '?')
  }

  /** The result of `RedactURI`. */
  function Redacted(raw: string): string {
    var text := Trim(raw);
    var i := IndexOfText(text, MARK);
    if i < 0 then text else text[..i] + MARK + RedactRest(text[i + 3..])
  }

  lemma {:induction false} RedactedWithoutMark(raw: string, text: string)
    requires text == Trim(raw) && IndexOfText(text, MARK) < 0
    ensures Redacted(raw) == text
  {
  }

  lemma {:induction false} RedactedAt(raw: string, text: string, i: int, rest: string)
    requires text == Trim(raw) && i == IndexOfText(text, MARK) >= 0
    requires rest == RedactRest(text[i + 3..])
    ensures Redacted(raw) == text[..i] + MARK + rest
  {
  }

  method RedactURI(raw: string) returns (r: string)
    ensures r == Redacted(raw)
  {
    var text := Trim(raw);
    var schemeEnd := IndexOfText(text, MARK);
    if schemeEnd < 0 {
      RedactedWithoutMark(raw, text);
      return text;
    }
    var rest := MaskRest(text[schemeEnd + 3..]);
    RedactedAt(raw, text, schemeEnd, rest);
    r := text[..schemeEnd] + MARK + rest;
  }

  /** The part of `RedactURI` behind the mark, which updates `rest` as it goes. */
  method MaskRest(whole: string) returns (rest: string)
    ensures rest == RedactRest(whole)
  {
    var q := CutFirst(whole, '?');
    var queryStr := if q.found then "?" + q.after else "";
    rest := q.before;
    var at := CutLast(rest, '@');
    if at.found {
      rest := RedactKey(at.before) + "@" + at.after;
    } else {
      rest := RedactKey(rest);
    }
    GlueAt(q.before);
    GlueQuery(rest, q);
    rest := rest + queryStr;
  }

  lemma {:induction false} GlueAt(text: string)
    ensures var at := CutLast(text, '@');
            RedactAuthority(text) == if at.found then RedactKey(at.before) + "@" + at.after else RedactKey(text)
  {
  }

  lemma {:induction false} GlueQuery(rest: string, q: Cut)
    ensures rest + (if q.found then "?" + q.after else "") == Glue(Cut(rest, q.found, q.after), '?')
  {
  }

  // ---------- redacting twice ----------

  /** Where a text of two parts ends. */
  lemma {:induction false} GlueEnd(k: Cut, c: char)
    requires k.before != ""
    ensures var r := Glue(k, c);
            r != "" && r[|r| - 1] == (if !k.found then k.before[|k.before| - 1]
                                      else if k.after == "" then c else k.after[|k.after| - 1])
  {
  }

  lemma {:induction false} RedactSingleTwice(s: string)
    ensures RedactSingle(RedactSingle(s)) == RedactSingle(s)
    ensures RedactSingle(s) != "" && !IsSpace(RedactSingle(s)[|RedactSingle(s)| - 1])
    ensures forall c :: c !in s && c != '*' ==> c !in RedactSingle(s)
  {
    if |s| > 4 {
      assert RedactSingle(s)[..3] == s[..3];
    }
  }

  lemma {:induction false} RedactKeyTwice(key: string)
    ensures RedactKey(RedactKey(key)) == RedactKey(key)
    ensures RedactKey(key) != "" && !IsSpace(RedactKey(key)[|RedactKey(key)| - 1])
    ensures forall c :: c !in key && c != '*' ==> c !in RedactKey(key)
  {
    var k := CutFirst(key, ':');
    RedactSingleTwice(k.before);
    RedactSingleTwice(k.after);
    CutFirstGlue(Cut(RedactSingle(k.before), k.found, if k.found then RedactSingle(k.after) else ""), ':');
  }

  lemma {:induction false} RedactAuthorityTwice(text: string)
    ensures RedactAuthority(RedactAuthority(text)) == RedactAuthority(text)
    ensures '?' !in text ==> '?' !in RedactAuthority(text)
    ensures RedactAuthority(text) != ""
    ensures !EndsInSpace(text) ==> !EndsInSpace(RedactAuthority(text))
  {
    var at := CutLast(text, '@');
    RedactKeyTwice(at.before);
    var k := Cut(RedactKey(at.before), at.found, at.after);
    CutLastGlue(k, '@');
    GlueEnd(k, '@');
  }

  lemma {:induction false} RedactRestTwice(rest: string)
    ensures RedactRest(RedactRest(rest)) == RedactRest(rest)
    ensures !EndsInSpace(rest) ==> !EndsInSpace(RedactRest(rest))
  {
    var q := CutFirst(rest, '?');
    RedactAuthorityTwice(q.before);
    var k := Cut(RedactAuthority(q.before), q.found, q.after);
    CutFirstGlue(k, '?');
    GlueEnd(k, '?');
  }

  /** Redacting the text `scheme://rest`. */
  lemma {:induction false} RedactedShape(scheme: string, rest: string)
    requires NoMark(scheme)
    requires scheme != "" ==> !IsSpace(scheme[0])
    requires !EndsInSpace(rest)
    ensures Redacted(scheme + MARK + rest) == scheme + MARK + RedactRest(rest)
  {
    var t := scheme + MARK + rest;
    assert t[0] == if scheme != "" then scheme[0] else ':';
    assert t[|t| - 1] == if rest != "" then rest[|rest| - 1] else '/';
    TrimOfTrimmed(t);
    MarkIndex(scheme, rest);
    assert t[..|scheme|] == scheme && t[|scheme| + 3..] == rest;
    RedactedAt(t, t, |scheme|, RedactRest(rest));
  }

  lemma {:induction false} OuterParts(text: string, i: nat)
    requires NoOuterSpace(text) && i + 3 <= |text|
    ensures i > 0 ==> !IsSpace(text[..i][0])
    ensures !EndsInSpace(text[i + 3..])
  {
  }

  lemma {:induction false} MarkedTwice(text: string, i: nat)
    requires NoOuterSpace(text) && i < |text| && i == IndexOfText(text, MARK)
    ensures var t := text[..i] + MARK + RedactRest(text[i + 3..]);
            Redacted(t) == t
  {
    NoMarkBefore(text, i);
    OuterParts(text, i);
    RedactRestTwice(text[i + 3..]);
    RedactedShape(text[..i], RedactRest(text[i + 3..]));
  }

  /** Redacting is idempotent on every string. */
  lemma {:induction false} RedactTwice(raw: string)
    ensures Redacted(Redacted(raw)) == Redacted(raw)
  {
    var text := Trim(raw);
    TrimmedEnds(raw);
    var i := IndexOfText(text, MARK);
    if i < 0 {
      TrimOfTrimmed(text);
      RedactedWithoutMark(raw, text);
    } else {
      RedactedAt(raw, text, i, RedactRest(text[i + 3..]));
      MarkedTwice(text, i);
    }
  }

  // ---------- what is shown ----------

  /** The text behind the mark, put together from its parts. */
  function RestOf(key: string, hasSecret: bool, secret: string, hasHost: bool, host: string,
                  hasQuery: bool, query: string): string {
    Glue(Cut(Glue(Cut(Glue(Cut(key, hasSecret, secret), ':'), hasHost, host), '@'), hasQuery, query), '?')
  }

  /** Parts that are read back as they are: each delimiter stands only where it separates, and
      a part that is not there is empty. */
  ghost predicate Separable(key: string, hasSecret: bool, secret: string, hasHost: bool, host: string,
                            hasQuery: bool, query: string) {
    && ':' !in key && '@' !in host
    && '@' !in key && '@' !in secret
    && '?' !in key && '?' !in secret && '?' !in host
    && (!hasSecret ==> secret == "") && (!hasHost ==> host == "") && (!hasQuery ==> query == "")
  }

  /** What is left visible of a key or a secret. */
  function Shown(has: bool, s: string): string {
    if has then RedactSingle(s) else ""
  }

  /** Redaction masks the key and the secret, and leaves host and query as they are. */
  lemma {:induction false} MaskedParts(key: string, hasSecret: bool, secret: string, hasHost: bool, host: string,
                                       hasQuery: bool, query: string)
    requires Separable(key, hasSecret, secret, hasHost, host, hasQuery, query)
    ensures RedactRest(RestOf(key, hasSecret, secret, hasHost, host, hasQuery, query))
         == RestOf(RedactSingle(key), hasSecret, Shown(hasSecret, secret), hasHost, host, hasQuery, query)
  {
    var user := Glue(Cut(key, hasSecret, secret), ':');
    CutFirstGlue(Cut(Glue(Cut(user, hasHost, host), '@'), hasQuery, query), '?');
    CutLastGlue(Cut(user, hasHost, host), '@');
    CutFirstGlue(Cut(key, hasSecret, secret), ':');
  }

  /** The parts of a text are determined by the text. */
  lemma {:induction false} PartsRead(k1: string, s1: string, k2: string, s2: string, hasSecret: bool,
                                     hasHost: bool, host: string, hasQuery: bool, query: string)
    requires Separable(k1, hasSecret, s1, hasHost, host, hasQuery, query)
    requires Separable(k2, hasSecret, s2, hasHost, host, hasQuery, query)
    requires RestOf(k1, hasSecret, s1, hasHost, host, hasQuery, query)
          == RestOf(k2, hasSecret, s2, hasHost, host, hasQuery, query)
    ensures k1 == k2 && s1 == s2
  {
    var u1, u2 := Glue(Cut(k1, hasSecret, s1), ':'), Glue(Cut(k2, hasSecret, s2), ':');
    CutFirstGlue(Cut(Glue(Cut(u1, hasHost, host), '@'), hasQuery, query), '?');
    CutFirstGlue(Cut(Glue(Cut(u2, hasHost, host), '@'), hasQuery, query), '?');
    CutLastGlue(Cut(u1, hasHost, host), '@');
    CutLastGlue(Cut(u2, hasHost, host), '@');
    CutFirstGlue(Cut(k1, hasSecret, s1), ':');
    CutFirstGlue(Cut(k2, hasSecret, s2), ':');
  }

  /** The same is shown of two keys: nothing of short ones, three bytes of longer ones. */
  predicate SameShown(a: string, b: string) {
    if |a| <= 4 then |b| <= 4 else |b| > 4 && a[..3] == b[..3]
  }

  lemma {:induction false} SameShownIff(a: string, b: string)
    ensures RedactSingle(a) == RedactSingle(b) <==> SameShown(a, b)
  {
    assert |a| > 4 ==> RedactSingle(a)[..3] == a[..3] && |RedactSingle(a)| == 6;
    assert |b| > 4 ==> RedactSingle(b)[..3] == b[..3] && |RedactSingle(b)| == 6;
  }

  lemma {:induction false} ShownSeparable(key: string, hasSecret: bool, secret: string, hasHost: bool, host: string,
                                          hasQuery: bool, query: string)
    requires Separable(key, hasSecret, secret, hasHost, host, hasQuery, query)
    ensures Separable(RedactSingle(key), hasSecret, Shown(hasSecret, secret), hasHost, host, hasQuery, query)
  {
    RedactSingleTwice(key);
    RedactSingleTwice(secret);
  }

  /** Redaction hides keys, and nothing else: two URIs of one shape that differ in key and
      secret redact to the same text if and only if the same is shown of the keys and of the
      secrets, whether or not a host and a query follow. */
  lemma {:induction false} KeyIsHidden(scheme: string, k1: string, s1: string, k2: string, s2: string, hasSecret: bool,
                                       hasHost: bool, host: string, hasQuery: bool, query: string)
    requires NoMark(scheme) && (scheme != "" ==> !IsSpace(scheme[0]))
    requires Separable(k1, hasSecret, s1, hasHost, host, hasQuery, query)
    requires Separable(k2, hasSecret, s2, hasHost, host, hasQuery, query)
    requires !EndsInSpace(RestOf(k1, hasSecret, s1, hasHost, host, hasQuery, query))
    requires !EndsInSpace(RestOf(k2, hasSecret, s2, hasHost, host, hasQuery, query))
    ensures Redacted(scheme + MARK + RestOf(k1, hasSecret, s1, hasHost, host, hasQuery, query))
         == Redacted(scheme + MARK + RestOf(k2, hasSecret, s2, hasHost, host, hasQuery, query))
       <==> SameShown(k1, k2) && (hasSecret ==> SameShown(s1, s2))
  {
    RedactedShape(scheme, RestOf(k1, hasSecret, s1, hasHost, host, hasQuery, query));
    RedactedShape(scheme, RestOf(k2, hasSecret, s2, hasHost, host, hasQuery, query));
    MaskedParts(k1, hasSecret, s1, hasHost, host, hasQuery, query);
    MaskedParts(k2, hasSecret, s2, hasHost, host, hasQuery, query);
    SameShownIff(k1, k2);
    SameShownIff(s1, s2);
    var t1 := RestOf(RedactSingle(k1), hasSecret, Shown(hasSecret, s1), hasHost, host, hasQuery, query);
    var t2 := RestOf(RedactSingle(k2), hasSecret, Shown(hasSecret, s2), hasHost, host, hasQuery, query);
    SamePrefix(scheme + MARK, t1, t2);
    if t1 == t2 {
      ShownSeparable(k1, hasSecret, s1, hasHost, host, hasQuery, query);
      ShownSeparable(k2, hasSecret, s2, hasHost, host, hasQuery, query);
      PartsRead(RedactSingle(k1), Shown(hasSecret, s1), RedactSingle(k2), Shown(hasSecret, s2),
                hasSecret, hasHost, host, hasQuery, query);
    }
  }

  lemma {:induction false} SamePrefix(p: string, x: string, y: string)
    ensures p + x == p + y <==> x == y
  {
    assert (p + x)[|p|..] == x && (p + y)[|p|..] == y;
  }
}
