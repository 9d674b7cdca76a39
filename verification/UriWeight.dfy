/** What printed and parsed texts of a URI weigh (engine/uri.go): the separators and schemes
    that are put in or taken out weigh nothing. */
module UriWeight {
  import opened Common
  import opened Text
  import opened Uri
  import opened QueryWeight

  lemma {:induction false} LightText(s: string)
    requires forall i :: 0 <= i < |s| ==> !Heavy(s[i])
    ensures Weight(s) == 0
  {
    if s != "" {
      LightText(s[1..]);
    }
  }

  lemma {:induction false} HeavyAt(s: string, i: nat)
    requires i < |s| && Heavy(s[i])
    ensures Weight(s) >= 1
  {
    if i > 0 {
      HeavyAt(s[1..], i - 1);
    }
  }

  lemma {:induction false} GlueWeight(k: Cut, c: char)
    requires !Heavy(c) && (!k.found ==> k.after == "")
    ensures Weight(Glue(k, c)) == Weight(k.before) + Weight(k.after)
  {
    if k.found {
      WeightCons(c, k.after);
      WeightAppend(k.before, [c] + k.after);
      Associative(k.before, [c], k.after);
    }
  }

  lemma {:induction false} AuthorityWeight(a: Authority)
    requires (!a.hasColon ==> a.secret == "") && (!a.hasAt ==> a.host == "")
    ensures Weight(AuthorityOf(a))
         == Weight(a.key) + Weight(a.secret) + Weight(a.host)
  {
    GlueWeight(Cut(a.key, a.hasColon, a.secret), ':');
    GlueWeight(Cut(Glue(Cut(a.key, a.hasColon, a.secret), ':'), a.hasAt, a.host), '@');
  }

  lemma {:induction false} TrimPrefixWeight(s: string, p: string)
    ensures Weight(TrimPrefix(s, p)) <= Weight(s)
  {
    if p <= s {
      WeightDrop(s, |p|);
    }
  }

  lemma {:induction false} HostPartWeight(baseURL: string)
    ensures Weight(HostPart(baseURL)) <= Weight(baseURL)
  {
    TrimPrefixWeight(baseURL, HTTPS);
    TrimPrefixWeight(TrimPrefix(baseURL, HTTPS), HTTP);
  }

  lemma {:induction false} PrintedWeight(key: string, secret: string, baseURL: string)
    ensures Weight(AuthorityText(key, secret, baseURL))
         == Weight(key) + Weight(secret) + Weight(HostPart(baseURL))
  {
    GlueWeight(Cut(key, secret != "", secret), ':');
    GlueWeight(Cut(UserText(key, secret), baseURL != "", if baseURL != "" then HostPart(baseURL) else ""), '@');
    assert HostPart("") == "";
  }

  lemma {:induction false} LightBefore(p: string, s: string)
    requires Weight(p) == 0
    ensures Weight(p + s) == Weight(s)
  {
    WeightAppend(p, s);
  }

  lemma {:induction false} LightSchemes()
    ensures Weight(HTTP) == 0 && Weight(HTTPS) == 0
  {
    LightText(HTTP);
    LightText(HTTPS);
  }

  lemma {:induction false} BaseOfHostWeight(host: string)
    ensures Weight(BaseOfHost(host)) <= Weight(host)
  {
    LightSchemes();
    LightBefore(HTTP, host);
    LightBefore(HTTPS, host);
  }

  lemma {:induction false} SchemeWeight(baseURL: string, scheme: string)
    ensures Weight(WithScheme(baseURL, scheme)) <= Weight(baseURL)
  {
    if scheme == "http" || scheme == "https" {
      HostPartWeight(baseURL);
      LightText(scheme + MARK);
      LightBefore(scheme + MARK, HostPart(baseURL));
    }
  }

  /** A base URL taken from a host weighs no more than the host. */
  lemma {:induction false} BaseWeight(host: string, scheme: string)
    ensures Weight(WithScheme(BaseOfHost(host), scheme)) <= Weight(host)
  {
    BaseOfHostWeight(host);
    SchemeWeight(BaseOfHost(host), scheme);
  }

  lemma {:induction false} LightChoices()
    ensures Weight("scheme") == 0 && Weight("http") == 0
    ensures Weight("wait") == 0 && Weight("true") == 0 && Weight("false") == 0
  {
    LightText("scheme");
    LightText("http");
    LightText("wait");
    LightText("true");
    LightText("false");
  }
}
