/** Addresses of the control plane and the data planes. */
module Endpoint {
  import opened Results
  import opened Text

  const HTTPS := "https://"
  const HTTP := "http://"

  /** Removes a prefix as often as it stands at the front. */
  function StripAll(s: string, prefix: string): (r: string)
    requires prefix != ""
    ensures !(prefix <= r)
    ensures |r| <= |s| && r == s[|s| - |r|..]
    ensures !(prefix <= s) ==> r == s
  {
    if prefix <= s then StripAll(s[|prefix|..], prefix) else s
  }

  /** The part before the first occurrence of a character, or all of it. */
  function UpTo(s: string, c: char): (r: string)
    ensures r <= s && c !in r
    ensures r == s || s[|r|] == c
  {
    if s == "" || s[0] == c then "" else [s[0]] + UpTo(s[1..], c)
  }

  function NormalizeMtlsEndpoint(raw: string): string {
    WithHttps(Trim(raw))
  }

  function WithHttps(trimmed: string): string {
    if HTTPS <= trimmed then trimmed
    else if HTTP <= trimmed then HTTPS + StripAll(trimmed, HTTP)
    else HTTPS + trimmed
  }

  function NormalizeBootstrapEndpoint(raw: string): Result<string> {
    var trimmed := Trim(raw);
    if trimmed == "" then Err("AGENT_BOOTSTRAP_TARGET_ADDR must not be empty")
    else if HTTPS <= trimmed || HTTP <= trimmed then Ok(trimmed)
    else Ok(HTTP + trimmed)
  }

  function WithoutScheme(s: string): string {
    if HTTPS <= s then s[|HTTPS|..] else if HTTP <= s then s[|HTTP|..] else s
  }

  /** The host of an address without scheme: up to the path, then up to the port. */
  function Host(s: string): string {
    UpTo(UpTo(s, '/'), ':')
  }

  function ServerNameForTarget(configured: string, target: string): string {
    if Trim(configured) != "" then Trim(configured) else Host(WithoutScheme(Trim(target)))
  }

  lemma PrefixedIsTidy(prefix: string, s: string)
    requires prefix != "" && Tidy(prefix)
    requires s == "" || !IsWhitespace(s[|s| - 1])
    ensures Tidy(prefix + s)
  {
  }

  lemma NormalizedIsTidy(raw: string)
    ensures Tidy(NormalizeMtlsEndpoint(raw)) && HTTPS <= NormalizeMtlsEndpoint(raw)
  {
    var trimmed := Trim(raw);
    if !(HTTPS <= trimmed) {
      PrefixedIsTidy(HTTPS, if HTTP <= trimmed then StripAll(trimmed, HTTP) else trimmed);
    }
  }

  /** Whatever is configured or received, runtime traffic goes to an https address, and normalising again is idle. */
  lemma NormalizedIsHttpsAndFixed(raw: string)
    ensures HTTPS <= NormalizeMtlsEndpoint(raw)
    ensures NormalizeMtlsEndpoint(NormalizeMtlsEndpoint(raw)) == NormalizeMtlsEndpoint(raw)
  {
    NormalizedIsTidy(raw);
  }

  lemma HostOfRepeatedScheme(rest: string)
    ensures Host(HTTP + rest) == "http"
  {
    assert HTTP + rest == "http:" + (['/'] + ("/" + rest));
    UpToFirst("http:", "/" + rest, '/');
    assert "http:" == "http" + ([':'] + "");
    UpToFirst("http", "", ':');
  }

  lemma {:induction false} UpToFirst(s: string, rest: string, c: char)
    requires c !in s
    ensures UpTo(s + ([c] + rest), c) == s
  {
    if s == "" {
    } else {
      assert (s + ([c] + rest))[1..] == s[1..] + ([c] + rest);
      UpToFirst(s[1..], rest, c);
    }
  }

  /** The address repeats the plain scheme, which the endpoint loses altogether and the server name only once. */
  predicate RepeatsPlainScheme(target: string) {
    HTTP <= Trim(target) && HTTP <= Trim(target)[|HTTP|..]
  }

  lemma SchemeOfHttps(trimmed: string)
    ensures WithoutScheme(WithHttps(trimmed)) ==
              if HTTP <= trimmed && !(HTTPS <= trimmed) then StripAll(trimmed[|HTTP|..], HTTP)
              else WithoutScheme(trimmed)
  {
    var normalized := WithHttps(trimmed);
    assert HTTPS <= normalized;
    if !(HTTPS <= trimmed) {
      assert normalized[|HTTPS|..] == if HTTP <= trimmed then StripAll(trimmed, HTTP) else trimmed;
    }
  }

  lemma HostOfPlain(trimmed: string)
    requires HTTP <= trimmed && HTTP <= trimmed[|HTTP|..]
    ensures Host(WithoutScheme(trimmed)) == "http"
    ensures Host(WithoutScheme(WithHttps(trimmed))) == Host(StripAll(trimmed, HTTP))
  {
    var once := trimmed[|HTTP|..];
    assert HTTPS[4] == 's' && trimmed[4] == HTTP[4];
    HostOfRepeatedScheme(once[|HTTP|..]);
    assert once == HTTP + once[|HTTP|..];
    SchemeOfHttps(trimmed);
  }

  lemma HostsAgreeIff(trimmed: string)
    ensures Host(WithoutScheme(trimmed)) == Host(WithoutScheme(WithHttps(trimmed)))
       <==> !(HTTP <= trimmed && HTTP <= trimmed[|HTTP|..]) || Host(StripAll(trimmed, HTTP)) == "http"
  {
    if HTTP <= trimmed && HTTP <= trimmed[|HTTP|..] {
      HostOfPlain(trimmed);
    } else {
      SchemeOfHttps(trimmed);
      assert WithoutScheme(WithHttps(trimmed)) == WithoutScheme(trimmed);
    }
  }

  /**
   * The TLS server name derived from the raw address is that of the endpoint connected to, except when no name is
   * configured and `http://` is repeated at the front of the address; then it is `http`, right only if so is the host.
   */
  lemma ServerNameAgreesIff(configured: string, target: string)
    ensures ServerNameForTarget(configured, target) == ServerNameForTarget(configured, NormalizeMtlsEndpoint(target))
       <==> || Trim(configured) != ""
            || !RepeatsPlainScheme(target)
            || Host(StripAll(Trim(target), HTTP)) == "http"
  {
    NormalizedIsTidy(target);
    HostsAgreeIff(Trim(target));
  }

  lemma StripOne(rest: string)
    ensures StripAll(HTTP + rest, HTTP) == StripAll(rest, HTTP)
  {
    assert (HTTP + rest)[|HTTP|..] == rest;
  }

  lemma NotHttps(rest: string)
    ensures !(HTTPS <= HTTP + rest)
  {
    assert HTTPS[4] == 's' && (HTTP + rest)[4] == ':';
  }

  lemma TwicePlain(rest: string)
    requires !(HTTP <= rest)
    ensures WithHttps(HTTP + (HTTP + rest)) == HTTPS + rest
    ensures WithoutScheme(HTTP + (HTTP + rest)) == HTTP + rest
  {
    var once := HTTP + rest;
    StripOne(once);
    StripOne(rest);
    NotHttps(once);
    assert (HTTP + once)[|HTTP|..] == once;
  }

  lemma HostOfNode()
    ensures Host("node:1") == "node"
  {
    assert UpTo("node:1", '/') == "node:1";
    assert "node:1" == "node" + ([':'] + "1");
    UpToFirst("node", "1", ':');
  }

  /** For such an address the server name is `http`, while the connection goes to the host `node`. */
  lemma ServerNamesDisagree()
    ensures var target := HTTP + (HTTP + "node:1");
            && NormalizeMtlsEndpoint(target) == HTTPS + "node:1"
            && ServerNameForTarget("", target) == "http"
            && ServerNameForTarget("", NormalizeMtlsEndpoint(target)) == "node"
  {
    var rest := "node:1";
    assert rest[0] == 'n';
    PrefixedIsTidy(HTTP, HTTP + rest);
    TwicePlain(rest);
    HostOfRepeatedScheme(rest);
    HostOfNode();
    PrefixedIsTidy(HTTPS, rest);
    assert (HTTPS + rest)[|HTTPS|..] == rest;
  }

  /** Bootstrap keeps the scheme it is given, takes plain text without one, and refuses only blank addresses. */
  lemma BootstrapKeepsScheme(raw: string)
    ensures var r := NormalizeBootstrapEndpoint(raw);
            && (r.Err? <==> Trim(raw) == "")
            && (r.Ok? ==>
                  && (HTTPS <= r.value <==> HTTPS <= Trim(raw))
                  && (HTTPS <= r.value || HTTP <= r.value)
                  && NormalizeBootstrapEndpoint(r.value) == r)
  {
    var trimmed := Trim(raw);
    if trimmed != "" {
      PrefixedIsTidy(HTTP, trimmed);
      assert (HTTP + trimmed)[4] == ':';
      assert HTTPS[4] == 's';
    }
  }

  /** What normalising makes of an address: https stays, the plain scheme becomes https, a bare address gets it. */
  lemma NormalizedAddress(raw: string)
    ensures HTTPS <= Trim(raw) ==> NormalizeMtlsEndpoint(raw) == Trim(raw)
    ensures !("https://" <= Trim(raw)) && !("http://" <= Trim(raw)) ==>
              NormalizeMtlsEndpoint(raw) == "https://" + Trim(raw)
    ensures "http://" <= Trim(raw) && !("http://" <= Trim(raw)[7..]) ==>
              NormalizeMtlsEndpoint(raw) == "https://" + Trim(raw)[7..]
  {
    var trimmed := Trim(raw);
    if HTTP <= trimmed {
      NotHttps(trimmed[|HTTP|..]);
      assert trimmed == HTTP + trimmed[|HTTP|..];
    }
  }

  /** Further repetitions of the plain scheme disappear as well. */
  lemma RepeatedSchemeDisappears(raw: string, again: string)
    requires Trim(raw) == "http://" + ("http://" + again)
    ensures NormalizeMtlsEndpoint(raw) == WithHttps("http://" + again)
  {
    StripOne(HTTP + again);
    NotHttps(HTTP + again);
    NotHttps(again);
  }

  /** What bootstrap connects to: the address as given if it has a scheme, else in plain text. */
  lemma BootstrapAddress(raw: string)
    requires Trim(raw) != ""
    ensures NormalizeBootstrapEndpoint(raw) ==
              Ok(if "https://" <= Trim(raw) || "http://" <= Trim(raw) then Trim(raw) else "http://" + Trim(raw))
  {
  }

  /** A configured name is used, trimmed. */
  lemma ConfiguredNameWins(configured: string, target: string)
    requires Trim(configured) != ""
    ensures ServerNameForTarget(configured, target) == Trim(configured)
  {
  }

  lemma HostComesFirst(host: string, rest: string)
    requires '/' !in host && ':' !in host && (rest == "" || rest[0] == '/' || rest[0] == ':')
    ensures Host(host + rest) == host
  {
    if rest == "" {
      UpToNone(host, '/');
      UpToNone(host, ':');
      assert host + rest == host;
    } else {
      assert host + rest == host + ([rest[0]] + rest[1..]);
      if rest[0] == '/' {
        UpToFirst(host, rest[1..], '/');
        UpToNone(host, ':');
      } else {
        var path := UpTo(rest[1..], '/');
        UpToAfter(host + [':'], rest[1..], '/');
        assert host + [':'] + rest[1..] == host + rest;
        assert host + [':'] + path == host + ([':'] + path);
        UpToFirst(host, path, ':');
      }
    }
  }

  lemma {:induction false} UpToNone(s: string, c: char)
    requires c !in s
    ensures UpTo(s, c) == s
  {
    if s == "" {
    } else {
      UpToNone(s[1..], c);
    }
  }

  lemma {:induction false} UpToAfter(s: string, rest: string, c: char)
    requires c !in s
    ensures UpTo(s + rest, c) == s + UpTo(rest, c)
  {
    if s == "" {
      assert s + rest == rest;
    } else {
      assert (s + rest)[1..] == s[1..] + rest;
      UpToAfter(s[1..], rest, c);
    }
  }

  /** Without a configured name it is the target's host: what follows the scheme, up to a port or a path. */
  lemma HostNameIsDerived(configured: string, target: string, scheme: string, host: string, rest: string)
    requires Trim(configured) == "" && Trim(target) == scheme + (host + rest)
    requires || scheme == "https://" || scheme == "http://"
             || (scheme == "" && !("https://" <= host + rest) && !("http://" <= host + rest))
    requires '/' !in host && ':' !in host && (rest == "" || rest[0] == '/' || rest[0] == ':')
    ensures ServerNameForTarget(configured, target) == host
  {
    HostComesFirst(host, rest);
    SchemeComesOff(scheme, host + rest);
  }

  lemma SchemeComesOff(scheme: string, address: string)
    requires || scheme == "https://" || scheme == "http://"
             || (scheme == "" && !("https://" <= address) && !("http://" <= address))
    ensures WithoutScheme(scheme + address) == address
  {
    if scheme == "" {
      assert scheme + address == address;
    } else {
      assert (scheme + address)[|scheme|..] == address;
      NotHttps(address);
    }
  }
}
