/** Hostnames and the URLs built from them (capture/policy.py). */
module Hostnames {
  import opened Wrappers
  import opened Text

  // ------------------------------------------------- is_valid_hostname

  predicate IsDigit(c: char) { '0' <= c <= '9' }

  predicate IsWord(c: char) { 'a' <= c <= 'z' || IsDigit(c) || c == '_' }

  /** `[a-z0-9_](?:[a-z0-9_-]{0,62}[a-z0-9_])?`, hence up to 64 characters. */
  predicate IsLabel(l: string) {
    && 1 <= |l| <= 64
    && IsWord(l[0]) && IsWord(l[|l| - 1])
    && forall k :: 0 <= k < |l| ==> IsWord(l[k]) || l[k] == '-'
  }

  function DropDot(s: string): string {
    if s != "" && s[|s| - 1] == '.' then s[..|s| - 1] else s
  }

  predicate HostnameBody(s: string) {
    && 1 <= |s| <= 253
    && forall l | l in Split(DropDot(s), '.') :: IsLabel(l)
  }

  predicate PortBody(s: string) {
    1 <= |s| <= 5 && s[0] != '0' && forall k :: 0 <= k < |s| ==> IsDigit(s[k])
  }

  /** What `$` leaves out of the match: one final newline. */
  function DropNewline(s: string): string {
    if s != "" && s[|s| - 1] == '\n' then s[..|s| - 1] else s
  }

  /** `_HOSTNAME_RE` and `_PORT_RE`, whose `$` also matches before a final newline. */
  predicate MatchesHostname(s: string) {
    HostnameBody(s) || HostnameBody(DropNewline(s))
  }

  predicate MatchesPort(s: string) {
    PortBody(s) || PortBody(DropNewline(s))
  }

  /** Index of the last colon, or -1. */
  function LastColon(s: string): (n: int)
    ensures -1 <= n < |s|
    ensures n >= 0 ==> s[n] == ':'
    ensures forall k :: n < k < |s| ==> s[k] != ':'
  {
    if s == "" then -1 else if s[|s| - 1] == ':' then |s| - 1 else LastColon(s[..|s| - 1])
  }

  function NameOf(host: string): string {
    var n := LastColon(host);
    if n >= 0 then host[..n] else host
  }

  function PortOf(host: string): Option<string> {
    var n := LastColon(host);
    if n >= 0 then Some(host[n + 1..]) else None
  }

  /** Index of the first `]`, or the length. */
  function Bracket(s: string): (n: nat)
    ensures n <= |s|
  {
    if s == "" || s[0] == ']' then 0 else 1 + Bracket(s[1..])
  }

  /** `is_valid_hostname`; `isIp` is whether `ipaddress.ip_address` accepts the text. */
  predicate IsValidHostname(isIp: string -> bool, raw: string) {
    var host := Lower(raw);
    if host != "" && host[0] == '[' then
      var n := Bracket(host);
      n < |host| && (n + 1 == |host| || (host[n + 1] == ':' && MatchesPort(host[n + 2..]))) && isIp(host[1..n])
    else
      && (PortOf(host).Some? ==> MatchesPort(PortOf(host).value))
      && (isIp(NameOf(host)) || MatchesHostname(NameOf(host)))
  }

  /** An IPv4 literal: four groups of one to three digits. */
  predicate DottedQuad(s: string) {
    var parts := Split(s, '.');
    && |parts| == 4
    && forall p | p in parts :: 1 <= |p| <= 3 && forall k :: 0 <= k < |p| ==> IsDigit(p[k])
  }

  /** The only literal addresses without a colon are dotted quads. */
  ghost predicate ColonFreeLiteralsAreQuads(isIp: string -> bool) {
    forall s :: isIp(s) && ':' !in s ==> DottedQuad(s)
  }

  // ------------------------------------------------- candidate_urls and URL authorities

  const ALLOWED_SCHEMES: set<string> := {"http", "https"}
  const WEBSOCKET_SCHEMES: set<string> := {"ws", "wss"}
  const INERT_SCHEMES: set<string> := {"data", "blob", "about", "javascript"}

  predicate AllowedSchemes(schemes: seq<string>) {
    forall i :: 0 <= i < |schemes| ==> schemes[i] in ALLOWED_SCHEMES
  }

  function UrlFor(scheme: string, fqdn: string): string {
    scheme + "://" + fqdn + "/"
  }

  /** `candidate_urls`; None is the ValueError for an unsupported scheme. */
  function CandidateUrls(fqdn: string, schemes: seq<string>): (urls: Option<seq<string>>)
    ensures urls.Some? <==> AllowedSchemes(schemes)
    ensures urls.Some? ==> |urls.value| == |schemes|
    ensures urls.Some? ==> forall i :: 0 <= i < |schemes| ==> urls.value[i] == UrlFor(schemes[i], fqdn)
  {
    if AllowedSchemes(schemes)
    then Some(seq(|schemes|, i requires 0 <= i < |schemes| => UrlFor(schemes[i], fqdn)))
    else None
  }

  datatype Authority = Authority(userinfo: Option<string>, host: string, port: Option<string>)
  datatype Url = Url(scheme: string, authority: Authority, path: string)

  /** How many leading characters of `s` avoid `stop`. */
  function Span(s: string, stop: set<char>): (n: nat)
    ensures n <= |s| && (forall k :: 0 <= k < n ==> s[k] !in stop)
    ensures n < |s| ==> s[n] in stop
  {
    if s == "" || s[0] in stop then 0 else 1 + Span(s[1..], stop)
  }

  predicate IsAlpha(c: char) { 'a' <= c <= 'z' || 'A' <= c <= 'Z' }

  /** The characters of a registered name, section 3.2.2 of RFC 3986. */
  predicate IsRegName(c: char) {
    IsAlpha(c) || IsDigit(c) || c in {'-', '.', '_', '~', '!', '$', '&', '\'', '(', ')', '*', '+', ',', ';', '=', '%'}
  }

  predicate RegName(s: string) {
    forall k :: 0 <= k < |s| ==> IsRegName(s[k])
  }

  predicate Digits(s: string) {
    forall k :: 0 <= k < |s| ==> IsDigit(s[k])
  }

  /** Section 3.2: optional userinfo, then a registered name and optional digits. */
  function ParseAuthority(s: string): Option<Authority> {
    var at := Span(s, {'@'});
    var hostport := if at < |s| then s[at + 1..] else s;
    var h := Span(hostport, {':'});
    var name, port := hostport[..h], if h < |hostport| then Some(hostport[h + 1..]) else None;
    if RegName(name) && (port.Some? ==> Digits(port.value))
    then Some(Authority(if at < |s| then Some(s[..at]) else None, name, port))
    else None
  }

  /** Section 3.3: what follows "://" is the authority, then the path. */
  function ParseHierarchy(scheme: string, rest: string): Option<Url> {
    var a := Span(rest, {'/', '?', '#'});
    var authority := ParseAuthority(rest[..a]);
    if authority.None? then None
    else Some(Url(scheme, authority.value, rest[a..][..Span(rest[a..], {'?', '#'})]))
  }

  /** Generic-syntax parsing by section 3 of RFC 3986; None for text that is not such a URL. */
  function ParseUrl(s: string): Option<Url> {
    var n := Span(s, {':'});
    if n == 0 || !IsAlpha(s[0]) || !("://" <= s[n..]) then None else ParseHierarchy(s[..n], s[n + 3..])
  }

  // ------------------------------------------------- the round trip

  lemma {:induction false} SplitCovers(s: string, sep: char, k: nat)
    requires k < |s| && s[k] != sep
    ensures exists p :: p in Split(s, sep) && s[k] in p
  {
    var rest := Split(s[1..], sep);
    if k == 0 {
      assert s[0] in Split(s, sep)[0];
    } else {
      SplitCovers(s[1..], sep, k - 1);
      var p :| p in rest && s[k] in p;
      var i :| 0 <= i < |rest| && rest[i] == p;
      if s[0] == sep {
        assert Split(s, sep)[i + 1] == p;
      } else if i > 0 {
        assert Split(s, sep)[i] == p;
      } else {
        assert s[k] in Split(s, sep)[0];
      }
    }
  }

  lemma NameCharacters(s: string, k: nat)
    requires HostnameBody(s) && k < |s|
    ensures IsWord(s[k]) || s[k] == '-' || s[k] == '.'
  {
    if s[k] != '.' {
      assert DropDot(s)[k] == s[k];
      SplitCovers(DropDot(s), '.', k);
    }
  }

  lemma QuadCharacters(s: string, k: nat)
    requires DottedQuad(s) && k < |s|
    ensures IsWord(s[k]) || s[k] == '.'
  {
    if s[k] != '.' {
      SplitCovers(s, '.', k);
    }
  }

  /** Lower-casing does not move the colon. */
  lemma LowerParts(host: string)
    ensures NameOf(Lower(host)) == Lower(NameOf(host))
    ensures PortOf(Lower(host)) == if PortOf(host).Some? then Some(Lower(PortOf(host).value)) else None
  {
    var n, m := LastColon(host), LastColon(Lower(host));
    assert n >= 0 ==> Lower(host)[n] == ':';
    assert m >= 0 ==> LowerChar(host[m]) == ':';
    assert n == m;
    if n >= 0 {
      assert Lower(host)[n + 1..] == Lower(host[n + 1..]);
    }
  }

  lemma LowerKeepsColons(s: string)
    requires ':' !in s
    ensures ':' !in Lower(s)
  {
    forall k | 0 <= k < |s| ensures Lower(s)[k] != ':' {
      assert s[k] in s;
    }
  }

  /** A plain name or dotted quad, with an optional port. */
  predicate PlainHost(isIp: string -> bool, host: string) {
    IsValidHostname(isIp, host) && ':' !in NameOf(host) && !(host != "" && host[0] == '[')
  }

  predicate PrintableAscii(host: string) {
    forall k :: 0 <= k < |host| ==> '!' <= host[k] <= '~'
  }

  /** The name's characters after lower-casing; the newline `$` lets by can only come last. */
  lemma LoweredName(isIp: string -> bool, host: string, k: nat)
    requires ColonFreeLiteralsAreQuads(isIp) && PlainHost(isIp, host) && k < |NameOf(host)|
    ensures var c := LowerChar(NameOf(host)[k]); IsWord(c) || c == '-' || c == '.' || c == '\n'
  {
    LowerParts(host);
    LowerKeepsColons(NameOf(host));
    CharactersOfName(isIp, Lower(NameOf(host)), k);
  }

  lemma CharactersOfName(isIp: string -> bool, name: string, k: nat)
    requires ColonFreeLiteralsAreQuads(isIp) && ':' !in name && (isIp(name) || MatchesHostname(name)) && k < |name|
    ensures IsWord(name[k]) || name[k] in {'-', '.', '\n'}
  {
    if isIp(name) {
      QuadCharacters(name, k);
    } else if HostnameBody(name) {
      NameCharacters(name, k);
    } else if k < |DropNewline(name)| {
      NameCharacters(DropNewline(name), k);
    }
  }

  lemma LoweredPort(isIp: string -> bool, host: string, k: nat)
    requires PlainHost(isIp, host) && PortOf(host).Some? && k < |PortOf(host).value|
    ensures var c := LowerChar(PortOf(host).value[k]); IsDigit(c) || c == '\n'
  {
    LowerParts(host);
    PortCharacters(Lower(PortOf(host).value), k);
  }

  lemma PortCharacters(port: string, k: nat)
    requires MatchesPort(port) && k < |port|
    ensures IsDigit(port[k]) || port[k] == '\n'
  {
    assert k < |DropNewline(port)| ==> DropNewline(port)[k] == port[k];
  }

  lemma HostSplits(host: string)
    ensures host == NameOf(host) + (if PortOf(host).Some? then ":" + PortOf(host).value else "")
  {
  }

  lemma SpanStops(head: string, stop: set<char>, tail: string)
    requires forall k :: 0 <= k < |head| ==> head[k] !in stop
    requires tail == "" || tail[0] in stop
    ensures Span(head + tail, stop) == |head|
  {
    var s := head + tail;
    assert forall k :: 0 <= k < |head| ==> s[k] == head[k];
    assert tail != "" ==> s[|head|] == tail[0];
  }

  lemma ParseHostPort(name: string, port: Option<string>)
    requires forall k :: 0 <= k < |name| ==> name[k] !in {'@', ':'}
    requires port.Some? ==> '@' !in port.value
    ensures ParseAuthority(name + (if port.Some? then ":" + port.value else "")) ==
              if RegName(name) && (port.Some? ==> Digits(port.value)) then Some(Authority(None, name, port)) else None
  {
    var tail := if port.Some? then ":" + port.value else "";
    var s := name + tail;
    forall k | 0 <= k < |s| ensures s[k] != '@' {
      assert s[k] == if k < |name| then name[k] else tail[k - |name|];
    }
    assert Span(s, {'@'}) == |s| by {
      SpanStops(s, {'@'}, "");
      assert s + "" == s;
    }
    assert Span(s, {':'}) == |name| by { SpanStops(name, {':'}, tail); }
    assert s[..|name|] == name;
    if port.Some? {
      assert s[|name| + 1..] == port.value;
    }
  }

  lemma ParseRest(scheme: string, host: string)
    requires forall k :: 0 <= k < |host| ==> host[k] !in {'/', '?', '#'}
    ensures ParseHierarchy(scheme, host + "/") ==
              if ParseAuthority(host).Some? then Some(Url(scheme, ParseAuthority(host).value, "/")) else None
  {
    var rest := host + "/";
    SpanStops(host, {'/', '?', '#'}, "/");
    assert rest[..|host|] == host && rest[|host|..] == "/";
    SpanStops("/", {'?', '#'}, "");
    assert "/" + "" == "/" && "/"[..1] == "/";
  }

  lemma SplitScheme(scheme: string, rest: string, s: string)
    requires s == scheme + ("://" + rest)
    requires scheme != "" && IsAlpha(scheme[0]) && forall k :: 0 <= k < |scheme| ==> scheme[k] !in {':'}
    ensures ParseUrl(s) == ParseHierarchy(scheme, rest)
  {
    SpanStops(scheme, {':'}, "://" + rest);
    assert s[..|scheme|] == scheme && s[|scheme|..] == "://" + rest && s[|scheme| + 3..] == rest;
  }

  lemma ParseScheme(scheme: string, host: string)
    requires scheme in ALLOWED_SCHEMES
    ensures ParseUrl(UrlFor(scheme, host)) == ParseHierarchy(scheme, host + "/")
  {
    var s := UrlFor(scheme, host);
    assert s == scheme + ("://" + (host + "/"));
    SplitScheme(scheme, host + "/", s);
  }

  /** A character of an accepted name, and of an accepted port, before lower-casing. */
  predicate NameChar(c: char) {
    var l := LowerChar(c);
    IsWord(l) || l == '-' || l == '.' || l == '\n'
  }

  predicate PortChar(c: char) {
    IsDigit(LowerChar(c)) || c == '\n'
  }

  lemma AcceptedCharacters(isIp: string -> bool, host: string)
    requires ColonFreeLiteralsAreQuads(isIp) && PlainHost(isIp, host)
    ensures forall k :: 0 <= k < |NameOf(host)| ==> NameChar(NameOf(host)[k])
    ensures PortOf(host).Some? ==> forall k :: 0 <= k < |PortOf(host).value| ==> PortChar(PortOf(host).value[k])
  {
    forall k | 0 <= k < |NameOf(host)| ensures NameChar(NameOf(host)[k]) {
      LoweredName(isIp, host, k);
    }
    if PortOf(host).Some? {
      forall k | 0 <= k < |PortOf(host).value| ensures PortChar(PortOf(host).value[k]) {
        LoweredPort(isIp, host, k);
      }
    }
  }

  /** Of the characters an accepted host can hold, the printable ASCII ones are those the grammar takes. */
  lemma AsciiMeansParsable(name: string, port: Option<string>, host: string)
    requires host == name + (if port.Some? then ":" + port.value else "")
    requires forall k :: 0 <= k < |name| ==> NameChar(name[k])
    requires port.Some? ==> forall k :: 0 <= k < |port.value| ==> PortChar(port.value[k])
    ensures PrintableAscii(host) <==> RegName(name) && (port.Some? ==> Digits(port.value))
  {
    var n := |name|;
    if PrintableAscii(host) {
      assert forall k :: 0 <= k < n ==> name[k] == host[k];
      assert port.Some? ==> forall k :: 0 <= k < |port.value| ==> port.value[k] == host[n + 1 + k];
    } else {
      var k :| 0 <= k < |host| && !('!' <= host[k] <= '~');
      assert k < n ==> host[k] == name[k];
      assert k > n ==> host[k] == port.value[k - n - 1];
    }
  }

  /** No accepted host holds a character that would end or re-divide the authority. */
  lemma NoDelimiters(name: string, port: Option<string>, host: string)
    requires host == name + (if port.Some? then ":" + port.value else "")
    requires forall k :: 0 <= k < |name| ==> NameChar(name[k])
    requires port.Some? ==> forall k :: 0 <= k < |port.value| ==> PortChar(port.value[k])
    ensures forall k :: 0 <= k < |host| ==> host[k] !in {'/', '?', '#', '@'}
    ensures forall k :: 0 <= k < |name| ==> name[k] != '@'
    ensures port.Some? ==> '@' !in port.value
  {
    var n := |name|;
    assert forall k :: 0 <= k < n ==> host[k] == name[k];
    assert forall k :: n < k < |host| ==> host[k] == port.value[k - n - 1];
  }

  lemma ParseOfUrl(scheme: string, host: string)
    requires scheme in ALLOWED_SCHEMES
    requires forall k :: 0 <= k < |host| ==> host[k] !in {'/', '?', '#', '@'}
    ensures ParseUrl(UrlFor(scheme, host)) ==
              if ParseAuthority(host).Some? then Some(Url(scheme, ParseAuthority(host).value, "/")) else None
  {
    ParseScheme(scheme, host);
    ParseRest(scheme, host);
  }

  lemma RoundTripParts(scheme: string, name: string, port: Option<string>, host: string)
    requires scheme in ALLOWED_SCHEMES && ':' !in name
    requires host == name + (if port.Some? then ":" + port.value else "")
    requires forall k :: 0 <= k < |name| ==> NameChar(name[k])
    requires port.Some? ==> forall k :: 0 <= k < |port.value| ==> PortChar(port.value[k])
    ensures ParseUrl(UrlFor(scheme, host)) ==
              if PrintableAscii(host) then Some(Url(scheme, Authority(None, name, port), "/")) else None
  {
    NoDelimiters(name, port, host);
    ParseOfUrl(scheme, host);
    ParseHostPort(name, port);
    AsciiMeansParsable(name, port, host);
  }

  /**
   * Every accepted host names exactly itself in the URL visited, with no userinfo, if and only if it
   * is plain printable ASCII; otherwise the URL is not one at all. The regular expressions alone do not
   * say so: `$` lets a newline by, and lower-casing turns a Kelvin sign into a "k".
   */
  lemma HostRoundTripIff(isIp: string -> bool, scheme: string, host: string)
    requires ColonFreeLiteralsAreQuads(isIp) && PlainHost(isIp, host) && scheme in ALLOWED_SCHEMES
    ensures ParseUrl(UrlFor(scheme, host)) ==
              if PrintableAscii(host) then Some(Url(scheme, Authority(None, NameOf(host), PortOf(host)), "/")) else None
  {
    HostSplits(host);
    AcceptedCharacters(isIp, host);
    RoundTripParts(scheme, NameOf(host), PortOf(host), host);
  }

  lemma OneLetterHost(c: char)
    requires IsWord(c)
    ensures HostnameBody([c])
  {
    assert c != '.' && DropDot([c]) == [c];
    SplitWhole([c], '.');
    assert IsLabel([c]);
  }

  lemma OneLetterValid(isIp: string -> bool)
    ensures IsValidHostname(isIp, ['a'])
  {
    assert Lower(['a']) == ['a'] && LastColon(['a']) == -1 && DropNewline(['a']) == ['a'];
    OneLetterHost('a');
  }

  /** A newline, and a Kelvin sign, that `is_valid_hostname` accepts. */
  lemma AcceptedButNotAscii(isIp: string -> bool)
    ensures IsValidHostname(isIp, ['a', '\n']) && !PrintableAscii(['a', '\n'])
    ensures IsValidHostname(isIp, ['\U{212A}']) && !PrintableAscii(['\U{212A}'])
  {
    var newline, kelvin := ['a', '\n'], ['\U{212A}'];
    assert Lower(newline) == newline && Lower(kelvin) == ['k'];
    assert LastColon(newline) == -1 && LastColon(['k']) == -1;
    assert DropNewline(newline) == ['a'];
    OneLetterHost('a');
    OneLetterHost('k');
    assert newline[1] == '\n' && kelvin[0] == '\U{212A}';
  }

  // ------------------------------------------------- the literal-address refusal

  datatype Block = SchemeNotAllowed | NoHost | PrivateAddress(host: string)

  /** `is_blocked_url` on a parsed URL; `isPrivate` is `is_private_address`. */
  function BlockedUrl(isPrivate: string -> bool, url: Url, blockPrivateNetworks: bool): Option<Block> {
    var scheme, host := Lower(url.scheme), Lower(url.authority.host);
    if scheme in INERT_SCHEMES then None
    else if scheme !in ALLOWED_SCHEMES + WEBSOCKET_SCHEMES then Some(SchemeNotAllowed)
    else if host == "" then Some(NoHost)
    else if blockPrivateNetworks && isPrivate(host) then Some(PrivateAddress(host))
    else None
  }

  /** The refusal decided on the URL is the one the name itself deserves. */
  lemma RefusalAgreesWithName(isIp: string -> bool, isPrivate: string -> bool, scheme: string, host: string,
                              guard: bool)
    requires ColonFreeLiteralsAreQuads(isIp) && PlainHost(isIp, host) && scheme in ALLOWED_SCHEMES
    requires PrintableAscii(host)
    ensures ParseUrl(UrlFor(scheme, host)).Some?
    ensures BlockedUrl(isPrivate, ParseUrl(UrlFor(scheme, host)).value, guard) ==
              if guard && isPrivate(Lower(NameOf(host))) then Some(PrivateAddress(Lower(NameOf(host)))) else None
  {
    HostRoundTripIff(isIp, scheme, host);
    LowerParts(host);
    NameNotEmpty(isIp, Lower(NameOf(host)));
    RefusalOf(isPrivate, scheme, NameOf(host), PortOf(host), guard);
  }

  lemma RefusalOf(isPrivate: string -> bool, scheme: string, name: string, port: Option<string>, guard: bool)
    requires scheme in ALLOWED_SCHEMES && Lower(name) != ""
    ensures BlockedUrl(isPrivate, Url(scheme, Authority(None, name, port), "/"), guard) ==
              if guard && isPrivate(Lower(name)) then Some(PrivateAddress(Lower(name))) else None
  {
    assert Lower("http") == "http" && Lower("https") == "https";
    assert scheme[0] == 'h' && "data"[0] != 'h' && "blob"[0] != 'h' && "about"[0] != 'h' && "javascript"[0] != 'h';
  }

  lemma NameNotEmpty(isIp: string -> bool, name: string)
    requires ColonFreeLiteralsAreQuads(isIp) && (isIp(name) || MatchesHostname(name))
    ensures name != ""
  {
    assert Split("", '.') == [""] && DropNewline("") == "";
    assert !DottedQuad("");
  }

  /** A URL says which host it was built for. */
  lemma UrlNamesHost(s1: string, h1: string, s2: string, h2: string)
    requires s1 in ALLOWED_SCHEMES && s2 in ALLOWED_SCHEMES && UrlFor(s1, h1) == UrlFor(s2, h2)
    ensures s1 == s2 && h1 == h2
  {
    var u1, u2 := UrlFor(s1, h1), UrlFor(s2, h2);
    assert u1[4] == if s1 == "http" then ':' else 's';
    assert u2[4] == if s2 == "http" then ':' else 's';
    assert u1[|s1| + 3..|u1| - 1] == h1 && u2[|s2| + 3..|u2| - 1] == h2;
  }
}
