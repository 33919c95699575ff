/** URL splitting and canonical form, for ASCII text. */
module Urls {
  import opened Wrappers
  import opened Decimals
  import opened Text

  const TAB_CHARS: set<char> := {'\t', '\r', '\n'}
  const DELIMITERS: set<char> := {'/', '?', '#'}
  const BRACKETS: set<char> := {'[', ']'}

  predicate IsAlpha(c: char) {
    'a' <= c <= 'z' || 'A' <= c <= 'Z'
  }

  predicate SchemeChar(c: char) {
    IsAlpha(c) || IsDigit(c) || c == '+' || c == '-' || c == '.'
  }

  predicate IsScheme(s: string) {
    s != "" && IsAlpha(s[0]) && forall i :: 0 <= i < |s| ==> SchemeChar(s[i])
  }

  predicate Free(s: string, cs: set<char>) {
    forall i :: 0 <= i < |s| ==> s[i] !in cs
  }

  /** urlsplit drops leading control characters and spaces. */
  function DropControls(s: string): string {
    if s != "" && s[0] <= ' ' then DropControls(s[1..]) else s
  }

  /** and tabs and line breaks anywhere. */
  function DropTabs(s: string): string {
    if s == "" then "" else if s[0] in TAB_CHARS then DropTabs(s[1..]) else [s[0]] + DropTabs(s[1..])
  }

  lemma {:induction false} DropTabsFrees(s: string)
    ensures Free(DropTabs(s), TAB_CHARS) && (Free(s, TAB_CHARS) ==> DropTabs(s) == s)
  {
    if s != "" {
      DropTabsFrees(s[1..]);
      assert s == [s[0]] + s[1..];
    }
  }

  /** The scheme ends at the first colon, when what precedes it reads as one. */
  function SchemeLength(s: string): (n: nat)
    ensures n > 0 ==> n < |s| && s[n] == ':' && IsScheme(s[..n]) && ':' !in s[..n]
  {
    var i := IndexOfAny(s, {':'}, 0);
    if 0 < i < |s| && IsScheme(s[..i]) then i else 0
  }

  datatype Parts = Parts(scheme: string, netloc: string, path: string, query: string)

  /** Bracketed is a host part in square brackets, an IPv6 literal or an error. */
  datatype SplitResult = Bracketed | Located(parts: Parts)

  /** The text after the scheme: the network location, the path and the query. The fragment is dropped. */
  function SplitRest(scheme: string, rest: string): SplitResult {
    var hasNetloc := |rest| >= 2 && rest[..2] == "//";
    var e := if hasNetloc then IndexOfAny(rest, DELIMITERS, 2) else 0;
    var netloc := if hasNetloc then rest[2..e] else "";
    if !Free(netloc, BRACKETS) then Bracketed else
      var tail := rest[e..];
      var noFragment := tail[..IndexOfAny(tail, {'#'}, 0)];
      var q := IndexOfAny(noFragment, {'?'}, 0);
      Located(Parts(scheme, netloc, noFragment[..q], if q < |noFragment| then noFragment[q + 1..] else ""))
  }

  /** urllib.parse.urlsplit */
  function UrlSplit(url: string): SplitResult {
    var s := DropTabs(DropControls(url));
    var n := SchemeLength(s);
    if n > 0 then SplitRest(Lower(s[..n]), s[n + 1..]) else SplitRest("", s)
  }

  /** The text after the last '@'. */
  function HostInfo(netloc: string): (r: string)
    ensures '@' !in r && |r| <= |netloc| && r == netloc[|netloc| - |r|..]
  {
    if '@' in netloc then HostInfo(netloc[1..]) else netloc
  }

  function HostEnd(info: string): nat {
    IndexOfAny(info, {':'}, 0)
  }

  function RawHost(netloc: string): string {
    HostInfo(netloc)[..HostEnd(HostInfo(netloc))]
  }

  /** Lower case except from a '%' on, where a zone begins. */
  function FoldHost(h: string): string {
    var z := IndexOfAny(h, {'%'}, 0);
    Lower(h[..z]) + h[z..]
  }

  /** SplitResult.hostname; "" stands for None. */
  function HostName(netloc: string): string {
    FoldHost(RawHost(netloc))
  }

  /** SplitResult.port: None when absent, Err for ValueError. */
  function Port(netloc: string): Result<Option<nat>, ()> {
    var info := HostInfo(netloc);
    var p := if HostEnd(info) < |info| then info[HostEnd(info) + 1..] else "";
    if p == "" then Ok(None)
    else if AllDigits(p) && IntOf(p) <= 65535 then Ok(Some(IntOf(p)))
    else Err(())
  }

  function DefaultPort(scheme: string): Option<nat> {
    if scheme == "http" then Some(80) else if scheme == "https" then Some(443)
    else if scheme == "ftp" then Some(21) else None
  }

  function PortSuffix(scheme: string, port: Option<nat>): string {
    if port.None? || port == DefaultPort(scheme) then "" else ":" + Decimal(port.value)
  }

  function QuerySuffix(query: string): string {
    if query == "" then "" else "?" + query
  }

  /** urlunsplit for a URL with a host and no fragment. */
  function UrlUnsplit(scheme: string, netloc: string, path: string, query: string): string {
    (if scheme == "" then "" else scheme + ":") + "//" + netloc + path + QuerySuffix(query)
  }

  /** A URL with its host, or the reason there is none. */
  datatype Canonical = NoHost | NoPort | InBrackets | Canonical(url: string, host: string)

  function Candidate(raw: string): string {
    if Find(raw, "://").Some? then raw else "http://" + raw
  }

  /** _normalize_url on a split URL. */
  function Canonicalize(split: SplitResult): Canonical {
    if split.Bracketed? then InBrackets else
      var p := split.parts;
      var host := Lower(HostName(p.netloc));
      if host == "" then NoHost
      else if Port(p.netloc).Err? then NoPort
      else Canonical(UrlUnsplit(p.scheme, host + PortSuffix(p.scheme, Port(p.netloc).value), p.path, p.query), host)
  }

  function NormalizeUrl(raw: string): Canonical {
    Canonicalize(UrlSplit(Candidate(raw)))
  }

  /** url_hostname, "" for None. What a bracketed host reads as is ipv6Host's business. */
  function UrlHostname(ipv6Host: string -> string, url: string): string {
    match UrlSplit(url)
    case Bracketed => ipv6Host(url)
    case Located(p) => HostName(p.netloc)
  }

  // ------------------------------------------------------------- reading a written URL back

  predicate PlainHost(h: string) {
    h != "" && Free(h, DELIMITERS) && Free(h, BRACKETS) && Free(h, TAB_CHARS) && Free(h, {'@', ':'})
  }

  predicate PlainPath(p: string) {
    Free(p, TAB_CHARS) && Free(p, {'?', '#'}) && (p == "" || p[0] == '/')
  }

  /** What may follow a host: nothing, or a colon and digits. */
  predicate PlainPort(p: string) {
    p == "" || (p[0] == ':' && AllDigits(p[1..]) && IntOf(p[1..]) <= 65535)
  }

  function PortOf(p: string): Option<nat>
    requires PlainPort(p)
  {
    if |p| <= 1 then None else Some(IntOf(p[1..]))
  }

  /** The query and fragment of a URL, with their marks: "", "?...", "#..." or "?...#...". */
  predicate PlainTail(query: string, tail: string) {
    && Free(tail, TAB_CHARS) && Free(query, {'#'})
    && (tail == "" || tail[0] == '?' || tail[0] == '#')
    && (if tail != "" && tail[0] == '?'
        then var e := IndexOfAny(tail, {'#'}, 0); e >= 1 && tail[1..e] == query
        else query == "")
  }

  lemma {:induction false} FreeDropTabs(s: string)
    requires s != "" && s[0] > ' ' && Free(s, TAB_CHARS)
    ensures DropTabs(DropControls(s)) == s
  {
    DropTabsFrees(s);
  }

  lemma {:induction false} HostReads(host: string, port: string)
    requires PlainHost(host) && PlainPort(port)
    ensures HostInfo(host + port) == host + port && HostEnd(host + port) == |host|
    ensures (host + port)[..|host|] == host && (host + port)[|host|..] == port
  {
    NoAt(host, port);
    IndexAfter(host, port, {':'});
  }

  lemma NoAt(host: string, port: string)
    requires Free(host, {'@', ':'}) && PlainPort(port)
    ensures '@' !in host + port && forall i :: 0 <= i < |host| ==> host[i] !in {':'}
  {
    assert '@' !in host;
    assert port != "" ==> port == [':'] + port[1..] && '@' !in port[1..];
  }

  lemma HostFolds(h: string)
    ensures Lower(FoldHost(h)) == Lower(h) && |FoldHost(h)| == |h| && (IsLower(h) ==> FoldHost(h) == h)
  {
  }

  lemma NetlocReads(host: string, port: string)
    requires PlainHost(host) && PlainPort(port)
    ensures Lower(HostName(host + port)) == Lower(host)
    ensures IsLower(host) ==> HostName(host + port) == host
    ensures Port(host + port) == Ok(PortOf(port))
  {
    HostReads(host, port);
    assert RawHost(host + port) == host;
    HostFolds(host);
    PortReads(host, port);
  }

  lemma {:induction false} PortReads(host: string, port: string)
    requires PlainPort(port) && HostInfo(host + port) == host + port && HostEnd(host + port) == |host|
    ensures Port(host + port) == Ok(PortOf(port))
  {
    if port != "" { assert (host + port)[|host| + 1..] == port[1..]; }
  }

  lemma RestReads(scheme: string, netloc: string, path: string, query: string, tail: string)
    requires Free(netloc, DELIMITERS) && Free(netloc, BRACKETS) && PlainPath(path) && PlainTail(query, tail)
    ensures SplitRest(scheme, "//" + netloc + path + tail) == Located(Parts(scheme, netloc, path, query))
  {
    var after := path + tail;
    GroupTail(netloc, path, tail);
    assert after == "" || after[0] in DELIMITERS by {
      if path == "" { assert after == tail; } else { assert after[0] == path[0]; }
    }
    NetlocEnds(netloc, after);
    TailReads(path, query, tail);
  }

  lemma GroupTail(netloc: string, path: string, tail: string)
    ensures "//" + netloc + path + tail == "//" + (netloc + (path + tail))
  {
  }

  lemma NetlocEnds(netloc: string, after: string)
    requires Free(netloc, DELIMITERS) && (after == "" || after[0] in DELIMITERS)
    ensures var rest := "//" + (netloc + after);
            var e := 2 + |netloc|;
            && rest[..2] == "//" && IndexOfAny(rest, DELIMITERS, 2) == e && rest[2..e] == netloc && rest[e..] == after
  {
    IndexAfter(netloc, after, DELIMITERS);
    IndexFrom("//", netloc + after, DELIMITERS, 0);
    assert ("//" + (netloc + after))[2..] == netloc + after;
  }

  lemma TailReads(path: string, query: string, tail: string)
    requires PlainPath(path) && PlainTail(query, tail)
    ensures var all := path + tail;
            var noFragment := all[..IndexOfAny(all, {'#'}, 0)];
            var q := IndexOfAny(noFragment, {'?'}, 0);
            noFragment[..q] == path && (if q < |noFragment| then noFragment[q + 1..] else "") == query
  {
    var f := IndexOfAny(tail, {'#'}, 0);
    var kept := tail[..f];
    FragmentEnds(path, tail, kept, f);
    QueryEnds(path, kept);
    if kept != "" {
      assert kept[0] == tail[0] && kept[1..] == tail[1..f];
    }
  }

  lemma QueryEnds(path: string, kept: string)
    requires Free(path, {'?', '#'}) && (kept == "" || kept[0] == '?')
    ensures var all := path + kept;
            var q := IndexOfAny(all, {'?'}, 0);
            all[..q] == path && (if q < |all| then all[q + 1..] else "") == if kept == "" then "" else kept[1..]
  {
    assert forall i :: 0 <= i < |path| ==> path[i] !in {'?'};
    IndexAfter(path, kept, {'?'});
    if kept != "" { assert (path + kept)[|path| + 1..] == kept[1..]; }
  }

  lemma {:induction false} FragmentEnds(path: string, tail: string, kept: string, f: nat)
    requires Free(path, {'?', '#'}) && f == IndexOfAny(tail, {'#'}, 0) && kept == tail[..f]
    ensures IndexOfAny(path + tail, {'#'}, 0) == |path| + f
    ensures (path + tail)[..|path| + f] == path + kept
  {
    var all := path + tail;
    assert forall k :: 0 <= k < |path| ==> all[k] == path[k];
    assert forall k :: |path| <= k < |path| + f ==> all[k] == tail[k - |path|];
    assert f < |tail| ==> all[|path| + f] == tail[f];
    IndexOfAnyIs(all, {'#'}, 0, |path| + f);
  }

  lemma SchemeReads(scheme: string, rest: string)
    requires IsScheme(scheme)
    ensures SchemeLength(scheme + ":" + rest) == |scheme|
  {
    assert scheme + ":" + rest == scheme + (":" + rest);
    IndexAfter(scheme, ":" + rest, {':'});
  }

  lemma UrlReads(scheme: string, netloc: string, path: string, query: string, tail: string)
    requires IsScheme(scheme) && PlainPath(path) && PlainTail(query, tail)
    requires Free(netloc, DELIMITERS) && Free(netloc, BRACKETS) && Free(netloc, TAB_CHARS)
    ensures UrlSplit(scheme + "://" + netloc + path + tail) == Located(Parts(Lower(scheme), netloc, path, query))
  {
    var rest := "//" + netloc + path + tail;
    var url := scheme + "://" + netloc + path + tail;
    assert url == scheme + ":" + rest;
    assert Free(scheme, TAB_CHARS);
    FreeDropTabs(url);
    SchemeReads(scheme, rest);
    assert url[..|scheme|] == scheme && url[|scheme| + 1..] == rest;
    RestReads(Lower(scheme), netloc, path, query, tail);
  }

  lemma MarkIsThere(a: string, b: string)
    ensures Find(a + "://" + b, "://").Some?
  {
    var s := a + "://" + b;
    assert s[|a|..|a| + 3] == "://";
    assert OccursAt(s, "://", |a|);
  }

  /**
   The canonical form in closed form: scheme and host in lower case, the default port and the
   fragment gone, the path and the query byte for byte. Its hostname is the host reported.
   */
  lemma UrlClosedForm(scheme: string, host: string, port: string, path: string, query: string, tail: string,
                      ipv6Host: string -> string)
    requires IsScheme(scheme) && PlainHost(host) && PlainPort(port) && PlainPath(path) && PlainTail(query, tail)
    ensures var s := Lower(scheme);
            var url := s + "://" + Lower(host) + PortSuffix(s, PortOf(port)) + path
                       + (if query == "" then "" else "?" + query);
            && NormalizeUrl(scheme + "://" + host + port + path + tail) == Canonical(url, Lower(host))
            && UrlHostname(ipv6Host, url) == Lower(host)
  {
    var s, h := Lower(scheme), Lower(host);
    var suffix := PortSuffix(s, PortOf(port));
    WrittenUrlCanonicalizes(scheme, host, port, path, query, tail);
    LowerIsPlain(scheme, host);
    SuffixIsPlain(s, PortOf(port));
    QueryIsPlain(query, tail);
    NetlocReads(h, suffix);
    CanonicalSplits(s, h, suffix, path, query);
  }

  lemma LowerIsPlain(scheme: string, host: string)
    requires IsScheme(scheme) && PlainHost(host)
    ensures IsScheme(Lower(scheme)) && IsLower(Lower(scheme)) && PlainHost(Lower(host)) && IsLower(Lower(host))
  {
  }

  lemma CanonicalSplits(s: string, h: string, suffix: string, path: string, query: string)
    requires IsScheme(s) && IsLower(s) && PlainHost(h) && PlainPort(suffix) && PlainPath(path)
    requires PlainTail(query, QuerySuffix(query))
    ensures UrlSplit(s + "://" + h + suffix + path + QuerySuffix(query)) == Located(Parts(s, h + suffix, path, query))
  {
    Regroup(s, h, suffix, path, QuerySuffix(query));
    UrlReads(s, h + suffix, path, query, QuerySuffix(query));
    LowerOfLower(s);
  }

  lemma Regroup(scheme: string, host: string, port: string, path: string, tail: string)
    ensures scheme + "://" + host + port + path + tail == scheme + "://" + (host + port) + path + tail
    ensures scheme + "://" + host + port + path + tail == scheme + "://" + (host + port + path + tail)
  {
  }

  lemma WrittenUrlCanonicalizes(scheme: string, host: string, port: string, path: string, query: string, tail: string)
    requires IsScheme(scheme) && PlainHost(host) && PlainPort(port) && PlainPath(path) && PlainTail(query, tail)
    ensures var s := Lower(scheme);
            NormalizeUrl(scheme + "://" + host + port + path + tail)
            == Canonical(s + "://" + Lower(host) + PortSuffix(s, PortOf(port)) + path + QuerySuffix(query), Lower(host))
  {
    var raw := scheme + "://" + host + port + path + tail;
    Regroup(scheme, host, port, path, tail);
    MarkIsThere(scheme, host + port + path + tail);
    assert Candidate(raw) == raw;
    UrlReads(scheme, host + port, path, query, tail);
    NetlocReads(host, port);
    UnsplitIs(Lower(scheme), Lower(host), PortSuffix(Lower(scheme), PortOf(port)), path, query);
  }

  lemma UnsplitIs(s: string, h: string, suffix: string, path: string, query: string)
    requires s != ""
    ensures UrlUnsplit(s, h + suffix, path, query) == s + "://" + h + suffix + path + QuerySuffix(query)
  {
    assert s + ":" + "//" == s + "://";
  }

  lemma SuffixIsPlain(scheme: string, port: Option<nat>)
    requires port.Some? ==> port.value <= 65535
    ensures PlainPort(PortSuffix(scheme, port))
    ensures PortSuffix(scheme, port) != "" ==> PortOf(PortSuffix(scheme, port)) == port
  {
    if port.Some? {
      IntOfDecimal(port.value);
      assert (":" + Decimal(port.value))[1..] == Decimal(port.value);
    }
  }

  lemma QueryIsPlain(query: string, tail: string)
    requires PlainTail(query, tail)
    ensures PlainTail(query, QuerySuffix(query))
  {
    if query != "" {
      var t := QuerySuffix(query);
      var e := IndexOfAny(tail, {'#'}, 0);
      assert forall i :: 0 <= i < |query| ==> query[i] == tail[1 + i];
      assert t[1..] == query;
      IndexOfAnyIs(t, {'#'}, 0, |t|);
    }
  }

  /**
   URLs that differ only in scheme case, host case, a default port or a fragment share one canonical
   form (sections 6.2.2.1 and 6.2.3 of RFC 3986).
   */
  lemma EquivalentUrlsMerge(s1: string, h1: string, p1: string, t1: string, s2: string, h2: string, p2: string,
                            t2: string,
                            path: string, query: string)
    requires IsScheme(s1) && PlainHost(h1) && PlainPort(p1) && PlainPath(path) && PlainTail(query, t1)
    requires IsScheme(s2) && PlainHost(h2) && PlainPort(p2) && PlainTail(query, t2)
    requires Lower(s1) == Lower(s2) && Lower(h1) == Lower(h2)
    requires PortSuffix(Lower(s1), PortOf(p1)) == PortSuffix(Lower(s2), PortOf(p2))
    ensures NormalizeUrl(s1 + "://" + h1 + p1 + path + t1) == NormalizeUrl(s2 + "://" + h2 + p2 + path + t2)
  {
    WrittenUrlCanonicalizes(s1, h1, p1, path, query, t1);
    WrittenUrlCanonicalizes(s2, h2, p2, path, query, t2);
  }

  lemma {:induction false} HostInfoDrops(user: string, rest: string)
    requires '@' !in rest
    ensures HostInfo(user + "@" + rest) == rest
  {
    var netloc := user + "@" + rest;
    if user == "" {
      assert netloc[0] == '@' && netloc[1..] == rest;
    } else {
      assert netloc[|user|] == '@' && netloc[1..] == user[1..] + "@" + rest;
      HostInfoDrops(user[1..], rest);
    }
  }

  lemma PlainHostInfo(host: string, port: string)
    requires PlainHost(host) && PlainPort(port)
    ensures '@' !in host + port
  {
    NoAt(host, port);
  }

  lemma CanonicalizeOf(raw: string, p: Parts)
    requires UrlSplit(raw) == Located(p) && Find(raw, "://").Some?
    ensures NormalizeUrl(raw) == Canonicalize(Located(p))
  {
  }

  /** Credentials before the host play no part: such a URL shares the form of the one without them. */
  lemma UserInfoIsDropped(scheme: string, user: string, host: string, port: string, path: string, query: string,
                          tail: string)
    requires IsScheme(scheme) && PlainHost(host) && PlainPort(port) && PlainPath(path) && PlainTail(query, tail)
    requires Free(user, DELIMITERS) && Free(user, BRACKETS) && Free(user, TAB_CHARS)
    ensures NormalizeUrl(scheme + "://" + (user + "@" + (host + port)) + path + tail)
            == NormalizeUrl(scheme + "://" + (host + port) + path + tail)
  {
    hide *;
    var plain, full := host + port, user + "@" + (host + port);
    PlainHostInfo(host, port);
    NetlocIsFree(host, port, user);
    HostInfoDrops(user, plain);
    HostReads(host, port);
    UrlReads(scheme, plain, path, query, tail);
    UrlReads(scheme, full, path, query, tail);
    RegroupNetloc(scheme, plain, path, tail);
    RegroupNetloc(scheme, full, path, tail);
    CanonicalizeOf(scheme + "://" + plain + path + tail, Parts(Lower(scheme), plain, path, query));
    CanonicalizeOf(scheme + "://" + full + path + tail, Parts(Lower(scheme), full, path, query));
    SameInfoSameForm(Lower(scheme), full, plain, path, query);
  }

  lemma RegroupNetloc(scheme: string, netloc: string, path: string, tail: string)
    ensures Find(scheme + "://" + netloc + path + tail, "://").Some?
  {
    assert scheme + "://" + netloc + path + tail == scheme + "://" + (netloc + path + tail);
    MarkIsThere(scheme, netloc + path + tail);
  }

  lemma NetlocIsFree(host: string, port: string, user: string)
    requires PlainHost(host) && PlainPort(port)
    requires Free(user, DELIMITERS) && Free(user, BRACKETS) && Free(user, TAB_CHARS)
    ensures Free(host + port, DELIMITERS) && Free(host + port, BRACKETS) && Free(host + port, TAB_CHARS)
    ensures var full := user + "@" + (host + port);
            Free(full, DELIMITERS) && Free(full, BRACKETS) && Free(full, TAB_CHARS)
  {
    assert port != "" ==> port == [':'] + port[1..];
  }

  lemma {:induction false} SameInfoSameForm(scheme: string, n1: string, n2: string, path: string, query: string)
    requires HostInfo(n1) == HostInfo(n2)
    ensures Canonicalize(Located(Parts(scheme, n1, path, query)))
            == Canonicalize(Located(Parts(scheme, n2, path, query)))
  {
    hide HostName, Port, UrlUnsplit, PortSuffix, Lower;
    SameInfoSameHost(n1, n2);
  }

  lemma {:induction false} SameInfoSameHost(n1: string, n2: string)
    requires HostInfo(n1) == HostInfo(n2)
    ensures HostName(n1) == HostName(n2) && Port(n1) == Port(n2)
  {
    hide FoldHost, HostInfo, HostEnd, IntOf;
  }

  /** A port that is not a number up to 65535 makes the URL unparseable. */
  lemma {:induction false} BadPortIsRefused(scheme: string, host: string, digits: string, path: string,
                                            query: string, tail: string)
    requires IsScheme(scheme) && PlainHost(host) && PlainPath(path) && PlainTail(query, tail)
    requires digits != "" && !(AllDigits(digits) && IntOf(digits) <= 65535)
    requires Free(digits, DELIMITERS) && Free(digits, BRACKETS) && Free(digits, TAB_CHARS) && '@' !in digits
    ensures NormalizeUrl(scheme + "://" + (host + ":" + digits) + path + tail) == NoPort
  {
    hide *;
    var netloc := host + ":" + digits;
    BadPortReads(host, digits);
    BadNetlocIsFree(host, digits);
    UrlReads(scheme, netloc, path, query, tail);
    RegroupNetloc(scheme, netloc, path, tail);
    CanonicalizeOf(scheme + "://" + netloc + path + tail, Parts(Lower(scheme), netloc, path, query));
    BadPortHasNoForm(Parts(Lower(scheme), netloc, path, query));
  }

  lemma BadNetlocIsFree(host: string, digits: string)
    requires PlainHost(host) && Free(digits, DELIMITERS) && Free(digits, BRACKETS) && Free(digits, TAB_CHARS)
    ensures var n := host + ":" + digits; Free(n, DELIMITERS) && Free(n, BRACKETS) && Free(n, TAB_CHARS)
  {
  }

  lemma BadPortHasNoForm(p: Parts)
    requires Lower(HostName(p.netloc)) != "" && Port(p.netloc).Err?
    ensures Canonicalize(Located(p)) == NoPort
  {
    hide HostName, Port, Lower;
  }

  lemma {:induction false} BadPortReads(host: string, digits: string)
    requires PlainHost(host) && digits != "" && !(AllDigits(digits) && IntOf(digits) <= 65535) && '@' !in digits
    ensures Lower(HostName(host + ":" + digits)) != "" && Port(host + ":" + digits).Err?
  {
    hide IntOf;
    var netloc := host + ":" + digits;
    assert '@' !in netloc;
    IndexAfter(host, ":" + digits, {':'});
    assert netloc == host + (":" + digits) && netloc[|host| + 1..] == digits;
    HostFolds(host);
  }

  /**
   What stands before the first colon is a scheme exactly when a letter begins it, and it holds nothing but
   letters, digits and these three.
   */
  lemma SchemeTells(s: string, rest: string)
    requires ':' !in s
    ensures SchemeLength(s + ":" + rest)
            == if s != "" && ('a' <= s[0] <= 'z' || 'A' <= s[0] <= 'Z')
                  && (forall i :: 0 <= i < |s| ==>
                        'a' <= s[i] <= 'z' || 'A' <= s[i] <= 'Z' || '0' <= s[i] <= '9' || s[i] in "+-.")
               then |s| else 0
  {
    var url := s + ":" + rest;
    assert url == s + (":" + rest);
    IndexAfter(s, ":" + rest, {':'});
    assert forall i :: 0 <= i < |s| ==> (s[i] in "+-." <==> s[i] == '+' || s[i] == '-' || s[i] == '.');
  }

  lemma {:induction false} DropTabsInside(a: string, c: char, b: string)
    requires c == '\t' || c == '\r' || c == '\n'
    ensures DropTabs(a + [c] + b) == DropTabs(a + b)
  {
    var s := a + [c] + b;
    if a == "" {
      assert s[0] == c && s[1..] == b && a + b == b;
    } else {
      DropTabsInside(a[1..], c, b);
      assert s[0] == a[0] && s[1..] == a[1..] + [c] + b && (a + b)[0] == a[0] && (a + b)[1..] == a[1..] + b;
    }
  }

  /** Tabs and line breaks inside a URL, and white space and controls before it, play no part. */
  lemma {:induction false} BlanksAreDropped(a: string, c: char, b: string, lead: char)
    requires c == '\t' || c == '\r' || c == '\n'
    requires a != "" && a[0] > ' ' && lead <= ' '
    ensures UrlSplit(a + [c] + b) == UrlSplit(a + b) == UrlSplit([lead] + (a + b))
  {
    hide SplitRest, SchemeLength;
    DropTabsInside(a, c, b);
    assert ([lead] + (a + b))[1..] == a + b && (a + b)[0] == a[0] && (a + [c] + b)[0] == a[0];
  }

  /** A host part that holds a square bracket is left to the reading of IPv6 literals, and no other is. */
  lemma BracketsSetApart(scheme: string, netloc: string, path: string, query: string, tail: string)
    requires IsScheme(scheme) && PlainPath(path) && PlainTail(query, tail)
    requires Free(netloc, DELIMITERS) && Free(netloc, TAB_CHARS)
    ensures UrlSplit(scheme + "://" + netloc + path + tail).Bracketed? <==> '[' in netloc || ']' in netloc
  {
    hide *;
    if '[' in netloc || ']' in netloc {
      BracketIsNotFree(netloc);
      BracketedReads(scheme, netloc, path, query, tail);
    } else {
      NoBracketIsFree(netloc);
      UrlReads(scheme, netloc, path, query, tail);
    }
  }

  lemma BracketIsNotFree(netloc: string)
    requires '[' in netloc || ']' in netloc
    ensures !Free(netloc, BRACKETS)
  {
  }

  lemma NoBracketIsFree(netloc: string)
    requires '[' !in netloc && ']' !in netloc
    ensures Free(netloc, BRACKETS)
  {
  }

  lemma BracketedReads(scheme: string, netloc: string, path: string, query: string, tail: string)
    requires IsScheme(scheme) && PlainPath(path) && PlainTail(query, tail)
    requires Free(netloc, DELIMITERS) && Free(netloc, TAB_CHARS) && !Free(netloc, BRACKETS)
    ensures UrlSplit(scheme + "://" + netloc + path + tail).Bracketed?
  {
    hide SplitRest;
    var rest := "//" + netloc + path + tail;
    var url := scheme + "://" + netloc + path + tail;
    assert url == scheme + ":" + rest;
    assert Free(scheme, TAB_CHARS);
    FreeDropTabs(url);
    SchemeReads(scheme, rest);
    assert url[..|scheme|] == scheme && url[|scheme| + 1..] == rest;
    BracketedRest(Lower(scheme), netloc, path, query, tail);
  }

  lemma BracketedRest(scheme: string, netloc: string, path: string, query: string, tail: string)
    requires Free(netloc, DELIMITERS) && !Free(netloc, BRACKETS) && PlainPath(path) && PlainTail(query, tail)
    ensures SplitRest(scheme, "//" + netloc + path + tail).Bracketed?
  {
    hide Free;
    var after := path + tail;
    GroupTail(netloc, path, tail);
    assert after == "" || after[0] in DELIMITERS by {
      if path == "" { assert after == tail; } else { assert after[0] == path[0]; }
    }
    NetlocEnds(netloc, after);
  }
}
