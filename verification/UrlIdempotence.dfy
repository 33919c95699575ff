/** When canonicalizing a URL twice is canonicalizing it once. */
module UrlIdempotence {
  import opened Wrappers
  import opened Decimals
  import opened Text
  import opened Urls

  /** What every split text looks like. */
  ghost predicate SplitShape(p: Parts) {
    && (p.scheme == "" || (IsScheme(p.scheme) && IsLower(p.scheme)))
    && Free(p.netloc, DELIMITERS) && Free(p.netloc, BRACKETS) && Free(p.netloc, TAB_CHARS)
    && (p.netloc != "" ==> PlainPath(p.path))
    && Free(p.query, {'#'}) && Free(p.query, TAB_CHARS)
  }

  lemma FreePart(s: string, cs: set<char>, i: nat, j: nat)
    requires Free(s, cs) && i <= j <= |s|
    ensures Free(s[i..j], cs)
  {
  }

  lemma RestShape(scheme: string, rest: string)
    requires Free(rest, TAB_CHARS) && SplitRest(scheme, rest).Located?
    requires scheme == "" || (IsScheme(scheme) && IsLower(scheme))
    ensures SplitShape(SplitRest(scheme, rest).parts)
  {
    if |rest| >= 2 && rest[..2] == "//" {
      var e := IndexOfAny(rest, DELIMITERS, 2);
      FreePart(rest, TAB_CHARS, 2, e);
      FreePart(rest, TAB_CHARS, e, |rest|);
      assert rest[e..|rest|] == rest[e..];
      TailShape(rest[e..]);
    } else {
      assert rest[0..] == rest;
      TailShape(rest);
    }
  }

  lemma TailShape(tail: string)
    requires Free(tail, TAB_CHARS)
    ensures var noFragment := tail[..IndexOfAny(tail, {'#'}, 0)];
            var q := IndexOfAny(noFragment, {'?'}, 0);
            var query := if q < |noFragment| then noFragment[q + 1..] else "";
            && Free(query, {'#'}) && Free(query, TAB_CHARS)
            && (tail == "" || tail[0] in DELIMITERS ==> PlainPath(noFragment[..q]))
  {
    var f := IndexOfAny(tail, {'#'}, 0);
    var noFragment := tail[..f];
    FreePart(tail, TAB_CHARS, 0, f);
    assert tail[0..f] == noFragment;
    var q := IndexOfAny(noFragment, {'?'}, 0);
    FreePart(noFragment, TAB_CHARS, 0, q);
    assert noFragment[0..q] == noFragment[..q];
    if q < |noFragment| {
      FreePart(noFragment, TAB_CHARS, q + 1, |noFragment|);
      assert noFragment[q + 1..|noFragment|] == noFragment[q + 1..];
    }
    assert forall i :: 0 <= i < |noFragment| ==> noFragment[i] == tail[i] && noFragment[i] != '#';
  }

  lemma UrlShape(url: string)
    requires UrlSplit(url).Located?
    ensures SplitShape(UrlSplit(url).parts)
  {
    var s := DropTabs(DropControls(url));
    var n := SchemeLength(s);
    DropTabsFrees(DropControls(url));
    if n > 0 {
      FreePart(s, TAB_CHARS, n + 1, |s|);
      assert s[n + 1..|s|] == s[n + 1..];
      LowerScheme(s[..n]);
      RestShape(Lower(s[..n]), s[n + 1..]);
    } else {
      RestShape("", s);
    }
  }

  lemma LowerScheme(s: string)
    requires IsScheme(s)
    ensures IsScheme(Lower(s)) && IsLower(Lower(s))
  {
  }

  /** The host read out of a network location can be written back without being misread. */
  lemma HostIsPlain(netloc: string)
    requires Free(netloc, DELIMITERS) && Free(netloc, BRACKETS) && Free(netloc, TAB_CHARS) && HostName(netloc) != ""
    ensures PlainHost(Lower(HostName(netloc))) && IsLower(Lower(HostName(netloc)))
  {
    var h := RawHost(netloc);
    assert h != "" by { EmptyHost(); }
    HostFolds(h);
    hide RawHost, HostInfo, HostEnd;
    RawHostFree(netloc, DELIMITERS);
    RawHostFree(netloc, BRACKETS);
    RawHostFree(netloc, TAB_CHARS);
    RawHostEnds(netloc);
    LowerStaysFree(h, DELIMITERS);
    LowerStaysFree(h, BRACKETS);
    LowerStaysFree(h, TAB_CHARS);
    LowerStaysFree(h, {'@', ':'});
    LowerOfLower(h);
  }

  lemma RawHostFree(netloc: string, cs: set<char>)
    requires Free(netloc, cs)
    ensures Free(RawHost(netloc), cs)
  {
    var info, h := HostInfo(netloc), RawHost(netloc);
    hide HostInfo;
    forall i | 0 <= i < |h| ensures h[i] !in cs {
      assert h[i] == info[i] == netloc[|netloc| - |info| + i];
    }
  }

  lemma RawHostEnds(netloc: string)
    ensures Free(RawHost(netloc), {'@', ':'})
  {
    var info, h := HostInfo(netloc), RawHost(netloc);
    hide HostInfo;
    forall i | 0 <= i < |h| ensures h[i] !in {'@', ':'} {
      assert h[i] == info[i] && info[i] in info;
    }
  }

  lemma LowerStaysFree(s: string, cs: set<char>)
    requires Free(s, cs) && forall c :: c in cs ==> !('a' <= c <= 'z')
    ensures Free(Lower(s), cs)
  {
  }

  lemma SuffixReads(scheme: string, port: Option<nat>)
    requires port.Some? ==> port.value <= 65535
    ensures PlainPort(PortSuffix(scheme, port))
    ensures PortSuffix(scheme, PortOf(PortSuffix(scheme, port))) == PortSuffix(scheme, port)
  {
    SuffixIsPlain(scheme, port);
  }

  lemma QuerySuffixIsPlain(query: string)
    requires Free(query, {'#'}) && Free(query, TAB_CHARS)
    ensures PlainTail(query, QuerySuffix(query))
  {
    if query != "" {
      var t := QuerySuffix(query);
      assert t[1..] == query;
      assert forall i :: 1 <= i < |t| ==> t[i] == query[i - 1];
      IndexOfAnyIs(t, {'#'}, 0, |t|);
    }
  }

  /** The pieces a canonical URL is made of. */
  ghost predicate CanonicalPieces(c: Canonical, scheme: string, host: string, suffix: string, path: string,
                                  query: string) {
    && c == Canonical(UrlUnsplit(scheme, host + suffix, path, query), host)
    && (scheme == "" || (IsScheme(scheme) && IsLower(scheme)))
    && PlainHost(host) && IsLower(host) && PlainPort(suffix) && PortSuffix(scheme, PortOf(suffix)) == suffix
    && PlainPath(path) && PlainTail(query, QuerySuffix(query))
  }

  lemma PiecesOf(p: Parts) returns (host: string, suffix: string, path: string, query: string)
    requires SplitShape(p) && Canonicalize(Located(p)).Canonical?
    ensures path == p.path && query == p.query
    ensures CanonicalPieces(Canonicalize(Located(p)), p.scheme, host, suffix, path, query)
  {
    var port := Port(p.netloc).value;
    host, suffix, path, query := Lower(HostName(p.netloc)), PortSuffix(p.scheme, port), p.path, p.query;
    HostIsThere(p.netloc);
    SuffixReads(p.scheme, port);
    QuerySuffixIsPlain(p.query);
  }

  lemma HostIsThere(netloc: string)
    requires Free(netloc, DELIMITERS) && Free(netloc, BRACKETS) && Free(netloc, TAB_CHARS)
    requires Lower(HostName(netloc)) != ""
    ensures netloc != "" && PlainHost(Lower(HostName(netloc))) && IsLower(Lower(HostName(netloc)))
  {
    EmptyHost();
    HostIsPlain(netloc);
  }

  /**
   For a host outside square brackets, the canonical form is its own canonical form exactly when the
   text has a scheme or its path or query holds "://". The exception starts with "//": a second pass
   then reads it as a path after "http://" and finds no host.
   */
  lemma IdempotentIff(raw: string, p: Parts)
    requires UrlSplit(Candidate(raw)) == Located(p) && NormalizeUrl(raw).Canonical?
    ensures NormalizeUrl(NormalizeUrl(raw).url) == NormalizeUrl(raw)
            <==> p.scheme != "" || Find(p.path + QuerySuffix(p.query), "://").Some?
  {
    UrlShape(Candidate(raw));
    PartsAgain(p, NormalizeUrl(raw));
  }

  lemma PartsAgain(p: Parts, c: Canonical)
    requires SplitShape(p) && c == Canonicalize(Located(p)) && c.Canonical?
    ensures NormalizeUrl(c.url) == c <==> p.scheme != "" || Find(p.path + QuerySuffix(p.query), "://").Some?
  {
    hide NormalizeUrl, Canonicalize, SplitShape, Find, QuerySuffix;
    var host, suffix, path, query := PiecesOf(p);
    if p.scheme != "" {
      SchemedAgain(c, p.scheme, host, suffix, path, query);
    } else {
      SchemelessTwice(c, host, suffix, path, query);
    }
  }

  /** A "://" after a host and a written-out port begins past them. */
  lemma MarkIsInTail(host: string, suffix: string, tail: string, url: string)
    requires PlainHost(host) && PlainPort(suffix) && suffix != ":"
    requires url == "//" + (host + suffix) + tail
    ensures Find(url, "://").Some? <==> Find(tail, "://").Some?
  {
    var n := 2 + |host + suffix|;
    assert url[n..] == tail;
    if Find(tail, "://").Some? {
      var i := Find(tail, "://").value;
      OccursDeeper(url, n, tail, i);
    }
    if Find(url, "://").Some? {
      var i := Find(url, "://").value;
      if i < n { NoMarkBefore(host, suffix, tail, url, i); }
      OccursDeeper(url, n, tail, i - n);
    }
  }

  lemma GroupNetloc(netloc: string, path: string, tail: string)
    ensures "//" + netloc + path + tail == "//" + netloc + (path + tail)
  {
  }

  lemma OccursDeeper(s: string, n: nat, tail: string, i: int)
    requires n <= |s| && tail == s[n..] && i >= 0
    ensures OccursAt(tail, "://", i) <==> OccursAt(s, "://", n + i)
  {
    if i + 3 <= |tail| { assert tail[i..i + 3] == s[n + i..n + i + 3]; }
  }

  /** A colon in that stretch begins the port, and is followed by a digit. */
  lemma NoMarkBefore(host: string, suffix: string, tail: string, url: string, i: nat)
    requires PlainHost(host) && PlainPort(suffix) && suffix != ":"
    requires url == "//" + (host + suffix) + tail && i < 2 + |host + suffix|
    ensures !OccursAt(url, "://", i)
  {
    assert OccursAt(url, "://", i) ==> url[i] == url[i..i + 3][0] && url[i + 1] == url[i..i + 3][1];
    if i >= 2 + |host| {
      var j := i - 2 - |host|;
      assert url[i] == suffix[j];
      if j == 0 {
        assert url[i + 1] == suffix[1] == suffix[1..][0];
      } else {
        assert suffix[j] == suffix[1..][j - 1];
      }
    }
  }

  /** The exception is real: an empty port is dropped, and the "://" it was part of with it. */
  lemma SchemelessLosesItsHost()
    ensures NormalizeUrl("//a://x") == Canonical("//a//x", "a")
    ensures NormalizeUrl("//a//x") == NoHost
  {
    hide *;
    EmptyPortIsDropped("//a://x", "//a//x");
    DoubledHost("//a//x", "a//x");
  }

  lemma EmptyPortIsDropped(raw: string, once: string)
    requires raw == "//a://x" && once == "//a//x"
    ensures NormalizeUrl(raw) == Canonical(once, "a")
  {
    hide UrlSplit, SplitRest, Canonicalize;
    assert Find(raw, "://").Some? by {
      assert raw[3..6] == "://";
      assert OccursAt(raw, "://", 3);
    }
    assert raw == "//" + "a:" + "//x" + QuerySuffix("");
    SchemelessSplits("a:", "//x", "", raw);
    EmptyPortCanonical(Parts("", "a:", "//x", ""), once);
  }

  lemma EmptyPortCanonical(p: Parts, once: string)
    requires p == Parts("", "a:", "//x", "") && once == "//a//x"
    ensures Canonicalize(Located(p)) == Canonical(once, "a")
  {
    hide HostName, Port, UrlUnsplit;
    assert "a" + ":" == "a:" && ":"[1..] == "";
    NetlocReads("a", ":");
    assert IsLower("a");
    LowerOfLower("a");
    SchemelessUnsplit("a", "//x", "");
    assert "a" + "" == "a" && "//" + "a" + "//x" + "" == once;
  }

  lemma DoubledHost(once: string, rest: string)
    requires once == "//a//x" && rest == "a//x"
    ensures NormalizeUrl(once) == NoHost
  {
    hide NormalizeUrl;
    MissingCharRulesOut(once, "://", ':');
    assert once == "//" + rest;
    DoubledSlashes(rest);
  }

  lemma SchemedAgain(c: Canonical, scheme: string, host: string, suffix: string, path: string, query: string)
    requires CanonicalPieces(c, scheme, host, suffix, path, query) && scheme != ""
    ensures NormalizeUrl(c.url) == c
  {
    WrittenUrlCanonicalizes(scheme, host, suffix, path, query, QuerySuffix(query));
    LowerOfLower(scheme);
    LowerOfLower(host);
    UnsplitIs(scheme, host, suffix, path, query);
  }

  lemma SchemelessTwice(c: Canonical, host: string, suffix: string, path: string, query: string)
    requires CanonicalPieces(c, "", host, suffix, path, query)
    ensures NormalizeUrl(c.url) == c <==> Find(path + QuerySuffix(query), "://").Some?
  {
    hide NormalizeUrl, Find, QuerySuffix;
    SchemelessUnsplit(host + suffix, path, query);
    GroupNetloc(host + suffix, path, QuerySuffix(query));
    MarkIsInTail(host, suffix, path + QuerySuffix(query), c.url);
    if Find(c.url, "://").Some? {
      SchemelessAgain(host, suffix, path, query, c.url);
    } else {
      assert c.url == "//" + c.url[2..];
      DoubledSlashes(c.url[2..]);
    }
  }

  lemma SchemelessAgain(host: string, suffix: string, path: string, query: string, url: string)
    requires PlainHost(host) && IsLower(host) && PlainPort(suffix) && PortSuffix("", PortOf(suffix)) == suffix
    requires PlainPath(path) && PlainTail(query, QuerySuffix(query))
    requires url == "//" + (host + suffix) + path + QuerySuffix(query) && Find(url, "://").Some?
    ensures NormalizeUrl(url) == Canonical(url, host)
  {
    NetlocIsPlain(host, suffix);
    SchemelessSplits(host + suffix, path, query, url);
    NetlocReads(host, suffix);
    LowerOfLower(host);
    SchemelessUnsplit(host + suffix, path, query);
  }

  lemma SchemelessUnsplit(netloc: string, path: string, query: string)
    ensures UrlUnsplit("", netloc, path, query) == "//" + netloc + path + QuerySuffix(query)
  {
    assert "" + "//" == "//";
  }

  lemma NetlocIsPlain(host: string, suffix: string)
    requires PlainHost(host) && PlainPort(suffix)
    ensures Free(host + suffix, DELIMITERS) && Free(host + suffix, BRACKETS) && Free(host + suffix, TAB_CHARS)
  {
  }

  lemma SchemelessSplits(netloc: string, path: string, query: string, url: string)
    requires Free(netloc, DELIMITERS) && Free(netloc, BRACKETS) && Free(netloc, TAB_CHARS) && PlainPath(path)
    requires PlainTail(query, QuerySuffix(query)) && url == "//" + netloc + path + QuerySuffix(query)
    ensures UrlSplit(url) == Located(Parts("", netloc, path, query))
  {
    FreeDropTabs(url);
    var i := IndexOfAny(url, {':'}, 0);
    assert url[0] == '/';
    assert SchemeLength(url) == 0 by { if 0 < i < |url| { assert url[..i][0] == '/'; } }
    RestReads("", netloc, path, query, QuerySuffix(query));
  }

  lemma DoubledSlashes(rest: string)
    requires Find("//" + rest, "://").None?
    ensures NormalizeUrl("//" + rest) == NoHost
  {
    var after := "////" + DropTabs(rest);
    assert Candidate("//" + rest) == "http://" + ("//" + rest);
    DoubledCandidate(rest);
    HttpSplits(after);
    EmptyNetloc("http", after);
    EmptyHost();
    assert Lower("") == "";
  }

  lemma {:induction false} DoubledCandidate(rest: string)
    ensures DropTabs(DropControls("http://" + ("//" + rest))) == "http" + ":" + ("////" + DropTabs(rest))
  {
    GroupSlashes(rest);
    NoControls("http:////" + rest);
    DropTabsPrefix("http:////", rest);
  }

  lemma {:induction false} DropTabsPrefix(p: string, rest: string)
    requires Free(p, TAB_CHARS)
    ensures DropTabs(p + rest) == p + DropTabs(rest)
  {
    if p == "" {
      assert p + rest == rest;
    } else {
      DropTabsPrefix(p[1..], rest);
      assert (p + rest)[1..] == p[1..] + rest && (p + rest)[0] == p[0];
      Assoc([p[0]], p[1..], DropTabs(rest));
      assert [p[0]] + p[1..] == p;
    }
  }

  lemma {:induction false} GroupSlashes(rest: string)
    ensures "http://" + ("//" + rest) == "http:////" + rest
    ensures "http" + ":" + ("////" + DropTabs(rest)) == "http:////" + DropTabs(rest)
  {
    assert "http" + ":" == "http:";
    Assoc("http:", "////", DropTabs(rest));
    Assoc("http://", "//", rest);
  }

  lemma {:induction false} NoControls(s: string)
    requires s != "" && s[0] > ' '
    ensures DropControls(s) == s
  {
  }

  lemma HttpSplits(after: string)
    ensures SchemeLength("http" + ":" + after) == 4
    ensures ("http" + ":" + after)[..4] == "http" && ("http" + ":" + after)[4 + 1..] == after
    ensures Lower("http") == "http"
  {
    SchemeReads("http", after);
  }

  lemma EmptyHost()
    ensures HostName("") == "" && Free("", BRACKETS)
  {
    assert Lower("") == "";
  }

  lemma EmptyNetloc(scheme: string, after: string)
    requires |after| >= 3 && after[0] == '/' && after[1] == '/' && after[2] == '/'
    ensures SplitRest(scheme, after).Located? && SplitRest(scheme, after).parts.netloc == ""
  {
    assert after[..2] == "//";
    assert IndexOfAny(after, DELIMITERS, 2) == 2 && after[2..2] == "";
    EmptyHost();
  }

  /** The hostname read from any canonical URL is the host reported with it. */
  lemma HostnameOfCanonical(raw: string, ipv6Host: string -> string)
    requires NormalizeUrl(raw).Canonical?
    ensures UrlHostname(ipv6Host, NormalizeUrl(raw).url) == NormalizeUrl(raw).host
  {
    var p, c := UrlSplit(Candidate(raw)).parts, NormalizeUrl(raw);
    UrlShape(Candidate(raw));
    var host, suffix, path, query := PiecesOf(p);
    PiecesHostname(c, p.scheme, host, suffix, path, query, ipv6Host);
  }

  lemma PiecesHostname(c: Canonical, scheme: string, host: string, suffix: string, path: string, query: string,
                       ipv6Host: string -> string)
    requires CanonicalPieces(c, scheme, host, suffix, path, query)
    ensures UrlHostname(ipv6Host, c.url) == c.host
  {
    if scheme == "" {
      NetlocIsPlain(host, suffix);
      SchemelessUnsplit(host + suffix, path, query);
      SchemelessSplits(host + suffix, path, query, c.url);
      NetlocReads(host, suffix);
    } else {
      UrlClosedForm(scheme, host, suffix, path, query, QuerySuffix(query), ipv6Host);
      LowerOfLower(scheme);
      LowerOfLower(host);
      UnsplitIs(scheme, host, suffix, path, query);
    }
  }
}
