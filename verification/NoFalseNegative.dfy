/** The argument the fast path rests on: what upstream holds, the membership tier passes on, and when it does not. */
module NoFalseNegative {
  import opened Wrappers
  import opened Packed
  import opened Overlay
  import opened Membership
  import opened Indicators
  import opened IndicatorLaws
  import opened Bootstrap
  import opened Backends
  import Defang
  import Text
  import Urls
  import PC = PayloadCaching

  /**
   What a worker serves: the array it started with and the events and swaps since, the hash and the
   normalization that key it, and the load that the array now serving was built from.
   */
  datatype Serving = Serving(packed: seq<Fp>, ops: seq<Op>, hash: string -> Fp, reading: string -> Normalized,
                             precise: bool, answers: seq<Result<Page, Failure>>, cap: Option<nat>)
  {
    /** The load was not cut short, and the array packs what it collected. */
    ghost predicate Built() {
      && Load(reading, precise, answers, cap).Ok? && !Load(reading, precise, answers, cap).value.1
      && forall fp :: fp in CurrentPacked(packed, ops) <==>
           exists x :: x in Capped(Load(reading, precise, answers, cap).value.0, cap) && hash(x) == fp
    }

    function Set(): Overlaid {
      Run(Overlaid.Fresh(packed), ops)
    }

    /** What upstream listed. */
    function Listed(): seq<string> {
      Raw(precise, Walked(answers))
    }

    /** Some listed value is read as x, so x is a key of the array. */
    ghost predicate KeptAs(x: string) {
      exists w :: w in Listed() && w != "" && reading(w).Lookupable() && reading(w).value == x
    }

    /** The last event under the key of x is a removal. */
    predicate Removed(x: string) {
      LastEvent(ops, hash(x)) == [Remove(hash(x))]
    }

    /** No event came under the key of x, and no other key of the array collides with it. */
    ghost predicate Undisturbed(x: string) {
      && LastEvent(ops, hash(x)) == []
      && forall w :: w in Listed() && w != "" && reading(w).Lookupable() && reading(w).value != x ==>
           hash(reading(w).value) != hash(x)
    }

    /** The tier, ready and fresh, answers n with a miss. */
    predicate Dismisses(u: Upstream, n: Normalized) {
      !PassedOn(Set(), hash, u, true, false, n)
    }
  }

  /** The kinds whose canonical form is a fixed point, but for domains that end in a line break. */
  predicate Settled(n: Normalized) {
    n.kind.Ipv4? || IsHashKind(n.kind) || (n.kind.Domain? && !EndsInBreak(n.value))
  }

  /** Normalizing a canonical value once more, as the bootstrap does, gives the key lookups use. */
  lemma CanonicalIsFixed(cfg: Config, raw: string)
    requires Normalize(cfg, raw).Lookupable() && Settled(Normalize(cfg, raw))
    ensures SameKey(Normalize(cfg, Normalize(cfg, raw).value), Normalize(cfg, raw))
  {
    hide Normalize;
    if Normalize(cfg, raw).kind.Ipv4? {
      Ipv4Idempotent(cfg, raw);
    } else if IsHashKind(Normalize(cfg, raw).kind) {
      HashIdempotent(cfg, raw);
    } else {
      DomainIsFixed(cfg, raw);
    }
  }

  lemma DomainIsFixed(cfg: Config, raw: string)
    requires Normalize(cfg, raw).kind.Domain? && !EndsInBreak(Normalize(cfg, raw).value)
    ensures SameKey(Normalize(cfg, Normalize(cfg, raw).value), Normalize(cfg, raw))
  {
    hide *;
    var host := DomainCameFrom(cfg, raw);
    ReadingValue(cfg, host);
    SecondReading(cfg, host, Normalize(cfg, raw));
  }

  lemma EmptyIsSkipped(cfg: Config)
    ensures !Normalize(cfg, "").Lookupable()
  {
    assert Text.Strip("", Defang.SPACE_CHARS) == "";
  }

  // --------------------------------------------------------------------- what is in the set

  /** The array holds the key of x exactly when something listed is read as x, but for collisions. */
  lemma {:induction false} PackedIff(s: Serving, x: string)
    requires s.Built()
    ensures s.KeptAs(x) ==> s.hash(x) in CurrentPacked(s.packed, s.ops)
    ensures s.Undisturbed(x) && s.hash(x) in CurrentPacked(s.packed, s.ops) ==> s.KeptAs(x)
  {
    UntruncatedIsComplete(s.reading, s.precise, s.answers, s.cap, x);
    if s.hash(x) in CurrentPacked(s.packed, s.ops) {
      var y :| y in Capped(Load(s.reading, s.precise, s.answers, s.cap).value.0, s.cap) && s.hash(y) == s.hash(x);
      UntruncatedIsComplete(s.reading, s.precise, s.answers, s.cap, y);
    }
  }

  /** A key the bootstrap kept stays a member over any run of events and swaps that does not remove it. */
  lemma {:induction false} ListedIsMember(s: Serving, x: string)
    requires s.Built() && s.KeptAs(x) && !s.Removed(x)
    ensures s.Set().Has(s.hash(x))
  {
    PackedIff(s, x);
    RunMembership(s.packed, s.ops, s.hash(x));
    var last := LastEvent(s.ops, s.hash(x));
    assert last == [] || Touches(last[0], s.hash(x));
  }

  /** Undisturbed, a key is a member exactly when the bootstrap kept it. */
  lemma {:induction false} MemberIff(s: Serving, x: string)
    requires s.Built() && s.Undisturbed(x)
    ensures s.Set().Has(s.hash(x)) <==> s.KeptAs(x)
  {
    PackedIff(s, x);
    RunMembership(s.packed, s.ops, s.hash(x));
  }

  /**
   When lookups are dismissed, exactly: for any value whose keys are undisturbed, when the bootstrap kept
   neither the value nor the host a URL falls back to.
   */
  lemma DismissedIff(s: Serving, u: Upstream, n: Normalized)
    requires s.Built() && s.Undisturbed(n.value)
    requires u.FallbackHost(n) != "" ==> s.Undisturbed(u.FallbackHost(n))
    ensures s.Dismisses(u, n) <==> !s.KeptAs(n.value) && (u.FallbackHost(n) == "" || !s.KeptAs(u.FallbackHost(n)))
  {
    MemberIff(s, n.value);
    if u.FallbackHost(n) != "" { MemberIff(s, u.FallbackHost(n)); }
  }

  // ----------------------------------------------------------------------- never dismissed

  /**
   No false negative, end to end: when the serving array comes from an untruncated bootstrap, upstream
   lists the exact canonical value of the input, and no later removal has its fingerprint, the
   membership tier passes the lookup on, whatever the flags.
   */
  lemma NeverDismissed(cfg: Config, s: Serving, u: Upstream, ready: bool, stale: bool, input: string)
    requires s.Built() && forall v :: s.reading(v) == Normalize(cfg, v)
    requires Normalize(cfg, input).Lookupable() && Settled(Normalize(cfg, input))
    requires Normalize(cfg, input).value in s.Listed() && !s.Removed(Normalize(cfg, input).value)
    ensures PassedOn(s.Set(), s.hash, u, ready, stale, Normalize(cfg, input))
  {
    hide Normalize, Run, LastEvent, Raw, Walked, CurrentPacked;
    SettledIsKept(cfg, s, input);
    ListedIsMember(s, Normalize(cfg, input).value);
  }

  /** Upstream answered page after page, each but the last pointing on, and nothing went wrong. */
  ghost predicate AnsweredInFull(answers: seq<Result<Page, Failure>>, pages: seq<Page>) {
    && pages != [] && |answers| >= |pages|
    && (forall i :: 0 <= i < |pages| ==> answers[i] == Ok(pages[i]))
    && (forall i :: 0 <= i < |pages| - 1 ==> pages[i].hasNext && pages[i].cursor != "")
    && (!pages[|pages| - 1].hasNext || pages[|pages| - 1].cursor == "")
  }

  lemma {:induction false} FullWalk(answers: seq<Result<Page, Failure>>, pages: seq<Page>)
    requires AnsweredInFull(answers, pages)
    ensures Walked(answers) == pages
  {
    hide Walked;
    var n := |pages| - 1;
    assert answers == answers[..n] + [Ok(pages[n])] + answers[n + 1..];
    assert PointOn(answers[..n]);
    WalkIsWhole(answers[..n], pages[n], answers[n + 1..]);
    assert PagesOf(answers[..n]) == pages[..n];
  }

  /**
   The same from the pages: whatever value stands in a node of any page upstream answered, first, last or
   between, or in precise mode nested in one, is never dismissed.
   */
  lemma PagedValueIsNeverDismissed(cfg: Config, s: Serving, pages: seq<Page>, i: nat, j: nat, u: Upstream,
                                   ready: bool, stale: bool, input: string)
    requires s.Built() && forall v :: s.reading(v) == Normalize(cfg, v)
    requires AnsweredInFull(s.answers, pages) && i < |pages| && j < |pages[i].nodes|
    requires Normalize(cfg, input).Lookupable() && Settled(Normalize(cfg, input))
    requires var v, node := Normalize(cfg, input).value, pages[i].nodes[j];
             if s.precise then v in node.nested else v == node.value
    requires !s.Removed(Normalize(cfg, input).value)
    ensures PassedOn(s.Set(), s.hash, u, ready, stale, Normalize(cfg, input))
  {
    hide Normalize, Run, LastEvent, Raw, Walked, CurrentPacked;
    FullWalk(s.answers, pages);
    RawMeans(s.precise, pages, Normalize(cfg, input).value);
    assert Lists(s.precise, pages[i].nodes[j], Normalize(cfg, input).value);
    NeverDismissed(cfg, s, u, ready, stale, input);
  }

  lemma SettledIsKept(cfg: Config, s: Serving, input: string)
    requires forall v :: s.reading(v) == Normalize(cfg, v)
    requires Normalize(cfg, input).Lookupable() && Settled(Normalize(cfg, input))
    requires Normalize(cfg, input).value in s.Listed()
    ensures s.KeptAs(Normalize(cfg, input).value)
  {
    hide Normalize, Raw, Walked;
    var n := Normalize(cfg, input);
    CanonicalIsFixed(cfg, input);
    assert s.reading(n.value) == Normalize(cfg, n.value) && s.reading("") == Normalize(cfg, "");
    EmptyIsSkipped(cfg);
  }

  /** A URL is passed on when the bootstrap kept its host and no later removal has the host's fingerprint. */
  lemma KnownHostNeverDismissed(s: Serving, u: Upstream, ready: bool, stale: bool, url: Normalized)
    requires s.Built() && u.FallbackHost(url) != ""
    requires s.KeptAs(u.FallbackHost(url)) && !s.Removed(u.FallbackHost(url))
    ensures PassedOn(s.Set(), s.hash, u, ready, stale, url)
  {
    hide Run, LastEvent, CurrentPacked;
    ListedIsMember(s, u.FallbackHost(url));
  }

  /** Hosts that are canonical domains or addresses are kept when listed. */
  lemma CanonicalHostIsKept(cfg: Config, s: Serving, host: string, x: Address)
    requires forall v :: s.reading(v) == Normalize(cfg, v)
    requires host in s.Listed() && host != ""
    requires || (DomainText(host) && !Text.Contains(host, "hxxp") && !Text.Contains(host, "fxp")
                 && DomainReading(cfg, host).Lookupable())
             || (InRange(x) && host == Dotted(x) && AddressReading(cfg, x).Lookupable())
    ensures s.KeptAs(host)
  {
    hide Normalize, DomainText, Raw, Walked, Dotted;
    assert s.reading(host) == Normalize(cfg, host);
    if InRange(x) && host == Dotted(x) && AddressReading(cfg, x).Lookupable() {
      CanonicalIpv4(cfg, x);
    } else {
      CanonicalDomain(cfg, host);
      ReadingValue(cfg, host);
    }
  }

  // ---------------------------------------------------------------------- the domains dismissed

  /**
   A lookupable domain upstream lists is dismissed exactly when it ends in a line break and nothing else
   listed is read as it.
   */
  lemma DomainDismissedIff(cfg: Config, s: Serving, u: Upstream, input: string)
    requires s.Built() && forall v :: s.reading(v) == Normalize(cfg, v)
    requires Normalize(cfg, input).kind.Domain? && Normalize(cfg, input).Lookupable()
    requires Normalize(cfg, input).value in s.Listed() && s.Undisturbed(Normalize(cfg, input).value)
    ensures s.Dismisses(u, Normalize(cfg, input))
            <==> EndsInBreak(Normalize(cfg, input).value) && NoOtherReadAs(s, Normalize(cfg, input).value)
  {
    hide Normalize, Run, LastEvent, Raw, Walked, CurrentPacked;
    var v := Normalize(cfg, input).value;
    DismissedIff(s, u, Normalize(cfg, input));
    assert s.reading(v) == Normalize(cfg, v);
    if EndsInBreak(v) {
      BreakReading(cfg, input);
      assert BeforeFinalBreak(v) != v;
    } else {
      SettledIsKept(cfg, s, input);
    }
  }

  ghost predicate NoOtherReadAs(s: Serving, v: string) {
    forall w :: w in s.Listed() && w != v && w != "" && s.reading(w).Lookupable() ==> s.reading(w).value != v
  }

  /** The bootstrap reads such a value without its line break. */
  lemma BreakReading(cfg: Config, input: string)
    requires Normalize(cfg, input).kind.Domain? && EndsInBreak(Normalize(cfg, input).value)
    ensures Normalize(cfg, Normalize(cfg, input).value).value == BeforeFinalBreak(Normalize(cfg, input).value)
  {
    hide *;
    var host := DomainCameFrom(cfg, input);
    ReadingValue(cfg, host);
    BreakRereadsTo(cfg, host);
  }

  lemma BreakRereadsTo(cfg: Config, host: string)
    requires IsDomain(host) && !Text.Contains(host, "hxxp") && !Text.Contains(host, "fxp") && EndsInBreak(host)
    ensures Normalize(cfg, host).value == BeforeFinalBreak(host)
  {
    hide Normalize;
    DomainRereads(cfg, host);
  }

  /** What is served when upstream lists one value and nothing has happened since. */
  lemma OneListed(hash: string -> Fp, reading: string -> Normalized, v: string) returns (s: Serving)
    requires v != ""
    ensures s.Built() && s.Listed() == [v] && s.ops == [] && s.hash == hash && s.reading == reading
  {
    var answers := [Ok(Page([Node(v, [])], false, ""))];
    var packed := if reading(v).Lookupable() then [hash(reading(v).value)] else [];
    s := Serving(packed, [], hash, reading, false, answers, None);
    OnePageRaw(v, answers);
    OneKept(reading, v);
    hide Raw, Walked, Kept, Broken;
  }

  lemma {:induction false} OnePageRaw(v: string, answers: seq<Result<Page, Failure>>)
    requires answers == [Ok(Page([Node(v, [])], false, ""))]
    ensures Raw(false, Walked(answers)) == [v] && Broken(answers).None?
  {
    var page := Page([Node(v, [])], false, "");
    assert Walked(answers) == [page] && [page][1..] == [] && page.nodes[..0] == [];
    assert NodesRaw(false, page.nodes) == [] + [v] == [v];
    assert Raw(false, [page]) == [v] + Raw(false, []) == [v];
  }

  lemma OneKept(reading: string -> Normalized, v: string)
    requires v != ""
    ensures Kept(reading, [v]) == if reading(v).Lookupable() then [reading(v).value] else []
  {
    assert [v][..0] == [] && Kept(reading, []) == [];
  }

  /**
   So there are false negatives: for a domain text core without an x, a corpus that lists core and a line
   break as that very string, and the input that adds a dot, the lookup is dismissed.
   */
  lemma FalseNegativeExists(cfg: Config, hash: string -> Fp, reading: string -> Normalized, u: Upstream,
                            core: string, host: string) returns (s: Serving)
    requires forall v :: reading(v) == Normalize(cfg, v)
    requires DomainText(core) && 'x' !in core && host == core + "\n"
    requires DomainReading(cfg, host).Lookupable() && hash(core) != hash(host)
    ensures s.Built() && s.Listed() == [host] && s.ops == [] && s.hash == hash && s.reading == reading
    ensures Normalize(cfg, host + ".").Lookupable() && Normalize(cfg, host + ".").value == host
    ensures s.Dismisses(u, Normalize(cfg, host + "."))
  {
    hide Normalize, DomainText, Run, Raw, Walked, CurrentPacked;
    LineBreakIsDroppedLate(cfg, core, host);
    ReadingValue(cfg, host);
    s := OneListed(hash, reading, host);
    assert reading(host) == Normalize(cfg, host);
    assert host[|host| - 1] == '\n' && host[..|host| - 1] == core;
    DomainDismissedIff(cfg, s, u, host + ".");
  }

  // ------------------------------------------------------------------------- the URLs dismissed

  /**
   A URL whose own key is absent and whose host upstream lists is dismissed exactly when the bootstrap did
   not keep that host: when it is not lookupable, or not its own canonical form.
   */
  lemma UrlHostDismissedIff(s: Serving, u: Upstream, url: Normalized)
    requires s.Built() && u.FallbackHost(url) != "" && !s.Set().Has(s.hash(url.value))
    requires u.FallbackHost(url) in s.Listed() && s.Undisturbed(u.FallbackHost(url))
    requires NoOtherReadAs(s, u.FallbackHost(url))
    ensures var host := u.FallbackHost(url);
            s.Dismisses(u, url) <==> !(s.reading(host).Lookupable() && s.reading(host).value == host)
  {
    hide Run, LastEvent, Raw, Walked, CurrentPacked;
    MemberIff(s, u.FallbackHost(url));
  }

  /** Such hosts exist: no underscore is allowed in a domain, so the bootstrap drops this one. */
  lemma UnderscoreIsDropped(cfg: Config)
    ensures !Normalize(cfg, "a_b.com").Lookupable()
  {
    hide Normalize, Classify, NormalizeIp, ClassifyDomain;
    var s := "a_b.com";
    PlainDefangs(s);
    ClassifiedAsIs(cfg, s);
    UnderscoreParts(s);
    NotAnAddress(cfg, s);
    DomainBranch(cfg, s);
    UnderscoreIsNoDomain(cfg, s);
  }

  lemma PlainDefangs(s: string)
    requires s == "a_b.com" || s == "http://a_b.com"
    ensures Defang.Defanged(s) == s && Text.Strip(s, Defang.SPACE_CHARS) == s && Text.Strip(s, {'[', ']'}) == s
  {
    hide Defang.Defanged, Text.Strip;
    assert Text.IsLower(s) && s[0] in {'a', 'h'} && s[|s| - 1] == 'm';
    assert 'x' !in s && '[' !in s && '(' !in s && '{' !in s && ' ' !in s;
    UnmarkedDefangs(s);
  }

  lemma UnmarkedDefangs(s: string)
    requires Text.IsLower(s) && s != "" && s[0] in {'a', 'h'} && s[|s| - 1] == 'm'
    requires 'x' !in s && '[' !in s && '(' !in s && '{' !in s && ' ' !in s
    ensures Defang.Defanged(s) == s && Text.Strip(s, Defang.SPACE_CHARS) == s && Text.Strip(s, {'[', ']'}) == s
  {
    hide Defang.RewriteAll, Defang.Defanged;
    Text.MissingCharRulesOut(s, "hxxp", 'x');
    Text.MissingCharRulesOut(s, "hxxps", 'x');
    Text.MissingCharRulesOut(s, "fxp", 'x');
    forall i | 0 <= i < |Defang.RULES| ensures !Text.Contains(Text.Lower(s), Defang.RULES[i].marker) {
      HostLacksMarker(s, i);
    }
    Defang.DefangedFixpoint(s);
    Text.TrimStrip(s, Defang.SPACE_CHARS);
    Text.TrimStrip(s, {'[', ']'});
  }

  lemma UnderscoreParts(s: string)
    requires s == "a_b.com"
    ensures !IsQuad(s) && ':' !in s && !IsHex(s) && !LooksLikeUrl(s) && !DomainText(s)
  {
    assert s[1] == '_';
    Text.SplitParts(s, '.');
    var ps := Text.Split(s, '.');
    var k :| 0 <= k < |ps| && '_' in ps[k];
    var i :| 0 <= i < |ps[k]| && ps[k][i] == '_';
    assert !LabelText(ps[k]) && !IsOctet(ps[k]);
    Text.MissingCharRulesOut(s, "://", ':');
  }

  lemma UnderscoreIsNoDomain(cfg: Config, s: string)
    requires s == "a_b.com" && !DomainText(s)
    ensures ClassifyDomain(cfg, s).kind.Unknown?
  {
    hide DomainText;
    assert Text.RStrip(s, {'.'}) == s && Text.IsLower(s);
    Text.LowerOfLower(s);
  }

  /** The URL that is dismissed: canonical as it stands, with that host. */
  lemma UnderscoreUrl(cfg: Config, ipv6Host: string -> string)
    requires cfg.ipv6("http://a_b.com").None? && "com" !in cfg.skipTlds
    ensures Normalize(cfg, "http://a_b.com") == Normalized("http://a_b.com", Url, None)
    ensures Urls.UrlHostname(ipv6Host, "http://a_b.com") == "a_b.com"
  {
    hide Normalize, Classify, ClassifyUrl, Urls.UrlHostname, Urls.NormalizeUrl, NormalizeIp;
    var s := "http://a_b.com";
    PlainDefangs(s);
    ClassifiedAsIs(cfg, s);
    UnderscoreUrlParts(cfg, s);
    UrlBranch(cfg, s);
    UnderscoreCanonical(s, ipv6Host);
    UnderscoreClassified(cfg, s);
  }

  lemma UnderscoreUrlParts(cfg: Config, s: string)
    requires s == "http://a_b.com" && cfg.ipv6(s).None? && Text.Strip(s, {'[', ']'}) == s
    ensures NormalizeIp(cfg, s).None? && HashKind(|s|).None? && LooksLikeUrl(s)
  {
    hide IsQuad, IsZeroPadded;
    assert s[5] == '/';
    assert !IsQuad(s) by { LetterIsNoQuad(s, 1); }
  }

  lemma LetterIsNoQuad(s: string, i: nat)
    requires i < |s| && s[i] == 't'
    ensures !IsQuad(s)
  {
    assert s[i] in s;
    Text.SplitParts(s, '.');
    var ps := Text.Split(s, '.');
    var k :| 0 <= k < |ps| && 't' in ps[k];
    assert !IsOctet(ps[k]);
  }

  lemma UnderscoreCanonical(s: string, ipv6Host: string -> string)
    requires s == "http://a_b.com"
    ensures Urls.NormalizeUrl(s) == Urls.Canonical.Canonical(s, "a_b.com")
    ensures Urls.UrlHostname(ipv6Host, s) == "a_b.com"
  {
    var host := "a_b.com";
    assert Urls.IsScheme("http") && Urls.PlainHost(host) && Text.IsLower("http") && Text.IsLower(host);
    Text.LowerOfLower("http");
    Text.LowerOfLower(host);
    assert Urls.QuerySuffix("") == "" && Urls.PortSuffix("http", None) == "";
    assert Urls.PlainPort("") && Urls.PortOf("") == None && Urls.PlainPath("") && Urls.PlainTail("", "");
    assert "http" + "://" + host + "" + "" + "" == s;
    hide *;
    Urls.UrlClosedForm("http", host, "", "", "", "", ipv6Host);
  }

  lemma UnderscoreClassified(cfg: Config, s: string)
    requires s == "http://a_b.com" && Urls.NormalizeUrl(s) == Urls.Canonical.Canonical(s, "a_b.com")
    requires "com" !in cfg.skipTlds
    ensures ClassifyUrl(cfg, s) == Normalized(s, Url, None)
  {
    hide Urls.NormalizeUrl;
    Text.SplitFirst("a_b", "com", '.');
    Text.SplitNone("com", '.');
    assert "a_b" + ['.'] + "com" == "a_b.com";
  }

  /**
   So the fast path dismisses http://a_b.com when upstream lists the host a_b.com and nothing else, while a
   live lookup finds it through its host.
   */
  lemma UrlFalseNegativeExists(cfg: Config, hash: string -> Fp, reading: string -> Normalized, u: Upstream,
                               ipv6Host: string -> string) returns (s: Serving)
    requires forall v :: reading(v) == Normalize(cfg, v)
    requires cfg.ipv6("http://a_b.com").None? && "com" !in cfg.skipTlds
    requires u.fallback && u.hostOf("http://a_b.com") == Urls.UrlHostname(ipv6Host, "http://a_b.com")
    requires u.Holds("a_b.com", Domain)
    ensures s.Built() && s.Listed() == ["a_b.com"] && s.ops == [] && s.hash == hash && s.reading == reading
    ensures var n := Normalize(cfg, "http://a_b.com");
            n.Lookupable() && u.Hit(n) && s.Dismisses(u, n)
  {
    hide Normalize, Run, Raw, Walked, CurrentPacked, Urls.UrlHostname;
    UnderscoreUrl(cfg, ipv6Host);
    UnderscoreIsDropped(cfg);
    s := OneListed(hash, reading, "a_b.com");
    assert reading("a_b.com") == Normalize(cfg, "a_b.com");
    DismissedIff(s, u, Normalize(cfg, "http://a_b.com"));
  }

  // --------------------------------------------------------------------- the whole argument

  /**
   When whatever upstream would find for n was kept and not removed, the split lookup tells the truth:
   found exactly when upstream knows the value or the URL's host, as the live lookup does, whatever the
   flags.
   */
  lemma SplitTellsTheTruth(s: Serving, ready: bool, stale: bool, c: PC.Cache<Payload>, u: Upstream, n: Normalized,
                           asked: real, answered: real)
    requires s.Built() && c.Valid() && Agrees(c, u) && u.Available() && u.Sound()
    requires u.Holds(n.value, n.kind) ==> s.KeptAs(n.value) && !s.Removed(n.value)
    requires u.FallbackHost(n) != "" && u.Holds(u.FallbackHost(n), Domain) ==>
               s.KeptAs(u.FallbackHost(n)) && !s.Removed(u.FallbackHost(n))
    ensures var (c1, r) := SplitLookup(s.Set(), s.hash, ready, stale, c, u, n, asked, answered);
            && c1.Valid() && Agrees(c1, u)
            && r.Ok? && (Found(r.value.payload) <==> n.Lookupable() && u.Hit(n))
  {
    hide Run, LastEvent, SplitLookup, LiveLookup, Agrees, Found, CurrentPacked, Raw, Walked;
    if u.Holds(n.value, n.kind) { ListedIsMember(s, n.value); }
    if u.FallbackHost(n) != "" && u.Holds(u.FallbackHost(n), Domain) { ListedIsMember(s, u.FallbackHost(n)); }
    assert Covers(s.Set(), s.hash, u, n);
    SplitAgreesWithLive(s.Set(), s.hash, ready, stale, c, u, n, asked, answered);
    LiveTellsTheTruth(c, u, n, asked, answered);
  }

  /** For addresses, hashes and domains without a final line break it is enough that upstream lists the exact value. */
  lemma SettledTellTheTruth(cfg: Config, s: Serving, ready: bool, stale: bool, c: PC.Cache<Payload>, u: Upstream,
                            input: string, asked: real, answered: real)
    requires s.Built() && forall v :: s.reading(v) == Normalize(cfg, v)
    requires c.Valid() && Agrees(c, u) && u.Available() && u.Sound()
    requires Normalize(cfg, input).Lookupable() && Settled(Normalize(cfg, input))
    requires u.Holds(Normalize(cfg, input).value, Normalize(cfg, input).kind) ==>
               Normalize(cfg, input).value in s.Listed() && !s.Removed(Normalize(cfg, input).value)
    ensures var n := Normalize(cfg, input);
            var (c1, r) := SplitLookup(s.Set(), s.hash, ready, stale, c, u, n, asked, answered);
            && c1.Valid() && Agrees(c1, u)
            && r.Ok? && (Found(r.value.payload) <==> u.Hit(n))
  {
    hide Normalize, Run, LastEvent, SplitLookup, Agrees, Found, CurrentPacked, Walked, Raw;
    var n := Normalize(cfg, input);
    if n.value in s.Listed() { SettledIsKept(cfg, s, input); }
    SplitTellsTheTruth(s, ready, stale, c, u, n, asked, answered);
  }
}
