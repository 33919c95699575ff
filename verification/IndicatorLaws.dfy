/** Canonical forms are fixed points: the law the membership set's keying rests on. */
module IndicatorLaws {
  import opened Wrappers
  import opened Decimals
  import opened Text
  import opened Defang
  import opened Urls
  import opened Indicators

  /** Same value, same type, same lookupability: the same key in the set and in the cache. */
  predicate SameKey(m: Normalized, n: Normalized) {
    m.value == n.value && m.kind == n.kind && m.Lookupable() == n.Lookupable()
  }

  /** Zero-padding is all the second expression could ever exclude, and it excludes nothing. */
  lemma EveryQuadIsZeroPadded(s: string)
    requires IsQuad(s)
    ensures IsZeroPadded(s)
  {
  }

  // ------------------------------------------------------------------ which branch was taken

  lemma Cleaned(cfg: Config, raw: string)
    requires !Normalize(cfg, raw).kind.Unknown?
    ensures Defanged(raw) != "" && Normalize(cfg, raw) == Classify(cfg, Defanged(raw))
  {
  }

  lemma IpKinds(cfg: Config, cleaned: string)
    requires NormalizeIp(cfg, cleaned).Some?
    ensures var k := NormalizeIp(cfg, cleaned).value.kind; k.Ipv4? || k.Ipv6?
  {
  }

  lemma UrlKinds(cfg: Config, cleaned: string)
    ensures var k := ClassifyUrl(cfg, cleaned).kind; k.Url? || k.Unknown?
  {
  }

  lemma DomainKinds(cfg: Config, cleaned: string)
    ensures var k := ClassifyDomain(cfg, cleaned).kind; k.Domain? || k.Unknown?
  {
  }

  predicate IsHashKind(k: Kind) {
    k.HashMd5? || k.HashSha1? || k.HashSha256?
  }

  predicate FromHash(cleaned: string, n: Normalized) {
    IsHex(cleaned) && HashKind(|cleaned|).Some? && n == Normalized(Lower(cleaned), HashKind(|cleaned|).value, None)
  }

  /** The kind reported tells which branch of the classification was taken. */
  lemma BranchOf(cfg: Config, cleaned: string)
    ensures Classify(cfg, cleaned).kind.Ipv4? ==> NormalizeIp(cfg, cleaned) == Some(Classify(cfg, cleaned))
    ensures IsHashKind(Classify(cfg, cleaned).kind) ==> FromHash(cleaned, Classify(cfg, cleaned))
    ensures Classify(cfg, cleaned).kind.Domain? ==> Classify(cfg, cleaned) == ClassifyDomain(cfg, cleaned)
  {
    hide Classify, NormalizeIp, ClassifyUrl, ClassifyDomain;
    if NormalizeIp(cfg, cleaned).Some? {
      IpKinds(cfg, cleaned);
      IpBranch(cfg, cleaned);
    } else if HashKind(|cleaned|).Some? && IsHex(cleaned) {
      HashBranch(cfg, cleaned);
    } else if LooksLikeUrl(cleaned) {
      UrlKinds(cfg, cleaned);
      UrlBranch(cfg, cleaned);
    } else {
      DomainKinds(cfg, cleaned);
      DomainBranch(cfg, cleaned);
    }
  }

  lemma IpBranch(cfg: Config, s: string)
    requires NormalizeIp(cfg, s).Some?
    ensures Classify(cfg, s) == NormalizeIp(cfg, s).value
  {
  }

  lemma UrlBranch(cfg: Config, s: string)
    requires NormalizeIp(cfg, s).None? && !(HashKind(|s|).Some? && IsHex(s)) && LooksLikeUrl(s)
    ensures Classify(cfg, s) == ClassifyUrl(cfg, s)
  {
  }

  /** A text that defanging leaves alone is classified as it stands. */
  lemma ClassifiedAsIs(cfg: Config, s: string)
    requires s != "" && Defanged(s) == s && Strip(s, SPACE_CHARS) == s
    ensures Normalize(cfg, s) == Classify(cfg, s)
  {
  }

  lemma NotAnAddress(cfg: Config, s: string)
    requires Strip(s, {'[', ']'}) == s && !IsQuad(s) && ':' !in s
    ensures NormalizeIp(cfg, s).None?
  {
  }

  lemma HashBranch(cfg: Config, s: string)
    requires NormalizeIp(cfg, s).None? && HashKind(|s|).Some? && IsHex(s)
    ensures Classify(cfg, s) == Normalized(Lower(s), HashKind(|s|).value, None)
  {
  }

  lemma DomainBranch(cfg: Config, s: string)
    requires NormalizeIp(cfg, s).None? && !(HashKind(|s|).Some? && IsHex(s)) && !LooksLikeUrl(s)
    ensures Classify(cfg, s) == ClassifyDomain(cfg, s)
  {
  }

  // ------------------------------------------------------------- texts left alone by defanging

  predicate HexChar(c: char) {
    IsDigit(c) || 'a' <= c <= 'f'
  }

  predicate HostChar(c: char) {
    LabelChar(c) || c == '.'
  }

  lemma MarkersNeed(s: string, c: char, m: string)
    requires c in m && c !in s && IsLower(s)
    ensures !Contains(Lower(s), m)
  {
    LowerOfLower(s);
    MissingCharRulesOut(s, m, c);
  }

  /** Every marker but hxxps, hxxp and fxp holds a character no host has. */
  lemma HostUnmarked(s: string)
    requires forall i :: 0 <= i < |s| ==> HostChar(s[i])
    requires !Contains(s, "hxxp") && !Contains(s, "fxp")
    ensures !Marked(s, RULES)
  {
    LowerOfLower(s);
    assert '[' !in s && '(' !in s && '{' !in s && ' ' !in s;
    HxxpsHasHxxp(s);
    forall i | 0 <= i < |RULES| ensures !Contains(Lower(s), RULES[i].marker) {
      HostLacksMarker(s, i);
    }
  }

  lemma HostLacksMarker(s: string, i: nat)
    requires i < |RULES| && IsLower(s) && '[' !in s && '(' !in s && '{' !in s && ' ' !in s
    requires !Contains(s, "hxxp") && !Contains(s, "hxxps") && !Contains(s, "fxp")
    ensures !Contains(Lower(s), RULES[i].marker)
  {
    LowerOfLower(s);
    if i == 1 { MarkersNeed(s, '(', RULES[i].marker); }
    else if i == 2 { MarkersNeed(s, '{', RULES[i].marker); }
    else if i == 3 { MarkersNeed(s, ' ', RULES[i].marker); }
    else if i < 8 { MarkersNeed(s, '[', RULES[i].marker); }
    else if i == 8 { assert RULES[i].marker == "hxxps"; }
    else if i == 9 { assert RULES[i].marker == "hxxp"; }
    else { assert RULES[i].marker == "fxp"; }
  }

  lemma NoXNoMarkers(s: string)
    requires forall i :: 0 <= i < |s| ==> HostChar(s[i]) && s[i] != 'x'
    ensures !Contains(s, "hxxp") && !Contains(s, "fxp")
  {
    MissingCharRulesOut(s, "hxxp", 'x');
    MissingCharRulesOut(s, "fxp", 'x');
  }

  /** A host text with sound ends and no scheme marker defangs to itself. */
  lemma HostDefangsToItself(s: string)
    requires s != "" && (forall i :: 0 <= i < |s| ==> HostChar(s[i]))
    requires !Contains(s, "hxxp") && !Contains(s, "fxp")
    ensures Defanged(s) == s && Strip(s, SPACE_CHARS) == s && Strip(s, {'[', ']'}) == s
  {
    HostUnmarked(s);
    HostEndsAreTrim(s);
    DefangedFixpoint(s);
    TrimStrip(s, SPACE_CHARS);
    TrimStrip(s, {'[', ']'});
  }

  lemma HostEndsAreTrim(s: string)
    requires s != "" && (forall i :: 0 <= i < |s| ==> HostChar(s[i]))
    ensures Trim(s, SPACE_CHARS) && Trim(s, STRIP_CHARS) && Trim(s, {'[', ']'})
  {
    assert HostChar(s[0]) && HostChar(s[|s| - 1]);
  }

  // --------------------------------------------------------------------------- IPv4

  lemma DigitsLackDot(p: string)
    requires AllDigits(p)
    ensures '.' !in p
  {
  }

  /** Four digit strings joined by dots split back into themselves. */
  lemma {:induction false} QuadSplits(p: string, q: string, r: string, t: string)
    requires AllDigits(p) && AllDigits(q) && AllDigits(r) && AllDigits(t)
    ensures Split(p + "." + q + "." + r + "." + t, '.') == [p, q, r, t]
  {
    DigitsLackDot(p); DigitsLackDot(q); DigitsLackDot(r); DigitsLackDot(t);
    QuadGroups(p, q, r, t);
    SplitFirst(p, q + ['.'] + (r + ['.'] + t), '.');
    SplitFirst(q, r + ['.'] + t, '.');
    SplitFirst(r, t, '.');
    SplitNone(t, '.');
  }

  lemma QuadGroups(p: string, q: string, r: string, t: string)
    ensures p + "." + q + "." + r + "." + t == p + ['.'] + (q + ['.'] + (r + ['.'] + t))
  {
  }

  lemma DottedReads(x: Address)
    requires InRange(x)
    ensures IsQuad(Dotted(x)) && OctetsOf(Dotted(x)) == x && ParseIpv4(Dotted(x)) == Some(x)
  {
    QuadSplits(Decimal(x.a), Decimal(x.b), Decimal(x.c), Decimal(x.d));
    DecimalLength(x.a); DecimalLength(x.b); DecimalLength(x.c); DecimalLength(x.d);
    IntOfDecimal(x.a); IntOfDecimal(x.b); IntOfDecimal(x.c); IntOfDecimal(x.d);
  }

  lemma DottedChars(x: Address)
    ensures Dotted(x) != "" && forall i :: 0 <= i < |Dotted(x)| ==> HostChar(Dotted(x)[i]) && Dotted(x)[i] != 'x'
  {
  }

  /** What an address reads as: its canonical text, and a skip reason if its range has one. */
  function AddressReading(cfg: Config, x: Address): Normalized {
    Normalized(Dotted(x), Ipv4, if cfg.skipPrivate then SkipReason(cfg.flags4(x)) else None)
  }

  lemma QuadReading(cfg: Config, s: string)
    requires IsQuad(s) && InRange(OctetsOf(s)) && Strip(s, {'[', ']'}) == s
    ensures Classify(cfg, s) == AddressReading(cfg, OctetsOf(s))
  {
    EveryQuadIsZeroPadded(s);
    DottedReads(OctetsOf(s));
  }

  /**
   Any four octet texts, however zero-padded, normalize to the canonical text of the address they
   denote, so all padded forms of one address share one key.
   */
  lemma {:induction false} PaddedFormsShareKey(cfg: Config, p: string, q: string, r: string, t: string)
    requires IsOctet(p) && IsOctet(q) && IsOctet(r) && IsOctet(t)
    requires InRange(Address(IntOf(p), IntOf(q), IntOf(r), IntOf(t)))
    ensures Normalize(cfg, p + "." + q + "." + r + "." + t)
            == AddressReading(cfg, Address(IntOf(p), IntOf(q), IntOf(r), IntOf(t)))
  {
    var s := p + "." + q + "." + r + "." + t;
    QuadReads(p, q, r, t, s);
    QuadNormalizes(cfg, s);
  }

  lemma {:induction false} QuadReads(p: string, q: string, r: string, t: string, s: string)
    requires IsOctet(p) && IsOctet(q) && IsOctet(r) && IsOctet(t) && s == p + "." + q + "." + r + "." + t
    ensures IsQuad(s) && OctetsOf(s) == Address(IntOf(p), IntOf(q), IntOf(r), IntOf(t))
    ensures s != "" && forall i :: 0 <= i < |s| ==> HostChar(s[i]) && s[i] != 'x'
  {
    QuadSplits(p, q, r, t);
    QuadChars(p, q, r, t);
  }

  lemma QuadNormalizes(cfg: Config, s: string)
    requires IsQuad(s) && InRange(OctetsOf(s))
    requires s != "" && forall i :: 0 <= i < |s| ==> HostChar(s[i]) && s[i] != 'x'
    ensures Normalize(cfg, s) == AddressReading(cfg, OctetsOf(s))
  {
    NoXNoMarkers(s);
    HostDefangsToItself(s);
    ClassifiedAsIs(cfg, s);
    QuadReading(cfg, s);
  }

  lemma QuadChars(p: string, q: string, r: string, t: string)
    requires IsOctet(p) && IsOctet(q) && IsOctet(r) && IsOctet(t)
    ensures var s := p + "." + q + "." + r + "." + t;
            s != "" && forall i :: 0 <= i < |s| ==> HostChar(s[i]) && s[i] != 'x'
  {
  }

  /** Different addresses have different canonical texts. */
  lemma DottedInjective(x: Address, y: Address)
    requires InRange(x) && InRange(y) && Dotted(x) == Dotted(y)
    ensures x == y
  {
    DottedReads(x);
    DottedReads(y);
  }

  /** Canonical IPv4 text is its own canonical form. */
  lemma Ipv4Idempotent(cfg: Config, raw: string)
    requires Normalize(cfg, raw).kind == Ipv4
    ensures SameKey(Normalize(cfg, Normalize(cfg, raw).value), Normalize(cfg, raw))
  {
    var n := Normalize(cfg, raw);
    var x := Ipv4Of(cfg, raw);
    CanonicalIpv4(cfg, x);
  }

  lemma Ipv4Of(cfg: Config, raw: string) returns (x: Address)
    requires Normalize(cfg, raw).kind == Ipv4
    ensures InRange(x) && Normalize(cfg, raw) == AddressReading(cfg, x)
  {
    hide *;
    Cleaned(cfg, raw);
    BranchOf(cfg, Defanged(raw));
    x := AddressIn(cfg, Defanged(raw));
  }

  lemma AddressIn(cfg: Config, cleaned: string) returns (x: Address)
    requires NormalizeIp(cfg, cleaned).Some? && NormalizeIp(cfg, cleaned).value.kind.Ipv4?
    ensures InRange(x) && NormalizeIp(cfg, cleaned).value == AddressReading(cfg, x)
  {
    x := ParseIpv4(Unpadded(Strip(cleaned, {'[', ']'}))).value;
  }

  lemma CanonicalIpv4(cfg: Config, x: Address)
    requires InRange(x)
    ensures Normalize(cfg, Dotted(x)) == AddressReading(cfg, x)
  {
    DottedReads(x);
    DottedChars(x);
    QuadNormalizes(cfg, Dotted(x));
  }

  // ------------------------------------------------------------------------- hashes

  lemma HashIdempotent(cfg: Config, raw: string)
    requires IsHashKind(Normalize(cfg, raw).kind)
    ensures SameKey(Normalize(cfg, Normalize(cfg, raw).value), Normalize(cfg, raw))
  {
    var cleaned, n := Defanged(raw), Normalize(cfg, raw);
    Cleaned(cfg, raw);
    BranchOf(cfg, cleaned);
    LowerHex(cleaned);
    CanonicalHash(cfg, n.value);
  }

  lemma LowerHex(s: string)
    requires IsHex(s)
    ensures forall i :: 0 <= i < |Lower(s)| ==> HexChar(Lower(s)[i])
  {
  }

  lemma CanonicalHash(cfg: Config, s: string)
    requires HashKind(|s|).Some? && forall i :: 0 <= i < |s| ==> HexChar(s[i])
    ensures Normalize(cfg, s) == Normalized(s, HashKind(|s|).value, None)
  {
    hide Normalize, Classify, NormalizeIp, Defanged, IsQuad;
    NoXNoMarkers(s);
    HostDefangsToItself(s);
    ClassifiedAsIs(cfg, s);
    HexIsNoQuad(s);
    NotAnAddress(cfg, s);
    HashBranch(cfg, s);
    LowerOfLower(s);
  }

  lemma HexIsNoQuad(s: string)
    requires forall i :: 0 <= i < |s| ==> HexChar(s[i])
    ensures !IsQuad(s) && ':' !in s && IsHex(s) && IsLower(s)
  {
    assert '.' !in s;
    SplitNone(s, '.');
  }

  // ------------------------------------------------------------------------ domains

  lemma DomainShape(s: string)
    requires DomainText(s)
    ensures s != "" && (forall i :: 0 <= i < |s| ==> HostChar(s[i])) && s[|s| - 1] != '.'
    ensures '.' in s && !IsQuad(s)
  {
    var ps := Split(s, '.');
    SplitParts(s, '.');
    SplitEnds(s, '.');
    forall i | 0 <= i < |s| ensures HostChar(s[i]) {
      if s[i] != '.' {
        assert s[i] in s;
        var k :| 0 <= k < |ps| && s[i] in ps[k];
        assert LabelText(ps[k]);
      }
    }
    var last := ps[|ps| - 1];
    assert LabelText(last) && last != "";
    var j :| 0 <= j < |last| && 'a' <= last[j] <= 'z';
    assert !AllDigits(last);
    assert '.' !in last;
  }

  /** A well-formed lower-case domain text with no scheme marker is classified as it stands. */
  lemma CanonicalDomain(cfg: Config, s: string)
    requires DomainText(s) && !Contains(s, "hxxp") && !Contains(s, "fxp")
    ensures Defanged(s) == s && Normalize(cfg, s) == DomainReading(cfg, s)
  {
    DomainShape(s);
    HostDefangsToItself(s);
    ClassifiedAsIs(cfg, s);
    HostIsNoUrl(s);
    NotAnAddress(cfg, s);
    DomainBranch(cfg, s);
    LowerOfLower(s);
    ReadAsIs(cfg, s);
  }

  /** What a domain text reads as: the last label decides. */
  function DomainReading(cfg: Config, host: string): Normalized {
    if Tld(host) in cfg.skipTlds then Normalized(host, Domain, Some("skipped_tld"))
    else if Tld(host) in cfg.fileExtensions then Normalized(host, Unknown, Some("looks_like_filename"))
    else Normalized(host, Domain, None)
  }

  lemma ReadingValue(cfg: Config, host: string)
    ensures DomainReading(cfg, host).value == host
  {
  }

  lemma ReadAsIs(cfg: Config, s: string)
    requires DomainText(s) && s[|s| - 1] != '.' && s[|s| - 1] != '\n' && Lower(s) == s
    ensures ClassifyDomain(cfg, s) == DomainReading(cfg, s)
  {
  }

  lemma HostIsNoUrl(s: string)
    requires (forall i :: 0 <= i < |s| ==> HostChar(s[i])) && '.' in s
    ensures ':' !in s && !IsHex(s) && !LooksLikeUrl(s) && IsLower(s)
  {
    MissingCharRulesOut(s, "://", ':');
  }

  lemma {:induction false} DomainValue(cfg: Config, cleaned: string)
    requires ClassifyDomain(cfg, cleaned).kind.Domain?
    ensures var host := Lower(RStrip(cleaned, {'.'}));
            IsDomain(host) && ClassifyDomain(cfg, cleaned) == DomainReading(cfg, host)
  {
  }

  /** Where a domain result comes from, and what it looks like. */
  lemma DomainCameFrom(cfg: Config, raw: string) returns (host: string)
    requires Normalize(cfg, raw).kind.Domain?
    ensures host == Lower(RStrip(Defanged(raw), {'.'})) && Normalize(cfg, raw) == DomainReading(cfg, host)
    ensures IsDomain(host) && !Contains(host, "hxxp") && !Contains(host, "fxp")
  {
    host := Lower(RStrip(Defanged(raw), {'.'}));
    Cleaned(cfg, raw);
    BranchOf(cfg, Defanged(raw));
    DomainValue(cfg, Defanged(raw));
    HostHasNoScheme(raw);
  }

  lemma HostHasNoScheme(raw: string)
    ensures var host := Lower(RStrip(Defanged(raw), {'.'})); !Contains(host, "hxxp") && !Contains(host, "fxp")
  {
    DefangedHasNoScheme(raw);
    var cleaned := Defanged(raw);
    var k := RStripPart(cleaned, {'.'});
    PrefixLacks(cleaned, k, "hxxp");
    PrefixLacks(cleaned, k, "fxp");
  }

  lemma PrefixLacks(s: string, k: nat, m: string)
    requires k <= |s| && !Contains(Lower(s), m)
    ensures !Contains(Lower(s[..k]), m)
  {
    assert Lower(s[..k]) == Lower(s)[0..k];
    if Contains(Lower(s)[0..k], m) { PartContains(Lower(s), 0, k, m); }
  }

  predicate EndsInBreak(s: string) {
    s != "" && s[|s| - 1] == '\n'
  }

  /**
   A lookupable domain is its own canonical form exactly when what defanging leaves of the input, cut
   of its trailing dots, does not end in a line break.
   */
  lemma DomainIdempotentIff(cfg: Config, raw: string)
    requires Normalize(cfg, raw).kind.Domain? && Normalize(cfg, raw).Lookupable()
    ensures SameKey(Normalize(cfg, Normalize(cfg, raw).value), Normalize(cfg, raw))
            <==> !EndsInBreak(RStrip(Defanged(raw), {'.'}))
  {
    hide *;
    var host := DomainCameFrom(cfg, raw);
    ReadingValue(cfg, host);
    LowerKeepsBreaks(RStrip(Defanged(raw), {'.'}));
    SecondReading(cfg, host, Normalize(cfg, raw));
  }

  lemma SecondReading(cfg: Config, host: string, first: Normalized)
    requires IsDomain(host) && !Contains(host, "hxxp") && !Contains(host, "fxp")
    requires first == DomainReading(cfg, host) && first.kind.Domain?
    ensures SameKey(Normalize(cfg, host), first) <==> !EndsInBreak(host)
  {
    DomainRereads(cfg, host);
    Compare(cfg, host, Normalize(cfg, host), first);
  }

  lemma LowerKeepsBreaks(s: string)
    ensures EndsInBreak(Lower(s)) == EndsInBreak(s)
  {
  }

  lemma Compare(cfg: Config, host: string, again: Normalized, first: Normalized)
    requires first == DomainReading(cfg, host) && first.kind.Domain?
    requires if EndsInBreak(host) then again.value == BeforeFinalBreak(host) else again == DomainReading(cfg, host)
    ensures SameKey(again, first) <==> !EndsInBreak(host)
  {
  }

  /** Reading a domain result once more changes nothing, but for a final line break, which is dropped. */
  lemma DomainRereads(cfg: Config, host: string)
    requires IsDomain(host) && !Contains(host, "hxxp") && !Contains(host, "fxp")
    ensures if EndsInBreak(host) then Normalize(cfg, host).value == BeforeFinalBreak(host)
            else Normalize(cfg, host) == DomainReading(cfg, host)
  {
    if EndsInBreak(host) { BreakRereads(cfg, host, BeforeFinalBreak(host)); } else { CanonicalDomain(cfg, host); }
  }

  lemma BreakRereads(cfg: Config, host: string, core: string)
    requires EndsInBreak(host) && core == BeforeFinalBreak(host) && DomainText(core)
    requires !Contains(host, "hxxp") && !Contains(host, "fxp")
    ensures Normalize(cfg, host).value == core
  {
    hide *;
    CoreLacks(host, core, "hxxp");
    CoreLacks(host, core, "fxp");
    CanonicalDomain(cfg, core);
    ReadingValue(cfg, core);
    SameStrip(cfg, host, core);
  }

  lemma CoreLacks(host: string, core: string, m: string)
    requires EndsInBreak(host) && core == BeforeFinalBreak(host) && DomainText(core) && !Contains(host, m)
    ensures !Contains(core, m) && Strip(host, SPACE_CHARS) == Strip(core, SPACE_CHARS)
  {
    assert host[0..|core|] == core && host == core + "\n";
    if Contains(core, m) { PartContains(host, 0, |core|, m); }
    DomainShape(core);
    StripBreak(core);
  }

  /** Normalizing looks at the stripped text alone. */
  lemma SameStrip(cfg: Config, s: string, t: string)
    requires Strip(s, SPACE_CHARS) == Strip(t, SPACE_CHARS)
    ensures Normalize(cfg, s) == Normalize(cfg, t)
  {
  }

  lemma StripBreak(core: string)
    requires core != "" && (forall i :: 0 <= i < |core| ==> HostChar(core[i]))
    ensures Strip(core + "\n", SPACE_CHARS) == core && Strip(core, SPACE_CHARS) == core
  {
    HostEndsAreTrim(core);
    TrimStrip(core, SPACE_CHARS);
    assert (core + "\n")[0] == core[0] && LStrip(core + "\n", SPACE_CHARS) == core + "\n";
    assert (core + "\n")[..|core|] == core;
  }

  /**
   The exception is real: a domain text followed by a line break and a dot (as in "evil.com\\n.") keeps
   its line break at the first reading and loses it at the second.
   */
  lemma LineBreakIsDroppedLate(cfg: Config, core: string, host: string)
    requires DomainText(core) && 'x' !in core && host == core + "\n"
    ensures Normalize(cfg, host + ".") == DomainReading(cfg, host)
    ensures Normalize(cfg, host).value == core && core != host
  {
    hide *;
    var raw := host + ".";
    assert core != host;
    BrokenLacks(core, host);
    BrokenText(core, host, raw);
    BrokenDefangs(core, raw);
    ClassifiedAsIs(cfg, raw);
    NotAnAddress(cfg, raw);
    DomainBranch(cfg, raw);
    BrokenReads(cfg, core, host);
    BreakRereads(cfg, host, core);
  }

  lemma BrokenText(core: string, host: string, raw: string)
    requires DomainText(core) && host == core + "\n" && raw == host + "."
    ensures !IsQuad(raw) && !IsHex(raw) && !LooksLikeUrl(raw) && ':' !in raw
    ensures forall i :: 0 <= i < |raw| ==> HostChar(raw[i]) || raw[i] == '\n'
    ensures core != "" && raw[0] == core[0] && HostChar(core[0]) && BeforeFinalBreak(host) == core
  {
    DomainShape(core);
    assert raw[|core|] == '\n' && host[..|core|] == core;
    SplitParts(raw, '.');
    var ps := Split(raw, '.');
    assert '\n' in raw;
    var k :| 0 <= k < |ps| && '\n' in ps[k];
    assert !IsOctet(ps[k]);
    assert !IsHex(raw);
    MissingCharRulesOut(raw, "://", ':');
  }

  lemma BrokenLacks(core: string, host: string)
    requires 'x' !in core && host == core + "\n"
    ensures !Contains(host, "hxxp") && !Contains(host, "fxp")
  {
    MissingCharRulesOut(host, "hxxp", 'x');
    MissingCharRulesOut(host, "fxp", 'x');
  }

  lemma BrokenDefangs(core: string, raw: string)
    requires core != "" && raw == core + "\n" + "." && 'x' !in core && raw[0] == core[0] && HostChar(core[0])
    requires forall i :: 0 <= i < |raw| ==> HostChar(raw[i]) || raw[i] == '\n'
    ensures Defanged(raw) == raw && Strip(raw, SPACE_CHARS) == raw && Strip(raw, {'[', ']'}) == raw
  {
    hide RewriteAll, Defanged;
    forall i | 0 <= i < |RULES| ensures !Contains(Lower(raw), RULES[i].marker) {
      MissingCharRulesOut(raw, "hxxp", 'x');
      MissingCharRulesOut(raw, "hxxps", 'x');
      MissingCharRulesOut(raw, "fxp", 'x');
      HostLacksMarker(raw, i);
    }
    DefangedFixpoint(raw);
    TrimStrip(raw, SPACE_CHARS);
    TrimStrip(raw, {'[', ']'});
  }

  lemma BrokenReads(cfg: Config, core: string, host: string)
    requires DomainText(core) && host == core + "\n" && BeforeFinalBreak(host) == core
    ensures ClassifyDomain(cfg, host + ".") == DomainReading(cfg, host)
    ensures EndsInBreak(host)
  {
    DotIsStripped(core, host);
    DomainIsLower(core);
    assert Lower(host) == host;
    hide DomainText, Lower, RStrip, Tld;
  }

  lemma {:induction false} DotIsStripped(core: string, host: string)
    requires host == core + "\n"
    ensures RStrip(host + ".", {'.'}) == host
  {
    assert (host + ".")[..|host|] == host;
    assert RStrip(host, {'.'}) == host;
  }

  lemma DomainIsLower(core: string)
    requires DomainText(core)
    ensures IsLower(core)
  {
    DomainShape(core);
  }
}
