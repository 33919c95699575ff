/** What texts of each kind are read as, stated on the texts as they are written. */
module IndicatorReadings {
  import opened Wrappers
  import opened Decimals
  import opened Text
  import opened Defang
  import opened DefangLaws
  import opened Urls
  import opened Indicators
  import opened IndicatorLaws

  // ------------------------------------------------------------------------- joining what is split

  /** ".".join(labels) */
  function Joined(labels: seq<string>): string
    requires labels != []
  {
    if |labels| == 1 then labels[0] else labels[0] + "." + Joined(labels[1..])
  }

  /** Splitting at the dots is the inverse of joining. */
  lemma {:induction false} JoinSplits(labels: seq<string>)
    requires labels != [] && forall k :: 0 <= k < |labels| ==> '.' !in labels[k]
    ensures Split(Joined(labels), '.') == labels
  {
    if |labels| == 1 {
      SplitNone(labels[0], '.');
    } else {
      JoinSplits(labels[1..]);
      SplitFirst(labels[0], Joined(labels[1..]), '.');
    }
  }

  lemma {:induction false} SplitJoins(s: string)
    ensures Joined(Split(s, '.')) == s
  {
    if s != "" {
      SplitJoins(s[1..]);
      var rest, ps := Split(s[1..], '.'), Split(s, '.');
      if s[0] == '.' {
        assert ps[1..] == rest;
      } else {
        assert ps[1..] == rest[1..];
        if |rest| > 1 {
          Assoc([s[0]], rest[0], "." + Joined(rest[1..]));
          Assoc(ps[0], ".", Joined(ps[1..]));
          Assoc(rest[0], ".", Joined(rest[1..]));
        }
      }
    }
  }

  // ------------------------------------------------------------------------------------- domains

  /** Letters, digits and hyphens, with no hyphen at an end. */
  predicate IsLabel(p: string) {
    && (forall i :: 0 <= i < |p| ==> 'a' <= p[i] <= 'z' || '0' <= p[i] <= '9' || p[i] == '-')
    && p != "" && p[0] != '-' && p[|p| - 1] != '-'
  }

  predicate Lettered(p: string) {
    exists i :: 0 <= i < |p| && 'a' <= p[i] <= 'z'
  }

  /** At least two labels, all but the last of at most 63 characters, the last with a letter, 253 in all. */
  ghost predicate IsName(labels: seq<string>) {
    && |labels| >= 2 && (forall k :: 0 <= k < |labels| ==> IsLabel(labels[k]))
    && (forall k :: 0 <= k < |labels| - 1 ==> |labels[k]| <= 63)
    && Lettered(labels[|labels| - 1]) && |Joined(labels)| <= 253
  }

  lemma LabelIsText(p: string)
    requires IsLabel(p)
    ensures LabelText(p) && '.' !in p && p != ""
  {
  }

  lemma TextIsLabel(p: string)
    requires LabelText(p) && p != ""
    ensures IsLabel(p)
  {
  }

  lemma {:induction false} JoinedNonempty(labels: seq<string>)
    requires labels != [] && labels[0] != ""
    ensures Joined(labels) != ""
  {
  }

  lemma {:induction false} NameIsText(labels: seq<string>)
    requires IsName(labels)
    ensures DomainText(Joined(labels)) && Tld(Joined(labels)) == labels[|labels| - 1]
  {
    hide Joined, Split, LabelText, IsLabel;
    forall k | 0 <= k < |labels| ensures '.' !in labels[k] && LabelText(labels[k]) && labels[k] != ""
    {
      LabelIsText(labels[k]);
    }
    JoinSplits(labels);
    assert |labels[0]| >= 1;
    JoinedNonempty(labels);
    assert HasLetter(labels[|labels| - 1]);
  }

  lemma {:induction false} TextIsName(s: string)
    requires DomainText(s)
    ensures IsName(Split(s, '.')) && Joined(Split(s, '.')) == s
  {
    hide DomainText, IsName, Joined;
    var ps := Split(s, '.');
    SplitJoins(s);
    PartsAreName(s, ps);
  }

  lemma {:induction false} PartsAreName(s: string, ps: seq<string>)
    requires DomainText(s) && ps == Split(s, '.') && Joined(ps) == s
    ensures IsName(ps)
  {
    hide Joined, LabelText, IsLabel, Split;
    var last := ps[|ps| - 1];
    assert HasLetter(last) && |s| <= 253 && |ps| >= 2;
    assert Lettered(last);
    forall k | 0 <= k < |ps| ensures IsLabel(ps[k]) {
      assert LabelText(ps[k]) && (k < |ps| - 1 ==> |ps[k]| >= 1);
      TextIsLabel(ps[k]);
    }
  }

  /**
   A name written from its labels is a domain that can be looked up, unless its last label is skipped, or
   is a file extension.
   */
  lemma {:induction false} NameReads(cfg: Config, labels: seq<string>)
    requires IsName(labels) && !Contains(Joined(labels), "hxxp") && !Contains(Joined(labels), "fxp")
    ensures var s, last, n := Joined(labels), labels[|labels| - 1], Normalize(cfg, Joined(labels));
            && n.value == s
            && (last in cfg.skipTlds ==> n.kind.Domain? && n.skipReason == Some("skipped_tld"))
            && (last !in cfg.skipTlds && last in cfg.fileExtensions ==>
                  n.kind.Unknown? && n.skipReason == Some("looks_like_filename"))
            && (last !in cfg.skipTlds && last !in cfg.fileExtensions ==> n.kind.Domain? && n.skipReason.None?)
  {
    hide Normalize, DomainText, Tld;
    NameIsText(labels);
    CanonicalDomain(cfg, Joined(labels));
  }

  lemma NameIn(host: string) returns (labels: seq<string>)
    requires IsDomain(host)
    ensures IsName(labels) && (host == Joined(labels) || host == Joined(labels) + "\n")
  {
    hide DomainText, IsName, Joined;
    labels := Split(BeforeFinalBreak(host), '.');
    TextIsName(BeforeFinalBreak(host));
    if host != BeforeFinalBreak(host) { assert host == BeforeFinalBreak(host) + "\n"; }
  }

  /** And nothing else is a domain: every domain result is such a name, but for a final line break. */
  lemma DomainsAreNames(cfg: Config, raw: string) returns (labels: seq<string>)
    requires Normalize(cfg, raw).kind.Domain?
    ensures IsName(labels)
    ensures Normalize(cfg, raw).value == Joined(labels) || Normalize(cfg, raw).value == Joined(labels) + "\n"
  {
    hide *;
    var host := DomainCameFrom(cfg, raw);
    ReadingValue(cfg, host);
    labels := NameIn(host);
  }

  // ------------------------------------------------------------------ domains as people write them

  /** A character that is no digit and no dot rules a dotted quad out. */
  lemma OtherCharIsNoQuad(s: string, i: nat)
    requires i < |s| && !('0' <= s[i] <= '9') && s[i] != '.'
    ensures !IsQuad(s)
  {
    var c := s[i];
    assert c in s;
    SplitParts(s, '.');
    var ps := Split(s, '.');
    var k :| 0 <= k < |ps| && c in ps[k];
    var j :| 0 <= j < |ps[k]| && ps[k][j] == c;
    assert !IsOctet(ps[k]);
  }

  lemma {:induction false} DotsStrip(s: string, dots: string)
    requires s != "" && s[|s| - 1] != '.' && forall i :: 0 <= i < |dots| ==> dots[i] == '.'
    ensures RStrip(s + dots, {'.'}) == s
  {
    var t := s + dots;
    if dots == "" {
      assert t == s;
    } else {
      assert t[|t| - 1] == dots[|dots| - 1] && t[..|t| - 1] == s + dots[..|dots| - 1];
      DotsStrip(s, dots[..|dots| - 1]);
    }
  }

  lemma DotsHoldNone(core: string, dots: string, m: string, i: int)
    requires !OccursAt(core, m, i) && m != "" && '.' !in m && forall k :: 0 <= k < |dots| ==> dots[k] == '.'
    ensures !OccursAt(core + dots, m, i)
  {
    var all := core + dots;
    if 0 <= i && i + |m| <= |all| {
      var part := all[i..i + |m|];
      assert part[|m| - 1] == all[i + |m| - 1];
      if i + |m| <= |core| { assert core[i..i + |m|] == part; }
    }
  }

  /** Dots after a text bring in no marker without a dot. */
  lemma DotsBringNone(core: string, dots: string, m: string)
    requires !Contains(core, m) && m != "" && '.' !in m && forall k :: 0 <= k < |dots| ==> dots[k] == '.'
    ensures !Contains(core + dots, m)
  {
    hide OccursAt;
    forall i ensures !OccursAt(core + dots, m, i) { DotsHoldNone(core, dots, m, i); }
  }

  lemma SameMarks(s: string, t: string)
    requires Lower(s) == Lower(t) && !Marked(t, RULES)
    ensures !Marked(s, RULES)
  {
  }

  lemma HostFormDefangs(s: string, host: string)
    requires Lower(s) == host && host != "" && (forall i :: 0 <= i < |host| ==> HostChar(host[i]))
    requires !Contains(host, "hxxp") && !Contains(host, "fxp")
    ensures Defanged(s) == s && Strip(s, SPACE_CHARS) == s && Strip(s, {'[', ']'}) == s
  {
    HostUnmarked(host);
    HostEndsAreTrim(host);
    assert IsLower(host);
    LowerOfLower(host);
    SameMarks(s, host);
    FormEndsAreTrim(s, host);
    DefangedFixpoint(s);
    TrimStrip(s, SPACE_CHARS);
    TrimStrip(s, {'[', ']'});
  }

  lemma FormEndsAreTrim(s: string, host: string)
    requires Lower(s) == host && host != "" && (forall i :: 0 <= i < |host| ==> HostChar(host[i]))
    ensures Trim(s, SPACE_CHARS) && Trim(s, STRIP_CHARS) && Trim(s, {'[', ']'})
  {
    assert HostChar(LowerChar(s[0])) && HostChar(LowerChar(s[|s| - 1]));
  }

  /** Upper case and trailing dots play no part in a domain. */
  lemma DomainFormsShareKey(cfg: Config, s: string, dots: string, core: string)
    requires Lower(s) == core && DomainText(core) && !Contains(core, "hxxp") && !Contains(core, "fxp")
    requires forall i :: 0 <= i < |dots| ==> dots[i] == '.'
    ensures Normalize(cfg, s + dots) == Normalize(cfg, core)
  {
    hide *;
    CanonicalDomain(cfg, core);
    DomainShape(core);
    DotsBringNone(core, dots, "hxxp");
    DotsBringNone(core, dots, "fxp");
    FormShape(s, dots, core);
    HostFormDefangs(s + dots, core + dots);
    FormIsNoOther(s, dots, core);
    ClassifiedAsIs(cfg, s + dots);
    NotAnAddress(cfg, s + dots);
    DomainBranch(cfg, s + dots);
    FormReads(cfg, s, dots, core);
  }

  lemma FormShape(s: string, dots: string, core: string)
    requires Lower(s) == core && core != "" && (forall i :: 0 <= i < |core| ==> HostChar(core[i]))
    requires core[|core| - 1] != '.' && forall i :: 0 <= i < |dots| ==> dots[i] == '.'
    ensures Lower(s + dots) == core + dots && (forall i :: 0 <= i < |core + dots| ==> HostChar((core + dots)[i]))
    ensures s != "" && s[|s| - 1] != '.' && core[|core| - 1] != '\n'
  {
    assert LowerChar(s[|s| - 1]) == core[|s| - 1] && HostChar(core[|core| - 1]);
  }

  lemma FormReads(cfg: Config, s: string, dots: string, core: string)
    requires Lower(s) == core && DomainText(core) && s != "" && s[|s| - 1] != '.' && core[|core| - 1] != '\n'
    requires forall i :: 0 <= i < |dots| ==> dots[i] == '.'
    ensures ClassifyDomain(cfg, s + dots) == DomainReading(cfg, core)
  {
    hide DomainText;
    DotsStrip(s, dots);
    assert BeforeFinalBreak(core) == core;
  }

  lemma FormIsNoOther(s: string, dots: string, core: string)
    requires Lower(s) == core && DomainText(core) && forall i :: 0 <= i < |dots| ==> dots[i] == '.'
    ensures var t := s + dots; !IsQuad(t) && ':' !in t && !IsHex(t) && !LooksLikeUrl(t) && core[|core| - 1] != '\n'
  {
    hide *;
    DomainShape(core);
    FormShape(s, dots, core);
    var l := LetterIn(core);
    FormLetter(s, dots, core, l);
    OtherCharIsNoQuad(s + dots, l);
    FormIsNoUrl(s + dots, core + dots);
  }

  lemma FormLetter(s: string, dots: string, core: string, l: nat)
    requires Lower(s) == core && l < |core| && 'a' <= core[l] <= 'z'
    ensures var c := (s + dots)[l]; !('0' <= c <= '9') && c != '.'
  {
    assert LowerChar(s[l]) == core[l];
  }

  lemma FormIsNoUrl(t: string, host: string)
    requires Lower(t) == host && '.' in host && forall i :: 0 <= i < |host| ==> HostChar(host[i])
    ensures ':' !in t && !IsHex(t) && !LooksLikeUrl(t)
  {
    forall i | 0 <= i < |t| ensures HostChar(LowerChar(t[i])) { assert HostChar(host[i]); }
    var d :| 0 <= d < |host| && host[d] == '.';
    assert t[d] == '.' by { assert LowerChar(t[d]) == '.'; }
    MissingCharRulesOut(t, "://", ':');
  }

  lemma LetterIn(core: string) returns (l: nat)
    requires DomainText(core)
    ensures l < |core| && 'a' <= core[l] <= 'z'
  {
    var ps := Split(core, '.');
    var last := ps[|ps| - 1];
    assert HasLetter(last);
    var j :| 0 <= j < |last| && 'a' <= last[j] <= 'z';
    PartsInside(core, |ps| - 1, last[j]);
    l :| 0 <= l < |core| && core[l] == last[j];
  }

  lemma {:induction false} PartsInside(s: string, k: nat, c: char)
    requires k < |Split(s, '.')| && c in Split(s, '.')[k]
    ensures c in s
  {
    if s != "" {
      var rest := Split(s[1..], '.');
      if s[0] == '.' {
        if k > 0 { PartsInside(s[1..], k - 1, c); }
      } else if k > 0 || c != s[0] {
        PartsInside(s[1..], k, c);
      }
    }
  }

  // --------------------------------------------------------------------------------- addresses

  /** Four digit texts between dots are an address exactly when each has at most three digits and is at most 255. */
  lemma QuadIff(cfg: Config, p: string, q: string, r: string, t: string)
    requires AllDigits(p) && AllDigits(q) && AllDigits(r) && AllDigits(t)
    ensures Normalize(cfg, p + "." + q + "." + r + "." + t).kind.Ipv4?
            <==> forall o :: o in [p, q, r, t] ==> 1 <= |o| <= 3 && IntOf(o) <= 255
  {
    hide Normalize, IsQuad, Dotted, Defanged, IntOf;
    var s := p + "." + q + "." + r + "." + t;
    QuadSplits(p, q, r, t);
    if forall o :: o in [p, q, r, t] ==> 1 <= |o| <= 3 && IntOf(o) <= 255 {
      assert p in [p, q, r, t] && q in [p, q, r, t] && r in [p, q, r, t] && t in [p, q, r, t];
      PaddedFormsShareKey(cfg, p, q, r, t);
    } else {
      DigitsAndDots(s, p, q, r, t);
      NoXNoMarkers(s);
      HostDefangsToItself(s);
      ClassifiedAsIs(cfg, s);
      BadQuad(cfg, s, p, q, r, t);
    }
  }

  lemma DigitsAndDots(s: string, p: string, q: string, r: string, t: string)
    requires AllDigits(p) && AllDigits(q) && AllDigits(r) && AllDigits(t) && s == p + "." + q + "." + r + "." + t
    ensures s != "" && forall i :: 0 <= i < |s| ==> HostChar(s[i]) && s[i] != 'x'
    ensures ':' !in s
  {
  }

  lemma {:induction false} BadQuad(cfg: Config, s: string, p: string, q: string, r: string, t: string)
    requires AllDigits(p) && AllDigits(q) && AllDigits(r) && AllDigits(t) && Split(s, '.') == [p, q, r, t]
    requires Strip(s, {'[', ']'}) == s && ':' !in s && (forall i :: 0 <= i < |s| ==> HostChar(s[i]))
    requires exists o :: o in [p, q, r, t] && !(1 <= |o| <= 3 && IntOf(o) <= 255)
    ensures !Classify(cfg, s).kind.Ipv4?
  {
    hide Classify, NormalizeIp;
    BranchOf(cfg, s);
    BadQuadIsNone(cfg, s, p, q, r, t);
  }

  lemma {:induction false} BadQuadIsNone(cfg: Config, s: string, p: string, q: string, r: string, t: string)
    requires AllDigits(p) && AllDigits(q) && AllDigits(r) && AllDigits(t) && Split(s, '.') == [p, q, r, t]
    requires Strip(s, {'[', ']'}) == s && ':' !in s
    requires exists o :: o in [p, q, r, t] && !(1 <= |o| <= 3 && IntOf(o) <= 255)
    ensures NormalizeIp(cfg, s).None?
  {
    hide Dotted, IntOf;
    if IsQuad(s) {
      EveryQuadIsZeroPadded(s);
      var x := OctetsOf(s);
      assert !InRange(x);
      DottedOutOfRange(x);
    }
  }

  lemma DottedOutOfRange(x: Address)
    requires !InRange(x)
    ensures ParseIpv4(Dotted(x)).None? && ':' !in Dotted(x)
  {
    QuadSplits(Decimal(x.a), Decimal(x.b), Decimal(x.c), Decimal(x.d));
    IntOfDecimal(x.a); IntOfDecimal(x.b); IntOfDecimal(x.c); IntOfDecimal(x.d);
  }

  /** The first of the ranges an address lies in, in this order, is the reason to skip it. */
  predicate SkippedFor(f: Flags, reason: Option<string>) {
    if f.loopback then reason == Some("loopback_ip")
    else if f.linkLocal then reason == Some("link_local_ip")
    else if f.multicast then reason == Some("multicast_ip")
    else if f.unspecified then reason == Some("unspecified_ip")
    else if f.reserved then reason == Some("reserved_ip")
    else if f.inPrivate then reason == Some("private_ip")
    else reason.None?
  }

  /** An address can be looked up exactly when private ranges are not skipped, or it lies in none. */
  lemma AddressSkipped(cfg: Config, x: Address)
    requires InRange(x)
    ensures var n, f := Normalize(cfg, Dotted(x)), cfg.flags4(x);
            && n.kind.Ipv4? && n.value == Decimal(x.a) + "." + Decimal(x.b) + "." + Decimal(x.c) + "." + Decimal(x.d)
            && (n.Lookupable() <==> !cfg.skipPrivate
                                    || f == Flags(false, false, false, false, false, false))
            && (cfg.skipPrivate ==> SkippedFor(f, n.skipReason))
  {
    hide Normalize;
    CanonicalIpv4(cfg, x);
  }

  /** IPv6 text that parses reads as its compressed form, and is skipped for the same reasons. */
  lemma Ipv6Reads(cfg: Config, s: string, text: string, flags: Flags)
    requires Trimmed(s) && Clean(s) && ':' in s && cfg.ipv6(s) == Some((text, flags))
    ensures var n := Normalize(cfg, s);
            && n.kind.Ipv6? && n.value == text
            && (if cfg.skipPrivate then SkippedFor(flags, n.skipReason) else n.skipReason.None?)
  {
    hide Normalize, Defanged, IsQuad, Clean;
    CleanReads(cfg, s);
    var i :| 0 <= i < |s| && s[i] == ':';
    OtherCharIsNoQuad(s, i);
    IpBranch(cfg, s);
  }

  /** A trimmed clean text is classified as it stands. */
  lemma CleanReads(cfg: Config, s: string)
    requires Trimmed(s) && Clean(s)
    ensures Normalize(cfg, s) == Classify(cfg, s) && Strip(s, {'[', ']'}) == s
  {
    hide Classify, Defanged, Clean;
    CleanIsUnmarked(s);
    DefangedFixpoint(s);
    TrimStrip(s, SPACE_CHARS);
    TrimStrip(s, {'[', ']'});
    ClassifiedAsIs(cfg, s);
  }

  // ------------------------------------------------------------------------------------- hashes

  predicate Hexadecimal(s: string) {
    forall i :: 0 <= i < |s| ==> '0' <= s[i] <= '9' || 'a' <= s[i] <= 'f' || 'A' <= s[i] <= 'F'
  }

  /** 32, 40 or 64 hexadecimal digits in any case are an MD5, a SHA-1 or a SHA-256 in lower case. */
  lemma HashReads(cfg: Config, s: string)
    requires Hexadecimal(s) && |s| in [32, 40, 64]
    ensures Normalize(cfg, s)
            == Normalized(Lower(s), if |s| == 32 then HashMd5 else if |s| == 40 then HashSha1 else HashSha256, None)
  {
    hide Normalize, Defanged, Classify, NormalizeIp, IsQuad;
    HexForm(s);
    NoXNoMarkers(Lower(s));
    HostFormDefangs(s, Lower(s));
    ClassifiedAsIs(cfg, s);
    NotAnAddress(cfg, s);
    HashBranch(cfg, s);
  }

  lemma HexForm(s: string)
    requires Hexadecimal(s)
    ensures forall i :: 0 <= i < |s| ==> HostChar(Lower(s)[i]) && Lower(s)[i] != 'x'
    ensures !IsQuad(s) && ':' !in s && IsHex(s)
  {
    assert '.' !in s;
    SplitNone(s, '.');
  }

  /** And nothing else is a hash. */
  lemma HashesAreHex(cfg: Config, raw: string)
    requires var k := Normalize(cfg, raw).kind; k.HashMd5? || k.HashSha1? || k.HashSha256?
    ensures var n := Normalize(cfg, raw);
            && n.Lookupable() && Hexadecimal(n.value) && Lower(n.value) == n.value
            && |n.value| == if n.kind.HashMd5? then 32 else if n.kind.HashSha1? then 40 else 64
  {
    hide Classify, Defanged;
    Cleaned(cfg, raw);
    BranchOf(cfg, Defanged(raw));
    LowerOfLower(Defanged(raw));
  }

  // --------------------------------------------------------------------------------------- URLs

  lemma LastLabel(host: string, before: string, last: string)
    requires '.' !in last && (host == last || host == before + "." + last)
    ensures Tld(host) == last
  {
    SplitNone(last, '.');
    if host != last { LastOfSplit(before, last); }
  }

  lemma {:induction false} LastOfSplit(before: string, last: string)
    requires '.' !in last
    ensures |Split(before + "." + last, '.')| > 1 && Tld(before + "." + last) == last
  {
    var s := before + "." + last;
    SplitNone(last, '.');
    if before == "" {
      SplitFirst("", last, '.');
      assert s == "" + ['.'] + last;
    } else {
      LastOfSplit(before[1..], last);
      assert s[1..] == before[1..] + "." + last && s[0] == before[0];
    }
  }

  lemma NoIpInUrl(cfg: Config, s: string, i: nat)
    requires i < |s| && s[i] == '/' && Strip(s, {'[', ']'}) == s && (':' in s ==> cfg.ipv6(s).None?)
    ensures NormalizeIp(cfg, s).None? && !IsHex(s)
  {
    hide IsQuad, IsZeroPadded;
    OtherCharIsNoQuad(s, i);
  }

  /**
   A URL is read as its canonical form, and can be looked up unless the last label of its host is
   skipped.
   */
  lemma UrlReadsAs(cfg: Config, s: string, url: string, host: string, before: string, last: string)
    requires Trimmed(s) && Clean(s) && '/' in s && (':' in s ==> cfg.ipv6(s).None?)
    requires NormalizeUrl(s) == Canonical(url, host)
             || (NormalizeUrl(s).InBrackets? && cfg.bracketed(s) == Some((url, host)))
    requires '.' !in last && (host == last || host == before + "." + last)
    ensures Normalize(cfg, s) == Normalized(url, Url, if last in cfg.skipTlds then Some("skipped_tld") else None)
  {
    hide Normalize, Classify, NormalizeIp, NormalizeUrl, Clean;
    CleanReads(cfg, s);
    var i :| 0 <= i < |s| && s[i] == '/';
    NoIpInUrl(cfg, s, i);
    UrlBranch(cfg, s);
    LastLabel(host, before, last);
  }

  /** A URL without a host, or with a port that is none, is never looked up. */
  lemma UnparseableIsSkipped(cfg: Config, s: string)
    requires Trimmed(s) && Clean(s) && '/' in s && (':' in s ==> cfg.ipv6(s).None?)
    requires NormalizeUrl(s).NoHost? || NormalizeUrl(s).NoPort?
             || (NormalizeUrl(s).InBrackets? && cfg.bracketed(s).None?)
    ensures Normalize(cfg, s) == Normalized(s, Unknown, Some("unparseable_url")) && !Normalize(cfg, s).Lookupable()
  {
    hide Normalize, Classify, NormalizeIp, NormalizeUrl, Clean;
    CleanReads(cfg, s);
    var i :| 0 <= i < |s| && s[i] == '/';
    NoIpInUrl(cfg, s, i);
    UrlBranch(cfg, s);
  }

  /** The same, for a URL written from its parts. */
  lemma WrittenUrlReads(cfg: Config, scheme: string, host: string, port: string, path: string, query: string,
                        tail: string, before: string, last: string)
    requires IsScheme(scheme) && PlainHost(host) && PlainPort(port) && PlainPath(path) && PlainTail(query, tail)
    requires var s := scheme + "://" + host + port + path + tail; Trimmed(s) && Clean(s) && cfg.ipv6(s).None?
    requires '.' !in last && (Lower(host) == last || Lower(host) == before + "." + last)
    ensures Normalize(cfg, scheme + "://" + host + port + path + tail)
            == Normalized(Lower(scheme) + "://" + Lower(host) + PortSuffix(Lower(scheme), PortOf(port)) + path
                          + (if query == "" then "" else "?" + query),
                          Url, if last in cfg.skipTlds then Some("skipped_tld") else None)
  {
    hide Normalize, NormalizeUrl, Clean, Trimmed;
    var s := scheme + "://" + host + port + path + tail;
    WrittenUrlCanonicalizes(scheme, host, port, path, query, tail);
    Urls.Regroup(scheme, host, port, path, tail);
    assert s[|scheme| + 1] == '/';
    UrlReadsAs(cfg, s, NormalizeUrl(s).url, Lower(host), before, last);
  }

  /** Ports 80, 443 and 21 go with http, https and ftp; every other port is written out, without padding. */
  lemma {:induction false} PortsWrittenOut(scheme: string, digits: string)
    requires AllDigits(digits) && digits != "" && IntOf(digits) <= 65535
    ensures PortOf(":" + digits) == Some(IntOf(digits)) && PortOf("") == None && PortSuffix(scheme, None) == ""
    ensures PortSuffix(scheme, Some(IntOf(digits)))
            == if (scheme == "http" && IntOf(digits) == 80) || (scheme == "https" && IntOf(digits) == 443)
                  || (scheme == "ftp" && IntOf(digits) == 21)
               then "" else ":" + Decimal(IntOf(digits))
  {
    assert (":" + digits)[1..] == digits;
  }

  /** A text with a path or a query and no scheme is the URL http makes of it. */
  lemma SchemelessShareKey(cfg: Config, s: string)
    requires Trimmed(s) && Clean(s) && Trimmed("http://" + s) && Clean("http://" + s)
    requires Find(s, "://").None? && ('/' in s || '?' in s) && NormalizeUrl("http://" + s).Canonical?
    requires cfg.ipv6(s).None? && cfg.ipv6("http://" + s).None?
    ensures Normalize(cfg, s) == Normalize(cfg, "http://" + s) && Normalize(cfg, s).kind.Url?
  {
    hide Normalize, Classify, NormalizeIp, NormalizeUrl, Clean, Trimmed;
    var t := "http://" + s;
    CleanReads(cfg, s);
    CleanReads(cfg, t);
    SameCandidate(s, t);
    NoIpInUrl(cfg, t, 5);
    UrlBranch(cfg, t);
    var i :| 0 <= i < |s| && (s[i] == '/' || s[i] == '?');
    NoIpInPath(cfg, s, i);
    UrlBranch(cfg, s);
  }

  lemma SameCandidate(s: string, t: string)
    requires Find(s, "://").None? && t == "http://" + s
    ensures Find(t, "://").Some? && NormalizeUrl(s) == NormalizeUrl(t) && t[5] == '/' && ':' in t
  {
    hide UrlSplit, Canonicalize, Find;
    MarkIsThere("http", s);
    assert "http" + "://" + s == t && t[4] == ':';
  }

  lemma NoIpInPath(cfg: Config, s: string, i: nat)
    requires i < |s| && (s[i] == '/' || s[i] == '?') && Strip(s, {'[', ']'}) == s && cfg.ipv6(s).None?
    ensures NormalizeIp(cfg, s).None? && !IsHex(s)
  {
    hide IsQuad, IsZeroPadded;
    OtherCharIsNoQuad(s, i);
  }

  /** Without these characters no marker fits. */
  lemma CleanWithout(s: string)
    requires forall i :: 0 <= i < |s| ==> s[i] !in {'[', '(', '{', ' ', 'x', 'X'}
    ensures Clean(s)
  {
    assert '[' !in Lower(s) && '(' !in Lower(s) && '{' !in Lower(s) && ' ' !in Lower(s) && 'x' !in Lower(s);
    forall m | m in ["[.]", "(.)", "{.}", " dot ", "[:]", "[/]", "[@]", "[at]", "hxxps", "hxxp", "fxp"]
      ensures !Contains(Lower(s), m)
    {
      if '[' in m { MissingCharRulesOut(Lower(s), m, '['); }
      else if '(' in m { MissingCharRulesOut(Lower(s), m, '('); }
      else if '{' in m { MissingCharRulesOut(Lower(s), m, '{'); }
      else if ' ' in m { MissingCharRulesOut(Lower(s), m, ' '); }
      else { MissingCharRulesOut(Lower(s), m, 'x'); }
    }
  }

  predicate Example(s: string, host: string, path: string, url: string) {
    || (s == "http://Evil.COM/a/" && host == "Evil.COM" && path == "/a/" && url == "http://evil.com/a/")
    || (s == "http://evil.com/a" && host == "evil.com" && path == "/a" && url == "http://evil.com/a")
  }

  lemma ExampleChars(s: string)
    requires s == "http://Evil.COM/a/" || s == "http://evil.com/a"
    ensures s[0] == 'h' && (s[|s| - 1] == '/' || s[|s| - 1] == 'a')
    ensures forall i :: 0 <= i < |s| ==> s[i] !in {'[', '(', '{', ' ', 'x', 'X'}
  {
  }

  lemma ExampleIsClean(s: string)
    requires s == "http://Evil.COM/a/" || s == "http://evil.com/a"
    ensures Trimmed(s) && Clean(s)
  {
    ExampleChars(s);
    hide Clean;
    CleanWithout(s);
  }

  lemma ExampleText(s: string, host: string, path: string, url: string)
    requires Example(s, host, path, url)
    ensures s == "http" + "://" + host + "" + path + ""
    ensures url == "http" + "://" + "evil.com" + "" + path + ""
  {
  }

  lemma ExampleHost(host: string)
    requires host == "Evil.COM" || host == "evil.com"
    ensures Lower(host) == "evil.com" == "evil" + "." + "com" && Lower("http") == "http"
  {
  }

  lemma ExampleParts(s: string, host: string, path: string, url: string)
    requires Example(s, host, path, url)
    ensures IsScheme("http") && PlainHost(host) && PlainPath(path) && PlainPort("") && PlainTail("", "")
    ensures PortSuffix("http", PortOf("")) == "" && QuerySuffix("") == ""
  {
  }

  lemma ExampleUrl(cfg: Config, s: string, host: string, path: string, url: string)
    requires Example(s, host, path, url) && cfg.ipv6(s).None? && "com" !in cfg.skipTlds
    ensures Trimmed(s) && Clean(s) && Normalize(cfg, s) == Normalized(url, Url, None)
  {
    assert host == "Evil.COM" || host == "evil.com";
    assert s == "http://Evil.COM/a/" || s == "http://evil.com/a";
    hide *;
    ExampleIsClean(s);
    ExampleHost(host);
    ExampleText(s, host, path, url);
    ExampleParts(s, host, path, url);
    WrittenUrlReads(cfg, "http", host, "", path, "", "", "evil", "com");
  }

  /**
   The forms of one URL that the module's header offers as sharing a key do not: the scheme and the host are
   folded, the path is kept byte for byte, so the trailing slash tells them apart.
   */
  lemma HeaderExampleDiffers(cfg: Config)
    requires cfg.ipv6("http://Evil.COM/a/").None? && cfg.ipv6("http://evil.com/a").None? && "com" !in cfg.skipTlds
    ensures Normalize(cfg, "HXXP://Evil.COM/a/") == Normalized("http://evil.com/a/", Url, None)
    ensures Normalize(cfg, "http://evil.com/a") == Normalized("http://evil.com/a", Url, None)
  {
    assert Example("http://Evil.COM/a/", "Evil.COM", "/a/", "http://evil.com/a/");
    assert Example("http://evil.com/a", "evil.com", "/a", "http://evil.com/a");
    hide *;
    ExampleUrl(cfg, "http://Evil.COM/a/", "Evil.COM", "/a/", "http://evil.com/a/");
    ExampleUrl(cfg, "http://evil.com/a", "evil.com", "/a", "http://evil.com/a");
    HeaderExampleSpelled(cfg, "HXXP://Evil.COM/a/", "http://Evil.COM/a/", "://Evil.COM/a/");
  }

  lemma {:induction false} BareScheme(cfg: Config, word: string, rest: string, ps: seq<Piece>)
    requires Lower(word) == "hxxp" && Sound(ps) && Spelled(ps) == rest == Meant(ps) && rest != "" && rest[0] == ':'
    requires Trimmed(word + rest) && Trimmed("http" + rest) && Clean("http" + rest)
    ensures Normalize(cfg, word + rest) == Normalize(cfg, "http" + rest)
  {
    hide Normalize, Clean, Spelled, Trimmed;
    SchemesShareKey(cfg, word, ps);
  }

  lemma ExampleSplits(raw: string, plain: string, rest: string)
    requires raw == "HXXP://Evil.COM/a/" && plain == "http://Evil.COM/a/" && rest == "://Evil.COM/a/"
    ensures "HXXP" + rest == raw && "http" + rest == plain && Lower("HXXP") == "hxxp"
    ensures rest != "" && rest[0] == ':' && Trimmed(raw)
  {
    assert raw[0] == 'H' && raw[|raw| - 1] == '/';
  }

  lemma HeaderExampleSpelled(cfg: Config, raw: string, plain: string, rest: string)
    requires raw == "HXXP://Evil.COM/a/" && plain == "http://Evil.COM/a/" && rest == "://Evil.COM/a/"
    requires Trimmed(plain) && Clean(plain)
    ensures Normalize(cfg, raw) == Normalize(cfg, plain)
  {
    ExampleSplits(raw, plain, rest);
    hide *;
    var ps := BareText(rest);
    BareScheme(cfg, "HXXP", rest, ps);
  }
}
