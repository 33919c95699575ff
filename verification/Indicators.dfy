/** Classifying and canonicalizing a value, for ASCII text. */
module Indicators {
  import opened Wrappers
  import opened Decimals
  import opened Text
  import opened Defang
  import opened Urls

  datatype Kind = Ipv4 | Ipv6 | Domain | Url | HashMd5 | HashSha1 | HashSha256 | Unknown

  /** The ranges ipaddress reports an address in. */
  datatype Flags = Flags(loopback: bool, linkLocal: bool, multicast: bool, unspecified: bool, reserved: bool,
                         inPrivate: bool)

  datatype Address = Address(a: nat, b: nat, c: nat, d: nat)

  /**
   Settings, the extensions taken for filenames (FILE_EXTENSIONS in the source), and what this module
   does not look into: the ranges of an IPv4 address, the reading of IPv6 text (its compressed form
   and ranges), and URLs with a host in square brackets.
   */
  datatype Config = Config(skipPrivate: bool, skipTlds: set<string>, fileExtensions: set<string>,
                           flags4: Address -> Flags,
                           ipv6: string -> Option<(string, Flags)>, bracketed: string -> Option<(string, string)>)

  /** The outcome for one text; the source also carries the text itself along. */
  datatype Normalized = Normalized(value: string, kind: Kind, skipReason: Option<string>) {
    predicate Lookupable() {
      skipReason.None? && !kind.Unknown?
    }

    function CacheKey(): string {
      KindName(kind) + ":" + value
    }
  }

  function KindName(k: Kind): string {
    match k
    case Ipv4 => "IPv4-Addr"
    case Ipv6 => "IPv6-Addr"
    case Domain => "Domain-Name"
    case Url => "Url"
    case HashMd5 => "StixFile:MD5"
    case HashSha1 => "StixFile:SHA-1"
    case HashSha256 => "StixFile:SHA-256"
    case Unknown => "Unknown"
  }

  // ------------------------------------------------------------------ IP addresses

  predicate IsOctet(p: string) {
    1 <= |p| <= 3 && AllDigits(p)
  }

  /** The dotted-quad expression. */
  predicate IsQuad(s: string) {
    var ps := Split(s, '.');
    |ps| == 4 && IsOctet(ps[0]) && IsOctet(ps[1]) && IsOctet(ps[2]) && IsOctet(ps[3])
  }

  predicate IsPadded(p: string) {
    2 <= |p| <= 3 && AllDigits(p) && p[0] == '0'
  }

  /** The zero-padded expression, whose second alternative lets any quad through. */
  predicate IsZeroPadded(s: string) {
    var ps := Split(s, '.');
    && |ps| == 4
    && ((IsPadded(ps[0]) && IsOctet(ps[1]) && IsOctet(ps[2]) && IsOctet(ps[3]))
        || (IsOctet(ps[0]) && (IsPadded(ps[1]) || IsOctet(ps[1])) && (IsPadded(ps[2]) || IsOctet(ps[2]))
            && (IsPadded(ps[3]) || IsOctet(ps[3]))))
  }

  function Dotted(x: Address): string {
    Decimal(x.a) + "." + Decimal(x.b) + "." + Decimal(x.c) + "." + Decimal(x.d)
  }

  function OctetsOf(s: string): Address
    requires IsQuad(s)
  {
    var ps := Split(s, '.');
    Address(IntOf(ps[0]), IntOf(ps[1]), IntOf(ps[2]), IntOf(ps[3]))
  }

  predicate InRange(x: Address) {
    x.a <= 255 && x.b <= 255 && x.c <= 255 && x.d <= 255
  }

  /** Zero padding dropped, as the source does before parsing. */
  function Unpadded(bare: string): string {
    if IsQuad(bare) && IsZeroPadded(bare) then Dotted(OctetsOf(bare)) else bare
  }

  /** ipaddress on dotted quads: no leading zeros, every octet at most 255. */
  function ParseIpv4(s: string): Option<Address> {
    if IsQuad(s) && Dotted(OctetsOf(s)) == s && InRange(OctetsOf(s)) then Some(OctetsOf(s)) else None
  }

  /** IPv6 text always holds a colon. */
  function ParseIpv6(cfg: Config, s: string): Option<(string, Flags)> {
    if ':' in s then cfg.ipv6(s) else None
  }

  /** The most specific reason first. */
  function SkipReason(f: Flags): Option<string> {
    if f.loopback then Some("loopback_ip")
    else if f.linkLocal then Some("link_local_ip")
    else if f.multicast then Some("multicast_ip")
    else if f.unspecified then Some("unspecified_ip")
    else if f.reserved then Some("reserved_ip")
    else if f.inPrivate then Some("private_ip")
    else None
  }

  // ------------------------------------------------------------------------ hashes

  predicate IsHex(s: string) {
    forall i :: 0 <= i < |s| ==> IsDigit(s[i]) || 'a' <= s[i] <= 'f' || 'A' <= s[i] <= 'F'
  }

  function HashKind(n: nat): Option<Kind> {
    if n == 32 then Some(HashMd5) else if n == 40 then Some(HashSha1) else if n == 64 then Some(HashSha256) else None
  }

  // ----------------------------------------------------------------------- domains

  predicate LabelChar(c: char) {
    'a' <= c <= 'z' || IsDigit(c) || c == '-'
  }

  predicate LabelText(p: string) {
    && (forall i :: 0 <= i < |p| ==> LabelChar(p[i]))
    && (p != "" ==> p[0] != '-' && p[|p| - 1] != '-')
  }

  predicate HasLetter(p: string) {
    exists i :: 0 <= i < |p| && 'a' <= p[i] <= 'z'
  }

  /** The domain expression without its '$': labels of at most 63 characters, the last holding a letter. */
  predicate DomainText(s: string) {
    var ps := Split(s, '.');
    && 1 <= |s| <= 253 && |ps| >= 2
    && (forall k :: 0 <= k < |ps| ==> LabelText(ps[k]))
    && (forall k :: 0 <= k < |ps| - 1 ==> 1 <= |ps[k]| <= 63)
    && HasLetter(ps[|ps| - 1])
  }

  /** '$' also matches just before a final line break, so the expression lets one through. */
  function BeforeFinalBreak(s: string): string {
    if s != "" && s[|s| - 1] == '\n' then s[..|s| - 1] else s
  }

  predicate IsDomain(host: string) {
    DomainText(BeforeFinalBreak(host))
  }

  /** host.rsplit(".", 1)[-1] */
  function Tld(host: string): string {
    var ps := Split(host, '.'); ps[|ps| - 1]
  }

  // --------------------------------------------------------------------- normalize

  function NormalizeIp(cfg: Config, cleaned: string): Option<Normalized> {
    var bare := Unpadded(Strip(cleaned, {'[', ']'}));
    if ParseIpv4(bare).Some? then
      var x := ParseIpv4(bare).value;
      Some(Normalized(Dotted(x), Ipv4, if cfg.skipPrivate then SkipReason(cfg.flags4(x)) else None))
    else if ParseIpv6(cfg, bare).Some? then
      var (text, flags) := ParseIpv6(cfg, bare).value;
      Some(Normalized(text, Ipv6, if cfg.skipPrivate then SkipReason(flags) else None))
    else None
  }

  /** The canonical URL and its host, or nothing when it cannot be parsed. */
  function UrlAndHost(cfg: Config, cleaned: string): Option<(string, string)> {
    match NormalizeUrl(cleaned)
    case Canonical(url, host) => Some((url, host))
    case InBrackets => cfg.bracketed(cleaned)
    case _ => None
  }

  function ClassifyUrl(cfg: Config, cleaned: string): Normalized {
    var parsed := UrlAndHost(cfg, cleaned);
    if parsed.None? then Normalized(cleaned, Unknown, Some("unparseable_url"))
    else Normalized(parsed.value.0, Url, if Tld(parsed.value.1) in cfg.skipTlds then Some("skipped_tld") else None)
  }

  function ClassifyDomain(cfg: Config, cleaned: string): Normalized {
    var host := Lower(RStrip(cleaned, {'.'}));
    if !IsDomain(host) then Normalized(cleaned, Unknown, Some("unclassified"))
    else if Tld(host) in cfg.skipTlds then Normalized(host, Domain, Some("skipped_tld"))
    else if Tld(host) in cfg.fileExtensions then Normalized(host, Unknown, Some("looks_like_filename"))
    else Normalized(host, Domain, None)
  }

  predicate LooksLikeUrl(cleaned: string) {
    Find(cleaned, "://").Some? || '/' in cleaned || '?' in cleaned
  }

  function Classify(cfg: Config, cleaned: string): Normalized {
    var ip := NormalizeIp(cfg, cleaned);
    if ip.Some? then ip.value
    else if HashKind(|cleaned|).Some? && IsHex(cleaned) then Normalized(Lower(cleaned), HashKind(|cleaned|).value, None)
    else if LooksLikeUrl(cleaned) then ClassifyUrl(cfg, cleaned)
    else ClassifyDomain(cfg, cleaned)
  }

  /** normalize */
  function Normalize(cfg: Config, raw: string): Normalized {
    if Strip(raw, SPACE_CHARS) == "" then Normalized("", Unknown, Some("empty"))
    else if Defanged(raw) == "" then Normalized("", Unknown, Some("empty_after_defang"))
    else Classify(cfg, Defanged(raw))
  }
}
