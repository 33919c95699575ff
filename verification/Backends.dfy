/** How a value is looked up: against upstream through the cache, or behind the membership set. */
module Backends {
  import opened Wrappers
  import opened Packed
  import opened Overlay
  import opened Membership
  import opened Indicators
  import PC = PayloadCaching
  import SF = SingleFlight

  type Payload = map<string, string>

  const MISS: Payload := map["found" := "false"]
  const DEGRADED: Payload := map["found" := "false", "degraded" := "true"]

  predicate Found(p: Payload) {
    "found" in p && p["found"] == "true"
  }

  datatype Source = Skip | MembershipTier | PayloadCacheTier | OpenCtiTier | DegradedTier
  datatype LookupResult = LookupResult(payload: Payload, source: Source)

  /** Upstream as it answers now: one query per value and kind, None when no indicator survives the hit policy. */
  datatype Upstream = Upstream(ask: (string, Kind) -> Result<Option<Payload>, SF.Error>, fallback: bool,
                               hostOf: string -> string, version: string)
  {
    /** The host a URL falls back to, or "". */
    function FallbackHost(v: Normalized): string {
      if v.kind.Url? && fallback then hostOf(v.value) else ""
    }

    function Key(v: Normalized): string {
      version + ":" + v.CacheKey()
    }

    ghost predicate Available() {
      forall s, k :: ask(s, k).Ok?
    }

    /** build_payload marks everything it builds as found. */
    ghost predicate Sound() {
      forall s, k :: ask(s, k).Ok? && ask(s, k).value.Some? ==> Found(ask(s, k).value.value)
    }

    predicate Holds(s: string, k: Kind) {
      ask(s, k).Ok? && ask(s, k).value.Some?
    }

    /** Upstream knows the exact value, or the host the URL falls back to. */
    predicate Hit(v: Normalized) {
      Holds(v.value, v.kind) || (FallbackHost(v) != "" && Holds(FallbackHost(v), Domain))
    }
  }

  // --------------------------------------------------------------------- the live path

  /** _fetch: the exact value first, then the host of a URL, amended to say which matched. */
  function Fetch(u: Upstream, v: Normalized): SF.Outcome<Payload> {
    var exact := u.ask(v.value, v.kind);
    if exact.Err? then SF.Raised(exact.error)
    else if exact.value.Some? then SF.Value(exact.value.value)
    else
      var host := u.FallbackHost(v);
      if host == "" then SF.Value(MISS)
      else
        var second := u.ask(host, Domain);
        if second.Err? then SF.Raised(second.error)
        else if second.value.Some? then SF.Value(second.value.value["value" := v.value]["matched_value" := host])
        else SF.Value(MISS)
  }

  /** LiveBackend.lookup with nothing else in flight: the cache afterwards and the result, or what was raised. */
  function LiveLookup(c: PC.Cache<Payload>, u: Upstream, v: Normalized, asked: real, answered: real)
    : (PC.Cache<Payload>, Result<LookupResult, SF.Error>)
  {
    if !v.Lookupable() then (c, Ok(LookupResult(MISS, Skip)))
    else
      var (c', cached) := c.Get(asked, u.Key(v));
      if cached.Some? then (c', Ok(LookupResult(cached.value, PayloadCacheTier)))
      else
        match Fetch(u, v)
        case Value(p) => (c'.Set(answered, u.Key(v), p), Ok(LookupResult(p, OpenCtiTier)))
        case Raised(e) =>
          (c', if e.BreakerOpen? || e.OpenCti? then Ok(LookupResult(DEGRADED, DegradedTier)) else Err(e))
  }

  /** Every entry of the cache is what upstream would answer for its key. */
  ghost predicate Agrees(c: PC.Cache<Payload>, u: Upstream) {
    forall v: Normalized :: PC.Lookup(c.entries, u.Key(v)).Some? ==>
      Fetch(u, v) == SF.Value(PC.Lookup(c.entries, u.Key(v)).value.payload)
  }

  /** The cache key tells every kind and every value apart. */
  lemma KeyInjective(u: Upstream, v: Normalized, w: Normalized)
    requires u.Key(v) == u.Key(w)
    ensures v.kind == w.kind && v.value == w.value
  {
    var a, b := v.CacheKey(), w.CacheKey();
    SamePrefix(u.version + ":", a, b);
    KindsDiffer(v.kind, w.kind, v.value, w.value);
    SamePrefix(KindName(v.kind) + ":", v.value, w.value);
  }

  lemma SamePrefix(p: string, a: string, b: string)
    requires p + a == p + b
    ensures a == b
  {
    assert (p + a)[|p|..] == a && (p + b)[|p|..] == b;
  }

  lemma KindsDiffer(j: Kind, k: Kind, a: string, b: string)
    requires KindName(j) + ":" + a == KindName(k) + ":" + b
    ensures j == k
  {
    KindMarks(j, a);
    KindMarks(k, b);
  }

  /** A few characters of the key that no two kinds share. */
  lemma KindMarks(k: Kind, a: string)
    ensures var s := KindName(k) + ":" + a;
            match k
            case Ipv4 => |s| > 3 && s[0] == 'I' && s[3] == '4'
            case Ipv6 => |s| > 3 && s[0] == 'I' && s[3] == '6'
            case Domain => |s| > 0 && s[0] == 'D'
            case Url => |s| > 1 && s[0] == 'U' && s[1] == 'r'
            case HashMd5 => |s| > 9 && s[0] == 'S' && s[9] == 'M'
            case HashSha1 => |s| > 13 && s[0] == 'S' && s[9] == 'S' && s[13] == '1'
            case HashSha256 => |s| > 13 && s[0] == 'S' && s[9] == 'S' && s[13] == '2'
            case Unknown => |s| > 1 && s[0] == 'U' && s[1] == 'n'
  {
  }

  lemma FetchFinds(u: Upstream, v: Normalized)
    requires u.Available() && u.Sound()
    ensures Fetch(u, v).Value? && (Found(Fetch(u, v).payload) <==> u.Hit(v))
  {
    assert u.ask(v.value, v.kind).Ok? && u.ask(u.FallbackHost(v), Domain).Ok?;
    if u.Holds(v.value, v.kind) {
      assert Found(u.ask(v.value, v.kind).value.value);
    } else if u.FallbackHost(v) != "" && u.Holds(u.FallbackHost(v), Domain) {
      var p := u.ask(u.FallbackHost(v), Domain).value.value;
      assert Found(p);
      assert p["value" := v.value]["matched_value" := u.FallbackHost(v)]["found"] == p["found"];
    }
  }

  lemma GetAgrees(c: PC.Cache<Payload>, u: Upstream, now: real, k: string)
    requires c.Valid() && Agrees(c, u)
    ensures c.Get(now, k).0.Valid() && Agrees(c.Get(now, k).0, u)
  {
    var c' := c.Get(now, k).0;
    PC.GetStep(c, now, k, k);
    forall v: Normalized | PC.Lookup(c'.entries, u.Key(v)).Some?
      ensures Fetch(u, v) == SF.Value(PC.Lookup(c'.entries, u.Key(v)).value.payload)
    {
      PC.GetStep(c, now, k, u.Key(v));
    }
  }

  lemma SetAgrees(c: PC.Cache<Payload>, u: Upstream, now: real, w: Normalized, p: Payload)
    requires c.Valid() && Agrees(c, u) && Fetch(u, w) == SF.Value(p)
    ensures c.Set(now, u.Key(w), p).Valid() && Agrees(c.Set(now, u.Key(w), p), u)
  {
    var c' := c.Set(now, u.Key(w), p);
    PC.SetStep(c, now, u.Key(w), p, u.Key(w));
    forall v: Normalized | PC.Lookup(c'.entries, u.Key(v)).Some?
      ensures Fetch(u, v) == SF.Value(PC.Lookup(c'.entries, u.Key(v)).value.payload)
    {
      PC.SetStep(c, now, u.Key(w), p, u.Key(v));
      if u.Key(v) == u.Key(w) { KeyInjective(u, v, w); }
    }
  }

  /**
   With upstream available and the cache agreeing with it, a live lookup says found exactly when
   upstream knows the value, or the host of a URL when the fallback is on, and leaves the cache agreeing.
   A skipped value is a miss.
   */
  lemma LiveTellsTheTruth(c: PC.Cache<Payload>, u: Upstream, v: Normalized, asked: real, answered: real)
    requires c.Valid() && Agrees(c, u) && u.Available() && u.Sound()
    ensures var (c', r) := LiveLookup(c, u, v, asked, answered);
            && c'.Valid() && Agrees(c', u)
            && r.Ok? && (Found(r.value.payload) <==> v.Lookupable() && u.Hit(v))
            && (Found(r.value.payload)
                <==> && v.skipReason.None? && !v.kind.Unknown?
                     && (u.Holds(v.value, v.kind)
                         || (v.kind.Url? && u.fallback && u.hostOf(v.value) != ""
                             && u.Holds(u.hostOf(v.value), Domain))))
  {
    if v.Lookupable() {
      FetchFinds(u, v);
      GetAgrees(c, u, asked, u.Key(v));
      var (c', cached) := c.Get(asked, u.Key(v));
      if cached.None? { SetAgrees(c', u, answered, v, Fetch(u, v).payload); }
    }
  }

  /**
   A failure upstream is answered as degraded, or raised, and leaves no entry behind; degraded is never
   read back as found.
   */
  lemma {:induction false} FailuresAreNotCached(c: PC.Cache<Payload>, u: Upstream, v: Normalized, asked: real,
                                                answered: real, k: string)
    requires c.Valid() && v.Lookupable() && Fetch(u, v).Raised? && c.Get(asked, u.Key(v)).1.None?
    ensures var (c', r) := LiveLookup(c, u, v, asked, answered);
            && (PC.Lookup(c'.entries, k).Some? ==> PC.Lookup(c'.entries, k) == PC.Lookup(c.entries, k))
            && (r.Ok? ==> r.value.source.DegradedTier? && !Found(r.value.payload))
  {
    PC.GetStep(c, asked, u.Key(v), k);
  }

  /** A failed question is answered as degraded while upstream is out of reach or refuses, and raised otherwise. */
  predicate AnswersFailure(r: Result<LookupResult, SF.Error>, e: SF.Error) {
    match e
    case BreakerOpen => r == Ok(LookupResult(DEGRADED, DegradedTier))
    case OpenCti => r == Ok(LookupResult(DEGRADED, DegradedTier))
    case Cancelled => r == Err(e)
    case AnyOther => r == Err(e)
  }

  /**
   What a lookup that is not skipped or cached answers: the payload of the exact value as upstream gave it;
   for a URL without one, what its host brings; a miss when neither is known; and a failure as such.
   */
  lemma LiveAnswers(c: PC.Cache<Payload>, u: Upstream, v: Normalized, asked: real, answered: real)
    requires v.skipReason.None? && !v.kind.Unknown? && c.Get(asked, u.Key(v)).1.None?
    ensures var r := LiveLookup(c, u, v, asked, answered).1;
            match u.ask(v.value, v.kind)
            case Err(e) => AnswersFailure(r, e)
            case Ok(Some(p)) => r == Ok(LookupResult(p, OpenCtiTier))
            case Ok(None) =>
              if !v.kind.Url? || !u.fallback || u.hostOf(v.value) == "" then r == Ok(LookupResult(MISS, OpenCtiTier))
              else match u.ask(u.hostOf(v.value), Domain)
                case Err(e) => AnswersFailure(r, e)
                case Ok(Some(p)) => r == Ok(LookupResult(p["value" := v.value]["matched_value" := u.hostOf(v.value)],
                                                         OpenCtiTier))
                case Ok(None) => r == Ok(LookupResult(MISS, OpenCtiTier))
    ensures !Found(MISS) && !Found(DEGRADED) && MISS == map["found" := "false"]
    ensures DEGRADED == map["found" := "false", "degraded" := "true"]
  {
  }

  /** A lookup answered without upstream has the same answer whatever upstream would say. */
  lemma UpstreamNotAsked(c: PC.Cache<Payload>, u: Upstream, w: Upstream, v: Normalized, asked: real, answered: real)
    requires u.version == w.version
    requires v.skipReason.Some? || v.kind.Unknown? || c.Get(asked, u.Key(v)).1.Some?
    ensures LiveLookup(c, u, v, asked, answered) == LiveLookup(c, w, v, asked, answered)
    ensures v.skipReason.Some? || v.kind.Unknown? ==>
              LiveLookup(c, u, v, asked, answered) == (c, Ok(LookupResult(MISS, Skip)))
  {
  }

  /**
   What upstream answered, a miss included, is answered from the cache until it is due, whatever upstream says
   by then.
   */
  lemma AnsweredOnce(c: PC.Cache<Payload>, u: Upstream, w: Upstream, v: Normalized, asked: real, answered: real,
                     again: real, later: real)
    requires c.Valid() && v.Lookupable() && c.Get(asked, u.Key(v)).1.None? && Fetch(u, v).Value?
    requires u.version == w.version && again < answered + (if c.degraded then c.degradedTtl else c.ttl) as real
    ensures var (c', r) := LiveLookup(c, u, v, asked, answered);
            && r.Ok? && r.value.source.OpenCtiTier?
            && LiveLookup(c', w, v, again, later).1 == Ok(LookupResult(r.value.payload, PayloadCacheTier))
  {
    var k, p := u.Key(v), Fetch(u, v).payload;
    var c1 := c.Get(asked, k).0;
    PC.GetStep(c, asked, k, k);
    PC.SetStep(c1, answered, k, p, k);
  }

  /** Entries made under other settings are not read. */
  lemma VersionsDoNotMix(u: Upstream, w: Upstream, v: Normalized)
    requires u.Key(v) == w.Key(v)
    ensures u.version == w.version
  {
    hide Normalized.CacheKey;
    Grouped(u.version, ":", v.CacheKey());
    Grouped(w.version, ":", v.CacheKey());
    SameSuffix(u.version, w.version, ":" + v.CacheKey());
  }

  lemma SameSuffix(a: string, b: string, tail: string)
    requires a + tail == b + tail
    ensures a == b
  {
    assert |a| == |b| && (a + tail)[..|a|] == a && (b + tail)[..|b|] == b;
  }

  // --------------------------------------------------------------------- the split path

  /** Whether the membership tier lets a value through to the live path. */
  predicate PassedOn(m: Overlaid, hash: string -> Fp, u: Upstream, ready: bool, stale: bool, v: Normalized) {
    !ready || stale || m.Has(hash(v.value)) || (u.FallbackHost(v) != "" && m.Has(hash(u.FallbackHost(v))))
  }

  function SplitLookup(m: Overlaid, hash: string -> Fp, ready: bool, stale: bool,
                       c: PC.Cache<Payload>, u: Upstream, v: Normalized, asked: real, answered: real)
    : (PC.Cache<Payload>, Result<LookupResult, SF.Error>)
  {
    if !v.Lookupable() then (c, Ok(LookupResult(MISS, Skip)))
    else if PassedOn(m, hash, u, ready, stale, v) then LiveLookup(c, u, v, asked, answered)
    else (c, Ok(LookupResult(MISS, MembershipTier)))
  }

  /** Until the set is ready, and while it is stale, every lookup is the live one, whatever the set holds. */
  lemma NotReadyIsLive(m: Overlaid, hash: string -> Fp, ready: bool, stale: bool,
                       c: PC.Cache<Payload>, u: Upstream, v: Normalized, asked: real, answered: real)
    requires !ready || stale
    ensures SplitLookup(m, hash, ready, stale, c, u, v, asked, answered) == LiveLookup(c, u, v, asked, answered)
  {
  }

  /** So a cold start, or a lost stream, changes no verdict: nothing is asked of the set. */
  lemma ColdStartTellsTheTruth(m: Overlaid, hash: string -> Fp, ready: bool, stale: bool,
                               c: PC.Cache<Payload>, u: Upstream, v: Normalized, asked: real, answered: real)
    requires c.Valid() && Agrees(c, u) && u.Available() && u.Sound() && (!ready || stale)
    ensures var (c', r) := SplitLookup(m, hash, ready, stale, c, u, v, asked, answered);
            && c'.Valid() && Agrees(c', u)
            && r.Ok? && (Found(r.value.payload) <==> v.Lookupable() && u.Hit(v))
  {
    NotReadyIsLive(m, hash, ready, stale, c, u, v, asked, answered);
    LiveTellsTheTruth(c, u, v, asked, answered);
  }

  /**
   Ready and fresh, a lookup that is not skipped goes on to the live path exactly when the set has the value's
   key or, for a URL with the fallback on, its host's; otherwise it is a miss, and the cache is left alone.
   */
  lemma ReadyRoutes(m: Overlaid, hash: string -> Fp, c: PC.Cache<Payload>, u: Upstream, v: Normalized,
                    asked: real, answered: real)
    ensures SplitLookup(m, hash, true, false, c, u, v, asked, answered)
            == if v.skipReason.Some? || v.kind.Unknown? then (c, Ok(LookupResult(MISS, Skip)))
               else if m.Has(hash(v.value)) || (v.kind.Url? && u.fallback && u.hostOf(v.value) != ""
                                                && m.Has(hash(u.hostOf(v.value))))
               then LiveLookup(c, u, v, asked, answered)
               else (c, Ok(LookupResult(MISS, MembershipTier)))
  {
  }

  /** The set holds the key of everything upstream would find for v: its exact value and its fallback host. */
  ghost predicate Covers(m: Overlaid, hash: string -> Fp, u: Upstream, v: Normalized) {
    && (u.Holds(v.value, v.kind) ==> m.Has(hash(v.value)))
    && (u.FallbackHost(v) != "" && u.Holds(u.FallbackHost(v), Domain) ==> m.Has(hash(u.FallbackHost(v))))
  }

  /**
   The pre-filter never changes a verdict: when the set covers what upstream would find, the split
   lookup says found exactly when the live one does, for every value and every ready or stale flag.
   */
  lemma SplitAgreesWithLive(m: Overlaid, hash: string -> Fp, ready: bool, stale: bool,
                            c: PC.Cache<Payload>, u: Upstream, v: Normalized, asked: real, answered: real)
    requires c.Valid() && Agrees(c, u) && u.Available() && u.Sound() && Covers(m, hash, u, v)
    ensures var (c1, split) := SplitLookup(m, hash, ready, stale, c, u, v, asked, answered);
            var live := LiveLookup(c, u, v, asked, answered).1;
            && c1.Valid() && Agrees(c1, u)
            && split.Ok? && live.Ok? && (Found(split.value.payload) <==> Found(live.value.payload))
  {
    LiveTellsTheTruth(c, u, v, asked, answered);
  }

  /** Without cover the verdicts part exactly where the tier dismisses a value upstream would find. */
  lemma SplitDisagreesIff(m: Overlaid, hash: string -> Fp, ready: bool, stale: bool,
                          c: PC.Cache<Payload>, u: Upstream, v: Normalized, asked: real, answered: real)
    requires c.Valid() && Agrees(c, u) && u.Available() && u.Sound() && v.Lookupable()
    ensures Found(SplitLookup(m, hash, ready, stale, c, u, v, asked, answered).1.value.payload)
            != Found(LiveLookup(c, u, v, asked, answered).1.value.payload)
            <==> u.Hit(v) && !PassedOn(m, hash, u, ready, stale, v)
  {
    LiveTellsTheTruth(c, u, v, asked, answered);
  }

  /**
   A URL answered through its host says so: the URL itself as the value, the host as what matched, the
   rest untouched.
   */
  lemma FallbackSaysWhatMatched(u: Upstream, v: Normalized, field: string)
    requires u.Available() && !u.Holds(v.value, v.kind) && u.FallbackHost(v) != "" && u.Holds(u.FallbackHost(v), Domain)
    ensures Fetch(u, v).Value?
    ensures var p, host := Fetch(u, v).payload, u.ask(u.FallbackHost(v), Domain).value.value;
            && "value" in p && p["value"] == v.value && "matched_value" in p && p["matched_value"] == u.FallbackHost(v)
            && (field != "value" && field != "matched_value" ==>
                  (field in p <==> field in host) && (field in p ==> p[field] == host[field]))
  {
    assert u.ask(v.value, v.kind).Ok?;
  }
}
