/** Dividing the machine's memory between the shared set and each worker's payload cache. */
module Budget {
  import opened Wrappers
  import PC = PayloadCaching

  const MB: int := 1024 * 1024
  const ITEM_SIZE := 8

  function Min(a: int, b: int): int {
    if a <= b then a else b
  }

  function Portion(bytes: int, fraction: real): real {
    bytes as real * fraction
  }

  /** detect, over the readings of the cgroup and the host: the limit, the usable bytes, and the share of a worker. */
  datatype Detected = Detected(limit: int, usable: int, perWorker: int)

  function Detect(cgroup: Option<int>, host: int, workers: int, fraction: real, reserve: int, override: Option<int>)
    : Detected
  {
    var limit := if cgroup.Some? && cgroup.value < host then cgroup.value else host;
    var wanted := if override.Some? then override.value else PC.Max(0, Truncated(Portion(limit - reserve, fraction)));
    var usable := Min(wanted, PC.Max(0, limit - reserve));
    Detected(limit, usable, usable / PC.Max(1, workers))
  }

  /** int() of a float drops the fraction towards zero. */
  function Truncated(x: real): int {
    if x >= 0.0 then x.Floor else -((-x).Floor)
  }

  /** The binding limit is the smaller one, and the reserve is never handed out, override or not. */
  lemma ReserveIsKept(cgroup: Option<int>, host: int, workers: int, fraction: real, reserve: int, override: Option<int>)
    ensures var d := Detect(cgroup, host, workers, fraction, reserve, override);
            && d.limit <= host && (cgroup.Some? ==> d.limit <= cgroup.value)
            && (d.limit == host || cgroup == Some(d.limit))
            && d.usable <= PC.Max(0, d.limit - reserve)
            && (override.None? ==> 0 <= d.usable) && (override.Some? ==> d.usable <= override.value)
            && (override.None? && 0.0 <= fraction <= 1.0 && reserve <= d.limit ==>
                  d.usable as real <= (d.limit - reserve) as real * fraction)
            && d.perWorker * PC.Max(1, workers) <= d.usable
  {
    var d := Detect(cgroup, host, workers, fraction, reserve, override);
    ShareFits(d.usable, PC.Max(1, workers));
    if 0.0 <= fraction && reserve <= d.limit { NonNegative((d.limit - reserve) as real, fraction); }
  }

  /**
   And nothing else is held back: without an override the usable bytes are the whole bytes of the fraction of
   what the reserve leaves; with one they are the override or, if less, what the reserve leaves.
   */
  lemma NothingIsWasted(cgroup: Option<int>, host: int, workers: int, fraction: real, reserve: int,
                        override: Option<int>)
    requires 0.0 <= fraction <= 1.0
    ensures var d := Detect(cgroup, host, workers, fraction, reserve, override);
            && (override.None? && reserve <= d.limit ==>
                  d.usable as real <= (d.limit - reserve) as real * fraction < (d.usable + 1) as real)
            && (override.None? && reserve > d.limit ==> d.usable == 0)
            && (override.Some? && reserve <= d.limit && override.value <= d.limit - reserve ==>
                  d.usable == override.value)
            && (override.Some? && reserve <= d.limit && override.value > d.limit - reserve ==>
                  d.usable == d.limit - reserve)
  {
    hide *;
    var d := Detect(cgroup, host, workers, fraction, reserve, override);
    PortionIs(d.limit - reserve, fraction);
    WholePortion(cgroup, host, workers, fraction, reserve, override, Portion(d.limit - reserve, fraction));
  }

  lemma WholePortion(cgroup: Option<int>, host: int, workers: int, fraction: real, reserve: int,
                     override: Option<int>, x: real)
    requires 0.0 <= fraction <= 1.0
    requires x == Portion(Detect(cgroup, host, workers, fraction, reserve, override).limit - reserve, fraction)
    ensures var d := Detect(cgroup, host, workers, fraction, reserve, override);
            && (override.None? && reserve <= d.limit ==> d.usable as real <= x < (d.usable + 1) as real)
            && (override.None? && reserve > d.limit ==> d.usable == 0)
            && (override.Some? && reserve <= d.limit ==>
                  d.usable == if override.value <= d.limit - reserve then override.value else d.limit - reserve)
  {
    hide Min, Truncated, Portion;
    var d := Detect(cgroup, host, workers, fraction, reserve, override);
    PortionFits(d.limit - reserve, fraction, x);
    UsableIs(d.limit - reserve, x, override, d.usable);
  }

  lemma PortionIs(bytes: int, fraction: real)
    ensures Portion(bytes, fraction) == bytes as real * fraction
  {
  }

  lemma PortionFits(room: int, fraction: real, x: real)
    requires 0.0 <= fraction <= 1.0 && x == Portion(room, fraction)
    ensures if room >= 0 then 0.0 <= x <= room as real else x <= 0.0
  {
    if room >= 0 {
      NonNegative(room as real, fraction);
      AtMostWhole(room as real, fraction);
    } else {
      NonPositive(room as real, fraction);
    }
  }

  lemma UsableIs(room: int, x: real, override: Option<int>, usable: int)
    requires if room >= 0 then 0.0 <= x <= room as real else x <= 0.0
    requires usable == Min(if override.Some? then override.value else PC.Max(0, Truncated(x)), PC.Max(0, room))
    ensures override.None? && room >= 0 ==> usable as real <= x < (usable + 1) as real
    ensures override.None? && room < 0 ==> usable == 0
    ensures override.Some? && room >= 0 ==> usable == if override.value <= room then override.value else room
  {
  }

  lemma AtMostWhole(x: real, y: real)
    requires x >= 0.0 && 0.0 <= y <= 1.0
    ensures x * y <= x
  {
    NonNegative(x, 1.0 - y);
    assert x * (1.0 - y) == x - x * y;
  }

  lemma NonPositive(x: real, y: real)
    requires x <= 0.0 && y >= 0.0
    ensures x * y <= 0.0
  {
    NonNegative(-x, y);
  }

  /** No worker could be given a byte more. */
  lemma SharesAreWhole(cgroup: Option<int>, host: int, workers: int, fraction: real, reserve: int,
                       override: Option<int>)
    requires workers >= 1
    ensures var d := Detect(cgroup, host, workers, fraction, reserve, override);
            d.perWorker * workers <= d.usable < (d.perWorker + 1) * workers
  {
    hide Truncated, Min;
    ShareFills(Detect(cgroup, host, workers, fraction, reserve, override).usable, workers);
  }

  lemma ShareFills(total: int, n: int)
    requires n >= 1
    ensures total / n * n <= total < (total / n + 1) * n
  {
  }

  lemma NonNegative(x: real, y: real)
    requires x >= 0.0 && y >= 0.0
    ensures x * y >= 0.0
  {
  }

  lemma ShareFits(total: int, n: int)
    requires n >= 1
    ensures total / n * n <= total
  {
  }

  /** The payload budget of one worker: as set, or a quarter of its share and at least 8 MB. */
  function PayloadBytes(d: Detected, explicitMb: Option<int>): int {
    if explicitMb.Some? then explicitMb.value * MB else PC.Max(8 * MB, d.perWorker / 4)
  }

  function MembershipBytes(d: Detected, payload: int, workers: int): int {
    PC.Max(0, d.usable - payload * workers)
  }

  /** The cap a load works under; a budget of less than one entry means none. */
  function MaxEntries(membership: int): Option<nat> {
    if membership / ITEM_SIZE <= 0 then None else Some(membership / ITEM_SIZE)
  }

  /** What one worker's cache accounts for when full: its ceiling times the size it takes an entry to have. */
  function Ceiling(payload: int, entryBytes: int): int {
    PC.Max(1, payload / PC.Max(1, entryBytes)) * PC.Max(1, entryBytes)
  }

  /** With automatic sizing and 8 MB for each worker, the caches leave a membership budget that makes up the rest. */
  lemma AutomaticSizingFits(d: Detected, workers: int)
    requires workers >= 1 && d.usable >= 8 * MB * workers && d.perWorker == d.usable / workers
    ensures var payload := PayloadBytes(d, None);
            payload * workers <= d.usable && MembershipBytes(d, payload, workers) + payload * workers == d.usable
  {
    var payload := PayloadBytes(d, None);
    if payload == 8 * MB {
      assert payload * workers == 8 * MB * workers;
    } else {
      QuarterFits(d.usable, workers, d.perWorker, payload);
    }
  }

  /** The sizes in bytes: 8 MB or a quarter of the share, whichever is more, unless set; the rest is the set's. */
  lemma SizesAre(d: Detected, workers: int, mb: int)
    ensures PayloadBytes(d, Some(mb)) == mb * 1048576
    ensures d.perWorker <= 33554432 ==> PayloadBytes(d, None) == 8388608
    ensures d.perWorker > 33554432 ==> PayloadBytes(d, None) * 4 <= d.perWorker < (PayloadBytes(d, None) + 1) * 4
    ensures forall payload :: payload * workers <= d.usable ==>
              MembershipBytes(d, payload, workers) + payload * workers == d.usable
    ensures forall payload :: payload * workers > d.usable ==> MembershipBytes(d, payload, workers) == 0
  {
  }

  lemma QuarterFits(usable: int, workers: int, share: int, payload: int)
    requires workers >= 1 && share == usable / workers && payload == share / 4 && payload >= 0
    ensures payload * workers <= usable
  {
    ShareFits(usable, workers);
    Scale(payload, share, workers);
  }

  lemma Scale(a: int, b: int, n: int)
    requires a <= b && n >= 0
    ensures a * n <= b * n
  {
  }

  /**
   Packed bytes and the full caches of all workers stay within what is usable, for every load the cap
   allows, exactly when an entry fits the payload budget, or overshoots it by no more than the bytes
   left over after the last packed entry.
   */
  lemma ConservationIff(d: Detected, payload: int, workers: int, entryBytes: int)
    requires workers >= 1 && payload >= 0 && MembershipBytes(d, payload, workers) >= ITEM_SIZE
    ensures var m, size := MembershipBytes(d, payload, workers), PC.Max(1, entryBytes);
            Fits(d, m, payload, workers, entryBytes)
            <==> size <= payload || (size - payload) * workers <= m % ITEM_SIZE
  {
    var m, size := MembershipBytes(d, payload, workers), PC.Max(1, entryBytes);
    var full := m / ITEM_SIZE;
    CeilingIs(payload, entryBytes);
    var ceiling := Ceiling(payload, entryBytes);
    Products(ceiling, payload, workers);
    assert full * ITEM_SIZE + ceiling * workers <= d.usable <==> (ceiling - payload) * workers <= m % ITEM_SIZE;
    if full * ITEM_SIZE + ceiling * workers <= d.usable {
      forall packed: nat | packed <= MaxEntries(m).value ensures packed * ITEM_SIZE + ceiling * workers <= d.usable {
      }
    } else {
      assert full <= MaxEntries(m).value;
    }
    if size <= payload { Scale(ceiling - payload, 0, workers); }
  }

  /** Every number of entries the cap allows, beside full caches, is within what is usable. */
  ghost predicate Fits(d: Detected, membership: int, payload: int, workers: int, entryBytes: int) {
    MaxEntries(membership).Some?
    && forall packed: nat :: packed <= MaxEntries(membership).value ==>
         packed * ITEM_SIZE + Ceiling(payload, entryBytes) * workers <= d.usable
  }

  lemma CeilingIs(payload: int, entryBytes: int)
    requires payload >= 0
    ensures var size := PC.Max(1, entryBytes);
            if size <= payload then Ceiling(payload, entryBytes) <= payload else Ceiling(payload, entryBytes) == size
  {
    var size := PC.Max(1, entryBytes);
    ShareFits(payload, size);
    if size > payload { assert payload / size == 0; }
  }

  lemma Products(a: int, b: int, n: int)
    ensures (a - b) * n == a * n - b * n
  {
  }

  // ------------------------------------------------------------------------- over whole runs

  function Held<P>(caches: seq<PC.Cache<P>>, size: int): int {
    if caches == [] then 0 else Held(caches[..|caches| - 1], size) + |caches[|caches| - 1].entries| * size
  }

  lemma {:induction false} HeldBound<P>(caches: seq<PC.Cache<P>>, size: int, most: nat)
    requires size >= 1 && forall i :: 0 <= i < |caches| ==> |caches[i].entries| <= most
    ensures Held(caches, size) <= most * size * |caches|
  {
    if caches != [] {
      HeldBound(caches[..|caches| - 1], size, most);
      Scale(|caches[|caches| - 1].entries|, most, size);
      assert most * size * |caches| == most * size * (|caches| - 1) + most * size;
    }
  }

  /**
   Memory is conserved over every run: with automatic payload sizing and entries that fit the payload
   budget, what a capped load packs, and what the workers' caches hold after any operations, together
   stay within the usable bytes.
   */
  lemma MemoryIsConserved<P>(d: Detected, workers: nat, entryBytes: int, ttl: int, degradedTtl: int, start: real,
                             packed: nat, runs: seq<seq<PC.Op<P>>>, caches: seq<PC.Cache<P>>)
    requires workers >= 1 && d.usable >= 8 * MB * workers && d.perWorker == d.usable / workers
    requires PC.Max(1, entryBytes) <= PayloadBytes(d, None)
    requires MembershipBytes(d, PayloadBytes(d, None), workers) >= ITEM_SIZE
    requires packed <= MaxEntries(MembershipBytes(d, PayloadBytes(d, None), workers)).value
    requires |runs| == workers == |caches|
    requires forall i :: 0 <= i < workers ==> PC.Monotonic(start, runs[i])
    requires forall i :: 0 <= i < workers ==>
               caches[i] == PC.Run(PC.Empty(PayloadBytes(d, None), entryBytes, ttl, degradedTtl), runs[i])
    ensures packed * ITEM_SIZE + Held(caches, PC.Max(1, entryBytes)) <= d.usable
  {
    var payload, size := PayloadBytes(d, None), PC.Max(1, entryBytes);
    var empty := PC.Empty<P>(payload, entryBytes, ttl, degradedTtl);
    hide PC.Run, PC.Monotonic;
    forall i | 0 <= i < workers ensures |caches[i].entries| <= empty.maxEntries {
      PC.SizeIsBounded(empty, start, runs[i]);
    }
    HeldBound(caches, size, empty.maxEntries);
    ConservationIff(d, payload, workers, entryBytes);
    assert empty.maxEntries * size == Ceiling(payload, entryBytes);
  }

  /** The entry size has to fit: one byte more, and full caches overshoot by at least a byte for each worker. */
  lemma OversizedEntryOvershoots(workers: int)
    requires workers >= 1
    ensures var d := Detected(8 * MB * workers + 8, 8 * MB * workers + 8, (8 * MB * workers + 8) / workers);
            !Fits(d, 8, 8 * MB, workers, 8 * MB + 1)
  {
    var d := Detected(8 * MB * workers + 8, 8 * MB * workers + 8, (8 * MB * workers + 8) / workers);
    var one: nat := 1;
    CeilingIs(8 * MB, 8 * MB + 1);
    Products(8 * MB + 1, 8 * MB, workers);
    assert one <= MaxEntries(8).value && one * ITEM_SIZE + Ceiling(8 * MB, 8 * MB + 1) * workers > d.usable;
  }

  /** A budget of less than one entry lifts the cap instead of tightening it. */
  lemma TinyBudgetIsUncapped(membership: int)
    requires membership >= 0
    ensures MaxEntries(membership).None? <==> membership < 8
    ensures MaxEntries(membership).Some? ==>
              MaxEntries(membership).value * 8 <= membership < (MaxEntries(membership).value + 1) * 8
  {
  }
}
