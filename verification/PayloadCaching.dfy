/** The payload cache: least recently used first out, with deadlines. */
module PayloadCaching {
  import opened Wrappers

  datatype Entry<P> = Entry(key: string, payload: P, deadline: real)

  function Keys<P>(es: seq<Entry<P>>): set<string> {
    set i | 0 <= i < |es| :: es[i].key
  }

  ghost predicate Distinct<P>(es: seq<Entry<P>>) {
    forall i, j :: 0 <= i < j < |es| ==> es[i].key != es[j].key
  }

  function Lookup<P>(es: seq<Entry<P>>, k: string): (r: Option<Entry<P>>)
    ensures r.Some? <==> k in Keys(es)
    ensures r.Some? ==> r.value in es && r.value.key == k
  {
    if es == [] then None else if es[0].key == k then Some(es[0]) else Lookup(es[1..], k)
  }

  function Without<P>(es: seq<Entry<P>>, k: string): seq<Entry<P>> {
    if es == [] then [] else if es[0].key == k then es[1..] else [es[0]] + Without(es[1..], k)
  }

  /** The keys more recently used than k. */
  function After<P>(es: seq<Entry<P>>, k: string): set<string> {
    if es == [] then {} else if es[0].key == k then Keys(es[1..]) else After(es[1..], k)
  }

  function Max(a: int, b: int): int {
    if a >= b then a else b
  }

  /** The state of a cache, oldest use first. */
  datatype Cache<P> = Cache(entries: seq<Entry<P>>, degraded: bool, hits: nat, misses: nat, evictions: nat,
                            expirations: nat,
                            maxEntries: nat, ttl: int, degradedTtl: int)
  {
    ghost predicate Valid() {
      Distinct(entries) && |entries| <= maxEntries && maxEntries >= 1
    }

    function Ttl(): int {
      if degraded then degradedTtl else ttl
    }

    predicate Hits(now: real, k: string) {
      Lookup(entries, k).Some? && now < Lookup(entries, k).value.deadline
    }

    function Get(now: real, k: string): (Cache<P>, Option<P>) {
      var e := Lookup(entries, k);
      if e.None? then (this.(misses := misses + 1), None)
      else if e.value.deadline <= now then
        (this.(entries := Without(entries, k), expirations := expirations + 1, misses := misses + 1), None)
      else (this.(entries := Without(entries, k) + [e.value], hits := hits + 1), Some(e.value.payload))
    }

    function Set(now: real, k: string, p: P): Cache<P> {
      var es := Without(entries, k) + [Entry(k, p, now + Ttl() as real)];
      if |es| > maxEntries then this.(entries := es[1..], evictions := evictions + 1) else this.(entries := es)
    }

    function Do(op: Op<P>): Cache<P> {
      match op
      case Get(now, k) => Get(now, k).0
      case Set(now, k, p) => Set(now, k, p)
      case Invalidate(k) => this.(entries := Without(entries, k))
      case Clear => this.(entries := [])
      case SetDegraded(d) => this.(degraded := d)
    }
  }

  datatype Op<P> = Get(now: real, key: string) | Set(now: real, key: string, payload: P)
                 | Invalidate(key: string) | Clear | SetDegraded(flag: bool)

  /** A new cache: its ceiling is the byte budget over the entry size, and at least one. */
  function Empty<P>(budget: int, entryBytes: int, ttl: int, degradedTtl: int): (c: Cache<P>)
    ensures c.Valid() && c.entries == [] && !c.degraded && c.ttl == ttl && c.degradedTtl == degradedTtl
    ensures c.hits == c.misses == c.evictions == c.expirations == 0
    ensures c.maxEntries * Max(1, entryBytes) <= Max(budget, Max(1, entryBytes))
    ensures budget < (c.maxEntries + 1) * Max(1, entryBytes)
  {
    var size := Max(1, entryBytes);
    var n := Max(1, budget / size);
    assert budget >= size ==> budget / size * size <= budget;
    assert budget < (budget / size + 1) * size;
    assert (budget / size + 1) * size <= (n + 1) * size;
    Cache([], false, 0, 0, 0, 0, n, ttl, degradedTtl)
  }

  // --------------------------------------------------------------------------- the lists

  lemma {:induction false} WithoutMeans<P>(es: seq<Entry<P>>, k: string)
    requires Distinct(es)
    ensures Distinct(Without(es, k)) && Keys(Without(es, k)) == Keys(es) - {k}
    ensures |Without(es, k)| == |es| - if k in Keys(es) then 1 else 0
  {
    if es != [] {
      WithoutMeans(es[1..], k);
      KeysHead(es);
      if es[0].key != k { KeysHead([es[0]] + Without(es[1..], k)); DistinctHead(es[0], Without(es[1..], k)); }
    }
  }

  lemma KeysHead<P>(es: seq<Entry<P>>)
    requires es != []
    ensures Keys(es) == {es[0].key} + Keys(es[1..])
    ensures Distinct(es) ==> es[0].key !in Keys(es[1..])
  {
    forall x | x in Keys(es) ensures x in {es[0].key} + Keys(es[1..]) {
      var i :| 0 <= i < |es| && es[i].key == x;
      if i > 0 { assert es[1..][i - 1].key == x; }
    }
    forall x | x in Keys(es[1..]) ensures x in Keys(es) {
      var i :| 0 <= i < |es[1..]| && es[1..][i].key == x;
      assert es[i + 1].key == x;
    }
  }

  lemma DistinctHead<P>(e: Entry<P>, es: seq<Entry<P>>)
    requires Distinct(es) && e.key !in Keys(es)
    ensures Distinct([e] + es)
  {
  }

  lemma KeysLast<P>(es: seq<Entry<P>>, e: Entry<P>)
    ensures Keys(es + [e]) == Keys(es) + {e.key}
    ensures Distinct(es) && e.key !in Keys(es) ==> Distinct(es + [e])
  {
    assert (es + [e])[|es|] == e;
    forall x | x in Keys(es) ensures x in Keys(es + [e]) {
      var i :| 0 <= i < |es| && es[i].key == x;
      assert (es + [e])[i].key == x;
    }
  }

  lemma {:induction false} KeysCount<P>(es: seq<Entry<P>>)
    requires Distinct(es)
    ensures |Keys(es)| == |es|
  {
    if es != [] {
      KeysHead(es);
      KeysCount(es[1..]);
    }
  }

  lemma {:induction false} LookupLast<P>(es: seq<Entry<P>>, e: Entry<P>, k: string)
    requires e.key !in Keys(es)
    ensures Lookup(es + [e], k) == if k == e.key then Some(e) else Lookup(es, k)
    ensures k in Keys(es) ==> After(es + [e], k) == After(es, k) + {e.key}
    ensures k == e.key ==> After(es + [e], k) == {}
  {
    if es == [] {
      assert es + [e] == [e] && [e][1..] == [];
    } else {
      KeysHead(es);
      assert (es + [e])[0] == es[0] && (es + [e])[1..] == es[1..] + [e];
      LookupLast(es[1..], e, k);
      KeysLast(es[1..], e);
    }
  }

  lemma {:induction false} LookupWithout<P>(es: seq<Entry<P>>, gone: string, k: string)
    requires Distinct(es) && k != gone
    ensures Lookup(Without(es, gone), k) == Lookup(es, k)
    ensures After(Without(es, gone), k) == After(es, k) - {gone}
  {
    if es != [] {
      LookupWithout(es[1..], gone, k);
      WithoutMeans(es[1..], gone);
      KeysHead(es);
      if es[0].key == gone {
        AfterWithin(es[1..], k);
      } else {
        assert ([es[0]] + Without(es[1..], gone))[1..] == Without(es[1..], gone);
      }
    }
  }

  lemma {:induction false} AfterWithin<P>(es: seq<Entry<P>>, k: string)
    ensures After(es, k) <= Keys(es)
  {
    if es != [] {
      KeysHead(es);
      AfterWithin(es[1..], k);
    }
  }

  /** Dropping the oldest entry leaves every other key as it was. */
  lemma {:induction false} LookupTail<P>(es: seq<Entry<P>>, k: string)
    requires es != [] && Distinct(es)
    ensures Distinct(es[1..])
    ensures k != es[0].key ==> Lookup(es[1..], k) == Lookup(es, k) && After(es[1..], k) == After(es, k)
    ensures k == es[0].key ==> k !in Keys(es[1..]) && |After(es, k)| == |es| - 1
  {
    KeysHead(es);
    KeysCount(es[1..]);
  }

  // ------------------------------------------------------------------ one step, seen from one key

  /** What a step does to one key: its entry, and the keys used since. */
  lemma {:induction false} GetStep<P>(c: Cache<P>, now: real, g: string, k: string)
    requires c.Valid()
    ensures var es := c.Get(now, g).0.entries;
            && c.Get(now, g).0.Valid()
            && Lookup(es, k) == (if g == k && Lookup(c.entries, k).Some? && !c.Hits(now, k) then None
                                 else Lookup(c.entries, k))
            && (Lookup(es, k).Some? ==>
                  After(es, k) <= if !c.Hits(now, g) then After(c.entries, k)
                                  else if g == k then {} else After(c.entries, k) + {g})
  {
    var e := Lookup(c.entries, g);
    WithoutMeans(c.entries, g);
    if g != k { LookupWithout(c.entries, g, k); }
    if c.Hits(now, g) {
      KeysLast(Without(c.entries, g), e.value);
      LookupLast(Without(c.entries, g), e.value, k);
    }
  }

  /** The list a set makes before any eviction. */
  lemma {:induction false} Placed<P>(es: seq<Entry<P>>, e: Entry<P>, k: string)
    requires Distinct(es)
    ensures var placed := Without(es, e.key) + [e];
            && Distinct(placed) && |placed| <= |es| + 1 && Lookup(placed, e.key) == Some(e)
            && (k == e.key ==> After(placed, k) == {})
            && (k != e.key ==> Lookup(placed, k) == Lookup(es, k))
            && (k != e.key && k in Keys(es) ==> After(placed, k) <= After(es, k) + {e.key})
  {
    var rest := Without(es, e.key);
    WithoutMeans(es, e.key);
    if e.key != k { LookupWithout(es, e.key, k); }
    KeysLast(rest, e);
    LookupLast(rest, e, k);
    LookupLast(rest, e, e.key);
  }

  /** What a set of e does, seen from key k. */
  ghost predicate SetSeen<P>(before: seq<Entry<P>>, now: seq<Entry<P>>, e: Entry<P>, k: string, most: nat) {
    if e.key == k then Lookup(now, k) == Some(e) && After(now, k) == {}
    else if Lookup(now, k).Some? then Lookup(now, k) == Lookup(before, k) && After(now, k) <= After(before, k) + {e.key}
    else Lookup(before, k).Some? ==> |After(before, k) + {e.key}| >= most
  }

  lemma {:induction false} SetStep<P>(c: Cache<P>, now: real, g: string, p: P, k: string)
    requires c.Valid()
    ensures c.Set(now, g, p).Valid()
    ensures SetSeen(c.entries, c.Set(now, g, p).entries, Entry(g, p, now + c.Ttl() as real), k, c.maxEntries)
  {
    var e := Entry(g, p, now + c.Ttl() as real);
    Placed(c.entries, e, k);
    Evicting(c.entries, Without(c.entries, g) + [e], e, k, c.maxEntries);
  }

  lemma {:induction false} Evicting<P>(before: seq<Entry<P>>, placed: seq<Entry<P>>, e: Entry<P>, k: string, most: nat)
    requires Distinct(placed) && |before| <= most && most >= 1 && |placed| <= |before| + 1
    requires placed != [] && placed[|placed| - 1] == e && Lookup(placed, e.key) == Some(e)
    requires k == e.key ==> After(placed, k) == {}
    requires k != e.key ==> Lookup(placed, k) == Lookup(before, k)
    requires k != e.key && Lookup(before, k).Some? ==> After(placed, k) <= After(before, k) + {e.key}
    ensures var now := if |placed| > most then placed[1..] else placed;
            Distinct(now) && |now| <= most && SetSeen(before, now, e, k, most)
  {
    hide Keys, Without, After, Lookup, Distinct;
    if |placed| > most {
      LookupTail(placed, k);
      LookupTail(placed, e.key);
      assert placed[0].key != e.key by { FirstIsNotLast(placed); }
      if k != e.key && Lookup(before, k).Some? && placed[0].key == k {
        SubsetSize(After(placed, k), After(before, k) + {e.key});
      }
    }
  }

  lemma {:induction false} FirstIsNotLast<P>(es: seq<Entry<P>>)
    requires Distinct(es) && |es| >= 2
    ensures es[0].key != es[|es| - 1].key
  {
  }

  lemma {:induction false} SubsetSize<T>(a: set<T>, b: set<T>)
    requires a <= b
    ensures |a| <= |b|
  {
    if a != {} {
      var x :| x in a;
      SubsetSize(a - {x}, b - {x});
    }
  }

  // ------------------------------------------------------------------------------ whole runs

  function Run<P>(c: Cache<P>, ops: seq<Op<P>>): Cache<P> {
    if ops == [] then c else Run(c, ops[..|ops| - 1]).Do(ops[|ops| - 1])
  }

  predicate Timed<P>(op: Op<P>) {
    op.Get? || op.Set?
  }

  function LastTime<P>(start: real, ops: seq<Op<P>>): real {
    if ops == [] then start
    else if Timed(ops[|ops| - 1]) then ops[|ops| - 1].now
    else LastTime(start, ops[..|ops| - 1])
  }

  /** The monotonic clock never goes back. */
  predicate Monotonic<P>(start: real, ops: seq<Op<P>>) {
    ops == []
    || (Monotonic(start, ops[..|ops| - 1])
        && (Timed(ops[|ops| - 1]) ==> LastTime(start, ops[..|ops| - 1]) <= ops[|ops| - 1].now))
  }

  function DegradedAfter<P>(flag: bool, ops: seq<Op<P>>): bool {
    if ops == [] then flag
    else if ops[|ops| - 1].SetDegraded? then ops[|ops| - 1].flag
    else DegradedAfter(flag, ops[..|ops| - 1])
  }

  function NextLast<P>(ttl: int, op: Op<P>, k: string, last: Option<(P, real)>): Option<(P, real)> {
    if op.Set? && op.key == k then Some((op.payload, op.now + ttl as real))
    else if op.Clear? || (op.Invalidate? && op.key == k) then None
    else last
  }

  /** The payload last set for k and its deadline, unless k was invalidated or the cache cleared since. */
  function LastSet<P>(c: Cache<P>, ops: seq<Op<P>>, k: string): Option<(P, real)> {
    if ops == [] then None
    else
      var init := ops[..|ops| - 1];
      NextLast(if DegradedAfter(c.degraded, init) then c.degradedTtl else c.ttl, ops[|ops| - 1], k, LastSet(c, init, k))
  }

  function NextOthers<P>(s: Cache<P>, op: Op<P>, k: string, others: set<string>): set<string> {
    if op.Set? || (op.Get? && s.Hits(op.now, op.key)) then if op.key == k then {} else others + {op.key}
    else others
  }

  /** The distinct other keys set or hit since k was last set or hit. */
  function OthersSince<P>(c: Cache<P>, ops: seq<Op<P>>, k: string): set<string> {
    if ops == [] then {}
    else
      var init := ops[..|ops| - 1];
      NextOthers(Run(c, init), ops[|ops| - 1], k, OthersSince(c, init, k))
  }

  /**
   How a state stands to its history, seen from one key: last is the payload last set and its deadline,
   others the keys used since, time the last reading of the clock.
   */
  ghost predicate Explained<P>(s: Cache<P>, k: string, last: Option<(P, real)>, others: set<string>, time: real) {
    var e := Lookup(s.entries, k);
    && s.Valid()
    && (e.Some? ==> last == Some((e.value.payload, e.value.deadline)) && After(s.entries, k) <= others)
    && (e.None? && last.Some? ==> last.value.1 <= time || |others| >= s.maxEntries)
  }

  lemma GetExplained<P>(s: Cache<P>, now: real, g: string, k: string, last: Option<(P, real)>, others: set<string>,
                        time: real)
    requires Explained(s, k, last, others, time) && time <= now
    ensures Explained(s.Get(now, g).0, k, last, NextOthers(s, Op.Get(now, g), k, others), now)
  {
    GetStep(s, now, g, k);
    SubsetSize(others, others + {g});
  }

  lemma SetExplained<P>(s: Cache<P>, now: real, g: string, p: P, k: string, last: Option<(P, real)>,
                        others: set<string>, time: real)
    requires Explained(s, k, last, others, time) && time <= now
    ensures Explained(s.Set(now, g, p), k, if g == k then Some((p, now + s.Ttl() as real)) else last,
                      if g == k then {} else others + {g}, now)
  {
    SetStep(s, now, g, p, k);
    hide Keys, Without, After, Lookup;
    SubsetSize(others, others + {g});
    if Lookup(s.entries, k).Some? { SubsetSize(After(s.entries, k) + {g}, others + {g}); }
  }

  lemma InvalidateExplained<P>(s: Cache<P>, g: string, k: string, last: Option<(P, real)>, others: set<string>,
                               time: real)
    requires Explained(s, k, last, others, time)
    ensures Explained(s.Do(Invalidate(g)), k, if g == k then None else last, others, time)
  {
    WithoutMeans(s.entries, g);
    if g != k { LookupWithout(s.entries, g, k); }
  }

  /** Settings never change over a run, and the flag is the last one set. */
  lemma {:induction false} RunSettings<P>(c: Cache<P>, ops: seq<Op<P>>)
    ensures var s := Run(c, ops);
            && s.maxEntries == c.maxEntries && s.ttl == c.ttl && s.degradedTtl == c.degradedTtl
            && s.degraded == DegradedAfter(c.degraded, ops)
  {
    if ops != [] { RunSettings(c, ops[..|ops| - 1]); }
  }

  lemma StepExplained<P>(s: Cache<P>, op: Op<P>, k: string, last: Option<(P, real)>, others: set<string>, time: real)
    requires Explained(s, k, last, others, time) && (Timed(op) ==> time <= op.now)
    ensures Explained(s.Do(op), k, NextLast(s.Ttl(), op, k, last), NextOthers(s, op, k, others),
                      if Timed(op) then op.now else time)
  {
    hide Explained;
    match op {
      case Get(now, g) => GetExplained(s, now, g, k, last, others, time);
      case Set(now, g, p) => SetExplained(s, now, g, p, k, last, others, time);
      case Invalidate(g) => InvalidateExplained(s, g, k, last, others, time);
      case Clear => ClearExplained(s, k, last, others, time);
      case SetDegraded(d) => FlagExplained(s, d, k, last, others, time);
    }
  }

  lemma {:induction false} RunExplained<P>(c: Cache<P>, start: real, ops: seq<Op<P>>, k: string)
    requires c.Valid() && c.entries == [] && Monotonic(start, ops)
    ensures Explained(Run(c, ops), k, LastSet(c, ops, k), OthersSince(c, ops, k), LastTime(start, ops))
  {
    if ops == [] {
      assert Lookup(c.entries, k).None?;
    } else {
      hide Explained, NextLast, NextOthers;
      var init := ops[..|ops| - 1];
      RunExplained(c, start, init, k);
      RunSettings(c, init);
      var last, others := LastSet(c, init, k), OthersSince(c, init, k);
      StepExplained(Run(c, init), ops[|ops| - 1], k, last, others, LastTime(start, init));
    }
  }

  lemma ClearExplained<P>(s: Cache<P>, k: string, last: Option<(P, real)>, others: set<string>, time: real)
    requires Explained(s, k, last, others, time)
    ensures Explained(s.Do(Clear), k, None, others, time)
  {
    assert Lookup<P>([], k).None?;
  }

  lemma FlagExplained<P>(s: Cache<P>, d: bool, k: string, last: Option<(P, real)>, others: set<string>, time: real)
    requires Explained(s, k, last, others, time)
    ensures Explained(s.Do(SetDegraded(d)), k, last, others, time)
  {
  }

  // --------------------------------------------------------------------------- the promises

  /** A get answers only with the payload last set, and only before the deadline it was given then. */
  lemma {:induction false} GetIsLatest<P>(c: Cache<P>, start: real, ops: seq<Op<P>>, now: real, k: string)
    requires c.Valid() && c.entries == [] && Monotonic(start, ops)
    requires Run(c, ops).Get(now, k).1.Some?
    ensures LastSet(c, ops, k).Some? && now < LastSet(c, ops, k).value.1
    ensures Run(c, ops).Get(now, k).1 == Some(LastSet(c, ops, k).value.0)
  {
    RunExplained(c, start, ops, k);
  }

  /**
   A key that was set, not invalidated or cleared since, and not yet due is answered from the cache,
   unless at least max_entries distinct other keys were set or hit since its own last set or hit.
   */
  lemma {:induction false} UnexpiredIsKept<P>(c: Cache<P>, start: real, ops: seq<Op<P>>, now: real, k: string)
    requires c.Valid() && c.entries == [] && Monotonic(start, ops) && LastTime(start, ops) <= now
    requires LastSet(c, ops, k).Some? && now < LastSet(c, ops, k).value.1
    requires |OthersSince(c, ops, k)| < c.maxEntries
    ensures Run(c, ops).Get(now, k).1 == Some(LastSet(c, ops, k).value.0)
  {
    RunExplained(c, start, ops, k);
    RunSettings(c, ops);
  }

  /** The cache never holds more entries than its ceiling. */
  lemma {:induction false} SizeIsBounded<P>(c: Cache<P>, start: real, ops: seq<Op<P>>)
    requires c.Valid() && c.entries == [] && Monotonic(start, ops)
    ensures |Run(c, ops).entries| <= c.maxEntries
  {
    RunExplained(c, start, ops, "");
    RunSettings(c, ops);
  }

  function Gets<P>(ops: seq<Op<P>>): nat {
    if ops == [] then 0 else Gets(ops[..|ops| - 1]) + if ops[|ops| - 1].Get? then 1 else 0
  }

  /** The gets of a run that were answered with a payload. */
  function Answered<P>(c: Cache<P>, ops: seq<Op<P>>): nat {
    if ops == [] then 0
    else
      var init, op := ops[..|ops| - 1], ops[|ops| - 1];
      Answered(c, init) + if op.Get? && Run(c, init).Get(op.now, op.key).1.Some? then 1 else 0
  }

  /**
   Every get is counted once, as a hit when it was answered and as a miss otherwise; an expiry is one
   of the misses.
   */
  lemma {:induction false} CountersAddUp<P>(c: Cache<P>, ops: seq<Op<P>>)
    requires c.hits == 0 && c.misses == 0 && c.expirations == 0
    ensures var s := Run(c, ops);
            s.hits == Answered(c, ops) && s.hits + s.misses == Gets(ops) && s.expirations <= s.misses
  {
    if ops != [] { CountersAddUp(c, ops[..|ops| - 1]); }
  }

  /** The sets of a run that brought in a key the cache did not hold. */
  function Entered<P>(c: Cache<P>, ops: seq<Op<P>>): nat {
    if ops == [] then 0
    else
      var init, op := ops[..|ops| - 1], ops[|ops| - 1];
      Entered(c, init) + if op.Set? && op.key !in Keys(Run(c, init).entries) then 1 else 0
  }

  /** The entries taken out by hand: invalidated, or cleared. */
  function TakenOut<P>(c: Cache<P>, ops: seq<Op<P>>): nat {
    if ops == [] then 0
    else
      var init, op := ops[..|ops| - 1], ops[|ops| - 1];
      TakenOut(c, init) + if op.Clear? then |Run(c, init).entries|
                          else if op.Invalidate? && op.key in Keys(Run(c, init).entries) then 1 else 0
  }

  /** Entries are conserved: whatever came in is still held, or was evicted, expired, or taken out. */
  lemma {:induction false} EntriesAreConserved<P>(c: Cache<P>, ops: seq<Op<P>>)
    requires c.Valid() && c.entries == [] && c.evictions == 0 && c.expirations == 0
    ensures var s := Run(c, ops);
            s.Valid() && Entered(c, ops) == |s.entries| + s.evictions + s.expirations + TakenOut(c, ops)
  {
    if ops != [] {
      EntriesAreConserved(c, ops[..|ops| - 1]);
      DoConserves(Run(c, ops[..|ops| - 1]), ops[|ops| - 1]);
    }
  }

  lemma {:induction false} DoConserves<P>(s: Cache<P>, op: Op<P>)
    requires s.Valid()
    ensures var s' := s.Do(op);
            && s'.Valid()
            && |s'.entries| + s'.evictions + s'.expirations
               + (if op.Clear? then |s.entries| else if op.Invalidate? && op.key in Keys(s.entries) then 1 else 0)
               == |s.entries| + s.evictions + s.expirations
                  + (if op.Set? && op.key !in Keys(s.entries) then 1 else 0)
  {
    match op
    case Get(now, k) =>
      WithoutMeans(s.entries, k);
      GetStep(s, now, k, k);
    case Set(now, k, p) =>
      WithoutMeans(s.entries, k);
      SetStep(s, now, k, p, k);
    case Invalidate(k) => WithoutMeans(s.entries, k);
    case Clear =>
    case SetDegraded(_) =>
  }

  lemma {:induction false} RunValid<P>(c: Cache<P>, ops: seq<Op<P>>)
    requires c.Valid()
    ensures var s := Run(c, ops);
            s.Valid() && s.ttl == c.ttl && s.degradedTtl == c.degradedTtl
  {
    if ops != [] {
      RunValid(c, ops[..|ops| - 1]);
      DoConserves(Run(c, ops[..|ops| - 1]), ops[|ops| - 1]);
    }
  }

  /** What has just been set is answered, if it lives at all. */
  lemma {:induction false} SetIsAnswered<P>(c: Cache<P>, ops: seq<Op<P>>, now: real, k: string, p: P)
    requires c.Valid() && (if Run(c, ops).degraded then c.degradedTtl else c.ttl) > 0
    ensures Run(c, ops + [Op.Set(now, k, p)]).Get(now, k).1 == Some(p)
  {
    var all := ops + [Op.Set(now, k, p)];
    assert all[..|all| - 1] == ops;
    RunValid(c, ops);
    SetStep(Run(c, ops), now, k, p, k);
  }

  // ------------------------------------------------------------------------------ the object

  class PayloadCache<P> {
    const maxEntries: nat
    const ttl: int
    const degradedTtl: int
    var data: seq<Entry<P>>      // the ordered dictionary, oldest use first
    var degraded: bool
    var hits: nat
    var misses: nat
    var evictions: nat
    var expirations: nat

    ghost function State(): Cache<P>
      reads this
    {
      Cache(data, degraded, hits, misses, evictions, expirations, maxEntries, ttl, degradedTtl)
    }

    ghost predicate Valid()
      reads this
    {
      State().Valid()
    }

    constructor (budget: int, entryBytes: int, ttl: int, degradedTtl: int)
      ensures Valid() && State() == Empty(budget, entryBytes, ttl, degradedTtl)
    {
      maxEntries := Max(1, budget / Max(1, entryBytes));
      this.ttl, this.degradedTtl := ttl, degradedTtl;
      data, degraded := [], false;
      hits, misses, evictions, expirations := 0, 0, 0, 0;
    }

    method SetDegraded(flag: bool)
      requires Valid()
      modifies this`degraded
      ensures Valid() && State() == old(State()).Do(Op.SetDegraded(flag))
    {
      degraded := flag;
    }

    method Get(now: real, key: string) returns (r: Option<P>)
      requires Valid()
      modifies this
      ensures Valid() && (State(), r) == old(State()).Get(now, key)
    {
      GetStep(State(), now, key, key);
      var entry := Lookup(data, key);
      if entry.None? {
        misses := misses + 1;
        return None;
      }
      if entry.value.deadline <= now {
        data := Without(data, key);
        expirations := expirations + 1;
        misses := misses + 1;
        return None;
      }
      data := Without(data, key) + [entry.value];
      hits := hits + 1;
      r := Some(entry.value.payload);
    }

    method Set(now: real, key: string, payload: P)
      requires Valid()
      modifies this
      ensures Valid() && State() == old(State()).Set(now, key, payload)
    {
      hide Keys, Without, After, Lookup, Distinct, SetSeen;
      ghost var before := State();
      var e := Entry(key, payload, now + (if degraded then degradedTtl else ttl) as real);
      Placed(data, e, key);
      SetStep(before, now, key, payload, key);
      if Lookup(data, key).Some? { data := Without(data, key); } else { WithoutAbsent(data, key); }
      assert data == Without(before.entries, key);
      data := data + [e];
      assert State() == before.(entries := data) && e.deadline == now + before.Ttl() as real;
      Evict();
    }

    method Evict()
      requires |data| <= maxEntries + 1
      modifies this`data, this`evictions
      ensures data == if |old(data)| > maxEntries then old(data)[1..] else old(data)
      ensures evictions == old(evictions) + |old(data)| - |data|
    {
      while |data| > maxEntries
        invariant data == old(data) || (|old(data)| > maxEntries && data == old(data)[1..])
        invariant evictions == old(evictions) + |old(data)| - |data|
      {
        data := data[1..];
        evictions := evictions + 1;
      }
    }

    method Invalidate(key: string) returns (held: bool)
      requires Valid()
      modifies this`data
      ensures Valid() && State() == old(State()).Do(Op.Invalidate(key)) && held == (key in Keys(old(data)))
    {
      WithoutMeans(data, key);
      held := Lookup(data, key).Some?;
      data := Without(data, key);
    }

    method Clear()
      requires Valid()
      modifies this`data
      ensures Valid() && State() == old(State()).Do(Op.Clear)
    {
      data := [];
    }
  }

  lemma {:induction false} WithoutAbsent<P>(es: seq<Entry<P>>, k: string)
    requires Lookup(es, k).None?
    ensures Without(es, k) == es
  {
    if es != [] {
      KeysHead(es);
      WithoutAbsent(es[1..], k);
    }
  }
}
