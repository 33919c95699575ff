/** Choosing the indicator that speaks for an observable, and the labels it carries. */
module Mapper {
  import opened Wrappers
  import opened Text
  import Defang

  const MAX_LABELS := 24
  const MAX_LABEL_LEN := 64

  datatype HitPolicy = All | LiveOnly | ExpiryAware

  /** An indicator as far as ranking looks; "" stands for an absent date or label. */
  datatype Indicator = Indicator(revoked: bool, score: Option<int>, validUntil: string, labels: seq<string>)

  /** The settings, the clock, and how a date reads; None for one that does not parse. */
  datatype Context = Context(policy: HitPolicy, minScore: int, now: real, parse: string -> Option<real>) {

    predicate Expired(i: Indicator) {
      i.validUntil != "" && parse(i.validUntil).Some? && parse(i.validUntil).value <= now
    }

    predicate Passes(i: Indicator) {
      match policy
      case All => true
      case LiveOnly => !i.revoked
      case ExpiryAware => !i.revoked || Expired(i)
    }

    predicate Survives(i: Indicator) {
      Passes(i) && Score(i) >= minScore
    }

    function RankOf(i: Indicator): Rank {
      Rank(Expired(i), Score(i), i.validUntil)
    }
  }

  function Score(i: Indicator): int {
    if i.score.Some? then i.score.value else 0
  }

  // ----------------------------------------------------------------------------- ranks

  /** Live before expired, then the higher score, then the smaller date text. */
  datatype Rank = Rank(expired: bool, score: int, until: string)

  predicate StringLe(a: string, b: string) {
    a == "" || (b != "" && (a[0] < b[0] || (a[0] == b[0] && StringLe(a[1..], b[1..]))))
  }

  predicate RankLe(a: Rank, b: Rank) {
    if a.expired != b.expired then b.expired
    else if a.score != b.score then a.score > b.score
    else StringLe(a.until, b.until)
  }

  lemma {:induction false} StringLeOrders(a: string, b: string, c: string)
    ensures StringLe(a, b) || StringLe(b, a)
    ensures StringLe(a, b) && StringLe(b, a) ==> a == b
    ensures StringLe(a, b) && StringLe(b, c) ==> StringLe(a, c)
  {
    if a != "" && b != "" {
      assert a == [a[0]] + a[1..] && b == [b[0]] + b[1..];
      StringLeOrders(a[1..], b[1..], if c == "" then "" else c[1..]);
    }
  }

  /** A total order, so the sort has one meaning. */
  lemma RankLeOrders(a: Rank, b: Rank, c: Rank)
    ensures RankLe(a, b) || RankLe(b, a)
    ensures RankLe(a, b) && RankLe(b, a) ==> a == b
    ensures RankLe(a, b) && RankLe(b, c) ==> RankLe(a, c)
  {
    StringLeOrders(a.until, b.until, c.until);
  }

  // ----------------------------------------------------------------------------- the sort

  ghost predicate Ranked(x: Context, s: seq<Indicator>) {
    forall i, j :: 0 <= i < j < |s| ==> RankLe(x.RankOf(s[i]), x.RankOf(s[j]))
  }

  /** The indicators of one rank, in order. */
  function OfRank(x: Context, s: seq<Indicator>, r: Rank): seq<Indicator> {
    if s == [] then [] else (if x.RankOf(s[0]) == r then [s[0]] else []) + OfRank(x, s[1..], r)
  }

  /** Goes after everything that ranks no lower. */
  function Insert(x: Context, i: Indicator, s: seq<Indicator>): seq<Indicator> {
    if s == [] then [i]
    else if RankLe(x.RankOf(i), x.RankOf(s[0])) then [i] + s
    else [s[0]] + Insert(x, i, s[1..])
  }

  /** list.sort(key=rank): stable. */
  function Sorted(x: Context, s: seq<Indicator>): seq<Indicator> {
    if s == [] then [] else Insert(x, s[0], Sorted(x, s[1..]))
  }

  ghost predicate Leads(x: Context, r: Rank, s: seq<Indicator>) {
    forall j :: 0 <= j < |s| ==> RankLe(r, x.RankOf(s[j]))
  }

  lemma ConsRanked(x: Context, i: Indicator, s: seq<Indicator>)
    requires Ranked(x, s) && (s == [] || RankLe(x.RankOf(i), x.RankOf(s[0])))
    ensures Leads(x, x.RankOf(i), s) && Ranked(x, [i] + s)
  {
    forall j | 0 <= j < |s| ensures RankLe(x.RankOf(i), x.RankOf(s[j])) {
      RankLeOrders(x.RankOf(i), x.RankOf(s[0]), x.RankOf(s[j]));
    }
  }

  lemma {:induction false} InsertSorts(x: Context, i: Indicator, s: seq<Indicator>)
    requires Ranked(x, s)
    ensures Ranked(x, Insert(x, i, s)) && multiset(Insert(x, i, s)) == multiset(s) + multiset{i}
    ensures Insert(x, i, s) != [] && (Insert(x, i, s)[0] == i || (s != [] && Insert(x, i, s)[0] == s[0]))
  {
    hide RankLe;
    if s == [] || RankLe(x.RankOf(i), x.RankOf(s[0])) {
      ConsRanked(x, i, s);
    } else {
      InsertSorts(x, i, s[1..]);
      RankLeOrders(x.RankOf(i), x.RankOf(s[0]), x.RankOf(i));
      assert s == [s[0]] + s[1..];
      ConsRanked(x, s[0], Insert(x, i, s[1..]));
    }
  }

  lemma {:induction false} InsertStable(x: Context, i: Indicator, s: seq<Indicator>, r: Rank)
    ensures OfRank(x, Insert(x, i, s), r) == (if x.RankOf(i) == r then [i] else []) + OfRank(x, s, r)
  {
    if s != [] && !RankLe(x.RankOf(i), x.RankOf(s[0])) {
      InsertStable(x, i, s[1..], r);
      RankLeOrders(x.RankOf(i), x.RankOf(s[0]), r);
      assert ([s[0]] + Insert(x, i, s[1..]))[1..] == Insert(x, i, s[1..]);
    } else {
      assert ([i] + s)[1..] == s;
    }
  }

  /** The sort orders by rank, keeps every indicator, and keeps the order within a rank. */
  lemma {:induction false} SortedSorts(x: Context, s: seq<Indicator>)
    ensures Ranked(x, Sorted(x, s)) && multiset(Sorted(x, s)) == multiset(s)
    ensures forall r :: OfRank(x, Sorted(x, s), r) == OfRank(x, s, r)
  {
    if s != [] {
      SortedSorts(x, s[1..]);
      InsertSorts(x, s[0], Sorted(x, s[1..]));
      assert s == [s[0]] + s[1..];
      forall r ensures OfRank(x, Sorted(x, s), r) == OfRank(x, s, r) {
        InsertStable(x, s[0], Sorted(x, s[1..]), r);
      }
    }
  }

  // ---------------------------------------------------------------------------- the selection

  function Survivors(x: Context, candidates: seq<Indicator>): (r: seq<Indicator>)
    ensures forall i :: i in r <==> i in candidates && x.Survives(i)
  {
    if candidates == [] then []
    else
      assert candidates == [candidates[0]] + candidates[1..];
      (if x.Survives(candidates[0]) then [candidates[0]] else []) + Survivors(x, candidates[1..])
  }

  /** They stand in the order listed. */
  lemma {:induction false} SurvivorsInOrder(x: Context, a: seq<Indicator>, b: seq<Indicator>)
    ensures Survivors(x, a + b) == Survivors(x, a) + Survivors(x, b)
  {
    hide Context.Survives;
    if a == [] {
      assert a + b == b;
    } else {
      FirstOf(a, b);
      SurvivorsInOrder(x, a[1..], b);
      Grouped(if x.Survives(a[0]) then [a[0]] else [], Survivors(x, a[1..]), Survivors(x, b));
    }
  }

  /** select_indicators */
  function Select(x: Context, candidates: seq<Indicator>): seq<Indicator> {
    Sorted(x, Survivors(x, candidates))
  }

  datatype Payload = Payload(expired: bool, primary: Indicator, count: nat, labels: seq<string>)

  /** build_payload, for the fields that depend on the choice. */
  function BuildPayload(x: Context, candidates: seq<Indicator>): Option<Payload> {
    var survivors := Select(x, candidates);
    if survivors == [] then None
    else Some(Payload(x.Expired(survivors[0]), survivors[0], |survivors|, LabelsOf(survivors)))
  }

  lemma {:induction false} SelectKeeps(x: Context, candidates: seq<Indicator>)
    ensures Ranked(x, Select(x, candidates)) && |Select(x, candidates)| == |Survivors(x, candidates)|
    ensures forall i :: i in Select(x, candidates) <==> i in candidates && x.Survives(i)
    ensures forall r :: OfRank(x, Select(x, candidates), r) == OfRank(x, Survivors(x, candidates), r)
  {
    var s := Survivors(x, candidates);
    SortedSorts(x, s);
    assert |multiset(Sorted(x, s))| == |multiset(s)|;
    forall i ensures i in Sorted(x, s) <==> i in s {
      assert i in multiset(Sorted(x, s)) <==> i in multiset(s);
    }
  }

  /**
   A payload is built exactly when some indicator survives the policy and the minimum score. It reads
   unexpired exactly when a live one survives; its score is the highest among the survivors of its
   liveness; among equals it has the smallest date, and of those it was listed first.
   */
  lemma {:induction false} PrimaryIsBest(x: Context, candidates: seq<Indicator>)
    ensures BuildPayload(x, candidates).Some? <==> exists i :: i in candidates && x.Survives(i)
    ensures BuildPayload(x, candidates).Some? ==>
              var p := BuildPayload(x, candidates).value;
              && p.primary in candidates && x.Survives(p.primary) && p.expired == x.Expired(p.primary)
              && (!p.expired <==> exists i :: i in candidates && x.Survives(i) && !x.Expired(i))
              && (forall i :: i in candidates && x.Survives(i) ==> RankLe(x.RankOf(p.primary), x.RankOf(i)))
              && (forall i :: i in candidates && x.Survives(i) && x.Expired(i) == p.expired ==>
                    Score(i) <= Score(p.primary))
              && [p.primary] <= OfRank(x, Survivors(x, candidates), x.RankOf(p.primary))
              && p.count == |Survivors(x, candidates)|
  {
    var best := Select(x, candidates);
    SelectKeeps(x, candidates);
    assert forall i :: i in candidates && x.Survives(i) ==> i in best;
    if best != [] {
      assert best[0] in best;
      forall i | i in candidates && x.Survives(i) ensures RankLe(x.RankOf(best[0]), x.RankOf(i)) {
        assert i in best;
        RankLeOrders(x.RankOf(i), x.RankOf(i), x.RankOf(i));
      }
      assert OfRank(x, best, x.RankOf(best[0]))[0] == best[0];
    }
  }

  // ------------------------------------------------------------------------ the choice, in plain terms

  /** The date reads, and the clock has reached it. */
  predicate Over(validUntil: string, parse: string -> Option<real>, now: real) {
    match parse(validUntil)
    case None => false
    case Some(t) => validUntil != "" && t <= now
  }

  /** a and b agree up to n, and then a ends, or has the smaller character. */
  predicate PrecedesAt(a: string, b: string, n: nat) {
    n <= |a| && n <= |b| && a[..n] == b[..n] && (n == |a| || (n < |b| && a[n] < b[n]))
  }

  lemma {:induction false} OrderIsLexicographic(a: string, b: string)
    ensures StringLe(a, b) <==> exists n :: PrecedesAt(a, b, n)
  {
    if a == "" {
      assert PrecedesAt(a, b, 0);
    } else if b != "" {
      OrderIsLexicographic(a[1..], b[1..]);
      if a[0] < b[0] { assert PrecedesAt(a, b, 0); }
      if a[0] == b[0] {
        if n :| PrecedesAt(a[1..], b[1..], n) { PrecedesLonger(a, b, n); }
        if n :| PrecedesAt(a, b, n) { PrecedesShorter(a, b, n); }
      }
    }
  }

  lemma PrecedesLonger(a: string, b: string, n: nat)
    requires a != "" && b != "" && a[0] == b[0] && PrecedesAt(a[1..], b[1..], n)
    ensures PrecedesAt(a, b, n + 1)
  {
    assert a[..n + 1] == [a[0]] + a[1..][..n] && b[..n + 1] == [b[0]] + b[1..][..n];
  }

  lemma PrecedesShorter(a: string, b: string, n: nat)
    requires a != "" && b != "" && a[0] == b[0] && PrecedesAt(a, b, n)
    ensures n > 0 && PrecedesAt(a[1..], b[1..], n - 1)
  {
    assert a[1..][..n - 1] == a[..n][1..] && b[1..][..n - 1] == b[..n][1..];
  }

  /**
   Who takes part: the candidates with the minimum score, an absent score being 0, that the policy admits. Live
   only drops the revoked; expiry aware drops those revoked before their time.
   */
  lemma {:induction false} SurvivorsAre(x: Context, candidates: seq<Indicator>, i: Indicator)
    ensures i in Select(x, candidates)
            <==> && i in candidates && (match i.score case None => 0 case Some(n) => n) >= x.minScore
                 && (x.policy.LiveOnly? ==> !i.revoked)
                 && (x.policy.ExpiryAware? && i.revoked ==> Over(i.validUntil, x.parse, x.now))
  {
    SelectKeeps(x, candidates);
  }

  /**
   Who wins: nobody alive while the winner is expired; among those of the winner's liveness nobody has a
   higher score, and among those of its score nobody a date text that comes before.
   */
  lemma {:induction false} PrimaryBeats(x: Context, candidates: seq<Indicator>, i: Indicator)
    requires BuildPayload(x, candidates).Some? && i in Select(x, candidates)
    ensures var p := BuildPayload(x, candidates).value;
            && p.primary in Select(x, candidates)
            && (p.expired <==> Over(p.primary.validUntil, x.parse, x.now))
            && (p.expired ==> Over(i.validUntil, x.parse, x.now))
            && (Over(i.validUntil, x.parse, x.now) == p.expired ==>
                  var mine := match p.primary.score case None => 0 case Some(n) => n;
                  var yours := match i.score case None => 0 case Some(n) => n;
                  && yours <= mine
                  && (yours == mine ==> exists n :: PrecedesAt(p.primary.validUntil, i.validUntil, n)))
  {
    SelectKeeps(x, candidates);
    var best := Select(x, candidates)[0];
    PrimaryIsBest(x, candidates);
    assert best in Select(x, candidates);
    OrderIsLexicographic(best.validUntil, i.validUntil);
  }

  // ------------------------------------------------------------------------------- labels

  function Trimmed(written: string): string {
    var t := Strip(written, Defang.SPACE_CHARS);
    if |t| > MAX_LABEL_LEN then t[..MAX_LABEL_LEN] else t
  }

  /** The labels written, trimmed, in order. */
  function Written(labels: seq<string>): seq<string> {
    if labels == [] then []
    else Written(labels[..|labels| - 1]) + if labels[|labels| - 1] != "" then [Trimmed(labels[|labels| - 1])] else []
  }

  function AllLabels(indicators: seq<Indicator>): seq<string> {
    if indicators == [] then [] else AllLabels(indicators[..|indicators| - 1]) + indicators[|indicators| - 1].labels
  }

  lemma {:induction false} AllLabelsInOrder(a: seq<Indicator>, b: seq<Indicator>)
    ensures AllLabels(a + b) == AllLabels(a) + AllLabels(b)
  {
    if b == [] {
      assert a + b == a;
    } else {
      AllLabelsInOrder(a, b[..|b| - 1]);
      LastOf(a, b);
      Grouped(AllLabels(a), AllLabels(b[..|b| - 1]), b[|b| - 1].labels);
    }
  }

  /** First occurrences, in order. */
  function Deduped(s: seq<string>): seq<string> {
    if s == [] then []
    else
      var d := Deduped(s[..|s| - 1]);
      if s[|s| - 1] in d then d else d + [s[|s| - 1]]
  }

  function LabelsOf(indicators: seq<Indicator>): seq<string> {
    var d := Deduped(Written(AllLabels(indicators)));
    if |d| > MAX_LABELS then d[..MAX_LABELS] else d
  }

  ghost predicate NoRepeats(s: seq<string>) {
    forall i, j :: 0 <= i < j < |s| ==> s[i] != s[j]
  }

  /** Deduplication keeps each text once. */
  lemma {:induction false} DedupedMeans(s: seq<string>)
    ensures NoRepeats(Deduped(s))
    ensures forall x :: x in Deduped(s) <==> x in s
  {
    if s != [] {
      DedupedMeans(s[..|s| - 1]);
      assert s == s[..|s| - 1] + [s[|s| - 1]];
    }
  }

  predicate FirstAt(s: seq<string>, x: string, i: nat) {
    i < |s| && s[i] == x && forall j :: 0 <= j < i ==> s[j] != x
  }

  /** x was written before y was. */
  ghost predicate FirstBefore(s: seq<string>, x: string, y: string) {
    forall i: nat, j: nat :: FirstAt(s, x, i) && FirstAt(s, y, j) ==> i < j
  }

  /** And in the order of first occurrence. */
  lemma {:induction false} DedupedInOrder(s: seq<string>, a: nat, b: nat, i: nat, j: nat)
    requires a < b < |Deduped(s)| && FirstAt(s, Deduped(s)[a], i) && FirstAt(s, Deduped(s)[b], j)
    ensures i < j
  {
    var init := s[..|s| - 1];
    var d := Deduped(init);
    DedupedMeans(init);
    assert d[a] in init;
    var k :| 0 <= k < |init| && init[k] == d[a];
    assert s[k] == d[a];
    if b < |d| {
      assert d[b] in init;
      var m :| 0 <= m < |init| && init[m] == d[b];
      assert s[m] == d[b];
      DedupedInOrder(init, a, b, i, j);
    } else {
      assert forall m :: 0 <= m < |init| ==> s[m] == init[m] && init[m] in init;
    }
  }

  lemma {:induction false} DedupedGrows(s: seq<string>, more: seq<string>)
    ensures Deduped(s) <= Deduped(s + more)
  {
    if more == [] {
      assert s + more == s;
    } else {
      DedupedGrows(s, more[..|more| - 1]);
      assert (s + more)[..|s + more| - 1] == s + more[..|more| - 1];
    }
  }

  lemma {:induction false} WrittenAppends(a: seq<string>, b: seq<string>)
    ensures Written(a + b) == Written(a) + Written(b)
  {
    if b == [] {
      assert a + b == a;
    } else {
      WrittenAppends(a, b[..|b| - 1]);
      assert (a + b)[..|a + b| - 1] == a + b[..|b| - 1];
    }
  }

  /**
   The labels kept are the first 24 distinct ones: no repeats, at most 24, all of them when fewer were
   written, and every label not kept was first written after every kept one.
   */
  lemma {:induction false} LabelsAreFirst(indicators: seq<Indicator>)
    ensures var r, all := LabelsOf(indicators), Written(AllLabels(indicators));
            && NoRepeats(r) && |r| <= 24 && (forall x :: x in r ==> x in all)
            && (|r| < 24 ==> forall x :: x in all ==> x in r)
            && (forall x, y :: x in r && y !in r ==> FirstBefore(all, x, y))
            && (forall a, b :: 0 <= a < b < |r| ==> FirstBefore(all, r[a], r[b]))
  {
    hide Deduped, Written, AllLabels;
    var r, all := LabelsOf(indicators), Written(AllLabels(indicators));
    var d := Deduped(all);
    DedupedMeans(all);
    forall a, b, i: nat, j: nat | 0 <= a < b < |d| && FirstAt(all, d[a], i) && FirstAt(all, d[b], j) ensures i < j {
      DedupedInOrder(all, a, b, i, j);
    }
    forall x, y | x in r && y !in r ensures FirstBefore(all, x, y) {
      if y in all {
        assert y in d;
        var a :| 0 <= a < |r| && r[a] == x;
        var b :| 0 <= b < |d| && d[b] == y;
        assert d[a] == x && a < b;
      }
    }
  }

  lemma {:induction false} WrittenMeans(labels: seq<string>, t: string)
    ensures t in Written(labels) <==> exists l :: l in labels && l != "" && t == Trimmed(l)
  {
    if labels != [] {
      var last := |labels| - 1;
      WrittenMeans(labels[..last], t);
      assert forall l :: l in labels <==> l in labels[..last] || l == labels[last] by {
        assert labels == labels[..last] + [labels[last]];
      }
    }
  }

  lemma {:induction false} AllLabelsMeans(indicators: seq<Indicator>, l: string)
    ensures l in AllLabels(indicators) <==> exists i :: i in indicators && l in i.labels
  {
    if indicators != [] {
      var last := |indicators| - 1;
      AllLabelsMeans(indicators[..last], l);
      assert forall i :: i in indicators <==> i in indicators[..last] || i == indicators[last] by {
        assert indicators == indicators[..last] + [indicators[last]];
      }
    }
  }

  /**
   Where a label comes from: it is the text between the white space at the ends of a label some indicator
   carries, cut to 64 characters.
   */
  lemma {:induction false} LabelComesFrom(indicators: seq<Indicator>, t: string)
    returns (i: Indicator, l: string, a: nat, b: nat)
    requires t in LabelsOf(indicators)
    ensures i in indicators && l in i.labels && l != "" && a <= b <= |l|
    ensures t == if b - a > 64 then l[a..a + 64] else l[a..b]
    ensures forall k :: 0 <= k < a || b <= k < |l| ==> l[k] in Defang.SPACE_CHARS
    ensures a < b ==> l[a] !in Defang.SPACE_CHARS && l[b - 1] !in Defang.SPACE_CHARS
  {
    hide Written, AllLabels, Deduped;
    LabelsAreFirst(indicators);
    WrittenMeans(AllLabels(indicators), t);
    l :| l in AllLabels(indicators) && l != "" && t == Trimmed(l);
    AllLabelsMeans(indicators, l);
    i :| i in indicators && l in i.labels;
    a, b := StripPart(l, Defang.SPACE_CHARS);
    if b - a > 64 { assert l[a..b][..64] == l[a..a + 64]; }
  }

  /** A payload's labels are those of the indicators that survive, and all of them while there are fewer than 24. */
  lemma {:induction false} PayloadLabels(x: Context, candidates: seq<Indicator>, t: string)
    requires BuildPayload(x, candidates).Some?
    ensures var labels := BuildPayload(x, candidates).value.labels;
            && (t in labels ==>
                  exists i, l :: i in Select(x, candidates) && l in i.labels && l != "" && t == Trimmed(l))
            && (|labels| < 24 ==>
                  forall i, l :: i in Select(x, candidates) && l in i.labels && l != "" && t == Trimmed(l) ==>
                    t in labels)
  {
    hide Written, AllLabels, Deduped, Select, Trimmed;
    var best := Select(x, candidates);
    var labels := BuildPayload(x, candidates).value.labels;
    assert labels == LabelsOf(best);
    LabelsAreFirst(best);
    WrittenMeans(AllLabels(best), t);
    if t in labels {
      var l :| l in AllLabels(best) && l != "" && t == Trimmed(l);
      AllLabelsMeans(best, l);
    }
    if |labels| < 24 {
      forall i, l | i in best && l in i.labels && l != "" && t == Trimmed(l) ensures t in labels {
        AllLabelsMeans(best, l);
      }
    }
  }

  /** One indicator's labels, until there are enough. */
  method TakeLabels(labels: seq<string>, seen0: seq<string>, ghost before: seq<string>) returns (seen: seq<string>)
    requires seen0 == Deduped(Written(before)) && |seen0| < MAX_LABELS
    ensures seen <= Deduped(Written(before + labels)) && |seen| <= MAX_LABELS
    ensures |seen| < MAX_LABELS ==> seen == Deduped(Written(before + labels))
  {
    hide Deduped, Written;
    seen := seen0;
    assert before + labels[..0] == before;
    for k := 0 to |labels|
      invariant seen == Deduped(Written(before + labels[..k])) && |seen| < MAX_LABELS
    {
      OneMoreLabel(before, labels, k);
      if labels[k] != "" {
        var t := Trimmed(labels[k]);
        if t !in seen { seen := seen + [t]; }
      }
      if |seen| >= MAX_LABELS { return seen; }
    }
    assert labels[..|labels|] == labels;
  }

  lemma {:induction false} OneMoreLabel(before: seq<string>, labels: seq<string>, k: nat)
    requires k < |labels|
    ensures var d, t := Deduped(Written(before + labels[..k])), Trimmed(labels[k]);
            Deduped(Written(before + labels[..k + 1])) == if labels[k] == "" || t in d then d else d + [t]
    ensures Deduped(Written(before + labels[..k + 1])) <= Deduped(Written(before + labels))
  {
    hide Trimmed;
    var upTo := before + labels[..k + 1];
    assert upTo[..|upTo| - 1] == before + labels[..k];
    var w := Written(before + labels[..k]);
    if labels[k] == "" {
      assert Written(upTo) == w + [] == w;
    } else {
      assert Written(upTo) == w + [Trimmed(labels[k])];
      assert (w + [Trimmed(labels[k])])[..|w|] == w;
    }
    assert before + labels == upTo + labels[k + 1..];
    WrittenAppends(upTo, labels[k + 1..]);
    DedupedGrows(Written(upTo), Written(labels[k + 1..]));
  }

  /** _labels */
  method Labels(indicators: seq<Indicator>) returns (r: seq<string>)
    ensures r == LabelsOf(indicators)
  {
    hide Deduped, Written;
    r := [];
    ghost var done: seq<string> := [];
    NothingWritten();
    for i := 0 to |indicators|
      invariant done == AllLabels(indicators[..i])
      invariant r == Deduped(Written(done)) && |r| < MAX_LABELS
    {
      r := TakeLabels(indicators[i].labels, r, done);
      assert indicators[..i + 1][..i] == indicators[..i];
      done := done + indicators[i].labels;
      AllLabelsSplit(indicators, i + 1);
      if |r| >= MAX_LABELS { return r; }
    }
    assert indicators[..|indicators|] == indicators;
  }

  lemma NothingWritten()
    ensures Deduped(Written([])) == []
  {
  }

  lemma {:induction false} AllLabelsSplit(indicators: seq<Indicator>, i: nat)
    requires i <= |indicators|
    ensures Deduped(Written(AllLabels(indicators[..i]))) <= Deduped(Written(AllLabels(indicators)))
    decreases |indicators| - i
  {
    if i == |indicators| {
      assert indicators[..i] == indicators;
    } else {
      AllLabelsSplit(indicators, i + 1);
      var a, b := AllLabels(indicators[..i]), indicators[i].labels;
      assert indicators[..i + 1][..i] == indicators[..i];
      WrittenAppends(a, b);
      DedupedGrows(Written(a), Written(b));
    }
  }
}
