/** ASCII text: case folding, stripping, searching and splitting as Python's str does them. */
module Text {
  import opened Wrappers

  function LowerChar(c: char): char {
    if 'A' <= c <= 'Z' then c + ('a' - 'A') else c
  }

  /** s.lower() */
  function Lower(s: string): (r: string)
    ensures |r| == |s| && forall i :: 0 <= i < |s| ==> r[i] == LowerChar(s[i])
  {
    seq(|s|, i requires 0 <= i < |s| => LowerChar(s[i]))
  }

  const UPPER: string := "ABCDEFGHIJKLMNOPQRSTUVWXYZ"
  const LOWER: string := "abcdefghijklmnopqrstuvwxyz"

  /** Each capital has its small letter, and nothing else changes. */
  lemma LowerFolds(i: nat, c: char)
    requires i < 26
    ensures LowerChar(UPPER[i]) == LOWER[i] && (c !in UPPER ==> LowerChar(c) == c)
  {
    if 'A' <= c <= 'Z' {
      var k := (c - 'A') as int;
      assert UPPER[k] == c;
    }
  }

  predicate IsLower(s: string) {
    forall i :: 0 <= i < |s| ==> LowerChar(s[i]) == s[i]
  }

  lemma LowerOfLower(s: string)
    ensures IsLower(Lower(s)) && (IsLower(s) ==> Lower(s) == s)
  {
  }

  lemma Assoc(a: string, b: string, c: string)
    ensures (a + b) + c == a + (b + c)
  {
  }

  // ------------------------------------------------------------------ stripping

  function LStrip(s: string, cs: set<char>): string {
    if s != "" && s[0] in cs then LStrip(s[1..], cs) else s
  }

  function RStrip(s: string, cs: set<char>): string {
    if s != "" && s[|s| - 1] in cs then RStrip(s[..|s| - 1], cs) else s
  }

  /** s.strip(cs) */
  function Strip(s: string, cs: set<char>): string {
    RStrip(LStrip(s, cs), cs)
  }

  /** Neither end is strippable. */
  predicate Trim(s: string, cs: set<char>) {
    s == "" || (s[0] !in cs && s[|s| - 1] !in cs)
  }

  lemma {:induction false} LStripPart(s: string, cs: set<char>) returns (k: nat)
    ensures k <= |s| && LStrip(s, cs) == s[k..] && (k < |s| ==> s[k] !in cs)
    ensures forall i :: 0 <= i < k ==> s[i] in cs
  {
    k := 0;
    if s != "" && s[0] in cs {
      k := LStripPart(s[1..], cs);
      assert s[1..][k..] == s[k + 1..];
      k := k + 1;
    }
  }

  lemma {:induction false} RStripPart(s: string, cs: set<char>) returns (k: nat)
    ensures k <= |s| && RStrip(s, cs) == s[..k] && (k > 0 ==> s[k - 1] !in cs)
    ensures forall i :: k <= i < |s| ==> s[i] in cs
  {
    k := |s|;
    if s != "" && s[|s| - 1] in cs {
      k := RStripPart(s[..|s| - 1], cs);
      assert s[..|s| - 1][..k] == s[..k];
    }
  }

  /** Stripping cuts out a stretch of the text with unstrippable ends. */
  lemma StripPart(s: string, cs: set<char>) returns (i: nat, j: nat)
    ensures i <= j <= |s| && Strip(s, cs) == s[i..j] && Trim(Strip(s, cs), cs)
    ensures forall k :: 0 <= k < i || j <= k < |s| ==> s[k] in cs
  {
    i := LStripPart(s, cs);
    var k := RStripPart(s[i..], cs);
    j := i + k;
    assert forall m :: j <= m < |s| ==> s[m] == s[i..][m - i];
    assert s[i..][..k] == s[i..j];
    if k > 0 { assert s[i..j][0] == s[i]; }
  }

  lemma {:induction false} TrimStrip(s: string, cs: set<char>)
    requires Trim(s, cs)
    ensures Strip(s, cs) == s && LStrip(s, cs) == s && RStrip(s, cs) == s
  {
  }

  // ------------------------------------------------------------------ searching

  predicate OccursAt(s: string, m: string, i: int) {
    0 <= i && i + |m| <= |s| && s[i..i + |m|] == m
  }

  ghost predicate Contains(s: string, m: string) {
    exists i :: OccursAt(s, m, i)
  }

  /** s.find(m, start), with None for -1. */
  function FindFrom(s: string, m: string, start: nat): (r: Option<nat>)
    ensures r.Some? ==> start <= r.value && OccursAt(s, m, r.value)
    ensures r.Some? ==> forall i :: start <= i < r.value ==> !OccursAt(s, m, i)
    ensures r.None? ==> forall i :: start <= i ==> !OccursAt(s, m, i)
    decreases |s| - start
  {
    if OccursAt(s, m, start) then Some(start)
    else if start >= |s| then None
    else FindFrom(s, m, start + 1)
  }

  function Find(s: string, m: string): Option<nat> {
    FindFrom(s, m, 0)
  }

  lemma FindsAt(s: string, m: string, at: nat)
    requires OccursAt(s, m, at) && forall i: nat :: i < at ==> !OccursAt(s, m, i)
    ensures Find(s, m) == Some(at)
  {
  }

  lemma FindsNone(s: string, m: string)
    requires forall i: nat :: !OccursAt(s, m, i)
    ensures Find(s, m) == None
  {
  }

  /** A character of the marker that the text lacks rules the marker out. */
  lemma MissingCharRulesOut(s: string, m: string, c: char)
    requires c in m && c !in s
    ensures !Contains(s, m)
  {
  }

  lemma PartContains(s: string, i: nat, j: nat, m: string)
    requires i <= j <= |s| && Contains(s[i..j], m)
    ensures Contains(s, m)
  {
    var k :| OccursAt(s[i..j], m, k);
    assert m == s[i + k..i + k + |m|] by {
      forall x | 0 <= x < |m| ensures m[x] == s[i + k + x] {
        assert m[x] == s[i..j][k..k + |m|][x];
      }
    }
    assert OccursAt(s, m, i + k);
  }

  /** The first index of a character of cs at or after start, or |s|. */
  function IndexOfAny(s: string, cs: set<char>, start: nat): (i: nat)
    requires start <= |s|
    ensures start <= i <= |s| && (i < |s| ==> s[i] in cs)
    ensures forall k :: start <= k < i ==> s[k] !in cs
    decreases |s| - start
  {
    if start == |s| || s[start] in cs then start else IndexOfAny(s, cs, start + 1)
  }

  /** The stop index is the only one that stops the search. */
  lemma {:induction false} IndexOfAnyIs(s: string, cs: set<char>, start: nat, i: nat)
    requires start <= i <= |s| && (i < |s| ==> s[i] in cs) && forall k :: start <= k < i ==> s[k] !in cs
    ensures IndexOfAny(s, cs, start) == i
  {
  }

  /** Past a stretch without stop characters, the search stops where the rest begins. */
  lemma {:induction false} IndexAfter(a: string, b: string, cs: set<char>)
    requires (forall i :: 0 <= i < |a| ==> a[i] !in cs) && (b == "" || b[0] in cs)
    ensures IndexOfAny(a + b, cs, 0) == |a|
    ensures (a + b)[..|a|] == a && (a + b)[|a|..] == b
  {
    IndexOfAnyIs(a + b, cs, 0, |a|);
  }

  lemma {:induction false} IndexFrom(pre: string, s: string, cs: set<char>, start: nat)
    requires start <= |s|
    ensures IndexOfAny(pre + s, cs, |pre| + start) == |pre| + IndexOfAny(s, cs, start)
    decreases |s| - start
  {
    if start < |s| && s[start] !in cs { IndexFrom(pre, s, cs, start + 1); }
  }

  // ------------------------------------------------------------------ splitting

  /** s.split(c) */
  function Split(s: string, c: char): (parts: seq<string>)
    ensures |parts| > 0
  {
    if s == "" then [""]
    else
      var rest := Split(s[1..], c);
      if s[0] == c then [""] + rest else [[s[0]] + rest[0]] + rest[1..]
  }

  lemma {:induction false} SplitNone(p: string, c: char)
    requires c !in p
    ensures Split(p, c) == [p]
  {
    if p != "" {
      SplitNone(p[1..], c);
      assert p == [p[0]] + p[1..];
    }
  }

  /** Splitting takes off a first part that lacks the separator. */
  lemma {:induction false} SplitFirst(p: string, rest: string, c: char)
    requires c !in p
    ensures Split(p + [c] + rest, c) == [p] + Split(rest, c)
  {
    var s := p + [c] + rest;
    if p == "" {
      assert s[1..] == rest;
    } else {
      assert s[1..] == p[1..] + [c] + rest;
      SplitFirst(p[1..], rest, c);
      assert p == [p[0]] + p[1..];
    }
  }

  /** The parts hold no separator, and every other character of the text is in one of them. */
  lemma {:induction false} SplitParts(s: string, c: char)
    ensures forall x :: x in s && x != c ==> exists k :: 0 <= k < |Split(s, c)| && x in Split(s, c)[k]
    ensures forall k :: 0 <= k < |Split(s, c)| ==> c !in Split(s, c)[k]
    ensures c in s <==> |Split(s, c)| > 1
  {
    if s != "" {
      SplitParts(s[1..], c);
      var rest, ps := Split(s[1..], c), Split(s, c);
      assert s == [s[0]] + s[1..];
      forall x | x in s && x != c ensures exists k :: 0 <= k < |ps| && x in ps[k] {
        if x == s[0] {
          assert x in ps[0];
        } else {
          var k :| 0 <= k < |rest| && x in rest[k];
          if s[0] == c { assert ps[k + 1] == rest[k]; } else { assert x in ps[k]; }
        }
      }
    }
  }

  lemma {:induction false} SplitHead(s: string, c: char)
    requires s != ""
    ensures var rest, ps := Split(s[1..], c), Split(s, c);
            && ps[0] == (if s[0] == c then "" else [s[0]] + rest[0])
            && ps[|ps| - 1] == if s[0] != c && |rest| == 1 then [s[0]] + rest[0] else rest[|rest| - 1]
  {
  }

  /** The ends of the text are the ends of the outer parts. */
  lemma {:induction false} SplitEnds(s: string, c: char)
    ensures var ps := Split(s, c);
            && (ps[0] != "" ==> s != "" && s[0] == ps[0][0])
            && (ps[|ps| - 1] != "" ==> s != "" && s[|s| - 1] == ps[|ps| - 1][|ps[|ps| - 1]| - 1])
  {
    if s != "" {
      var tail := s[1..];
      SplitEnds(tail, c);
      SplitHead(s, c);
      hide Split;
      if |Split(tail, c)| == 1 {
        SplitParts(tail, c);
        SplitNone(tail, c);
      }
      assert tail != "" ==> tail[|tail| - 1] == s[|s| - 1];
    }
  }
}
