/** Sorted arrays of 64-bit fingerprints and the shared segments that hold them. */
module Packed {

  type Fp = x: int | 0 <= x < 0x1_0000_0000_0000_0000

  /** Words in one page of shared memory: 4096 bytes of 8-byte items. */
  const PAGE_WORDS := 512

  ghost predicate StrictlyIncreasing(s: seq<Fp>) {
    forall i, j :: 0 <= i < j < |s| ==> s[i] < s[j]
  }

  /** Length in words of a segment asked to hold count words. */
  function PageRounded(count: nat): (n: nat)
    ensures count <= n < count + 512 && n % 512 == 0
  {
    (count + PAGE_WORDS - 1) / PAGE_WORDS * PAGE_WORDS
  }

  /** Everything a segment holds: the data, then zeros up to the page boundary. */
  function Segment(data: seq<Fp>): (words: seq<Fp>)
    ensures |words| == PageRounded(|data|) && words[..|data|] == data
    ensures forall i :: |data| <= i < |words| ==> words[i] == 0
  {
    data + seq(PageRounded(|data|) - |data|, _ => 0 as Fp)
  }

  /** np.unique: the elements of s in strictly increasing order. */
  function Unique(s: seq<Fp>): (r: seq<Fp>)
    ensures StrictlyIncreasing(r)
    ensures forall x :: x in r <==> x in s
    ensures |r| <= |s|
  {
    if s == [] then [] else
      var rest := Unique(s[1..]);
      assert s == [s[0]] + s[1..];
      InsertUnique(rest, s[0])
  }

  function InsertUnique(s: seq<Fp>, x: Fp): (r: seq<Fp>)
    requires StrictlyIncreasing(s)
    ensures StrictlyIncreasing(r)
    ensures forall y :: y in r <==> y == x || y in s
    ensures |r| <= |s| + 1
  {
    if s == [] || x < s[0] then ConsIncreasing(x, s); [x] + s
    else if x == s[0] then s
    else
      var rest := InsertUnique(s[1..], x);
      assert s == [s[0]] + s[1..];
      assert rest != [] ==> rest[0] in rest;
      ConsIncreasing(s[0], rest);
      [s[0]] + rest
  }

  lemma ConsIncreasing(x: Fp, s: seq<Fp>)
    requires StrictlyIncreasing(s) && (s == [] || x < s[0])
    ensures StrictlyIncreasing([x] + s)
  {
  }

  /** Two strictly increasing arrays with the same elements are the same array. */
  lemma {:induction false} IncreasingUnique(a: seq<Fp>, b: seq<Fp>)
    requires StrictlyIncreasing(a) && StrictlyIncreasing(b)
    requires forall x :: x in a <==> x in b
    ensures a == b
  {
    assert b == [] || b[0] in b;
    if a != [] {
      assert a[0] in b && b != [];
      assert b[0] in a;
      assert a[0] == b[0];
      forall x ensures x in a[1..] <==> x in b[1..] {
        assert x in a[1..] <==> x in a && x != a[0] by { TailMembers(a, x); }
        assert x in b[1..] <==> x in b && x != b[0] by { TailMembers(b, x); }
      }
      IncreasingUnique(a[1..], b[1..]);
      assert a == [a[0]] + a[1..] && b == [b[0]] + b[1..];
    }
  }

  lemma TailMembers(s: seq<Fp>, x: Fp)
    requires s != [] && StrictlyIncreasing(s)
    ensures x in s[1..] <==> x in s && x != s[0]
  {
    assert s == [s[0]] + s[1..];
  }
}
