/** Undoing the defanging of indicators: in-place rewriting of markers until none is left. */
module Defang {
  import opened Wrappers
  import opened Text

  datatype Rule = Rule(marker: string, repl: string)

  const RULES: seq<Rule> := [
    Rule("[.]", "."), Rule("(.)", "."), Rule("{.}", "."), Rule(" dot ", "."),
    Rule("[:]", ":"), Rule("[/]", "/"), Rule("[@]", "@"), Rule("[at]", "@"),
    Rule("hxxps", "https"), Rule("hxxp", "http"), Rule("fxp", "ftp")]

  const STRIP_CHARS: set<char> := {' ', '\t', '\r', '\n', '\"', '\'', '<', '>', '[', ']', '(', ')'}

  /** ASCII characters for which str.isspace holds. */
  const SPACE_CHARS: set<char> := {' ', '\t', '\n', '\U{0b}', '\U{0c}', '\r', '\U{1c}', '\U{1d}', '\U{1e}', '\U{1f}'}

  function CountX(s: string): nat {
    if s == "" then 0 else (if LowerChar(s[0]) == 'x' then 1 else 0) + CountX(s[1..])
  }

  lemma {:induction false} CountXAppend(a: string, b: string)
    ensures CountX(a + b) == CountX(a) + CountX(b)
  {
    if a == "" {
      assert a + b == b;
    } else {
      CountXAppend(a[1..], b);
      assert (a + b)[1..] == a[1..] + b;
    }
  }

  lemma {:induction false} CountXLower(s: string)
    ensures CountX(Lower(s)) == CountX(s)
  {
    if s != "" {
      CountXLower(s[1..]);
      assert Lower(s)[1..] == Lower(s[1..]);
    }
  }

  /** Each rewrite makes the text shorter, or keeps its length and removes an x. */
  predicate Shrinks(r: Rule) {
    |r.repl| < |r.marker| || (|r.repl| == |r.marker| && CountX(r.repl) < CountX(r.marker))
  }

  function RewriteAt(s: string, r: Rule, i: nat): string
    requires i + |r.marker| <= |s|
  {
    s[..i] + r.repl + s[i + |r.marker|..]
  }

  lemma {:induction false} RewriteShrinks(s: string, r: Rule, i: nat)
    requires Shrinks(r) && OccursAt(Lower(s), r.marker, i)
    ensures var t := RewriteAt(s, r, i);
            |t| < |s| || (|t| == |s| && CountX(t) < CountX(s))
  {
    var mid, rest := s[i..i + |r.marker|], s[i + |r.marker|..];
    CountXReplace(s[..i], mid, r.repl, rest);
    assert s == s[..i] + mid + rest;
    assert Lower(mid) == r.marker;
    CountXLower(mid);
  }

  lemma {:induction false} CountXReplace(a: string, mid: string, mid': string, b: string)
    ensures CountX(a + mid' + b) - CountX(a + mid + b) == CountX(mid') - CountX(mid)
  {
    CountXAppend(a + mid, b);
    CountXAppend(a, mid);
    CountXAppend(a + mid', b);
    CountXAppend(a, mid');
  }

  /** Replace the first occurrence, in any case, until there is none. */
  function Rewrite(s: string, r: Rule): string
    requires Shrinks(r)
    decreases |s|, CountX(s)
  {
    var at := Find(Lower(s), r.marker);
    if at.None? then s else
      RewriteShrinks(s, r, at.value);
      Rewrite(RewriteAt(s, r, at.value), r)
  }

  function RewriteAll(s: string, rules: seq<Rule>): string
    requires forall i :: 0 <= i < |rules| ==> Shrinks(rules[i])
    decreases |rules|
  {
    if rules == [] then s else RewriteAll(Rewrite(s, rules[0]), rules[1..])
  }

  lemma RulesShrink()
    ensures forall i :: 0 <= i < |RULES| ==> Shrinks(RULES[i])
  {
    forall i | 0 <= i < |RULES| ensures Shrinks(RULES[i]) {
      if i == 8 { assert CountX("hxxps") == 2 && CountX("https") == 0; }
      if i == 9 { assert CountX("hxxp") == 2 && CountX("http") == 0; }
      if i == 10 { assert CountX("fxp") == 1 && CountX("ftp") == 0; }
    }
  }

  /** _defang, without the shortcut for texts that hold no marker. */
  function Defanged(raw: string): string {
    RulesShrink();
    Strip(RewriteAll(Strip(Strip(raw, SPACE_CHARS), STRIP_CHARS), RULES), STRIP_CHARS)
  }

  ghost predicate Marked(s: string, rules: seq<Rule>) {
    exists i :: 0 <= i < |rules| && Contains(Lower(s), rules[i].marker)
  }

  /** The shortcut is sound: rewriting a text with no marker changes nothing. */
  lemma {:induction false} UnmarkedIsUnchanged(s: string, rules: seq<Rule>)
    requires forall i :: 0 <= i < |rules| ==> Shrinks(rules[i])
    requires !Marked(s, rules)
    ensures RewriteAll(s, rules) == s
  {
    if rules != [] {
      assert !Contains(Lower(s), rules[0].marker);
      assert Rewrite(s, rules[0]) == s;
      forall i | 0 <= i < |rules[1..]| ensures !Contains(Lower(s), rules[1..][i].marker) {
        assert rules[1..][i] == rules[i + 1];
      }
      UnmarkedIsUnchanged(s, rules[1..]);
    }
  }

  /** A trimmed text with no marker is its own defanged form. */
  lemma DefangedFixpoint(s: string)
    requires Trim(s, SPACE_CHARS) && Trim(s, STRIP_CHARS) && !Marked(s, RULES)
    ensures Defanged(s) == s
  {
    RulesShrink();
    TrimStrip(s, SPACE_CHARS);
    TrimStrip(s, STRIP_CHARS);
    UnmarkedIsUnchanged(s, RULES);
  }

  /** The loop over one marker. */
  method RewriteLoop(s: string, r: Rule) returns (out: string)
    requires Shrinks(r)
    ensures out == Rewrite(s, r)
  {
    out := s;
    var at := Find(Lower(out), r.marker);
    while at.Some?
      invariant at == Find(Lower(out), r.marker) && Rewrite(out, r) == Rewrite(s, r)
      decreases |out|, CountX(out)
    {
      RewriteShrinks(out, r, at.value);
      out := RewriteAt(out, r, at.value);
      at := Find(Lower(out), r.marker);
    }
  }

  method AnyMarker(s: string, rules: seq<Rule>) returns (marked: bool)
    ensures marked <==> Marked(s, rules)
  {
    var lowered := Lower(s);
    marked := false;
    for i := 0 to |rules|
      invariant marked <==> exists k :: 0 <= k < i && Contains(lowered, rules[k].marker)
    {
      if Find(lowered, rules[i].marker).Some? { marked := true; }
    }
  }

  /** The loops over all the markers. */
  method RewriteLoops(s: string, rules: seq<Rule>) returns (out: string)
    requires forall i :: 0 <= i < |rules| ==> Shrinks(rules[i])
    ensures out == RewriteAll(s, rules)
  {
    out := s;
    var i := 0;
    while i < |rules|
      invariant i <= |rules| && RewriteAll(out, rules[i..]) == RewriteAll(s, rules)
    {
      assert rules[i..][0] == rules[i] && rules[i..][1..] == rules[i + 1..];
      out := RewriteLoop(out, rules[i]);
      i := i + 1;
    }
  }

  /** _defang */
  method Defang(raw: string) returns (out: string)
    ensures out == Defanged(raw)
  {
    RulesShrink();
    out := Strip(Strip(raw, SPACE_CHARS), STRIP_CHARS);
    var marked := AnyMarker(out, RULES);
    if marked {
      out := RewriteLoops(out, RULES);
    } else {
      UnmarkedIsUnchanged(out, RULES);
    }
    out := Strip(out, STRIP_CHARS);
  }

  // ------------------------------------------------------- nothing defanged is left

  lemma {:induction false} RewriteClears(s: string, r: Rule)
    requires Shrinks(r)
    ensures !Contains(Lower(Rewrite(s, r)), r.marker)
    decreases |s|, CountX(s)
  {
    var at := Find(Lower(s), r.marker);
    if at.Some? {
      RewriteShrinks(s, r, at.value);
      RewriteClears(RewriteAt(s, r, at.value), r);
    }
  }

  predicate HxxpAt(s: string, i: nat) {
    i + 4 <= |s| && s[i] == 'h' && s[i + 1] == 'x' && s[i + 2] == 'x' && s[i + 3] == 'p'
  }

  lemma HxxpOccurs(s: string, i: nat)
    ensures OccursAt(s, "hxxp", i) <==> HxxpAt(s, i)
  {
    if i + 4 <= |s| {
      var part := s[i..i + 4];
      assert part[0] == s[i] && part[1] == s[i + 1] && part[2] == s[i + 2] && part[3] == s[i + 3];
    }
  }

  /** A text, in lower case, without hxxp anywhere. */
  ghost predicate NoHxxp(s: string) {
    forall i: nat :: !HxxpAt(s, i)
  }

  lemma NoHxxpIff(s: string)
    ensures NoHxxp(s) <==> !Contains(s, "hxxp")
  {
    hide HxxpAt, OccursAt;
    forall i: nat ensures OccursAt(s, "hxxp", i) <==> HxxpAt(s, i) { HxxpOccurs(s, i); }
    if Contains(s, "hxxp") {
      var i :| OccursAt(s, "hxxp", i);
      assert i >= 0 by { OccursInside(s, "hxxp", i); }
    }
  }

  lemma OccursInside(s: string, m: string, i: int)
    requires OccursAt(s, m, i)
    ensures i >= 0
  {
  }

  /** Rewriting one fxp to ftp brings no hxxp back: f and t are not in hxxp, and p is only its last letter. */
  lemma FtpBringsNoHxxp(s: string, t: string, i: nat)
    requires NoHxxp(s) && i + 3 <= |s| && |t| == |s|
    requires t[i] == 'f' && t[i + 1] == 't' && t[i + 2] == 'p'
    requires forall k :: 0 <= k < i || i + 3 <= k < |t| ==> t[k] == s[k]
    ensures NoHxxp(t)
  {
    forall k: nat ensures !HxxpAt(t, k) { assert !HxxpAt(s, k); }
  }

  lemma {:induction false} FxpKeepsNoHxxp(s: string, r: Rule)
    requires r == Rule("fxp", "ftp") && Shrinks(r) && NoHxxp(Lower(s))
    ensures NoHxxp(Lower(Rewrite(s, r)))
    decreases |s|, CountX(s)
  {
    hide NoHxxp, CountX, Lower, Shrinks;
    var at := Find(Lower(s), r.marker);
    if at.Some? {
      RewriteShrinks(s, r, at.value);
      var t := RewriteAt(s, r, at.value);
      FxpStep(s, t, at.value, r);
      FxpKeepsNoHxxp(t, r);
    }
  }

  lemma FxpStep(s: string, t: string, i: nat, r: Rule)
    requires r == Rule("fxp", "ftp") && OccursAt(Lower(s), r.marker, i) && t == RewriteAt(s, r, i) && NoHxxp(Lower(s))
    ensures NoHxxp(Lower(t))
  {
    FtpBringsNoHxxp(Lower(s), Lower(t), i);
  }

  /** The defanged text holds no hxxps, hxxp or fxp in any case. */
  lemma DefangedHasNoScheme(raw: string)
    ensures !Contains(Lower(Defanged(raw)), "hxxp")
    ensures !Contains(Lower(Defanged(raw)), "hxxps")
    ensures !Contains(Lower(Defanged(raw)), "fxp")
  {
    RulesShrink();
    var start := Strip(Strip(raw, SPACE_CHARS), STRIP_CHARS);
    var s1 := FirstRules(start, RULES, 9);
    var s3 := LastRules(s1, RULES[9..]);
    var i, j := StripPart(s3, STRIP_CHARS);
    PartHasNone(s3, i, j, "hxxp");
    PartHasNone(s3, i, j, "fxp");
    HxxpsHasHxxp(Lower(Defanged(raw)));
  }

  /** The last two rules clear hxxp and fxp. */
  lemma LastRules(s: string, rules: seq<Rule>) returns (t: string)
    requires rules == [Rule("hxxp", "http"), Rule("fxp", "ftp")]
    requires forall i :: 0 <= i < |rules| ==> Shrinks(rules[i])
    ensures t == RewriteAll(s, rules) && !Contains(Lower(t), "hxxp") && !Contains(Lower(t), "fxp")
  {
    var u := Rewrite(s, rules[0]);
    RewriteClears(s, rules[0]);
    NoHxxpIff(Lower(u));
    t := Rewrite(u, rules[1]);
    FxpKeepsNoHxxp(u, rules[1]);
    NoHxxpIff(Lower(t));
    RewriteClears(u, rules[1]);
    assert rules[1..] == [rules[1]] && rules[1..][1..] == [];
    assert RewriteAll(t, rules[1..][1..]) == t;
  }

  lemma {:induction false} FirstRules(s: string, rules: seq<Rule>, n: nat) returns (t: string)
    requires n <= |rules| && forall i :: 0 <= i < |rules| ==> Shrinks(rules[i])
    ensures forall i :: 0 <= i < |rules[n..]| ==> Shrinks(rules[n..][i])
    ensures RewriteAll(t, rules[n..]) == RewriteAll(s, rules)
    decreases n
  {
    t := s;
    if n > 0 {
      t := FirstRules(Rewrite(s, rules[0]), rules[1..], n - 1);
      assert rules[1..][n - 1..] == rules[n..];
    }
  }

  lemma PartHasNone(s: string, i: nat, j: nat, m: string)
    requires i <= j <= |s| && !Contains(Lower(s), m)
    ensures !Contains(Lower(s[i..j]), m)
  {
    assert Lower(s[i..j]) == Lower(s)[i..j];
    if Contains(Lower(s)[i..j], m) { PartContains(Lower(s), i, j, m); }
  }

  lemma HxxpsHasHxxp(s: string)
    requires !Contains(s, "hxxp")
    ensures !Contains(s, "hxxps")
  {
    if Contains(s, "hxxps") {
      var i :| OccursAt(s, "hxxps", i);
      LongerOccurs(s, i);
    }
  }

  lemma LongerOccurs(s: string, i: int)
    requires OccursAt(s, "hxxps", i)
    ensures OccursAt(s, "hxxp", i)
  {
    assert s[i..i + 4] == s[i..i + 5][..4];
  }
}
