/** Defanging undone: every spelling of a text reads as the text itself. */
module DefangLaws {
  import opened Wrappers
  import opened Text
  import opened Defang
  import opened Indicators

  /** One character of a text, as it stands or in one of the spellings people defang it with. */
  datatype Piece =
    | Bare(c: char)
    | SquareDot | RoundDot | CurlyDot | WordDot(word: string)
    | SquareColon | SquareSlash | SquareAt | WordAt(word: string)
  {
    function Spelling(): string {
      match this
      case Bare(c) => [c]
      case SquareDot => "[.]"
      case RoundDot => "(.)"
      case CurlyDot => "{.}"
      case WordDot(word) => word
      case SquareColon => "[:]"
      case SquareSlash => "[/]"
      case SquareAt => "[@]"
      case WordAt(word) => word
    }

    function Meaning(): char {
      match this
      case Bare(c) => c
      case SquareColon => ':'
      case SquareSlash => '/'
      case SquareAt => '@'
      case WordAt(_) => '@'
      case _ => '.'
    }

    /** Words in any case. */
    predicate Sound() {
      match this
      case WordDot(word) => Lower(word) == " dot "
      case WordAt(word) => Lower(word) == "[at]"
      case _ => true
    }
  }

  /** Where a dot is spelled as a word between spaces, no other space is written. */
  predicate Sound(ps: seq<Piece>) {
    && (forall i :: 0 <= i < |ps| ==> ps[i].Sound())
    && (forall i, j :: 0 <= i < |ps| && 0 <= j < |ps| && ps[i].WordDot? ==> ps[j] != Bare(' '))
  }

  /** The text as someone wrote it. */
  function Spelled(ps: seq<Piece>): string {
    if ps == [] then "" else ps[0].Spelling() + Spelled(ps[1..])
  }

  /** The text meant. */
  function Meant(ps: seq<Piece>): (r: string)
    ensures |r| == |ps| && forall i :: 0 <= i < |ps| ==> r[i] == ps[i].Meaning()
  {
    seq(|ps|, i requires 0 <= i < |ps| => ps[i].Meaning())
  }

  /** Nothing in the text, in any case, is a spelling. */
  ghost predicate Clean(s: string) {
    forall m :: m in ["[.]", "(.)", "{.}", " dot ", "[:]", "[/]", "[@]", "[at]", "hxxps", "hxxp", "fxp"] ==>
      !Contains(Lower(s), m)
  }

  predicate Trimmed(s: string) {
    s != "" && Trim(s, SPACE_CHARS) && Trim(s, STRIP_CHARS)
  }

  lemma CleanIsUnmarked(s: string)
    requires Clean(s)
    ensures forall i :: 0 <= i < |RULES| ==> !Contains(Lower(s), RULES[i].marker)
  {
    forall i | 0 <= i < |RULES| ensures !Contains(Lower(s), RULES[i].marker) {
      assert RULES[i].marker in ["[.]", "(.)", "{.}", " dot ", "[:]", "[/]", "[@]", "[at]", "hxxps", "hxxp", "fxp"];
    }
  }

  // ---------------------------------------------------------------------- one rule on a spelled text

  /** p is spelled with the marker of r. */
  predicate Uses(p: Piece, r: Rule) {
    !p.Bare? && Lower(p.Spelling()) == r.marker
  }

  function ResolveOne(p: Piece, r: Rule): Piece {
    if Uses(p, r) then Bare(p.Meaning()) else p
  }

  /** The pieces after r has rewritten its spellings. */
  function Resolved(ps: seq<Piece>, r: Rule): (qs: seq<Piece>)
    ensures |qs| == |ps| && forall i :: 0 <= i < |ps| ==> qs[i] == ResolveOne(ps[i], r)
  {
    seq(|ps|, i requires 0 <= i < |ps| => ResolveOne(ps[i], r))
  }

  /** The rules for single characters, in the order of the table. */
  predicate ForCharacter(r: Rule) {
    r in RULES[..8]
  }

  lemma SpellingMeans(p: Piece, r: Rule)
    requires p.Sound() && ForCharacter(r) && Uses(p, r)
    ensures r.repl == [p.Meaning()] && |r.marker| == |p.Spelling()| > 1 && ResolveOne(p, r).Sound()
  {
    var i :| 0 <= i < 8 && RULES[i] == r;
    assert p.Spelling() != "" && r.marker[|r.marker| - 1] == LowerChar(p.Spelling()[|r.marker| - 1]);
    assert r.marker[1] == LowerChar(p.Spelling()[1]) && r.marker[0] == LowerChar(p.Spelling()[0]);
  }

  lemma {:induction false} SpelledAppends(ps: seq<Piece>, qs: seq<Piece>)
    ensures Spelled(ps + qs) == Spelled(ps) + Spelled(qs)
  {
    if ps == [] {
      assert ps + qs == qs;
    } else {
      SpelledAppends(ps[1..], qs);
      FirstOf(ps, qs);
      Grouped(ps[0].Spelling(), Spelled(ps[1..]), Spelled(qs));
    }
  }

  lemma {:induction false} SpelledAround(ps: seq<Piece>, j: nat)
    requires j < |ps|
    ensures Spelled(ps) == Spelled(ps[..j]) + ps[j].Spelling() + Spelled(ps[j + 1..])
  {
    SpelledAppends(ps[..j], ps[j..]);
    assert ps[..j] + ps[j..] == ps && ps[j..][1..] == ps[j + 1..];
  }

  /** A marker is told by two characters in a row, wherever they stand in another. */
  lemma MarkersDiffer(j: nat, k: nat, i: nat)
    requires j < 8 && k < 8 && i < |RULES[j].marker| && RULES[j].marker[i] == RULES[k].marker[0]
    requires i + 1 < |RULES[j].marker| ==> RULES[j].marker[i + 1] == RULES[k].marker[1]
    ensures j == k
  {
    OpenersBegin(j, i);
    OpenersBegin(k, 0);
    TwoCharactersTell(j, k);
  }

  /** What a marker begins with stands at its beginning alone, but for the space that ends " dot ". */
  lemma OpenersBegin(j: nat, i: nat)
    requires j < 8 && i < |RULES[j].marker|
    ensures RULES[j].marker[i] in {'[', '(', '{', ' '} <==> i == 0 || (j == 3 && i == 4)
    ensures RULES[j].marker[i] == ' ' ==> j == 3
    ensures |RULES[j].marker| >= 3
  {
  }

  lemma TwoCharactersTell(j: nat, k: nat)
    requires j < 8 && k < 8 && |RULES[j].marker| >= 3 && |RULES[k].marker| >= 3
    requires RULES[j].marker[0] == RULES[k].marker[0] && RULES[j].marker[1] == RULES[k].marker[1]
    ensures j == k
  {
  }

  lemma SpellingIsAMarker(p: Piece) returns (k: nat)
    requires p.Sound() && !p.Bare?
    ensures k < 8 && Lower(p.Spelling()) == RULES[k].marker
  {
    k := if p.SquareDot? then 0 else if p.RoundDot? then 1 else if p.CurlyDot? then 2 else if p.WordDot? then 3
         else if p.SquareColon? then 4 else if p.SquareSlash? then 5 else if p.SquareAt? then 6 else 7;
  }

  /** No marker begins in a piece spelled with another. */
  lemma OtherPieceLacks(p: Piece, rest: string, r: Rule, i: nat)
    requires p.Sound() && !p.Bare? && ForCharacter(r) && !Uses(p, r) && i < |p.Spelling()|
    ensures !OccursAt(Lower(p.Spelling() + rest), r.marker, i)
  {
    var k :| 0 <= k < 8 && RULES[k] == r;
    var w, t := p.Spelling(), Lower(p.Spelling() + rest);
    if OccursAt(t, r.marker, i) {
      MarkersAreLong(r);
      assert t[i] == r.marker[0] && t[i + 1] == r.marker[1];
      assert t[i] == Lower(w)[i] && (i + 1 < |w| ==> t[i + 1] == Lower(w)[i + 1]);
      var j := SpellingIsAMarker(p);
      MarkersDiffer(j, k, i);
    }
  }

  predicate AllBare(ps: seq<Piece>) {
    forall i :: 0 <= i < |ps| ==> ps[i].Bare?
  }

  /** A spelling begins with a character that markers hold nowhere else, or with the space of a word. */
  lemma SpellingBegins(p: Piece, r: Rule, n: nat)
    requires p.Sound() && !p.Bare? && ForCharacter(r) && 1 <= n < |r.marker|
    ensures p.Spelling() != "" && (LowerChar(p.Spelling()[0]) == r.marker[n] ==> p.WordDot? && r.marker[0] == ' ')
  {
    var k :| 0 <= k < 8 && RULES[k] == r;
    var j := SpellingIsAMarker(p);
    OpenersBegin(j, 0);
    OpenersBegin(k, n);
    assert Lower(p.Spelling())[0] == RULES[j].marker[0];
  }

  lemma {:induction false} BareAhead(ps: seq<Piece>, n: nat)
    requires n <= |ps| && AllBare(ps[..n])
    ensures Spelled(ps) == Meant(ps)[..n] + Spelled(ps[n..]) && |Meant(ps)[..n]| == n
  {
    hide Spelled;
    assert ps == ps[..n] + ps[n..];
    SpelledAppends(ps[..n], ps[n..]);
    BareIsMeant(ps[..n]);
    assert Meant(ps[..n]) == Meant(ps)[..n];
  }

  /** A marker that begins in a bare character lies in bare characters, so in the text meant. */
  lemma {:induction false} BareMarkerIsMeant(ps: seq<Piece>, r: Rule, n: nat)
    requires Sound(ps) && ForCharacter(r) && OccursAt(Lower(Spelled(ps)), r.marker, 0)
    requires ps != [] && ps[0].Bare? && n <= |r.marker|
    ensures n <= |ps| && AllBare(ps[..n])
  {
    hide Spelled, ForCharacter, Meant, Piece.Sound, Piece.Spelling;
    if n == 1 {
      assert ps[..1] == [ps[0]];
    } else if n > 1 {
      var m := n - 1;
      BareMarkerIsMeant(ps, r, m);
      BareAhead(ps, m);
      CharacterAt(Meant(ps)[..m], Spelled(ps[m..]), r.marker, m);
      BareAhead(ps, 0);
      NextIsBare(ps, r, m);
      assert ps[..n] == ps[..m] + [ps[m]];
    }
  }

  lemma CharacterAt(before: string, after: string, m: string, n: nat)
    requires OccursAt(Lower(before + after), m, 0) && |before| == n < |m|
    ensures after != "" && LowerChar(after[0]) == m[n]
  {
    assert Lower(before + after)[0..|m|][n] == LowerChar(after[0]);
  }

  lemma {:induction false} NextIsBare(ps: seq<Piece>, r: Rule, n: nat)
    requires Sound(ps) && ForCharacter(r) && ps != [] && ps[0].Bare? && 1 <= n < |r.marker| && n <= |ps|
    requires OccursAt(Lower(Spelled(ps)), r.marker, 0)
    requires Spelled(ps[n..]) != "" && LowerChar(Spelled(ps[n..])[0]) == r.marker[n]
    ensures n < |ps| && ps[n].Bare?
  {
    hide ForCharacter, Spelled;
    SpelledStep(ps[n..]);
    SpelledStep(ps);
    assert ps[..n] + ps[n..] == ps;
    if n < |ps| && !ps[n].Bare? {
      SpellingBegins(ps[n], r, n);
      FirstCharacter(ps[0].c, Spelled(ps[1..]), r.marker);
      BareSpace(ps[0].c);
    }
  }

  lemma FirstCharacter(c: char, rest: string, m: string)
    requires m != "" && OccursAt(Lower([c] + rest), m, 0)
    ensures LowerChar(c) == m[0]
  {
    assert Lower([c] + rest)[0..|m|][0] == LowerChar(c);
  }

  lemma BareSpace(c: char)
    ensures LowerChar(c) == ' ' ==> c == ' '
  {
  }

  lemma {:induction false} SpelledStep(ps: seq<Piece>)
    ensures Spelled(ps[..0]) == ""
    ensures ps != [] ==> Spelled(ps) == ps[0].Spelling() + Spelled(ps[1..])
    ensures Sound(ps) && ps != [] ==> ps[0].Sound() && Sound(ps[1..])
  {
  }

  lemma {:induction false} PrefixStep(ps: seq<Piece>, j: nat)
    requires j + 1 <= |ps|
    ensures |Spelled(ps[..j + 1])| == |ps[0].Spelling()| + |Spelled(ps[1..][..j])|
  {
    SpelledStep(ps[..j + 1]);
    assert ps[..j + 1][1..] == ps[1..][..j];
  }

  lemma NothingOccursInNothing(r: Rule, i: int)
    requires ForCharacter(r)
    ensures !OccursAt(Lower(Spelled([])), r.marker, i)
  {
    MarkersAreLong(r);
  }

  lemma {:induction false} NotInFirstPiece(ps: seq<Piece>, r: Rule, i: nat)
    requires Sound(ps) && ForCharacter(r) && ps != [] && !Uses(ps[0], r) && i < |ps[0].Spelling()|
    requires !Contains(Lower(Meant(ps)), r.marker)
    ensures !OccursAt(Lower(Spelled(ps)), r.marker, i)
  {
    hide ForCharacter, Spelled, Contains, Lower, Uses, OccursAt, Meant;
    SpelledStep(ps);
    if !ps[0].Bare? {
      OtherPieceLacks(ps[0], Spelled(ps[1..]), r, i);
    } else if OccursAt(Lower(Spelled(ps)), r.marker, 0) {
      BareMarkerIsMeant(ps, r, |r.marker|);
      BareAhead(ps, |r.marker|);
      FrontOccurs(Meant(ps), Spelled(ps), r.marker);
    }
  }

  lemma FrontOccurs(meant: string, spelled: string, m: string)
    requires OccursAt(Lower(spelled), m, 0) && |m| <= |meant| && meant[..|m|] <= spelled
    ensures Contains(Lower(meant), m)
  {
    assert Lower(meant)[0..|m|] == Lower(spelled)[0..|m|];
    assert OccursAt(Lower(meant), m, 0);
  }

  lemma MeantLater(ps: seq<Piece>, m: string)
    requires ps != [] && !Contains(Lower(Meant(ps)), m)
    ensures !Contains(Lower(Meant(ps[1..])), m)
  {
    assert Meant(ps) == [ps[0].Meaning()] + Meant(ps[1..]);
    CleanPart([ps[0].Meaning()], Meant(ps[1..]), m);
  }

  /** Every occurrence of the marker is at or after a piece spelled with it. */
  lemma {:induction false} OccursAfterAPiece(ps: seq<Piece>, r: Rule, i: nat) returns (j: nat)
    requires Sound(ps) && ForCharacter(r) && OccursAt(Lower(Spelled(ps)), r.marker, i)
    requires !Contains(Lower(Meant(ps)), r.marker)
    ensures j < |ps| && Uses(ps[j], r) && |Spelled(ps[..j])| <= i
  {
    hide *;
    NothingOccursInNothing(r, i);
    SpelledStep(ps);
    if Uses(ps[0], r) {
      j := 0;
    } else {
      var w := ps[0].Spelling();
      if i < |w| { NotInFirstPiece(ps, r, i); }
      LaterOccurrence(w, Spelled(ps[1..]), r.marker, i);
      MeantLater(ps, r.marker);
      j := OccursAfterAPiece(ps[1..], r, i - |w|);
      PrefixStep(ps, j);
      j := j + 1;
    }
  }

  lemma MarkersAreLong(r: Rule)
    requires ForCharacter(r)
    ensures |r.marker| >= 3 && Shrinks(r)
  {
  }

  lemma LaterOccurrence(w: string, rest: string, m: string, i: nat)
    requires OccursAt(Lower(w + rest), m, i) && i >= |w|
    ensures OccursAt(Lower(rest), m, i - |w|)
  {
    assert Lower(w + rest)[i..i + |m|] == Lower(rest)[i - |w|..i - |w| + |m|];
  }

  /** The first piece spelled with the marker, if any. */
  function FirstUse(ps: seq<Piece>, r: Rule): (j: nat)
    ensures j <= |ps| && (j < |ps| ==> Uses(ps[j], r)) && forall i :: 0 <= i < j ==> !Uses(ps[i], r)
  {
    if ps == [] || Uses(ps[0], r) then 0 else 1 + FirstUse(ps[1..], r)
  }

  lemma {:induction false} LongerPrefix(ps: seq<Piece>, i: nat, j: nat)
    requires i <= j <= |ps|
    ensures |Spelled(ps[..i])| <= |Spelled(ps[..j])|
  {
    assert ps[..j] == ps[..i] + ps[i..j];
    SpelledAppends(ps[..i], ps[i..j]);
  }

  /** The search finds the first piece spelled with the marker. */
  lemma {:induction false} FindsFirstUse(ps: seq<Piece>, r: Rule)
    requires Sound(ps) && ForCharacter(r) && !Contains(Lower(Meant(ps)), r.marker)
    ensures Find(Lower(Spelled(ps)), r.marker)
            == if FirstUse(ps, r) == |ps| then None else Some(|Spelled(ps[..FirstUse(ps, r)])|)
  {
    hide *;
    var first := FirstUse(ps, r);
    var bound := |Spelled(ps[..first])|;
    forall i: nat | first == |ps| || i < bound ensures !OccursAt(Lower(Spelled(ps)), r.marker, i) {
      if OccursAt(Lower(Spelled(ps)), r.marker, i) {
        var j := OccursAfterAPiece(ps, r, i);
        LongerPrefix(ps, first, j);
      }
    }
    if first == |ps| {
      FindsNone(Lower(Spelled(ps)), r.marker);
    } else {
      UseOccurs(ps, r, first);
      FindsAt(Lower(Spelled(ps)), r.marker, bound);
    }
  }

  lemma {:induction false} UseOccurs(ps: seq<Piece>, r: Rule, j: nat)
    requires j < |ps| && Uses(ps[j], r)
    ensures OccursAt(Lower(Spelled(ps)), r.marker, |Spelled(ps[..j])|)
  {
    hide Spelled;
    SpelledAround(ps, j);
    var before, after := Spelled(ps[..j]), Spelled(ps[j + 1..]);
    MiddleOccurs(before, ps[j].Spelling(), after, r.marker);
  }

  lemma MiddleOccurs(before: string, w: string, after: string, m: string)
    requires Lower(w) == m
    ensures OccursAt(Lower(before + w + after), m, |before|)
  {
    assert Lower(before + w + after)[|before|..|before| + |m|] == Lower(w);
  }

  /** Rewriting there turns the piece into the character it means. */
  lemma {:induction false} RewritesOne(ps: seq<Piece>, r: Rule, j: nat)
    requires Sound(ps) && ForCharacter(r) && j < |ps| && Uses(ps[j], r)
    ensures var qs := ps[j := Bare(ps[j].Meaning())];
            && Sound(qs) && Meant(qs) == Meant(ps) && Resolved(qs, r) == Resolved(ps, r)
            && |Spelled(qs)| < |Spelled(ps)|
            && |Spelled(ps[..j])| + |r.marker| <= |Spelled(ps)|
            && RewriteAt(Spelled(ps), r, |Spelled(ps[..j])|) == Spelled(qs)
  {
    hide Spelled, ForCharacter;
    var c := Bare(ps[j].Meaning());
    var qs := ps[j := c];
    SpellingMeans(ps[j], r);
    SpelledAround(ps, j);
    SpelledAround(qs, j);
    assert qs[..j] == ps[..j] && qs[j + 1..] == ps[j + 1..];
    MiddleReplaced(Spelled(ps[..j]), ps[j].Spelling(), Spelled(ps[j + 1..]), r);
    assert c.Spelling() == r.repl;
    assert Resolved(qs, r) == Resolved(ps, r);
  }

  lemma MiddleReplaced(before: string, w: string, after: string, r: Rule)
    requires |w| == |r.marker|
    ensures RewriteAt(before + w + after, r, |before|) == before + r.repl + after
  {
    assert (before + w + after)[|before| + |w|..] == after && (before + w + after)[..|before|] == before;
  }

  /** One rule rewrites exactly the pieces spelled with its marker. */
  lemma {:induction false} RewritesItsPieces(ps: seq<Piece>, r: Rule)
    requires Sound(ps) && ForCharacter(r) && Shrinks(r) && !Contains(Lower(Meant(ps)), r.marker)
    ensures Meant(Resolved(ps, r)) == Meant(ps)
    ensures Rewrite(Spelled(ps), r) == Spelled(Resolved(ps, r)) && Sound(Resolved(ps, r))
    decreases |Spelled(ps)|
  {
    hide Spelled, ForCharacter, Lower, Shrinks, Uses, CountX, RewriteAt, Find, Piece.Sound;
    var j := FirstUse(ps, r);
    FindsFirstUse(ps, r);
    if j == |ps| {
      NothingResolves(ps, r);
    } else {
      RewritesOne(ps, r, j);
      UseOccurs(ps, r, j);
      RewriteShrinks(Spelled(ps), r, |Spelled(ps[..j])|);
      RewritesItsPieces(ps[j := Bare(ps[j].Meaning())], r);
    }
  }

  lemma NothingResolves(ps: seq<Piece>, r: Rule)
    requires forall i :: 0 <= i < |ps| ==> !Uses(ps[i], r)
    ensures Resolved(ps, r) == ps
  {
  }

  // ---------------------------------------------------------------------------- the whole table

  function ResolvedBy(ps: seq<Piece>, rules: seq<Rule>): seq<Piece>
    decreases |rules|
  {
    if rules == [] then ps else ResolvedBy(Resolved(ps, rules[0]), rules[1..])
  }

  lemma {:induction false} RewritesThePieces(ps: seq<Piece>, rules: seq<Rule>, n: nat)
    requires Sound(ps) && n <= |rules| && forall i :: 0 <= i < |rules| ==> Shrinks(rules[i])
    requires forall i :: 0 <= i < n ==> ForCharacter(rules[i]) && !Contains(Lower(Meant(ps)), rules[i].marker)
    ensures forall i :: 0 <= i < |rules[n..]| ==> Shrinks(rules[n..][i])
    ensures RewriteAll(Spelled(ps), rules) == RewriteAll(Spelled(ResolvedBy(ps, rules[..n])), rules[n..])
    decreases n
  {
    hide ForCharacter, Shrinks, Spelled, Sound, Rewrite;
    if n > 0 {
      RewritesItsPieces(ps, rules[0]);
      RewritesThePieces(Resolved(ps, rules[0]), rules[1..], n - 1);
      assert rules[1..][n - 1..] == rules[n..] && rules[..n][1..] == rules[1..][..n - 1];
    } else {
      assert rules[0..] == rules;
    }
  }

  /** Resolving keeps what the pieces mean; a piece whose marker is among the rules ends up bare. */
  lemma {:induction false} ResolvedByMeans(ps: seq<Piece>, rules: seq<Rule>)
    ensures |ResolvedBy(ps, rules)| == |ps|
    ensures forall i :: 0 <= i < |ps| ==> ResolvedBy(ps, rules)[i].Meaning() == ps[i].Meaning()
    ensures forall i, r :: 0 <= i < |ps| && r in rules && Uses(ps[i], r) ==> ResolvedBy(ps, rules)[i].Bare?
    ensures forall i :: 0 <= i < |ps| && ps[i].Bare? ==> ResolvedBy(ps, rules)[i].Bare?
    decreases |rules|
  {
    if rules != [] {
      ResolvedByMeans(Resolved(ps, rules[0]), rules[1..]);
      assert rules == [rules[0]] + rules[1..];
    }
  }

  lemma {:induction false} BareIsMeant(ps: seq<Piece>)
    requires forall i :: 0 <= i < |ps| ==> ps[i].Bare?
    ensures Spelled(ps) == Meant(ps)
  {
    if ps != [] {
      BareIsMeant(ps[1..]);
      assert Meant(ps) == [ps[0].c] + Meant(ps[1..]);
    }
  }

  /** After the first eight rules the text is the one meant. */
  lemma {:induction false} CharactersUndone(ps: seq<Piece>)
    requires Sound(ps) && forall i :: 0 <= i < 8 ==> !Contains(Lower(Meant(ps)), RULES[i].marker)
    ensures forall i :: 0 <= i < |RULES| ==> Shrinks(RULES[i])
    ensures forall i :: 0 <= i < |RULES[8..]| ==> Shrinks(RULES[8..][i])
    ensures RewriteAll(Spelled(ps), RULES) == RewriteAll(Meant(ps), RULES[8..])
  {
    hide Spelled, RewriteAll, Shrinks, ResolvedBy;
    RulesShrink();
    var first := RULES[..8];
    assert forall i :: 0 <= i < 8 ==> RULES[i] == first[i] && first[i] in first;
    RewritesThePieces(ps, RULES, 8);
    ResolvedByMeans(ps, first);
    var qs := ResolvedBy(ps, first);
    forall i | 0 <= i < |qs| ensures qs[i].Bare? {
      if !ps[i].Bare? {
        var k := SpellingIsAMarker(ps[i]);
        assert Uses(ps[i], first[k]);
      }
    }
    BareIsMeant(qs);
    assert Meant(qs) == Meant(ps);
  }

  /**
   Defanging undoes every spelling: a text of any length, with any of its dots, colons, slashes and ats
   written as [.], (.), {.}, " dot ", [:], [/], [@] or [at], in any mixture and any case, reads as the
   text meant.
   */
  lemma {:induction false} SpellingsAreUndone(ps: seq<Piece>)
    requires Sound(ps) && Trimmed(Spelled(ps)) && Trimmed(Meant(ps)) && Clean(Meant(ps))
    ensures Defanged(Spelled(ps)) == Meant(ps)
  {
    hide Spelled, RewriteAll;
    CharactersUndone(ps);
    TrimStrip(Spelled(ps), SPACE_CHARS);
    TrimStrip(Spelled(ps), STRIP_CHARS);
    CleanIsUnmarked(Meant(ps));
    assert forall i :: 0 <= i < |RULES[8..]| ==> RULES[8..][i] == RULES[8 + i];
    UnmarkedIsUnchanged(Meant(ps), RULES[8..]);
    TrimStrip(Meant(ps), STRIP_CHARS);
  }

  /** Any text is spelled as it stands. */
  lemma BareText(text: string) returns (ps: seq<Piece>)
    ensures Sound(ps) && AllBare(ps) && Spelled(ps) == text && Meant(ps) == text
  {
    ps := seq(|text|, i requires 0 <= i < |text| => Bare(text[i]));
    assert Meant(ps) == text;
    BareIsMeant(ps);
  }

  /** The same for one spelling between any two texts; a dot written as a word needs them free of spaces. */
  lemma OneSpellingIsUndone(p: string, piece: Piece, q: string)
    requires piece.Sound() && !piece.Bare? && (piece.WordDot? ==> ' ' !in p && ' ' !in q)
    requires Trimmed(p + piece.Spelling() + q) && Trimmed(p + [piece.Meaning()] + q)
    requires Clean(p + [piece.Meaning()] + q)
    ensures Defanged(p + piece.Spelling() + q) == p + [piece.Meaning()] + q
  {
    hide Spelled, Defanged, Clean, Piece.Spelling, Piece.Meaning;
    var ps := BareText(p);
    var qs := BareText(q);
    var all := ps + [piece] + qs;
    AroundSpelled(ps, piece, qs);
    AroundSound(ps, piece, qs);
    SpellingsAreUndone(all);
  }

  lemma {:induction false} AroundSpelled(ps: seq<Piece>, piece: Piece, qs: seq<Piece>)
    ensures Spelled(ps + [piece] + qs) == Spelled(ps) + piece.Spelling() + Spelled(qs)
    ensures Meant(ps + [piece] + qs) == Meant(ps) + [piece.Meaning()] + Meant(qs)
  {
    SpelledAppends(ps + [piece], qs);
    SpelledAppends(ps, [piece]);
    OnePieceSpelled(piece);
    hide Spelled, Piece.Spelling, Piece.Meaning;
    assert Meant(ps + [piece] + qs) == Meant(ps) + [piece.Meaning()] + Meant(qs);
  }

  lemma {:induction false} OnePieceSpelled(piece: Piece)
    ensures Spelled([piece]) == piece.Spelling()
  {
    assert [piece][1..] == [] && Spelled([]) == "";
  }

  lemma AroundSound(ps: seq<Piece>, piece: Piece, qs: seq<Piece>)
    requires AllBare(ps) && AllBare(qs) && piece.Sound() && !piece.Bare?
    requires piece.WordDot? ==> ' ' !in Meant(ps) && ' ' !in Meant(qs)
    ensures Sound(ps + [piece] + qs)
  {
    if piece.WordDot? {
      forall j | 0 <= j < |ps| ensures ps[j] != Bare(' ') { assert Meant(ps)[j] in Meant(ps); }
      forall j | 0 <= j < |qs| ensures qs[j] != Bare(' ') { assert Meant(qs)[j] in Meant(qs); }
    }
  }

  // -------------------------------------------------------------------------------- the schemes

  /** The scheme a defanged one stands for. */
  function SchemeMeant(word: string): string
    requires Lower(word) in ["hxxp", "hxxps", "fxp"]
  {
    if Lower(word) == "hxxp" then "http" else if Lower(word) == "hxxps" then "https" else "ftp"
  }

  /** A scheme word brings in none of the markers for single characters. */
  lemma WordHoldsNone(word: string, scheme: string, rest: string, i: nat)
    requires Lower(word) in ["hxxp", "hxxps", "fxp"] && i < 8 && !Contains(Lower(scheme + rest), RULES[i].marker)
    ensures !Contains(Lower(word + rest), RULES[i].marker)
  {
    var m := RULES[i].marker;
    CleanPart(scheme, rest, m);
    if Contains(Lower(word + rest), m) {
      var at :| OccursAt(Lower(word + rest), m, at);
      OccursInside(Lower(word + rest), m, at);
      if at < |word| {
        WordBeginsNone(word, rest, i, at);
      } else {
        LaterOccurrence(word, rest, m, at);
      }
    }
  }

  lemma WordBeginsNone(word: string, rest: string, i: nat, at: nat)
    requires Lower(word) in ["hxxp", "hxxps", "fxp"] && i < 8 && at < |word|
    ensures !OccursAt(Lower(word + rest), RULES[i].marker, at)
  {
    var t, m := Lower(word + rest), RULES[i].marker;
    OpenersBegin(i, 0);
    assert t[at] == Lower(word)[at] && t[at] !in {'[', '(', '{', ' '};
    if at + |m| <= |t| { assert t[at..at + |m|][0] == t[at]; }
  }

  lemma WordAtFront(word: string, rest: string, m: string)
    requires Lower(word) == m
    ensures OccursAt(Lower(word + rest), m, 0)
  {
    assert Lower(word + rest)[0..|m|] == Lower(word);
  }

  /** The word at the front is rewritten, and nothing else. */
  lemma {:induction false} FrontRewritten(word: string, rest: string, r: Rule)
    requires Shrinks(r) && Lower(word) == r.marker && !Contains(Lower(r.repl + rest), r.marker)
    ensures Rewrite(word + rest, r) == r.repl + rest
  {
    hide CountX, Shrinks;
    var s := word + rest;
    WordAtFront(word, rest, r.marker);
    assert Find(Lower(s), r.marker) == Some(0);
    RewriteShrinks(s, r, 0);
    assert RewriteAt(s, r, 0) == r.repl + rest;
  }

  lemma CleanPart(a: string, rest: string, m: string)
    requires !Contains(Lower(a + rest), m)
    ensures !Contains(Lower(rest), m)
  {
    assert Lower(a + rest)[|a|..|a + rest|] == Lower(rest);
    if Contains(Lower(rest), m) { PartContains(Lower(a + rest), |a|, |a + rest|, m); }
  }

  lemma NotInTheWord(word: string, rest: string, m: string, i: nat)
    requires (Lower(word) == "hxxp" && m == "hxxps") || (Lower(word) == "fxp" && m in ["hxxps", "hxxp"])
    requires rest != "" && rest[0] == ':' && i < |word|
    ensures !OccursAt(Lower(word + rest), m, i)
  {
    var t := Lower(word + rest);
    assert t[i] == Lower(word)[i] && t[|word|] == ':';
    if i + |m| <= |t| {
      var part := t[i..i + |m|];
      assert part[0] == t[i] && part[|m| - 1] == t[i + |m| - 1];
    }
  }

  /** Another scheme marker does not begin in the word. */
  lemma OtherSchemeLacks(word: string, rest: string, m: string)
    requires (Lower(word) == "hxxp" && m == "hxxps") || (Lower(word) == "fxp" && m in ["hxxps", "hxxp"])
    requires rest != "" && rest[0] == ':' && !Contains(Lower(rest), m)
    ensures !Contains(Lower(word + rest), m)
  {
    hide OccursAt;
    if Contains(Lower(word + rest), m) {
      var i :| OccursAt(Lower(word + rest), m, i);
      OccursInside(Lower(word + rest), m, i);
      if i < |word| {
        NotInTheWord(word, rest, m, i);
      } else {
        LaterOccurrence(word, rest, m, i);
      }
    }
  }

  lemma SchemeRules()
    ensures RULES[8..] == [Rule("hxxps", "https"), Rule("hxxp", "http"), Rule("fxp", "ftp")]
  {
  }

  lemma {:induction false} ThreeRules(s: string, rules: seq<Rule>)
    requires |rules| == 3 && forall i :: 0 <= i < 3 ==> Shrinks(rules[i])
    ensures RewriteAll(s, rules) == Rewrite(Rewrite(Rewrite(s, rules[0]), rules[1]), rules[2])
  {
    hide Rewrite, Shrinks;
    var t := Rewrite(s, rules[0]);
    var u := Rewrite(t, rules[1]);
    assert rules[1..][1..][1..] == [] && rules[1..][0] == rules[1] && rules[1..][1..][0] == rules[2];
    assert RewriteAll(Rewrite(u, rules[2]), []) == Rewrite(u, rules[2]);
    assert RewriteAll(u, rules[1..][1..]) == Rewrite(u, rules[2]);
    assert RewriteAll(t, rules[1..]) == Rewrite(u, rules[2]);
  }

  lemma {:induction false} AbsentIsKept(s: string, r: Rule)
    requires Shrinks(r) && !Contains(Lower(s), r.marker)
    ensures Rewrite(s, r) == s
  {
  }

  lemma {:induction false} SchemeRewritten(word: string, rest: string, rules: seq<Rule>)
    requires rules == [Rule("hxxps", "https"), Rule("hxxp", "http"), Rule("fxp", "ftp")]
    requires forall i :: 0 <= i < |rules| ==> Shrinks(rules[i])
    requires Lower(word) in ["hxxp", "hxxps", "fxp"] && rest != "" && rest[0] == ':'
    requires Clean(SchemeMeant(word) + rest)
    ensures RewriteAll(word + rest, rules) == SchemeMeant(word) + rest
  {
    hide Rewrite, Shrinks, Contains, Lower;
    var scheme := SchemeMeant(word);
    var done := scheme + rest;
    ThreeRules(word + rest, rules);
    assert !Contains(Lower(done), "hxxps") && !Contains(Lower(done), "hxxp") && !Contains(Lower(done), "fxp");
    CleanPart(scheme, rest, "hxxps");
    CleanPart(scheme, rest, "hxxp");
    AbsentIsKept(done, rules[1]);
    AbsentIsKept(done, rules[2]);
    if Lower(word) == "hxxps" {
      FrontRewritten(word, rest, rules[0]);
    } else {
      OtherSchemeLacks(word, rest, "hxxps");
      AbsentIsKept(word + rest, rules[0]);
      if Lower(word) == "hxxp" {
        FrontRewritten(word, rest, rules[1]);
      } else {
        OtherSchemeLacks(word, rest, "hxxp");
        AbsentIsKept(word + rest, rules[1]);
        FrontRewritten(word, rest, rules[2]);
      }
    }
  }

  lemma JoinedSound(ws: seq<Piece>, ps: seq<Piece>, word: string)
    requires Sound(ws) && AllBare(ws) && Meant(ws) == word && Lower(word) in ["hxxp", "hxxps", "fxp"] && Sound(ps)
    ensures Sound(ws + ps)
  {
    forall j | 0 <= j < |ws| ensures ws[j] != Bare(' ') { assert LowerChar(word[j]) == Lower(word)[j]; }
  }

  /** And hxxp, hxxps and fxp before a colon, in any case, read as http, https and ftp. */
  lemma {:induction false} SchemesAreUndone(word: string, ps: seq<Piece>)
    requires Lower(word) in ["hxxp", "hxxps", "fxp"] && Sound(ps) && ps != [] && Meant(ps)[0] == ':'
    requires Trimmed(word + Spelled(ps)) && Trimmed(SchemeMeant(word) + Meant(ps))
    requires Clean(SchemeMeant(word) + Meant(ps))
    ensures Defanged(word + Spelled(ps)) == SchemeMeant(word) + Meant(ps)
  {
    hide Spelled, RewriteAll, Shrinks, Clean;
    var ws := BareText(word);
    SpelledAppends(ws, ps);
    assert Meant(ws + ps) == word + Meant(ps);
    JoinedSound(ws, ps, word);
    CleanIsUnmarked(SchemeMeant(word) + Meant(ps));
    forall i | 0 <= i < 8 ensures !Contains(Lower(word + Meant(ps)), RULES[i].marker) {
      WordHoldsNone(word, SchemeMeant(word), Meant(ps), i);
    }
    CharactersUndone(ws + ps);
    SchemeRules();
    SchemeRewritten(word, Meant(ps), RULES[8..]);
    TrimStrip(word + Spelled(ps), SPACE_CHARS);
    TrimStrip(word + Spelled(ps), STRIP_CHARS);
    TrimStrip(SchemeMeant(word) + Meant(ps), STRIP_CHARS);
  }

  // ----------------------------------------------------------------------------------- the ends

  lemma StripFront(c: char, core: string, cs: set<char>)
    requires core != "" && Trim(core, cs)
    ensures Strip([c] + core, cs) == if c in cs then core else [c] + core
  {
    var s := [c] + core;
    assert s[1..] == core && s[|s| - 1] == core[|core| - 1];
    TrimStrip(core, cs);
    if c !in cs { TrimStrip(s, cs); }
  }

  lemma StripBack(c: char, core: string, cs: set<char>)
    requires core != "" && Trim(core, cs)
    ensures Strip(core + [c], cs) == if c in cs then core else core + [c]
  {
    var s := core + [c];
    assert s[..|core|] == core && s[0] == core[0];
    TrimStrip(core, cs);
    if c !in cs { TrimStrip(s, cs); }
  }

  /** What is dropped at the ends: white space, quotes, and angle, square and round brackets. */
  const DROPPED: string := " \t\r\n\U{0b}\U{0c}\U{1c}\U{1d}\U{1e}\U{1f}\"'<>[]()"

  lemma DroppedMeans(c: char)
    ensures c in DROPPED <==> c in SPACE_CHARS || c in STRIP_CHARS
  {
    assert forall x :: x in DROPPED <==> x in SPACE_CHARS + STRIP_CHARS;
  }

  lemma {:induction false} UnchangedInside(s: string)
    requires Clean(s)
    ensures (forall i :: 0 <= i < |RULES| ==> Shrinks(RULES[i])) && RewriteAll(s, RULES) == s
  {
    RulesShrink();
    CleanIsUnmarked(s);
    UnmarkedIsUnchanged(s, RULES);
  }

  /** A character before or after a clean text is dropped exactly when it is one of these. */
  lemma EndsAreDropped(c: char, core: string)
    requires Trimmed(core) && Clean(core) && Clean([c] + core) && Clean(core + [c])
    ensures Defanged([c] + core) == (if c in DROPPED then core else [c] + core)
    ensures Defanged(core + [c]) == (if c in DROPPED then core else core + [c])
  {
    hide RewriteAll, Clean;
    DroppedMeans(c);
    UnchangedInside(core);
    UnchangedInside([c] + core);
    UnchangedInside(core + [c]);
    StripFront(c, core, SPACE_CHARS);
    StripFront(c, core, STRIP_CHARS);
    StripBack(c, core, SPACE_CHARS);
    StripBack(c, core, STRIP_CHARS);
    TrimStrip(core, STRIP_CHARS);
  }

  // --------------------------------------------------------------------------------- one key for all

  lemma SameDefanged(cfg: Config, raw: string, plain: string)
    requires Trimmed(raw) && Trimmed(plain) && Defanged(raw) == plain == Defanged(plain)
    ensures Normalize(cfg, raw) == Normalize(cfg, plain)
  {
    hide Classify, Defanged;
    TrimStrip(raw, SPACE_CHARS);
    TrimStrip(plain, SPACE_CHARS);
  }

  /** So a defanged indicator has the reading, and the key, of the plain one. */
  lemma {:induction false} SpellingsShareKey(cfg: Config, ps: seq<Piece>)
    requires Sound(ps) && Trimmed(Spelled(ps)) && Trimmed(Meant(ps)) && Clean(Meant(ps))
    ensures Normalize(cfg, Spelled(ps)) == Normalize(cfg, Meant(ps))
  {
    hide Spelled, Defanged, Normalize;
    SpellingsAreUndone(ps);
    CleanIsUnmarked(Meant(ps));
    DefangedFixpoint(Meant(ps));
    SameDefanged(cfg, Spelled(ps), Meant(ps));
  }

  /** And so has one with a defanged scheme. */
  lemma {:induction false} SchemesShareKey(cfg: Config, word: string, ps: seq<Piece>)
    requires Lower(word) in ["hxxp", "hxxps", "fxp"] && Sound(ps) && ps != [] && Meant(ps)[0] == ':'
    requires Trimmed(word + Spelled(ps)) && Trimmed(SchemeMeant(word) + Meant(ps))
    requires Clean(SchemeMeant(word) + Meant(ps))
    ensures Normalize(cfg, word + Spelled(ps)) == Normalize(cfg, SchemeMeant(word) + Meant(ps))
  {
    hide Spelled, Defanged, Normalize;
    SchemesAreUndone(word, ps);
    CleanIsUnmarked(SchemeMeant(word) + Meant(ps));
    DefangedFixpoint(SchemeMeant(word) + Meant(ps));
    SameDefanged(cfg, word + Spelled(ps), SchemeMeant(word) + Meant(ps));
  }
}
