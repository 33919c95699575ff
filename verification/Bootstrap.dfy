/** Loading the membership set: walking the pages, normalizing, and stopping at the cap. */
module Bootstrap {
  import opened Wrappers
  import opened Packed
  import opened Membership
  import opened Indicators

  /** An observable's value and an indicator's nested values; "" stands for an absent one. */
  datatype Node = Node(value: string, nested: seq<string>)

  datatype Page = Page(nodes: seq<Node>, hasNext: bool, cursor: string) {
    predicate Last() {
      !hasNext || cursor == ""
    }
  }

  datatype Failure = Upstream | Unanswered

  // ---------------------------------------------------------------- what a walk sees and keeps

  /** The pages received, given the upstream's answers in order. */
  function Walked(answers: seq<Result<Page, Failure>>): seq<Page> {
    if answers == [] || answers[0].Err? then []
    else if answers[0].value.Last() then [answers[0].value]
    else [answers[0].value] + Walked(answers[1..])
  }

  /** Why a walk with no cap ends early. */
  function Broken(answers: seq<Result<Page, Failure>>): Option<Failure> {
    if answers == [] then Some(Unanswered)
    else if answers[0].Err? then Some(answers[0].error)
    else if answers[0].value.Last() then None
    else Broken(answers[1..])
  }

  function NodeValues(precise: bool, node: Node): seq<string> {
    if precise then node.nested else [node.value]
  }

  function NodesRaw(precise: bool, nodes: seq<Node>): seq<string> {
    if nodes == [] then [] else NodesRaw(precise, nodes[..|nodes| - 1]) + NodeValues(precise, nodes[|nodes| - 1])
  }

  function Raw(precise: bool, pages: seq<Page>): seq<string> {
    if pages == [] then [] else NodesRaw(precise, pages[0].nodes) + Raw(precise, pages[1..])
  }

  /** The set is keyed on normalized values; what can never be looked up is dropped. */
  function Kept(reading: string -> Normalized, raw: seq<string>): (r: seq<string>)
    ensures |r| <= |raw|
  {
    if raw == [] then []
    else
      var v := raw[|raw| - 1];
      Kept(reading, raw[..|raw| - 1]) + if v != "" && reading(v).Lookupable() then [reading(v).value] else []
  }

  lemma {:induction false} KeptPrefix(reading: string -> Normalized, a: seq<string>, b: seq<string>)
    ensures Kept(reading, a) <= Kept(reading, a + b)
  {
    if b == [] {
      assert a + b == a;
    } else {
      KeptPrefix(reading, a, b[..|b| - 1]);
      assert (a + b)[..|a + b| - 1] == a + b[..|b| - 1];
    }
  }

  lemma {:induction false} KeptHas(reading: string -> Normalized, raw: seq<string>, x: string)
    ensures x in Kept(reading, raw) <==>
              exists v :: v in raw && v != "" && reading(v).Lookupable() && reading(v).value == x
  {
    if raw != [] {
      var init, v := raw[..|raw| - 1], raw[|raw| - 1];
      KeptHas(reading, init, x);
      assert forall w :: w in raw <==> w in init || w == v by { assert raw == init + [v]; }
    }
  }

  /** What one capped load collects: the first max(1, cap) kept values, or all of them, or the failure met before. */
  function Load(reading: string -> Normalized, precise: bool, answers: seq<Result<Page, Failure>>, cap: Option<nat>)
    : Result<(seq<string>, bool), Failure>
  {
    var kept := Kept(reading, Raw(precise, Walked(answers)));
    if cap.Some? && |kept| >= Room(cap.value) then Ok((kept[..Room(cap.value)], true))
    else if Broken(answers).Some? then Err(Broken(answers).value)
    else Ok((kept, false))
  }

  /** The cap is looked at only once a value has been taken. */
  function Room(cap: nat): nat {
    if cap == 0 then 1 else cap
  }

  // ------------------------------------------------------------------------------ the loop

  /** The pages behind us, the rest of this page, and the pages ahead make up the whole walk. */
  ghost predicate Ahead(precise: bool, answers: seq<Result<Page, Failure>>, done: seq<string>, i: nat) {
    && i <= |answers|
    && Raw(precise, Walked(answers)) == done + Raw(precise, Walked(answers[i..]))
    && Broken(answers) == Broken(answers[i..])
  }

  lemma PageSplits(precise: bool, answers: seq<Result<Page, Failure>>, done: seq<string>, i: nat, page: Page)
    requires Ahead(precise, answers, done, i) && i < |answers| && answers[i] == Ok(page)
    ensures var rest := if page.Last() then [] else Raw(precise, Walked(answers[i + 1..]));
            Raw(precise, Walked(answers)) == done + NodesRaw(precise, page.nodes) + rest
    ensures page.Last() ==> Broken(answers).None?
    ensures !page.Last() ==> Ahead(precise, answers, done + NodesRaw(precise, page.nodes), i + 1)
  {
    var here := answers[i..];
    assert here[0] == Ok(page) && here[1..] == answers[i + 1..];
    if page.Last() {
      assert Walked(here) == [page];
      assert Raw(precise, []) == [];
      assert Raw(precise, [page]) == NodesRaw(precise, page.nodes) by { assert [page][1..] == []; }
    } else {
      assert Walked(here)[1..] == Walked(answers[i + 1..]);
    }
  }

  lemma {:induction false} NodesPrefix(precise: bool, nodes: seq<Node>, j: nat) returns (rest: seq<string>)
    requires j <= |nodes|
    ensures NodesRaw(precise, nodes) == NodesRaw(precise, nodes[..j]) + rest
    decreases |nodes| - j
  {
    if j == |nodes| {
      assert nodes[..j] == nodes;
      rest := [];
    } else {
      var tail := NodesPrefix(precise, nodes, j + 1);
      assert nodes[..j + 1][..j] == nodes[..j];
      rest := NodeValues(precise, nodes[j]) + tail;
    }
  }

  lemma {:induction false} WalkStops(precise: bool, answers: seq<Result<Page, Failure>>, done: seq<string>, i: nat)
    requires Ahead(precise, answers, done, i) && (i < |answers| ==> answers[i].Err?)
    ensures Raw(precise, Walked(answers)) == done
    ensures Broken(answers) == Some(if i == |answers| then Unanswered else answers[i].error)
  {
    assert Walked(answers[i..]) == [];
    assert done + [] == done;
  }

  predicate Full(values: seq<string>, cap: Option<nat>) {
    cap.Some? && |values| >= Room(cap.value)
  }

  /** One node's values, until the cap is met. */
  method DrainNode(reading: string -> Normalized, vs: seq<string>, cap: Option<nat>, values0: seq<string>,
                   ghost before: seq<string>)
    returns (values: seq<string>)
    requires values0 == Kept(reading, before) && !Full(values0, cap)
    ensures values <= Kept(reading, before + vs)
    ensures if Full(values, cap) then |values| == Room(cap.value) else values == Kept(reading, before + vs)
  {
    hide Kept;
    values := values0;
    assert before + vs[..0] == before;
    for k := 0 to |vs|
      invariant values == Kept(reading, before + vs[..k]) && !Full(values, cap)
    {
      OneMoreValue(reading, vs, k, before);
      if vs[k] != "" && reading(vs[k]).Lookupable() {
        values := values + [reading(vs[k]).value];
        if cap.Some? && |values| >= cap.value { return values; }
      }
    }
    assert vs[..|vs|] == vs;
  }

  lemma OneMoreValue(reading: string -> Normalized, vs: seq<string>, k: nat, before: seq<string>)
    requires k < |vs|
    ensures Kept(reading, before + vs[..k + 1])
            == Kept(reading, before + vs[..k])
               + if vs[k] != "" && reading(vs[k]).Lookupable() then [reading(vs[k]).value] else []
    ensures Kept(reading, before + vs[..k + 1]) <= Kept(reading, before + vs)
  {
    var upTo := before + vs[..k + 1];
    assert upTo[..|upTo| - 1] == before + vs[..k];
    assert before + vs == upTo + vs[k + 1..];
    KeptPrefix(reading, upTo, vs[k + 1..]);
  }

  /** The values of one page's nodes, until the cap is met. */
  method DrainPage(reading: string -> Normalized, precise: bool, nodes: seq<Node>, cap: Option<nat>,
                   values0: seq<string>, ghost before: seq<string>)
    returns (values: seq<string>)
    requires values0 == Kept(reading, before) && !Full(values0, cap)
    ensures values <= Kept(reading, before + NodesRaw(precise, nodes))
    ensures if Full(values, cap) then |values| == Room(cap.value)
            else values == Kept(reading, before + NodesRaw(precise, nodes))
  {
    values := values0;
    ghost var done := before;
    assert before + [] == before;
    for j := 0 to |nodes|
      invariant values == Kept(reading, done) && done == before + NodesRaw(precise, nodes[..j]) && !Full(values, cap)
    {
      values := DrainNode(reading, NodeValues(precise, nodes[j]), cap, values, done);
      OneMoreNode(reading, precise, nodes, j, before, done);
      done := done + NodeValues(precise, nodes[j]);
      if Full(values, cap) { return values; }
    }
    assert nodes[..|nodes|] == nodes;
  }

  lemma OneMoreNode(reading: string -> Normalized, precise: bool, nodes: seq<Node>, j: nat, before: seq<string>,
                    done: seq<string>)
    requires j < |nodes| && done == before + NodesRaw(precise, nodes[..j])
    ensures done + NodeValues(precise, nodes[j]) == before + NodesRaw(precise, nodes[..j + 1])
    ensures Kept(reading, done + NodeValues(precise, nodes[j])) <= Kept(reading, before + NodesRaw(precise, nodes))
  {
    hide Kept;
    assert nodes[..j + 1][..j] == nodes[..j];
    var rest := NodesPrefix(precise, nodes, j + 1);
    assert before + NodesRaw(precise, nodes) == (done + NodeValues(precise, nodes[j])) + rest;
    KeptPrefix(reading, done + NodeValues(precise, nodes[j]), rest);
  }

  lemma CapMet(values: seq<string>, part: seq<string>, whole: seq<string>)
    requires values <= part <= whole
    ensures whole[..|values|] == values
  {
  }

  /** iter_values as build_membership drains it: the values and whether the cap was met, or a failure. */
  method Drain(reading: string -> Normalized, precise: bool, answers: seq<Result<Page, Failure>>, cap: Option<nat>)
    returns (r: Result<(seq<string>, bool), Failure>)
    ensures r == Load(reading, precise, answers, cap)
  {
    var values: seq<string> := [];
    ghost var done: seq<string> := [];
    var i := 0;
    assert answers[0..] == answers;
    while i < |answers| && answers[i].Ok?
      invariant Ahead(precise, answers, done, i) && values == Kept(reading, done) && !Full(values, cap)
    {
      hide Kept, NodesRaw, Walked, Raw, Broken, Ahead;
      var page := answers[i].value;
      values := DrainPage(reading, precise, page.nodes, cap, values, done);
      PageSplits(precise, answers, done, i, page);
      PageKept(reading, precise, answers, done, i, page);
      done := done + NodesRaw(precise, page.nodes);
      if Full(values, cap) {
        CapMet(values, Kept(reading, done), Kept(reading, Raw(precise, Walked(answers))));
        return Ok((values, true));
      }
      if page.Last() { return Ok((values, false)); }
      i := i + 1;
    }
    WalkStops(precise, answers, done, i);
    r := Err(if i == |answers| then Unanswered else answers[i].error);
  }

  lemma {:induction false} PageKept(reading: string -> Normalized, precise: bool,
                                    answers: seq<Result<Page, Failure>>, done: seq<string>,
                 i: nat, page: Page)
    requires Ahead(precise, answers, done, i) && i < |answers| && answers[i] == Ok(page)
    ensures var all := Kept(reading, Raw(precise, Walked(answers)));
            var part := Kept(reading, done + NodesRaw(precise, page.nodes));
            part <= all && (page.Last() ==> part == all)
  {
    hide Kept, NodesRaw, Ahead;
    PageSplits(precise, answers, done, i, page);
    var part := done + NodesRaw(precise, page.nodes);
    KeptPrefix(reading, part, if page.Last() then [] else Raw(precise, Walked(answers[i + 1..])));
    assert part + [] == part;
  }

  /** build_membership: the counts are asked for first; the set then holds the fingerprints of what was drained. */
  method BuildMembership(hash: string -> Fp, reading: string -> Normalized, precise: bool, counted: Option<Failure>,
                         answers: seq<Result<Page, Failure>>, overlayMax: int, cap: Option<nat>)
    returns (m: MembershipSet?, r: Result<bool, Failure>)
    ensures m == null <==> r.Err?
    ensures counted.Some? ==> r == Err(counted.value)
    ensures counted.None? && Load(reading, precise, answers, cap).Err? ==>
              r == Err(Load(reading, precise, answers, cap).error)
    ensures counted.None? && Load(reading, precise, answers, cap).Ok? ==>
              r == Ok(Load(reading, precise, answers, cap).value.1)
    ensures m != null ==> m.Valid() && m.hash == hash && m.owner && m.added == {} && m.tombstones == {}
    ensures m != null ==> forall fp :: fp in m.packed <==>
              exists v :: v in Capped(Load(reading, precise, answers, cap).value.0, cap) && hash(v) == fp
  {
    m := null;
    if counted.Some? { return m, Err(counted.value); }
    var drained := Drain(reading, precise, answers, cap);
    if drained.Err? { return m, Err(drained.error); }
    m := new MembershipSet.Build(hash, drained.value.0, overlayMax, cap);
    r := Ok(drained.value.1);
  }

  /**
   An untruncated load holds every value upstream listed that can ever be looked up, under the key
   lookups will use; and nothing else.
   */
  lemma {:induction false} UntruncatedIsComplete(reading: string -> Normalized, precise: bool,
                                                 answers: seq<Result<Page, Failure>>,
                              cap: Option<nat>, x: string)
    requires Load(reading, precise, answers, cap).Ok? && !Load(reading, precise, answers, cap).value.1
    ensures Broken(answers).None?
    ensures x in Capped(Load(reading, precise, answers, cap).value.0, cap)
            <==> exists v :: v in Raw(precise, Walked(answers)) && v != "" && reading(v).Lookupable()
                             && reading(v).value == x
  {
    KeptHas(reading, Raw(precise, Walked(answers)), x);
  }

  /**
   The flag is raised exactly when the cap was met by something kept; then the first cap values kept are
   packed, and otherwise all of them.
   */
  lemma {:induction false} TruncatedIff(reading: string -> Normalized, precise: bool,
                                        answers: seq<Result<Page, Failure>>, cap: Option<nat>)
    requires Load(reading, precise, answers, cap).Ok?
    ensures var (values, truncated) := Load(reading, precise, answers, cap).value;
            var kept := Kept(reading, Raw(precise, Walked(answers)));
            && (truncated <==> cap.Some? && kept != [] && |kept| >= cap.value)
            && (truncated ==> Capped(values, cap) == kept[..cap.value])
            && (!truncated ==> values == kept && Capped(values, cap) == kept && Broken(answers).None?)
  {
  }

  /** A load fails exactly when the walk does before the cap is met, and for the same reason. */
  lemma {:induction false} LoadFailsIff(reading: string -> Normalized, precise: bool,
                                        answers: seq<Result<Page, Failure>>, cap: Option<nat>, failure: Failure)
    ensures Load(reading, precise, answers, cap) == Err(failure)
            <==> var kept := Kept(reading, Raw(precise, Walked(answers)));
                 Broken(answers) == Some(failure) && (cap.None? || kept == [] || |kept| < cap.value)
  {
  }

  /** Every occurrence that can be looked up counts, in the order of the walk. */
  lemma {:induction false} KeptAppends(reading: string -> Normalized, a: seq<string>, b: seq<string>)
    ensures Kept(reading, a + b) == Kept(reading, a) + Kept(reading, b)
  {
    if b == [] {
      assert a + b == a;
    } else {
      var v := b[|b| - 1];
      KeptAppends(reading, a, b[..|b| - 1]);
      LastOf(a, b);
      Grouped(Kept(reading, a), Kept(reading, b[..|b| - 1]),
              if v != "" && reading(v).Lookupable() then [reading(v).value] else []);
    }
  }

  /** The walk goes through each page's nodes, and through the pages, in the order answered. */
  lemma {:induction false} NodesInOrder(precise: bool, a: seq<Node>, b: seq<Node>)
    ensures NodesRaw(precise, a + b) == NodesRaw(precise, a) + NodesRaw(precise, b)
  {
    if b == [] {
      assert a + b == a;
    } else {
      NodesInOrder(precise, a, b[..|b| - 1]);
      LastOf(a, b);
      Grouped(NodesRaw(precise, a), NodesRaw(precise, b[..|b| - 1]), NodeValues(precise, b[|b| - 1]));
    }
  }

  lemma {:induction false} RawAppends(precise: bool, a: seq<Page>, b: seq<Page>)
    ensures Raw(precise, a + b) == Raw(precise, a) + Raw(precise, b)
  {
    hide NodesRaw;
    if a == [] {
      assert a + b == b;
    } else {
      RawAppends(precise, a[1..], b);
      FirstOf(a, b);
      Grouped(NodesRaw(precise, a[0].nodes), Raw(precise, a[1..]), Raw(precise, b));
    }
  }

  /** What a walk lists: each node's own value, or in precise mode each value nested in an indicator. */
  lemma {:induction false} RawMeans(precise: bool, pages: seq<Page>, v: string)
    ensures v in Raw(precise, pages) <==>
              exists i, j :: 0 <= i < |pages| && 0 <= j < |pages[i].nodes| && Lists(precise, pages[i].nodes[j], v)
  {
    if v in Raw(precise, pages) { RawFrom(precise, pages, v); }
    forall i, j | 0 <= i < |pages| && 0 <= j < |pages[i].nodes| && Lists(precise, pages[i].nodes[j], v)
      ensures v in Raw(precise, pages)
    {
      NodesRawHas(precise, pages[i].nodes, j, v);
      RawHas(precise, pages, i, v);
    }
  }

  predicate Lists(precise: bool, node: Node, v: string) {
    if precise then v in node.nested else v == node.value
  }

  lemma {:induction false} RawFrom(precise: bool, pages: seq<Page>, v: string)
    requires v in Raw(precise, pages)
    ensures exists i, j :: 0 <= i < |pages| && 0 <= j < |pages[i].nodes| && Lists(precise, pages[i].nodes[j], v)
  {
    if v in NodesRaw(precise, pages[0].nodes) {
      var j := NodesRawFrom(precise, pages[0].nodes, v);
      assert Lists(precise, pages[0].nodes[j], v);
    } else {
      RawFrom(precise, pages[1..], v);
      var i, j :| 0 <= i < |pages[1..]| && 0 <= j < |pages[1..][i].nodes| && Lists(precise, pages[1..][i].nodes[j], v);
      assert pages[i + 1] == pages[1..][i];
    }
  }

  lemma {:induction false} NodesRawFrom(precise: bool, nodes: seq<Node>, v: string) returns (j: nat)
    requires v in NodesRaw(precise, nodes)
    ensures j < |nodes| && Lists(precise, nodes[j], v)
  {
    j := |nodes| - 1;
    if v !in NodeValues(precise, nodes[j]) { j := NodesRawFrom(precise, nodes[..j], v); }
  }

  lemma {:induction false} NodesRawHas(precise: bool, nodes: seq<Node>, j: nat, v: string)
    requires j < |nodes| && Lists(precise, nodes[j], v)
    ensures v in NodesRaw(precise, nodes)
  {
    if j < |nodes| - 1 { NodesRawHas(precise, nodes[..|nodes| - 1], j, v); }
  }

  lemma {:induction false} RawHas(precise: bool, pages: seq<Page>, i: nat, v: string)
    requires i < |pages| && v in NodesRaw(precise, pages[i].nodes)
    ensures v in Raw(precise, pages)
  {
    if i > 0 { RawHas(precise, pages[1..], i - 1, v); }
  }

  /** A walk follows the cursor to the first page without one, or to the first failure. */
  lemma {:induction false} WalkedMeans(answers: seq<Result<Page, Failure>>)
    ensures var pages := Walked(answers);
            && |pages| <= |answers|
            && (forall i :: 0 <= i < |pages| ==> answers[i] == Ok(pages[i]))
            && (forall i :: 0 <= i < |pages| - 1 ==> pages[i].hasNext && pages[i].cursor != "")
            && (Broken(answers).None? <==>
                  pages != [] && !(pages[|pages| - 1].hasNext && pages[|pages| - 1].cursor != ""))
            && (Broken(answers).Some? ==>
                  if |pages| == |answers| then Broken(answers).value == Unanswered
                  else answers[|pages|] == Err(Broken(answers).value))
  {
    if answers != [] && answers[0].Ok? && !answers[0].value.Last() {
      WalkedMeans(answers[1..]);
      var rest := Walked(answers[1..]);
      assert Walked(answers) == [answers[0].value] + rest;
      assert forall i :: 0 <= i < |answers[1..]| ==> answers[1..][i] == answers[i + 1];
    }
  }

  /** Every answer is a page that says there is another, and where. */
  predicate PointOn(answers: seq<Result<Page, Failure>>) {
    forall i :: 0 <= i < |answers| ==>
      answers[i].Ok? && answers[i].value.hasNext && answers[i].value.cursor != ""
  }

  function PagesOf(answers: seq<Result<Page, Failure>>): (pages: seq<Page>)
    requires PointOn(answers)
    ensures |pages| == |answers| && forall i :: 0 <= i < |answers| ==> pages[i] == answers[i].value
  {
    seq(|answers|, i requires 0 <= i < |answers| => answers[i].value)
  }

  /** Pages that point on are all walked, and the walk goes on after them. */
  lemma {:induction false} WalkGoesOn(answers: seq<Result<Page, Failure>>, rest: seq<Result<Page, Failure>>)
    requires PointOn(answers)
    ensures Walked(answers + rest) == PagesOf(answers) + Walked(rest)
    ensures Broken(answers + rest) == Broken(rest)
  {
    if answers == [] {
      assert answers + rest == rest && PagesOf(answers) + Walked(rest) == Walked(rest);
    } else {
      var all := answers + rest;
      assert all[0] == answers[0] && all[1..] == answers[1..] + rest;
      WalkGoesOn(answers[1..], rest);
      assert PagesOf(answers) == [answers[0].value] + PagesOf(answers[1..]);
    }
  }

  /**
   The walk is whole: pages that point on, then one without a next page or without a cursor, are all walked,
   and nothing that might be answered after them is.
   */
  lemma {:induction false} WalkIsWhole(answers: seq<Result<Page, Failure>>, last: Page,
                                       more: seq<Result<Page, Failure>>)
    requires PointOn(answers) && (!last.hasNext || last.cursor == "")
    ensures Walked(answers + [Ok(last)] + more) == PagesOf(answers) + [last]
    ensures Broken(answers + [Ok(last)] + more).None?
  {
    var rest := [Ok(last)] + more;
    assert answers + [Ok(last)] + more == answers + rest && rest[0] == Ok(last);
    WalkGoesOn(answers, rest);
  }

  /** A failure, or an answer that never comes, breaks it, whatever was walked before. */
  lemma {:induction false} WalkBreaks(answers: seq<Result<Page, Failure>>, failure: Failure,
                                      more: seq<Result<Page, Failure>>)
    requires PointOn(answers)
    ensures Broken(answers + [Err(failure)] + more) == Some(failure) && Broken(answers) == Some(Unanswered)
  {
    var rest := [Result<Page, Failure>.Err(failure)] + more;
    assert answers + [Err(failure)] + more == answers + rest && rest[0] == Err(failure);
    WalkGoesOn(answers, rest);
    assert answers + [] == answers;
    WalkGoesOn(answers, []);
  }
}
