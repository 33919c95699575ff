/** The live-stream consumer: events applied to a membership set, and reconnects that replay. */
module Stream {
  import opened Wrappers
  import opened Packed
  import opened Overlay
  import opened Membership

  /** A STIX object as far as the consumer looks at it. An absent or empty value is None. */
  datatype Observable = NotAnObservable | Observable(value: Option<string>)
  datatype Extension = NotAnExtension | Extension(observables: seq<Observable>)
  datatype Stix =
    | NotStix
    | Indicator(extensions: seq<Extension>)
    | Other(stixType: string, value: Option<string>)

  datatype Data = Malformed | NotAnObject | Payload(stix: Stix)

  /** The SSE event names the consumer tells apart. */
  datatype Kind = Create | Update | Merge | Delete | Heartbeat | ConsumerMetrics | Connected | AnyOther

  /** An absent or empty id is None. */
  datatype Event = Event(kind: Kind, id: Option<string>, data: Data)

  const OBSERVABLE_TYPES: set<string> := {"ipv4-addr", "ipv6-addr", "domain-name", "url", "hostname"}

  predicate Adds(kind: Kind) {
    kind.Create? || kind.Update? || kind.Merge?
  }

  predicate Removes(kind: Kind) {
    kind.Delete?
  }

  /** What an event does to the set depends on the hash and on the lookup path's normalization. */
  datatype Keying = Keying(hash: string -> Fp, normalize: string -> Option<string>)

  function ObservableValues(os: seq<Observable>): seq<string> {
    if os == [] then []
    else (if os[0].Observable? && os[0].value.Some? then [os[0].value.value] else []) + ObservableValues(os[1..])
  }

  function ExtensionValues(xs: seq<Extension>): seq<string> {
    if xs == [] then []
    else (if xs[0].Extension? then ObservableValues(xs[0].observables) else []) + ExtensionValues(xs[1..])
  }

  /** extract_values */
  function ExtractValues(stix: Stix): seq<string> {
    match stix
    case NotStix => []
    case Indicator(xs) => ExtensionValues(xs)
    case Other(t, v) => if t in OBSERVABLE_TYPES && v.Some? then [v.value] else []
  }

  function OpOf(kind: Kind, fp: Fp): Op {
    if Removes(kind) then Remove(fp) else Add(fp)
  }

  predicate OfKind(kind: Kind, op: Op) {
    if Removes(kind) then op.Remove? else op.Add?
  }

  lemma {:induction false} ValueOpsOfKind(k: Keying, kind: Kind, values: seq<string>)
    ensures forall i :: 0 <= i < |ValueOps(k, kind, values)| ==> OfKind(kind, ValueOps(k, kind, values)[i])
  {
    if values != [] { ValueOpsOfKind(k, kind, values[..|values| - 1]); }
  }

  /** The set operations for some raw values; values that can never be looked up are dropped. */
  function ValueOps(k: Keying, kind: Kind, values: seq<string>): seq<Op> {
    if values == [] then []
    else
      var n := k.normalize(values[|values| - 1]);
      ValueOps(k, kind, values[..|values| - 1]) + (if n.None? then [] else [OpOf(kind, k.hash(n.value))])
  }

  lemma {:induction false} ValueOpsOneMore(k: Keying, kind: Kind, values: seq<string>, i: nat)
    requires i < |values|
    ensures ValueOps(k, kind, values[..i + 1]) ==
            ValueOps(k, kind, values[..i]) +
            (if k.normalize(values[i]).None? then [] else [OpOf(kind, k.hash(k.normalize(values[i]).value))])
  {
    assert values[..i + 1][..i] == values[..i];
  }

  predicate Relevant(e: Event) {
    (Adds(e.kind) || Removes(e.kind)) && e.data.Payload?
  }

  function EventOps(k: Keying, e: Event): seq<Op> {
    if Relevant(e) then ValueOps(k, e.kind, ExtractValues(e.data.stix)) else []
  }

  /** The set after a stretch of events. */
  function ApplyLog(k: Keying, s: Overlaid, log: seq<Event>): Overlaid {
    if log == [] then s else Run(ApplyLog(k, s, log[..|log| - 1]), EventOps(k, log[|log| - 1]))
  }

  /** The resume cursor after a stretch of events. */
  function CursorAfter(cursor: Option<string>, log: seq<Event>): Option<string> {
    if log == [] then cursor
    else if log[|log| - 1].id.Some? then log[|log| - 1].id
    else CursorAfter(cursor, log[..|log| - 1])
  }

  // ------------------------------------------------------- what a stretch of events decides

  /** The last word of some events on one fingerprint. */
  datatype Verdict = Untouched | Present | Absent

  function OpsVerdict(ops: seq<Op>, fp: Fp): Verdict {
    if ops == [] then Untouched
    else
      var op := ops[|ops| - 1];
      if op.SwapIn? || op.fp != fp then OpsVerdict(ops[..|ops| - 1], fp)
      else if op.Add? then Present else Absent
  }

  function Then(a: Verdict, b: Verdict): Verdict {
    if b.Untouched? then a else b
  }

  function LogVerdict(k: Keying, log: seq<Event>, fp: Fp): Verdict {
    if log == [] then Untouched
    else Then(LogVerdict(k, log[..|log| - 1], fp), OpsVerdict(EventOps(k, log[|log| - 1]), fp))
  }

  /** Where a set's overlay stands on one fingerprint: added, tombstoned. */
  function Standing(s: Overlaid, fp: Fp): (bool, bool) {
    (fp in s.added, fp in s.tombstones)
  }

  function Amended(v: Verdict, standing: (bool, bool)): (bool, bool) {
    match v
    case Untouched => standing
    case Present => (true, false)
    case Absent => (false, true)
  }

  lemma {:induction false} RunStanding(s: Overlaid, ops: seq<Op>, fp: Fp)
    requires forall i :: 0 <= i < |ops| ==> !ops[i].SwapIn?
    ensures Standing(Run(s, ops), fp) == Amended(OpsVerdict(ops, fp), Standing(s, fp))
    ensures Run(s, ops).packed == s.packed
  {
    if ops != [] { RunStanding(s, ops[..|ops| - 1], fp); }
  }

  /** Events decide the fingerprints they touch, whatever the set was before, and leave the others. */
  lemma {:induction false} LogStanding(k: Keying, s: Overlaid, log: seq<Event>, fp: Fp)
    ensures Standing(ApplyLog(k, s, log), fp) == Amended(LogVerdict(k, log, fp), Standing(s, fp))
    ensures ApplyLog(k, s, log).packed == s.packed
  {
    if log != [] {
      var before, e := log[..|log| - 1], log[|log| - 1];
      LogStanding(k, s, before, fp);
      if Relevant(e) { ValueOpsOfKind(k, e.kind, ExtractValues(e.data.stix)); }
      assert forall i :: 0 <= i < |EventOps(k, e)| ==> OfKind(e.kind, EventOps(k, e)[i]);
      RunStanding(ApplyLog(k, s, before), EventOps(k, e), fp);
    }
  }

  lemma {:induction false} VerdictAppend(k: Keying, a: seq<Event>, b: seq<Event>, fp: Fp)
    ensures LogVerdict(k, a + b, fp) == Then(LogVerdict(k, a, fp), LogVerdict(k, b, fp))
  {
    if b == [] {
      assert a + b == a;
    } else {
      VerdictAppend(k, a, b[..|b| - 1], fp);
      assert (a + b)[..|a + b| - 1] == a + b[..|b| - 1];
    }
  }

  /** The verdict of log[i..j] is that of log[i..m] amended by log[m..j]. */
  lemma {:induction false} VerdictSplit(k: Keying, log: seq<Event>, i: nat, m: nat, j: nat, fp: Fp)
    requires i <= m <= j <= |log|
    ensures LogVerdict(k, log[i..j], fp) == Then(LogVerdict(k, log[i..m], fp), LogVerdict(k, log[m..j], fp))
  {
    assert log[i..j] == log[i..m] + log[m..j];
    VerdictAppend(k, log[i..m], log[m..j], fp);
  }

  lemma SameStanding(s: Overlaid, t: Overlaid)
    requires s.packed == t.packed && forall fp :: Standing(s, fp) == Standing(t, fp)
    ensures s == t
  {
    forall fp ensures (fp in s.added <==> fp in t.added) && (fp in s.tombstones <==> fp in t.tombstones) {
      assert Standing(s, fp) == Standing(t, fp);
    }
  }

  /** Replaying a suffix that has already been applied changes nothing. */
  lemma {:induction false} ReplayIsHarmless(k: Keying, s: Overlaid, log: seq<Event>, from: nat)
    requires from <= |log|
    ensures ApplyLog(k, ApplyLog(k, s, log), log[from..]) == ApplyLog(k, s, log)
  {
    var once := ApplyLog(k, s, log);
    forall fp ensures Standing(ApplyLog(k, once, log[from..]), fp) == Standing(once, fp) {
      LogStanding(k, s, log, fp);
      LogStanding(k, once, log[from..], fp);
      assert log[0..|log|] == log && log[from..|log|] == log[from..];
      VerdictSplit(k, log, 0, from, |log|, fp);
    }
    LogStanding(k, s, log, 0);
    LogStanding(k, once, log[from..], 0);
    SameStanding(ApplyLog(k, once, log[from..]), once);
  }

  // ------------------------------------------------------------------ reconnecting

  /** One connection: the server sends log[from..till], then it is dropped or ends. */
  datatype Session = Session(from: nat, till: nat, dropped: bool)

  /** Every event that touches the set carries an id. */
  ghost predicate WellFormed(k: Keying, log: seq<Event>) {
    forall i :: 0 <= i < |log| && log[i].id.None? ==> EventOps(k, log[i]) == []
  }

  /** Asked to resume, the server replays at least every event after the cursor; unasked it starts anywhere. */
  ghost predicate Resumes(log: seq<Event>, cursor: Option<string>, s: Session) {
    && s.from <= s.till <= |log|
    && forall p :: 0 <= p < |log| && log[p].id.Some? && log[p].id == cursor ==> s.from <= p + 1
  }

  datatype Link = Link(set_: Overlaid, cursor: Option<string>)

  function AfterSession(k: Keying, l: Link, log: seq<Event>, s: Session): Link
    requires s.from <= s.till <= |log|
  {
    Link(ApplyLog(k, l.set_, log[s.from..s.till]), CursorAfter(l.cursor, log[s.from..s.till]))
  }

  predicate Inside(log: seq<Event>, sessions: seq<Session>) {
    forall i :: 0 <= i < |sessions| ==> sessions[i].from <= sessions[i].till <= |log|
  }

  /** Each connection resumes from the cursor left by those before it. */
  ghost predicate Connects(k: Keying, l: Link, log: seq<Event>, sessions: seq<Session>)
    decreases |sessions|
  {
    && Inside(log, sessions)
    && (sessions == [] || (Resumes(log, l.cursor, sessions[0])
                           && Connects(k, AfterSession(k, l, log, sessions[0]), log, sessions[1..])))
  }

  function AfterSessions(k: Keying, l: Link, log: seq<Event>, sessions: seq<Session>): Link
    requires Connects(k, l, log, sessions)
    decreases |sessions|
  {
    if sessions == [] then l else AfterSessions(k, AfterSession(k, l, log, sessions[0]), log, sessions[1..])
  }

  /** Whether a connection sends an event with an id before it ends. */
  predicate Delivers(log: seq<Event>, s: Session)
    requires s.from <= s.till <= |log|
  {
    CursorAfter(None, log[s.from..s.till]).Some?
  }

  function EarlierStart(log: seq<Event>, s: Session, b: nat): nat
    requires s.from <= s.till <= |log|
  {
    if Delivers(log, s) && s.from < b then s.from else b
  }

  /** The earliest event sent by a connection that delivers an id, b if there is none before b. */
  function Start(log: seq<Event>, sessions: seq<Session>, b: nat): (n: nat)
    requires Inside(log, sessions)
    ensures n <= b
  {
    if sessions == [] then b else Start(log, sessions[1..], EarlierStart(log, sessions[0], b))
  }

  /** A stretch of events moves the cursor exactly when one of them has an id, wherever the cursor was. */
  lemma {:induction false} CursorFrom(cursor: Option<string>, log: seq<Event>)
    ensures CursorAfter(cursor, log) == if CursorAfter(None, log).Some? then CursorAfter(None, log) else cursor
  {
    if log != [] { CursorFrom(cursor, log[..|log| - 1]); }
  }

  /** r is just past the event the cursor names. */
  predicate CursorAt(log: seq<Event>, cursor: Option<string>, r: nat) {
    0 < r <= |log| && cursor.Some? && log[r - 1].id == cursor
  }

  /** The set stands for log[b..r] on top of s0, except where an event from r on will settle it anyway. */
  ghost predicate Settled(k: Keying, s0: Overlaid, s: Overlaid, log: seq<Event>, b: nat, r: nat, fp: Fp)
    requires b <= r <= |log|
  {
    || Standing(s, fp) == Amended(LogVerdict(k, log[b..r], fp), Standing(s0, fp))
    || LogVerdict(k, log[r..|log|], fp) != Untouched
  }

  ghost predicate Consistent(k: Keying, s0: Overlaid, l: Link, log: seq<Event>, b: nat, r: nat) {
    && b <= r <= |log| && l.set_.packed == s0.packed
    && (if l.cursor.None? then b == |log| && l.set_ == s0 else CursorAt(log, l.cursor, r))
    && forall fp :: Settled(k, s0, l.set_, log, b, r, fp)
  }

  ghost predicate Quiet(k: Keying, log: seq<Event>) {
    forall fp :: LogVerdict(k, log, fp) == Untouched
  }

  /** The cursor after a slice names its last event with an id; what follows that event touches nothing. */
  lemma {:induction false} SliceCursor(k: Keying, log: seq<Event>, from: nat, till: nat) returns (p: nat)
    requires from <= till <= |log| && WellFormed(k, log)
    ensures from <= p <= till && Quiet(k, log[p..till])
    ensures p == from ==> CursorAfter(None, log[from..till]).None?
    ensures p > from ==> CursorAt(log, CursorAfter(None, log[from..till]), p)
    decreases till
  {
    hide Quiet, LogVerdict, EventOps;
    p := till;
    if from < till {
      assert log[from..till][..till - from - 1] == log[from..till - 1];
      if log[till - 1].id.None? {
        p := SliceCursor(k, log, from, till - 1);
        QuietOneMore(k, log, p, till);
      } else {
        QuietNothing(k, log[till..till]);
      }
    } else {
      QuietNothing(k, log[p..till]);
    }
  }

  lemma QuietNothing(k: Keying, log: seq<Event>)
    requires log == []
    ensures Quiet(k, log)
  {
  }

  lemma QuietOneMore(k: Keying, log: seq<Event>, p: nat, till: nat)
    requires p < till <= |log| && Quiet(k, log[p..till - 1]) && EventOps(k, log[till - 1]) == []
    ensures Quiet(k, log[p..till])
  {
    hide LogVerdict, EventOps;
    assert log[p..till] == log[p..till - 1] + [log[till - 1]];
    forall fp ensures LogVerdict(k, log[p..till], fp) == Untouched {
      QuietEvent(k, log[till - 1], fp);
      VerdictAppend(k, log[p..till - 1], [log[till - 1]], fp);
      assert LogVerdict(k, log[p..till - 1], fp) == Untouched;
    }
  }

  lemma {:induction false} QuietEvent(k: Keying, e: Event, fp: Fp)
    requires EventOps(k, e) == []
    ensures LogVerdict(k, [e], fp) == Untouched
  {
    hide EventOps;
    assert [e][..0] == [];
  }

  /** Events that touch nothing leave the set as it is. */
  lemma {:induction false} QuietApplies(k: Keying, s: Overlaid, log: seq<Event>)
    requires Quiet(k, log)
    ensures ApplyLog(k, s, log) == s
  {
    forall fp ensures Standing(ApplyLog(k, s, log), fp) == Standing(s, fp) { LogStanding(k, s, log, fp); }
    LogStanding(k, s, log, 0);
    SameStanding(ApplyLog(k, s, log), s);
  }

  lemma {:induction false} SessionStaysConsistent(k: Keying, s0: Overlaid, l: Link, log: seq<Event>, b: nat, r: nat,
                                                  s: Session)
    returns (r': nat)
    requires WellFormed(k, log) && Consistent(k, s0, l, log, b, r) && Resumes(log, l.cursor, s)
    ensures Consistent(k, s0, AfterSession(k, l, log, s), log, EarlierStart(log, s, b), r')
    ensures s.till == |log| && AfterSession(k, l, log, s).cursor.Some? ==> Quiet(k, log[r'..|log|])
  {
    hide LogVerdict, ApplyLog, EventOps, CursorAfter;
    var p := SliceCursor(k, log, s.from, s.till);
    CursorFrom(l.cursor, log[s.from..s.till]);
    var l' := AfterSession(k, l, log, s);
    var b' := EarlierStart(log, s, b);
    r' := if p == s.from then r else p;
    if l.cursor.None? && p == s.from { QuietApplies(k, s0, log[s.from..s.till]); }
    LogStanding(k, l.set_, log[s.from..s.till], 0);
    forall fp
      ensures Settled(k, s0, l'.set_, log, b', r', fp)
      ensures s.till == |log| && l'.cursor.Some? ==> LogVerdict(k, log[r'..|log|], fp) == Untouched
    {
      assert Settled(k, s0, l.set_, log, b, r, fp);
      assert LogVerdict(k, log[p..s.till], fp) == Untouched;
      if l.cursor.Some? {
        SliceSettles(k, s0, l.set_, log, b, s.from, s.till, p, r, fp);
      } else if p > s.from {
        FirstSettles(k, s0, log, s.from, s.till, p, fp);
      }
    }
  }

  /** The first connection that delivers an id decides everything from where it starts. */
  lemma {:induction false} FirstSettles(k: Keying, s0: Overlaid, log: seq<Event>, from: nat, till: nat, p: nat, fp: Fp)
    requires from <= p <= till <= |log| && LogVerdict(k, log[p..till], fp) == Untouched
    ensures Settled(k, s0, ApplyLog(k, s0, log[from..till]), log, from, p, fp)
  {
    hide LogVerdict, ApplyLog;
    LogStanding(k, s0, log[from..till], fp);
    VerdictSplit(k, log, from, p, till, fp);
  }

  /**
   Applying log[from..till], whose last touching event is before p, on top of a set settled for
   log[b..r] with r >= from, gives one settled for log[min(b, from)..p], even when it stops short of r.
   With nothing before p it leaves the set as it was.
   */
  lemma {:induction false} SliceSettles(k: Keying, s0: Overlaid, s: Overlaid, log: seq<Event>, b: nat, from: nat,
                                        till: nat,
                                        p: nat, r: nat, fp: Fp)
    requires from <= p <= till <= |log| && b <= r <= |log| && from <= r && Settled(k, s0, s, log, b, r, fp)
    requires LogVerdict(k, log[p..till], fp) == Untouched
    ensures var b', r' := if p > from && from < b then from else b, if p == from then r else p;
            && b' <= r' && Settled(k, s0, ApplyLog(k, s, log[from..till]), log, b', r', fp)
            && (till == |log| ==> LogVerdict(k, log[r'..|log|], fp) == Untouched)
  {
    hide LogVerdict, ApplyLog;
    LogStanding(k, s, log[from..till], fp);
    VerdictSplit(k, log, from, p, till, fp);
    VerdictSplit(k, log, from, r, |log|, fp);
    VerdictSplit(k, log, from, p, |log|, fp);
    if r <= p {
      VerdictSplit(k, log, from, r, p, fp);
      VerdictSplit(k, log, r, p, |log|, fp);
    } else {
      VerdictSplit(k, log, from, p, r, fp);
      VerdictSplit(k, log, p, r, |log|, fp);
    }
    if from < b {
      VerdictSplit(k, log, from, b, r, fp);
    } else {
      VerdictSplit(k, log, b, from, p, fp);
      VerdictSplit(k, log, b, from, r, fp);
    }
    NoVerdict(k, log, from, fp);
    NoVerdict(k, log, p, fp);
  }

  lemma {:induction false} NoVerdict(k: Keying, log: seq<Event>, i: nat, fp: Fp)
    requires i <= |log|
    ensures LogVerdict(k, log[i..i], fp) == Untouched
  {
    assert log[i..i] == [];
  }

  lemma {:induction false} SessionsStayConsistent(k: Keying, s0: Overlaid, l: Link, log: seq<Event>, b: nat, r: nat,
                                                  sessions: seq<Session>) returns (r': nat)
    requires WellFormed(k, log) && Consistent(k, s0, l, log, b, r) && Connects(k, l, log, sessions)
    ensures Consistent(k, s0, AfterSessions(k, l, log, sessions), log, Start(log, sessions, b), r')
    ensures sessions != [] && sessions[|sessions| - 1].till == |log| && AfterSessions(k, l, log, sessions).cursor.Some?
            ==> Quiet(k, log[r'..|log|])
    decreases |sessions|
  {
    hide Consistent, Quiet, EarlierStart;
    r' := r;
    if sessions != [] {
      r' := SessionStaysConsistent(k, s0, l, log, b, r, sessions[0]);
      var l' := AfterSession(k, l, log, sessions[0]);
      var q := SessionsStayConsistent(k, s0, l', log, EarlierStart(log, sessions[0], b), r', sessions[1..]);
      if |sessions| > 1 {
        r' := q;
      } else {
        assert sessions[1..] == [];
      }
    }
  }

  /**
   Whatever the drops, however far back the server replays, and wherever it starts a connection that
   has no cursor: once some connection has reached the end of the log the set is that of one pass over
   the log from the earliest event sent.
   */
  lemma {:induction false} ReconnectsSettle(k: Keying, s0: Overlaid, log: seq<Event>, sessions: seq<Session>)
    requires WellFormed(k, log) && Connects(k, Link(s0, None), log, sessions)
    requires sessions != [] && sessions[|sessions| - 1].till == |log|
    ensures AfterSessions(k, Link(s0, None), log, sessions).set_
            == ApplyLog(k, s0, log[Start(log, sessions, |log|)..])
  {
    hide LogVerdict, ApplyLog, AfterSessions, Start;
    forall fp ensures Settled(k, s0, s0, log, |log|, |log|, fp) { NoVerdict(k, log, |log|, fp); }
    var r := SessionsStayConsistent(k, s0, Link(s0, None), log, |log|, |log|, sessions);
    var b, l := Start(log, sessions, |log|), AfterSessions(k, Link(s0, None), log, sessions);
    assert log[b..|log|] == log[b..];
    forall fp ensures Standing(l.set_, fp) == Standing(ApplyLog(k, s0, log[b..]), fp) {
      LogStanding(k, s0, log[b..], fp);
      VerdictSplit(k, log, b, r, |log|, fp);
      assert Settled(k, s0, l.set_, log, b, r, fp);
      if l.cursor.None? { NoVerdict(k, log, |log|, fp); }
    }
    LogStanding(k, s0, log[b..], 0);
    SameStanding(l.set_, ApplyLog(k, s0, log[b..]));
  }

  /** What was missed about fp does not matter: it is touched again later, or the missed part left it as it was. */
  ghost predicate Recovered(k: Keying, s0: Overlaid, log: seq<Event>, b: nat, fp: Fp)
    requires b <= |log|
  {
    || LogVerdict(k, log[b..], fp) != Untouched
    || Amended(LogVerdict(k, log[..b], fp), Standing(s0, fp)) == Standing(s0, fp)
  }

  /**
   Starting at b loses nothing exactly when every fingerprint the events before b change is touched
   again from b on.
   */
  lemma {:induction false} LateStartIff(k: Keying, s0: Overlaid, log: seq<Event>, b: nat)
    requires b <= |log|
    ensures ApplyLog(k, s0, log[b..]) == ApplyLog(k, s0, log) <==> forall fp :: Recovered(k, s0, log, b, fp)
  {
    hide LogVerdict, ApplyLog;
    var late, whole := ApplyLog(k, s0, log[b..]), ApplyLog(k, s0, log);
    assert log == log[..b] + log[b..];
    forall fp ensures Standing(late, fp) == Standing(whole, fp) <==> Recovered(k, s0, log, b, fp) {
      LogStanding(k, s0, log, fp);
      LogStanding(k, s0, log[b..], fp);
      VerdictAppend(k, log[..b], log[b..], fp);
    }
    LogStanding(k, s0, log, 0);
    LogStanding(k, s0, log[b..], 0);
    if forall fp :: Recovered(k, s0, log, b, fp) { SameStanding(late, whole); }
  }

  /**
   Reconnect convergence, exactly: the set ends as one uninterrupted pass would leave it if and only if
   whatever the events before the earliest one sent changed is touched again from there on.
   */
  lemma {:induction false} ConvergesIff(k: Keying, s0: Overlaid, log: seq<Event>, sessions: seq<Session>)
    requires WellFormed(k, log) && Connects(k, Link(s0, None), log, sessions)
    requires sessions != [] && sessions[|sessions| - 1].till == |log|
    ensures AfterSessions(k, Link(s0, None), log, sessions).set_ == ApplyLog(k, s0, log)
            <==> forall fp :: Recovered(k, s0, log, Start(log, sessions, |log|), fp)
  {
    var b := Start(log, sessions, |log|);
    hide *;
    ReconnectsSettle(k, s0, log, sessions);
    LateStartIff(k, s0, log, b);
  }

  ghost predicate AllRecovered(k: Keying, s0: Overlaid, log: seq<Event>, b: nat)
    requires b <= |log|
  {
    forall fp :: Recovered(k, s0, log, b, fp)
  }

  lemma {:induction false} StartsAgreeIff(k: Keying, s0: Overlaid, log: seq<Event>, b: nat, c: nat)
    requires b <= c <= |log|
    ensures ApplyLog(k, s0, log[b..]) == ApplyLog(k, s0, log[c..]) <==> AllRecovered(k, s0, log[b..], c - b)
  {
    hide ApplyLog, Recovered;
    assert log[b..][c - b..] == log[c..];
    LateStartIff(k, s0, log[b..], c - b);
  }

  /**
   Two workers that follow one log end with the same set exactly when whatever the events only the
   earlier of them was sent changed is touched again in what both were sent.
   */
  lemma {:induction false} WorkersAgreeIff(k: Keying, s0: Overlaid, log: seq<Event>, early: seq<Session>,
                                           late: seq<Session>)
    requires WellFormed(k, log)
    requires Connects(k, Link(s0, None), log, early) && early != [] && early[|early| - 1].till == |log|
    requires Connects(k, Link(s0, None), log, late) && late != [] && late[|late| - 1].till == |log|
    requires Start(log, early, |log|) <= Start(log, late, |log|)
    ensures var b, c := Start(log, early, |log|), Start(log, late, |log|);
            AfterSessions(k, Link(s0, None), log, early).set_ == AfterSessions(k, Link(s0, None), log, late).set_
            <==> AllRecovered(k, s0, log[b..], c - b)
  {
    hide WellFormed, ApplyLog, AfterSessions, AllRecovered;
    var b, c := Start(log, early, |log|), Start(log, late, |log|);
    hide Start, Connects;
    ReconnectsSettle(k, s0, log, early);
    ReconnectsSettle(k, s0, log, late);
    StartsAgreeIff(k, s0, log, b, c);
  }

  /** Connections opened without a cursor start at the beginning of the log. */
  ghost predicate FromStart(k: Keying, l: Link, log: seq<Event>, sessions: seq<Session>)
    requires Connects(k, l, log, sessions)
    decreases |sessions|
  {
    sessions == [] ||
    ((l.cursor.None? ==> sessions[0].from == 0)
     && FromStart(k, AfterSession(k, l, log, sessions[0]), log, sessions[1..]))
  }

  /** Then the pass is over the whole log, or the whole log touches nothing. */
  lemma {:induction false} StartsAtZero(k: Keying, l: Link, log: seq<Event>, sessions: seq<Session>, b: nat)
    requires WellFormed(k, log) && Connects(k, l, log, sessions) && FromStart(k, l, log, sessions)
    requires l.cursor.Some? ==> b == 0
    ensures sessions != [] && sessions[|sessions| - 1].till == |log| ==>
              Start(log, sessions, b) == 0 || Quiet(k, log)
    ensures l.cursor.Some? ==> Start(log, sessions, b) == 0
    decreases |sessions|
  {
    hide Resumes, Quiet, CursorAfter, ApplyLog;
    if sessions != [] {
      var s := sessions[0];
      var l' := AfterSession(k, l, log, s);
      var p := SliceCursor(k, log, s.from, s.till);
      CursorFrom(l.cursor, log[s.from..s.till]);
      StartsAtZero(k, l', log, sessions[1..], EarlierStart(log, s, b));
      if |sessions| == 1 {
        assert sessions[1..] == [];
        if p == 0 && s.till == |log| { assert log[0..|log|] == log; }
      }
    }
  }

  /** When they do, nothing is lost: the set is that of one uninterrupted pass. */
  lemma {:induction false} ReconnectsConverge(k: Keying, s0: Overlaid, log: seq<Event>, sessions: seq<Session>)
    requires WellFormed(k, log) && Connects(k, Link(s0, None), log, sessions)
    requires FromStart(k, Link(s0, None), log, sessions)
    requires sessions != [] && sessions[|sessions| - 1].till == |log|
    ensures AfterSessions(k, Link(s0, None), log, sessions).set_ == ApplyLog(k, s0, log)
  {
    var b := Start(log, sessions, |log|);
    hide Connects, FromStart, Start, AfterSessions, ApplyLog, Quiet;
    ReconnectsSettle(k, s0, log, sessions);
    StartsAtZero(k, Link(s0, None), log, sessions, |log|);
    if b == 0 {
      assert log[0..] == log;
    } else {
      QuietTail(k, log, b);
      QuietApplies(k, s0, log);
      QuietApplies(k, s0, log[b..]);
    }
  }

  lemma {:induction false} QuietTail(k: Keying, log: seq<Event>, b: nat)
    requires Quiet(k, log) && b <= |log|
    ensures Quiet(k, log[b..])
  {
    hide LogVerdict;
    assert log == log[..b] + log[b..];
    forall fp ensures LogVerdict(k, log[b..], fp) == Untouched {
      VerdictAppend(k, log[..b], log[b..], fp);
      assert LogVerdict(k, log, fp) == Untouched;
    }
  }

  /**
   A late start does lose events: a connection dropped before any id has arrived, an event sent before
   the next one, and nothing about its value afterwards.
   */
  lemma {:induction false} DropBeforeFirstIdLosesEvents(k: Keying, v: string, create: Event, beat: Event)
    requires k.normalize(v).Some?
    requires create == Event(Create, Some("1-0"), Payload(Other("url", Some(v))))
    requires beat == Event(Heartbeat, Some("2-0"), Malformed)
    ensures var l, log := Link(Overlaid.Fresh([]), None), [create, beat];
            var sessions := [Session(0, 0, true), Session(1, 2, true)];
            && WellFormed(k, log) && Connects(k, l, log, sessions)
            && AfterSessions(k, l, log, sessions).set_ != ApplyLog(k, Overlaid.Fresh([]), log)
  {
    var s0, log, sessions := Overlaid.Fresh([]), [create, beat], [Session(0, 0, true), Session(1, 2, true)];
    var fp := k.hash(k.normalize(v).value);
    LateSessions(k, Link(s0, None), log, sessions);
    ConvergesIff(k, s0, log, sessions);
    MissedCreate(k, v, create, beat);
    assert !Recovered(k, s0, log, 1, fp);
  }

  lemma {:induction false} LateSessions(k: Keying, l: Link, log: seq<Event>, sessions: seq<Session>)
    requires l.cursor.None? && |log| == 2 && log[1].id.Some?
    requires sessions == [Session(0, 0, true), Session(1, 2, true)]
    ensures Connects(k, l, log, sessions) && Start(log, sessions, 2) == 1
  {
    assert log[0..0] == [] && log[1..2] == [log[1]];
    var rest := sessions[1..];
    assert rest == [sessions[1]] && rest[1..] == [];
    assert AfterSession(k, l, log, sessions[0]) == l;
    assert Connects(k, l, log, rest);
    assert Start(log, rest, 2) == 1;
  }

  lemma {:induction false} MissedCreate(k: Keying, v: string, create: Event, beat: Event)
    requires k.normalize(v).Some? && create == Event(Create, Some("1-0"), Payload(Other("url", Some(v))))
    requires beat.kind.Heartbeat?
    ensures var log, fp := [create, beat], k.hash(k.normalize(v).value);
            LogVerdict(k, log[..1], fp) == Present && LogVerdict(k, log[1..], fp) == Untouched
  {
    hide EventOps, LogVerdict;
    var log, fp := [create, beat], k.hash(k.normalize(v).value);
    assert log[..1] == [create] && log[1..] == [beat];
    assert EventOps(k, beat) == [] by { HeartbeatIsQuiet(k, beat); }
    QuietEvent(k, beat, fp);
    CreateAdds(k, v, create);
    OneEvent(k, create, fp);
    assert [Add(fp)][..0] == [] && OpsVerdict([Add(fp)], fp) == Present;
  }

  lemma HeartbeatIsQuiet(k: Keying, beat: Event)
    requires beat.kind.Heartbeat?
    ensures EventOps(k, beat) == []
  {
  }

  lemma CreateAdds(k: Keying, v: string, create: Event)
    requires k.normalize(v).Some? && create == Event(Create, Some("1-0"), Payload(Other("url", Some(v))))
    ensures EventOps(k, create) == [Add(k.hash(k.normalize(v).value))]
  {
    assert ExtractValues(create.data.stix) == [v] && [v][..0] == [];
    assert ValueOps(k, Create, [v][..0]) == [];
  }

  lemma {:induction false} OneEvent(k: Keying, e: Event, fp: Fp)
    ensures LogVerdict(k, [e], fp) == OpsVerdict(EventOps(k, e), fp)
  {
    hide EventOps, OpsVerdict;
    assert [e][..0] == [];
    assert LogVerdict(k, [e][..0], fp) == Untouched;
  }

  /** The values of an indicator are those of the observables in its extensions, whatever else these hold. */
  lemma {:induction false} ExtractedMeans(xs: seq<Extension>, v: string)
    ensures v in ExtractValues(Indicator(xs)) <==>
              exists i, j :: 0 <= i < |xs| && xs[i].Extension? && 0 <= j < |xs[i].observables|
                             && xs[i].observables[j] == Observable(Some(v))
  {
    if xs != [] {
      ExtractedMeans(xs[1..], v);
      if xs[0].Extension? { ObservedMeans(xs[0].observables, v); }
      assert ExtractValues(Indicator(xs[1..])) == ExtensionValues(xs[1..]);
      assert forall i :: 0 <= i < |xs[1..]| ==> xs[1..][i] == xs[i + 1];
    }
  }

  lemma {:induction false} ObservedMeans(os: seq<Observable>, v: string)
    ensures v in ObservableValues(os) <==> exists j :: 0 <= j < |os| && os[j] == Observable(Some(v))
  {
    if os != [] {
      ObservedMeans(os[1..], v);
      assert forall j :: 0 <= j < |os[1..]| ==> os[1..][j] == os[j + 1];
    }
  }

  // ----------------------------------------------------------------------- what one event does

  /** Every key an event's values are read as. */
  ghost predicate Names(k: Keying, values: seq<string>, fp: Fp) {
    exists v :: v in values && k.normalize(v).Some? && k.hash(k.normalize(v).value) == fp
  }

  lemma {:induction false} ValueOpsDecide(k: Keying, kind: Kind, values: seq<string>, fp: Fp)
    ensures OpsVerdict(ValueOps(k, kind, values), fp)
            == if !Names(k, values, fp) then Untouched else if Removes(kind) then Absent else Present
  {
    hide Names, OpsVerdict;
    if values == [] {
      NothingNamed(k, fp);
      assert OpsVerdict([], fp) == Untouched by { NoOpsVerdict(fp); }
    } else {
      var last := |values| - 1;
      var n := k.normalize(values[last]);
      ValueOpsDecide(k, kind, values[..last], fp);
      NamesOneMore(k, values, fp);
      VerdictOneMore(ValueOps(k, kind, values[..last]), if n.None? then [] else [OpOf(kind, k.hash(n.value))], fp);
      if n.Some? { OneVerdict(OpOf(kind, k.hash(n.value)), fp); } else { NoOpsVerdict(fp); }
    }
  }

  lemma NothingNamed(k: Keying, fp: Fp)
    ensures !Names(k, [], fp)
  {
  }

  lemma NamesOneMore(k: Keying, values: seq<string>, fp: Fp)
    requires values != []
    ensures var last := |values| - 1;
            var n := k.normalize(values[last]);
            Names(k, values, fp) <==> Names(k, values[..last], fp) || (n.Some? && k.hash(n.value) == fp)
  {
    assert forall v :: v in values <==> v in values[..|values| - 1] || v == values[|values| - 1] by {
      assert values == values[..|values| - 1] + [values[|values| - 1]];
    }
  }

  lemma {:induction false} NoOpsVerdict(fp: Fp)
    ensures OpsVerdict([], fp) == Untouched
  {
  }

  lemma {:induction false} OneVerdict(op: Op, fp: Fp)
    requires !op.SwapIn?
    ensures OpsVerdict([op], fp) == if op.fp != fp then Untouched else if op.Add? then Present else Absent
  {
    assert [op][..0] == [];
    NoOpsVerdict(fp);
  }

  lemma {:induction false} VerdictOneMore(ops: seq<Op>, more: seq<Op>, fp: Fp)
    requires |more| <= 1
    ensures OpsVerdict(ops + more, fp) == Then(OpsVerdict(ops, fp), OpsVerdict(more, fp))
  {
    if more == [] {
      assert ops + more == ops;
    } else {
      assert (ops + more)[..|ops|] == ops && more[..0] == [];
      assert OpsVerdict(more[..0], fp) == Untouched;
    }
  }

  /**
   What one event does, for any set: a delete takes the key of every value it names out, a create, an update
   or a merge puts it in, and every other key stays as it was.
   */
  lemma {:induction false} EventDoes(k: Keying, s: Overlaid, e: Event, fp: Fp)
    requires e.data.Payload? && (e.kind.Create? || e.kind.Update? || e.kind.Merge? || e.kind.Delete?)
    ensures Run(s, EventOps(k, e)).Has(fp)
            <==> if Names(k, ExtractValues(e.data.stix), fp) then !e.kind.Delete? else s.Has(fp)
  {
    hide ExtractValues, Names;
    var values := ExtractValues(e.data.stix);
    ValueOpsDecide(k, e.kind, values, fp);
    ValueOpsOfKind(k, e.kind, values);
    RunStanding(s, EventOps(k, e), fp);
  }

  /** Every other event leaves the set alone: heartbeats, other names, and data that is no object. */
  lemma {:induction false} OtherEventsDoNothing(k: Keying, s: Overlaid, e: Event)
    requires !e.data.Payload? || !(e.kind.Create? || e.kind.Update? || e.kind.Merge? || e.kind.Delete?)
    ensures Run(s, EventOps(k, e)) == s
  {
  }

  /** The value of a typed object counts exactly for these five types. */
  lemma TypedValueCounts(t: string, value: Option<string>)
    ensures ExtractValues(Other(t, value))
            == if value.Some? && (t == "ipv4-addr" || t == "ipv6-addr" || t == "domain-name" || t == "url"
                                  || t == "hostname")
               then [value.value] else []
  {
  }

  /** A deleted indicator is no member after the delete, whatever the set held; the same value updated is one. */
  lemma {:induction false} DeletedIsGone(k: Keying, s: Overlaid, id: Option<string>, v: string)
    requires k.normalize(v).Some?
    ensures var fp, data := k.hash(k.normalize(v).value), Payload(Other("domain-name", Some(v)));
            && !Run(s, EventOps(k, Event(Delete, id, data))).Has(fp)
            && Run(s, EventOps(k, Event(Update, id, data))).Has(fp)
  {
    hide EventOps, Run, ExtractValues;
    var fp, data := k.hash(k.normalize(v).value), Payload(Other("domain-name", Some(v)));
    TypedValueCounts("domain-name", Some(v));
    assert v in [v] && Names(k, [v], fp);
    EventDoes(k, s, Event(Delete, id, data), fp);
    EventDoes(k, s, Event(Update, id, data), fp);
  }

  /** The cursor is the id of the last event that has one. */
  lemma {:induction false} CursorIsLastId(cursor: Option<string>, log: seq<Event>, i: nat)
    requires i < |log| && log[i].id.Some? && forall j :: i < j < |log| ==> log[j].id.None?
    ensures CursorAfter(cursor, log) == log[i].id
  {
    if i < |log| - 1 { CursorIsLastId(cursor, log[..|log| - 1], i); }
  }

  /** Events without ids leave it where it was. */
  lemma {:induction false} CursorStays(cursor: Option<string>, log: seq<Event>)
    requires forall j :: 0 <= j < |log| ==> log[j].id.None?
    ensures CursorAfter(cursor, log) == cursor
  {
    if log != [] { CursorStays(cursor, log[..|log| - 1]); }
  }
}
