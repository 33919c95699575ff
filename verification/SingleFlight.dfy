/**
 Concurrent lookups on one event loop: each checks the cache, then leads a flight upstream or joins
 the one under way. Steps are the stretches between awaits, in any order.
 */
module SingleFlight {
  import opened Wrappers
  import opened PayloadCaching

  type Id = nat

  datatype Error = BreakerOpen | OpenCti | Cancelled | AnyOther

  /** How a flight ended: its leader's result or exception. */
  datatype Outcome<P> = Value(payload: P) | Raised(error: Error)

  datatype Flight<P> = Flight(key: string, leader: Id, outcome: Option<Outcome<P>>)

  /** What LiveBackend.lookup gives its caller. */
  datatype Answer<P> = Cached(payload: P) | Fetched(payload: P) | Degraded | Propagated(error: Error)

  /** A lookup task; a finished one remembers the flight it took part in, and whether it was itself cancelled. */
  datatype Task<P> =
    | Leading(key: string, flight: nat)
    | Joined(key: string, flight: nat)
    | Finished(key: string, via: Option<nat>, cancelled: bool, answer: Answer<P>)

  /** One event loop: the clock, the cache (as the operations done on it), the flights and the tasks. */
  datatype Loop<P> = Loop(now: real, ops: seq<Op<P>>, inflight: map<string, nat>, flights: seq<Flight<P>>,
                          tasks: map<Id, Task<P>>)

  datatype Step<P> =
    | Tick(time: real)
    | Begin(task: Id, key: string)
    | Land(task: Id, outcome: Outcome<P>)   // the leader's fetch returned, raised, or was cancelled
    | Wake(task: Id)                        // a joined flight has landed
    | Cancel(task: Id)                      // a joiner is cancelled; the shield spares the flight
    | Flag(degraded: bool)                  // set_degraded

  function AnswerTo<P>(o: Outcome<P>): Answer<P> {
    match o
    case Value(p) => Fetched(p)
    case Raised(e) => if e.BreakerOpen? || e.OpenCti? then Degraded else Propagated(e)
  }

  /** A landed value is cached by its leader and again by each joiner as it wakes. */
  function Stored<P>(o: Outcome<P>, now: real, key: string): seq<Op<P>> {
    if o.Value? then [Op.Set(now, key, o.payload)] else []
  }

  predicate Enabled<P>(s: Loop<P>, step: Step<P>) {
    match step
    case Tick(t) => s.now <= t
    case Begin(t, _) => t !in s.tasks
    case Land(t, _) => t in s.tasks && s.tasks[t].Leading? && s.tasks[t].flight < |s.flights|
    case Wake(t) =>
      && t in s.tasks && s.tasks[t].Joined? && s.tasks[t].flight < |s.flights|
      && s.flights[s.tasks[t].flight].outcome.Some?
    case Cancel(t) => t in s.tasks && s.tasks[t].Joined?
    case Flag(_) => true
  }

  /** Check the cache, then join the flight under way or lead a new one. */
  function Started<P>(c: Cache<P>, s: Loop<P>, t: Id, key: string): Loop<P> {
    var cached := Run(c, s.ops).Get(s.now, key).1;
    var ops := s.ops + [Op.Get(s.now, key)];
    if cached.Some? then s.(ops := ops, tasks := s.tasks[t := Finished(key, None, false, Cached(cached.value))])
    else if key in s.inflight then s.(ops := ops, tasks := s.tasks[t := Joined(key, s.inflight[key])])
    else
      var f := |s.flights|;
      s.(ops := ops, inflight := s.inflight[key := f], flights := s.flights + [Flight(key, t, None)],
         tasks := s.tasks[t := Leading(key, f)])
  }

  /** The leader settles the future, drops the key, and caches a value. */
  function Landed<P>(s: Loop<P>, t: Id, o: Outcome<P>): Loop<P>
    requires Enabled(s, Land(t, o))
  {
    var key, f := s.tasks[t].key, s.tasks[t].flight;
    s.(ops := s.ops + Stored(o, s.now, key), inflight := s.inflight - {key},
       flights := s.flights[f := s.flights[f].(outcome := Some(o))],
       tasks := s.tasks[t := Finished(key, Some(f), false, AnswerTo(o))])
  }

  function Woken<P>(s: Loop<P>, t: Id): Loop<P>
    requires Enabled(s, Wake(t))
  {
    var key, f := s.tasks[t].key, s.tasks[t].flight;
    var o := s.flights[f].outcome.value;
    s.(ops := s.ops + Stored(o, s.now, key), tasks := s.tasks[t := Finished(key, Some(f), false, AnswerTo(o))])
  }

  function Next<P>(c: Cache<P>, s: Loop<P>, step: Step<P>): Loop<P>
    requires Enabled(s, step)
  {
    match step
    case Tick(t) => s.(now := t)
    case Begin(t, key) => Started(c, s, t, key)
    case Land(t, o) => Landed(s, t, o)
    case Wake(t) => Woken(s, t)
    case Cancel(t) =>
      var finished := Finished(s.tasks[t].key, Some(s.tasks[t].flight), true, Propagated(Cancelled));
      s.(tasks := s.tasks[t := finished])
    case Flag(d) => s.(ops := s.ops + [Op.SetDegraded(d)])
  }

  function Idle<P>(start: real): Loop<P> {
    Loop(start, [], map[], [], map[])
  }

  /** A run: each step enabled where it is taken. */
  ghost predicate IsRun<P>(c: Cache<P>, start: real, run: seq<Loop<P>>, steps: seq<Step<P>>) {
    && |run| == |steps| + 1 && run[0] == Idle(start)
    && forall i :: 0 <= i < |steps| ==> Enabled(run[i], steps[i]) && run[i + 1] == Next(c, run[i], steps[i])
  }

  // ----------------------------------------------------------------------- the invariant

  /** A task leads a flight exactly while its key is in flight under that flight. */
  ghost predicate LeadsItsFlight<P>(s: Loop<P>, t: Id) {
    t in s.tasks && s.tasks[t].Leading? ==>
      var f := s.tasks[t].flight;
      s.tasks[t].key in s.inflight && s.inflight[s.tasks[t].key] == f && f < |s.flights| && s.flights[f].leader == t
  }

  ghost predicate TookPart<P>(s: Loop<P>, t: Id) {
    t in s.tasks && (s.tasks[t].Joined? || (s.tasks[t].Finished? && s.tasks[t].via.Some?)) ==>
      var f := if s.tasks[t].Joined? then s.tasks[t].flight else s.tasks[t].via.value;
      && f < |s.flights| && s.flights[f].key == s.tasks[t].key
      && (s.tasks[t].Finished? && !s.tasks[t].cancelled ==>
            s.flights[f].outcome.Some? && s.tasks[t].answer == AnswerTo(s.flights[f].outcome.value))
  }

  ghost predicate InFlight<P>(s: Loop<P>, k: string) {
    k in s.inflight ==>
      var f := s.inflight[k];
      && f < |s.flights| && s.flights[f].key == k && s.flights[f].outcome.None?
      && s.flights[f].leader in s.tasks && s.tasks[s.flights[f].leader] == Leading(k, f)
  }

  /** A flight without an outcome is the one its key is under. */
  ghost predicate Running<P>(s: Loop<P>, f: nat) {
    f < |s.flights| && s.flights[f].outcome.None? ==>
      s.flights[f].key in s.inflight && s.inflight[s.flights[f].key] == f
  }

  /** The log of cache operations is in the order of the clock. */
  ghost predicate Clocked<P>(start: real, s: Loop<P>) {
    Monotonic(start, s.ops) && LastTime(start, s.ops) <= s.now
  }

  ghost predicate Inv<P>(start: real, s: Loop<P>) {
    && (forall t :: LeadsItsFlight(s, t))
    && (forall t :: TookPart(s, t))
    && (forall k :: InFlight(s, k))
    && (forall f :: Running(s, f))
    && Clocked(start, s)
  }

  lemma {:induction false} OpsOneMore<P>(start: real, s: Loop<P>, op: Op<P>)
    requires Clocked(start, s) && (Timed(op) ==> op.now == s.now)
    ensures Monotonic(start, s.ops + [op]) && LastTime(start, s.ops + [op]) <= s.now
  {
    assert (s.ops + [op])[..|s.ops|] == s.ops;
  }

  lemma {:induction false} StoredClocked<P>(start: real, s: Loop<P>, o: Outcome<P>, key: string)
    requires Clocked(start, s)
    ensures Monotonic(start, s.ops + Stored(o, s.now, key)) && LastTime(start, s.ops + Stored(o, s.now, key)) <= s.now
  {
    if o.Value? { OpsOneMore(start, s, Op.Set(s.now, key, o.payload)); } else { assert s.ops + [] == s.ops; }
  }

  lemma BeginKeeps<P>(c: Cache<P>, start: real, s: Loop<P>, t: Id, key: string)
    requires Inv(start, s) && t !in s.tasks
    ensures Inv(start, Started(c, s, t, key))
  {
    var s' := Started(c, s, t, key);
    OpsOneMore(start, s, Op.Get(s.now, key));
    hide Monotonic, LastTime, Run;
    forall u ensures LeadsItsFlight(s', u) { assert LeadsItsFlight(s, u); }
    forall u ensures TookPart(s', u) { assert TookPart(s, u) && InFlight(s, key); }
    forall k ensures InFlight(s', k) { assert InFlight(s, k); }
    forall f ensures Running(s', f) { assert Running(s, f); }
  }

  lemma LandKeeps<P>(start: real, s: Loop<P>, t: Id, o: Outcome<P>)
    requires Inv(start, s) && Enabled(s, Land(t, o))
    ensures Inv(start, Landed(s, t, o))
  {
    var s', key, f := Landed(s, t, o), s.tasks[t].key, s.tasks[t].flight;
    StoredClocked(start, s, o, key);
    hide Monotonic, LastTime;
    assert LeadsItsFlight(s, t) && InFlight(s, key);
    forall u ensures LeadsItsFlight(s', u) { assert LeadsItsFlight(s, u); }
    forall u ensures TookPart(s', u) { assert TookPart(s, u); }
    forall k ensures InFlight(s', k) { assert InFlight(s, k); }
    forall g ensures Running(s', g) { assert Running(s, g); }
  }

  lemma WakeKeeps<P>(start: real, s: Loop<P>, t: Id)
    requires Inv(start, s) && Enabled(s, Wake(t))
    ensures Inv(start, Woken(s, t))
  {
    var s' := Woken(s, t);
    StoredClocked(start, s, s.flights[s.tasks[t].flight].outcome.value, s.tasks[t].key);
    hide Monotonic, LastTime;
    assert TookPart(s, t);
    forall u ensures LeadsItsFlight(s', u) { assert LeadsItsFlight(s, u); }
    forall u ensures TookPart(s', u) { assert TookPart(s, u); }
    forall k ensures InFlight(s', k) { assert InFlight(s, k); }
    forall f ensures Running(s', f) { assert Running(s, f); }
  }

  lemma CancelKeeps<P>(c: Cache<P>, start: real, s: Loop<P>, t: Id)
    requires Inv(start, s) && Enabled(s, Cancel(t))
    ensures Inv(start, Next(c, s, Cancel(t)))
  {
    var s' := Next(c, s, Cancel(t));
    hide Monotonic, LastTime;
    assert TookPart(s, t);
    forall u ensures LeadsItsFlight(s', u) { assert LeadsItsFlight(s, u); }
    forall u ensures TookPart(s', u) { assert TookPart(s, u); }
    forall k ensures InFlight(s', k) { assert InFlight(s, k); }
    forall f ensures Running(s', f) { assert Running(s, f); }
  }

  /** Nothing but the clock and the log changes. */
  lemma OthersKeep<P>(c: Cache<P>, start: real, s: Loop<P>, step: Step<P>)
    requires Inv(start, s) && Enabled(s, step) && (step.Tick? || step.Flag?)
    ensures Inv(start, Next(c, s, step))
  {
    var s' := Next(c, s, step);
    if step.Flag? { OpsOneMore(start, s, Op.SetDegraded(step.degraded)); }
    hide Monotonic, LastTime;
    forall u ensures LeadsItsFlight(s', u) { assert LeadsItsFlight(s, u); }
    forall u ensures TookPart(s', u) { assert TookPart(s, u); }
    forall k ensures InFlight(s', k) { assert InFlight(s, k); }
    forall f ensures Running(s', f) { assert Running(s, f); }
  }

  lemma StepKeepsInv<P>(c: Cache<P>, start: real, s: Loop<P>, step: Step<P>)
    requires Inv(start, s) && Enabled(s, step)
    ensures Inv(start, Next(c, s, step))
  {
    hide Inv;
    match step {
      case Begin(t, key) => BeginKeeps(c, start, s, t, key);
      case Land(t, o) => LandKeeps(start, s, t, o);
      case Wake(t) => WakeKeeps(start, s, t);
      case Cancel(t) => CancelKeeps(c, start, s, t);
      case Tick(_) => OthersKeep(c, start, s, step);
      case Flag(_) => OthersKeep(c, start, s, step);
    }
  }

  lemma {:induction false} RunInv<P>(c: Cache<P>, start: real, run: seq<Loop<P>>, steps: seq<Step<P>>, i: nat)
    requires IsRun(c, start, run, steps) && i < |run|
    ensures Inv(start, run[i])
  {
    if i > 0 {
      RunInv(c, start, run, steps, i - 1);
      StepKeepsInv(c, start, run[i - 1], steps[i - 1]);
    }
  }

  // ------------------------------------------------------------------------- the promises

  /** Two tasks fetching one key. */
  predicate BothLead<P>(s: Loop<P>, t: Id, u: Id) {
    && t in s.tasks && s.tasks[t].Leading? && u in s.tasks && s.tasks[u].Leading?
    && s.tasks[t].key == s.tasks[u].key
  }

  /** Two flights of one key without an outcome. */
  predicate BothRun<P>(s: Loop<P>, f: nat, g: nat) {
    && f < |s.flights| && s.flights[f].outcome.None? && g < |s.flights| && s.flights[g].outcome.None?
    && s.flights[f].key == s.flights[g].key
  }

  /** At no point of any run do two tasks fetch the same key, or two flights of one key lack an outcome. */
  lemma OneFlightPerKey<P>(c: Cache<P>, start: real, run: seq<Loop<P>>, steps: seq<Step<P>>, i: nat)
    requires IsRun(c, start, run, steps) && i < |run|
    ensures forall t, u :: BothLead(run[i], t, u) ==> t == u
    ensures forall f, g :: BothRun(run[i], f, g) ==> f == g
  {
    RunInv(c, start, run, steps, i);
    var s := run[i];
    forall t, u | BothLead(s, t, u) ensures t == u {
      assert LeadsItsFlight(s, t) && LeadsItsFlight(s, u);
    }
    forall f, g | BothRun(s, f, g) ensures f == g {
      assert Running(s, f) && Running(s, g);
    }
  }

  /** A key is in flight only while its leader is still fetching: no failure or cancellation wedges it. */
  lemma NoKeyIsWedged<P>(c: Cache<P>, start: real, run: seq<Loop<P>>, steps: seq<Step<P>>, i: nat, key: string)
    requires IsRun(c, start, run, steps) && i < |run|
    ensures key in run[i].inflight <==>
              exists t :: t in run[i].tasks && run[i].tasks[t].Leading? && run[i].tasks[t].key == key
  {
    RunInv(c, start, run, steps, i);
    var s := run[i];
    assert InFlight(s, key);
    forall t | t in s.tasks && s.tasks[t].Leading? && s.tasks[t].key == key ensures key in s.inflight {
      assert LeadsItsFlight(s, t);
    }
  }

  /**
   What an outcome comes to for whoever waited for it: a payload as such; a refusal by the breaker or upstream as
   degraded; every other exception as itself.
   */
  predicate Delivered<P(==)>(o: Outcome<P>, a: Answer<P>) {
    match o
    case Value(p) => a == Fetched(p)
    case Raised(BreakerOpen) => a == Degraded
    case Raised(OpenCti) => a == Degraded
    case Raised(Cancelled) => a == Propagated(Cancelled)
    case Raised(AnyOther) => a == Propagated(AnyOther)
  }

  /** A finished lookup that took part in a flight and was not itself cancelled has that flight's outcome. */
  lemma JoinersShareTheOutcome<P>(c: Cache<P>, start: real, run: seq<Loop<P>>, steps: seq<Step<P>>, i: nat, t: Id)
    requires IsRun(c, start, run, steps) && i < |run|
    requires t in run[i].tasks && run[i].tasks[t].Finished? && run[i].tasks[t].via.Some? && !run[i].tasks[t].cancelled
    ensures var f := run[i].tasks[t].via.value;
            && f < |run[i].flights| && run[i].flights[f].key == run[i].tasks[t].key
            && run[i].flights[f].outcome.Some? && Delivered(run[i].flights[f].outcome.value, run[i].tasks[t].answer)
  {
    RunInv(c, start, run, steps, i);
    assert TookPart(run[i], t);
  }

  /**
   How a lookup starts: answered from the cache when it can be; otherwise joined to the task that is fetching its
   key; and fetching itself only when no task is.
   */
  lemma {:induction false} BeginDecides<P>(c: Cache<P>, start: real, run: seq<Loop<P>>, steps: seq<Step<P>>,
                                           i: nat, t: Id, key: string)
    requires IsRun(c, start, run, steps) && i < |steps| && steps[i] == Begin(t, key)
    ensures var hit, s, s' := Run(c, run[i].ops).Get(run[i].now, key).1, run[i], run[i + 1];
            && t in s'.tasks
            && (hit.Some? ==> s'.tasks[t] == Finished(key, None, false, Cached(hit.value)))
            && (hit.None? ==> forall u :: u in s.tasks && s.tasks[u].Leading? && s.tasks[u].key == key ==>
                                s'.tasks[t] == Joined(key, s.tasks[u].flight))
            && (hit.None? && (forall u :: u in s.tasks && s.tasks[u].Leading? ==> s.tasks[u].key != key) ==>
                  && s'.tasks[t] == Leading(key, |s.flights|)
                  && s'.flights == s.flights + [Flight(key, t, None)])
  {
    hide Run;
    RunInv(c, start, run, steps, i);
    NoKeyIsWedged(c, start, run, steps, i, key);
    forall u | u in run[i].tasks && run[i].tasks[u].Leading? && run[i].tasks[u].key == key
      ensures key in run[i].inflight && run[i].inflight[key] == run[i].tasks[u].flight
    {
      assert LeadsItsFlight(run[i], u);
    }
  }

  /**
   Nobody waits for ever: a joiner whose flight has landed can wake to its outcome, and until then a leader is
   fetching, whose landing, however it ends, is the joiner's to wake to.
   */
  lemma JoinerIsServed<P>(c: Cache<P>, start: real, run: seq<Loop<P>>, steps: seq<Step<P>>, i: nat, t: Id,
                          o: Outcome<P>)
    requires IsRun(c, start, run, steps) && i < |run| && t in run[i].tasks && run[i].tasks[t].Joined?
    ensures run[i].tasks[t].flight < |run[i].flights|
    ensures var s, f := run[i], run[i].flights[run[i].tasks[t].flight];
            if f.outcome.Some? then
              && Enabled(s, Wake(t)) && Next(c, s, Wake(t)).tasks[t].Finished?
              && Delivered(f.outcome.value, Next(c, s, Wake(t)).tasks[t].answer)
            else
              && Enabled(s, Land(f.leader, o))
              && var landed := Next(c, s, Land(f.leader, o));
                 && Enabled(landed, Wake(t)) && Next(c, landed, Wake(t)).tasks[t].Finished?
                 && Delivered(o, Next(c, landed, Wake(t)).tasks[t].answer)
  {
    hide Run;
    RunInv(c, start, run, steps, i);
    assert TookPart(run[i], t);
    var f := run[i].tasks[t].flight;
    assert Running(run[i], f) && InFlight(run[i], run[i].flights[f].key);
  }

  lemma {:induction false} FlagIsLogged<P>(c: Cache<P>, ops: seq<Op<P>>, degraded: bool)
    ensures Run(c, ops + [Op.SetDegraded(degraded)]) == Run(c, ops).(degraded := degraded)
  {
    assert (ops + [Op.SetDegraded(degraded)])[..|ops|] == ops;
  }

  /** Between lookups the clock moves and the degraded flag changes, and nothing else does. */
  lemma {:induction false} ClockAndFlag<P>(c: Cache<P>, start: real, run: seq<Loop<P>>, steps: seq<Step<P>>, i: nat)
    requires IsRun(c, start, run, steps) && i < |steps| && (steps[i].Tick? || steps[i].Flag?)
    ensures steps[i].Tick? ==> run[i + 1] == run[i].(now := steps[i].time)
    ensures steps[i].Flag? ==>
              && run[i + 1] == run[i].(ops := run[i + 1].ops)
              && Run(c, run[i + 1].ops) == Run(c, run[i].ops).(degraded := steps[i].degraded)
  {
    if steps[i].Flag? { FlagIsLogged(c, run[i].ops, steps[i].degraded); }
  }

  /** A joiner that is cancelled ends with its own cancellation; the flight, its leader and the other joiners go on. */
  lemma CancelSparesTheFlight<P>(c: Cache<P>, start: real, run: seq<Loop<P>>, steps: seq<Step<P>>, i: nat, t: Id)
    requires IsRun(c, start, run, steps) && i < |steps| && steps[i] == Cancel(t)
    ensures t in run[i + 1].tasks && run[i + 1].tasks[t].Finished? && run[i + 1].tasks[t].cancelled
    ensures run[i + 1].tasks[t].answer == Propagated(Cancelled)
    ensures run[i + 1].flights == run[i].flights && run[i + 1].inflight == run[i].inflight
    ensures run[i + 1].ops == run[i].ops && run[i + 1].tasks - {t} == run[i].tasks - {t}
  {
  }

  /** A payload fetched is answered to its leader, and from the cache to whoever asks next. */
  lemma {:induction false} LandedIsCached<P>(c: Cache<P>, start: real, run: seq<Loop<P>>, steps: seq<Step<P>>,
                                             i: nat, t: Id, p: P)
    requires IsRun(c, start, run, steps) && i < |steps| && steps[i] == Land(t, Value(p)) && c.Valid()
    requires (if Run(c, run[i].ops).degraded then c.degradedTtl else c.ttl) > 0
    ensures t in run[i + 1].tasks && run[i + 1].tasks[t].Finished? && run[i + 1].tasks[t].answer == Fetched(p)
    ensures Run(c, run[i + 1].ops).Get(run[i + 1].now, run[i].tasks[t].key).1 == Some(p)
  {
    SetIsAnswered(c, run[i].ops, run[i].now, run[i].tasks[t].key, p);
  }

  /** A joiner that wakes to a payload has it, and caches it anew. */
  lemma {:induction false} WokenIsCached<P>(c: Cache<P>, start: real, run: seq<Loop<P>>, steps: seq<Step<P>>,
                                            i: nat, t: Id, p: P)
    requires IsRun(c, start, run, steps) && i < |steps| && steps[i] == Wake(t) && c.Valid()
    requires run[i].flights[run[i].tasks[t].flight].outcome == Some(Value(p))
    requires (if Run(c, run[i].ops).degraded then c.degradedTtl else c.ttl) > 0
    ensures t in run[i + 1].tasks && run[i + 1].tasks[t].Finished? && run[i + 1].tasks[t].answer == Fetched(p)
    ensures Run(c, run[i + 1].ops).Get(run[i + 1].now, run[i].tasks[t].key).1 == Some(p)
  {
    SetIsAnswered(c, run[i].ops, run[i].now, run[i].tasks[t].key, p);
  }

  /** An outcome, once there, stays; and a flight keeps its key and its leader. */
  lemma OutcomesAreFinal<P>(c: Cache<P>, start: real, s: Loop<P>, step: Step<P>, f: nat)
    requires Inv(start, s) && Enabled(s, step) && f < |s.flights|
    ensures var s' := Next(c, s, step);
            && f < |s'.flights| && s'.flights[f].key == s.flights[f].key && s'.flights[f].leader == s.flights[f].leader
            && (s.flights[f].outcome.Some? ==> s'.flights[f].outcome == s.flights[f].outcome)
  {
    if step.Land? {
      assert LeadsItsFlight(s, step.task) && InFlight(s, s.tasks[step.task].key);
    }
  }

  /**
   A flight is begun only for a key that is not in flight, and only when the cache cannot answer: what
   was last fetched for the key is due, or at least max_entries other keys were used since.
   */
  lemma {:induction false} FlightsOnlyWhenNeeded<P>(c: Cache<P>, start: real, run: seq<Loop<P>>, steps: seq<Step<P>>,
                                                    i: nat)
    requires IsRun(c, start, run, steps) && i < |steps| && |run[i + 1].flights| > |run[i].flights|
    requires c.Valid() && c.entries == []
    ensures steps[i].Begin?
    ensures var k := steps[i].key;
            && k !in run[i].inflight
            && (LastSet(c, run[i].ops, k).Some? ==>
                  LastSet(c, run[i].ops, k).value.1 <= run[i].now || |OthersSince(c, run[i].ops, k)| >= c.maxEntries)
  {
    RunInv(c, start, run, steps, i);
    var s := run[i];
    hide LastSet, OthersSince, Monotonic, LastTime, Run;
    if steps[i].Begin? {
      var k := steps[i].key;
      var last, others := LastSet(c, s.ops, k), OthersSince(c, s.ops, k);
      if last.Some? && s.now < last.value.1 && |others| < c.maxEntries {
        UnexpiredIsKept(c, start, s.ops, s.now, k);
      }
    }
  }

  // ------------------------------------------------------------ where cached payloads come from

  /** Some flight of this key landed with this payload. */
  ghost predicate From<P>(s: Loop<P>, k: string, p: P) {
    exists f :: 0 <= f < |s.flights| && s.flights[f].key == k && s.flights[f].outcome == Some(Value(p))
  }

  /** What the cache last took for a key, and what a finished lookup answered, some flight of that key fetched. */
  ghost predicate Sourced<P>(c: Cache<P>, s: Loop<P>, k: string) {
    LastSet(c, s.ops, k).Some? ==> From(s, k, LastSet(c, s.ops, k).value.0)
  }

  ghost predicate AnswerSourced<P>(s: Loop<P>, t: Id) {
    t in s.tasks && s.tasks[t].Finished? && (s.tasks[t].answer.Cached? || s.tasks[t].answer.Fetched?) ==>
      From(s, s.tasks[t].key, s.tasks[t].answer.payload)
  }

  ghost predicate AllSourced<P>(c: Cache<P>, s: Loop<P>) {
    (forall k :: Sourced(c, s, k)) && (forall t :: AnswerSourced(s, t))
  }

  lemma FromStays<P>(c: Cache<P>, start: real, s: Loop<P>, step: Step<P>, k: string, p: P)
    requires Inv(start, s) && Enabled(s, step) && From(s, k, p)
    ensures From(Next(c, s, step), k, p)
  {
    var f :| 0 <= f < |s.flights| && s.flights[f].key == k && s.flights[f].outcome == Some(Value(p));
    OutcomesAreFinal(c, start, s, step, f);
    assert Next(c, s, step).flights[f].key == k;
  }

  lemma {:induction false} LastSetOneMore<P>(c: Cache<P>, ops: seq<Op<P>>, op: Op<P>, k: string)
    ensures LastSet(c, ops + [op], k).Some? ==>
              LastSet(c, ops, k) == LastSet(c, ops + [op], k)
              || (op.Set? && op.key == k && LastSet(c, ops + [op], k).value.0 == op.payload)
  {
    assert (ops + [op])[..|ops|] == ops;
  }

  /** The payload a Land or a Wake stores is the one its flight landed with. */
  lemma StoredFrom<P>(c: Cache<P>, start: real, s: Loop<P>, step: Step<P>)
    requires Inv(start, s) && Enabled(s, step) && (step.Land? || step.Wake?)
    ensures var s', t := Next(c, s, step), step.task;
            var o := if step.Land? then step.outcome else s.flights[s.tasks[t].flight].outcome.value;
            && s'.ops == s.ops + Stored(o, s.now, s.tasks[t].key)
            && s'.tasks[t].Finished? && s'.tasks[t].key == s.tasks[t].key && s'.tasks[t].answer == AnswerTo(o)
            && (o.Value? ==> From(s', s.tasks[t].key, o.payload))
  {
    var s', t := Next(c, s, step), step.task;
    assert LeadsItsFlight(s, t) && TookPart(s, t) && InFlight(s, s.tasks[t].key);
    var f := s.tasks[t].flight;
    assert s'.flights[f].key == s.tasks[t].key;
  }

  lemma KeySourced<P>(c: Cache<P>, start: real, s: Loop<P>, step: Step<P>, k: string)
    requires Inv(start, s) && Enabled(s, step) && Sourced(c, s, k)
    ensures Sourced(c, Next(c, s, step), k)
  {
    var s' := Next(c, s, step);
    if step.Land? || step.Wake? { StoredFrom(c, start, s, step); }
    hide LastSet, Inv, From;
    if LastSet(c, s'.ops, k).Some? {
      var p := LastSet(c, s'.ops, k).value.0;
      if |s'.ops| > |s.ops| {
        assert s'.ops == s.ops + [s'.ops[|s.ops|]];
        LastSetOneMore(c, s.ops, s'.ops[|s.ops|], k);
      } else {
        assert s'.ops == s.ops;
      }
      if LastSet(c, s.ops, k) == LastSet(c, s'.ops, k) { FromStays(c, start, s, step, k, p); }
    }
  }

  lemma TaskSourced<P>(c: Cache<P>, start: real, s: Loop<P>, step: Step<P>, t: Id)
    requires Inv(start, s) && Enabled(s, step) && AllSourced(c, s) && c.Valid() && c.entries == []
    ensures AnswerSourced(Next(c, s, step), t)
  {
    var s' := Next(c, s, step);
    assert AnswerSourced(s, t);
    if t in s'.tasks && s'.tasks[t].Finished? && (s'.tasks[t].answer.Cached? || s'.tasks[t].answer.Fetched?) {
      if t in s.tasks && s.tasks[t] == s'.tasks[t] {
        FromStays(c, start, s, step, s.tasks[t].key, s.tasks[t].answer.payload);
      } else if step.Begin? {
        GetIsLatest(c, start, s.ops, s.now, step.key);
        assert Sourced(c, s, step.key);
        FromStays(c, start, s, step, step.key, s'.tasks[t].answer.payload);
      } else if step.Land? || step.Wake? {
        StoredFrom(c, start, s, step);
      }
    }
  }

  lemma {:induction false} RunSourced<P>(c: Cache<P>, start: real, run: seq<Loop<P>>, steps: seq<Step<P>>, i: nat)
    requires IsRun(c, start, run, steps) && i < |run| && c.Valid() && c.entries == []
    ensures AllSourced(c, run[i])
  {
    if i > 0 {
      var s, step := run[i - 1], steps[i - 1];
      RunSourced(c, start, run, steps, i - 1);
      RunInv(c, start, run, steps, i - 1);
      forall k ensures Sourced(c, run[i], k) { assert Sourced(c, s, k); KeySourced(c, start, s, step, k); }
      forall t ensures AnswerSourced(run[i], t) { TaskSourced(c, start, s, step, t); }
    }
  }

  predicate FromUpstream<P(==)>(f: Flight<P>, up: string -> P) {
    f.outcome.Some? && f.outcome.value.Value? ==> f.outcome.value.payload == up(f.key)
  }

  /**
   While upstream's answers are fixed, every lookup that answers with a payload, from the cache or
   from a flight it led or joined, answers with upstream's payload for its key; a failure is answered
   as degraded or propagated and never enters the cache.
   */
  lemma {:induction false} AnswersAreUpstreams<P>(c: Cache<P>, start: real, run: seq<Loop<P>>, steps: seq<Step<P>>,
                                                  up: string -> P, i: nat, t: Id)
    requires IsRun(c, start, run, steps) && i < |run| && c.Valid() && c.entries == []
    requires forall f :: 0 <= f < |run[i].flights| ==> FromUpstream(run[i].flights[f], up)
    requires t in run[i].tasks && run[i].tasks[t].Finished?
    ensures var a := run[i].tasks[t].answer;
            || a == Cached(up(run[i].tasks[t].key)) || a == Fetched(up(run[i].tasks[t].key))
            || a.Degraded? || a.Propagated?
    ensures forall k :: LastSet(c, run[i].ops, k).Some? ==> LastSet(c, run[i].ops, k).value.0 == up(k)
  {
    RunSourced(c, start, run, steps, i);
    assert AnswerSourced(run[i], t);
    forall k | LastSet(c, run[i].ops, k).Some? ensures LastSet(c, run[i].ops, k).value.0 == up(k) {
      assert Sourced(c, run[i], k);
    }
  }
}
