/** The circuit breaker in front of upstream, over any timed run of calls. */
module Breaker {
  import opened Wrappers

  datatype View = Closed | Open | HalfOpen

  /** What is stored; half-open is only ever a reading of the clock. */
  datatype State = State(open: bool, failures: nat, openedAt: real)

  datatype Settings = Settings(threshold: int, resetAfter: real) {

    function Seen(s: State, now: real): View {
      if s.open then if now - s.openedAt >= resetAfter then HalfOpen else Open
      else Closed
    }

    predicate Allows(s: State, now: real) {
      !Seen(s, now).Open?
    }

    function Success(s: State): State {
      s.(open := false, failures := 0)
    }

    function Failure(s: State, now: real): State {
      var n := s.failures + 1;
      if n >= threshold && !s.open then State(true, n, now) else s.(failures := n)
    }

    /** Failures it takes to open, since one has to happen first. */
    function Needed(): nat {
      if threshold <= 1 then 1 else threshold
    }

    /** The state after a run of records; being asked changes nothing. */
    function After(run: seq<Event>): State {
      if run == [] then State(false, 0, 0.0)
      else
        var s := After(run[..|run| - 1]);
        match run[|run| - 1]
        case Asked(_) => s
        case Succeeded(_) => Success(s)
        case Failed(t) => Failure(s, t)
    }
  }

  /** What happens to a breaker, with the clock; calls overlap, so records come in any order. */
  datatype Event = Asked(time: real) | Succeeded(time: real) | Failed(time: real)

  /** The times of the failures since the last success. */
  function Streak(run: seq<Event>): seq<real> {
    if run == [] then []
    else
      match run[|run| - 1]
      case Asked(_) => Streak(run[..|run| - 1])
      case Succeeded(_) => []
      case Failed(t) => Streak(run[..|run| - 1]) + [t]
  }

  predicate InOrder(run: seq<Event>) {
    forall i, j :: 0 <= i < j < |run| ==> run[i].time <= run[j].time
  }

  /** The stored state, told from the run alone. */
  lemma {:induction false} AfterIs(b: Settings, run: seq<Event>)
    ensures var s := b.After(run);
            && s.failures == |Streak(run)|
            && (s.open <==> |Streak(run)| >= b.Needed())
            && (s.open ==> s.openedAt == Streak(run)[b.Needed() - 1])
  {
    if run != [] { AfterIs(b, run[..|run| - 1]); }
  }

  /**
   The breaker refuses a call exactly when the failures since the last success have reached the
   threshold, and less than the reset time has passed since the one that reached it.
   */
  lemma {:induction false} RefusesIff(b: Settings, run: seq<Event>, now: real)
    ensures var needed := if b.threshold < 1 then 1 else b.threshold;
            !b.Allows(b.After(run), now)
            <==> |Streak(run)| >= needed && now - Streak(run)[needed - 1] < b.resetAfter
  {
    AfterIs(b, run);
  }

  lemma {:induction false} StreakGrows(run: seq<Event>, more: seq<Event>)
    requires forall i :: 0 <= i < |more| ==> !more[i].Succeeded?
    ensures Streak(run) <= Streak(run + more)
  {
    if more == [] {
      assert run + more == run;
    } else {
      StreakGrows(run, more[..|more| - 1]);
      assert (run + more)[..|run + more| - 1] == run + more[..|more| - 1];
    }
  }

  /**
   One window per streak: once the threshold is reached, however many failures follow, among them
   failed half-open probes, calls are refused only until the reset time after it was first reached.
   */
  lemma {:induction false} OneWindowPerStreak(b: Settings, run: seq<Event>, more: seq<Event>, now: real)
    requires |Streak(run)| >= b.Needed() && forall i :: 0 <= i < |more| ==> !more[i].Succeeded?
    ensures !b.Allows(b.After(run + more), now) <==> now - Streak(run)[b.Needed() - 1] < b.resetAfter
  {
    StreakGrows(run, more);
    RefusesIff(b, run + more, now);
  }

  lemma {:induction false} StreakTimes(run: seq<Event>, k: nat)
    requires k < |Streak(run)|
    ensures exists i :: 0 <= i < |run| && run[i] == Failed(Streak(run)[k])
  {
    if run != [] {
      var init := run[..|run| - 1];
      if run[|run| - 1].Failed? && k == |Streak(run)| - 1 {
        assert run[|run| - 1] == Failed(Streak(run)[k]);
      } else {
        StreakTimes(init, k);
        var i :| 0 <= i < |init| && init[i] == Failed(Streak(init)[k]);
        assert run[i] == Failed(Streak(run)[k]);
      }
    }
  }

  /** No streak refuses for longer than the reset time: two refusals with no success between them are that close. */
  lemma {:induction false} RefusalsAreClose(b: Settings, run: seq<Event>, more: seq<Event>, t1: real, t2: real)
    requires InOrder(run + [Asked(t1)]) && forall i :: 0 <= i < |more| ==> !more[i].Succeeded?
    requires !b.Allows(b.After(run), t1) && !b.Allows(b.After(run + more), t2)
    ensures t2 - t1 < b.resetAfter
  {
    RefusesIff(b, run, t1);
    OneWindowPerStreak(b, run, more, t2);
    StreakTimes(run, b.Needed() - 1);
    var i :| 0 <= i < |run| && run[i] == Failed(Streak(run)[b.Needed() - 1]);
    assert (run + [Asked(t1)])[i] == run[i] && (run + [Asked(t1)])[|run|] == Asked(t1);
  }

  /** A success restores the whole threshold: nothing is refused until that many failures have followed it. */
  lemma {:induction false} SuccessRestores(b: Settings, run: seq<Event>, t: real, more: seq<Event>, now: real)
    requires FailuresIn(more) < b.Needed()
    ensures b.Allows(b.After(run + [Succeeded(t)] + more), now)
  {
    StreakAfterSuccess(run, t, more);
    RefusesIff(b, run + [Succeeded(t)] + more, now);
  }

  function FailuresIn(run: seq<Event>): nat {
    if run == [] then 0 else FailuresIn(run[..|run| - 1]) + if run[|run| - 1].Failed? then 1 else 0
  }

  lemma {:induction false} StreakAfterSuccess(run: seq<Event>, t: real, more: seq<Event>)
    ensures |Streak(run + [Succeeded(t)] + more)| <= FailuresIn(more)
  {
    var all := run + [Succeeded(t)] + more;
    if more == [] {
      assert all[|all| - 1] == Succeeded(t);
    } else {
      StreakAfterSuccess(run, t, more[..|more| - 1]);
      assert all[..|all| - 1] == run + [Succeeded(t)] + more[..|more| - 1];
    }
  }

  /** A failed half-open probe does not open the breaker again: later calls are still let through. */
  lemma {:induction false} FailedProbeDoesNotReopen(b: Settings, run: seq<Event>, t: real, now: real)
    requires b.Seen(b.After(run), t).HalfOpen? && t <= now
    ensures b.After(run + [Failed(t)]).openedAt == b.After(run).openedAt
    ensures b.Allows(b.After(run + [Failed(t)]), now)
  {
    assert (run + [Failed(t)])[..|run|] == run;
  }

  // ------------------------------------------------------------------------------ the client

  /** How one request ends; Interrupted is a cancellation, or any exception the client does not handle. */
  datatype Reply =
    | ConnectError | Timeout | OtherHttpError | BadStatus | MalformedJson | GraphQlErrors | Interrupted | Data

  datatype Outcome = Refused | Errored | Aborted | Answered

  class CircuitBreaker {
    const settings: Settings
    var open: bool
    var failures: nat
    var openedAt: real

    ghost function Stored(): State
      reads this
    {
      State(open, failures, openedAt)
    }

    constructor (settings: Settings)
      ensures this.settings == settings && Stored() == settings.After([])
    {
      this.settings := settings;
      open, failures, openedAt := false, 0, 0.0;
    }

    predicate Allows(now: real)
      reads this
      ensures Allows(now) == settings.Allows(Stored(), now)
    {
      !open || now - openedAt >= settings.resetAfter
    }

    method RecordSuccess()
      modifies this
      ensures Stored() == settings.Success(old(Stored()))
    {
      open, failures := false, 0;
    }

    method RecordFailure(now: real)
      modifies this
      ensures Stored() == settings.Failure(old(Stored()), now)
    {
      failures := failures + 1;
      if failures >= settings.threshold && !open {
        open, openedAt := true, now;
      }
    }

    /**
     execute: a refused call sends nothing and records nothing; an admitted one tries again only after
     a first connection error, and records its last reply exactly once, unless it is interrupted.
     */
    method Execute(asked: real, replies: nat -> Reply, retryConnect: bool, answered: real)
      returns (r: Outcome, sent: nat)
      modifies this
      ensures old(!Allows(asked)) ==> r == Refused && sent == 0 && Stored() == old(Stored())
      ensures old(Allows(asked)) ==>
                && sent == (if retryConnect && replies(0).ConnectError? then 2 else 1)
                && r == (if replies(sent - 1).Data? then Answered
                         else if replies(sent - 1).Interrupted? then Aborted else Errored)
                && Stored() == if r.Answered? then settings.Success(old(Stored()))
                               else if r.Aborted? then old(Stored()) else settings.Failure(old(Stored()), answered)
    {
      if !Allows(asked) { return Refused, 0; }
      var attempts := if retryConnect then 2 else 1;
      var attempt := 0;
      while true
        invariant 0 <= attempt < attempts && Stored() == old(Stored())
        invariant attempt > 0 ==> replies(0).ConnectError?
        decreases attempts - attempt
      {
        var reply := replies(attempt);
        if reply.ConnectError? && attempt + 1 < attempts {
          attempt := attempt + 1;
          continue;
        }
        if reply.Interrupted? { return Aborted, attempt + 1; }
        if !reply.Data? {
          RecordFailure(answered);
          return Errored, attempt + 1;
        }
        RecordSuccess();
        return Answered, attempt + 1;
      }
    }
  }
}
