/** The builder's rebuild loop: what wakes it, what it counts, and what it leaves published. */
module Reconcile {
  import opened Wrappers
  import opened Packed
  import opened Generations
  import opened SharedState
  import opened Loader

  /**
   One turn of the loop as the world plays it: the reasons requested while the loop waits, whether it
   is told to stop meanwhile, how the rebuild goes, the reasons requested during it, and whether the
   loop is told to stop then.
   */
  datatype Turn = Turn(requested: seq<string>, stopped: bool, outcome: BuildOutcome, during: seq<string>,
                       stoppedDuring: bool)

  /** The turns that rebuild: those before one stopped while waiting, up to one stopped while rebuilding. */
  function Served(turns: seq<Turn>): (r: seq<Turn>)
    ensures r <= turns
  {
    if turns == [] || turns[0].stopped then []
    else [turns[0]] + if turns[0].stoppedDuring then [] else Served(turns[1..])
  }

  /** A turn rebuilds exactly when no wait up to its own was stopped, and no rebuild before it. */
  lemma {:induction false} ServedIff(turns: seq<Turn>, k: nat)
    ensures k < |Served(turns)|
            <==> && k < |turns| && (forall j :: 0 <= j <= k ==> !turns[j].stopped)
                 && (forall j :: 0 <= j < k ==> !turns[j].stoppedDuring)
  {
    if turns != [] && !turns[0].stopped && k > 0 {
      assert forall j :: 0 <= j < |turns[1..]| ==> turns[1..][j] == turns[j + 1];
      ServedIff(turns[1..], k - 1);
      if !turns[0].stoppedDuring {
        assert k < |Served(turns)| <==> k - 1 < |Served(turns[1..])|;
        assert forall j :: 1 <= j < |turns| ==> turns[j] == turns[1..][j - 1];
      }
    }
  }

  /** The machine and the builder after rebuilding once per turn, and how many rebuilds worked. */
  function AfterTurns(pid: Pid, h: Host, w: Worker, turns: seq<Turn>): (r: (Host, Worker, nat))
    requires Enabled(BeginRebuild, w)
    ensures Enabled(BeginRebuild, r.1) && r.2 <= |turns|
  {
    if turns == [] then (h, w, 0) else
      var last := |turns| - 1;
      var (h1, w1, n) := AfterTurns(pid, h, w, turns[..last]);
      RebuildSucceeds(pid, h1, w1, turns[last].outcome);
      var (h2, w2, ok) := RebuildOnce(pid, h1, w1, turns[last].outcome);
      (h2, w2, if ok then n + 1 else n)
  }

  lemma {:induction false} AfterOneMore(pid: Pid, h: Host, w: Worker, turns: seq<Turn>, i: nat)
    requires Enabled(BeginRebuild, w) && i < |turns|
    ensures var (h1, w1, n) := AfterTurns(pid, h, w, turns[..i]);
            var (h2, w2, ok) := RebuildOnce(pid, h1, w1, turns[i].outcome);
            AfterTurns(pid, h, w, turns[..i + 1]) == (h2, w2, if ok then n + 1 else n)
  {
    hide PlannedRebuild, EndedRebuild, Act;
    assert turns[..i + 1][..i] == turns[..i];
  }

  lemma {:induction false} ServedUpTo(turns: seq<Turn>, i: nat)
    requires i <= |turns| && (forall k :: 0 <= k < i ==> !turns[k].stopped)
    requires forall k :: 0 <= k < i - 1 ==> !turns[k].stoppedDuring
    requires i == |turns| || turns[i].stopped || (i > 0 && turns[i - 1].stoppedDuring)
    ensures Served(turns) == turns[..i]
  {
    if i > 0 && !turns[0].stoppedDuring { ServedUpTo(turns[1..], i - 1); }
  }

  lemma PlanIsMade(pid: Pid, h: Host, w: Worker)
    requires Enabled(BeginRebuild, w)
    ensures var (h', w') := PlannedRebuild(pid, h, w);
            w'.phase.Loading? && w'.phase.target == NextGeneration(h) && w'.role == Some(Builder)
  {
  }

  class Reconciler {
    const process: Process
    var trigger: bool
    var stopped: bool
    var pendingReason: Option<string>
    var running: bool
    var rebuilds: nat
    var failures: nat
    var generation: nat
    var lastReason: Option<string>

    constructor (process: Process, generation: nat)
      ensures this.process == process && this.generation == generation && rebuilds == failures == 0
      ensures !trigger && !stopped && !running && pendingReason.None? && lastReason.None?
    {
      this.process, this.generation := process, generation;
      trigger, stopped, running, pendingReason, lastReason := false, false, false, None, None;
      rebuilds, failures := 0, 0;
    }

    /** Ignored while a rebuild runs; otherwise the next wait ends and this is its reason. */
    method Request(reason: string)
      modifies this`trigger, this`pendingReason
      ensures running ==> trigger == old(trigger) && pendingReason == old(pendingReason)
      ensures !running ==> trigger && pendingReason == Some(reason)
    {
      if running { return; }
      pendingReason := Some(reason);
      trigger := true;
    }

    method Stop()
      modifies this`stopped, this`trigger
      ensures stopped && trigger
    {
      stopped, trigger := true, true;
    }

    method RequestAll(reasons: seq<string>)
      modifies this`trigger, this`pendingReason
      ensures running || reasons == [] ==> trigger == old(trigger) && pendingReason == old(pendingReason)
      ensures !running && reasons != [] ==> trigger && pendingReason == Some(reasons[|reasons| - 1])
    {
      for i := 0 to |reasons|
        invariant running || i == 0 ==> trigger == old(trigger) && pendingReason == old(pendingReason)
        invariant !running && i > 0 ==> trigger && pendingReason == Some(reasons[i - 1])
      {
        Request(reasons[i]);
      }
    }

    /** The wait at the head of the loop. None means the loop has been stopped. */
    method Await() returns (reason: Option<string>)
      modifies this`trigger, this`pendingReason
      ensures !trigger && pendingReason.None?
      ensures reason == if old(trigger) && stopped then None
                        else if !old(trigger) then Some("scheduled")
                        else if old(pendingReason).None? || old(pendingReason).value == "" then Some("requested")
                        else old(pendingReason)
    {
      reason := Some("scheduled");
      if trigger {
        if stopped {
          reason := None;
        } else {
          reason := if pendingReason.None? || pendingReason.value == "" then Some("requested") else pendingReason;
        }
      }
      trigger, pendingReason := false, None;
    }

    /** _rebuild with its statistics. Requests arriving meanwhile are dropped, a stop is kept. */
    method Rebuild(reason: string, t: Turn)
      requires Enabled(BeginRebuild, process.View()) && !running && !trigger && pendingReason.None? && !stopped
      modifies this`running, this`trigger, this`pendingReason, this`rebuilds, this`failures, this`generation
      modifies this`lastReason, this`stopped, process, process.dir
      ensures !running && pendingReason.None? && stopped == trigger == t.stoppedDuring
      ensures var (h, w, ok) := RebuildOnce(process.pid, old(process.dir.View()), old(process.View()), t.outcome);
              && process.dir.View() == h && process.View() == w
              && rebuilds == old(rebuilds) + (if ok then 1 else 0)
              && failures == old(failures) + (if ok then 0 else 1)
              && generation == (if ok then NextGeneration(old(process.dir.View())) else old(generation))
              && lastReason == (if ok then Some(reason) else old(lastReason))
    {
      PlanIsMade(process.pid, process.dir.View(), process.View());
      hide PlannedRebuild, EndedRebuild, Act, NextGeneration;
      running := true;
      process.PlanRebuild();
      var target := process.phase.target;
      RequestAll(t.during);
      if t.stoppedDuring { Stop(); }
      running := false;
      var ok := process.EndRebuild(t.outcome);
      if ok {
        rebuilds, generation, lastReason := rebuilds + 1, target, Some(reason);
      } else {
        failures := failures + 1;
      }
    }

    ghost predicate Ready()
      reads this, process
    {
      Enabled(BeginRebuild, process.View()) && !running && !stopped && !trigger && pendingReason.None?
    }

    /**
     One turn of the loop: wait, then rebuild unless told to stop. A stop during the rebuild ends the
     loop after it.
     */
    method RunTurn(t: Turn) returns (served: bool)
      requires Ready()
      modifies this, process, process.dir
      ensures served == !t.stopped
      ensures !served ==> && process.dir.View() == old(process.dir.View()) && process.View() == old(process.View())
                          && rebuilds == old(rebuilds) && failures == old(failures)
      ensures served ==>
                var (h, w, ok) := RebuildOnce(process.pid, old(process.dir.View()), old(process.View()), t.outcome);
                && (if t.stoppedDuring then stopped else Ready())
                && process.dir.View() == h && process.View() == w
                && rebuilds == old(rebuilds) + (if ok then 1 else 0)
                && failures == old(failures) + (if ok then 0 else 1)
                && (!ok ==> lastReason == old(lastReason))
                && (ok && t.requested == [] ==> lastReason == Some("scheduled"))
                && (ok && t.requested != [] ==>
                      var last := t.requested[|t.requested| - 1];
                      lastReason == Some(if last == "" then "requested" else last))
    {
      RebuildSucceeds(process.pid, process.dir.View(), process.View(), t.outcome);
      hide RebuildOnce, PlannedRebuild, EndedRebuild, Act, NextGeneration;
      RequestAll(t.requested);
      if t.stopped { Stop(); }
      var reason := Await();
      if reason.None? { return false; }
      Rebuild(reason.value, t);
      served := true;
    }

    /** The loop until it is stopped or the script of turns ends. */
    method Run(turns: seq<Turn>)
      requires Ready()
      modifies this, process, process.dir
      ensures var served := Served(turns);
              var (h, w, worked) := AfterTurns(process.pid, old(process.dir.View()), old(process.View()), served);
              && process.dir.View() == h && process.View() == w
              && rebuilds == old(rebuilds) + worked && failures == old(failures) + |served| - worked
    {
      hide RebuildOnce, PlannedRebuild, EndedRebuild, Act, NextGeneration;
      ghost var pid, h0, w0 := process.pid, process.dir.View(), process.View();
      ghost var reached := (h0, w0, 0);
      var i := 0;
      while i < |turns|
        invariant i <= |turns| && Ready() && forall k :: 0 <= k < i ==> !turns[k].stopped && !turns[k].stoppedDuring
        invariant reached == AfterTurns(pid, h0, w0, turns[..i])
        invariant process.dir.View() == reached.0 && process.View() == reached.1
        invariant rebuilds == old(rebuilds) + reached.2
        invariant rebuilds + failures == old(rebuilds) + old(failures) + i
      {
        AfterOneMore(pid, h0, w0, turns, i);
        var served := RunTurn(turns[i]);
        if !served { break; }
        i := i + 1;
        reached := AfterTurns(pid, h0, w0, turns[..i]);
        if stopped { break; }
      }
      ServedUpTo(turns, i);
    }
  }

  /**
   Over any run of the loop the published generation has risen by the number of rebuilds that worked,
   and the builder serves a published array: the one it started with or the last one it published.
   */
  lemma {:induction false} RunPublishes(pid: Pid, h: Host, w: Worker, turns: seq<Turn>)
    requires Enabled(BeginRebuild, w) && w.mapping.Some? && w.generation == PublishedGeneration(h)
    ensures var (h', w', worked) := AfterTurns(pid, h, w, turns);
            && PublishedGeneration(h') == PublishedGeneration(h) + worked == w'.generation
            && (worked == 0 ==> w' == w && h'.published == h.published)
            && (worked > 0 ==> && h'.published.Some? && w'.mapping.Some?
                               && h'.published.value.name == SegmentName(w'.generation)
                               && h'.published.value.count == |w'.mapping.value.data|
                               && exists k :: 0 <= k < |turns| && turns[k].outcome.data == Some(w'.mapping.value.data))
  {
    if turns != [] {
      var last := |turns| - 1;
      RunPublishes(pid, h, w, turns[..last]);
      var (h1, w1, n) := AfterTurns(pid, h, w, turns[..last]);
      RebuildSucceeds(pid, h1, w1, turns[last].outcome);
      if RebuildWorks(h1, turns[last].outcome) {
        assert turns[last].outcome.data.Some?;
      } else {
        RebuildFails(pid, h1, w1, turns[last].outcome);
        if n > 0 {
          var k :| 0 <= k < last && turns[..last][k].outcome.data == Some(w1.mapping.value.data);
          assert turns[k].outcome.data == Some(w1.mapping.value.data);
        }
      }
    }
  }
}
