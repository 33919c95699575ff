/** The protocol's guarantees, over every reachable world and every run. */
module GenerationTheorems {
  import opened Wrappers
  import opened Packed
  import opened Generations
  import opened GenerationSafety

  /** run[i + 1] is reached from run[i] by steps[i]. */
  ghost predicate IsRun(run: seq<World>, steps: seq<Step>) {
    && |run| == |steps| + 1 && Init(run[0])
    && forall i :: 0 <= i < |steps| ==> StepOk(run[i], steps[i]) && run[i + 1] == Apply(run[i], steps[i])
  }

  /** Any process may act, start or die: the invariant survives, and so does everything published. */
  lemma StepKeepsInv(w: World, s: Step)
    requires Inv(w) && StepOk(w, s)
    ensures Inv(Apply(w, s))
    ensures HostStep(w.host, w.history, Apply(w, s).host, Apply(w, s).history)
  {
    var w' := Apply(w, s);
    match s
    case Spawn(_) =>
    case Local(pid, a) =>
      LocalKeepsInv(w, pid, a);
    case Stop(pid, unlinked) =>
      forall other | other in w'.workers ensures WorkerInv(w'.host, w'.history, w'.workers[other]) {
        assert WorkerInv(w.host, w.history, w.workers[other]);
      }
  }

  lemma LocalKeepsInv(w: World, pid: Pid, a: Action)
    requires Inv(w) && StepOk(w, Local(pid, a))
    ensures var w' := Apply(w, Local(pid, a));
            Inv(w') && HostStep(w.host, w.history, w'.host, w'.history)
  {
    var w' := Apply(w, Local(pid, a));
    var me := w.workers[pid];
    ActKeeps(a, pid, w.host, w.history, me);
    forall other | other in w'.workers
      ensures WorkerInv(w'.host, w'.history, w'.workers[other])
      ensures Holds(w'.workers[other]) ==> w'.host.lock == Some(other)
    {
      if other != pid {
        assert WorkerInv(w.host, w.history, w.workers[other]);
        if Holds(w.workers[other]) {
          assert w'.host == w.host && w'.history == w.history;
        } else {
          BystanderKeeps(w.host, w.history, w'.host, w'.history, w.workers[other]);
        }
      }
    }
  }

  lemma {:induction false} RunInv(run: seq<World>, steps: seq<Step>, i: nat)
    requires IsRun(run, steps) && i < |run|
    ensures Inv(run[i])
  {
    if i == 0 {
      InitInv(run[0]);
    } else {
      RunInv(run, steps, i - 1);
      StepKeepsInv(run[i - 1], steps[i - 1]);
    }
  }

  /** Whoever acts in a run acts on a good machine, in a good state, and under the lock if it builds. */
  lemma ReadyAt(run: seq<World>, steps: seq<Step>, i: nat)
    requires IsRun(run, steps) && i < |steps| && steps[i].Local?
    ensures ActReady(steps[i].action, steps[i].pid, run[i].host, run[i].history, run[i].workers[steps[i].pid])
  {
    RunInv(run, steps, i);
  }

  /**
   In every reachable world, a process attached at generation g maps exactly the sorted array
   published for g, whatever crashed, failed over, was rebuilt or unlinked meanwhile.
   */
  lemma AttachedMapsPublished(run: seq<World>, steps: seq<Step>, i: nat, pid: Pid)
    requires IsRun(run, steps) && i < |run| && pid in run[i].workers
    ensures var w := run[i].workers[pid];
            w.mapping.Some? ==>
              && 1 <= w.mapping.value.generation == w.generation <= PublishedGeneration(run[i].host)
              && w.generation in run[i].history
              && w.mapping.value.data == run[i].history[w.generation]
              && StrictlyIncreasing(w.mapping.value.data)
  {
    RunInv(run, steps, i);
    assert WorkerInv(run[i].host, run[i].history, run[i].workers[pid]);
  }

  lemma PublishedStep(run: seq<World>, steps: seq<Step>, i: nat, g: nat)
    requires IsRun(run, steps) && i < |steps| && g in run[i].history
    ensures PublishedGeneration(run[i].host) <= PublishedGeneration(run[i + 1].host)
    ensures g in run[i + 1].history && run[i + 1].history[g] == run[i].history[g]
    ensures SegmentName(g) in run[i + 1].host.segments ==>
              SegmentName(g) in run[i].host.segments
              && run[i + 1].host.segments[SegmentName(g)] == run[i].host.segments[SegmentName(g)]
  {
    RunInv(run, steps, i);
    StepKeepsInv(run[i], steps[i]);
    assert HostInv(run[i].host, run[i].history);
  }

  /**
   Publishing is for ever. Between any two moments of a run the array on record for a generation
   never changes, and a published segment's name holds the same words or nothing: it is never
   created again.
   */
  lemma {:induction false} PublishedIsFixed(run: seq<World>, steps: seq<Step>, i: nat, j: nat, g: nat)
    requires IsRun(run, steps) && i <= j < |run| && g in run[i].history
    ensures PublishedGeneration(run[i].host) <= PublishedGeneration(run[j].host)
    ensures g in run[j].history && run[j].history[g] == run[i].history[g]
    ensures SegmentName(g) in run[j].host.segments ==>
              SegmentName(g) in run[i].host.segments
              && run[j].host.segments[SegmentName(g)] == run[i].host.segments[SegmentName(g)]
    decreases j
  {
    if i < j {
      PublishedIsFixed(run, steps, i, j - 1, g);
      PublishedStep(run, steps, j - 1, g);
    }
  }

  /** At most one process is building, publishing or entitled to: the lock holder. */
  lemma OneBuilder(run: seq<World>, steps: seq<Step>, i: nat, p: Pid, q: Pid)
    requires IsRun(run, steps) && i < |run|
    requires p in run[i].workers && q in run[i].workers
    requires Holds(run[i].workers[p]) && Holds(run[i].workers[q])
    ensures p == q && run[i].host.lock == Some(p)
  {
    RunInv(run, steps, i);
  }

  lemma ActPublishes(a: Action, pid: Pid, h: Host, history: map<nat, seq<Fp>>, w: Worker)
    requires ActReady(a, pid, h, history, w)
    ensures PublishedGeneration(Act(a, pid, h, w).0) == PublishedGeneration(h) + if a.Publish? then 1 else 0
  {
  }

  /** Every publish raises the generation by exactly one, and no other step moves it. */
  lemma PublishRaisesByOne(run: seq<World>, steps: seq<Step>, i: nat)
    requires IsRun(run, steps) && i < |steps|
    ensures PublishedGeneration(run[i + 1].host) ==
            PublishedGeneration(run[i].host) + if steps[i].Local? && steps[i].action.Publish? then 1 else 0
  {
    if steps[i].Local? {
      ReadyAt(run, steps, i);
      ActPublishes(steps[i].action, steps[i].pid, run[i].host, run[i].history, run[i].workers[steps[i].pid]);
    }
  }

  lemma ActAdopts(a: Action, pid: Pid, h: Host, history: map<nat, seq<Fp>>, w: Worker)
    requires ActReady(a, pid, h, history, w)
    ensures var w' := Act(a, pid, h, w).1;
            w.generation <= w'.generation && (w'.mapping == w.mapping || w.generation < w'.generation)
  {
  }

  lemma StepAdopts(w: World, s: Step, pid: Pid)
    requires Inv(w) && StepOk(w, s) && pid in w.workers && pid in Apply(w, s).workers
    ensures var me, me' := w.workers[pid], Apply(w, s).workers[pid];
            me.generation <= me'.generation && (me'.mapping == me.mapping || me.generation < me'.generation)
  {
    if s.Local? && s.pid == pid { ActAdopts(s.action, pid, w.host, w.history, w.workers[pid]); }
  }

  lemma StepOfRunAdopts(run: seq<World>, steps: seq<Step>, pid: Pid, i: nat)
    requires IsRun(run, steps) && i < |steps| && pid in run[i].workers && pid in run[i + 1].workers
    ensures var me, me' := run[i].workers[pid], run[i + 1].workers[pid];
            me.generation <= me'.generation && (me'.mapping == me.mapping || me.generation < me'.generation)
  {
    RunInv(run, steps, i);
    StepAdopts(run[i], steps[i], pid);
  }

  lemma BehindPublished(run: seq<World>, steps: seq<Step>, pid: Pid, i: nat)
    requires IsRun(run, steps) && i < |run| && pid in run[i].workers
    ensures run[i].workers[pid].generation <= PublishedGeneration(run[i].host)
  {
    RunInv(run, steps, i);
    assert WorkerInv(run[i].host, run[i].history, run[i].workers[pid]);
  }

  /**
   While a process lives its adopted generation never falls, it maps something else only on
   adopting a strictly higher one, and it never passes the published one.
   */
  lemma {:induction false} AdoptionIsMonotone(run: seq<World>, steps: seq<Step>, pid: Pid, i: nat, j: nat)
    requires IsRun(run, steps) && i <= j < |run|
    requires forall k :: i <= k <= j ==> pid in run[k].workers
    ensures run[i].workers[pid].generation <= run[j].workers[pid].generation <= PublishedGeneration(run[j].host)
    ensures run[i].workers[pid].mapping == run[j].workers[pid].mapping
            || run[i].workers[pid].generation < run[j].workers[pid].generation
    decreases j
  {
    BehindPublished(run, steps, pid, j);
    if i < j {
      AdoptionIsMonotone(run, steps, pid, i, j - 1);
      StepOfRunAdopts(run, steps, pid, j - 1);
    }
  }

  /** A sweep that keeps every name from low up removes only names below low. */
  lemma SweepRemovesBelow(segments: map<string, seq<Fp>>, keep: set<string>, low: nat, high: nat, name: string)
    requires NamesAtMost(segments, high) && name in segments && name !in Sweep(segments, keep)
    requires forall g :: low <= g <= high && 1 <= g ==> SegmentName(g) in keep
    ensures exists g :: 1 <= g < low && name == SegmentName(g)
  {
    assert NameAtMost(name, high);
  }

  lemma StaleSweepRemoves(pid: Pid, h: Host, history: map<nat, seq<Fp>>, w: Worker, name: string)
    requires ActReady(SweepStale, pid, h, history, w)
    requires name in h.segments && name !in Act(SweepStale, pid, h, w).0.segments
    ensures exists g :: 1 <= g < PublishedGeneration(h) && name == SegmentName(g)
    ensures name != SegmentName(w.phase.target)
  {
    SweepRemovesBelow(h.segments, KeepFirstBuild(w.phase.previous, w.phase.target),
                      PublishedGeneration(h), NextGeneration(h), name);
  }

  lemma RebuildSweepRemoves(pid: Pid, h: Host, history: map<nat, seq<Fp>>, w: Worker, name: string)
    requires ActReady(SweepSuperseded, pid, h, history, w)
    requires name in h.segments && name !in Act(SweepSuperseded, pid, h, w).0.segments
    ensures exists g :: 1 <= g && g + 2 <= PublishedGeneration(h) && name == SegmentName(g)
  {
    var t := w.phase.target;
    assert SupersedeInv(h, history, w);
    SweepRemovesBelow(h.segments, KeepRebuild(w.phase.previous, t, w.phase.oldName), t - 1, t, name);
  }

  /**
   The sweep before a first build removes only generations below the published one, so neither
   the published segment nor the one about to be built. Files without the prefix stay.
   */
  lemma FailoverSweepIsSafe(run: seq<World>, steps: seq<Step>, i: nat, pid: Pid, name: string)
    requires IsRun(run, steps) && i < |steps| && steps[i] == Local(pid, SweepStale)
    requires name in run[i].host.segments && name !in run[i + 1].host.segments
    ensures exists g :: 1 <= g < PublishedGeneration(run[i].host) && name == SegmentName(g)
    ensures name != SegmentName(run[i].workers[pid].phase.target)
  {
    ReadyAt(run, steps, i);
    StaleSweepRemoves(pid, run[i].host, run[i].history, run[i].workers[pid], name);
  }

  /** The sweep after a rebuild removes only generations at least two below the one it published. */
  lemma RebuildSweepIsSafe(run: seq<World>, steps: seq<Step>, i: nat, pid: Pid, name: string)
    requires IsRun(run, steps) && i < |steps| && steps[i] == Local(pid, SweepSuperseded)
    requires name in run[i].host.segments && name !in run[i + 1].host.segments
    ensures exists g :: 1 <= g && g + 2 <= PublishedGeneration(run[i].host) && name == SegmentName(g)
  {
    ReadyAt(run, steps, i);
    RebuildSweepRemoves(pid, run[i].host, run[i].history, run[i].workers[pid], name);
  }

  predicate Failing(a: Action, h: Host, w: Worker)
    requires Enabled(a, w)
  {
    || a.FailBuild? || a.FailPublish?
    || (a.FinishBuild? && a.data != [] && SegmentName(w.phase.target) in h.segments)
    || (a.Open? && w.phase.record.name !in h.segments)
  }

  /** A failed build, publish or attach leaves the state file, the segments and every served array as they were. */
  lemma FailureChangesNothingServed(run: seq<World>, steps: seq<Step>, i: nat, pid: Pid, a: Action)
    requires IsRun(run, steps) && i < |steps| && steps[i] == Local(pid, a)
    requires Failing(a, run[i].host, run[i].workers[pid])
    ensures run[i + 1].host.published == run[i].host.published && run[i + 1].host.segments == run[i].host.segments
    ensures run[i + 1].workers.Keys == run[i].workers.Keys && run[i + 1].history == run[i].history
    ensures forall p :: p in run[i].workers ==>
              && run[i + 1].workers[p].mapping == run[i].workers[p].mapping
              && run[i + 1].workers[p].generation == run[i].workers[p].generation
    ensures run[i].workers[pid].role.Some? ==>
              run[i + 1].workers[pid].role == run[i].workers[pid].role && run[i + 1].host.lock == run[i].host.lock
  {
  }

  /**
   A build whose upstream answers succeeds exactly when it is empty or no segment has its name. A
   segment a crashed builder left unpublished has that name, and no sweep of a later one removes it.
   */
  lemma BuildSucceedsIff(run: seq<World>, steps: seq<Step>, i: nat, pid: Pid, data: seq<Fp>)
    requires IsRun(run, steps) && i < |steps| && steps[i] == Local(pid, FinishBuild(data))
    ensures run[i + 1].workers[pid].phase.Built? <==>
              data == [] || SegmentName(PublishedGeneration(run[i].host) + 1) !in run[i].host.segments
  {
    ReadyAt(run, steps, i);
  }

  lemma ActKeepsNext(a: Action, pid: Pid, h: Host, history: map<nat, seq<Fp>>, w: Worker)
    requires ActReady(a, pid, h, history, w) && SegmentName(NextGeneration(h)) in h.segments
    ensures SegmentName(NextGeneration(h)) in Act(a, pid, h, w).0.segments
  {
    if a.SweepSuperseded? && SegmentName(NextGeneration(h)) !in Act(a, pid, h, w).0.segments {
      RebuildSweepRemoves(pid, h, history, w, SegmentName(NextGeneration(h)));
      var g :| 1 <= g && g + 2 <= PublishedGeneration(h) && SegmentName(NextGeneration(h)) == SegmentName(g);
      SegmentNameInjective(g, NextGeneration(h));
    }
  }

  /**
   Progress is not guaranteed. Once a segment has the next generation's name, only the exit or crash
   that unlinks it, or publishing an empty build under that name, gets past it: every other step of
   every process leaves it there, so by BuildSucceedsIff every non-empty build fails.
   */
  lemma LeftoverStays(run: seq<World>, steps: seq<Step>, i: nat)
    requires IsRun(run, steps) && i < |steps| && !steps[i].Stop?
    requires SegmentName(NextGeneration(run[i].host)) in run[i].host.segments
    requires !(steps[i].Local? && steps[i].action.Publish?)
    ensures NextGeneration(run[i + 1].host) == NextGeneration(run[i].host)
    ensures SegmentName(NextGeneration(run[i].host)) in run[i + 1].host.segments
  {
    if steps[i].Local? {
      var h, w := run[i].host, run[i].workers[steps[i].pid];
      ReadyAt(run, steps, i);
      ActPublishes(steps[i].action, steps[i].pid, h, run[i].history, w);
      ActKeepsNext(steps[i].action, steps[i].pid, h, run[i].history, w);
    }
  }

  // -------------------------------------------------------------------------- who ever builds

  predicate Follows(w: Worker) {
    w.role == Some(Reader) || w.role == Some(Attaching)
  }

  lemma ActFollows(a: Action, pid: Pid, h: Host, history: map<nat, seq<Fp>>, w: Worker)
    requires ActReady(a, pid, h, history, w)
    ensures Follows(w) ==> Follows(Act(a, pid, h, w).1) && !a.Publish?
    ensures w.role == Some(Builder) ==> Act(a, pid, h, w).1.role == Some(Builder)
  {
  }

  lemma StepFollows(run: seq<World>, steps: seq<Step>, i: nat, pid: Pid)
    requires IsRun(run, steps) && i < |steps| && pid in run[i].workers && pid in run[i + 1].workers
    ensures Follows(run[i].workers[pid]) ==> Follows(run[i + 1].workers[pid])
    ensures run[i].workers[pid].role == Some(Builder) ==> run[i + 1].workers[pid].role == Some(Builder)
  {
    if steps[i].Local? && steps[i].pid == pid {
      ReadyAt(run, steps, i);
      ActFollows(steps[i].action, pid, run[i].host, run[i].history, run[i].workers[pid]);
    }
  }

  /** A process that lost the election follows for the rest of its life: it never builds or publishes. */
  lemma {:induction false} LosersNeverBuild(run: seq<World>, steps: seq<Step>, pid: Pid, i: nat, j: nat)
    requires IsRun(run, steps) && i <= j < |run|
    requires forall k :: i <= k <= j ==> pid in run[k].workers
    requires Follows(run[i].workers[pid])
    ensures Follows(run[j].workers[pid]) && !Holds(run[j].workers[pid])
    decreases j
  {
    hide WorkerInv, HostInv, StepOk, Apply, Holds;
    if i < j {
      LosersNeverBuild(run, steps, pid, i, j - 1);
      StepFollows(run, steps, j - 1, pid);
    }
    RunInv(run, steps, j);
    FollowersHoldNothing(run[j].host, run[j].history, run[j].workers[pid]);
  }

  lemma FollowersHoldNothing(h: Host, history: map<nat, seq<Fp>>, w: Worker)
    requires WorkerInv(h, history, w) && Follows(w)
    ensures !Holds(w)
  {
  }

  /** A builder stays the builder and keeps the lock for the rest of its life. */
  lemma {:induction false} BuilderKeepsTheLock(run: seq<World>, steps: seq<Step>, pid: Pid, i: nat, j: nat)
    requires IsRun(run, steps) && i <= j < |run|
    requires forall k :: i <= k <= j ==> pid in run[k].workers
    requires run[i].workers[pid].role == Some(Builder)
    ensures run[j].workers[pid].role == Some(Builder) && run[j].host.lock == Some(pid)
    decreases j
  {
    if i < j {
      BuilderKeepsTheLock(run, steps, pid, i, j - 1);
      StepFollows(run, steps, j - 1, pid);
    }
    OneBuilder(run, steps, j, pid, pid);
  }

  /**
   So a dead builder is not replaced from among the living: once every process follows, nothing is
   published until a new process starts.
   */
  lemma {:induction false} NoFailoverWithoutAStart(run: seq<World>, steps: seq<Step>, i: nat, j: nat)
    requires IsRun(run, steps) && i <= j < |run|
    requires forall pid :: pid in run[i].workers ==> Follows(run[i].workers[pid])
    requires forall k :: i <= k < j ==> !steps[k].Spawn?
    ensures run[j].host.published == run[i].host.published
    ensures forall pid :: pid in run[j].workers ==> pid in run[i].workers && Follows(run[j].workers[pid])
    decreases j
  {
    if i < j {
      var m := j - 1;
      NoFailoverWithoutAStart(run, steps, i, m);
      assert run[j].workers.Keys <= run[m].workers.Keys;
      forall pid | pid in run[j].workers ensures Follows(run[j].workers[pid]) { StepFollows(run, steps, m, pid); }
      if steps[m].Local? {
        var me := run[m].workers[steps[m].pid];
        ReadyAt(run, steps, m);
        ActFollows(steps[m].action, steps[m].pid, run[m].host, run[m].history, me);
        OnlyPublishPublishes(steps[m].action, steps[m].pid, run[m].host, me);
      }
    }
  }

  lemma OnlyPublishPublishes(a: Action, pid: Pid, h: Host, w: Worker)
    requires Enabled(a, w) && !a.Publish?
    ensures Act(a, pid, h, w).0.published == h.published
  {
  }

  // ------------------------------------------------------------------ the blocked state is reachable

  ghost predicate RunTo(run: seq<World>, steps: seq<Step>, w: World) {
    IsRun(run, steps) && run[|steps|] == w
  }

  lemma OneMoreStep(run: seq<World>, steps: seq<Step>, w: World, s: Step) returns (run': seq<World>, steps': seq<Step>)
    requires RunTo(run, steps, w) && StepOk(w, s)
    ensures RunTo(run', steps', Apply(w, s)) && steps' == steps + [s]
    ensures |run'| >= 2 && run'[|run'| - 2] == w
  {
    run', steps' := run + [Apply(w, s)], steps + [s];
  }

  /** A process that starts on a free lock with nothing published gets to building generation 1. */
  lemma ReachLoading(run: seq<World>, steps: seq<Step>, w: World, pid: Pid)
    returns (run': seq<World>, steps': seq<Step>, w': World)
    requires RunTo(run, steps, w) && w.host.lock.None? && w.host.published.None? && pid !in w.workers
    ensures RunTo(run', steps', w') && w'.history == w.history
    ensures w'.host == Host(Some(pid), None, Sweep(w.host.segments, {SegmentName(1)}))
    ensures w'.workers == w.workers[pid := Worker(Loading(None, 1), None, None, 0)]
  {
    hide IsRun;
    run', steps', w' := run, steps, w;
    run', steps' := OneMoreStep(run', steps', w', Spawn(pid));
    w' := Apply(w', Spawn(pid));
    run', steps' := OneMoreStep(run', steps', w', Local(pid, TryLock));
    w' := Apply(w', Local(pid, TryLock));
    run', steps' := OneMoreStep(run', steps', w', Local(pid, ReadPrevious));
    w' := Apply(w', Local(pid, ReadPrevious));
    run', steps' := OneMoreStep(run', steps', w', Local(pid, ReadNext));
    w' := Apply(w', Local(pid, ReadNext));
    assert w'.workers[pid] == Worker(Planned(None, 1), None, None, 0);
    run', steps' := OneMoreStep(run', steps', w', Local(pid, SweepStale));
    assert KeepFirstBuild(None, 1) == {SegmentName(1)};
    w' := Apply(w', Local(pid, SweepStale));
  }

  /**
   A builder that is killed after making its segment and before publishing leaves the next builder
   blocked: for every non-empty array there is such a run, ending in a failed build.
   */
  lemma BlockedBuildIsReachable(data: seq<Fp>) returns (run: seq<World>, steps: seq<Step>)
    requires data != [] && StrictlyIncreasing(data)
    ensures IsRun(run, steps) && steps != [] && steps[|steps| - 1] == Local(2, FinishBuild(data))
    ensures var before, after := run[|steps| - 1], run[|steps|];
            && SegmentName(NextGeneration(before.host)) in before.host.segments
            && 2 in after.workers && !after.workers[2].phase.Built? && after.host.published.None?
  {
    hide IsRun;
    var w := World(Host(None, None, map[]), map[], map[]);
    run, steps := [w], [];
    assert RunTo(run, steps, w) by { EmptyRun(w); }
    run, steps, w := ReachLoading(run, steps, w, 1);
    run, steps := OneMoreStep(run, steps, w, Local(1, FinishBuild(data)));
    w := Apply(w, Local(1, FinishBuild(data)));
    assert SegmentName(1) in w.host.segments;
    run, steps := OneMoreStep(run, steps, w, Step.Stop(1, {}));
    w := Apply(w, Step.Stop(1, {}));
    run, steps, w := ReachLoading(run, steps, w, 2);
    assert SegmentName(1) in w.host.segments;
    assert RunTo(run, steps, w);
    var last := w;
    run, steps := OneMoreStep(run, steps, w, Local(2, FinishBuild(data)));
    w := Apply(w, Local(2, FinishBuild(data)));
    LastTwo(run, steps, last, w);
  }

  lemma EmptyRun(w: World)
    requires w == World(Host(None, None, map[]), map[], map[])
    ensures RunTo([w], [], w)
  {
  }

  lemma LastTwo(run: seq<World>, steps: seq<Step>, before: World, after: World)
    requires RunTo(run, steps, after) && steps != [] && |run| >= 2 && run[|run| - 2] == before
    ensures run[|steps| - 1] == before && run[|steps|] == after && IsRun(run, steps)
  {
  }
}
