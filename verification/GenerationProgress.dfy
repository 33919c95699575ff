/** What the protocol gets done: who goes on to serve what, and what a sweep or a failure leaves to go on with. */
module GenerationProgress {
  import opened Wrappers
  import opened Decimals
  import opened Packed
  import opened Generations
  import opened GenerationSafety
  import opened GenerationTheorems

  // ------------------------------------------------------------------------- following a publish

  /** A process looks at the state file and finds something newer than what it serves. */
  predicate Notices(a: Action, h: Host, w: Worker)
    requires Enabled(a, w)
  {
    && h.published.Some?
    && (a.ReadPublished? || a.GiveUpWaiting? || (a.Watch? && h.published.value.generation > w.generation))
  }

  /** It serves generation g with this array. */
  predicate Serves(w: Worker, g: nat, data: seq<Fp>) {
    && w.phase.Idle? && w.role == Some(Reader) && w.generation == g
    && w.mapping.Some? && w.mapping.value.generation == g && w.mapping.value.data == data
  }

  /** Nothing else moves a process. */
  lemma {:induction false} StaysAsItIs(run: seq<World>, steps: seq<Step>, pid: Pid, i: nat, j: nat)
    requires IsRun(run, steps) && i <= j < |run| && pid in run[i].workers
    requires forall k :: i <= k < j ==> steps[k].pid != pid
    ensures pid in run[j].workers && run[j].workers[pid] == run[i].workers[pid]
    decreases j
  {
    hide StepOk, Act;
    if i < j { StaysAsItIs(run, steps, pid, i, j - 1); }
  }

  lemma NoticedIsOpened(a: Action, pid: Pid, h: Host, w: Worker)
    requires Enabled(a, w) && Notices(a, h, w)
    ensures Act(a, pid, h, w) == (h, w.(phase := Opening(h.published.value)))
  {
  }

  /** Mapping a published segment that is still there puts the array published into service. */
  lemma OpenServes(pid: Pid, h: Host, history: map<nat, seq<Fp>>, w: Worker)
    requires HostInv(h, history) && w.phase.Opening? && RecordOf(w.phase.record, history)
    requires w.phase.record.name in h.segments
    ensures Act(Open, pid, h, w).0 == h
    ensures Serves(Act(Open, pid, h, w).1, w.phase.record.generation, history[w.phase.record.generation])
  {
    var r := w.phase.record;
    assert history[r.generation] <= h.segments[r.name];
  }

  /**
   Whoever notices a publish, whether waiting for the first one, giving up waiting, or watching for a later
   one, and then maps the segment while it is there, serves the array published, whatever the other
   processes do in between.
   */
  lemma NoticedIsServed(run: seq<World>, steps: seq<Step>, pid: Pid, a: Action, i: nat, j: nat)
    requires IsRun(run, steps) && i < j < |steps| && steps[i] == Local(pid, a) && steps[j] == Local(pid, Open)
    requires Notices(a, run[i].host, run[i].workers[pid])
    requires forall k :: i < k < j ==> steps[k].pid != pid
    requires SegmentName(PublishedGeneration(run[i].host)) in run[j].host.segments
    ensures var g := PublishedGeneration(run[i].host);
            g in run[i].history && Serves(run[j + 1].workers[pid], g, run[i].history[g])
  {
    hide *;
    StepAt(run, steps, i);
    StepAt(run, steps, j);
    RunInv(run, steps, i);
    RunInv(run, steps, j);
    NoticeStep(run[i], pid, a);
    StaysAsItIs(run, steps, pid, i + 1, j);
    PublishedIsFixed(run, steps, i, j, PublishedGeneration(run[i].host));
    OpenStep(run[j], pid);
  }

  lemma StepAt(run: seq<World>, steps: seq<Step>, i: nat)
    requires IsRun(run, steps) && i < |steps|
    ensures |run| == |steps| + 1 && StepOk(run[i], steps[i]) && run[i + 1] == Apply(run[i], steps[i])
  {
  }

  lemma NoticeStep(w: World, pid: Pid, a: Action)
    requires Inv(w) && StepOk(w, Local(pid, a)) && Notices(a, w.host, w.workers[pid])
    ensures var g, w' := PublishedGeneration(w.host), Apply(w, Local(pid, a));
            && g in w.history && w'.host == w.host && w'.history == w.history && pid in w'.workers
            && w'.workers[pid].phase == Opening(Record(SegmentName(g), |w.history[g]|, g))
            && Enabled(Open, w'.workers[pid])
  {
    NoticedIsOpened(a, pid, w.host, w.workers[pid]);
  }

  lemma OpenStep(w: World, pid: Pid)
    requires Inv(w) && StepOk(w, Local(pid, Open)) && w.workers[pid].phase.record.name in w.host.segments
    ensures var r := w.workers[pid].phase.record;
            r.generation in w.history && pid in Apply(w, Local(pid, Open)).workers
            && Serves(Apply(w, Local(pid, Open)).workers[pid], r.generation, w.history[r.generation])
  {
    assert WorkerInv(w.host, w.history, w.workers[pid]);
    OpenServes(pid, w.host, w.history, w.workers[pid]);
  }

  /**
   And it can: in every reachable world a process that has something newer to notice, with its segment
   there, can take the two steps, and then serves what is published.
   */
  lemma BehindCanCatchUp(run: seq<World>, steps: seq<Step>, i: nat, pid: Pid, a: Action)
    requires IsRun(run, steps) && i < |run| && pid in run[i].workers && Enabled(a, run[i].workers[pid])
    requires Notices(a, run[i].host, run[i].workers[pid])
    requires SegmentName(PublishedGeneration(run[i].host)) in run[i].host.segments
    ensures var g := PublishedGeneration(run[i].host);
            && StepOk(run[i], Local(pid, a))
            && var noticed := Apply(run[i], Local(pid, a));
               && StepOk(noticed, Local(pid, Open)) && g in run[i].history
               && Serves(Apply(noticed, Local(pid, Open)).workers[pid], g, run[i].history[g])
  {
    hide Inv, HostInv, WorkerInv, Act, Serves;
    RunInv(run, steps, i);
    NoticeStep(run[i], pid, a);
    StepKeepsInv(run[i], Local(pid, a));
    OpenStep(Apply(run[i], Local(pid, a)), pid);
  }

  /** A process that found no segment, or nothing published in time, goes on watching. */
  lemma MissedKeepsWatching(run: seq<World>, steps: seq<Step>, i: nat, pid: Pid, a: Action)
    requires IsRun(run, steps) && i < |steps| && steps[i] == Local(pid, a)
    requires if a.Open? then run[i].workers[pid].phase.record.name !in run[i].host.segments
             else a.GiveUpWaiting? && run[i].host.published.None?
    ensures Enabled(Watch, run[i + 1].workers[pid])
    ensures run[i + 1].workers[pid].generation == run[i].workers[pid].generation
  {
    RunInv(run, steps, i);
    var w := run[i].workers[pid];
    assert WorkerInv(run[i].host, run[i].history, w);
    assert w.role.Some? ==> w.role == Some(Builder) || w.role == Some(Reader) || w.role == Some(Attaching) by {
      if w.role.Some? { assert w.role.value.Builder? || w.role.value.Reader? || w.role.value.Attaching?; }
    }
  }

  // --------------------------------------------------------------------------- the first build

  /** What a first load does to the machine and the process when no other process acts meanwhile. */
  function FirstLoad(pid: Pid, h: Host, w: Worker, data: seq<Fp>): (Host, Worker)
    requires Enabled(Action.TryLock, w) && w.role.None? && h.lock.None?
  {
    var (h1, w1) := Act(Action.TryLock, pid, h, w);
    var (h2, w2) := Act(Action.ReadPrevious, pid, h1, w1);
    var (h3, w3) := Act(Action.ReadNext, pid, h2, w2);
    var (h4, w4) := Act(Action.SweepStale, pid, h3, w3);
    var (h5, w5) := Act(Action.FinishBuild(data), pid, h4, w4);
    if w5.phase.Built? then Act(Action.Publish, pid, h5, w5) else (h5, w5)
  }

  /** With the lock free and the next name free or not needed, the first load publishes and serves its array. */
  lemma FirstLoadServes(pid: Pid, h: Host, w: Worker, data: seq<Fp>)
    requires Enabled(Action.TryLock, w) && w.role.None? && h.lock.None?
    ensures var (h', w') := FirstLoad(pid, h, w, data);
            var t := PublishedGeneration(h) + 1;
            if data == [] || SegmentName(t) !in h.segments
            then && h'.lock == Some(pid) && h'.published == Some(Record(SegmentName(t), |data|, t))
                 && w' == Worker(Idle, Some(Builder), Some(Mapping(t, if data == [] then None else Some(SegmentName(t)),
                                                                   data)), t)
                 && (data != [] ==> SegmentName(t) in h'.segments && data <= h'.segments[SegmentName(t)])
            else h'.lock.None? && h'.published == h.published && w' == w
  {
  }

  // ------------------------------------------------------------------------------ after a failure

  /** The lock is free, and whoever tries for it first has it and builds. */
  ghost predicate UpForElection(w: World) {
    && w.host.lock.None?
    && forall q :: q in w.workers && w.workers[q].phase.Booting? ==>
         && StepOk(w, Local(q, TryLock)) && Apply(w, Local(q, TryLock)).host.lock == Some(q)
         && InBuild(Apply(w, Local(q, TryLock)).workers[q])
  }

  /** A first load that fails frees the lock, and is tried again by anyone, itself included. */
  lemma FailedLoadIsRetried(run: seq<World>, steps: seq<Step>, i: nat, pid: Pid, a: Action)
    requires IsRun(run, steps) && i < |steps| && steps[i] == Local(pid, a) && !a.Open?
    requires Failing(a, run[i].host, run[i].workers[pid]) && run[i].workers[pid].role.None?
    ensures run[i + 1].workers[pid].phase.Booting? && UpForElection(run[i + 1])
  {
  }

  /** So does the death of its holder. */
  lemma DeathFreesTheLock(run: seq<World>, steps: seq<Step>, i: nat, pid: Pid, unlinked: set<string>)
    requires IsRun(run, steps) && i < |steps| && steps[i] == Stop(pid, unlinked) && run[i].host.lock == Some(pid)
    ensures UpForElection(run[i + 1])
  {
  }

  /** A rebuild that fails leaves the builder ready for the next. */
  lemma FailedRebuildGoesOn(run: seq<World>, steps: seq<Step>, i: nat, pid: Pid, a: Action)
    requires IsRun(run, steps) && i < |steps| && steps[i] == Local(pid, a) && !a.Open?
    requires Failing(a, run[i].host, run[i].workers[pid]) && run[i].workers[pid].role.Some?
    ensures Enabled(BeginRebuild, run[i + 1].workers[pid]) && run[i + 1].host.lock == Some(pid)
  {
    ReadyAt(run, steps, i);
  }

  // ------------------------------------------------------------------------------ what is left over

  /** After the sweep before a first build the only segments are the published one and one under the next name. */
  lemma FailoverSweepLeaves(run: seq<World>, steps: seq<Step>, i: nat, pid: Pid, name: string)
    requires IsRun(run, steps) && i < |steps| && steps[i] == Local(pid, SweepStale)
    requires name in run[i + 1].host.segments && "octi_membership_" <= name
    ensures var g := PublishedGeneration(run[i].host);
            name == "octi_membership_" + Decimal(g + 1) || (g >= 1 && name == "octi_membership_" + Decimal(g))
  {
    ReadyAt(run, steps, i);
    StaleSweepLeaves(pid, run[i].host, run[i].history, run[i].workers[pid], name);
  }

  lemma StaleSweepLeaves(pid: Pid, h: Host, history: map<nat, seq<Fp>>, w: Worker, name: string)
    requires ActReady(SweepStale, pid, h, history, w)
    requires name in Act(SweepStale, pid, h, w).0.segments && SEGMENT_PREFIX <= name
    ensures var g := PublishedGeneration(h); name == SegmentName(g + 1) || (g >= 1 && name == SegmentName(g))
  {
    assert PlanInv(h, w);
  }

  /** After the sweep of a rebuild they are the one it published and the one it superseded. */
  lemma RebuildSweepLeaves(run: seq<World>, steps: seq<Step>, i: nat, pid: Pid, name: string)
    requires IsRun(run, steps) && i < |steps| && steps[i] == Local(pid, SweepSuperseded)
    requires name in run[i + 1].host.segments && "octi_membership_" <= name
    ensures var g := PublishedGeneration(run[i].host);
            g >= 2 && (name == "octi_membership_" + Decimal(g) || name == "octi_membership_" + Decimal(g - 1))
  {
    ReadyAt(run, steps, i);
    SupersededSweepLeaves(pid, run[i].host, run[i].history, run[i].workers[pid], name);
  }

  lemma SupersededSweepLeaves(pid: Pid, h: Host, history: map<nat, seq<Fp>>, w: Worker, name: string)
    requires ActReady(SweepSuperseded, pid, h, history, w)
    requires name in Act(SweepSuperseded, pid, h, w).0.segments && SEGMENT_PREFIX <= name
    ensures var g := PublishedGeneration(h);
            g >= 2 && (name == SegmentName(g) || name == SegmentName(g - 1))
  {
    assert SupersedeInv(h, history, w);
  }
}
