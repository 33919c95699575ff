/**
 One worker process: loading or attaching at boot, following later generations, and rebuilding.
 Each method is the code between two points where another process may act, and is proved to be
 the protocol action of the same name.
 */
module Loader {
  import opened Wrappers
  import opened Packed
  import opened Generations
  import opened SharedState

  class Process {
    const pid: Pid
    const dir: StateDir
    var phase: Phase
    var role: Option<Role>
    var mapping: Option<Mapping>
    var generation: nat

    function View(): Worker
      reads this
    {
      Worker(phase, role, mapping, generation)
    }

    constructor (pid: Pid, dir: StateDir)
      ensures View() == NEWBORN && this.pid == pid && this.dir == dir
    {
      this.pid, this.dir := pid, dir;
      phase, role, mapping, generation := Booting, None, None, 0;
    }

    /** load: who wins the lock builds, who loses it waits for the state file. */
    method TryLock()
      requires Enabled(Action.TryLock, View())
      modifies this, dir
      ensures (dir.View(), View()) == Act(Action.TryLock, pid, old(dir.View()), old(View()))
    {
      var won := dir.TryBecomeBuilder(pid);
      phase := if won then Locked else Waiting;
    }

    method ReadPrevious()
      requires Enabled(Action.ReadPrevious, View())
      modifies this
      ensures (dir.View(), View()) == Act(Action.ReadPrevious, pid, old(dir.View()), old(View()))
    {
      var previous := dir.Read();
      phase := HasPrevious(previous);
    }

    method ReadNext()
      requires Enabled(Action.ReadNext, View())
      modifies this
      ensures (dir.View(), View()) == Act(Action.ReadNext, pid, old(dir.View()), old(View()))
    {
      var target := dir.ReadNextGeneration();
      phase := if role.None? then Planned(phase.previous, target) else Loading(phase.previous, target);
    }

    method SweepStale()
      requires Enabled(Action.SweepStale, View())
      modifies this, dir
      ensures (dir.View(), View()) == Act(Action.SweepStale, pid, old(dir.View()), old(View()))
    {
      var keep := {SegmentName(phase.target)};
      if phase.previous.Some? { keep := keep + {phase.previous.value.name}; }
      assert keep == KeepFirstBuild(phase.previous, phase.target);
      var _ := dir.SweepStaleSegments(keep);
      phase := Loading(phase.previous, phase.target);
    }

    /** The exception path: a first load gives the lock back, a rebuild keeps serving. */
    method Fail()
      requires phase.Loading? || phase.Built?
      requires role.None? ==> dir.View().lock == Some(pid)
      modifies this, dir
      ensures (dir.View(), View()) == Abandon(old(dir.View()), old(View()))
    {
      if role.None? {
        dir.ReleaseBuilder(pid);
        phase := Booting;
      } else {
        phase := Idle;
      }
    }

    /** The bootstrap answered with the sorted array data. */
    method FinishBuild(data: seq<Fp>)
      requires Enabled(Action.FinishBuild(data), View())
      requires role.None? ==> dir.View().lock == Some(pid)
      modifies this, dir
      ensures (dir.View(), View()) == Act(Action.FinishBuild(data), pid, old(dir.View()), old(View()))
    {
      if data != [] {
        var created := dir.CreateSegment(SegmentName(phase.target), data);
        if !created {
          Fail();
          return;
        }
      }
      phase := Built(phase.previous, phase.target, data);
    }

    /** Publishes; a first load also goes into service, with no await in between. */
    method Publish()
      requires Enabled(Action.Publish, View())
      modifies this, dir
      ensures (dir.View(), View()) == Act(Action.Publish, pid, old(dir.View()), old(View()))
    {
      var target, data := phase.target, phase.data;
      dir.Publish(Record(SegmentName(target), |data|, target));
      if role.None? {
        phase, role, mapping, generation := Idle, Some(Builder), Some(MappingOf(target, data)), target;
      } else {
        phase := Published(phase.previous, target, data);
      }
    }

    method Swap()
      requires Enabled(Action.Swap, View())
      modifies this
      ensures (dir.View(), View()) == Act(Action.Swap, pid, old(dir.View()), old(View()))
    {
      var target, data := phase.target, phase.data;
      var oldName := if mapping.None? then None else mapping.value.name;
      mapping, generation := Some(MappingOf(target, data)), target;
      phase := Swapped(phase.previous, target, oldName);
    }

    method SweepSuperseded()
      requires Enabled(Action.SweepSuperseded, View())
      modifies this, dir
      ensures (dir.View(), View()) == Act(Action.SweepSuperseded, pid, old(dir.View()), old(View()))
    {
      var keep := {SegmentName(phase.target)};
      if phase.previous.Some? { keep := keep + {phase.previous.value.name}; }
      if phase.oldName.Some? { keep := keep + {phase.oldName.value}; }
      assert keep == KeepRebuild(phase.previous, phase.target, phase.oldName);
      var _ := dir.SweepStaleSegments(keep);
      phase := Idle;
    }

    /** One tick of the watcher: read the state file, and go on to open a newer generation. */
    method Watch()
      requires Enabled(Action.Watch, View())
      modifies this
      ensures (dir.View(), View()) == Act(Action.Watch, pid, old(dir.View()), old(View()))
    {
      var state := dir.Read();
      if state.Some? && state.value.generation > generation {
        phase := Opening(state.value);
      }
    }

    /** _attach, from load or from the watcher. A missing segment leaves the served one in place. */
    method Open()
      requires Enabled(Action.Open, View())
      modifies this
      ensures (dir.View(), View()) == Act(Action.Open, pid, old(dir.View()), old(View()))
    {
      var r := phase.record;
      phase := Idle;
      if r.name in dir.segments {
        var words := dir.segments[r.name];
        mapping := Some(Mapping(r.generation, Some(r.name), if r.count <= |words| then words[..r.count] else words));
        generation := r.generation;
        role := Some(Reader);
      } else if role.None? {
        role := Some(Attaching);
      }
    }

    /** wait_for at its deadline: the last read decides between attaching and serving live. */
    method GiveUpWaiting()
      requires Enabled(Action.GiveUpWaiting, View())
      modifies this
      ensures (dir.View(), View()) == Act(Action.GiveUpWaiting, pid, old(dir.View()), old(View()))
    {
      var state := dir.Read();
      if state.Some? {
        phase := Opening(state.value);
      } else {
        phase, role := Idle, Some(Attaching);
      }
    }

    /** _rebuild up to its await. */
    method PlanRebuild()
      requires Enabled(BeginRebuild, View())
      modifies this
      ensures (dir.View(), View()) == PlannedRebuild(pid, old(dir.View()), old(View()))
    {
      phase := Locked;
      ReadPrevious();
      ReadNext();
    }

    /** _rebuild after its await: the bootstrap has answered or failed. */
    method EndRebuild(outcome: BuildOutcome) returns (ok: bool)
      requires phase.Loading? && role == Some(Builder)
      modifies this, dir
      ensures (dir.View(), View(), ok) == EndedRebuild(pid, old(dir.View()), old(View()), outcome)
    {
      if outcome.data.None? {
        Fail();
        return false;
      }
      FinishBuild(outcome.data.value);
      if !phase.Built? { return false; }
      if !outcome.publishes {
        Fail();
        return false;
      }
      Publish();
      Swap();
      SweepSuperseded();
      ok := true;
    }
  }

  /**
   What the world answers to one rebuild: the sorted corpus or a failure, and whether the state file
   can be written.
   */
  datatype BuildOutcome = BuildOutcome(data: Option<seq<Fp>>, publishes: bool)

  function PlannedRebuild(pid: Pid, h: Host, w: Worker): (Host, Worker)
    requires Enabled(BeginRebuild, w)
  {
    var (h1, w1) := Act(BeginRebuild, pid, h, w);
    var (h2, w2) := Act(Action.ReadPrevious, pid, h1, w1);
    Act(Action.ReadNext, pid, h2, w2)
  }

  function EndedRebuild(pid: Pid, h: Host, w: Worker, outcome: BuildOutcome): (Host, Worker, bool)
    requires w.phase.Loading? && w.role == Some(Builder)
  {
    if outcome.data.None? then
      var (h4, w4) := Act(FailBuild, pid, h, w); (h4, w4, false)
    else
      var (h4, w4) := Act(Action.FinishBuild(outcome.data.value), pid, h, w);
      if !w4.phase.Built? then (h4, w4, false)
      else if !outcome.publishes then var (h5, w5) := Act(FailPublish, pid, h4, w4); (h5, w5, false)
      else
        var (h5, w5) := Act(Action.Publish, pid, h4, w4);
        var (h6, w6) := Act(Action.Swap, pid, h5, w5);
        var (h7, w7) := Act(Action.SweepSuperseded, pid, h6, w6);
        (h7, w7, true)
  }

  /** A whole rebuild, when no other process touches the machine meanwhile. */
  function RebuildOnce(pid: Pid, h: Host, w: Worker, outcome: BuildOutcome): (Host, Worker, bool)
    requires Enabled(BeginRebuild, w)
  {
    var (h1, w1) := PlannedRebuild(pid, h, w);
    EndedRebuild(pid, h1, w1, outcome)
  }

  predicate RebuildWorks(h: Host, outcome: BuildOutcome) {
    && outcome.data.Some? && outcome.publishes
    && (outcome.data.value == [] || SegmentName(NextGeneration(h)) !in h.segments)
  }

  /**
   A rebuild succeeds exactly when the corpus loads, its segment name is free or not needed, and the
   state file can be written. Then it serves and publishes the new array one generation up and keeps
   the superseded segment, and the one it served.
   */
  lemma RebuildSucceeds(pid: Pid, h: Host, w: Worker, outcome: BuildOutcome)
    requires Enabled(BeginRebuild, w)
    ensures var (h', w', ok) := RebuildOnce(pid, h, w, outcome);
            var t := NextGeneration(h);
            && Enabled(BeginRebuild, w') && (ok <==> RebuildWorks(h, outcome))
            && (ok <==> && outcome.data.Some? && outcome.publishes
                        && (outcome.data.value == [] || SegmentName(t) !in h.segments))
            && (ok ==> && h'.published == Some(Record(SegmentName(t), |outcome.data.value|, t))
                       && w'.mapping == Some(MappingOf(t, outcome.data.value)) && w'.generation == t
                       && (h.published.Some? && h.published.value.name in h.segments ==>
                             h.published.value.name in h'.segments)
                       && (w.mapping.Some? && w.mapping.value.name.Some?
                           && w.mapping.value.name.value in h.segments ==>
                             w.mapping.value.name.value in h'.segments))
  {
  }

  /** A failed one leaves the record and the served array, and removes no segment. */
  lemma RebuildFails(pid: Pid, h: Host, w: Worker, outcome: BuildOutcome)
    requires Enabled(BeginRebuild, w) && !RebuildWorks(h, outcome)
    ensures var (h', w', _) := RebuildOnce(pid, h, w, outcome);
            && h'.published == h.published && h'.lock == h.lock && w' == w
            && forall name :: name in h.segments ==> name in h'.segments && h'.segments[name] == h.segments[name]
  {
  }
}
