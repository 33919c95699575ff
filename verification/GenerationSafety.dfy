/** What every run of the generation protocol keeps. */
module GenerationSafety {
  import opened Wrappers
  import opened Packed
  import opened Generations

  /** No state file, nobody running, no segment carrying the prefix; other files may be there. */
  ghost predicate Init(w: World) {
    && w.host.lock.None? && w.host.published.None?
    && w.workers == map[] && w.history == map[]
    && forall name :: name in w.host.segments ==> !HasPrefix(name)
  }

  /** Inside a build or rebuild, from reading the published record to the last sweep. */
  predicate InBuild(w: Worker) {
    w.phase.Locked? || w.phase.HasPrevious? || w.phase.Planned? || w.phase.Loading?
    || w.phase.Built? || w.phase.Published? || w.phase.Swapped?
  }

  /** A process that may build or publish. */
  predicate Holds(w: Worker) {
    InBuild(w) || w.role == Some(Builder)
  }

  ghost predicate RecordOf(r: Record, history: map<nat, seq<Fp>>) {
    r.generation in history && r.name == SegmentName(r.generation) && r.count == |history[r.generation]|
  }

  ghost predicate HostInv(h: Host, history: map<nat, seq<Fp>>) {
    && (forall g :: g in history <==> 1 <= g <= PublishedGeneration(h))
    && (h.published.Some? ==> RecordOf(h.published.value, history))
    && (forall g :: g in history ==> StrictlyIncreasing(history[g]))
    && NamesAtMost(h.segments, NextGeneration(h))
    && (forall g :: g in history && SegmentName(g) in h.segments ==> history[g] <= h.segments[SegmentName(g)])
  }

  ghost predicate NameAtMost(name: string, bound: nat) {
    exists g :: 1 <= g <= bound && name == SegmentName(g)
  }

  ghost predicate NamesAtMost(segments: map<string, seq<Fp>>, bound: nat) {
    forall name :: name in segments && HasPrefix(name) ==> NameAtMost(name, bound)
  }

  /** A plan made under the lock still matches the state file. */
  ghost predicate PlanInv(h: Host, w: Worker) {
    match w.phase
    case HasPrevious(p) => p == h.published
    case Planned(p, t) => p == h.published && t == NextGeneration(h) && w.role.None?
    case Loading(p, t) => p == h.published && t == NextGeneration(h)
    case Built(p, t, data) =>
      && p == h.published && t == NextGeneration(h) && StrictlyIncreasing(data)
      && (data != [] && SegmentName(t) in h.segments ==> h.segments[SegmentName(t)] == Segment(data))
    case _ => true
  }

  /** After a rebuild's publish, the record read before it is the one superseded. */
  ghost predicate SupersedeInv(h: Host, history: map<nat, seq<Fp>>, w: Worker) {
    match w.phase
    case Published(p, t, data) =>
      && w.role == Some(Builder) && t == PublishedGeneration(h) && Superseded(p, t)
      && t in history && history[t] == data && w.generation + 1 == t && NamesAtMost(h.segments, t)
    case Swapped(p, t, oldName) =>
      && w.role == Some(Builder) && t == PublishedGeneration(h) && Superseded(p, t) && NamesAtMost(h.segments, t)
      && (oldName.Some? ==> oldName.value == SegmentName(t - 1))
    case _ => true
  }

  predicate Superseded(p: Option<Record>, t: nat) {
    t >= 2 && p.Some? && p.value.name == SegmentName(t - 1)
  }

  ghost predicate WorkerInv(h: Host, history: map<nat, seq<Fp>>, w: Worker) {
    && PlanInv(h, w) && SupersedeInv(h, history, w)
    && w.generation <= PublishedGeneration(h)
    && (w.mapping.Some? ==> w.mapping.value.generation == w.generation && w.generation in history
                            && w.mapping.value.data == history[w.generation]
                            && (w.mapping.value.name.Some? ==> w.mapping.value.name.value == SegmentName(w.generation)))
    && (w.mapping.None? ==> w.generation == 0)
    && (w.phase.Opening? ==> RecordOf(w.phase.record, history) && w.generation < w.phase.record.generation
                             && !Holds(w))
    && (w.role.None? ==> w.mapping.None?)
    && (InBuild(w) ==> w.role.None? || w.role == Some(Builder))
    && (w.phase.Booting? || w.phase.Waiting? ==> w.role.None?)
    && (w.role == Some(Builder) ==> w.mapping.Some?)
    && (w.role == Some(Builder) && !w.phase.Published? ==> w.generation == PublishedGeneration(h))
  }

  ghost predicate LockInv(w: World) {
    forall pid :: pid in w.workers && Holds(w.workers[pid]) ==> w.host.lock == Some(pid)
  }

  ghost predicate Inv(w: World) {
    && HostInv(w.host, w.history)
    && LockInv(w)
    && forall pid :: pid in w.workers ==> WorkerInv(w.host, w.history, w.workers[pid])
  }

  lemma InitInv(w: World)
    requires Init(w)
    ensures Inv(w)
  {
  }

  /** How one step may change the machine, seen from every process that does not take it. */
  ghost predicate HostStep(h: Host, history: map<nat, seq<Fp>>, h': Host, history': map<nat, seq<Fp>>) {
    && PublishedGeneration(h) <= PublishedGeneration(h') <= PublishedGeneration(h) + 1
    && (forall g :: g in history ==> g in history' && history'[g] == history[g])
    && (forall g :: 1 <= g <= PublishedGeneration(h) && SegmentName(g) in h'.segments ==>
          SegmentName(g) in h.segments && h'.segments[SegmentName(g)] == h.segments[SegmentName(g)])
  }

  function HistoryAfter(a: Action, w: Worker, history: map<nat, seq<Fp>>): map<nat, seq<Fp>>
    requires Enabled(a, w)
  {
    if a.Publish? then history[w.phase.target := w.phase.data] else history
  }

  /** The lock does not matter to what is published. */
  lemma LockKeepsHostInv(h: Host, history: map<nat, seq<Fp>>, lock: Option<Pid>)
    requires HostInv(h, history)
    ensures var h' := h.(lock := lock); HostInv(h', history) && HostStep(h, history, h', history)
  {
  }

  /** A sweep drops names and changes no contents. */
  lemma SweepKeepsHostInv(h: Host, history: map<nat, seq<Fp>>, keep: set<string>)
    requires HostInv(h, history)
    ensures var h' := h.(segments := Sweep(h.segments, keep));
            HostInv(h', history) && HostStep(h, history, h', history)
  {
  }

  /** The next name is above every published one, so creating it touches no published segment. */
  lemma CreateKeepsHostInv(h: Host, history: map<nat, seq<Fp>>, data: seq<Fp>)
    requires HostInv(h, history)
    ensures var h' := h.(segments := h.segments[SegmentName(NextGeneration(h)) := Segment(data)]);
            HostInv(h', history) && HostStep(h, history, h', history)
  {
    var t := NextGeneration(h);
    forall g | g in history ensures SegmentName(g) != SegmentName(t) {
      if SegmentName(g) == SegmentName(t) { SegmentNameInjective(g, t); }
    }
    assert NameAtMost(SegmentName(t), t);
  }

  /** Publishing the next generation keeps every earlier record and describes the new segment. */
  lemma PublishKeepsHostInv(h: Host, history: map<nat, seq<Fp>>, data: seq<Fp>)
    requires HostInv(h, history) && StrictlyIncreasing(data)
    requires data != [] && SegmentName(NextGeneration(h)) in h.segments
             ==> h.segments[SegmentName(NextGeneration(h))] == Segment(data)
    ensures var t := NextGeneration(h);
            var h' := h.(published := Some(Record(SegmentName(t), |data|, t)));
            HostInv(h', history[t := data]) && HostStep(h, history, h', history[t := data])
            && NamesAtMost(h'.segments, t)
  {
    var t := NextGeneration(h);
    var h' := h.(published := Some(Record(SegmentName(t), |data|, t)));
    assert data <= Segment(data);
    forall name | name in h'.segments && HasPrefix(name) ensures NameAtMost(name, NextGeneration(h')) {
      assert NameAtMost(name, t);
    }
  }

  ghost predicate ActReady(a: Action, pid: Pid, h: Host, history: map<nat, seq<Fp>>, w: Worker) {
    && Enabled(a, w) && (a.FinishBuild? ==> StrictlyIncreasing(a.data))
    && HostInv(h, history) && WorkerInv(h, history, w)
    && (Holds(w) ==> h.lock == Some(pid))
  }

  /** The machine, its history and the acting process stay good, and only a lock holder changes the machine. */
  ghost predicate ActGood(a: Action, pid: Pid, h: Host, history: map<nat, seq<Fp>>, w: Worker)
    requires Enabled(a, w)
  {
    var (h', w') := Act(a, pid, h, w);
    var history' := HistoryAfter(a, w, history);
    && HostInv(h', history') && HostStep(h, history, h', history')
    && WorkerInv(h', history', w')
    && (Holds(w') ==> h'.lock == Some(pid))
    && (!Holds(w) ==> h' == h || (h.lock.None? && h' == h.(lock := Some(pid))))
  }

  lemma SweepStaleKeeps(pid: Pid, h: Host, history: map<nat, seq<Fp>>, w: Worker)
    requires ActReady(SweepStale, pid, h, history, w)
    ensures ActGood(SweepStale, pid, h, history, w)
  {
    SweepKeepsHostInv(h, history, KeepFirstBuild(w.phase.previous, w.phase.target));
  }

  lemma FinishBuildKeeps(data: seq<Fp>, pid: Pid, h: Host, history: map<nat, seq<Fp>>, w: Worker)
    requires ActReady(FinishBuild(data), pid, h, history, w)
    ensures ActGood(FinishBuild(data), pid, h, history, w)
  {
    if data == [] {
    } else if SegmentName(w.phase.target) in h.segments {
      AbandonKeeps(h, history, w);
    } else {
      CreateKeepsHostInv(h, history, data);
    }
  }

  lemma AbandonKeeps(h: Host, history: map<nat, seq<Fp>>, w: Worker)
    requires HostInv(h, history) && WorkerInv(h, history, w) && (w.phase.Loading? || w.phase.Built?)
    ensures var (h', w') := Abandon(h, w);
            HostInv(h', history) && HostStep(h, history, h', history) && WorkerInv(h', history, w')
  {
    LockKeepsHostInv(h, history, None);
  }

  lemma PublishKeeps(pid: Pid, h: Host, history: map<nat, seq<Fp>>, w: Worker)
    requires ActReady(Publish, pid, h, history, w)
    ensures ActGood(Publish, pid, h, history, w)
  {
    PublishKeepsHostInv(h, history, w.phase.data);
  }

  lemma RebuildTailKeeps(a: Action, pid: Pid, h: Host, history: map<nat, seq<Fp>>, w: Worker)
    requires ActReady(a, pid, h, history, w) && (a.Swap? || a.SweepSuperseded?)
    ensures ActGood(a, pid, h, history, w)
  {
    if a.SweepSuperseded? {
      SweepKeepsHostInv(h, history, KeepRebuild(w.phase.previous, w.phase.target, w.phase.oldName));
    }
  }

  /** A record read from the state file describes a published generation. */
  lemma FollowKeeps(a: Action, pid: Pid, h: Host, history: map<nat, seq<Fp>>, w: Worker)
    requires ActReady(a, pid, h, history, w)
    requires a.ReadPublished? || a.GiveUpWaiting? || a.Watch?
    ensures ActGood(a, pid, h, history, w)
  {
    FollowKeepsWorker(a, pid, h, history, w);
    assert Act(a, pid, h, w).0 == h;
  }

  lemma FollowKeepsWorker(a: Action, pid: Pid, h: Host, history: map<nat, seq<Fp>>, w: Worker)
    requires Enabled(a, w) && WorkerInv(h, history, w)
    requires h.published.Some? ==> RecordOf(h.published.value, history) && 1 <= h.published.value.generation
    requires a.ReadPublished? || a.GiveUpWaiting? || a.Watch?
    ensures WorkerInv(h, history, Act(a, pid, h, w).1) && (Holds(Act(a, pid, h, w).1) ==> Holds(w))
  {
  }

  lemma OpenKeeps(pid: Pid, h: Host, history: map<nat, seq<Fp>>, w: Worker)
    requires ActReady(Open, pid, h, history, w)
    ensures ActGood(Open, pid, h, history, w)
  {
    var r := w.phase.record;
    OpenKeepsWorker(pid, h, history, w);
    assert Act(Open, pid, h, w).0 == h;
  }

  /** The words mapped are the ones published, even when the segment is longer than the record says. */
  lemma OpenKeepsWorker(pid: Pid, h: Host, history: map<nat, seq<Fp>>, w: Worker)
    requires Enabled(Open, w) && WorkerInv(h, history, w)
    requires w.phase.record.generation <= PublishedGeneration(h)
    requires w.phase.record.name in h.segments ==> history[w.phase.record.generation] <= h.segments[w.phase.record.name]
    ensures WorkerInv(h, history, Act(Open, pid, h, w).1) && !Holds(Act(Open, pid, h, w).1)
  {
  }

  lemma ReadKeeps(a: Action, pid: Pid, h: Host, history: map<nat, seq<Fp>>, w: Worker)
    requires ActReady(a, pid, h, history, w)
    requires a.ReadPrevious? || a.ReadNext? || a.BeginRebuild?
    ensures ActGood(a, pid, h, history, w)
  {
  }

  lemma LockKeeps(a: Action, pid: Pid, h: Host, history: map<nat, seq<Fp>>, w: Worker)
    requires ActReady(a, pid, h, history, w)
    requires a.TryLock? || a.FailBuild? || a.FailPublish?
    ensures ActGood(a, pid, h, history, w)
  {
    if a.TryLock? {
      LockKeepsHostInv(h, history, Some(pid));
    } else {
      AbandonKeeps(h, history, w);
    }
  }

  lemma ActKeeps(a: Action, pid: Pid, h: Host, history: map<nat, seq<Fp>>, w: Worker)
    requires ActReady(a, pid, h, history, w)
    ensures ActGood(a, pid, h, history, w)
  {
    match a
    case SweepStale => SweepStaleKeeps(pid, h, history, w);
    case FinishBuild(data) => FinishBuildKeeps(data, pid, h, history, w);
    case Publish => PublishKeeps(pid, h, history, w);
    case Swap => RebuildTailKeeps(a, pid, h, history, w);
    case SweepSuperseded => RebuildTailKeeps(a, pid, h, history, w);
    case ReadPublished => FollowKeeps(a, pid, h, history, w);
    case GiveUpWaiting => FollowKeeps(a, pid, h, history, w);
    case Open => OpenKeeps(pid, h, history, w);
    case Watch => FollowKeeps(a, pid, h, history, w);
    case ReadPrevious => ReadKeeps(a, pid, h, history, w);
    case ReadNext => ReadKeeps(a, pid, h, history, w);
    case BeginRebuild => ReadKeeps(a, pid, h, history, w);
    case _ => LockKeeps(a, pid, h, history, w);
  }

  /** A process that holds nothing is untouched by what others do to the machine. */
  lemma BystanderKeeps(h: Host, history: map<nat, seq<Fp>>, h': Host, history': map<nat, seq<Fp>>, w: Worker)
    requires WorkerInv(h, history, w) && !Holds(w)
    requires HostStep(h, history, h', history')
    ensures WorkerInv(h', history', w)
  {
  }
}
