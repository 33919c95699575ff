/**
 The generation protocol as a transition system over any number of worker processes.

 A world is one machine (the lock file, the state file and the shared-memory directory), the
 live worker processes, and the record of what was published for every generation. Each action
 is one system call or one stretch of code with no await and no visible effect on other
 processes, so runs interleave processes at every point where another process could act.
 */
module Generations {
  import opened Wrappers
  import opened Decimals
  import opened Packed

  type Pid = nat

  const SEGMENT_PREFIX: string := "octi_membership_"

  /** Each generation has a segment of its own. */
  function SegmentName(generation: nat): string {
    SEGMENT_PREFIX + Decimal(generation)
  }

  predicate HasPrefix(name: string) {
    SEGMENT_PREFIX <= name
  }

  lemma SegmentNameInjective(m: nat, n: nat)
    requires SegmentName(m) == SegmentName(n)
    ensures m == n
  {
    assert SegmentName(m)[|SEGMENT_PREFIX|..] == Decimal(m);
    assert SegmentName(n)[|SEGMENT_PREFIX|..] == Decimal(n);
    DecimalInjective(m, n);
  }

  /** What membership.json holds. */
  datatype Record = Record(name: string, count: nat, generation: nat)

  datatype Host = Host(lock: Option<Pid>, published: Option<Record>, segments: map<string, seq<Fp>>)

  function PublishedGeneration(h: Host): nat {
    if h.published.None? then 0 else h.published.value.generation
  }

  function NextGeneration(h: Host): nat {
    PublishedGeneration(h) + 1
  }

  /** Unlink every segment carrying the prefix whose name is not kept. */
  function Sweep(segments: map<string, seq<Fp>>, keep: set<string>): map<string, seq<Fp>> {
    map name | name in segments && (name in keep || !HasPrefix(name)) :: segments[name]
  }

  function NameOf(r: Option<Record>): set<string> {
    if r.None? then {} else {r.value.name}
  }

  // ------------------------------------------------------------------ workers

  datatype Role = Builder | Reader | Attaching

  /** A mapped membership array. It is the process's own, and survives an unlink. */
  datatype Mapping = Mapping(generation: nat, name: Option<string>, data: seq<Fp>)

  datatype Phase =
    | Booting                                                    // load not called, or to be retried
    | Waiting                                                    // lost the lock, polling the state file
    | Locked                                                     // about to read the published record
    | HasPrevious(previous: Option<Record>)
    | Planned(previous: Option<Record>, target: nat)             // first build only: sweep comes next
    | Loading(previous: Option<Record>, target: nat)             // awaiting the bootstrap
    | Built(previous: Option<Record>, target: nat, data: seq<Fp>)
    | Published(previous: Option<Record>, target: nat, data: seq<Fp>)
    | Swapped(previous: Option<Record>, target: nat, oldName: Option<string>)
    | Opening(record: Record)                                    // read a record, about to map it
    | Idle

  /** role is None until load has returned; generation is the last one adopted. */
  datatype Worker = Worker(phase: Phase, role: Option<Role>, mapping: Option<Mapping>, generation: nat)

  const NEWBORN := Worker(Booting, None, None, 0)

  datatype Action =
    | TryLock
    | ReadPrevious
    | ReadNext
    | SweepStale
    | FinishBuild(data: seq<Fp>)
    | FailBuild
    | Publish
    | FailPublish
    | Swap
    | SweepSuperseded
    | ReadPublished
    | GiveUpWaiting
    | Open
    | Watch
    | BeginRebuild

  function MappingOf(target: nat, data: seq<Fp>): Mapping {
    Mapping(target, if data == [] then None else Some(SegmentName(target)), data)
  }

  function KeepFirstBuild(previous: Option<Record>, target: nat): set<string> {
    {SegmentName(target)} + NameOf(previous)
  }

  function KeepRebuild(previous: Option<Record>, target: nat, oldName: Option<string>): set<string> {
    {SegmentName(target)} + NameOf(previous) + (if oldName.None? then {} else {oldName.value})
  }

  /** A failed load releases the lock and is retried; a failed rebuild just goes back to serving. */
  function Abandon(h: Host, w: Worker): (Host, Worker) {
    if w.role.None? then (h.(lock := None), w.(phase := Booting))
    else (h, w.(phase := Idle))
  }

  /** When worker w can take action a. */
  predicate Enabled(a: Action, w: Worker) {
    match a
    case TryLock => w.phase.Booting?
    case ReadPrevious => w.phase.Locked?
    case ReadNext => w.phase.HasPrevious?
    case SweepStale => w.phase.Planned?
    case FinishBuild(_) => w.phase.Loading?
    case FailBuild => w.phase.Loading?
    case Publish => w.phase.Built?
    case FailPublish => w.phase.Built?
    case Swap => w.phase.Published?
    case SweepSuperseded => w.phase.Swapped?
    case ReadPublished => w.phase.Waiting?
    case GiveUpWaiting => w.phase.Waiting?
    case Open => w.phase.Opening?
    case Watch => w.phase.Idle? && (w.role == Some(Reader) || w.role == Some(Attaching))
    case BeginRebuild => w.phase.Idle? && w.role == Some(Builder)
  }

  /** What action a of process pid does to the machine and to the process. */
  function Act(a: Action, pid: Pid, h: Host, w: Worker): (Host, Worker)
    requires Enabled(a, w)
  {
    match a
    case TryLock =>
      if h.lock.None? then (h.(lock := Some(pid)), w.(phase := Locked)) else (h, w.(phase := Waiting))
    case ReadPrevious =>
      (h, w.(phase := HasPrevious(h.published)))
    case ReadNext =>
      var target := NextGeneration(h);
      (h, w.(phase := if w.role.None? then Planned(w.phase.previous, target) else Loading(w.phase.previous, target)))
    case SweepStale =>
      (h.(segments := Sweep(h.segments, KeepFirstBuild(w.phase.previous, w.phase.target))),
       w.(phase := Loading(w.phase.previous, w.phase.target)))
    case FinishBuild(data) =>
      var name := SegmentName(w.phase.target);
      if data == [] then (h, w.(phase := Built(w.phase.previous, w.phase.target, data)))
      else if name in h.segments then Abandon(h, w)
      else (h.(segments := h.segments[name := Segment(data)]),
            w.(phase := Built(w.phase.previous, w.phase.target, data)))
    case FailBuild => Abandon(h, w)
    case Publish =>
      var Built(previous, target, data) := w.phase;
      var h' := h.(published := Some(Record(SegmentName(target), |data|, target)));
      if w.role.None? then (h', Worker(Idle, Some(Builder), Some(MappingOf(target, data)), target))
      else (h', w.(phase := Published(previous, target, data)))
    case FailPublish => Abandon(h, w)
    case Swap =>
      var Published(previous, target, data) := w.phase;
      var oldName := if w.mapping.None? then None else w.mapping.value.name;
      (h, w.(phase := Swapped(previous, target, oldName), mapping := Some(MappingOf(target, data)),
             generation := target))
    case SweepSuperseded =>
      (h.(segments := Sweep(h.segments, KeepRebuild(w.phase.previous, w.phase.target, w.phase.oldName))),
       w.(phase := Idle))
    case ReadPublished =>
      if h.published.None? then (h, w) else (h, w.(phase := Opening(h.published.value)))
    case GiveUpWaiting =>
      if h.published.None? then (h, w.(phase := Idle, role := Some(Attaching)))
      else (h, w.(phase := Opening(h.published.value)))
    case Open =>
      var r := w.phase.record;
      if r.name in h.segments then
        var words := h.segments[r.name];
        var data := if r.count <= |words| then words[..r.count] else words;
        (h, Worker(Idle, Some(Reader), Some(Mapping(r.generation, Some(r.name), data)), r.generation))
      else (h, w.(phase := Idle, role := if w.role.None? then Some(Attaching) else w.role))
    case Watch =>
      if h.published.None? || h.published.value.generation <= w.generation then (h, w)
      else (h, w.(phase := Opening(h.published.value)))
    case BeginRebuild => (h, w.(phase := Locked))
  }

  // -------------------------------------------------------------------- worlds

  /** history[g] is the array that was published for generation g. */
  datatype World = World(host: Host, workers: map<Pid, Worker>, history: map<nat, seq<Fp>>)

  datatype Step =
    | Spawn(pid: Pid)
    | Local(pid: Pid, action: Action)
    | Stop(pid: Pid, unlinked: set<string>)

  /**
   Stop is an exit or a crash at any point. The exit path or the resource tracker of the process may
   unlink segments it made; the step allows any set of names to go, so nothing relies on which.
   */
  ghost predicate StepOk(w: World, s: Step) {
    match s
    case Spawn(pid) => pid !in w.workers
    case Local(pid, a) =>
      && pid in w.workers && Enabled(a, w.workers[pid])
      && (a.FinishBuild? ==> StrictlyIncreasing(a.data))
    case Stop(pid, _) => pid in w.workers
  }

  function Apply(w: World, s: Step): World
    requires StepOk(w, s)
  {
    match s
    case Spawn(pid) => w.(workers := w.workers[pid := NEWBORN])
    case Local(pid, a) =>
      var before := w.workers[pid];
      var (host, worker) := Act(a, pid, w.host, before);
      World(host, w.workers[pid := worker],
            if a.Publish? then w.history[before.phase.target := before.phase.data] else w.history)
    case Stop(pid, unlinked) =>
      var host := w.host.(lock := if w.host.lock == Some(pid) then None else w.host.lock,
                          segments := w.host.segments - unlinked);
      w.(host := host, workers := w.workers - {pid})
  }
}
