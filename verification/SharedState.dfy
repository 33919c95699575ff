/** What the workers of one machine share: who may build, what is published, and which segments exist. */
module SharedState {
  import opened Wrappers
  import opened Packed
  import opened Generations

  class StateDir {
    var lockHolder: Option<Pid>
    var stateFile: Option<Record>
    var segments: map<string, seq<Fp>>

    function View(): Host
      reads this
    {
      Host(lockHolder, stateFile, segments)
    }

    constructor ()
      ensures View() == Host(None, None, map[])
    {
      lockHolder, stateFile, segments := None, None, map[];
    }

    /** Non-blocking exclusive lock. */
    method TryBecomeBuilder(pid: Pid) returns (won: bool)
      modifies this
      ensures won == old(View()).lock.None?
      ensures View() == if won then old(View()).(lock := Some(pid)) else old(View())
    {
      if lockHolder.Some? { return false; }
      lockHolder := Some(pid);
      won := true;
    }

    /** Does nothing for a process that is not the builder. */
    method ReleaseBuilder(pid: Pid)
      modifies this
      ensures View() == if old(View()).lock == Some(pid) then old(View()).(lock := None) else old(View())
    {
      if lockHolder == Some(pid) { lockHolder := None; }
    }

    method Publish(r: Record)
      modifies this
      ensures View() == old(View()).(published := Some(r))
    {
      stateFile := Some(r);
    }

    method Read() returns (r: Option<Record>)
      ensures r == View().published
    {
      r := stateFile;
    }

    method ReadNextGeneration() returns (generation: nat)
      ensures generation == NextGeneration(View())
    {
      var current := Read();
      generation := if current.Some? then current.value.generation + 1 else 1;
    }

    /** Creating a segment fails when the name is taken. */
    method CreateSegment(name: string, data: seq<Fp>) returns (ok: bool)
      modifies this
      ensures ok == (name !in old(View()).segments)
      ensures View() == if ok then old(View()).(segments := old(segments)[name := Segment(data)]) else old(View())
    {
      if name in segments { return false; }
      segments := segments[name := Segment(data)];
      ok := true;
    }

    /** Removes every segment with the prefix that is not kept, and says which. */
    method SweepStaleSegments(keep: set<string>) returns (removed: seq<string>)
      modifies this
      ensures View() == old(View()).(segments := Sweep(old(segments), keep))
      ensures forall name :: name in removed <==> name in old(segments) && name !in segments
      ensures forall i, j :: 0 <= i < j < |removed| ==> removed[i] != removed[j]
    {
      removed := [];
      var entries := segments.Keys;
      while entries != {}
        invariant entries <= old(segments).Keys
        invariant lockHolder == old(lockHolder) && stateFile == old(stateFile)
        invariant forall name :: name in segments <==>
                    name in old(segments) && (name in entries || name in keep || !HasPrefix(name))
        invariant forall name :: name in segments ==> segments[name] == old(segments)[name]
        invariant forall name :: name in removed <==>
                    name in old(segments) && name !in entries && name !in keep && HasPrefix(name)
        invariant forall i, j :: 0 <= i < j < |removed| ==> removed[i] != removed[j]
        decreases |entries|
      {
        var name :| name in entries;
        entries := entries - {name};
        if HasPrefix(name) && name !in keep {
          segments := segments - {name};
          removed := removed + [name];
        }
      }
      assert segments == Sweep(old(segments), keep);
    }
  }
}
