/** The lookup steps as the event loop performs them on the cache, the table of flights and their futures. */
module FlightObjects {
  import opened Wrappers
  import opened SingleFlight
  import PC = PayloadCaching

  class EventLoop<P> {
    const cache: PC.PayloadCache<P>
    ghost const base: PC.Cache<P>

    var now: real
    var inflight: map<string, nat>          // key to future
    var futures: seq<Flight<P>>
    var tasks: map<Id, Task<P>>

    /** What has been done to the cache since the start. */
    ghost var ops: seq<PC.Op<P>>

    ghost predicate Valid()
      reads this, cache
    {
      cache.Valid() && cache.State() == PC.Run(base, ops)
    }

    ghost function State(): Loop<P>
      reads this
    {
      Loop(now, ops, inflight, futures, tasks)
    }

    constructor (cache: PC.PayloadCache<P>, start: real)
      requires cache.Valid()
      ensures this.cache == cache && base == cache.State() && State() == Idle(start) && Valid()
    {
      this.cache, base := cache, cache.State();
      now, inflight, futures, tasks, ops := start, map[], [], map[], [];
    }

    ghost method Logged(op: PC.Op<P>)
      modifies this`ops
      ensures ops == old(ops) + [op] && PC.Run(base, ops) == PC.Run(base, old(ops)).Do(op)
    {
      assert (ops + [op])[..|ops|] == ops;
      ops := ops + [op];
    }

    /** A lookup starts: answered from the cache, joined to a flight, or leading one. */
    method Begin(t: Id, key: string)
      requires Valid() && t !in tasks
      modifies this, cache
      ensures Valid() && State() == Next(base, old(State()), Step.Begin(t, key))
    {
      hide PC.Run;
      var cached := cache.Get(now, key);
      Logged(PC.Op.Get(now, key));
      if cached.Some? {
        tasks := tasks[t := Finished(key, None, false, Cached(cached.value))];
        return;
      }
      if key in inflight {
        tasks := tasks[t := Joined(key, inflight[key])];
        return;
      }
      var future := |futures|;
      futures := futures + [Flight(key, t, None)];
      inflight := inflight[key := future];
      tasks := tasks[t := Leading(key, future)];
    }

    /** The leader's fetch ends: the future is settled, the key dropped whatever happened, a value cached. */
    method Land(t: Id, outcome: Outcome<P>)
      requires Valid() && Enabled(State(), Step.Land(t, outcome))
      modifies this, cache
      ensures Valid() && State() == Next(base, old(State()), Step.Land(t, outcome))
    {
      hide PC.Run;
      var key, future := tasks[t].key, tasks[t].flight;
      futures := futures[future := futures[future].(outcome := Some(outcome))];
      inflight := inflight - {key};
      Conclude(t, key, future, outcome);
    }

    /** A joiner sees the landed future. */
    method Wake(t: Id)
      requires Valid() && Enabled(State(), Step.Wake(t))
      modifies this, cache
      ensures Valid() && State() == Next(base, old(State()), Step.Wake(t))
    {
      hide PC.Run;
      Conclude(t, tasks[t].key, tasks[t].flight, futures[tasks[t].flight].outcome.value);
    }

    /** lookup past its await: cache and answer a value, answer or pass on an exception. */
    method Conclude(t: Id, key: string, future: nat, outcome: Outcome<P>)
      requires Valid()
      modifies this`tasks, this`ops, cache
      ensures Valid()
      ensures ops == old(ops) + Stored(outcome, now, key)
      ensures tasks == old(tasks)[t := Finished(key, Some(future), false, AnswerTo(outcome))]
    {
      hide PC.Run;
      match outcome {
        case Value(p) =>
          cache.Set(now, key, p);
          Logged(PC.Op.Set(now, key, p));
          tasks := tasks[t := Finished(key, Some(future), false, Fetched(p))];
        case Raised(e) =>
          if e.BreakerOpen? || e.OpenCti? {
            tasks := tasks[t := Finished(key, Some(future), false, Degraded)];
          } else {
            tasks := tasks[t := Finished(key, Some(future), false, Propagated(e))];
          }
      }
    }

    /** A joiner is cancelled; the shield leaves the future alone. */
    method Cancel(t: Id)
      requires Valid() && Enabled(State(), Step.Cancel(t))
      modifies this`tasks
      ensures Valid() && State() == Next(base, old(State()), Step.Cancel(t))
    {
      tasks := tasks[t := Finished(tasks[t].key, Some(tasks[t].flight), true, Propagated(Cancelled))];
    }
  }
}
