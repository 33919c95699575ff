/** The consumer object: what handling an event, a connection and a run of reconnects does. */
module StreamConsumer {
  import opened Wrappers
  import opened Packed
  import opened Overlay
  import opened Membership
  import opened Stream

  lemma {:induction false} NothingApplied(k: Keying, kind: Kind, values: seq<string>, s: Overlaid)
    ensures ValueOps(k, kind, values[..0]) == [] && Run(s, ValueOps(k, kind, values[..0])) == s
  {
  }

  /** What one more value adds to the operations, and does to the set. */
  lemma {:induction false} OneMoreApplied(k: Keying, kind: Kind, values: seq<string>, i: nat, s: Overlaid)
    requires i < |values|
    ensures var ops, more := ValueOps(k, kind, values[..i]), ValueOps(k, kind, values[..i + 1]);
            var n := k.normalize(values[i]);
            if n.None? then more == ops
            else |more| == |ops| + 1 && Run(s, more) == Run(s, ops).After(OpOf(kind, k.hash(n.value)))
  {
    ValueOpsOneMore(k, kind, values, i);
    hide ValueOps, Run, OpOf;
    var ops, n := ValueOps(k, kind, values[..i]), k.normalize(values[i]);
    if n.Some? { RunOneMore(s, ops, OpOf(kind, k.hash(n.value))); } else { assert ops + [] == ops; }
  }

  class Consumer {
    const keying: Keying
    var cursor: Option<string>
    var connected: bool
    var reconnects: nat
    var eventsApplied: nat
    var eventsSkipped: nat
    var adds: nat
    var removes: nat
    var heartbeats: nat
    var lastActivityAt: real
    var lastEventAt: real
    var rebuildRequests: nat      // calls of on_overlay_full

    constructor (keying: Keying, startFrom: Option<string>, now: real)
      ensures this.keying == keying && cursor == startFrom && !connected
      ensures eventsApplied == eventsSkipped == adds == removes == heartbeats == reconnects == rebuildRequests == 0
      ensures lastActivityAt == lastEventAt == now
    {
      this.keying, cursor, connected := keying, startFrom, false;
      eventsApplied, eventsSkipped, adds, removes, heartbeats, reconnects, rebuildRequests := 0, 0, 0, 0, 0, 0, 0;
      lastActivityAt, lastEventAt := now, now;
    }

    /** on_remove or on_add for one normalized value. */
    method ApplyOne(kind: Kind, value: string, target: MembershipSet)
      requires target.Valid() && target.hash == keying.hash
      modifies this`adds, this`removes, target`added, target`tombstones
      ensures target.Valid() && target.Model() == old(target.Model()).After(OpOf(kind, keying.hash(value)))
      ensures adds == old(adds) + (if Removes(kind) then 0 else 1)
      ensures removes == old(removes) + (if Removes(kind) then 1 else 0)
    {
      if Removes(kind) {
        target.Remove(value);
        removes := removes + 1;
      } else {
        target.Add(value);
        adds := adds + 1;
      }
    }

    /** Applies the values of one event and says how many were lookupable. */
    method ApplyValues(kind: Kind, values: seq<string>, target: MembershipSet) returns (touched: nat)
      requires target.Valid() && target.hash == keying.hash
      modifies this`adds, this`removes, target`added, target`tombstones
      ensures target.Valid() && target.Model() == Run(old(target.Model()), ValueOps(keying, kind, values))
      ensures touched == |ValueOps(keying, kind, values)|
      ensures adds == old(adds) + (if Removes(kind) then 0 else touched)
      ensures removes == old(removes) + (if Removes(kind) then touched else 0)
    {
      touched := 0;
      ghost var s0 := target.Model();
      NothingApplied(keying, kind, values, s0);
      hide *;
      for i := 0 to |values|
        invariant target.Valid() && target.Model() == Run(s0, ValueOps(keying, kind, values[..i]))
        invariant touched == |ValueOps(keying, kind, values[..i])|
        invariant adds == old(adds) + (if Removes(kind) then 0 else touched)
        invariant removes == old(removes) + (if Removes(kind) then touched else 0)
      {
        OneMoreApplied(keying, kind, values, i, s0);
        var n := keying.normalize(values[i]);
        if n.Some? {
          ApplyOne(kind, n.value, target);
          touched := touched + 1;
        }
      }
      assert values[..|values|] == values;
    }

    /** The values of one relevant event, its statistics, and the rebuild request of a full overlay. */
    method HandleValues(kind: Kind, values: seq<string>, target: MembershipSet, now: real)
      requires target.Valid() && target.hash == keying.hash
      modifies this`adds, this`removes, this`eventsApplied, this`eventsSkipped, this`lastEventAt, this`rebuildRequests
      modifies target`added, target`tombstones
      ensures target.Valid() && target.Model() == Run(old(target.Model()), ValueOps(keying, kind, values))
      ensures eventsApplied == old(eventsApplied) + (if ValueOps(keying, kind, values) != [] then 1 else 0)
      ensures eventsSkipped == old(eventsSkipped) + (if ValueOps(keying, kind, values) == [] then 1 else 0)
      ensures adds == old(adds) + (if Removes(kind) then 0 else |ValueOps(keying, kind, values)|)
      ensures removes == old(removes) + (if Removes(kind) then |ValueOps(keying, kind, values)| else 0)
      ensures lastEventAt == (if ValueOps(keying, kind, values) != [] then now else old(lastEventAt))
      ensures rebuildRequests == old(rebuildRequests)
              + (if ValueOps(keying, kind, values) != [] && target.OverlayFull() then 1 else 0)
    {
      hide ValueOps, Run;
      var touched := ApplyValues(kind, values, target);
      if touched > 0 {
        eventsApplied := eventsApplied + 1;
        lastEventAt := now;
        if target.OverlayFull() { rebuildRequests := rebuildRequests + 1; }
      } else {
        eventsSkipped := eventsSkipped + 1;
      }
    }

    /** _handle: the cursor and the liveness clock move for any traffic, the set only for events that carry values. */
    method Handle(e: Event, target: MembershipSet, now: real)
      requires target.Valid() && target.hash == keying.hash
      modifies this`cursor, this`lastActivityAt, this`heartbeats, this`adds, this`removes, this`eventsApplied
      modifies this`eventsSkipped, this`lastEventAt, this`rebuildRequests, target`added, target`tombstones
      ensures target.Valid() && target.Model() == Run(old(target.Model()), EventOps(keying, e))
      ensures cursor == (if e.id.Some? then e.id else old(cursor)) && lastActivityAt == now
      ensures eventsApplied == old(eventsApplied) + (if EventOps(keying, e) != [] then 1 else 0)
      ensures eventsSkipped == old(eventsSkipped)
              + (if EventOps(keying, e) == [] && !e.kind.Heartbeat? && !e.kind.ConsumerMetrics? && !e.kind.Connected?
                 then 1 else 0)
      ensures adds == old(adds) + (if e.kind.Delete? then 0 else |EventOps(keying, e)|)
      ensures removes == old(removes) + (if e.kind.Delete? then |EventOps(keying, e)| else 0)
      ensures lastEventAt == (if EventOps(keying, e) != [] then now else old(lastEventAt))
      ensures rebuildRequests == old(rebuildRequests)
              + (if EventOps(keying, e) != [] && target.OverlayFull() then 1 else 0)
      ensures heartbeats == old(heartbeats) + (if e.kind.Heartbeat? then 1 else 0)
    {
      assert Run(target.Model(), []) == target.Model();
      hide Run, ValueOps, ExtractValues;
      if e.id.Some? { cursor := e.id; }
      lastActivityAt := now;
      if e.kind.Heartbeat? {
        heartbeats := heartbeats + 1;
        return;
      }
      if e.kind.ConsumerMetrics? || e.kind.Connected? { return; }
      if (!Adds(e.kind) && !Removes(e.kind)) || !e.data.Payload? {
        eventsSkipped := eventsSkipped + 1;
        return;
      }
      HandleValues(e.kind, ExtractValues(e.data.stix), target, now);
    }

    /** One connection until it drops or ends. A full overlay asks for a rebuild at every event applied. */
    method ConsumeOnce(events: seq<Event>, target: MembershipSet, now: real)
      requires target.Valid() && target.hash == keying.hash
      modifies this, target`added, target`tombstones
      ensures target.Valid() && target.Model() == ApplyLog(keying, old(target.Model()), events)
      ensures cursor == CursorAfter(old(cursor), events) && connected && reconnects == old(reconnects)
      ensures old(target.Model()).Disjoint() && old(target.OverlayFull()) ==>
                rebuildRequests - old(rebuildRequests) == eventsApplied - old(eventsApplied)
    {
      hide EventOps, Run;
      connected := true;
      var i := 0;
      ghost var s0, cursor0 := target.Model(), cursor;
      ghost var full := s0.Disjoint() && target.OverlayFull();
      while i < |events|
        invariant i <= |events| && target.Valid() && connected && reconnects == old(reconnects)
        invariant target.Model() == ApplyLog(keying, s0, events[..i])
        invariant cursor == CursorAfter(cursor0, events[..i])
        invariant full ==> target.Model().Disjoint() && target.OverlayFull()
        invariant full ==> rebuildRequests - old(rebuildRequests) == eventsApplied - old(eventsApplied)
      {
        assert events[..i + 1][..i] == events[..i];
        if full { OverlayStaysFull(target.Model(), EventOps(keying, events[i]), target.overlayMax); }
        Handle(events[i], target, now);
        i := i + 1;
      }
      assert events[..|events|] == events;
    }

    /** One turn of run: a connection, and the count of reconnects when it was dropped. */
    method FollowOne(log: seq<Event>, s: Session, target: MembershipSet, now: real)
      requires target.Valid() && target.hash == keying.hash && s.from <= s.till <= |log|
      modifies this, target`added, target`tombstones
      ensures target.Valid()
      ensures Link(target.Model(), cursor) == AfterSession(keying, Link(old(target.Model()), old(cursor)), log, s)
      ensures reconnects == old(reconnects) + (if s.dropped then 1 else 0) && connected == !s.dropped
    {
      ConsumeOnce(log[s.from..s.till], target, now);
      if s.dropped {
        connected := false;
        reconnects := reconnects + 1;
      }
    }

    /** run over a script of connections, each dropped or ending in peace. */
    method FollowAll(log: seq<Event>, sessions: seq<Session>, target: MembershipSet, now: real)
      requires target.Valid() && target.hash == keying.hash
      requires Connects(keying, Link(target.Model(), cursor), log, sessions)
      modifies this, target`added, target`tombstones
      ensures target.Valid()
      ensures Link(target.Model(), cursor)
              == AfterSessions(keying, Link(old(target.Model()), old(cursor)), log, sessions)
      ensures reconnects == old(reconnects) + Drops(sessions)
      ensures connected == if sessions == [] then old(connected) else !sessions[|sessions| - 1].dropped
    {
      hide WellFormed, Resumes, AfterSession;
      var i := 0;
      ghost var start := Link(target.Model(), cursor);
      ghost var here := start;
      while i < |sessions|
        invariant i <= |sessions| && target.Valid() && here == Link(target.Model(), cursor)
        invariant Connects(keying, here, log, sessions[i..])
        invariant AfterSessions(keying, start, log, sessions) == AfterSessions(keying, here, log, sessions[i..])
        invariant reconnects == old(reconnects) + Drops(sessions[..i])
        invariant connected == if i == 0 then old(connected) else !sessions[i - 1].dropped
      {
        assert sessions[i..][0] == sessions[i] && sessions[i..][1..] == sessions[i + 1..];
        assert sessions[..i + 1][..i] == sessions[..i];
        FollowOne(log, sessions[i], target, now);
        here := AfterSession(keying, here, log, sessions[i]);
        i := i + 1;
      }
      assert sessions[..|sessions|] == sessions && sessions[|sessions|..] == [];
    }

    /**
     Started without a cursor, once a connection has reached the end of the log the set is that of one
     pass from the earliest event sent.
     */
    method Follow(log: seq<Event>, sessions: seq<Session>, target: MembershipSet, now: real)
      requires target.Valid() && target.hash == keying.hash && cursor.None? && WellFormed(keying, log)
      requires Connects(keying, Link(target.Model(), cursor), log, sessions)
      requires sessions != [] && sessions[|sessions| - 1].till == |log|
      modifies this, target`added, target`tombstones
      ensures target.Valid()
      ensures target.Model() == ApplyLog(keying, old(target.Model()), log[Start(log, sessions, |log|)..])
      ensures reconnects == old(reconnects) + Drops(sessions)
      ensures connected == !sessions[|sessions| - 1].dropped
    {
      ReconnectsSettle(keying, target.Model(), log, sessions);
      FollowAll(log, sessions, target, now);
    }
  }

  function Drops(sessions: seq<Session>): nat {
    if sessions == [] then 0 else Drops(sessions[..|sessions| - 1]) + if sessions[|sessions| - 1].dropped then 1 else 0
  }
}
