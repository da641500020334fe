/** The virtual clock of benchmarks/simulator/clock.py. The heap is an abstract priority
    queue: a set of events, popped in order of time, phase and insertion sequence. */
module Clock {
  import opened Wrappers

  datatype Phase = Release | Arrival

  datatype Event = Event(time: int, phase: Phase, sequence: nat, job: int)

  /** Strict heap order. */
  predicate Earlier(a: Event, b: Event) {
    || a.time < b.time
    || (a.time == b.time && a.phase == Release && b.phase == Arrival)
    || (a.time == b.time && a.phase == b.phase && a.sequence < b.sequence)
  }

  predicate IsNext(events: set<Event>, e: Event) {
    e in events && forall f :: f in events ==> f == e || Earlier(e, f)
  }

  ghost predicate IsNextTime(events: set<Event>, time: int) {
    (exists e :: e in events && e.time == time) && forall e :: e in events ==> time <= e.time
  }

  ghost predicate DistinctSequences(events: set<Event>) {
    forall e, f :: e in events && f in events && e.sequence == f.sequence ==> e == f
  }

  lemma {:induction false} NextExists(events: set<Event>)
    requires events != {} && DistinctSequences(events)
    ensures exists e :: IsNext(events, e)
    decreases |events|
  {
    var x :| x in events;
    var rest := events - {x};
    if rest == {} {
      assert events == {x};
      assert IsNext(events, x);
    } else {
      NextExists(rest);
      var m :| IsNext(rest, m);
      assert x.sequence != m.sequence;
      var least := if Earlier(x, m) then x else m;
      forall f | f in events ensures f == least || Earlier(least, f) {
        assert f == x || f in rest;
      }
      assert IsNext(events, least);
    }
  }

  class VirtualClock {
    var now: int
    var nextSequence: nat
    var events: set<Event>

    ghost predicate Valid()
      reads this
    {
      && DistinctSequences(events)
      && (forall e :: e in events ==> e.sequence < nextSequence && now <= e.time)
    }

    constructor (start: int)
      requires start >= 0
      ensures Valid() && now == start && nextSequence == 0 && events == {}
    {
      now, nextSequence, events := start, 0, {};
    }

    /** Refuses exactly the events that would lie before the current time. */
    method Schedule(time: int, phase: Phase, job: int) returns (ok: bool)
      requires Valid()
      modifies this
      ensures Valid() && now == old(now)
      ensures ok <==> old(now) <= time
      ensures ok ==> events == old(events) + {Event(time, phase, old(nextSequence), job)}
                     && nextSequence == old(nextSequence) + 1
      ensures !ok ==> events == old(events) && nextSequence == old(nextSequence)
    {
      if time < now {
        return false;
      }
      events := events + {Event(time, phase, nextSequence, job)};
      nextSequence := nextSequence + 1;
      ok := true;
    }

    /** Hands out the least event and moves time to it; time never goes back. */
    method PopNext() returns (r: Option<Event>)
      requires Valid()
      modifies this
      ensures Valid() && old(now) <= now && nextSequence == old(nextSequence)
      ensures r.None? <==> old(events) == {}
      ensures r.None? ==> now == old(now) && events == old(events)
      ensures r.Some? ==> IsNext(old(events), r.value) && events == old(events) - {r.value} && now == r.value.time
    {
      if events == {} {
        return None;
      }
      NextExists(events);
      var e :| IsNext(events, e);
      events := events - {e};
      now := e.time;
      r := Some(e);
    }

    /** The time of the next event, read without popping it. */
    method NextTime() returns (r: Option<int>)
      requires Valid()
      ensures r.None? <==> events == {}
      ensures r.Some? ==> now <= r.value && IsNextTime(events, r.value)
    {
      if events == {} {
        return None;
      }
      NextExists(events);
      var e :| IsNext(events, e);
      r := Some(e.time);
    }
  }
}
