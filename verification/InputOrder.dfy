/** The input reorder buffer of the desktop (enqueueDesktopInput in cmd/agent/desktop.go):
    numbered events may come late, early and repeatedly, and are queued in order. */
module InputOrder {
  import opened Words

  datatype Event = Event(msgType: byte, body: bytes)

  /** inputEventID of an event, 0 when it carries none. */
  datatype Arrival = Arrival(id: uint64, event: Event)

  /** nextID 0 means that no id has been latched. */
  datatype State = State(nextID: uint64, pending: map<uint64, Event>)

  const INITIAL := State(0, map[])
  const LAST: uint64 := 0xFFFF_FFFF_FFFF_FFFF

  function Inc64(x: uint64): uint64 {
    (x + 1) % TWO64
  }

  /** Takes the pending events that have become due. */
  function DrainPending(s: State): (State, seq<Arrival>)
    decreases |s.pending|
  {
    if s.nextID !in s.pending then (s, [])
    else
      var (t, rest) := DrainPending(State(Inc64(s.nextID), s.pending - {s.nextID}));
      (t, [Arrival(s.nextID, s.pending[s.nextID])] + rest)
  }

  /** One call: the new state and what is passed to queueDesktopInput, in order. */
  function Enqueue(s: State, a: Arrival): (State, seq<Arrival>) {
    if a.id == 0 then (s, [a])
    else
      var t := if s.nextID == 0 then s.(nextID := a.id) else s;
      if a.id < t.nextID then (t, [])
      else if a.id > t.nextID then (t.(pending := t.pending[a.id := a.event]), [])
      else
        var (u, ready) := DrainPending(t.(nextID := Inc64(t.nextID)));
        (u, [a] + ready)
  }

  class Orderer {
    var nextID: uint64
    var pending: map<uint64, Event>

    function Current(): State
      reads this
    {
      State(nextID, pending)
    }

    constructor ()
      ensures Current() == INITIAL
    {
      nextID, pending := 0, map[];
    }

    method Accept(a: Arrival) returns (ready: seq<Arrival>)
      modifies this
      ensures Enqueue(old(Current()), a) == (Current(), ready)
    {
      if a.id == 0 {
        return [a];
      }
      if nextID == 0 {
        nextID := a.id;
      }
      if a.id < nextID {
        return [];
      }
      if a.id > nextID {
        pending := pending[a.id := a.event];
        return [];
      }
      ready := [a];
      nextID := Inc64(nextID);
      ghost var due := Current();
      while nextID in pending
        invariant ready + DrainPending(Current()).1 == [a] + DrainPending(due).1
        invariant DrainPending(Current()).0 == DrainPending(due).0
        decreases |pending|
      {
        ghost var was := Current();
        ready := ready + [Arrival(nextID, pending[nextID])];
        pending := pending - {nextID};
        nextID := Inc64(nextID);
        assert DrainPending(was).1 == [ready[|ready| - 1]] + DrainPending(Current()).1;
      }
      assert ready + [] == ready;
    }
  }

  function Run(s: State, arrivals: seq<Arrival>): (State, seq<Arrival>)
    decreases |arrivals|
  {
    if arrivals == [] then (s, [])
    else
      var (t, now) := Enqueue(s, arrivals[0]);
      var (u, later) := Run(t, arrivals[1..]);
      (u, now + later)
  }

  lemma RunCons(s: State, arrivals: seq<Arrival>)
    requires arrivals != []
    ensures var (t, now) := Enqueue(s, arrivals[0]);
            var (u, later) := Run(t, arrivals[1..]);
            Run(s, arrivals) == (u, now + later)
  {
    hide Enqueue;
  }

  // ---- in order, once each ----

  /** The id due next, counting past the 64-bit range. */
  function Due(s: State): int {
    if s.nextID == 0 then TWO64 else s.nextID
  }

  /** Every pending event is ahead of the one due. */
  predicate Ready(s: State) {
    forall k | k in s.pending :: k > Due(s)
  }

  predicate Consecutive(first: int, out: seq<Arrival>) {
    forall i | 0 <= i < |out| :: out[i].id == first + i
  }

  /** Only the first arrival is latched. */
  predicate LatchesOnce(arrivals: seq<Arrival>)
    requires arrivals != []
  {
    NeverLatches(Enqueue(INITIAL, arrivals[0]).0, arrivals[1..])
  }

  lemma ConsecutiveConcat(first: int, xs: seq<Arrival>, ys: seq<Arrival>)
    ensures Consecutive(first, xs + ys) <==> Consecutive(first, xs) && Consecutive(first + |xs|, ys)
  {
    if Consecutive(first, xs + ys) {
      forall i | 0 <= i < |xs| ensures xs[i].id == first + i {
        assert (xs + ys)[i] == xs[i];
      }
      forall i | 0 <= i < |ys| ensures ys[i].id == first + |xs| + i {
        assert (xs + ys)[|xs| + i] == ys[i];
      }
    }
  }

  lemma {:induction false} DrainIsConsecutive(s: State)
    requires forall k | k in s.pending :: k >= Due(s)
    ensures var (t, out) := DrainPending(s);
            Ready(t) && Consecutive(Due(s), out) && Due(t) == Due(s) + |out|
    decreases |s.pending|
  {
    if s.nextID in s.pending {
      var next := State(Inc64(s.nextID), s.pending - {s.nextID});
      assert forall k | k in next.pending :: k >= Due(next);
      DrainIsConsecutive(next);
      hide Ready;
      ConsecutiveConcat(Due(s), [Arrival(s.nextID, s.pending[s.nextID])], DrainPending(next).1);
    }
  }

  lemma EnqueueIsConsecutive(s: State, a: Arrival)
    requires Ready(s) && s.nextID != 0 && a.id != 0
    ensures var (t, out) := Enqueue(s, a);
            Ready(t) && Consecutive(Due(s), out) && Due(t) == Due(s) + |out|
  {
    if a.id == s.nextID {
      DrainIsConsecutive(s.(nextID := Inc64(s.nextID)));
    }
  }

  /** No arrival finds the id unlatched. */
  predicate NeverLatches(s: State, arrivals: seq<Arrival>)
    decreases |arrivals|
  {
    arrivals == [] || (s.nextID != 0 && NeverLatches(Enqueue(s, arrivals[0]).0, arrivals[1..]))
  }

  lemma {:induction false} InOrderIffNeverRelatched(s: State, arrivals: seq<Arrival>)
    requires Ready(s) && forall a | a in arrivals :: a.id != 0
    ensures Consecutive(Due(s), Run(s, arrivals).1) <==> NeverLatches(s, arrivals)
    decreases |arrivals|
  {
    if arrivals != [] {
      var a, rest := arrivals[0], arrivals[1..];
      var (t, now) := Enqueue(s, a);
      var later := Run(t, rest).1;
      assert Run(s, arrivals).1 == now + later;
      if s.nextID == 0 {
        assert now[0] == a && (now + later)[0] == a;
      } else {
        EnqueueIsConsecutive(s, a);
        InOrderIffNeverRelatched(t, rest);
        ConsecutiveConcat(Due(s), now, later);
      }
    }
  }

  function Ids(arrivals: seq<Arrival>): set<uint64> {
    set a | a in arrivals :: a.id
  }

  lemma IdsCons(arrivals: seq<Arrival>)
    requires arrivals != []
    ensures Ids(arrivals) == {arrivals[0].id} + Ids(arrivals[1..])
  {
    assert arrivals == [arrivals[0]] + arrivals[1..];
  }

  /** With ids seen, the id due is the least one from first on that is missing, and those beyond
      it are pending. */
  ghost predicate Positions(s: State, first: uint64, seen: set<uint64>) {
    && 0 < first <= Due(s) && 0 !in seen
    && (forall k: uint64 | first <= k < Due(s) :: k in seen)
    && (s.nextID != 0 ==> s.nextID !in seen)
    && (forall k :: k in s.pending <==> k in seen && k > Due(s))
  }

  /** The same before the drain, when the id due may be among those seen. */
  ghost predicate Draining(s: State, first: uint64, seen: set<uint64>) {
    && 0 < first <= Due(s) && 0 !in seen
    && (forall k: uint64 | first <= k < Due(s) :: k in seen)
    && (forall k :: k in s.pending <==> k in seen && k >= Due(s))
  }

  lemma {:induction false} DrainFindsPositions(s: State, first: uint64, seen: set<uint64>)
    requires Draining(s, first, seen)
    ensures Positions(DrainPending(s).0, first, seen)
    decreases |s.pending|
  {
    if s.nextID in s.pending {
      var next := State(Inc64(s.nextID), s.pending - {s.nextID});
      assert Draining(next, first, seen);
      hide Draining, Positions;
      DrainFindsPositions(next, first, seen);
    }
  }

  lemma EnqueueKeepsPositions(s: State, a: Arrival, first: uint64, seen: set<uint64>)
    requires Positions(s, first, seen) && s.nextID != 0 && a.id != 0
    ensures Positions(Enqueue(s, a).0, first, seen + {a.id})
  {
    if a.id == s.nextID {
      assert Draining(s.(nextID := Inc64(s.nextID)), first, seen + {a.id});
      DrainFindsPositions(s.(nextID := Inc64(s.nextID)), first, seen + {a.id});
    }
    hide DrainPending;
  }

  /** An id from first on has not been seen. */
  ghost predicate Missing(first: uint64, seen: set<uint64>) {
    exists k: uint64 :: first <= k && k !in seen
  }

  lemma LatchedIffMissing(s: State, first: uint64, seen: set<uint64>)
    requires Positions(s, first, seen)
    ensures s.nextID != 0 <==> Missing(first, seen)
  {
    if s.nextID != 0 {
      assert first <= s.nextID && s.nextID !in seen;
    }
  }

  /** The latch does not fire again exactly while, before each arrival, some id is missing. */
  lemma {:induction false} NeverLatchesIffMissing(s: State, arrivals: seq<Arrival>, first: uint64, seen: set<uint64>)
    requires Positions(s, first, seen) && forall a | a in arrivals :: a.id != 0
    ensures NeverLatches(s, arrivals) <==> forall j | 0 <= j < |arrivals| :: Missing(first, seen + Ids(arrivals[..j]))
    decreases |arrivals|
  {
    if arrivals != [] {
      var a, rest := arrivals[0], arrivals[1..];
      assert a in arrivals;
      LatchedIffMissing(s, first, seen);
      assert arrivals[..0] == [] && seen + Ids([]) == seen;
      forall j | 0 <= j < |rest|
        ensures seen + {a.id} + Ids(rest[..j]) == seen + Ids(arrivals[..j + 1])
      {
        assert arrivals[..j + 1][1..] == rest[..j];
        IdsCons(arrivals[..j + 1]);
      }
      if s.nextID != 0 {
        EnqueueKeepsPositions(s, a, first, seen);
        hide Positions, Enqueue, Missing, Ids;
        NeverLatchesIffMissing(Enqueue(s, a).0, rest, first, seen + {a.id});
        ShiftMissing(first, seen, a, rest, arrivals);
      } else {
        assert !Missing(first, seen + Ids(arrivals[..0]));
      }
    }
  }

  lemma ShiftMissing(first: uint64, seen: set<uint64>, a: Arrival, rest: seq<Arrival>, arrivals: seq<Arrival>)
    requires arrivals == [a] + rest && Missing(first, seen + Ids(arrivals[..0]))
    requires forall j | 0 <= j < |rest| :: seen + {a.id} + Ids(rest[..j]) == seen + Ids(arrivals[..j + 1])
    ensures (forall j | 0 <= j < |rest| :: Missing(first, seen + {a.id} + Ids(rest[..j])))
       <==> (forall j | 0 <= j < |arrivals| :: Missing(first, seen + Ids(arrivals[..j])))
  {
    hide Missing, Ids;
    if forall j | 0 <= j < |rest| :: Missing(first, seen + {a.id} + Ids(rest[..j])) {
      forall j | 0 <= j < |arrivals| ensures Missing(first, seen + Ids(arrivals[..j])) {
        if j > 0 {
          assert seen + {a.id} + Ids(rest[..j - 1]) == seen + Ids(arrivals[..j - 1 + 1]);
        }
      }
    }
    if forall j | 0 <= j < |arrivals| :: Missing(first, seen + Ids(arrivals[..j])) {
      forall j | 0 <= j < |rest| ensures Missing(first, seen + {a.id} + Ids(rest[..j])) {
        assert Missing(first, seen + Ids(arrivals[..j + 1]));
      }
    }
  }

  lemma FirstIsLatched(a: Arrival)
    requires a.id != 0
    ensures Enqueue(INITIAL, a) == (State(Inc64(a.id), map[]), [a])
    ensures Ready(State(Inc64(a.id), map[])) && Due(State(Inc64(a.id), map[])) == a.id + 1
  {
    assert [a] + [] == [a];
  }

  /** From the first event on, the ids queued ascend one by one from the one latched, exactly
      as long as each arrival still finds an id missing from there to 2^64 - 1: once that last
      id has been queued the counter is back at 0 and the next arrival is latched afresh. */
  lemma QueuedInOrder(arrivals: seq<Arrival>)
    requires arrivals != [] && forall a | a in arrivals :: a.id != 0
    ensures var out := Run(INITIAL, arrivals).1;
            && out != [] && out[0] == arrivals[0]
            && (Consecutive(arrivals[0].id, out)
                <==> forall j | 1 <= j < |arrivals| :: Missing(arrivals[0].id, Ids(arrivals[..j])))
  {
    hide Run, Enqueue, NeverLatches, Ready, Due, Consecutive, Missing, Ids, LatchesOnce;
    var a, rest := arrivals[0], arrivals[1..];
    assert a in arrivals;
    FirstIsLatched(a);
    var t := State(Inc64(a.id), map[]);
    RunCons(INITIAL, arrivals);
    InOrderIffNeverRelatched(t, rest);
    ConsecutiveConcat(a.id, [a], Run(t, rest).1);
    OneIsConsecutive(a);
    LatchesOnceIffMissing(arrivals);
  }

  lemma LatchesOnceIffMissing(arrivals: seq<Arrival>)
    requires arrivals != [] && forall a | a in arrivals :: a.id != 0
    ensures LatchesOnce(arrivals) <==> NeverLatches(State(Inc64(arrivals[0].id), map[]), arrivals[1..])
    ensures LatchesOnce(arrivals) <==> forall j | 1 <= j < |arrivals| :: Missing(arrivals[0].id, Ids(arrivals[..j]))
  {
    var a, rest := arrivals[0], arrivals[1..];
    assert a in arrivals;
    FirstIsLatched(a);
    var t := State(Inc64(a.id), map[]);
    assert Positions(t, a.id, {a.id});
    NeverLatchesIffMissing(t, rest, a.id, {a.id});
    forall j | 1 <= j < |arrivals| ensures {a.id} + Ids(rest[..j - 1]) == Ids(arrivals[..j]) {
      assert arrivals[..j][1..] == rest[..j - 1];
      IdsCons(arrivals[..j]);
    }
    hide Missing, Ids, NeverLatches, Enqueue;
    if forall j | 1 <= j < |arrivals| :: Missing(a.id, Ids(arrivals[..j])) {
      forall j | 0 <= j < |rest| ensures Missing(a.id, {a.id} + Ids(rest[..j])) {
        assert Missing(a.id, Ids(arrivals[..j + 1])) && {a.id} + Ids(rest[..j + 1 - 1]) == Ids(arrivals[..j + 1]);
      }
    }
    if forall j | 0 <= j < |rest| :: Missing(a.id, {a.id} + Ids(rest[..j])) {
      forall j | 1 <= j < |arrivals| ensures Missing(a.id, Ids(arrivals[..j])) {
        assert Missing(a.id, {a.id} + Ids(rest[..j - 1]));
      }
    }
  }

  lemma OneIsConsecutive(a: Arrival)
    ensures Consecutive(a.id, [a])
  {
  }

  predicate BelowLast(s: State) {
    s.nextID != 0 && forall k | k in s.pending :: k < LAST
  }

  lemma {:induction false} DrainStaysBelow(s: State)
    requires BelowLast(s)
    ensures BelowLast(DrainPending(s).0)
    decreases |s.pending|
  {
    if s.nextID in s.pending {
      DrainStaysBelow(State(Inc64(s.nextID), s.pending - {s.nextID}));
    }
  }

  lemma {:induction false} BelowNeverLatches(s: State, arrivals: seq<Arrival>)
    requires BelowLast(s) && forall a | a in arrivals :: 0 < a.id < LAST
    ensures NeverLatches(s, arrivals)
    decreases |arrivals|
  {
    if arrivals != [] {
      var a := arrivals[0];
      assert a in arrivals;
      if a.id == s.nextID {
        DrainStaysBelow(s.(nextID := Inc64(s.nextID)));
      }
      BelowNeverLatches(Enqueue(s, a).0, arrivals[1..]);
    }
  }

  /** So ids that never reach the last one always queue in order. */
  lemma SmallIdsLatchOnce(arrivals: seq<Arrival>)
    requires arrivals != [] && forall a | a in arrivals :: 0 < a.id < LAST
    ensures LatchesOnce(arrivals)
  {
    assert arrivals[0] in arrivals;
    FirstIsLatched(arrivals[0]);
    BelowNeverLatches(State(Inc64(arrivals[0].id), map[]), arrivals[1..]);
  }

  /** The failing case: the last id of all, twice, is queued twice. */
  lemma LastIdRepeats(e: Event)
    ensures Run(INITIAL, [Arrival(LAST, e), Arrival(LAST, e)]).1 == [Arrival(LAST, e), Arrival(LAST, e)]
  {
    var a := Arrival(LAST, e);
    assert Enqueue(INITIAL, a) == (INITIAL, [a] + []);
    hide Enqueue;
    assert [a, a][1..] == [a] && [a][1..] == [];
    RunCons(INITIAL, [a, a]);
    RunCons(INITIAL, [a]);
    assert Run(INITIAL, []) == (INITIAL, []);
  }

  // ---- what is queued depends only on which events have arrived ----

  /** Copies of an event are equal. */
  predicate Carries(arrivals: seq<Arrival>, events: map<uint64, Event>) {
    forall a | a in arrivals :: 0 < a.id && a.id in events && events[a.id] == a.event
  }

  /** The events first, first + 1, ... before next. */
  function Stretch(events: map<uint64, Event>, first: uint64, next: nat): seq<Arrival>
    requires next <= TWO64
    decreases next
  {
    if next <= first || next - 1 !in events then []
    else Stretch(events, first, next - 1) + [Arrival(next - 1, events[next - 1])]
  }

  /** The events seen are those of the map, also where they are pending. */
  ghost predicate Contents(s: State, seen: set<uint64>, events: map<uint64, Event>) {
    && (forall k | k in seen :: k in events)
    && (forall k | k in s.pending :: k in events && s.pending[k] == events[k])
  }

  ghost predicate Exact(s: State, first: uint64, seen: set<uint64>, events: map<uint64, Event>) {
    Positions(s, first, seen) && Contents(s, seen, events)
  }

  lemma {:induction false} DrainIsExact(s: State, first: uint64, seen: set<uint64>, events: map<uint64, Event>)
    requires Draining(s, first, seen) && Contents(s, seen, events)
    ensures var (t, out) := DrainPending(s);
            && Exact(t, first, seen, events)
            && Stretch(events, first, Due(t)) == Stretch(events, first, Due(s)) + out
    decreases |s.pending|
  {
    if s.nextID in s.pending {
      var next := State(Inc64(s.nextID), s.pending - {s.nextID});
      assert Draining(next, first, seen) && Contents(next, seen, events);
      assert s.pending[s.nextID] == events[s.nextID];
      assert Stretch(events, first, Due(next))
          == Stretch(events, first, Due(s)) + [Arrival(s.nextID, events[s.nextID])];
      DrainIsExact(next, first, seen, events);
      Assoc(Stretch(events, first, Due(s)), [Arrival(s.nextID, events[s.nextID])], DrainPending(next).1);
      hide Draining, Contents, Exact, Stretch, Due;
    }
  }

  lemma EnqueueIsExact(s: State, a: Arrival, first: uint64, seen: set<uint64>, events: map<uint64, Event>)
    requires Exact(s, first, seen, events) && s.nextID != 0
    requires 0 < a.id && a.id in events && events[a.id] == a.event
    ensures var (t, out) := Enqueue(s, a);
            && Exact(t, first, seen + {a.id}, events)
            && Stretch(events, first, Due(t)) == Stretch(events, first, Due(s)) + out
  {
    if a.id == s.nextID {
      var t := s.(nextID := Inc64(s.nextID));
      assert Draining(t, first, seen + {a.id}) && Contents(t, seen + {a.id}, events);
      assert Stretch(events, first, Due(t)) == Stretch(events, first, Due(s)) + [a];
      hide Draining, Contents, Exact, Stretch, Due;
      DrainIsExact(t, first, seen + {a.id}, events);
      Assoc(Stretch(events, first, Due(s)), [a], DrainPending(t).1);
    } else {
      NothingDue(s, a, first, seen, events);
      assert Stretch(events, first, Due(s)) == Stretch(events, first, Due(s)) + [];
    }
  }

  lemma NothingDue(s: State, a: Arrival, first: uint64, seen: set<uint64>, events: map<uint64, Event>)
    requires Exact(s, first, seen, events) && s.nextID != 0 && a.id != s.nextID
    requires 0 < a.id && a.id in events && events[a.id] == a.event
    ensures Enqueue(s, a).1 == [] && Enqueue(s, a).0.nextID == s.nextID
    ensures Exact(Enqueue(s, a).0, first, seen + {a.id}, events)
  {
    hide DrainPending;
  }

  lemma {:induction false} RunIsExact(s: State, arrivals: seq<Arrival>, first: uint64, seen: set<uint64>,
                                      events: map<uint64, Event>)
    requires Exact(s, first, seen, events) && Carries(arrivals, events) && NeverLatches(s, arrivals)
    ensures var (t, out) := Run(s, arrivals);
            && Exact(t, first, seen + Ids(arrivals), events)
            && Stretch(events, first, Due(t)) == Stretch(events, first, Due(s)) + out
    decreases |arrivals|
  {
    if arrivals == [] {
      assert seen + Ids(arrivals) == seen;
      hide Exact, Stretch;
    } else {
      hide Exact, Enqueue, Run, Ids, Stretch, Carries, NeverLatches, Due;
      var t, now := FirstStep(s, arrivals, first, seen, events);
      RunIsExact(t, arrivals[1..], first, seen + {arrivals[0].id}, events);
      RunCons(s, arrivals);
      Assoc(Stretch(events, first, Due(s)), now, Run(t, arrivals[1..]).1);
    }
  }

  lemma FirstStep(s: State, arrivals: seq<Arrival>, first: uint64, seen: set<uint64>, events: map<uint64, Event>)
    returns (t: State, now: seq<Arrival>)
    requires Exact(s, first, seen, events) && arrivals != [] && Carries(arrivals, events) && NeverLatches(s, arrivals)
    ensures NeverLatches(t, arrivals[1..])
    ensures (t, now) == Enqueue(s, arrivals[0])
    ensures Exact(t, first, seen + {arrivals[0].id}, events) && Carries(arrivals[1..], events)
    ensures Stretch(events, first, Due(t)) == Stretch(events, first, Due(s)) + now
    ensures seen + {arrivals[0].id} + Ids(arrivals[1..]) == seen + Ids(arrivals)
  {
    assert s.nextID != 0;
    hide Exact, Enqueue, Ids, Stretch, Carries, Due;
    t, now := Enqueue(s, arrivals[0]).0, Enqueue(s, arrivals[0]).1;
    CarriesCons(arrivals, events);
    EnqueueIsExact(s, arrivals[0], first, seen, events);
    IdsCons(arrivals);
  }

  lemma CarriesCons(arrivals: seq<Arrival>, events: map<uint64, Event>)
    requires arrivals != [] && Carries(arrivals, events)
    ensures var a := arrivals[0];
            0 < a.id && a.id in events && events[a.id] == a.event
    ensures Carries(arrivals[1..], events)
  {
    assert arrivals[0] in arrivals;
  }

  /** Whatever the order and however often events are repeated: queued so far is the unbroken
      stretch of events seen from the first one on, and the rest of what lies ahead waits. */
  lemma QueuedIsTheUnbrokenStretch(arrivals: seq<Arrival>, events: map<uint64, Event>)
    requires arrivals != [] && Carries(arrivals, events) && LatchesOnce(arrivals)
    ensures var (t, out) := Run(INITIAL, arrivals);
            && Exact(t, arrivals[0].id, Ids(arrivals), events)
            && out == Stretch(events, arrivals[0].id, Due(t))
  {
    var a, rest := arrivals[0], arrivals[1..];
    CarriesCons(arrivals, events);
    FirstIsLatched(a);
    var t := State(Inc64(a.id), map[]);
    assert Exact(t, a.id, {a.id}, events);
    assert Stretch(events, a.id, a.id) == [];
    assert Stretch(events, a.id, a.id + 1) == [] + [a];
    assert Due(t) == a.id + 1;
    hide Enqueue, Run, Exact, Ids, Stretch, Carries, Due, NeverLatches;
    RunCons(INITIAL, arrivals);
    IdsCons(arrivals);
    RunIsExact(t, rest, a.id, {a.id}, events);
  }

  /** Reordering makes no difference: with the same first event and the same events seen, the
      same has been queued and the same is pending. */
  lemma OrderOfArrivalIsIrrelevant(xs: seq<Arrival>, ys: seq<Arrival>, events: map<uint64, Event>)
    requires xs != [] && ys != [] && Carries(xs, events) && Carries(ys, events)
    requires LatchesOnce(xs) && LatchesOnce(ys) && xs[0] == ys[0] && Ids(xs) == Ids(ys)
    ensures Run(INITIAL, xs) == Run(INITIAL, ys)
  {
    QueuedIsTheUnbrokenStretch(xs, events);
    QueuedIsTheUnbrokenStretch(ys, events);
    hide Run, Stretch;
    ExactIsUnique(Run(INITIAL, xs).0, Run(INITIAL, ys).0, xs[0].id, Ids(xs), events);
  }

  lemma ExactIsUnique(s: State, t: State, first: uint64, seen: set<uint64>, events: map<uint64, Event>)
    requires Exact(s, first, seen, events) && Exact(t, first, seen, events)
    ensures s == t
  {
    assert Due(s) == Due(t);
    assert s.pending.Keys == t.pending.Keys;
    assert s.pending == t.pending;
  }

  // ---- events without an id ----

  function Numbered(arrivals: seq<Arrival>): seq<Arrival> {
    if arrivals == [] then []
    else (if arrivals[0].id != 0 then [arrivals[0]] else []) + Numbered(arrivals[1..])
  }

  function Unnumbered(arrivals: seq<Arrival>): seq<Arrival> {
    if arrivals == [] then []
    else (if arrivals[0].id == 0 then [arrivals[0]] else []) + Unnumbered(arrivals[1..])
  }

  lemma {:induction false} FiltersConcat(xs: seq<Arrival>, ys: seq<Arrival>)
    ensures Numbered(xs + ys) == Numbered(xs) + Numbered(ys)
    ensures Unnumbered(xs + ys) == Unnumbered(xs) + Unnumbered(ys)
    decreases |xs|
  {
    if xs == [] {
      assert [] + ys == ys;
    } else {
      assert (xs + ys)[1..] == xs[1..] + ys;
      FiltersConcat(xs[1..], ys);
      Assoc(if xs[0].id != 0 then [xs[0]] else [], Numbered(xs[1..]), Numbered(ys));
      Assoc(if xs[0].id == 0 then [xs[0]] else [], Unnumbered(xs[1..]), Unnumbered(ys));
    }
  }

  lemma {:induction false} AllNumbered(out: seq<Arrival>)
    requires forall a | a in out :: a.id != 0
    ensures Numbered(out) == out && Unnumbered(out) == []
    decreases |out|
  {
    if out != [] {
      assert out[0] in out && forall a | a in out[1..] :: a in out;
      AllNumbered(out[1..]);
      assert [out[0]] + out[1..] == out;
    }
  }

  lemma {:induction false} DrainIsNumbered(s: State)
    requires 0 !in s.pending
    ensures 0 !in DrainPending(s).0.pending
    ensures forall a | a in DrainPending(s).1 :: a.id != 0
    decreases |s.pending|
  {
    if s.nextID in s.pending {
      DrainIsNumbered(State(Inc64(s.nextID), s.pending - {s.nextID}));
    }
  }

  lemma EnqueueIsNumbered(s: State, a: Arrival)
    requires 0 !in s.pending && a.id != 0
    ensures 0 !in Enqueue(s, a).0.pending
    ensures Numbered(Enqueue(s, a).1) == Enqueue(s, a).1 && Unnumbered(Enqueue(s, a).1) == []
  {
    var t := if s.nextID == 0 then s.(nextID := a.id) else s;
    DrainIsNumbered(t.(nextID := Inc64(t.nextID)));
    AllNumbered(Enqueue(s, a).1);
  }

  /** Events without an id are all queued, in the order in which they come, and change nothing
      for the others: these are queued, and wait, as if the former had never come. */
  lemma {:induction false} UnnumberedAreQueued(s: State, arrivals: seq<Arrival>)
    requires 0 !in s.pending
    ensures var (t, out) := Run(s, arrivals);
            && Unnumbered(out) == Unnumbered(arrivals)
            && (t, Numbered(out)) == Run(s, Numbered(arrivals))
    decreases |arrivals|
  {
    if arrivals != [] {
      var a, rest := arrivals[0], arrivals[1..];
      var (t, now) := Enqueue(s, a);
      if a.id != 0 {
        EnqueueIsNumbered(s, a);
        assert Numbered(arrivals)[0] == a && Numbered(arrivals)[1..] == Numbered(rest);
        RunCons(s, Numbered(arrivals));
      } else {
        assert [a][1..] == [] && now == [a] && t == s;
        assert Numbered(arrivals) == Numbered(rest) && Numbered(now) == [];
      }
      hide Enqueue;
      UnnumberedAreQueued(t, rest);
      var (u, later) := Run(t, rest);
      FiltersConcat(now, later);
      assert Run(s, arrivals) == (u, now + later);
      if a.id != 0 {
        assert Run(s, Numbered(arrivals)) == (u, now + Numbered(later));
      } else {
        assert Numbered(now + later) == Numbered(later);
      }
    }
  }

  /** And each at once, behind all that was queued before it came. */
  lemma {:induction false} UnnumberedIsQueuedAtOnce(s: State, arrivals: seq<Arrival>, a: Arrival)
    requires a.id == 0
    ensures Run(s, arrivals + [a]) == (Run(s, arrivals).0, Run(s, arrivals).1 + [a])
    decreases |arrivals|
  {
    if arrivals == [] {
      assert ([a])[1..] == [] && [] + [a] == [a] && [a] + [] == [a];
      assert Run(s, []) == (s, []) && Enqueue(s, a) == (s, [a]);
    } else {
      assert (arrivals + [a])[1..] == arrivals[1..] + [a];
      var (t, now) := Enqueue(s, arrivals[0]);
      hide Enqueue;
      UnnumberedIsQueuedAtOnce(t, arrivals[1..], a);
      Assoc(now, Run(t, arrivals[1..]).1, [a]);
    }
  }
}
