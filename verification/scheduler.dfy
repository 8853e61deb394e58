/** The admission loop of `fetchAllFuelData` as a state machine.

    The loop moves sources from a queue into an `active` list while fewer than
    five are in flight, then awaits `Promise.race(active)`; once the queue is
    empty it awaits `Promise.all(active)` and returns the shared accumulator.
    While the loop is suspended, in-flight fetches end in any order. A fetch
    ending is two steps: the fetch body pushes its records (`Finish`), and a
    later `finally` callback splices it out of `active` (`Release`). The race
    resumes the loop only after some `finally` has run. */
module Scheduler {
  import opened JsValues
  import opened Normalise
  import opened Fetcher

  /** At most this many fetches are in flight. */
  const ConcurrencyLimit: nat := 5

  /** An in-flight fetch: the registry index of its source, and whether its
      body has already run to the end (its records are pushed, its `finally`
      has not run yet). */
  datatype Slot = Slot(id: nat, done: bool)

  /** A source whose fetch body has ended, in the order the bodies ended. */
  datatype Completion = Completion(id: nat, settled: Settled)

  /** Where the loop is: admitting, suspended in the race (and whether a
      `finally` has run since it suspended), suspended in the final
      `Promise.all`, or returned. */
  datatype Phase = Filling | Racing(released: bool) | Draining | Finished

  datatype State = State(
    queue: seq<nat>,
    active: seq<Slot>,
    started: seq<nat>,
    finished: seq<Completion>,
    acc: seq<Value>,
    phase: Phase)

  datatype Event =
    | Admit                               // `queue.shift()` and start its fetch
    | Wait                                // suspend in `Promise.race(active)`
    | Finish(slot: nat, attempt: Attempt) // the fetch in that slot ends its body
    | Release(slot: nat)                  // its `finally` splices it out
    | Resume                              // the race resolved; the loop goes on
    | Return                              // `Promise.all` resolved; return

  /** The indices `lo, lo + 1, ..., hi - 1`. */
  function Range(lo: nat, hi: nat): (r: seq<nat>)
    ensures |r| == if lo <= hi then hi - lo else 0
    ensures forall i :: 0 <= i < |r| ==> r[i] == lo + i
    decreases hi - lo
  {
    if lo >= hi then [] else [lo] + Range(lo + 1, hi)
  }

  function Ids(cs: seq<Completion>): (r: seq<nat>)
    ensures |r| == |cs| && forall i :: 0 <= i < |cs| ==> r[i] == cs[i].id
  {
    seq(|cs|, i requires 0 <= i < |cs| => cs[i].id)
  }

  function Outcomes(cs: seq<Completion>): (r: seq<Settled>)
    ensures |r| == |cs| && forall i :: 0 <= i < |cs| ==> r[i] == cs[i].settled
  {
    seq(|cs|, i requires 0 <= i < |cs| => cs[i].settled)
  }

  /** The sources of the slots whose fetch body has not ended yet. */
  function PendingIds(active: seq<Slot>): (ids: seq<nat>)
    decreases |active|
  {
    if |active| == 0 then []
    else (if active[0].done then [] else [active[0].id]) + PendingIds(active[1..])
  }

  /** `active.splice(k, 1)`. */
  function Remove(active: seq<Slot>, k: nat): (r: seq<Slot>)
    requires k < |active|
    ensures |r| == |active| - 1
  {
    active[..k] + active[k + 1..]
  }

  /** The outer test `while (queue.length > 0)`. */
  function LoopTest(s: State): (t: State) {
    s.(phase := if |s.queue| > 0 then Filling else Draining)
  }

  /** The state on entry: every source queued in registry order, nothing in
      flight, and the accumulator as earlier cycles left it. */
  function Init(n: nat, acc: seq<Value>): (s: State)
    ensures s.queue == Range(0, n) && s.active == [] && s.started == [] && s.finished == []
    ensures s.acc == acc
    ensures s.phase == Filling <==> n > 0
    ensures s.phase == Draining <==> n == 0
  {
    LoopTest(State(Range(0, n), [], [], [], acc, Filling))
  }

  /** One step of the loop or of an in-flight fetch; `None` when the event is
      not possible in `s`. */
  function Next(registry: seq<Source>, s: State, e: Event): (r: Option<State>)
    ensures r.Some? ==> r.value.started + r.value.queue == s.started + s.queue
    ensures r.Some? ==> |r.value.active| <= |s.active| + 1
    ensures r.Some? && |r.value.active| > |s.active| ==> |s.active| < ConcurrencyLimit
    ensures r.Some? ==> |r.value.acc| >= |s.acc| && r.value.acc[..|s.acc|] == s.acc
    ensures r.Some? ==> |s.finished| <= |r.value.finished| <= |s.finished| + 1 && r.value.finished[..|s.finished|] == s.finished
  {
    match e
    case Admit =>
      if s.phase == Filling && |s.active| < ConcurrencyLimit && |s.queue| > 0 then
        assert s.started + [s.queue[0]] + s.queue[1..] == s.started + s.queue;
        Some(s.(queue := s.queue[1..],
                active := s.active + [Slot(s.queue[0], false)],
                started := s.started + [s.queue[0]]))
      else None
    case Wait =>
      if s.phase == Filling && !(|s.active| < ConcurrencyLimit && |s.queue| > 0) then
        Some(s.(phase := Racing(false)))
      else None
    case Finish(k, attempt) =>
      if (s.phase.Racing? || s.phase == Draining) && k < |s.active|
         && !s.active[k].done && s.active[k].id < |registry| then
        var id := s.active[k].id;
        var settled := Settled(registry[id], attempt);
        Some(s.(active := s.active[k := Slot(id, true)],
                finished := s.finished + [Completion(id, settled)],
                acc := Collect(s.acc, [settled])))
      else None
    case Release(k) =>
      if (s.phase.Racing? || s.phase == Draining) && k < |s.active| && s.active[k].done then
        Some(s.(active := Remove(s.active, k),
                phase := if s.phase.Racing? then Racing(true) else s.phase))
      else None
    case Resume =>
      if s.phase == Racing(true) then Some(LoopTest(s)) else None
    case Return =>
      if s.phase == Draining && |s.active| == 0 then Some(s.(phase := Finished)) else None
  }

  /** The state after a sequence of events, or `None` if one was not possible. */
  function Run(registry: seq<Source>, s: State, events: seq<Event>): (r: Option<State>)
    decreases |events|
  {
    if |events| == 0 then Some(s)
    else match Next(registry, s, events[0])
      case None => None
      case Some(t) => Run(registry, t, events[1..])
  }

  /** Admission follows registry order: the started sources, then the queued ones. */
  ghost predicate InOrder(registry: seq<Source>, s: State) {
    s.started + s.queue == Range(0, |registry|)
  }

  /** No more than the limit in flight, each a registry source. */
  ghost predicate Bounded(registry: seq<Source>, s: State) {
    && |s.active| <= ConcurrencyLimit
    && (forall j :: 0 <= j < |s.active| ==> s.active[j].id < |registry|)
  }

  /** Every started source has either ended its body or is pending in a slot,
      and each ended one is recorded with its own registry entry. */
  ghost predicate Accounted(registry: seq<Source>, s: State) {
    && multiset(Ids(s.finished)) + multiset(PendingIds(s.active)) == multiset(s.started)
    && (forall i :: 0 <= i < |s.finished| ==>
          s.finished[i].id < |registry| && s.finished[i].settled.source == registry[s.finished[i].id])
  }

  /** The accumulator is the earlier one followed by the ended fetches' records. */
  ghost predicate Accumulated(acc0: seq<Value>, s: State) {
    s.acc == Collect(acc0, Outcomes(s.finished))
  }

  /** What each phase of the loop implies about the queue and the slots. */
  ghost predicate PhaseFits(s: State) {
    && (s.phase == Filling ==> |s.queue| > 0 || |s.active| > 0)
    && (s.phase == Racing(false) ==> |s.active| > 0)
    && (s.phase == Racing(false) ==> |s.active| == ConcurrencyLimit || |s.queue| == 0)
    && (s.phase == Draining || s.phase == Finished ==> |s.queue| == 0)
    && (s.phase == Finished ==> |s.active| == 0)
  }

  /** What holds in every state the loop can reach from `Init(|registry|, acc0)`. */
  ghost predicate Inv(registry: seq<Source>, acc0: seq<Value>, s: State) {
    && InOrder(registry, s)
    && Bounded(registry, s)
    && Accounted(registry, s)
    && Accumulated(acc0, s)
    && PhaseFits(s)
  }

  lemma {:induction false} PendingConcat(a: seq<Slot>, b: seq<Slot>)
    ensures PendingIds(a + b) == PendingIds(a) + PendingIds(b)
    decreases |a|
  {
    if |a| > 0 {
      assert (a + b)[1..] == a[1..] + b;
      PendingConcat(a[1..], b);
    } else {
      assert a + b == b;
    }
  }

  /** Marking a pending slot as ended takes exactly its source out of the
      pending ones. */
  lemma PendingMark(active: seq<Slot>, k: nat)
    requires k < |active| && !active[k].done
    ensures multiset(PendingIds(active[k := Slot(active[k].id, true)])) + multiset{active[k].id}
            == multiset(PendingIds(active))
  {
    var marked := active[k := Slot(active[k].id, true)];
    assert active == active[..k] + [active[k]] + active[k + 1..];
    assert marked == active[..k] + [marked[k]] + active[k + 1..];
    PendingConcat(active[..k] + [active[k]], active[k + 1..]);
    PendingConcat(active[..k], [active[k]]);
    PendingConcat(active[..k] + [marked[k]], active[k + 1..]);
    PendingConcat(active[..k], [marked[k]]);
  }

  /** Splicing out a slot whose body has ended leaves the pending sources alone. */
  lemma PendingRemoveDone(active: seq<Slot>, k: nat)
    requires k < |active| && active[k].done
    ensures PendingIds(Remove(active, k)) == PendingIds(active)
  {
    var front, back := active[..k], active[k + 1..];
    PendingAround(active, k);
    PendingDoneSlot(active[k]);
    PendingConcat(front, back);
    assert PendingIds(front) + [] == PendingIds(front);
  }

  /** The pending sources of a list split around slot `k`. */
  lemma PendingAround(active: seq<Slot>, k: nat)
    requires k < |active|
    ensures PendingIds(active) == PendingIds(active[..k]) + PendingIds([active[k]]) + PendingIds(active[k + 1..])
  {
    var front, back := active[..k], active[k + 1..];
    assert active == (front + [active[k]]) + back;
    PendingConcat(front + [active[k]], back);
    PendingConcat(front, [active[k]]);
  }

  lemma PendingDoneSlot(slot: Slot)
    requires slot.done
    ensures PendingIds([slot]) == []
  {
    assert [slot][1..] == [];
  }

  /** A split of `Range(0, n)` is a prefix range followed by the rest. */
  lemma RangeSplit(started: seq<nat>, queue: seq<nat>, n: nat)
    requires started + queue == Range(0, n)
    ensures |started| <= n
    ensures started == Range(0, |started|) && queue == Range(|started|, n)
  {
    assert forall i :: 0 <= i < |started| ==> started[i] == (started + queue)[i];
    assert forall i :: 0 <= i < |queue| ==> queue[i] == (started + queue)[|started| + i];
  }

  lemma InitInv(registry: seq<Source>, acc0: seq<Value>)
    ensures Inv(registry, acc0, Init(|registry|, acc0))
  {
    var s := Init(|registry|, acc0);
    assert s.started + s.queue == Range(0, |registry|);
  }

  /** Admitting the head of the queue keeps the order and the accounting. */
  lemma AdmitAccounts(registry: seq<Source>, s: State, t: State)
    requires InOrder(registry, s) && Accounted(registry, s) && |s.queue| > 0
    requires t == s.(queue := s.queue[1..],
                     active := s.active + [Slot(s.queue[0], false)],
                     started := s.started + [s.queue[0]])
    ensures InOrder(registry, t) && Accounted(registry, t) && s.queue[0] < |registry|
  {
    var q := s.queue[0];
    assert s.queue == [q] + s.queue[1..];
    assert t.started + t.queue == s.started + s.queue;
    assert q == (s.started + s.queue)[|s.started|];
    PendingConcat(s.active, [Slot(q, false)]);
    assert multiset(PendingIds(t.active)) == multiset(PendingIds(s.active)) + multiset{q};
    assert multiset(t.started) == multiset(s.started) + multiset{q};
  }

  lemma AdmitInv(registry: seq<Source>, acc0: seq<Value>, s: State, t: State)
    requires Inv(registry, acc0, s)
    requires Next(registry, s, Admit) == Some(t)
    ensures Inv(registry, acc0, t)
  {
    AdmitAccounts(registry, s, t);
  }

  /** Ending the body of a pending slot moves its source from pending to ended. */
  lemma FinishAccounts(registry: seq<Source>, s: State, t: State, k: nat, c: Completion)
    requires Accounted(registry, s)
    requires k < |s.active| && !s.active[k].done
    requires c.id == s.active[k].id < |registry| && c.settled.source == registry[c.id]
    requires t.active == s.active[k := Slot(c.id, true)] && t.finished == s.finished + [c]
    requires t.started == s.started
    ensures Accounted(registry, t)
  {
    FinishMovesPending(s, t, k, c);
    assert forall i :: 0 <= i < |t.finished| ==> t.finished[i] == if i < |s.finished| then s.finished[i] else c;
  }

  lemma FinishMovesPending(s: State, t: State, k: nat, c: Completion)
    requires multiset(Ids(s.finished)) + multiset(PendingIds(s.active)) == multiset(s.started)
    requires k < |s.active| && !s.active[k].done && c.id == s.active[k].id
    requires t.active == s.active[k := Slot(c.id, true)] && t.finished == s.finished + [c]
    requires t.started == s.started
    ensures multiset(Ids(t.finished)) + multiset(PendingIds(t.active)) == multiset(t.started)
  {
    PendingMark(s.active, k);
    assert Ids(t.finished) == Ids(s.finished) + [c.id];
    assert multiset(Ids(t.finished)) == multiset(Ids(s.finished)) + multiset{c.id};
  }

  /** Ending a body pushes exactly its records after everything earlier. */
  lemma FinishAccumulates(acc0: seq<Value>, s: State, t: State, c: Completion)
    requires Accumulated(acc0, s)
    requires t.finished == s.finished + [c] && t.acc == Collect(s.acc, [c.settled])
    ensures Accumulated(acc0, t)
  {
    assert Outcomes(t.finished) == Outcomes(s.finished) + [c.settled];
    CollectTwoCycles(acc0, Outcomes(s.finished), [c.settled]);
  }

  lemma FinishInv(registry: seq<Source>, acc0: seq<Value>, s: State, t: State, k: nat, attempt: Attempt)
    requires Inv(registry, acc0, s)
    requires Next(registry, s, Finish(k, attempt)) == Some(t)
    ensures Inv(registry, acc0, t)
  {
    var c := Completion(s.active[k].id, Settled(registry[s.active[k].id], attempt));
    FinishAccounts(registry, s, t, k, c);
    FinishAccumulates(acc0, s, t, c);
    assert forall j :: 0 <= j < |t.active| ==> t.active[j].id == s.active[j].id;
  }

  lemma ReleaseInv(registry: seq<Source>, acc0: seq<Value>, s: State, t: State, k: nat)
    requires Inv(registry, acc0, s)
    requires Next(registry, s, Release(k)) == Some(t)
    ensures Inv(registry, acc0, t)
  {
    assert forall j :: 0 <= j < |t.active| ==> t.active[j] in s.active;
    PendingRemoveDone(s.active, k);
  }

  /** Every step keeps the invariant. */
  lemma NextInv(registry: seq<Source>, acc0: seq<Value>, s: State, e: Event)
    requires Inv(registry, acc0, s)
    requires Next(registry, s, e).Some?
    ensures Inv(registry, acc0, Next(registry, s, e).value)
  {
    var t := Next(registry, s, e).value;
    match e
    case Admit => AdmitInv(registry, acc0, s, t);
    case Finish(k, attempt) => FinishInv(registry, acc0, s, t, k, attempt);
    case Release(k) => ReleaseInv(registry, acc0, s, t, k);
    case _ =>
  }

  /** Every reachable state keeps the invariant. */
  lemma {:induction false} RunInv(registry: seq<Source>, acc0: seq<Value>, s: State, events: seq<Event>)
    requires Inv(registry, acc0, s)
    ensures Run(registry, s, events).Some? ==> Inv(registry, acc0, Run(registry, s, events).value)
    decreases |events|
  {
    if |events| > 0 && Next(registry, s, events[0]).Some? {
      NextInv(registry, acc0, s, events[0]);
      RunInv(registry, acc0, Next(registry, s, events[0]).value, events[1..]);
    }
  }

  lemma {:induction false} RunSnoc(registry: seq<Source>, s: State, events: seq<Event>, e: Event)
    requires Run(registry, s, events).Some?
    ensures Run(registry, s, events + [e]) == Next(registry, Run(registry, s, events).value, e)
    decreases |events|
  {
    if |events| > 0 {
      assert (events + [e])[0] == events[0];
      assert (events + [e])[1..] == events[1..] + [e];
      RunSnoc(registry, Next(registry, s, events[0]).value, events[1..], e);
    } else {
      assert events + [e] == [e];
    }
  }

  /** In every reachable state, sources have been started in registry order,
      each at most once, and no more than five fetches are in flight. */
  lemma AdmissionBound(registry: seq<Source>, acc0: seq<Value>, events: seq<Event>)
    ensures var t := Run(registry, Init(|registry|, acc0), events);
            t.Some? ==>
              && |t.value.active| <= ConcurrencyLimit
              && |t.value.started| <= |registry|
              && t.value.started == Range(0, |t.value.started|)
              && t.value.queue == Range(|t.value.started|, |registry|)
  {
    InitInv(registry, acc0);
    RunInv(registry, acc0, Init(|registry|, acc0), events);
    var t := Run(registry, Init(|registry|, acc0), events);
    if t.Some? {
      RangeSplit(t.value.started, t.value.queue, |registry|);
    }
  }

  /** The race is never entered with nothing in flight, so it cannot wait
      forever on an empty list. */
  lemma RaceHasSomethingToWaitFor(registry: seq<Source>, acc0: seq<Value>, events: seq<Event>)
    ensures var t := Run(registry, Init(|registry|, acc0), events);
            t.Some? && t.value.phase == Racing(false) ==> |t.value.active| > 0
  {
    InitInv(registry, acc0);
    RunInv(registry, acc0, Init(|registry|, acc0), events);
  }

  /** The loop races only once it has filled every slot or run out of
      sources: it never waits while it could still admit a fetch. */
  lemma RaceOnlyWhenFull(registry: seq<Source>, acc0: seq<Value>, events: seq<Event>)
    ensures var t := Run(registry, Init(|registry|, acc0), events);
            t.Some? && t.value.phase == Racing(false) ==>
              |t.value.active| == ConcurrencyLimit || |t.value.queue| == 0
  {
    InitInv(registry, acc0);
    RunInv(registry, acc0, Init(|registry|, acc0), events);
  }

  /** Once the loop returns, the queue is empty, nothing is in flight, every
      registry source has ended exactly once, and the accumulator is the
      earlier one followed by their records in the order the fetches ended. */
  lemma ReturnsAfterEverySourceSettled(registry: seq<Source>, acc0: seq<Value>, events: seq<Event>)
    ensures var t := Run(registry, Init(|registry|, acc0), events);
            t.Some? && t.value.phase == Finished ==>
              && t.value.queue == []
              && t.value.active == []
              && t.value.started == Range(0, |registry|)
              && multiset(Ids(t.value.finished)) == multiset(Range(0, |registry|))
              && t.value.acc == Collect(acc0, Outcomes(t.value.finished))
              && |t.value.acc| == |acc0| + Added(Outcomes(t.value.finished))
  {
    InitInv(registry, acc0);
    RunInv(registry, acc0, Init(|registry|, acc0), events);
    var t := Run(registry, Init(|registry|, acc0), events);
    if t.Some? && t.value.phase == Finished {
      assert t.value.started + [] == t.value.started;
      assert PendingIds([]) == [];
      CollectLength(acc0, Outcomes(t.value.finished));
    }
  }

  /** The number of records a returned cycle adds is fixed by what each source
      answered, whatever order the fetches ended in. */
  lemma TotalIndependentOfOrder(registry: seq<Source>, acc0: seq<Value>, events1: seq<Event>, events2: seq<Event>)
    requires var t1 := Run(registry, Init(|registry|, acc0), events1);
             var t2 := Run(registry, Init(|registry|, acc0), events2);
             && t1.Some? && t1.value.phase == Finished
             && t2.Some? && t2.value.phase == Finished
             && multiset(Outcomes(t1.value.finished)) == multiset(Outcomes(t2.value.finished))
    ensures |Run(registry, Init(|registry|, acc0), events1).value.acc|
            == |Run(registry, Init(|registry|, acc0), events2).value.acc|
  {
    ReturnsAfterEverySourceSettled(registry, acc0, events1);
    ReturnsAfterEverySourceSettled(registry, acc0, events2);
    AddedOrderIndependent(Outcomes(Run(registry, Init(|registry|, acc0), events1).value.finished),
                          Outcomes(Run(registry, Init(|registry|, acc0), events2).value.finished));
  }

  /** A possible next event: the loop's own step, or else the first in-flight
      fetch ending, with the answer `attempts` gives for its source. */
  function Step(attempts: seq<Attempt>, s: State): (e: Event) {
    match s.phase
    case Filling =>
      if |s.active| < ConcurrencyLimit && |s.queue| > 0 then Admit else Wait
    case Racing(released) =>
      if released then Resume
      else if |s.active| > 0 && s.active[0].done then Release(0)
      else if |s.active| > 0 && s.active[0].id < |attempts| then Finish(0, attempts[s.active[0].id])
      else Finish(0, NetworkError)
    case Draining =>
      if |s.active| == 0 then Return
      else if s.active[0].done then Release(0)
      else if s.active[0].id < |attempts| then Finish(0, attempts[s.active[0].id])
      else Finish(0, NetworkError)
    case Finished => Return
  }

  /** The loop never gets stuck before it returns. */
  lemma NoDeadlock(registry: seq<Source>, attempts: seq<Attempt>, s: State)
    requires Bounded(registry, s) && PhaseFits(s) && s.phase != Finished
    ensures Next(registry, s, Step(attempts, s)).Some?
  {
  }

  /** While the loop is suspended, any in-flight fetch whose body has not
      ended may be the next to end, with any outcome: fetches need not end in
      the order they started. */
  lemma AnyPendingFetchMayEnd(registry: seq<Source>, s: State, k: nat, attempt: Attempt)
    requires Bounded(registry, s)
    requires s.phase.Racing? || s.phase == Draining
    requires k < |s.active| && !s.active[k].done
    ensures Next(registry, s, Finish(k, attempt)).Some?
    ensures Next(registry, s, Finish(k, attempt)).value.finished
            == s.finished + [Completion(s.active[k].id, Settled(registry[s.active[k].id], attempt))]
  {
  }

  /** Likewise, the `finally` of any fetch whose body has ended may be the
      next to run. */
  lemma AnyEndedFetchMayRelease(registry: seq<Source>, s: State, k: nat)
    requires s.phase.Racing? || s.phase == Draining
    requires k < |s.active| && s.active[k].done
    ensures Next(registry, s, Release(k)).Some?
  {
  }

  /** A work measure that every step lowers: queued sources weigh three,
      pending slots two, ended slots one; ties are broken by the phase. */
  function Work(s: State): (w: nat) {
    3 * |s.queue| + |s.active| + |PendingIds(s.active)|
  }

  function PhaseRank(p: Phase): (rank: nat) {
    match p
    case Finished => 0
    case Racing(released) => if released then 3 else 1
    case Draining => 1
    case Filling => 2
  }

  /** Every step lowers the work measure, or keeps it and lowers the phase
      rank: a run of the loop is finite. */
  lemma StepDecreases(registry: seq<Source>, s: State, e: Event)
    requires Next(registry, s, e).Some?
    ensures var t := Next(registry, s, e).value;
            Work(t) < Work(s) || (Work(t) == Work(s) && PhaseRank(t.phase) < PhaseRank(s.phase))
  {
    match e
    case Admit =>
      PendingConcat(s.active, [Slot(s.queue[0], false)]);
    case Finish(k, _) =>
      FinishLowersPending(s.active, k);
    case Release(k) =>
      PendingRemoveDone(s.active, k);
    case _ =>
  }

  /** Marking a pending slot as ended leaves one pending source fewer. */
  lemma FinishLowersPending(active: seq<Slot>, k: nat)
    requires k < |active| && !active[k].done
    ensures |PendingIds(active[k := Slot(active[k].id, true)])| + 1 == |PendingIds(active)|
  {
    PendingMark(active, k);
    var marked := active[k := Slot(active[k].id, true)];
    assert |multiset(PendingIds(marked))| + 1 == |multiset(PendingIds(active))|;
  }

  /** Each ended source answered as `attempts` says. */
  ghost predicate AnsweredAs(attempts: seq<Attempt>, s: State) {
    forall i :: 0 <= i < |s.finished| ==>
      s.finished[i].id < |attempts| && s.finished[i].settled.attempt == attempts[s.finished[i].id]
  }

  /** One turn of the run below: the chosen event is possible, keeps the
      invariant and the answers, extends the trace and lowers the measure. */
  lemma Advance(registry: seq<Source>, attempts: seq<Attempt>, acc0: seq<Value>, s: State, trace: seq<Event>)
    requires |attempts| == |registry|
    requires Inv(registry, acc0, s) && AnsweredAs(attempts, s) && s.phase != Finished
    requires Run(registry, Init(|registry|, acc0), trace) == Some(s)
    ensures var e := Step(attempts, s);
            var t := Next(registry, s, e);
            && t.Some?
            && Inv(registry, acc0, t.value)
            && AnsweredAs(attempts, t.value)
            && Run(registry, Init(|registry|, acc0), trace + [e]) == t
            && (Work(t.value) < Work(s) || (Work(t.value) == Work(s) && PhaseRank(t.value.phase) < PhaseRank(s.phase)))
  {
    var e := Step(attempts, s);
    NoDeadlock(registry, attempts, s);
    NextInv(registry, acc0, s, e);
    StepDecreases(registry, s, e);
    RunSnoc(registry, Init(|registry|, acc0), trace, e);
    StepAnswers(registry, attempts, s);
  }

  lemma StepAnswers(registry: seq<Source>, attempts: seq<Attempt>, s: State)
    requires |attempts| == |registry| && AnsweredAs(attempts, s)
    requires Next(registry, s, Step(attempts, s)).Some?
    ensures AnsweredAs(attempts, Next(registry, s, Step(attempts, s)).value)
  {
    var e := Step(attempts, s);
    var t := Next(registry, s, e).value;
    if e.Finish? {
      assert t.finished == s.finished + [Completion(s.active[e.slot].id, Settled(registry[s.active[e.slot].id], e.attempt))];
      assert e.slot == 0;
      assert forall i :: 0 <= i < |s.finished| ==> t.finished[i] == s.finished[i];
    } else {
      assert t.finished == s.finished;
    }
  }

  /** What the run below knows once the loop has returned. */
  lemma Returned(registry: seq<Source>, attempts: seq<Attempt>, acc0: seq<Value>, s: State, trace: seq<Event>)
    requires |attempts| == |registry|
    requires Inv(registry, acc0, s) && AnsweredAs(attempts, s) && s.phase == Finished
    requires Run(registry, Init(|registry|, acc0), trace) == Some(s)
    ensures s.acc == Collect(acc0, Outcomes(s.finished))
    ensures multiset(Ids(s.finished)) == multiset(Range(0, |registry|))
    ensures forall i :: 0 <= i < |s.finished| ==>
              s.finished[i].id < |registry| && s.finished[i].settled == Settled(registry[s.finished[i].id], attempts[s.finished[i].id])
  {
    ReturnsAfterEverySourceSettled(registry, acc0, trace);
    assert Accounted(registry, s);
  }

  /** `fetchAllFuelData` run to its return, with each source answering as
      `attempts` says and fetches ending first-started-first. */
  method FetchAllFuelData(registry: seq<Source>, attempts: seq<Attempt>, acc0: seq<Value>)
    returns (stations: seq<Value>, order: seq<Completion>, trace: seq<Event>)
    requires |attempts| == |registry|
    ensures var t := Run(registry, Init(|registry|, acc0), trace);
            t.Some? && t.value.phase == Finished && t.value.acc == stations && t.value.finished == order
    ensures stations == Collect(acc0, Outcomes(order))
    ensures multiset(Ids(order)) == multiset(Range(0, |registry|))
    ensures forall i :: 0 <= i < |order| ==>
              order[i].id < |registry| && order[i].settled == Settled(registry[order[i].id], attempts[order[i].id])
  {
    var s := Init(|registry|, acc0);
    trace := [];
    InitInv(registry, acc0);
    while s.phase != Finished
      invariant Inv(registry, acc0, s)
      invariant AnsweredAs(attempts, s)
      invariant Run(registry, Init(|registry|, acc0), trace) == Some(s)
      decreases Work(s), PhaseRank(s.phase)
    {
      var e := Step(attempts, s);
      Advance(registry, attempts, acc0, s, trace);
      s := Next(registry, s, e).value;
      trace := trace + [e];
    }
    Returned(registry, attempts, acc0, s, trace);
    stations := s.acc;
    order := s.finished;
  }
}
