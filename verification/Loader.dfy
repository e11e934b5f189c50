/** The Luau loader a bundle starts with (`emitter.rs`), as a state machine.

    A `require` runs in two halves with the module's chunk between them, and while a chunk runs any
    other call may start, finish, fail or be left suspended: chunks call `require` themselves, and a
    coroutine may resume one long after others. */
module Loader {

  type SlotId = nat

  type CallId = nat

  /** Lua values, as far as the loader tells them apart. `false` is a value like any other. */
  datatype LuaValue = NilValue | BoolValue(value: bool) | OtherValue(identity: nat)

  datatype Slot = Absent | Loading | Loaded(value: LuaValue)

  /** `slots` is the private cache; `calls` the requires whose chunk has started and not ended. */
  datatype State = State(slots: map<SlotId, Slot>, calls: map<CallId, SlotId>)

  const START := State(map[], map[])

  datatype Step =
    | Require(call: CallId, slot: SlotId)
    | ChunkReturns(call: CallId, results: seq<LuaValue>)
    | ChunkRaises(call: CallId)

  datatype Event =
    | Started(slot: SlotId)
    | Returned(slot: SlotId, value: LuaValue)
    | Raised(slot: SlotId)

  function SlotOf(s: State, id: SlotId): Slot { if id in s.slots then s.slots[id] else Absent }

  /** A call is named once; a chunk ends once. */
  predicate Enabled(s: State, step: Step) {
    match step
    case Require(call, _) => call !in s.calls
    case ChunkReturns(call, _) => call in s.calls
    case ChunkRaises(call) => call in s.calls
  }

  function Next(s: State, step: Step): (State, Event)
    requires Enabled(s, step)
  {
    match step
    case Require(call, slot) =>
      (match SlotOf(s, slot)
       case Loading => (s, Raised(slot))
       case Loaded(value) => (s, Returned(slot, value))
       case Absent => (State(s.slots[slot := Loading], s.calls[call := slot]), Started(slot)))
    case ChunkReturns(call, results) =>
      var slot := s.calls[call];
      var ended := s.(calls := s.calls - {call});
      if |results| != 1 || results[0] == NilValue then (ended, Raised(slot))
      else (ended.(slots := s.slots[slot := Loaded(results[0])]), Returned(slot, results[0]))
    case ChunkRaises(call) => (s.(calls := s.calls - {call}), Raised(s.calls[call]))
  }

  /** Every step of the run is possible where it is taken. */
  predicate Runs(s: State, steps: seq<Step>)
    decreases |steps|
  {
    steps == [] || (Enabled(s, steps[0]) && Runs(Next(s, steps[0]).0, steps[1..]))
  }

  function After(s: State, steps: seq<Step>): State
    requires Runs(s, steps)
    decreases |steps|
  {
    if steps == [] then s else After(Next(s, steps[0]).0, steps[1..])
  }

  function Trace(s: State, steps: seq<Step>): seq<Event>
    requires Runs(s, steps)
    decreases |steps|
  {
    if steps == [] then [] else [Next(s, steps[0]).1] + Trace(Next(s, steps[0]).0, steps[1..])
  }

  // ----- slots only move forward -----

  /** Absent, then loading, then one value for good. */
  predicate NoEarlier(a: Slot, b: Slot) {
    match a
    case Absent => true
    case Loading => !b.Absent?
    case Loaded(_) => b == a
  }

  /** A chunk that runs has its slot loading, and is the only one for it. */
  predicate Consistent(s: State) {
    && (forall call :: call in s.calls ==> SlotOf(s, s.calls[call]) == Loading)
    && (forall a, b :: a in s.calls && b in s.calls && s.calls[a] == s.calls[b] ==> a == b)
    && (forall id :: id in s.slots ==> !s.slots[id].Absent?)
    && (forall id :: id in s.slots && s.slots[id].Loaded? ==> s.slots[id].value != NilValue)
  }

  lemma StepKeeps(s: State, step: Step)
    requires Consistent(s) && Enabled(s, step)
    ensures Consistent(Next(s, step).0)
    ensures forall id :: NoEarlier(SlotOf(s, id), SlotOf(Next(s, step).0, id))
  {
  }

  lemma {:induction false} SlotsMoveForward(s: State, steps: seq<Step>)
    requires Consistent(s) && Runs(s, steps)
    ensures Consistent(After(s, steps))
    ensures forall id :: NoEarlier(SlotOf(s, id), SlotOf(After(s, steps), id))
    decreases |steps|
  {
    if steps != [] {
      StepKeeps(s, steps[0]);
      SlotsMoveForward(Next(s, steps[0]).0, steps[1..]);
    }
  }

  // ----- what a run does -----

  function Starts(trace: seq<Event>, id: SlotId): nat {
    if trace == [] then 0 else (if trace[0] == Started(id) then 1 else 0) + Starts(trace[1..], id)
  }

  /** A chunk starts exactly when its slot leaves absence: once at most. */
  lemma {:induction false} StartsOnce(s: State, steps: seq<Step>, id: SlotId)
    requires Consistent(s) && Runs(s, steps)
    ensures Starts(Trace(s, steps), id)
            == (if SlotOf(s, id).Absent? && !SlotOf(After(s, steps), id).Absent? then 1 else 0)
    decreases |steps|
  {
    if steps != [] {
      var (next, event) := Next(s, steps[0]);
      StepKeeps(s, steps[0]);
      StartsOnce(next, steps[1..], id);
      SlotsMoveForward(next, steps[1..]);
      var trace := Trace(s, steps);
      assert trace == [event] + Trace(next, steps[1..]);
      assert trace[1..] == Trace(next, steps[1..]);
    }
  }

  /** Whatever a `require` of a slot returns is what the slot holds in the end. */
  lemma {:induction false} ReturnsWhatTheSlotHolds(s: State, steps: seq<Step>, k: nat)
    requires Consistent(s) && Runs(s, steps) && k < |Trace(s, steps)| && Trace(s, steps)[k].Returned?
    ensures var e := Trace(s, steps)[k]; SlotOf(After(s, steps), e.slot) == Loaded(e.value)
    decreases |steps|
  {
    var (next, event) := Next(s, steps[0]);
    StepKeeps(s, steps[0]);
    var trace := Trace(s, steps);
    assert trace == [event] + Trace(next, steps[1..]);
    if k == 0 {
      SlotsMoveForward(next, steps[1..]);
      assert NoEarlier(SlotOf(next, event.slot), SlotOf(After(next, steps[1..]), event.slot));
    } else {
      assert trace[k] == Trace(next, steps[1..])[k - 1];
      ReturnsWhatTheSlotHolds(next, steps[1..], k - 1);
    }
  }

  predicate SameSlotReturns(trace: seq<Event>, i: int, j: int) {
    && 0 <= i < |trace| && 0 <= j < |trace|
    && trace[i].Returned? && trace[j].Returned? && trace[i].slot == trace[j].slot
  }

  /** In every run: no chunk starts twice, and all requires of a slot that succeed return one value,
      which is not nil. */
  lemma LoaderIsMemo(steps: seq<Step>)
    requires Runs(START, steps)
    ensures forall id :: Starts(Trace(START, steps), id) <= 1
    ensures var trace := Trace(START, steps);
            forall i, j :: SameSlotReturns(trace, i, j) ==> trace[i].value == trace[j].value
    ensures var trace := Trace(START, steps);
            forall i :: 0 <= i < |trace| && trace[i].Returned? ==> trace[i].value != NilValue
  {
    forall id
      ensures Starts(Trace(START, steps), id) <= 1
    {
      StartsOnce(START, steps, id);
    }
    SlotsMoveForward(START, steps);
    var trace := Trace(START, steps);
    forall i | 0 <= i < |trace| && trace[i].Returned?
      ensures SlotOf(After(START, steps), trace[i].slot) == Loaded(trace[i].value)
    {
      ReturnsWhatTheSlotHolds(START, steps, i);
    }
  }

  // ----- what a require may be told by what happened before -----

  predicate HasReturned(trace: seq<Event>, id: SlotId) {
    exists k :: 0 <= k < |trace| && trace[k].Returned? && trace[k].slot == id
  }

  /** What a run from `s` has done to a slot can be read off its trace. */
  predicate Tells(before: Slot, trace: seq<Event>, id: SlotId, after: Slot) {
    && (after.Absent? <==> before.Absent? && Started(id) !in trace)
    && (after.Loaded? <==> before.Loaded? || HasReturned(trace, id))
  }

  lemma StepTells(s: State, step: Step, id: SlotId)
    requires Consistent(s) && Enabled(s, step)
    ensures var (next, event) := Next(s, step); Tells(SlotOf(s, id), [event], id, SlotOf(next, id))
  {
    var (next, event) := Next(s, step);
    assert [event][0] == event;
    assert HasReturned([event], id) <==> event.Returned? && event.slot == id;
    assert Started(id) in [event] <==> event == Started(id);
  }

  lemma TellsOn(a: Slot, event: Event, b: Slot, trace: seq<Event>, c: Slot, id: SlotId)
    requires Tells(a, [event], id, b) && Tells(b, trace, id, c)
    ensures Tells(a, [event] + trace, id, c)
  {
    var all := [event] + trace;
    assert all[0] == event && [event][0] == event;
    if HasReturned(trace, id) {
      var k :| 0 <= k < |trace| && trace[k].Returned? && trace[k].slot == id;
      assert all[k + 1] == trace[k];
    }
    if HasReturned(all, id) {
      var k :| 0 <= k < |all| && all[k].Returned? && all[k].slot == id;
      assert if k == 0 then [event][0] == all[k] else trace[k - 1] == all[k];
    }
  }

  lemma {:induction false} TraceTells(s: State, steps: seq<Step>, id: SlotId)
    requires Consistent(s) && Runs(s, steps)
    ensures Tells(SlotOf(s, id), Trace(s, steps), id, SlotOf(After(s, steps), id))
    decreases |steps|
  {
    hide Tells, Consistent, Enabled, Next;
    if steps == [] {
      NothingTold(s, id);
    } else {
      var (next, event) := Next(s, steps[0]);
      StepKeeps(s, steps[0]);
      StepTells(s, steps[0], id);
      TraceTells(next, steps[1..], id);
      TellsOn(SlotOf(s, id), event, SlotOf(next, id), Trace(next, steps[1..]), SlotOf(After(s, steps), id), id);
    }
  }

  lemma NothingTold(s: State, id: SlotId)
    ensures Tells(SlotOf(s, id), [], id, SlotOf(s, id))
  {
  }

  lemma {:induction false} TraceSplits(s: State, steps: seq<Step>, n: nat)
    requires Runs(s, steps) && n < |steps|
    ensures |Trace(s, steps)| == |steps| && Runs(s, steps[..n]) && Enabled(After(s, steps[..n]), steps[n])
    ensures Trace(s, steps)[..n] == Trace(s, steps[..n])
    ensures Trace(s, steps)[n] == Next(After(s, steps[..n]), steps[n]).1
    decreases |steps|
  {
    hide Enabled, Next;
    var (next, event) := Next(s, steps[0]);
    var rest := Trace(next, steps[1..]);
    assert Trace(s, steps) == [event] + rest;
    TraceLength(next, steps[1..]);
    if n == 0 {
      assert steps[..0] == [];
    } else {
      TraceSplits(next, steps[1..], n - 1);
      assert steps[..n][1..] == steps[1..][..n - 1] && steps[..n][0] == steps[0];
      assert Trace(s, steps[..n]) == [event] + Trace(next, steps[..n][1..]);
      assert ([event] + rest)[..n] == [event] + rest[..n - 1];
    }
  }

  lemma {:induction false} TraceLength(s: State, steps: seq<Step>)
    requires Runs(s, steps)
    ensures |Trace(s, steps)| == |steps|
    decreases |steps|
  {
    if steps != [] {
      TraceLength(Next(s, steps[0]).0, steps[1..]);
    }
  }

  /** In every run a require of a slot starts its chunk if and only if no event before it did, returns if
      and only if a require of the slot has returned before, and raises if and only if the chunk has been
      started and no require of the slot has returned: while it runs, and for good once it has failed. */
  lemma ReentryRaises(steps: seq<Step>, n: nat)
    requires Runs(START, steps) && n < |steps| && steps[n].Require?
    ensures |Trace(START, steps)| == |steps|
    ensures var event, before, slot := Trace(START, steps)[n], Trace(START, steps)[..n], steps[n].slot;
            && event.slot == slot
            && (event.Started? <==> Started(slot) !in before)
            && (event.Returned? <==> HasReturned(before, slot))
            && (event.Raised? <==> Started(slot) in before && !HasReturned(before, slot))
  {
    hide HasReturned;
    TraceSplits(START, steps, n);
    TraceTells(START, steps[..n], steps[n].slot);
  }

  /** A slot whose chunk has ended without a value stays loading: it is never tried again. */
  lemma {:induction false} FailureIsFinal(s: State, steps: seq<Step>, id: SlotId)
    requires Consistent(s) && Runs(s, steps)
    requires SlotOf(s, id) == Loading && forall call :: call in s.calls ==> s.calls[call] != id
    ensures SlotOf(After(s, steps), id) == Loading
    decreases |steps|
  {
    if steps != [] {
      StepKeeps(s, steps[0]);
      FailureIsFinal(Next(s, steps[0]).0, steps[1..], id);
    }
  }

  // ----- where a value comes from -----

  lemma {:induction false} AfterLast(s: State, steps: seq<Step>)
    requires Runs(s, steps) && steps != []
    ensures var n := |steps| - 1;
            && Runs(s, steps[..n]) && Enabled(After(s, steps[..n]), steps[n])
            && After(s, steps) == Next(After(s, steps[..n]), steps[n]).0
    decreases |steps|
  {
    hide Enabled, Next;
    var n, next := |steps| - 1, Next(s, steps[0]).0;
    if n == 0 {
      assert steps[..0] == [] && steps[1..] == [];
    } else {
      AfterLast(next, steps[1..]);
      assert steps[..n][1..] == steps[1..][..n - 1] && steps[..n][0] == steps[0];
    }
  }

  /** At `i` the call was made that started the chunk of the slot. */
  predicate StartedAt(steps: seq<Step>, trace: seq<Event>, i: int, call: CallId, slot: SlotId) {
    0 <= i < |steps| && i < |trace| && steps[i] == Require(call, slot) && trace[i] == Started(slot)
  }

  /** A chunk that runs was started by its call. */
  lemma {:induction false} RunningWasStarted(steps: seq<Step>, call: CallId) returns (i: nat)
    requires Runs(START, steps) && call in After(START, steps).calls
    ensures StartedAt(steps, Trace(START, steps), i, call, After(START, steps).calls[call])
    decreases |steps|
  {
    var n := |steps| - 1;
    AfterLast(START, steps);
    TraceSplits(START, steps, n);
    var before := After(START, steps[..n]);
    if call in before.calls {
      i := RunningWasStarted(steps[..n], call);
      assert Trace(START, steps)[i] == Trace(START, steps)[..n][i];
    } else {
      i := n;
    }
  }

  /** A chunk that ends gives its call the one value it returned; any other end raises. */
  lemma ChunkDecides(steps: seq<Step>, n: nat) returns (i: nat, slot: SlotId)
    requires Runs(START, steps) && n < |steps| && !steps[n].Require?
    ensures |Trace(START, steps)| == |steps| && i < n
    ensures StartedAt(steps, Trace(START, steps), i, steps[n].call, slot)
    ensures Trace(START, steps)[n]
            == if steps[n].ChunkReturns? && |steps[n].results| == 1 && steps[n].results[0] != NilValue
               then Returned(slot, steps[n].results[0])
               else Raised(slot)
  {
    hide Runs;
    TraceSplits(START, steps, n);
    var before := After(START, steps[..n]);
    slot := before.calls[steps[n].call];
    i := RunningWasStarted(steps[..n], steps[n].call);
    assert Trace(START, steps)[i] == Trace(START, steps)[..n][i];
  }

  /** Whatever a require returns, a chunk of that slot has returned it, alone, then or before. */
  lemma {:induction false} ValueIsTheChunks(steps: seq<Step>, n: nat) returns (j: nat)
    requires Runs(START, steps) && n < |steps|
    requires |Trace(START, steps)| == |steps| && Trace(START, steps)[n].Returned?
    ensures j <= n && steps[j].ChunkReturns? && Trace(START, steps)[j] == Trace(START, steps)[n]
    ensures steps[j].results == [Trace(START, steps)[n].value]
    decreases n
  {
    hide Runs, Trace;
    var trace := Trace(START, steps);
    if steps[n].Require? {
      ReentryRaises(steps, n);
      var k :| 0 <= k < n && trace[..n][k].Returned? && trace[..n][k].slot == trace[n].slot;
      assert trace[k] == trace[..n][k];
      LoaderIsMemo(steps);
      assert SameSlotReturns(trace, k, n);
      j := ValueIsTheChunks(steps, k);
    } else {
      var i, slot := ChunkDecides(steps, n);
      j := n;
    }
  }
}
