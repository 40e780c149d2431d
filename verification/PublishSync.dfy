/**
 One call of PublishSync, step by step, against everything that can go on around it: its
 handler goroutines in any interleaving, and other callers that subscribe (possibly
 appending in place to the very array being read), unsubscribe or clear the bus.
 */
module PublishSync {
  import opened Events
  import opened GoSlices
  import opened Wrappers

  type Error = string

  /** A goroutine runs its handler, sends the handler's error if there is one, and then
      leaves the wait group. */
  datatype Status =
    | Running
    | Failing(err: Error)
    | Leaving(result: Option<Error>)
    | Gone(result: Option<Error>)

  datatype Goroutine = Goroutine(handler: Handler, status: Status)

  datatype Phase = Spawning | Waiting | Draining | Returned

  /** The bus, then the local variables of the call. The slice handlers is the snapshot
      taken under the read lock; expected is what it showed at that moment. */
  datatype State = State(
    heap: Heap<Handler>,
    subscribers: map<string, Slice>,
    handlers: Slice,
    expected: seq<Handler>,
    phase: Phase,
    added: bool,
    spawned: seq<Goroutine>,
    wg: int,
    channel: seq<Error>,
    closed: bool,
    errors: seq<Error>)

  /** The capacity the error channel was made with. */
  function Capacity(s: State): nat { s.handlers.len }

  datatype Step =
    | Add                          // wg.Add(1)
    | Go                           // read the next handler, start its goroutine
    | EndLoop
    | Return(i: nat, result: Option<Error>)
    | Send(i: nat)                 // errChan <- err
    | Done(i: nat)                 // wg.Done()
    | Close                        // wg.Wait() falls through, close(errChan)
    | Receive
    | Finish
    | Subscribe(eventType: string, handler: Handler, spare: seq<Handler>)
    | Unsubscribe(eventType: string)
    | Clear

  predicate IsBusStep(step: Step) {
    step.Subscribe? || step.Unsubscribe? || step.Clear?
  }

  function WithStatus(s: State, i: nat, status: Status): seq<Goroutine>
    requires i < |s.spawned|
  {
    s.spawned[i := s.spawned[i].(status := status)]
  }

  /** The state the call begins in, while it holds the read lock. */
  ghost predicate Init(s: State, eventType: string) {
    && Separate(s.heap, s.subscribers)
    && s.handlers == At(s.subscribers, eventType)
    && ValidSlice(s.heap, s.handlers)
    && s.expected == View(s.heap, s.handlers)
    && s.phase == (if s.handlers.len == 0 then Returned else Spawning)
    && !s.added && s.spawned == [] && s.wg == 0 && s.channel == [] && s.errors == []
    && s.closed == (s.handlers.len == 0)
  }

  /** The guard of each step; a goroutine that wants to send is held up while the
      channel is full, and may not send at all on a closed channel. */
  ghost predicate Enabled(s: State, step: Step) {
    match step
    case Add => s.phase == Spawning && !s.added && |s.spawned| < s.handlers.len
    case Go => s.phase == Spawning && s.added && |s.spawned| < s.handlers.len
    case EndLoop => s.phase == Spawning && !s.added && |s.spawned| == s.handlers.len
    case Return(i, _) => i < |s.spawned| && s.spawned[i].status.Running?
    case Send(i) => i < |s.spawned| && s.spawned[i].status.Failing? && !s.closed && |s.channel| < Capacity(s)
    case Done(i) => i < |s.spawned| && s.spawned[i].status.Leaving? && s.wg > 0
    case Close => s.phase == Waiting && s.wg == 0
    case Receive => s.phase == Draining && s.channel != []
    case Finish => s.phase == Draining && s.channel == []
    case Subscribe(t, h, spare) => ValidHeap(s.heap) && ValidSlice(s.heap, At(s.subscribers, t))
    case Unsubscribe(_) => true
    case Clear => true
  }

  /** The handler read from shared memory at this moment. */
  function CellAt(heap: Heap<Handler>, arr: nat, i: nat): Handler {
    if arr < |heap| && i < |heap[arr]| then heap[arr][i] else 0
  }

  function After(s: State, step: Step): State
    requires Enabled(s, step)
  {
    match step
    case Add => s.(wg := s.wg + 1, added := true)
    case Go =>
      s.(spawned := s.spawned + [Goroutine(CellAt(s.heap, s.handlers.arr, |s.spawned|), Running)], added := false)
    case EndLoop => s.(phase := Waiting)
    case Return(i, result) =>
      s.(spawned := WithStatus(s, i, if result.Some? then Failing(result.value) else Leaving(None)))
    case Send(i) =>
      var err := s.spawned[i].status.err;
      s.(spawned := WithStatus(s, i, Leaving(Some(err))), channel := s.channel + [err])
    case Done(i) => s.(spawned := WithStatus(s, i, Gone(s.spawned[i].status.result)), wg := s.wg - 1)
    case Close => s.(phase := Draining, closed := true)
    case Receive => s.(errors := s.errors + [s.channel[0]], channel := s.channel[1..])
    case Finish => s.(phase := Returned)
    case Subscribe(t, h, spare) =>
      var (heap, slice) := Append(s.heap, At(s.subscribers, t), h, spare);
      s.(heap := heap, subscribers := s.subscribers[t := slice])
    case Unsubscribe(t) => s.(subscribers := s.subscribers - {t})
    case Clear => s.(subscribers := map[])
  }

  ghost predicate Next(s: State, step: Step, s': State) {
    Enabled(s, step) && s' == After(s, step)
  }

  ghost predicate Run(eventType: string, states: seq<State>, steps: seq<Step>) {
    && |states| == |steps| + 1
    && Init(states[0], eventType)
    && forall i :: 0 <= i < |steps| ==> Next(states[i], steps[i], states[i + 1])
  }

  // ----- Counting goroutines -----

  /** The goroutines that have not left the wait group. */
  function Live(gs: seq<Goroutine>): nat {
    if gs == [] then 0 else Live(gs[..|gs| - 1]) + LiveOne(gs[|gs| - 1])
  }

  function LiveOne(g: Goroutine): nat { if g.status.Gone? then 0 else 1 }

  /** How often the error e has been sent so far. */
  function SentOf(gs: seq<Goroutine>, e: Error): nat {
    if gs == [] then 0 else SentOf(gs[..|gs| - 1], e) + SentOne(gs[|gs| - 1], e)
  }

  function SentOne(g: Goroutine, e: Error): nat {
    if HasSent(g) && g.status.result.value == e then 1 else 0
  }

  predicate HasSent(g: Goroutine) {
    (g.status.Leaving? || g.status.Gone?) && g.status.result.Some?
  }

  /** How many errors have been sent so far. */
  function SentAll(gs: seq<Goroutine>): nat {
    if gs == [] then 0 else SentAll(gs[..|gs| - 1]) + if HasSent(gs[|gs| - 1]) then 1 else 0
  }

  /** How many protocol steps the goroutines still have before them, at most. */
  function Work(gs: seq<Goroutine>): nat {
    if gs == [] then 0 else Work(gs[..|gs| - 1]) + WorkOne(gs[|gs| - 1])
  }

  function WorkOne(g: Goroutine): nat {
    match g.status
    case Running => 4
    case Failing(_) => 3
    case Leaving(_) => 1
    case Gone(_) => 0
  }

  lemma {:induction false} CountsAfterUpdate(gs: seq<Goroutine>, i: nat, g: Goroutine)
    requires i < |gs|
    ensures Live(gs[i := g]) + LiveOne(gs[i]) == Live(gs) + LiveOne(g)
    ensures Work(gs[i := g]) + WorkOne(gs[i]) == Work(gs) + WorkOne(g)
    ensures SentAll(gs[i := g]) + (if HasSent(gs[i]) then 1 else 0) == SentAll(gs) + (if HasSent(g) then 1 else 0)
  {
    var n := |gs| - 1;
    if i < n {
      CountsAfterUpdate(gs[..n], i, g);
      assert gs[i := g][..n] == gs[..n][i := g];
    } else {
      assert gs[i := g][..n] == gs[..n];
    }
  }

  lemma {:induction false} SentAfterUpdate(gs: seq<Goroutine>, i: nat, g: Goroutine, e: Error)
    requires i < |gs|
    ensures SentOf(gs[i := g], e) + SentOne(gs[i], e) == SentOf(gs, e) + SentOne(g, e)
  {
    var n := |gs| - 1;
    if i < n {
      SentAfterUpdate(gs[..n], i, g, e);
      assert gs[i := g][..n] == gs[..n][i := g];
    } else {
      assert gs[i := g][..n] == gs[..n];
    }
  }

  lemma CountsAfterSpawn(gs: seq<Goroutine>, g: Goroutine)
    ensures Live(gs + [g]) == Live(gs) + LiveOne(g)
    ensures Work(gs + [g]) == Work(gs) + WorkOne(g)
    ensures SentAll(gs + [g]) == SentAll(gs) + (if HasSent(g) then 1 else 0)
    ensures forall e :: SentOf(gs + [g], e) == SentOf(gs, e) + SentOne(g, e)
  {
    assert (gs + [g])[..|gs|] == gs;
  }

  /** Each goroutine sends at most one error; one that has sent none leaves room. */
  lemma {:induction false} SentBound(gs: seq<Goroutine>)
    ensures SentAll(gs) <= |gs|
    ensures (exists i :: 0 <= i < |gs| && !HasSent(gs[i])) ==> SentAll(gs) < |gs|
    ensures SentAll(gs) == 0 <==> forall i :: 0 <= i < |gs| ==> !HasSent(gs[i])
  {
    if gs != [] {
      SentBound(gs[..|gs| - 1]);
    }
  }

  lemma {:induction false} LiveZero(gs: seq<Goroutine>)
    ensures Live(gs) == 0 <==> forall i :: 0 <= i < |gs| ==> gs[i].status.Gone?
  {
    if gs != [] {
      LiveZero(gs[..|gs| - 1]);
    }
  }

  // ----- The invariant -----

  /** The snapshot still shows what it showed, and any list of subscribers that shares
      its array extends it. */
  ghost predicate SnapshotHolds(heap: Heap<Handler>, subscribers: map<string, Slice>, handlers: Slice,
                                expected: seq<Handler>)
  {
    && Separate(heap, subscribers)
    && ValidSlice(heap, handlers)
    && View(heap, handlers) == expected
    && (forall t :: t in subscribers && subscribers[t].arr == handlers.arr ==> subscribers[t].len >= handlers.len)
  }

  function Occurs(errors: seq<Error>, e: Error): nat {
    multiset(errors)[e]
  }

  ghost predicate Counts(s: State) {
    && s.wg == Live(s.spawned) + (if s.added then 1 else 0)
    && (forall e :: Occurs(s.errors, e) + Occurs(s.channel, e) == SentOf(s.spawned, e))
    && |s.errors| + |s.channel| == SentAll(s.spawned)
    && (s.closed <==> s.phase == Draining || s.phase == Returned)
    && (s.phase != Spawning ==> |s.spawned| == s.handlers.len && !s.added)
    && (s.added ==> |s.spawned| < s.handlers.len)
    && (s.closed ==> Live(s.spawned) == 0)
    && (s.phase == Returned ==> s.channel == [])
  }

  ghost predicate RunsSnapshot(spawned: seq<Goroutine>, expected: seq<Handler>) {
    && |spawned| <= |expected|
    && forall i :: 0 <= i < |spawned| ==> spawned[i].handler == expected[i]
  }

  ghost predicate Inv(s: State) {
    && SnapshotHolds(s.heap, s.subscribers, s.handlers, s.expected)
    && Counts(s)
    && RunsSnapshot(s.spawned, s.expected)
  }

  lemma SubscribeKeepsSnapshot(s: State, t: string, h: Handler, spare: seq<Handler>)
    requires SnapshotHolds(s.heap, s.subscribers, s.handlers, s.expected) && Enabled(s, Subscribe(t, h, spare))
    ensures var s' := After(s, Subscribe(t, h, spare));
      SnapshotHolds(s'.heap, s'.subscribers, s.handlers, s.expected)
  {
    AppendAtKey(s.heap, s.subscribers, t, h, spare);
    AppendKeeps(s.heap, At(s.subscribers, t), h, spare, s.handlers);
  }

  /** The goroutines' own steps keep the counts. */
  lemma ReturnCounts(s: State, i: nat, result: Option<Error>)
    requires Counts(s) && Enabled(s, Return(i, result))
    ensures Counts(After(s, Return(i, result)))
  {
    var s' := After(s, Return(i, result));
    CountsAfterUpdate(s.spawned, i, s'.spawned[i]);
    forall e ensures SentOf(s'.spawned, e) == SentOf(s.spawned, e) {
      SentAfterUpdate(s.spawned, i, s'.spawned[i], e);
    }
    LiveZero(s.spawned);
  }

  lemma SendCounts(s: State, i: nat)
    requires Counts(s) && Enabled(s, Send(i))
    ensures Counts(After(s, Send(i)))
  {
    var s' := After(s, Send(i));
    var err := s.spawned[i].status.err;
    CountsAfterUpdate(s.spawned, i, s'.spawned[i]);
    forall e ensures Occurs(s'.channel, e) == Occurs(s.channel, e) + if e == err then 1 else 0
      ensures SentOf(s'.spawned, e) == SentOf(s.spawned, e) + if e == err then 1 else 0
    {
      SentAfterUpdate(s.spawned, i, s'.spawned[i], e);
    }
  }

  lemma DoneCounts(s: State, i: nat)
    requires Counts(s) && Enabled(s, Done(i))
    ensures Counts(After(s, Done(i)))
  {
    var s' := After(s, Done(i));
    CountsAfterUpdate(s.spawned, i, s'.spawned[i]);
    forall e ensures SentOf(s'.spawned, e) == SentOf(s.spawned, e) {
      SentAfterUpdate(s.spawned, i, s'.spawned[i], e);
    }
    LiveZero(s.spawned);
  }

  lemma SpawnKeeps(s: State)
    requires Inv(s) && Enabled(s, Go)
    ensures Counts(After(s, Go)) && RunsSnapshot(After(s, Go).spawned, s.expected)
  {
    CountsAfterSpawn(s.spawned, Goroutine(CellAt(s.heap, s.handlers.arr, |s.spawned|), Running));
    assert View(s.heap, s.handlers)[|s.spawned|] == s.expected[|s.spawned|];
  }

  lemma ReceiveKeeps(s: State)
    requires Counts(s) && Enabled(s, Receive)
    ensures Counts(After(s, Receive))
  {
    var s' := After(s, Receive);
    assert s.channel == [s.channel[0]] + s.channel[1..];
    forall e ensures Occurs(s'.errors, e) + Occurs(s'.channel, e) == Occurs(s.errors, e) + Occurs(s.channel, e) {
      assert Occurs(s.channel, e) == (if e == s.channel[0] then 1 else 0) + Occurs(s'.channel, e);
    }
  }

  lemma PublisherCounts(s: State, step: Step)
    requires Counts(s) && Enabled(s, step) && (step.Add? || step.EndLoop? || step.Close? || step.Finish?)
    ensures Counts(After(s, step))
  {
  }

  lemma BusStepKeeps(s: State, step: Step)
    requires Inv(s) && Enabled(s, step) && IsBusStep(step)
    ensures Inv(After(s, step))
  {
    if step.Subscribe? {
      SubscribeKeepsSnapshot(s, step.eventType, step.handler, step.spare);
    }
  }

  lemma LocalStepCounts(s: State, step: Step)
    requires Inv(s) && Enabled(s, step) && !IsBusStep(step)
    ensures Counts(After(s, step))
  {
    match step
    case Go => SpawnKeeps(s);
    case Return(i, result) => ReturnCounts(s, i, result);
    case Send(i) => SendCounts(s, i);
    case Done(i) => DoneCounts(s, i);
    case Receive => ReceiveKeeps(s);
    case _ => PublisherCounts(s, step);
  }

  lemma LocalStepRuns(s: State, step: Step)
    requires Inv(s) && Enabled(s, step) && !IsBusStep(step)
    ensures RunsSnapshot(After(s, step).spawned, s.expected)
  {
    if step.Go? {
      SpawnKeeps(s);
    }
  }

  lemma NextKeeps(s: State, step: Step)
    requires Inv(s) && Enabled(s, step)
    ensures Inv(After(s, step))
  {
    if IsBusStep(step) {
      BusStepKeeps(s, step);
    } else {
      LocalStepCounts(s, step);
      LocalStepRuns(s, step);
    }
  }

  lemma {:induction false} InvAlways(eventType: string, states: seq<State>, steps: seq<Step>, n: nat)
    requires Run(eventType, states, steps) && n < |states|
    ensures Inv(states[n])
    ensures n > 0 ==> states[n].expected == states[0].expected && states[n].handlers == states[0].handlers
  {
    if n > 0 {
      InvAlways(eventType, states, steps, n - 1);
      assert Next(states[n - 1], steps[n - 1], states[n]);
      NextKeeps(states[n - 1], steps[n - 1]);
    }
  }

  // ----- What every run guarantees -----

  /** In every reachable state the wait count is the number of goroutines announced and
      not yet gone; a goroutine with an error to send finds the channel open and with
      room; and one that calls wg.Done finds a positive count. */
  lemma NeverBlocksNorPanics(eventType: string, states: seq<State>, steps: seq<Step>, n: nat, i: nat)
    requires Run(eventType, states, steps) && n < |states| && i < |states[n].spawned|
    ensures var s := states[n];
      && s.wg == Live(s.spawned) + (if s.added then 1 else 0)
      && (s.spawned[i].status.Failing? ==> Enabled(s, Send(i)))
      && (s.spawned[i].status.Leaving? ==> Enabled(s, Done(i)))
  {
    InvAlways(eventType, states, steps, n);
    var s := states[n];
    LiveZero(s.spawned);
    SentBound(s.spawned);
    assert s.spawned[i].status.Failing? ==> !HasSent(s.spawned[i]);
  }

  /** The handlers called, in the order of their goroutines. */
  function Called(gs: seq<Goroutine>): seq<Handler> {
    seq(|gs|, i requires 0 <= i < |gs| => gs[i].handler)
  }

  /** In every reachable state the goroutines started so far run the first handlers of the
      snapshot, in order; once the loop has ended, all of them. Publish starts its
      handlers with the same loop. */
  lemma DispatchIsIsolated(eventType: string, states: seq<State>, steps: seq<Step>, n: nat)
    requires Run(eventType, states, steps) && n < |states|
    ensures var snapshot := View(states[0].heap, states[0].handlers);
      && Called(states[n].spawned) <= snapshot
      && (states[n].phase != Spawning ==> Called(states[n].spawned) == snapshot)
  {
    InvAlways(eventType, states, steps, n);
  }

  /** When the call returns, the handlers that were subscribed when it took the read lock
      have each run to their end, once, whatever happened to the bus since; the errors
      collected are exactly theirs; and it reports success exactly when none failed. */
  lemma ReturnIsExact(eventType: string, states: seq<State>, steps: seq<Step>, n: nat)
    requires Run(eventType, states, steps) && n < |states| && states[n].phase == Returned
    ensures var s, start := states[n], states[0];
      && ValidSlice(start.heap, At(start.subscribers, eventType))
      && Called(s.spawned) == View(start.heap, At(start.subscribers, eventType))
      && (forall i :: 0 <= i < |s.spawned| ==> s.spawned[i].status.Gone?)
      && (forall e :: multiset(s.errors)[e] == Failures(s.spawned, e))
      && (s.errors == [] <==> forall i :: 0 <= i < |s.spawned| ==> s.spawned[i].status == Gone(None))
  {
    InvAlways(eventType, states, steps, n);
    var s := states[n];
    LiveZero(s.spawned);
    SentBound(s.spawned);
    forall e ensures multiset(s.errors)[e] == Failures(s.spawned, e) {
      SentIsFailures(s.spawned, e);
      assert Occurs(s.errors, e) + Occurs(s.channel, e) == SentOf(s.spawned, e);
    }
  }

  /** How many handlers failed with error e. */
  function Failures(gs: seq<Goroutine>, e: Error): nat {
    if gs == [] then 0
    else Failures(gs[..|gs| - 1], e) + if gs[|gs| - 1].status == Gone(Some(e)) then 1 else 0
  }

  lemma {:induction false} SentIsFailures(gs: seq<Goroutine>, e: Error)
    requires forall i :: 0 <= i < |gs| ==> gs[i].status.Gone?
    ensures SentOf(gs, e) == Failures(gs, e)
  {
    if gs != [] {
      SentIsFailures(gs[..|gs| - 1], e);
    }
  }

  /** In every reachable state before the return some step of the call or of one of its
      goroutines can be taken: there is no deadlock. */
  lemma NoDeadlock(eventType: string, states: seq<State>, steps: seq<Step>, n: nat) returns (step: Step)
    requires Run(eventType, states, steps) && n < |states| && states[n].phase != Returned
    ensures !IsBusStep(step) && Enabled(states[n], step)
  {
    InvAlways(eventType, states, steps, n);
    var s := states[n];
    LiveZero(s.spawned);
    match s.phase
    case Spawning =>
      step := if s.added then Go else if |s.spawned| < s.handlers.len then Add else EndLoop;
    case Waiting =>
      if s.wg == 0 {
        step := Close;
      } else {
        var i :| 0 <= i < |s.spawned| && !s.spawned[i].status.Gone?;
        NeverBlocksNorPanics(eventType, states, steps, n, i);
        step := match s.spawned[i].status
          case Running => Return(i, None)
          case Failing(_) => Send(i)
          case Leaving(_) => Done(i)
          case Gone(_) => Close;
      }
    case Draining =>
      step := if s.channel == [] then Finish else Receive;
  }

  /** Bounds the steps that remain. */
  function Remaining(s: State): int {
    6 * (s.handlers.len - |s.spawned|) - (if s.added then 1 else 0) + Work(s.spawned) + |s.channel| +
    match s.phase case Spawning => 3 case Waiting => 2 case Draining => 1 case Returned => 0
  }

  /** Every step of the call or of its goroutines reduces what remains; changes to the
      bus leave it alone. */
  lemma EveryStepCounts(s: State, step: Step)
    requires Enabled(s, step) && |s.spawned| <= s.handlers.len
    ensures if IsBusStep(step) then Remaining(After(s, step)) == Remaining(s)
            else Remaining(After(s, step)) < Remaining(s)
  {
    if step.Go? {
      SpawnCounts(s);
    } else if step.Return? || step.Send? || step.Done? {
      GoroutineWorks(s, step, step.i);
    } else if IsBusStep(step) {
      BusStepFree(s, step);
    }
  }

  lemma SpawnCounts(s: State)
    requires Enabled(s, Go)
    ensures Remaining(After(s, Go)) < Remaining(s)
  {
    CountsAfterSpawn(s.spawned, Goroutine(CellAt(s.heap, s.handlers.arr, |s.spawned|), Running));
  }

  lemma BusStepFree(s: State, step: Step)
    requires Enabled(s, step) && IsBusStep(step)
    ensures Remaining(After(s, step)) == Remaining(s)
  {
  }

  lemma GoroutineWorks(s: State, step: Step, i: nat)
    requires Enabled(s, step)
    requires match step case Return(k, _) => k == i case Send(k) => k == i case Done(k) => k == i case _ => false
    ensures Work(After(s, step).spawned) + (if step.Send? then 1 else 0) < Work(s.spawned)
  {
    CountsAfterUpdate(s.spawned, i, After(s, step).spawned[i]);
  }

  function ProtocolSteps(steps: seq<Step>): nat {
    if steps == [] then 0
    else ProtocolSteps(steps[..|steps| - 1]) + if IsBusStep(steps[|steps| - 1]) then 0 else 1
  }

  /** Termination, if handlers terminate: no run, however it is interleaved with changes
      to the bus, takes more than six steps per handler and three more. */
  lemma {:induction false} RunsAreBounded(eventType: string, states: seq<State>, steps: seq<Step>, n: nat)
    requires Run(eventType, states, steps) && n <= |steps|
    ensures Remaining(states[n]) >= 0
    ensures ProtocolSteps(steps[..n]) + Remaining(states[n]) <= 6 * states[0].handlers.len + 3
  {
    InvAlways(eventType, states, steps, n);
    if n > 0 {
      RunsAreBounded(eventType, states, steps, n - 1);
      InvAlways(eventType, states, steps, n - 1);
      assert Next(states[n - 1], steps[n - 1], states[n]);
      EveryStepCounts(states[n - 1], steps[n - 1]);
      OneMoreStep(steps, n);
    }
    RemainingBounds(states[n]);
    if n == 0 {
      assert Remaining(states[0]) <= 6 * states[0].handlers.len + 3;
    }
  }

  lemma RemainingBounds(s: State)
    requires Inv(s)
    ensures Remaining(s) >= 0
  {
  }

  lemma OneMoreStep(steps: seq<Step>, n: nat)
    requires 0 < n <= |steps|
    ensures ProtocolSteps(steps[..n]) == ProtocolSteps(steps[..n - 1]) + if IsBusStep(steps[n - 1]) then 0 else 1
  {
    assert steps[..n][..n - 1] == steps[..n - 1];
  }

  // ----- The bus of the run is the bus its callers see -----

  ghost predicate ShowsAt(s: State, lists: Subscribers, t: string) {
    var slice := At(s.subscribers, t);
    ValidSlice(s.heap, slice) && View(s.heap, slice) == HandlersIn(lists, t)
  }

  /** The slices show exactly these lists. */
  ghost predicate Shows(s: State, lists: Subscribers) {
    Separate(s.heap, s.subscribers) && forall t :: ShowsAt(s, lists, t)
  }

  /** What the methods of EventBus make of the lists. */
  function ListsAfter(lists: Subscribers, step: Step): Subscribers {
    match step
    case Subscribe(t, h, _) => Subscribed(lists, t, h)
    case Unsubscribe(t) => lists - {t}
    case Clear => map[]
    case _ => lists
  }

  function ListsAfterAll(lists: Subscribers, steps: seq<Step>): Subscribers {
    if steps == [] then lists
    else ListsAfter(ListsAfterAll(lists, steps[..|steps| - 1]), steps[|steps| - 1])
  }

  lemma StepShows(s: State, step: Step, lists: Subscribers)
    requires Shows(s, lists) && Enabled(s, step)
    ensures Shows(After(s, step), ListsAfter(lists, step))
  {
    var s', lists' := After(s, step), ListsAfter(lists, step);
    if step.Subscribe? {
      AppendAtKey(s.heap, s.subscribers, step.eventType, step.handler, step.spare);
    }
    forall t ensures ShowsAt(s', lists', t) {
      assert ShowsAt(s, lists, t);
      if step.Subscribe? && t != step.eventType {
        assert SameView(s.heap, s'.heap, At(s.subscribers, t));
      }
    }
  }

  /** Over every run, appending in place or not, the slices show what the calls of
      Subscribe, Unsubscribe and Clear have made of the subscribers' lists. */
  lemma {:induction false} RunShowsTheBus(eventType: string, states: seq<State>, steps: seq<Step>, n: nat,
                                          lists: Subscribers)
    requires Run(eventType, states, steps) && n < |states| && Shows(states[0], lists)
    ensures Shows(states[n], ListsAfterAll(lists, steps[..n]))
  {
    if n > 0 {
      RunShowsTheBus(eventType, states, steps, n - 1, lists);
      assert Next(states[n - 1], steps[n - 1], states[n]);
      StepShows(states[n - 1], steps[n - 1], ListsAfterAll(lists, steps[..n - 1]));
      assert steps[..n][..n - 1] == steps[..n - 1];
    } else {
      assert steps[..0] == [];
    }
  }

  /** And the call under way starts exactly the list its event type had when it began. */
  lemma CallRunsTheListed(eventType: string, states: seq<State>, steps: seq<Step>, n: nat, lists: Subscribers)
    requires Run(eventType, states, steps) && n < |states| && Shows(states[0], lists)
    ensures Called(states[n].spawned) <= HandlersIn(lists, eventType)
    ensures states[n].phase != Spawning ==> Called(states[n].spawned) == HandlersIn(lists, eventType)
  {
    DispatchIsIsolated(eventType, states, steps, n);
    assert ShowsAt(states[0], lists, eventType);
  }
}
