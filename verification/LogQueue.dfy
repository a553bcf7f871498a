/**
 * The queue of prompt log entries: batches are taken off the front, handed to the
 * backend, and put back once when the backend fails.
 */
module LogQueue {
  import opened Sequences

  type Entry = string

  const FLUSH_INTERVAL := 10000
  const MAX_BATCH_SIZE := 25
  const ONE_MINUTE := 60000

  /** `inFlight` is the batch the backend is working on; batches are never empty. */
  datatype State = State(
    started: bool, queue: seq<Entry>, inFlight: seq<Entry>, retrying: bool, consecutiveFailedBatches: nat)

  /** What a flush does next: nothing more, wait for the backend, or flush again after some time. */
  datatype Next = Over | Awaiting | FlushIn(ms: nat)

  function BatchSize(queue: seq<Entry>): nat {
    if |queue| < MAX_BATCH_SIZE then |queue| else MAX_BATCH_SIZE
  }

  function Accepted(s: State, payload: Entry): State {
    if s.started then s.(queue := s.queue + [payload]) else s
  }

  /** A flush up to the call of the backend. */
  function Begun(s: State): State {
    if !s.started || s.queue == [] then s
    else s.(inFlight := s.queue[..BatchSize(s.queue)], queue := s.queue[BatchSize(s.queue)..])
  }

  function Succeeded(s: State): State {
    s.(inFlight := [], retrying := false, consecutiveFailedBatches := 0)
  }

  function Failed(s: State): State {
    if s.retrying then s.(inFlight := [], retrying := false, consecutiveFailedBatches := s.consecutiveFailedBatches + 1)
    else s.(inFlight := [], retrying := true, queue := s.inFlight + s.queue)
  }

  function Scheduled(consecutiveFailedBatches: nat, halfInterval: bool): Next {
    if consecutiveFailedBatches > 10 then FlushIn(10 * ONE_MINUTE)
    else if consecutiveFailedBatches > 3 then FlushIn(consecutiveFailedBatches * ONE_MINUTE)
    else FlushIn(if halfInterval then FLUSH_INTERVAL / 2 else FLUSH_INTERVAL)
  }

  predicate FallsBehind(queue: seq<Entry>) {
    |queue| > 12
  }

  class Log {
    var queue: seq<Entry>
    var inFlight: seq<Entry>
    var started: bool
    var retrying: bool
    var consecutiveFailedBatches: nat

    constructor ()
      ensures Current() == State(false, [], [], false, 0)
    {
      queue, inFlight, started, retrying, consecutiveFailedBatches := [], [], false, false, 0;
    }

    function Current(): State
      reads this
    {
      State(started, queue, inFlight, retrying, consecutiveFailedBatches)
    }

    method Enqueue(payload: Entry)
      modifies this
      ensures Current() == Accepted(old(Current()), payload)
    {
      if !started {
        return;
      }
      queue := queue + [payload];
    }

    method Flush() returns (next: Next)
      modifies this
      ensures Current() == Begun(old(Current()))
      ensures next == if !old(started) then Over else if old(queue) != [] then Awaiting
                      else Scheduled(consecutiveFailedBatches, FallsBehind(queue))
    {
      if !started {
        return Over;
      }
      if |queue| > 0 {
        var batchSize := BatchSize(queue);
        var nextBatch := queue[..batchSize];
        queue := queue[batchSize..];
        inFlight := nextBatch;
        return Awaiting;
      }
      next := ScheduleFlush(|queue| > MAX_BATCH_SIZE / 2);
    }

    method AppendSucceeded() returns (next: Next)
      modifies this
      ensures Current() == Succeeded(old(Current()))
      ensures next == Scheduled(consecutiveFailedBatches, FallsBehind(queue))
    {
      inFlight := [];
      retrying := false;
      consecutiveFailedBatches := 0;
      next := ScheduleFlush(|queue| > MAX_BATCH_SIZE / 2);
    }

    /** The first failure is retried at once; after the second the flush goes back to waiting. */
    method AppendFailed() returns (next: Next)
      modifies this
      ensures Current() == Failed(old(Current()))
      ensures next == if old(retrying) then Scheduled(consecutiveFailedBatches, FallsBehind(queue)) else FlushIn(0)
    {
      var nextBatch := inFlight;
      inFlight := [];
      if retrying {
        retrying := false;
        consecutiveFailedBatches := consecutiveFailedBatches + 1;
      } else {
        queue := nextBatch + queue;
        retrying := true;
        return FlushIn(0);
      }
      next := ScheduleFlush(|queue| > MAX_BATCH_SIZE / 2);
    }

    method ScheduleFlush(halfInterval: bool) returns (next: Next)
      ensures next == Scheduled(consecutiveFailedBatches, halfInterval)
    {
      if consecutiveFailedBatches > 3 {
        var maxBackoff := 10 * ONE_MINUTE;
        var backoff := consecutiveFailedBatches * ONE_MINUTE;
        return FlushIn(if backoff < maxBackoff then backoff else maxBackoff);
      }
      next := FlushIn(if halfInterval then FLUSH_INTERVAL / 2 else FLUSH_INTERVAL);
    }

    method Start() returns (next: Next)
      modifies this
      ensures Current() == old(Current()).(started := true)
      ensures next == Scheduled(consecutiveFailedBatches, false)
    {
      started := true;
      next := ScheduleFlush(false);
    }

    method Stop()
      modifies this
      ensures Current() == old(Current()).(started := false)
    {
      started := false;
    }
  }

  // ----- Runs -----

  datatype Event = Enqueue(payload: Entry) | Flush | AppendSucceeds | AppendFails | Start | Stop

  /** A batch the queue is done with; a discarded one with the batch that failed just before. */
  datatype Settled = Delivered(batch: seq<Entry>) | Discarded(batch: seq<Entry>, failedBefore: seq<Entry>)

  datatype History = History(state: State, accepted: seq<Entry>, settled: seq<Settled>, lastFailed: seq<Entry>)

  /** One flush at a time: the next begins when the backend has answered. */
  function Step(h: History, e: Event): History {
    var s := h.state;
    match e
    case Enqueue(payload) =>
      h.(state := Accepted(s, payload), accepted := if s.started then h.accepted + [payload] else h.accepted)
    case Flush => if s.inFlight == [] then h.(state := Begun(s)) else h
    case AppendSucceeds =>
      if s.inFlight == [] then h else h.(state := Succeeded(s), settled := h.settled + [Delivered(s.inFlight)])
    case AppendFails =>
      if s.inFlight == [] then h
      else h.(
        state := Failed(s), lastFailed := s.inFlight,
        settled := if s.retrying then h.settled + [Discarded(s.inFlight, h.lastFailed)] else h.settled)
    case Start => h.(state := s.(started := true))
    case Stop => h.(state := s.(started := false))
  }

  function Run(events: seq<Event>): History {
    if events == [] then History(State(false, [], [], false, 0), [], [], [])
    else Step(Run(events[..|events| - 1]), events[|events| - 1])
  }

  function Entries(settled: seq<Settled>): seq<Entry> {
    if settled == [] then [] else Entries(settled[..|settled| - 1]) + settled[|settled| - 1].batch
  }

  /** How many batches were discarded since one was delivered. */
  function TrailingDiscards(settled: seq<Settled>): nat {
    if settled == [] || settled[|settled| - 1].Delivered? then 0 else TrailingDiscards(settled[..|settled| - 1]) + 1
  }

  ghost predicate Conserved(h: History) {
    Entries(h.settled) + (h.state.inFlight + h.state.queue) == h.accepted
  }

  /** A batch to be retried waits at the front of the queue, or is the start of the batch in flight. */
  ghost predicate RetryIsNext(h: History) {
    && |h.state.inFlight| <= MAX_BATCH_SIZE
    && (h.state.retrying ==> 0 < |h.lastFailed| <= MAX_BATCH_SIZE)
    && (h.state.retrying ==> h.lastFailed <= if h.state.inFlight == [] then h.state.queue else h.state.inFlight)
  }

  ghost predicate DiscardsAreRetries(settled: seq<Settled>) {
    forall i :: 0 <= i < |settled| && settled[i].Discarded? ==> settled[i].failedBefore != [] && settled[i].failedBefore <= settled[i].batch
  }

  lemma {:induction false} SettledOneMore(settled: seq<Settled>, s: Settled)
    ensures Entries(settled + [s]) == Entries(settled) + s.batch
    ensures TrailingDiscards(settled + [s]) == if s.Delivered? then 0 else TrailingDiscards(settled) + 1
  {
    assert (settled + [s])[..|settled + [s]| - 1] == settled;
  }

  lemma {:induction false} StepConserves(h: History, e: Event)
    requires Conserved(h)
    ensures Conserved(Step(h, e))
  {
    var s, t := h.state, Step(h, e);
    match e
    case Enqueue(payload) =>
      SumIsAssociative(s.inFlight, s.queue, [payload]);
      SumIsAssociative(Entries(h.settled), s.inFlight + s.queue, [payload]);
    case Flush =>
      SumIsAssociative(s.queue, [], []);
      assert s.queue[..BatchSize(s.queue)] + s.queue[BatchSize(s.queue)..] == s.queue;
    case AppendSucceeds =>
      SettledOneMore(h.settled, Delivered(s.inFlight));
      SumIsAssociative(Entries(h.settled), s.inFlight, s.queue);
      SumIsAssociative(s.queue, [], []);
    case AppendFails =>
      SettledOneMore(h.settled, Discarded(s.inFlight, h.lastFailed));
      SumIsAssociative(Entries(h.settled), s.inFlight, s.queue);
      SumIsAssociative(s.queue, [], []);
      SumIsAssociative(s.inFlight + s.queue, [], []);
    case Start =>
    case Stop =>
  }

  lemma {:induction false} StepKeepsRetryNext(h: History, e: Event)
    requires RetryIsNext(h) && DiscardsAreRetries(h.settled)
    ensures RetryIsNext(Step(h, e)) && DiscardsAreRetries(Step(h, e).settled)
  {
  }

  lemma {:induction false} StepCountsDiscards(h: History, e: Event)
    requires h.state.consecutiveFailedBatches == TrailingDiscards(h.settled)
    ensures Step(h, e).state.consecutiveFailedBatches == TrailingDiscards(Step(h, e).settled)
  {
    SettledOneMore(h.settled, Delivered(h.state.inFlight));
    SettledOneMore(h.settled, Discarded(h.state.inFlight, h.lastFailed));
  }

  /**
   * In every run, the settled batches, the batch in flight and the queue are the accepted entries
   * in order; a discarded batch begins with the batch that failed just before it; and flushing
   * pauses for minutes exactly when more than three batches were lost since one was delivered.
   */
  lemma {:induction false} EveryRunConservesEntries(events: seq<Event>)
    ensures var h := Run(events);
            && Conserved(h) && RetryIsNext(h) && DiscardsAreRetries(h.settled)
            && h.state.consecutiveFailedBatches == TrailingDiscards(h.settled)
            && (Scheduled(h.state.consecutiveFailedBatches, FallsBehind(h.state.queue)).ms >= ONE_MINUTE <==> TrailingDiscards(h.settled) > 3)
  {
    if events == [] {
    } else {
      var h, e := Run(events[..|events| - 1]), events[|events| - 1];
      EveryRunConservesEntries(events[..|events| - 1]);
      StepConserves(h, e);
      StepKeepsRetryNext(h, e);
      StepCountsDiscards(h, e);
    }
  }

  ghost predicate NoneTwice(entries: seq<Entry>) {
    forall i, j :: 0 <= i < j < |entries| ==> entries[i] != entries[j]
  }

  lemma {:induction false} EarlierBatchIsBefore(settled: seq<Settled>, i: nat, entry: Entry)
    requires i < |settled| && entry in settled[i].batch
    ensures entry in Entries(settled)
  {
    if i == |settled| - 1 {
    } else {
      EarlierBatchIsBefore(settled[..|settled| - 1], i, entry);
    }
  }

  lemma {:induction false} NoEntryInTwoBatches(settled: seq<Settled>, i: nat, j: nat, entry: Entry)
    requires NoneTwice(Entries(settled)) && i < j < |settled| && entry in settled[i].batch
    ensures entry !in settled[j].batch
    decreases |settled|
  {
    var init, last := settled[..|settled| - 1], settled[|settled| - 1].batch;
    var before := Entries(init);
    assert Entries(settled) == before + last;
    if j == |settled| - 1 {
      EarlierBatchIsBefore(init, i, entry);
      var p :| 0 <= p < |before| && before[p] == entry;
      forall q | 0 <= q < |last| ensures last[q] != entry {
        assert (before + last)[p] != (before + last)[|before| + q];
      }
    } else {
      forall p, q | 0 <= p < q < |before| ensures before[p] != before[q] {
        assert (before + last)[p] != (before + last)[q];
      }
      NoEntryInTwoBatches(init, i, j, entry);
    }
  }

  /** If no entry is accepted twice, none is settled twice, so a failed append that stores nothing causes no duplicates. */
  lemma {:induction false} NothingIsSettledTwice(events: seq<Event>, i: nat, j: nat, entry: Entry)
    requires NoneTwice(Run(events).accepted)
    requires i < j < |Run(events).settled| && entry in Run(events).settled[i].batch
    ensures entry !in Run(events).settled[j].batch
  {
    EveryRunConservesEntries(events);
    var h := Run(events);
    forall p, q | 0 <= p < q < |Entries(h.settled)| ensures Entries(h.settled)[p] != Entries(h.settled)[q] {
      assert h.accepted[p] != h.accepted[q];
    }
    NoEntryInTwoBatches(h.settled, i, j, entry);
  }

  lemma {:induction false} EarlyEntryFailsOnce()
    ensures var h := Run([Start, Enqueue("early"), Flush, AppendFails]);
            && h.state.started && h.state.queue == ["early"] && h.state.inFlight == [] && h.state.retrying
            && h.lastFailed == ["early"] && h.settled == []
  {
    var e1 := [Start, Enqueue("early")];
    assert e1[..1] == [Start] && [Start][..0] == [];
    assert Run([Start]) == Step(Run([]), Start);
    assert Run(e1).state.queue == ["early"] && !Run(e1).state.retrying;
    RunStep(e1, Flush);
    RunStep(e1 + [Flush], AppendFails);
    assert e1 + [Flush] + [AppendFails] == [Start, Enqueue("early"), Flush, AppendFails];
  }

  /**
   * A retry hands over the batch that failed and nothing more exactly when that batch was full
   * or nothing else is waiting. Otherwise it takes further entries along, and a second failure
   * discards them at their first attempt.
   */
  lemma {:induction false} RetryIsTheSameBatchExactlyWhen(events: seq<Event>)
    requires Run(events).state.retrying && Run(events).state.inFlight == [] && Run(events).state.started
    ensures var h := Run(events);
            Begun(h.state).inFlight == h.lastFailed <==>
              |h.lastFailed| == MAX_BATCH_SIZE || |h.state.queue| == |h.lastFailed|
  {
    EveryRunConservesEntries(events);
  }

  lemma {:induction false} RunStep(events: seq<Event>, e: Event)
    ensures Run(events + [e]) == Step(Run(events), e)
  {
    assert (events + [e])[..|events + [e]| - 1] == events;
  }

  lemma {:induction false} LateEntryIsDiscardedAtItsFirstFailure()
    ensures var h := Run([Start, Enqueue("early"), Flush, AppendFails, Enqueue("late"), Flush, AppendFails]);
            h.settled == [Discarded(["early", "late"], ["early"])]
  {
    var e2 := [Start, Enqueue("early"), Flush, AppendFails];
    EarlyEntryFailsOnce();
    RunStep(e2, Enqueue("late"));
    RunStep(e2 + [Enqueue("late")], Flush);
    RunStep(e2 + [Enqueue("late")] + [Flush], AppendFails);
    var h := Run(e2 + [Enqueue("late")] + [Flush]);
    assert h.state.inFlight == ["early", "late"] && h.state.retrying && h.lastFailed == ["early"] && h.settled == [];
    assert e2 + [Enqueue("late")] + [Flush] + [AppendFails] ==
           [Start, Enqueue("early"), Flush, AppendFails, Enqueue("late"), Flush, AppendFails];
  }
}
