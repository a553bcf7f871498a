/** What each event of the log queue does to the entries, and how long the queue waits, in numbers. */
module LogRuns {
  import opened LogQueue

  /** Nothing of the record of what happened has changed. */
  ghost predicate SameRecord(h: History, t: History) {
    t.accepted == h.accepted && t.settled == h.settled && t.lastFailed == h.lastFailed
  }

  /** An entry is queued last while the queue is started, and dropped before and after that. */
  lemma {:induction false} EntriesAreTakenWhileStarted(h: History, payload: Entry)
    ensures var t := Step(h, Enqueue(payload));
            if h.state.started
            then t == h.(state := h.state.(queue := h.state.queue + [payload]), accepted := h.accepted + [payload])
            else t == h
  {
  }

  /**
   * A flush hands over the entries at the front, twenty-five at most, and leaves the rest in their order; it does
   * nothing on a stopped or empty queue, or while the backend still has a batch.
   */
  lemma {:induction false} FlushTakesTheFront(h: History)
    ensures var s, t := h.state, Step(h, Flush).state;
            && SameRecord(h, Step(h, Flush)) && t.started == s.started && t.retrying == s.retrying
            && t.consecutiveFailedBatches == s.consecutiveFailedBatches
            && if s.started && s.queue != [] && s.inFlight == []
               then && t.inFlight + t.queue == s.queue && 1 <= |t.inFlight| <= 25 && (t.queue == [] || |t.inFlight| == 25)
               else t == s
  {
    var n := BatchSize(h.state.queue);
    assert h.state.queue[..n] + h.state.queue[n..] == h.state.queue;
  }

  /** A batch that is stored is settled, and clears what failed before; nothing waits for the backend any more. */
  lemma {:induction false} StoredBatchIsSettled(h: History)
    ensures var s, t := h.state, Step(h, AppendSucceeds);
            if s.inFlight == [] then t == h
            else
              && t.settled == h.settled + [Delivered(s.inFlight)] && t.accepted == h.accepted && t.lastFailed == h.lastFailed
              && t.state == State(s.started, s.queue, [], false, 0)
  {
  }

  /** A batch that fails goes back to the front, but one that fails in a retry is discarded and counted. */
  lemma {:induction false} FailedBatchIsRetriedOnce(h: History)
    ensures var s, t := h.state, Step(h, AppendFails);
            if s.inFlight == [] then t == h
            else
              && t.lastFailed == s.inFlight && t.accepted == h.accepted
              && (if s.retrying
                  then && t.settled == h.settled + [Discarded(s.inFlight, h.lastFailed)]
                       && t.state == State(s.started, s.queue, [], false, s.consecutiveFailedBatches + 1)
                  else t.settled == h.settled && t.state == State(s.started, s.inFlight + s.queue, [], true, s.consecutiveFailedBatches))
  {
  }

  /** Starting and stopping change nothing else. */
  lemma {:induction false} StartAndStop(h: History)
    ensures Step(h, Start) == h.(state := h.state.(started := true))
    ensures Step(h, Stop) == h.(state := h.state.(started := false))
  {
  }

  /**
   * In every run the queue waits ten seconds between flushes, or five if thirteen entries or more are waiting; after
   * four batches or more lost in a row it waits a minute for each, and ten minutes at most.
   */
  lemma {:induction false} WaitsInMilliseconds(events: seq<Event>)
    ensures var h := Run(events);
            var lost := TrailingDiscards(h.settled);
            Scheduled(h.state.consecutiveFailedBatches, FallsBehind(h.state.queue)) ==
              FlushIn(if 10 <= lost then 600000 else if 4 <= lost then 60000 * lost
                      else if 13 <= |h.state.queue| then 5000 else 10000)
  {
    EveryRunConservesEntries(events);
  }

  /** Until the queue is started nothing is accepted, and nothing is handed over. */
  lemma {:induction false} NothingBeforeTheStart(events: seq<Event>)
    requires forall e :: e in events ==> !e.Start?
    ensures Run(events) == History(State(false, [], [], false, 0), [], [], [])
  {
    if events != [] {
      assert events[|events| - 1] in events;
      NothingBeforeTheStart(events[..|events| - 1]);
    }
  }
}
