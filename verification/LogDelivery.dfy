/**
 What the steps of the log writer achieve: what is queued and what is dropped, what a ticker, a full batch,
 a Flush and a Close hand over, and that each of them gets everything accepted out.
 */
module LogDelivery {
  import opened Collections
  import opened Schema
  import opened LogWriter

  // -------------------------------------------------------------- each step

  /** An entry is accepted exactly when the handler is enabled and fewer than 1024 entries are queued. */
  lemma HandleIs(s: State, e: Entry)
    ensures Step(s, Action.Handle(e)) ==
            if s.enabled && |s.queue| < 1024 then s.(queue := s.queue + [e], accepted := s.accepted + [e]) else s
  {
  }

  /** Every tick hands over what has been batched. */
  lemma TickDelivers(s: State)
    requires s.phase.Selecting?
    ensures var after := Step(s, TickerFires);
            && after.batch == [] && Flat(after.handed) == Flat(s.handed) + s.batch
            && after == s.(batch := [], handed := after.handed)
  {
    HandedFlat(s, false);
  }

  /** The writer moves the oldest queued entry to its batch, and hands the batch over at 50 entries. */
  lemma ReceiveIs(s: State)
    requires s.phase.Selecting? && s.queue != []
    ensures var after := Step(s, ReceiveEntry);
            && after == s.(queue := s.queue[1..], batch := after.batch, handed := after.handed)
            && (if |s.batch| + 1 < 50 then after.batch == s.batch + [s.queue[0]] && after.handed == s.handed
                else after.batch == [] && Flat(after.handed) == Flat(s.handed) + (s.batch + [s.queue[0]]))
  {
    HandedFlat(s.(queue := s.queue[1..], batch := s.batch + [s.queue[0]]), false);
  }

  /** Calls wait with what was accepted before them; a Close is late once the writer has stopped. */
  lemma CallsAre(s: State, b: bool)
    ensures Step(s, FlushCalled) == s.(flushes := s.flushes + [FlushCall(|s.accepted|, Waiting)])
    ensures Step(s, CloseCalled) ==
            s.(closing := true, closes := s.closes + [CloseCall(|s.accepted|, s.phase == Stopped)])
    ensures Step(s, SetEnabled(b)) == s.(enabled := b)
  {
  }

  /** A call of Flush that meets no writer any more returns without an acknowledgement. */
  lemma SkippedIs(s: State, i: nat)
    requires s.phase.Stopped? && i < |s.flushes| && s.flushes[i].progress.Waiting?
    ensures Step(s, FlushSkipped(i)) == s.(flushes := s.flushes[i := s.flushes[i].(progress := Skipped)])
  {
  }

  // ------------------------------------------------------- everything gets out

  function Repeat(a: Action, n: nat): seq<Action>
  {
    if n == 0 then [] else [a] + Repeat(a, n - 1)
  }

  lemma RepeatNext(s: State, a: Action, n: nat, rest: seq<Action>)
    requires n > 0
    ensures Fold(Step, s, Repeat(a, n) + rest) == Fold(Step, Step(s, a), Repeat(a, n - 1) + rest)
  {
    assert (Repeat(a, n) + rest)[1..] == Repeat(a, n - 1) + rest;
  }

  /** Reading the whole queue moves it, in order, behind what was batched and handed over. */
  lemma {:induction false} QueueRead(s: State, rest: seq<Action>) returns (after: State)
    requires s.phase.Selecting?
    ensures Fold(Step, s, Repeat(ReceiveEntry, |s.queue|) + rest) == Fold(Step, after, rest)
    ensures after == s.(queue := [], batch := after.batch, handed := after.handed)
    ensures Flat(after.handed) + after.batch == Flat(s.handed) + s.batch + s.queue
    decreases |s.queue|
  {
    if s.queue == [] {
      after := s;
      assert Repeat(ReceiveEntry, 0) + rest == rest;
      assert Flat(s.handed) + s.batch + [] == Flat(s.handed) + s.batch;
    } else {
      var next := Step(s, ReceiveEntry);
      ReceiveIs(s);
      RepeatNext(s, ReceiveEntry, |s.queue|, rest);
      after := QueueRead(next, rest);
      Moved(Flat(s.handed), s.batch, s.queue, Flat(next.handed), next.batch);
    }
  }

  lemma Moved(flat: seq<Entry>, batch: seq<Entry>, queue: seq<Entry>, flat': seq<Entry>, batch': seq<Entry>)
    requires queue != [] && flat' + batch' == flat + (batch + [queue[0]])
    ensures flat' + batch' + queue[1..] == flat + batch + queue
  {
    assert queue == [queue[0]] + queue[1..];
  }

  /**
   From every reachable state in which the writer is at its select: once it has read the queue, the next tick
   has handed over everything accepted so far, in order.
   */
  lemma TickGetsEverythingOut(actions: seq<Action>)
    requires Fold(Step, Started, actions).phase.Selecting?
    ensures var s := Fold(Step, Started, actions);
            var after := Fold(Step, s, Repeat(ReceiveEntry, |s.queue|) + [TickerFires]);
            Flat(after.handed) == s.accepted && after.queue == [] && after.batch == []
  {
    var s := Fold(Step, Started, actions);
    AcceptedIsConserved(actions);
    var read := QueueRead(s, [TickerFires]);
    TickDelivers(read);
    assert [TickerFires][1..] == [];
    assert Fold(Step, read, [TickerFires]) == Step(read, TickerFires);
  }

  lemma {:induction false} RepeatLast(a: Action, n: nat)
    requires n > 0
    ensures Repeat(a, n) == Repeat(a, n - 1) + [a]
  {
    if n > 1 {
      RepeatLast(a, n - 1);
    }
  }

  lemma {:induction false} RoundsRead(s: State, n: nat)
    ensures Fold(Step, s, Repeat(DrainRound, n)) == Rounds(s, n)
  {
    if n > 0 {
      RepeatLast(DrainRound, n);
      RoundsRead(s, n - 1);
      FoldConcat(Step, s, Repeat(DrainRound, n - 1), [DrainRound]);
      assert [DrainRound][1..] == [];
      assert Fold(Step, Rounds(s, n - 1), [DrainRound]) == Step(Rounds(s, n - 1), DrainRound);
    }
  }

  /** The round that finds the queue empty hands over the batch and leaves the drain. */
  ghost predicate DrainOver(s: State, after: State)
  {
    && after.queue == [] && after.batch == [] && after.accepted == s.accepted
    && (s.phase.DrainingClose? ==> after.phase.Stopped?)
    && (s.phase.DrainingFlush? && s.phase.call < |s.flushes| ==>
          after.phase.Selecting? &&
          after.flushes == s.flushes[s.phase.call := s.flushes[s.phase.call].(progress := Acked)])
  }

  lemma LastRound(s: State)
    requires Draining(s.phase) && s.queue == []
    ensures DrainOver(s, Drain(s)) && Flat(Drain(s).handed) == Flat(s.handed) + s.batch
  {
    HandedFlat(s, true);
  }

  lemma QueueDrained(s: State)
    requires Draining(s.phase)
    ensures Rounds(s, |s.queue|) == s.(queue := [], batch := s.batch + s.queue)
  {
    RoundsTake(s, |s.queue|);
    assert s.queue[|s.queue|..] == [] && s.queue[..|s.queue|] == s.queue;
  }

  /** A drain ends with the batch and the queue handed over. */
  lemma DrainDelivers(s: State)
    requires Draining(s.phase)
    ensures var after := Fold(Step, s, Repeat(DrainRound, |s.queue| + 1));
            DrainOver(s, after) && Flat(after.handed) == Flat(s.handed) + s.batch + s.queue
  {
    var last := s.(queue := [], batch := s.batch + s.queue);
    RoundsRead(s, |s.queue| + 1);
    QueueDrained(s);
    LastRound(last);
    assert Rounds(s, |s.queue| + 1) == Drain(last);
    assert DrainOver(last, Drain(last)) ==> DrainOver(s, Drain(last));
    assert Flat(s.handed) + (s.batch + s.queue) == Flat(s.handed) + s.batch + s.queue;
  }

  /**
   From every reachable state in which the writer is at its select, a waiting Flush is taken, served in full
   and acknowledged, and the writer is back at its select.
   */
  lemma FlushGetsEverythingOut(actions: seq<Action>, i: nat)
    requires Fold(Step, Started, actions).phase.Selecting?
    requires i < |Fold(Step, Started, actions).flushes| && Fold(Step, Started, actions).flushes[i].progress.Waiting?
    ensures var s := Fold(Step, Started, actions);
            var after := Fold(Step, Step(s, FlushTaken(i)), Repeat(DrainRound, |s.queue| + 1));
            && Flat(after.handed) == s.accepted && after.queue == [] && after.batch == []
            && after.phase.Selecting? && |after.flushes| == |s.flushes| && after.flushes[i].progress.Acked?
  {
    AcceptedIsConserved(actions);
    DrainDelivers(Step(Fold(Step, Started, actions), FlushTaken(i)));
  }

  /** So is a Close, after which the writer has stopped. */
  lemma CloseGetsEverythingOut(actions: seq<Action>)
    requires Fold(Step, Started, actions).phase.Selecting? && Fold(Step, Started, actions).closing
    ensures var s := Fold(Step, Started, actions);
            var after := Fold(Step, Step(s, CloseTaken), Repeat(DrainRound, |s.queue| + 1));
            && Flat(after.handed) == s.accepted && after.queue == [] && after.batch == [] && after.phase.Stopped?
  {
    AcceptedIsConserved(actions);
    DrainDelivers(Step(Fold(Step, Started, actions), CloseTaken));
  }
}
