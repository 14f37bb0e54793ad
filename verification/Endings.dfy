/** After an error of the local reader or writer the copy loops ask it for nothing more. */
module Endings {
  import opened Numbers
  import opened Protocol
  import opened ProtocolTheorems
  import opened CopyLoops
  import opened EndToEnd
  import H = Handoff

  /** The reader has failed, or its loop has ended outside a Read. */
  predicate ReaderDone(p: Pipeline) {
    || (p.inward.helper.Sending? && p.inward.helper.outcome.failed)
    || (p.inward.result.Some? && p.inward.result.value.failed)
    || (p.inward.loop.Busy? && p.got.Some? && p.got.value.failed)
    || (p.inward.loop.Ended? && !p.inward.helper.Working?)
  }

  /** The writer has failed, or its loop has ended. */
  predicate WriterDone(p: Pipeline) {
    || (p.outward.helper.Sending? && p.outward.helper.outcome)
    || p.outward.result == Some(true)
    || p.outward.loop.Ended?
  }

  lemma ReaderStaysDone(p: Pipeline, e: Event)
    requires Flows(p) && CanHappen(p, e) && ReaderDone(p)
    ensures ReaderDone(After(p, e)) && After(p, e).returned == p.returned && !e.ReaderCalled?
  {
    hide Inv, Bytes, Taken, Step, CanStep;
  }

  lemma WriterStaysDone(p: Pipeline, e: Event)
    requires Flows(p) && CanHappen(p, e) && WriterDone(p)
    ensures WriterDone(After(p, e)) && After(p, e).offered == p.offered && !e.WriterCalled?
  {
    hide Inv, Bytes, Taken, Step, CanStep;
  }

  /** A reader that has failed is called in no continuation. */
  lemma {:induction false} ReaderErrorIsFinal(p: Pipeline, es: seq<Event>)
    requires Flows(p) && CanUnfold(p, es) && ReaderDone(p)
    ensures ReaderDone(Unfold(p, es)) && Unfold(p, es).returned == p.returned && ReaderCalled !in es
    decreases |es|
  {
    hide Flows, ReaderDone, CanHappen, After;
    if es == [] {
    } else {
      EventKeeps(p, es[0]);
      ReaderStaysDone(p, es[0]);
      ReaderErrorIsFinal(After(p, es[0]), es[1..]);
      assert es == [es[0]] + es[1..];
    }
  }

  /** A writer that has failed is offered nothing in any continuation. */
  lemma {:induction false} WriterErrorIsFinal(p: Pipeline, es: seq<Event>)
    requires Flows(p) && CanUnfold(p, es) && WriterDone(p)
    ensures WriterDone(Unfold(p, es)) && Unfold(p, es).offered == p.offered && WriterCalled !in es
    decreases |es|
  {
    hide Flows, WriterDone, CanHappen, After;
    if es == [] {
    } else {
      EventKeeps(p, es[0]);
      WriterStaysDone(p, es[0]);
      WriterErrorIsFinal(After(p, es[0]), es[1..]);
      assert es == [es[0]] + es[1..];
    }
  }

  /** A failed write ends the outward loop as soon as the loop hears of it. */
  lemma FailedWriteEndsLoop(p: Pipeline)
    requires CanHappen(p, VerdictTaken)
    ensures After(p, VerdictTaken).outward.loop.Ended? <==> p.outward.result == Some(true)
  {
  }
}
