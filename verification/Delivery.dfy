/** The stream does not only stay a prefix: from any run that is not beyond recovery, all of it can arrive. */
module Delivery {
  import opened Numbers
  import M = SenderModel
  import opened Protocol
  import opened ProtocolTheorems
  import opened Recovery
  import opened CopyLoops
  import opened EndToEnd
  import H = Handoff

  // ---- Continuations ---------------------------------------------------------------------

  ghost predicate Leads(p: Pipeline, q: Pipeline) {
    exists es :: CanUnfold(p, es) && Unfold(p, es) == q
  }

  lemma LeadsItself(p: Pipeline)
    ensures Leads(p, p)
  {
    assert CanUnfold(p, []) && Unfold(p, []) == p;
  }

  lemma LeadsBy(p: Pipeline, e: Event, q: Pipeline)
    requires CanHappen(p, e) && Leads(After(p, e), q)
    ensures Leads(p, q)
  {
    var next := After(p, e);
    var es :| CanUnfold(next, es) && Unfold(next, es) == q;
    assert ([e] + es)[1..] == es;
    assert CanUnfold(p, [e] + es) && Unfold(p, [e] + es) == q;
  }

  lemma {:induction false} UnfoldOn(p: Pipeline, es: seq<Event>, q: Pipeline)
    requires CanUnfold(p, es) && Leads(Unfold(p, es), q)
    ensures Leads(p, q)
    decreases |es|
  {
    if es == [] {
    } else {
      UnfoldOn(After(p, es[0]), es[1..], q);
      LeadsBy(p, es[0], q);
    }
  }

  lemma LeadsOn(p: Pipeline, q: Pipeline, r: Pipeline)
    requires Leads(p, q) && Leads(q, r)
    ensures Leads(p, r)
  {
    var es :| CanUnfold(p, es) && Unfold(p, es) == q;
    UnfoldOn(p, es, r);
  }

  // ---- The outward loop comes round ------------------------------------------------------

  /** The outward loop is running and its writer has not failed. */
  predicate Accepting(o: H.Pair<seq<Byte>, bool>) {
    !o.loop.Ended? && o.result != Some(true) && !(o.helper.Sending? && o.helper.outcome)
  }

  /** The near end has not moved. */
  predicate NearEndWaits(p: Pipeline, q: Pipeline) {
    q.inward == p.inward && q.got == p.got && q.returned == p.returned
  }

  /** What the outward loop and its helper do next, with a writer that does not fail. */
  function Turn(o: H.Pair<seq<Byte>, bool>): Event {
    if o.loop.Offering? then WriterCalled
    else if o.helper.Working? then WriterReturns(false)
    else if o.helper.Sending? then VerdictPut
    else VerdictTaken
  }

  function TurnsLeft(o: H.Pair<seq<Byte>, bool>): nat {
    if o.loop.Busy? then 0
    else if o.loop.Offering? then 4
    else if o.helper.Working? then 3
    else if o.helper.Sending? then 2
    else 1
  }

  lemma TakeTurn(p: Pipeline)
    requires H.InStep(p.outward) && Accepting(p.outward) && !p.outward.loop.Busy?
    ensures CanHappen(p, Turn(p.outward))
    ensures var q := After(p, Turn(p.outward));
            && Accepting(q.outward) && TurnsLeft(q.outward) < TurnsLeft(p.outward)
            && q.system == p.system && NearEndWaits(p, q)
  {
  }

  lemma {:induction false} ComeRound(p: Pipeline) returns (q: Pipeline)
    requires Flows(p) && Accepting(p.outward)
    ensures Leads(p, q) && Flows(q) && Accepting(q.outward) && q.outward.loop.Busy?
    ensures q.system == p.system && NearEndWaits(p, q)
    decreases TurnsLeft(p.outward)
  {
    if p.outward.loop.Busy? {
      q := p;
      LeadsItself(p);
    } else {
      TakeTurn(p);
      EventKeeps(p, Turn(p.outward));
      hide Flows, CanHappen, After, Turn, Leads;
      q := ComeRound(After(p, Turn(p.outward)));
      LeadsBy(p, Turn(p.outward), q);
    }
  }

  /** One message is read from the session; the outward loop is brought round to it first. */
  lemma ReadOne(p: Pipeline) returns (q: Pipeline)
    requires Flows(p) && Accepting(p.outward) && CanStep(p.system, Read)
    ensures Leads(p, q) && Flows(q) && Accepting(q.outward)
    ensures q.system == Step(p.system, Read) && NearEndWaits(p, q)
  {
    var r := ComeRound(p);
    EventKeeps(r, SessionRead);
    q := After(r, SessionRead);
    LeadsItself(q);
    LeadsBy(r, SessionRead, q);
    LeadsOn(p, r, q);
  }

  // ---- Following a run of the two sessions -----------------------------------------------

  lemma {:induction false} WrittenGrows(s: System, acts: seq<Action>)
    requires CanRun(s, acts)
    ensures |s.written| <= |Run(s, acts).written|
    decreases |acts|
  {
    if acts == [] {
    } else {
      WrittenGrows(Step(s, acts[0]), acts[1..]);
    }
  }

  /** One step of the two sessions that writes nothing, with the copy loops around them. */
  lemma FollowOne(p: Pipeline, a: Action) returns (q: Pipeline)
    requires Flows(p) && Accepting(p.outward) && CanStep(p.system, a) && !a.Write?
    ensures Leads(p, q) && Flows(q) && Accepting(q.outward)
    ensures q.system == Step(p.system, a) && NearEndWaits(p, q)
  {
    if a.Read? {
      q := ReadOne(p);
    } else {
      EventKeeps(p, Elsewhere(a));
      q := After(p, Elsewhere(a));
      LeadsItself(q);
      LeadsBy(p, Elsewhere(a), q);
    }
  }

  /** A run of the two sessions in which nothing is written is part of a run of the whole. */
  lemma {:induction false} Follow(p: Pipeline, acts: seq<Action>) returns (q: Pipeline)
    requires Flows(p) && Accepting(p.outward) && CanRun(p.system, acts)
    requires Run(p.system, acts).written == p.system.written
    ensures Leads(p, q) && Flows(q) && Accepting(q.outward)
    ensures q.system == Run(p.system, acts) && NearEndWaits(p, q)
    decreases |acts|
  {
    if acts == [] {
      q := p;
      LeadsItself(p);
    } else {
      WrittenGrows(Step(p.system, acts[0]), acts[1..]);
      StepWrites(p.system, acts[0]);
      hide Flows, Leads, Step, CanStep;
      var r := FollowOne(p, acts[0]);
      q := Follow(r, acts[1..]);
      LeadsOn(p, r, q);
    }
  }

  lemma StepWrites(s: System, a: Action)
    requires CanStep(s, a)
    ensures Step(s, a).written == if a.Write? then s.written + [a.body] else s.written
  {
  }

  /** Everything in the delivery channel is read. */
  lemma {:induction false} ReadAll(p: Pipeline) returns (q: Pipeline)
    requires Flows(p) && Accepting(p.outward) && p.system.taken <= |p.system.delivered|
    ensures Leads(p, q) && Flows(q) && Accepting(q.outward) && NearEndWaits(p, q)
    ensures q.system == p.system.(taken := |p.system.delivered|)
    decreases |p.system.delivered| - p.system.taken
  {
    if p.system.taken == |p.system.delivered| {
      q := p;
      LeadsItself(p);
    } else {
      hide Flows, Leads, Accepting;
      var r := ReadOne(p);
      q := ReadAll(r);
      LeadsOn(p, r, q);
    }
  }

  // ---- What is still with the inward loop ------------------------------------------------

  /** The far end has not moved. */
  predicate FarEndWaits(p: Pipeline, q: Pipeline) {
    q.outward == p.outward && q.returned == p.returned && q.inward.loop.Ended? == p.inward.loop.Ended?
  }

  /** The helper hands over the result it has. */
  lemma PutResult(p: Pipeline) returns (q: Pipeline)
    requires Flows(p) && !p.inward.loop.Ended?
    ensures Leads(p, q) && Flows(q) && FarEndWaits(p, q) && q.system == p.system
    ensures !q.inward.helper.Sending?
  {
    if p.inward.helper.Sending? {
      EventKeeps(p, ResultPut);
      q := After(p, ResultPut);
      LeadsItself(q);
      LeadsBy(p, ResultPut, q);
    } else {
      q := p;
      LeadsItself(p);
    }
  }

  /** The inward loop takes it. */
  lemma TakeResult(p: Pipeline) returns (q: Pipeline)
    requires Flows(p) && !p.inward.loop.Ended? && !p.inward.helper.Sending?
    ensures Leads(p, q) && Flows(q) && FarEndWaits(p, q) && q.system == p.system
    ensures q.inward.result.None? && !q.inward.helper.Sending?
  {
    if p.inward.result.Some? {
      EventKeeps(p, ResultTaken);
      q := After(p, ResultTaken);
      LeadsItself(q);
      LeadsBy(p, ResultTaken, q);
    } else {
      q := p;
      LeadsItself(p);
    }
  }

  /** At most one more message has been written, and it can arrive. */
  predicate WroteAtMostOne(s: System, t: System) {
    && t == s.(written := t.written) && |t.written| <= |s.written| + 1
    && forall i :: |s.written| <= i < |t.written| ==> t.written[i].carried
  }

  /** And writes its bytes to the session. */
  lemma WriteResult(p: Pipeline) returns (q: Pipeline)
    requires Flows(p) && !p.inward.loop.Ended? && !p.inward.helper.Sending? && p.inward.result.None?
    requires |p.system.written| == p.system.sender.state.next
    ensures Leads(p, q) && Flows(q) && FarEndWaits(p, q) && WroteAtMostOne(p.system, q.system)
    ensures Pending(q) == []
  {
    if Pending(p) == [] {
      q := p;
      LeadsItself(p);
    } else {
      EventKeeps(p, SessionWrite);
      q := After(p, SessionWrite);
      LeadsItself(q);
      LeadsBy(p, SessionWrite, q);
    }
  }

  /** With nothing left to send, the inward loop gets rid of what it and its helper have. */
  lemma Flush(p: Pipeline) returns (q: Pipeline)
    requires Flows(p) && !p.inward.loop.Ended? && |p.system.written| == p.system.sender.state.next
    ensures Leads(p, q) && Flows(q) && FarEndWaits(p, q) && WroteAtMostOne(p.system, q.system)
    ensures Pending(q) == []
  {
    hide Flows, Leads, Pending;
    var a := PutResult(p);
    var b := TakeResult(a);
    q := WriteResult(b);
    LeadsOn(p, a, b);
    LeadsOn(p, b, q);
  }

  // ---- All of the stream -----------------------------------------------------------------

  /** The two sessions can get everything written across, and the far writer takes it. */
  ghost predicate CanDeliver(p: Pipeline) {
    && Flows(p) && Accepting(p.outward)
    && Live(p.system) && AllHopeful(p.system) && AllPromising(p.system) && |p.system.written| <= MAX_I64
  }

  /** Everything written has been offered, and nothing is in flight. */
  ghost predicate AllOffered(p: Pipeline) {
    && |p.system.written| == p.system.sender.state.next && p.system.sender.state.unacked == map[]
    && Bytes(p.system.written) == Lost(p.system) + p.offered
  }

  lemma AllTaken(p: Pipeline)
    requires Flows(p) && Accepting(p.outward) && p.outward.loop.Busy? && p.system.taken >= |p.system.written|
    ensures Bytes(p.system.written) == Lost(p.system) + p.offered
  {
    HeardBytes(p.system);
    TakenIsPrefix(p.system);
  }

  /** Everything written is delivered into the channel of the far session. */
  lemma AllDelivered(p: Pipeline) returns (q: Pipeline)
    requires CanDeliver(p)
    ensures Leads(p, q) && NearEndWaits(p, q) && Flows(q) && Accepting(q.outward)
    ensures Live(q.system) && Through(q.system) && q.system.written == p.system.written
    ensures |q.system.written| <= |q.system.delivered|
  {
    EverythingCanArrive(p.system);
    var t :| Reaches(p.system, t) && Live(t) && Through(t) && t.written == p.system.written
             && |t.written| <= |t.delivered|;
    hide Flows, Leads, Live, AllHopeful, Through;
    var acts :| CanRun(p.system, acts) && Quiet(acts) && Run(p.system, acts) == t;
    q := Follow(p, acts);
  }

  lemma AllOfIt(p: Pipeline) returns (q: Pipeline)
    requires CanDeliver(p)
    ensures Leads(p, q) && NearEndWaits(p, q) && CanDeliver(q) && AllOffered(q)
    ensures q.system.written == p.system.written
  {
    var a := AllDelivered(p);
    assert a.system.taken <= |a.system.delivered|;
    var b := ReadAll(a);
    q := ComeRound(b);
    assert Inv(q.system);
    ReadsKeepLive(a.system, q.system);
    hide Flows, Leads, Live, AllHopeful, Inv;
    AllTaken(q);
    LeadsOn(p, a, b);
    LeadsOn(p, b, q);
  }

  lemma ReadsKeepLive(s: System, t: System)
    requires Live(s) && Through(s) && Inv(t) && t == s.(taken := t.taken)
    ensures Live(t) && AllHopeful(t) && AllPromising(t)
  {
  }

  lemma {:induction false} TimedUnfold(p: Pipeline, es: seq<Event>)
    requires M.Timed(p.system.sender) && CanUnfold(p, es)
    ensures M.Timed(Unfold(p, es).system.sender)
    decreases |es|
  {
    if es == [] {
    } else {
      TimedEvent(p, es[0]);
      TimedUnfold(After(p, es[0]), es[1..]);
    }
  }

  lemma TimedEvent(p: Pipeline, e: Event)
    requires M.Timed(p.system.sender) && CanHappen(p, e)
    ensures M.Timed(After(p, e).system.sender)
  {
    if e.Elsewhere? && e.action.SenderStep? {
      M.TimedStep(p.system.sender, e.action.event);
    }
  }

  /** The bytes still with the inward loop can follow the others. */
  lemma PendingToo(p: Pipeline) returns (q: Pipeline)
    requires CanDeliver(p) && AllOffered(p) && !p.inward.loop.Ended? && |p.system.written| < MAX_I64
    ensures Leads(p, q) && q.returned == p.returned && Lost(q.system) + q.offered == q.returned
  {
    var a := Flush(p);
    assert Live(a.system) && AllHopeful(a.system) && AllPromising(a.system);
    q := AllOfIt(a);
    LeadsOn(p, a, q);
  }

  /**
   * In every run, whenever Stop is called and wherever the two sessions are: while both run, each packet
   * in flight can still be recovered, each queued body can arrive, and the far writer accepts, there is a
   * continuation after which the far writer has been offered every byte written to the session but for
   * those lost to Stop, and, unless the inward loop has ended, every byte the near reader has returned.
   */
  lemma WholeStreamCanArrive(es: seq<Event>)
    requires CanUnfold(START_PIPELINE, es)
    ensures var p := Unfold(START_PIPELINE, es);
            var s := p.system;
            s.sender.live && s.receiverLive && |s.written| < MAX_I64
            && AllHopeful(s) && AllPromising(s) && Accepting(p.outward) ==>
              && (exists q :: Leads(p, q) && q.returned == p.returned && q.system.written == s.written
                              && Lost(q.system) + q.offered == Bytes(s.written))
              && (!p.inward.loop.Ended? ==>
                    exists q :: Leads(p, q) && q.returned == p.returned && Lost(q.system) + q.offered == q.returned)
  {
    var p := Unfold(START_PIPELINE, es);
    InitialInv();
    UnfoldKeeps(START_PIPELINE, es);
    TimedUnfold(START_PIPELINE, es);
    var s := p.system;
    if s.sender.live && s.receiverLive && |s.written| < MAX_I64
       && AllHopeful(s) && AllPromising(s) && Accepting(p.outward) {
      hide Unfold;
      var q := AllOfIt(p);
      if !p.inward.loop.Ended? {
        var r := PendingToo(q);
        LeadsOn(p, q, r);
      }
    }
  }
}
