/**
 * The dial rendezvous of the multiplexed port forward: calls to Dial, the helper goroutine each of
 * them starts, and the one dial handler, over unbuffered channels, with every context free to end at
 * any time.
 */
module DialRendezvous {
  /** What travels back to a caller: a stream, or one of the errors. */
  datatype Response = Stream(id: nat) | Failure

  /** `Asking` is the select that sends the request, `Waiting` the receive after it. */
  datatype Caller = Asking | GaveUp | Waiting | Returned(response: Response)

  /** A helper is `Starting` until it is parked in its select. */
  datatype Helper = Starting | Listening | Holding(response: Response) | Exited

  datatype Call = Call(caller: Caller, helper: Helper, cancelled: bool)

  datatype Handler = Idle | Opening(call: nat) | Answering(call: nat, response: Response) | Stopped

  /** Streams are numbered in the order they are opened; `closed` are those the handler has closed. */
  datatype Mux = Mux(calls: seq<Call>, handler: Handler, streams: nat, closed: set<nat>, done: bool)

  const START: Mux := Mux([], Idle, 0, {}, false)

  datatype Move =
    | Dial
    | HelperListens(i: nat)
    | Request(i: nat)
    | GiveUp(i: nat)
    | StreamOpens
    | StreamFails
    | Answer
    | HelperSeesEnd(i: nat)
    | HandOver(i: nat)
    | Cancel(i: nat)
    | MuxEnds
    | HandlerStops

  /** A context that call `i` watches has ended. */
  predicate Over(m: Mux, i: nat)
    requires i < |m.calls|
  {
    m.calls[i].cancelled || m.done
  }

  predicate Can(m: Mux, e: Move) {
    match e
    case Dial => true
    case HelperListens(i) => i < |m.calls| && m.calls[i].helper.Starting?
    case Request(i) => i < |m.calls| && m.calls[i].caller.Asking? && m.handler.Idle?
    case GiveUp(i) => i < |m.calls| && m.calls[i].caller.Asking? && Over(m, i)
    case StreamOpens => m.handler.Opening?
    case StreamFails => m.handler.Opening?
    case Answer => m.handler.Answering? && m.handler.call < |m.calls|
    case HelperSeesEnd(i) => i < |m.calls| && m.calls[i].helper.Listening? && Over(m, i)
    case HandOver(i) => i < |m.calls| && m.calls[i].helper.Holding? && m.calls[i].caller.Waiting?
    case Cancel(i) => i < |m.calls|
    case MuxEnds => true
    case HandlerStops => m.handler.Idle? && m.done
  }

  /** The handler's send does not wait: with no helper in its select, a stream just opened is closed. */
  function Answered(m: Mux): Mux
    requires Can(m, Answer)
  {
    var i, r := m.handler.call, m.handler.response;
    if m.calls[i].helper.Listening? then
      m.(handler := Idle, calls := m.calls[i := m.calls[i].(helper := Holding(r))])
    else
      m.(handler := Idle, closed := if r.Stream? then m.closed + {r.id} else m.closed)
  }

  function After(m: Mux, e: Move): Mux
    requires Can(m, e)
  {
    match e
    case Dial => m.(calls := m.calls + [Call(Asking, Starting, false)])
    case HelperListens(i) => m.(calls := m.calls[i := m.calls[i].(helper := Listening)])
    case Request(i) => m.(calls := m.calls[i := m.calls[i].(caller := Waiting)], handler := Opening(i))
    case GiveUp(i) => m.(calls := m.calls[i := m.calls[i].(caller := GaveUp)])
    case StreamOpens => m.(handler := Answering(m.handler.call, Stream(m.streams)), streams := m.streams + 1)
    case StreamFails => m.(handler := Answering(m.handler.call, Failure))
    case Answer => Answered(m)
    case HelperSeesEnd(i) => m.(calls := m.calls[i := m.calls[i].(helper := Holding(Failure))])
    case HandOver(i) =>
      m.(calls := m.calls[i := m.calls[i].(caller := Returned(m.calls[i].helper.response), helper := Exited)])
    case Cancel(i) => m.(calls := m.calls[i := m.calls[i].(cancelled := true)])
    case MuxEnds => m.(done := true)
    case HandlerStops => m.(handler := Stopped)
  }

  // ---- Where a stream is -----------------------------------------------------------------

  datatype Place = WithHandler | WithHelper(i: nat) | ReturnedBy(i: nat) | Closed

  predicate At(m: Mux, t: nat, at: Place) {
    match at
    case WithHandler => m.handler.Answering? && m.handler.response == Stream(t)
    case WithHelper(i) => i < |m.calls| && m.calls[i].helper == Holding(Stream(t))
    case ReturnedBy(i) => i < |m.calls| && m.calls[i].caller == Returned(Stream(t))
    case Closed => t in m.closed
  }

  /** Each call's two goroutines are in step: before the request, only an ended context moves the helper on. */
  predicate Paired(c: Call, done: bool) {
    && (c.caller.Asking? && c.helper.Holding? ==> c.cancelled || done)
    && (c.caller.Returned? <==> c.helper.Exited?)
    && (c.helper.Holding? && c.helper.response.Stream? ==> c.caller.Waiting?)
  }

  /** A call the handler is serving still has its helper to answer to, unless a context has ended. */
  predicate Served(c: Call, done: bool) {
    && (c.caller.Waiting? || c.caller.Returned?)
    && (c.helper.Starting? || c.helper.Listening? || c.cancelled || done)
  }

  predicate Serving(m: Mux, i: nat) {
    (m.handler.Opening? || m.handler.Answering?) && m.handler.call == i
  }

  ghost predicate InStep(m: Mux) {
    && (forall i :: 0 <= i < |m.calls| ==> Paired(m.calls[i], m.done))
    && (m.handler.Opening? || m.handler.Answering? ==>
          m.handler.call < |m.calls| && Served(m.calls[m.handler.call], m.done))
  }

  ghost predicate Somewhere(m: Mux, t: nat) {
    exists p :: At(m, t, p)
  }

  /** Each opened stream is in exactly one place, and no other stream is anywhere. */
  ghost predicate Owned(m: Mux) {
    && (forall t: nat, p, q :: At(m, t, p) && At(m, t, q) ==> p == q)
    && (forall t: nat, p :: At(m, t, p) ==> t < m.streams)
    && (forall t: nat :: t < m.streams ==> Somewhere(m, t))
  }

  lemma InStepKept(m: Mux, e: Move)
    requires InStep(m) && Can(m, e)
    ensures InStep(After(m, e))
  {
  }

  /** Where a move takes a stream. */
  function Moved(m: Mux, e: Move, p: Place): Place
    requires Can(m, e)
  {
    if e.Answer? && p == WithHandler then
      if m.calls[m.handler.call].helper.Listening? then WithHelper(m.handler.call) else Closed
    else if e.HandOver? && p == WithHelper(e.i) then ReturnedBy(e.i)
    else p
  }

  lemma Carried(m: Mux, e: Move, t: nat, p: Place)
    requires InStep(m) && Can(m, e) && At(m, t, p)
    ensures At(After(m, e), t, Moved(m, e, p))
  {
  }

  /** A stream is where it is because a move carried it there from where it was, or has just opened it. */
  lemma CameFrom(m: Mux, e: Move, t: nat, q: Place) returns (p: Place)
    requires InStep(m) && Can(m, e) && At(After(m, e), t, q)
    ensures if e.StreamOpens? && t == m.streams then q == WithHandler || At(m, t, p)
            else At(m, t, p) && Moved(m, e, p) == q
  {
    p := if e.Answer? && !At(m, t, q) then WithHandler
         else if e.HandOver? && q == ReturnedBy(e.i) then WithHelper(e.i)
         else q;
  }

  lemma MoveKeeps(m: Mux, e: Move)
    requires InStep(m) && Owned(m) && Can(m, e)
    ensures InStep(After(m, e)) && Owned(After(m, e))
  {
    InStepKept(m, e);
    var n := After(m, e);
    forall t: nat, q, q' | At(n, t, q) && At(n, t, q')
      ensures q == q' && t < n.streams
    {
      var p := CameFrom(m, e, t, q);
      var p' := CameFrom(m, e, t, q');
    }
    forall t: nat | t < n.streams
      ensures Somewhere(n, t)
    {
      if t < m.streams {
        assert Somewhere(m, t);
        var p :| At(m, t, p);
        Carried(m, e, t, p);
      } else {
        assert At(n, t, WithHandler);
      }
    }
  }

  // ---- Runs ------------------------------------------------------------------------------

  predicate CanRun(m: Mux, es: seq<Move>)
    decreases |es|
  {
    es == [] || (Can(m, es[0]) && CanRun(After(m, es[0]), es[1..]))
  }

  function Run(m: Mux, es: seq<Move>): Mux
    requires CanRun(m, es)
    decreases |es|
  {
    if es == [] then m else Run(After(m, es[0]), es[1..])
  }

  lemma {:induction false} RunKeeps(m: Mux, es: seq<Move>)
    requires InStep(m) && Owned(m) && CanRun(m, es)
    ensures InStep(Run(m, es)) && Owned(Run(m, es))
    decreases |es|
  {
    if es == [] {
    } else {
      MoveKeeps(m, es[0]);
      RunKeeps(After(m, es[0]), es[1..]);
    }
  }

  /** Nothing is under way: the handler serves no request and no helper holds a stream. */
  predicate Settled(m: Mux) {
    && !m.handler.Answering?
    && forall i :: 0 <= i < |m.calls| ==> !(m.calls[i].helper.Holding? && m.calls[i].helper.response.Stream?)
  }

  /**
   * In every interleaving each opened stream is in exactly one place: with the handler, with the helper
   * of a call that is still waiting for it, returned by one call, or closed by the handler. Between
   * exchanges it is one of the last two.
   */
  lemma EachStreamHasOneOwner(es: seq<Move>, t: nat)
    requires CanRun(START, es)
    ensures var m := Run(START, es);
            && (t < m.streams <==> exists p :: At(m, t, p))
            && (forall p, q :: At(m, t, p) && At(m, t, q) ==> p == q)
            && (forall i: nat :: At(m, t, WithHelper(i)) ==> m.calls[i].caller.Waiting?)
            && (t < m.streams && Settled(m) ==> At(m, t, Closed) || exists i: nat :: At(m, t, ReturnedBy(i)))
  {
    RunKeeps(START, es);
    var m := Run(START, es);
    assert t < m.streams ==> Somewhere(m, t);
    if t < m.streams && Settled(m) {
      var p :| At(m, t, p);
      assert p.Closed? || (p.ReturnedBy? && At(m, t, ReturnedBy(p.i)));
    }
  }

  /** A stream that was returned or closed stays so: no later exchange closes a stream a caller has. */
  lemma {:induction false} OwnerIsFinal(m: Mux, es: seq<Move>, t: nat, p: Place)
    requires InStep(m) && CanRun(m, es)
    requires At(m, t, p) && (p.ReturnedBy? || p.Closed?)
    ensures At(Run(m, es), t, p)
    decreases |es|
  {
    if es == [] {
    } else {
      InStepKept(m, es[0]);
      Carried(m, es[0], t, p);
      OwnerIsFinal(After(m, es[0]), es[1..], t, p);
    }
  }

  // ---- When Dial returns -----------------------------------------------------------------

  predicate HasReturned(m: Mux, i: nat) {
    i < |m.calls| && m.calls[i].caller.Returned?
  }

  /** No move of the run ends a context that call `i` watches. */
  predicate Undisturbed(es: seq<Move>, i: nat) {
    forall k :: 0 <= k < |es| ==> es[k] != Cancel(i) && !es[k].MuxEnds?
  }

  /** Call `i` has sent its request, the handler is done with it, and its helper has no answer. */
  predicate Stranded(m: Mux, i: nat) {
    && i < |m.calls| && m.calls[i].caller.Waiting? && !Serving(m, i) && !Over(m, i)
    && (m.calls[i].helper.Starting? || m.calls[i].helper.Listening?)
  }

  lemma {:induction false} StrandedStays(m: Mux, es: seq<Move>, i: nat)
    requires InStep(m) && CanRun(m, es) && Stranded(m, i) && Undisturbed(es, i)
    ensures Stranded(Run(m, es), i)
    decreases |es|
  {
    if es == [] {
    } else {
      InStepKept(m, es[0]);
      StrandedStays(After(m, es[0]), es[1..], i);
    }
  }

  /**
   * A call whose contexts do not end gets its answer exactly when its helper is in its select at the
   * moment the handler answers; a helper that is late leaves the call waiting for a context to end.
   */
  lemma AnswerArrivesIff(m: Mux, i: nat)
    requires InStep(m) && Can(m, Answer) && m.handler.call == i && !Over(m, i)
    ensures m.calls[i].helper.Listening? <==>
            exists es :: CanRun(Answered(m), es) && Undisturbed(es, i) && HasReturned(Run(Answered(m), es), i)
  {
    var n := Answered(m);
    InStepKept(m, Answer);
    if m.calls[i].helper.Listening? {
      var es := [HandOver(i)];
      assert CanRun(After(n, HandOver(i)), es[1..]);
      assert Run(n, es) == After(n, HandOver(i));
      assert HasReturned(Run(n, es), i);
    } else {
      forall es | CanRun(n, es) && Undisturbed(es, i)
        ensures !HasReturned(Run(n, es), i)
      {
        StrandedStays(n, es, i);
      }
    }
  }

  /** The late helper can happen: the first call's stream is opened and closed and the call keeps waiting. */
  lemma LateHelperIsReached()
    ensures var es := [Dial, Request(0), StreamOpens, Answer];
            CanRun(START, es) && Stranded(Run(START, es), 0) && At(Run(START, es), 0, Closed)
  {
    var es := [Dial, Request(0), StreamOpens, Answer];
    var m := After(After(START, Dial), Request(0));
    var n := After(m, StreamOpens);
    assert es[1..] == [Request(0), StreamOpens, Answer];
    assert es[1..][1..] == [StreamOpens, Answer];
    assert es[1..][1..][1..] == [Answer];
    assert CanRun(After(n, Answer), [Answer][1..]);
    assert CanRun(n, [Answer]);
    assert Run(n, [Answer]) == Answered(n);
  }

  /** What brings a waiting call to its end after a context has ended. */
  function WindUp(m: Mux, i: nat): seq<Move>
    requires i < |m.calls|
  {
    match m.calls[i].helper
    case Starting => [HelperListens(i), HelperSeesEnd(i), HandOver(i)]
    case Listening => [HelperSeesEnd(i), HandOver(i)]
    case _ => [HandOver(i)]
  }

  /** Once a context it watches has ended, a waiting call can return whatever else is going on. */
  lemma DialEndsWithItsContext(m: Mux, i: nat)
    requires InStep(m) && i < |m.calls| && m.calls[i].caller.Waiting? && (m.calls[i].cancelled || m.done)
    ensures CanRun(m, WindUp(m, i))
    ensures HasReturned(Run(m, WindUp(m, i)), i) && HelperEnded(Run(m, WindUp(m, i)), i)
    decreases |WindUp(m, i)|
  {
    var es := WindUp(m, i);
    match m.calls[i].helper
    case Starting =>
      var a := After(m, HelperListens(i));
      InStepKept(m, es[0]);
      DialEndsWithItsContext(a, i);
      assert es[1..] == WindUp(a, i);
    case Listening =>
      var a := After(m, HelperSeesEnd(i));
      InStepKept(m, es[0]);
      DialEndsWithItsContext(a, i);
      assert es[1..] == WindUp(a, i);
    case Holding(_) =>
      assert CanRun(After(m, HandOver(i)), es[1..]);
      assert Run(m, es) == After(m, HandOver(i));
    case Exited =>
  }

  // ---- What Dial returns -----------------------------------------------------------------

  predicate ReturnedWith(m: Mux, i: nat, r: Response) {
    i < |m.calls| && m.calls[i].caller == Returned(r)
  }

  /** Call `i`, whose contexts have not ended, can get `r` or nothing. */
  predicate Bound(m: Mux, i: nat, r: Response) {
    && i < |m.calls| && !Over(m, i)
    && (|| (m.handler == Answering(i, r) && m.calls[i].caller.Waiting?
            && (m.calls[i].helper.Starting? || m.calls[i].helper.Listening?))
        || (m.calls[i].helper == Holding(r) && m.calls[i].caller.Waiting? && !Serving(m, i))
        || ReturnedWith(m, i, r)
        || Stranded(m, i))
  }

  lemma {:induction false} BoundStays(m: Mux, es: seq<Move>, i: nat, r: Response)
    requires InStep(m) && CanRun(m, es) && Bound(m, i, r) && Undisturbed(es, i)
    ensures Bound(Run(m, es), i, r)
    decreases |es|
  {
    if es == [] {
    } else {
      InStepKept(m, es[0]);
      BoundStays(After(m, es[0]), es[1..], i, r);
    }
  }

  /** Some undisturbed continuation of `m` returns `r` from call `i`, and none returns anything else. */
  ghost predicate Brings(m: Mux, i: nat, r: Response) {
    && (exists es :: CanRun(m, es) && Undisturbed(es, i) && ReturnedWith(Run(m, es), i, r))
    && forall es :: CanRun(m, es) && Undisturbed(es, i) && HasReturned(Run(m, es), i) ==>
         ReturnedWith(Run(m, es), i, r)
  }

  lemma AnswerBrings(m: Mux, i: nat, r: Response)
    requires InStep(m) && m.handler == Answering(i, r) && !Over(m, i)
    requires m.calls[i].caller.Waiting? && m.calls[i].helper.Listening?
    ensures Brings(m, i, r)
  {
    var n := After(m, Answer);
    var es := [Answer, HandOver(i)];
    assert es[1..] == [HandOver(i)];
    assert CanRun(After(n, HandOver(i)), [HandOver(i)][1..]);
    assert Run(n, [HandOver(i)]) == After(n, HandOver(i));
    assert CanRun(n, [HandOver(i)]) && CanRun(m, es);
    assert Run(m, es) == Run(n, es[1..]) == After(n, HandOver(i));
    assert CanRun(m, es) && Undisturbed(es, i) && ReturnedWith(Run(m, es), i, r);
    forall es | CanRun(m, es) && Undisturbed(es, i) && HasReturned(Run(m, es), i)
      ensures ReturnedWith(Run(m, es), i, r)
    {
      BoundStays(m, es, i, r);
    }
  }

  /**
   * While the handler is opening a stream for a call whose helper is listening and whose contexts have not
   * ended: if the opening fails the call returns the failure and can return nothing else, and if it
   * succeeds it returns that stream and can return nothing else.
   */
  lemma OpeningIsAnswered(m: Mux, i: nat)
    requires InStep(m) && m.handler == Opening(i) && !Over(m, i)
    requires m.calls[i].helper.Listening?
    ensures Brings(After(m, StreamFails), i, Failure)
    ensures Brings(After(m, StreamOpens), i, Stream(m.streams))
  {
    InStepKept(m, StreamFails);
    InStepKept(m, StreamOpens);
    AnswerBrings(After(m, StreamFails), i, Failure);
    AnswerBrings(After(m, StreamOpens), i, Stream(m.streams));
  }

  /** A call that has not given up does not while its contexts last. */
  lemma {:induction false} OnlyAnEndMakesItGiveUp(m: Mux, es: seq<Move>, i: nat)
    requires CanRun(m, es) && Undisturbed(es, i)
    requires i < |m.calls| && !m.calls[i].caller.GaveUp? && !m.calls[i].cancelled && !m.done
    ensures var n := Run(m, es); i < |n.calls| && !n.calls[i].caller.GaveUp? && !n.calls[i].cancelled && !n.done
    decreases |es|
  {
    if es == [] {
    } else {
      OnlyAnEndMakesItGiveUp(After(m, es[0]), es[1..], i);
    }
  }

  /** And it can as soon as either has ended, before its request is taken. */
  lemma EitherEndLetsItGiveUp(m: Mux, i: nat)
    requires i < |m.calls| && m.calls[i].caller.Asking? && (m.calls[i].cancelled || m.done)
    ensures Can(m, GiveUp(i)) && After(m, GiveUp(i)).calls[i].caller.GaveUp?
  {
  }

  /** The handler stops only after the multiplexer's context has ended, and until then serves every request. */
  lemma {:induction false} StopsOnlyAtTheEnd(m: Mux, es: seq<Move>)
    requires CanRun(m, es) && (m.handler.Stopped? ==> m.done)
    ensures Run(m, es).handler.Stopped? ==> Run(m, es).done
    decreases |es|
  {
    if es == [] {
    } else {
      StopsOnlyAtTheEnd(After(m, es[0]), es[1..]);
    }
  }

  // ---- When a helper ends ----------------------------------------------------------------

  /** Nobody will ever take what the helper of call `i` has to hand over. */
  predicate Doomed(m: Mux, i: nat)
    requires i < |m.calls|
  {
    m.calls[i].caller.GaveUp? || (m.calls[i].caller.Asking? && m.handler.Stopped?)
  }

  predicate HelperEnded(m: Mux, i: nat) {
    i < |m.calls| && m.calls[i].helper.Exited?
  }

  ghost predicate CanEnd(m: Mux, i: nat) {
    exists es :: CanRun(m, es) && HelperEnded(Run(m, es), i)
  }

  /** A doomed helper never ends, and never holds a stream. */
  lemma {:induction false} DoomedStays(m: Mux, es: seq<Move>, i: nat)
    requires InStep(m) && CanRun(m, es) && i < |m.calls| && Doomed(m, i)
    ensures var n := Run(m, es);
            && i < |n.calls| && Doomed(n, i) && !HelperEnded(n, i)
            && forall t: nat :: !At(n, t, WithHelper(i))
    decreases |es|
  {
    if es == [] {
    } else {
      InStepKept(m, es[0]);
      DoomedStays(After(m, es[0]), es[1..], i);
    }
  }

  lemma CanEndAfter(m: Mux, e: Move, i: nat)
    requires Can(m, e) && CanEnd(After(m, e), i)
    ensures CanEnd(m, i)
  {
    var es :| CanRun(After(m, e), es) && HelperEnded(Run(After(m, e), es), i);
    assert ([e] + es)[1..] == es;
    assert CanRun(m, [e] + es) && Run(m, [e] + es) == Run(After(m, e), es);
  }

  lemma WaitingCanEnd(m: Mux, i: nat)
    requires InStep(m) && i < |m.calls| && m.calls[i].caller.Waiting?
    ensures CanEnd(m, i)
  {
    var n := After(m, Cancel(i));
    InStepKept(m, Cancel(i));
    DialEndsWithItsContext(n, i);
    assert HelperEnded(Run(n, WindUp(n, i)), i);
    CanEndAfter(m, Cancel(i), i);
  }

  /** The handler finishes what it is doing, and takes the request. */
  lemma AskingCanEnd(m: Mux, i: nat)
    requires InStep(m) && i < |m.calls| && m.calls[i].caller.Asking? && !m.handler.Stopped?
    ensures CanEnd(m, i)
    decreases if m.handler.Opening? then 2 else if m.handler.Answering? then 1 else 0
  {
    var e := if m.handler.Opening? then StreamFails else if m.handler.Answering? then Answer else Request(i);
    InStepKept(m, e);
    if e.Request? {
      WaitingCanEnd(After(m, e), i);
    } else {
      AskingCanEnd(After(m, e), i);
    }
    CanEndAfter(m, e, i);
  }

  /**
   * A helper can still end exactly when its caller has not given up, and is not still asking after the
   * handler has stopped. The others hold their goroutine for ever.
   */
  lemma HelperCanEndIff(m: Mux, i: nat)
    requires InStep(m) && i < |m.calls|
    ensures CanEnd(m, i) <==> !Doomed(m, i)
  {
    if Doomed(m, i) {
      forall es | CanRun(m, es) ensures !HelperEnded(Run(m, es), i) {
        DoomedStays(m, es, i);
      }
    } else if m.calls[i].caller.Asking? {
      AskingCanEnd(m, i);
    } else if m.calls[i].caller.Waiting? {
      WaitingCanEnd(m, i);
    } else {
      assert CanRun(m, []) && HelperEnded(Run(m, []), i);
    }
  }
}
