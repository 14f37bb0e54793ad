/**
 * The two-goroutine handoff under both byte-copy loops: a loop passes one request at a time to a helper
 * over an unbuffered channel and takes its result from a channel of capacity one, and closes the
 * request channel when it returns, for whatever reason.
 */
module Handoff {
  import opened Numbers

  datatype Loop<Req> = Busy | Offering(request: Req) | Waiting | Ended

  datatype Helper<Req, Res> = Ready | Working(task: Req) | Sending(outcome: Res) | Exited

  datatype Pair<Req, Res> = Pair(loop: Loop<Req>, helper: Helper<Req, Res>, result: Option<Res>)

  datatype Move<Req, Res> =
    | Offer(request: Req)
    | Hand
    | Finish(outcome: Res)
    | Put
    | Take
    | End
    | Exit

  function Initial<Req, Res>(): Pair<Req, Res> {
    Pair(Busy, Ready, None)
  }

  /** The helper's send into the result channel needs a free slot: that is the only way Put can block. */
  predicate CanMove<Req, Res>(p: Pair<Req, Res>, m: Move<Req, Res>) {
    match m
    case Offer(_) => p.loop.Busy?
    case Hand => p.loop.Offering? && p.helper.Ready?
    case Finish(_) => p.helper.Working?
    case Put => p.helper.Sending? && p.result.None?
    case Take => p.loop.Waiting? && p.result.Some?
    case End => !p.loop.Ended?
    case Exit => p.loop.Ended? && p.helper.Ready?
  }

  function Apply<Req, Res>(p: Pair<Req, Res>, m: Move<Req, Res>): Pair<Req, Res>
    requires CanMove(p, m)
  {
    match m
    case Offer(r) => p.(loop := Offering(r))
    case Hand => p.(loop := Waiting, helper := Working(p.loop.request))
    case Finish(o) => p.(helper := Sending(o))
    case Put => p.(helper := Ready, result := Some(p.helper.outcome))
    case Take => p.(loop := Busy, result := None)
    case End => p.(loop := Ended)
    case Exit => p.(helper := Exited)
  }

  /** Requests and results that have been handed over and not yet taken back. */
  function Outstanding<Req, Res>(p: Pair<Req, Res>): nat {
    (if p.helper.Working? || p.helper.Sending? then 1 else 0) + (if p.result.Some? then 1 else 0)
  }

  ghost predicate InStep<Req, Res>(p: Pair<Req, Res>) {
    && Outstanding(p) <= 1
    && (p.loop.Busy? || p.loop.Offering? ==> p.helper.Ready? && Outstanding(p) == 0)
    && (p.loop.Waiting? ==> Outstanding(p) == 1 && !p.helper.Exited?)
    && (p.helper.Exited? ==> p.loop.Ended?)
  }

  lemma MoveKeeps<Req, Res>(p: Pair<Req, Res>, m: Move<Req, Res>)
    requires InStep(p) && CanMove(p, m)
    ensures InStep(Apply(p, m))
  {
  }

  predicate CanMoveAll<Req, Res>(p: Pair<Req, Res>, ms: seq<Move<Req, Res>>)
    decreases |ms|
  {
    ms == [] || (CanMove(p, ms[0]) && CanMoveAll(Apply(p, ms[0]), ms[1..]))
  }

  function ApplyAll<Req, Res>(p: Pair<Req, Res>, ms: seq<Move<Req, Res>>): Pair<Req, Res>
    requires CanMoveAll(p, ms)
    decreases |ms|
  {
    if ms == [] then p else ApplyAll(Apply(p, ms[0]), ms[1..])
  }

  lemma {:induction false} MovesKeep<Req, Res>(p: Pair<Req, Res>, ms: seq<Move<Req, Res>>)
    requires InStep(p) && CanMoveAll(p, ms)
    ensures InStep(ApplyAll(p, ms))
    decreases |ms|
  {
    if ms == [] {
    } else {
      MoveKeeps(p, ms[0]);
      MovesKeep(Apply(p, ms[0]), ms[1..]);
    }
  }

  /**
   * In every interleaving at most one request or result is outstanding, a helper with a result always
   * finds the channel free, and a waiting loop is waiting for something that is on its way.
   */
  lemma AtMostOneOutstanding<Req, Res>(ms: seq<Move<Req, Res>>)
    requires CanMoveAll(Initial<Req, Res>(), ms)
    ensures var p := ApplyAll(Initial<Req, Res>(), ms);
            && Outstanding(p) <= 1
            && (p.helper.Sending? ==> CanMove(p, Put))
            && (p.loop.Waiting? ==> p.helper.Working? || p.helper.Sending? || CanMove(p, Take))
  {
    MovesKeep(Initial<Req, Res>(), ms);
  }

  function StepsLeft<Req, Res>(h: Helper<Req, Res>): nat {
    match h
    case Working(_) => 3
    case Sending(_) => 2
    case Ready => 1
    case Exited => 0
  }

  /**
   * Once the loop has returned, every further move is the helper's and brings it closer to its end; the
   * only thing it can be waiting for is its current Read or Write.
   */
  lemma HelperWindsDown<Req, Res>(p: Pair<Req, Res>, m: Move<Req, Res>)
    requires InStep(p) && p.loop.Ended?
    ensures CanMove(p, m) ==> Apply(p, m).loop.Ended? && StepsLeft(Apply(p, m).helper) < StepsLeft(p.helper)
    ensures !p.helper.Working? && !p.helper.Exited? ==> CanMove(p, Put) || CanMove(p, Exit)
  {
  }

  /** So after the loop has returned at most three more moves happen at all. */
  lemma {:induction false} HelperEnds<Req, Res>(p: Pair<Req, Res>, ms: seq<Move<Req, Res>>)
    requires InStep(p) && p.loop.Ended? && CanMoveAll(p, ms)
    ensures |ms| <= StepsLeft(p.helper)
    ensures |ms| == StepsLeft(p.helper) ==> ApplyAll(p, ms).helper.Exited?
    decreases |ms|
  {
    if ms == [] {
    } else {
      MoveKeeps(p, ms[0]);
      HelperWindsDown(p, ms[0]);
      HelperEnds(Apply(p, ms[0]), ms[1..]);
    }
  }
}
