/**
 * The receiving loop as a function of arriving packets: what it delivers, what it keeps for later and
 * what it acknowledges. Nothing is assumed about the peer.
 */
module ReceiverModel {
  import opened Packets

  const MAX_OUT_OF_ORDER: nat := 50

  datatype ReceiverState = ReceiverState(expected: int, buffer: map<int, Packet>)

  const EMPTY: ReceiverState := ReceiverState(0, map[])

  /** The effect of a step: the state it leaves, what it delivered and what it acknowledged, in order. */
  datatype Receipt = Receipt(state: ReceiverState, delivered: seq<Packet>, acks: seq<int>)

  function NumbersOf(packets: seq<Packet>): (r: seq<int>)
    ensures |r| == |packets|
  {
    seq(|packets|, i requires 0 <= i < |packets| => packets[i].number)
  }

  // ---- One packet ------------------------------------------------------------------------

  /** delete(outOfOrderMessages, k) */
  function Without(m: map<int, Packet>, k: int): (r: map<int, Packet>)
    requires k in m
    ensures r.Keys == m.Keys - {k} && |r| == |m| - 1
    ensures forall j :: j in r ==> r[j] == m[j]
  {
    assert |(m - {k}).Keys| == |m.Keys| - 1;
    m - {k}
  }

  /** The state after one round of the drain loop. */
  function Taken(s: ReceiverState): ReceiverState
    requires s.expected in s.buffer
  {
    ReceiverState(s.expected + 1, Without(s.buffer, s.expected))
  }

  /** The drain loop: deliver from the buffer as long as the next number is there. */
  function Drain(s: ReceiverState): Receipt
    decreases |s.buffer|
  {
    if s.expected in s.buffer then
      var p := s.buffer[s.expected];
      var r := Drain(Taken(s));
      Receipt(r.state, [p] + r.delivered, [p.number] + r.acks)
    else Receipt(s, [], [])
  }

  /** An arriving data packet, processed to the end. */
  function Accept(s: ReceiverState, p: Packet): Receipt {
    if p.number < s.expected then Receipt(s, [], [p.number])
    else if p.number == s.expected then
      var r := Drain(s.(expected := s.expected + 1));
      Receipt(r.state, [p] + r.delivered, [p.number] + r.acks)
    else if |s.buffer| < MAX_OUT_OF_ORDER then Receipt(s.(buffer := s.buffer[p.number := p]), [], [p.number])
    else Receipt(s, [], [])
  }

  // ---- Invariant of the loop -------------------------------------------------------------

  predicate Filed(s: ReceiverState) {
    && 0 <= s.expected
    && |s.buffer| <= MAX_OUT_OF_ORDER
    && forall k :: k in s.buffer ==> s.expected <= k && s.buffer[k].number == k
  }

  /** What holds each time the loop reads the next frame. */
  predicate AtRest(s: ReceiverState) {
    Filed(s) && s.expected !in s.buffer
  }

  /** Draining takes an unbroken run of numbers from `expected` on, stops at the first gap, and keeps the rest. */
  lemma {:induction false} DrainTakes(s: ReceiverState)
    requires Filed(s)
    ensures var t := Drain(s).state;
            && AtRest(t)
            && s.expected <= t.expected && t.expected !in s.buffer
            && (forall k :: s.expected <= k < t.expected ==> k in s.buffer)
            && (forall k :: k in t.buffer <==> k in s.buffer && k > t.expected)
            && (forall k :: k in t.buffer ==> t.buffer[k] == s.buffer[k])
    decreases |s.buffer|
  {
    if s.expected !in s.buffer {
    } else {
      DrainTakes(Taken(s));
      forall k | s.expected < k < Drain(s).state.expected ensures k in s.buffer {
        assert k in Taken(s).buffer;
      }
    }
  }

  /** `q` is the packet its number stands for: `p` itself, or the one in the buffer. */
  predicate Genuine(s: ReceiverState, p: Packet, q: Packet) {
    q == p || (q.number in s.buffer && q == s.buffer[q.number])
  }

  /** What draining delivers is the buffered packets of that run, in order, each acknowledged once more. */
  lemma {:induction false} DrainDelivers(s: ReceiverState, p: Packet)
    requires Filed(s)
    ensures var r := Drain(s);
            && r.state.expected == s.expected + |r.delivered|
            && (forall i :: 0 <= i < |r.delivered| ==> r.delivered[i].number == s.expected + i)
            && (forall i :: 0 <= i < |r.delivered| ==> Genuine(s, p, r.delivered[i]))
            && r.acks == NumbersOf(r.delivered)
    decreases |s.buffer|
  {
    if s.expected !in s.buffer {
    } else {
      DrainDelivers(Taken(s), p);
      var r, d := Drain(s), Drain(Taken(s));
      forall i | 0 <= i < |r.delivered|
        ensures r.delivered[i].number == s.expected + i && Genuine(s, p, r.delivered[i])
      {
        if i > 0 {
          assert r.delivered[i] == d.delivered[i - 1];
          assert Genuine(Taken(s), p, d.delivered[i - 1]);
        }
      }
    }
  }

  /** The first arrival of the expected number delivers it and then the run that the buffer continues it with. */
  lemma AcceptExpected(s: ReceiverState, p: Packet)
    requires AtRest(s) && p.number == s.expected
    ensures var r := Accept(s, p);
            && AtRest(r.state)
            && s.expected < r.state.expected == s.expected + |r.delivered|
            && r.state.expected !in s.buffer
            && (forall k :: s.expected < k < r.state.expected ==> k in s.buffer)
            && (forall k :: k in r.state.buffer <==> k in s.buffer && k > r.state.expected)
            && (forall k :: k in r.state.buffer ==> r.state.buffer[k] == s.buffer[k])
  {
    var next := s.(expected := s.expected + 1);
    assert Filed(next);
    AcceptUnfolds(s, p);
    DrainTakes(next);
    DrainCounts(next);
    hide Accept, Drain, Filed;
  }

  lemma {:induction false} DrainCounts(s: ReceiverState)
    requires Filed(s)
    ensures Drain(s).state.expected == s.expected + |Drain(s).delivered|
    decreases |s.buffer|
  {
    if s.expected !in s.buffer {
    } else {
      DrainCounts(Taken(s));
    }
  }

  lemma AcceptUnfolds(s: ReceiverState, p: Packet)
    requires p.number == s.expected
    ensures var d := Drain(s.(expected := s.expected + 1));
            Accept(s, p) == Receipt(d.state, [p] + d.delivered, [p.number] + d.acks)
  {
  }

  lemma AcceptDelivers(s: ReceiverState, p: Packet)
    requires AtRest(s) && p.number == s.expected
    ensures var r := Accept(s, p);
            && (forall i :: 0 <= i < |r.delivered| ==> r.delivered[i].number == s.expected + i)
            && (forall i :: 0 <= i < |r.delivered| ==> Genuine(s, p, r.delivered[i]))
  {
    var next := s.(expected := s.expected + 1);
    AcceptUnfolds(s, p);
    DrainDelivers(next, p);
    hide Accept, Drain, NumbersOf;
    var r, d := Accept(s, p), Drain(next);
    forall i | 0 < i < |r.delivered| ensures r.delivered[i].number == s.expected + i && Genuine(s, p, r.delivered[i]) {
      assert r.delivered[i] == d.delivered[i - 1];
      assert Genuine(next, p, d.delivered[i - 1]);
    }
  }

  /** Every packet delivered on the arrival of the expected one is acknowledged then, in order. */
  lemma AcceptAcks(s: ReceiverState, p: Packet)
    requires AtRest(s) && p.number == s.expected
    ensures Accept(s, p).acks == NumbersOf(Accept(s, p).delivered)
  {
    var next := s.(expected := s.expected + 1);
    AcceptUnfolds(s, p);
    DrainDelivers(next, p);
    hide Accept, Drain;
    NumbersOfMore(p, Drain(next).delivered);
    hide NumbersOf;
  }

  lemma NumbersOfMore(p: Packet, rest: seq<Packet>)
    ensures NumbersOf([p] + rest) == [p.number] + NumbersOf(rest)
  {
  }

  /** Any other packet delivers nothing; it is kept if it is ahead and there is room. */
  lemma AcceptOther(s: ReceiverState, p: Packet)
    requires AtRest(s) && p.number != s.expected
    ensures var r := Accept(s, p);
            && AtRest(r.state) && r.state.expected == s.expected && r.delivered == []
            && r.state.buffer == (if p.number > s.expected && |s.buffer| < MAX_OUT_OF_ORDER
                                  then s.buffer[p.number := p] else s.buffer)
  {
    if p.number > s.expected && |s.buffer| < MAX_OUT_OF_ORDER {
      assert s.buffer[p.number := p].Keys == s.buffer.Keys + {p.number};
    }
  }

  // ---- Every arrival sequence ------------------------------------------------------------

  /** The loop's state and everything it has delivered, after a sequence of arrivals. */
  datatype Progress = Progress(state: ReceiverState, delivered: seq<Packet>)

  function After(arrivals: seq<Packet>): Progress {
    if arrivals == [] then Progress(EMPTY, [])
    else
      var before := After(arrivals[..|arrivals| - 1]);
      var r := Accept(before.state, arrivals[|arrivals| - 1]);
      Progress(r.state, before.delivered + r.delivered)
  }

  /**
   * Whatever arrives, the packets delivered are numbered 0, 1, 2, ... up to `expected`, and each packet
   * delivered or kept has arrived.
   */
  lemma {:induction false} DeliversInOrder(arrivals: seq<Packet>)
    ensures var a := After(arrivals);
            && AtRest(a.state)
            && |a.delivered| == a.state.expected
            && (forall i :: 0 <= i < |a.delivered| ==> a.delivered[i].number == i && a.delivered[i] in arrivals)
            && (forall k :: k in a.state.buffer ==> a.state.buffer[k] in arrivals)
  {
    if arrivals == [] {
    } else {
      var front, p := arrivals[..|arrivals| - 1], arrivals[|arrivals| - 1];
      DeliversInOrder(front);
      DeliversStep(front, p, After(front));
      assert arrivals == front + [p];
    }
  }

  lemma DeliversStep(front: seq<Packet>, p: Packet, b: Progress)
    requires AtRest(b.state) && |b.delivered| == b.state.expected
    requires forall i :: 0 <= i < |b.delivered| ==> b.delivered[i].number == i && b.delivered[i] in front
    requires forall k :: k in b.state.buffer ==> b.state.buffer[k] in front
    ensures var r := Accept(b.state, p);
            var delivered := b.delivered + r.delivered;
            && AtRest(r.state) && |delivered| == r.state.expected
            && (forall i :: 0 <= i < |delivered| ==> delivered[i].number == i && delivered[i] in front + [p])
            && (forall k :: k in r.state.buffer ==> r.state.buffer[k] in front + [p])
  {
    var s, r := b.state, Accept(b.state, p);
    if p.number == s.expected {
      AcceptExpected(s, p);
      AcceptDelivers(s, p);
      forall i | |b.delivered| <= i < |b.delivered + r.delivered|
        ensures (b.delivered + r.delivered)[i].number == i && (b.delivered + r.delivered)[i] in front + [p]
      {
        assert Genuine(s, p, r.delivered[i - |b.delivered|]);
      }
    } else {
      AcceptOther(s, p);
    }
  }

  // ---- Confluence ------------------------------------------------------------------------

  /** No arrival met a full buffer that did not already hold its number. */
  predicate NothingDropped(arrivals: seq<Packet>) {
    arrivals == [] ||
    var front, p := arrivals[..|arrivals| - 1], arrivals[|arrivals| - 1];
    var s := After(front).state;
    NothingDropped(front) && (p.number > s.expected ==> |s.buffer| < MAX_OUT_OF_ORDER || p.number in s.buffer)
  }

  /** Equal numbers carry equal packets. */
  ghost predicate Consistent(arrivals: seq<Packet>) {
    forall p, q :: p in arrivals && q in arrivals && p.number == q.number ==> p == q
  }

  ghost predicate Arrived(arrivals: seq<Packet>, k: int) {
    exists p :: p in arrivals && p.number == k
  }

  lemma ArrivedLast(arrivals: seq<Packet>, p: Packet, k: int)
    ensures Arrived(arrivals + [p], k) <==> Arrived(arrivals, k) || p.number == k
  {
    if Arrived(arrivals, k) {
      var q :| q in arrivals && q.number == k;
      assert q in arrivals + [p];
    }
    assert p in arrivals + [p];
  }

  /**
   * If nothing was dropped, the next expected number is the least natural number that has not arrived,
   * and the buffer holds exactly the numbers above it that have.
   */
  lemma {:induction false} StateIsLeastGap(arrivals: seq<Packet>)
    requires NothingDropped(arrivals)
    ensures var s := After(arrivals).state;
            && 0 <= s.expected
            && !Arrived(arrivals, s.expected)
            && (forall k :: 0 <= k < s.expected ==> Arrived(arrivals, k))
            && (forall k :: k in s.buffer <==> k > s.expected && Arrived(arrivals, k))
  {
    DeliversInOrder(arrivals);
    if arrivals == [] {
    } else {
      var front, p := arrivals[..|arrivals| - 1], arrivals[|arrivals| - 1];
      assert arrivals == front + [p];
      StateIsLeastGap(front);
      DeliversInOrder(front);
      forall k {
        ArrivedLast(front, p, k);
      }
      GapStep(After(front).state, p);
    }
  }

  /** What one undropped packet does to the set of numbers delivered or kept. */
  lemma GapStep(s: ReceiverState, p: Packet)
    requires AtRest(s)
    requires p.number > s.expected ==> |s.buffer| < MAX_OUT_OF_ORDER || p.number in s.buffer
    ensures var t := Accept(s, p).state;
            && s.expected <= t.expected
            && AtRest(t)
            && (forall k :: s.expected <= k < t.expected ==> k == p.number || k in s.buffer)
            && (t.expected == p.number ==> t.expected < s.expected)
            && t.expected !in s.buffer
            && (forall k :: k in t.buffer <==> k > t.expected && (k in s.buffer || k == p.number))
  {
    if p.number == s.expected {
      AcceptExpected(s, p);
    } else {
      AcceptOther(s, p);
    }
  }

  /** Two arrival sequences with the same packets and no drops leave the same state and delivery. */
  lemma Confluence(arrivals: seq<Packet>, others: seq<Packet>)
    requires NothingDropped(arrivals) && NothingDropped(others) && Consistent(arrivals)
    requires forall p :: p in arrivals <==> p in others
    ensures After(arrivals) == After(others)
  {
    forall k ensures Arrived(arrivals, k) <==> Arrived(others, k) {
    }
    StateIsLeastGap(arrivals);
    StateIsLeastGap(others);
    DeliversInOrder(arrivals);
    DeliversInOrder(others);
    var a, b := After(arrivals).state, After(others).state;
    assert Arrived(others, a.expected) <==> Arrived(arrivals, a.expected);
    assert Arrived(arrivals, b.expected) <==> Arrived(others, b.expected);
    assert a.expected == b.expected;
    forall k ensures k in a.buffer <==> k in b.buffer {
      assert Arrived(arrivals, k) <==> Arrived(others, k);
    }
    SameProgress(arrivals, After(arrivals), After(others));
  }

  lemma SameProgress(arrivals: seq<Packet>, a: Progress, b: Progress)
    requires Consistent(arrivals) && AtRest(a.state) && AtRest(b.state)
    requires |a.delivered| == a.state.expected == b.state.expected == |b.delivered|
    requires a.state.buffer.Keys == b.state.buffer.Keys
    requires forall i :: 0 <= i < |a.delivered| ==> a.delivered[i].number == i && a.delivered[i] in arrivals
    requires forall i :: 0 <= i < |b.delivered| ==> b.delivered[i].number == i && b.delivered[i] in arrivals
    requires forall k :: k in a.state.buffer ==> a.state.buffer[k] in arrivals
    requires forall k :: k in b.state.buffer ==> b.state.buffer[k] in arrivals
    ensures a == b
  {
    forall k | k in a.state.buffer ensures a.state.buffer[k] == b.state.buffer[k] {
      assert a.state.buffer[k].number == b.state.buffer[k].number;
    }
    assert a.state.buffer == b.state.buffer;
    forall i | 0 <= i < |a.delivered| ensures a.delivered[i] == b.delivered[i] {
      assert a.delivered[i].number == b.delivered[i].number;
    }
    assert a.delivered == b.delivered;
  }

  // ---- The consolidated form -------------------------------------------------------------

  /**
   * The simpler loop the source's own comment proposes: every wanted packet goes into the one map,
   * the expected one even when the map is full, and then the map is drained.
   */
  function Consolidated(s: ReceiverState, p: Packet): Receipt {
    if p.number == s.expected || (p.number > s.expected && |s.buffer| < MAX_OUT_OF_ORDER) then
      Drain(s.(buffer := s.buffer[p.number := p]))
    else Receipt(s, [], [])
  }

  /** The two forms agree on the state and on what is delivered. */
  lemma TwoPathsRefineOne(s: ReceiverState, p: Packet)
    requires AtRest(s)
    ensures Accept(s, p).state == Consolidated(s, p).state
    ensures Accept(s, p).delivered == Consolidated(s, p).delivered
  {
    var m := s.buffer[p.number := p];
    if p.number == s.expected {
      assert Without(m, p.number) == s.buffer;
    }
  }

  /** The consolidated loop after a sequence of arrivals. */
  function AfterConsolidated(arrivals: seq<Packet>): Progress {
    if arrivals == [] then Progress(EMPTY, [])
    else
      var before := AfterConsolidated(arrivals[..|arrivals| - 1]);
      var r := Consolidated(before.state, arrivals[|arrivals| - 1]);
      Progress(r.state, before.delivered + r.delivered)
  }

  /** Whatever arrives, full maps included, the two loops have the same state and delivery at every loop head. */
  lemma {:induction false} TwoLoopsAgree(arrivals: seq<Packet>)
    ensures After(arrivals) == AfterConsolidated(arrivals)
  {
    if arrivals == [] {
    } else {
      var front, p := arrivals[..|arrivals| - 1], arrivals[|arrivals| - 1];
      TwoLoopsAgree(front);
      DeliversInOrder(front);
      TwoPathsRefineOne(After(front).state, p);
    }
  }

  // ---- The loop step by step -------------------------------------------------------------

  /**
   * Where the loop stands between two things another goroutine can observe: reading a frame, holding
   * the expected packet for a delivery channel that may be full, about to look into the buffer, or
   * holding the buffered packet it has just acknowledged again.
   */
  datatype Phase = Reading | Delivering(held: Packet) | Draining | DrainDelivering

  datatype Machine = Machine(state: ReceiverState, phase: Phase)

  predicate WellPlaced(m: Machine) {
    && Filed(m.state)
    && match m.phase
       case Reading => m.state.expected !in m.state.buffer
       case Delivering(p) => m.state.expected !in m.state.buffer && p.number == m.state.expected
       case Draining => true
       case DrainDelivering => m.state.expected in m.state.buffer
  }

  /** A data frame is read: acknowledge it, keep it or drop it. */
  function Arrive(m: Machine, p: Packet): Machine {
    if p.number == m.state.expected then m.(phase := Delivering(p))
    else if p.number > m.state.expected && |m.state.buffer| < MAX_OUT_OF_ORDER then
      m.(state := m.state.(buffer := m.state.buffer[p.number := p]))
    else m
  }

  function ArriveAcks(m: Machine, p: Packet): seq<int> {
    if p.number <= m.state.expected || |m.state.buffer| < MAX_OUT_OF_ORDER then [p.number] else []
  }

  /** The delivery channel takes the packet that was expected. */
  function DeliverHeld(m: Machine): Machine {
    Machine(m.state.(expected := m.state.expected + 1), Draining)
  }

  /** The inner loop looks for the next number. */
  function Look(m: Machine): Machine {
    m.(phase := if m.state.expected in m.state.buffer then DrainDelivering else Reading)
  }

  function LookAcks(m: Machine): seq<int> {
    if m.state.expected in m.state.buffer then [m.state.buffer[m.state.expected].number] else []
  }

  /** The delivery channel takes the packet the inner loop is holding. */
  function DeliverBuffered(m: Machine): Machine
    requires m.state.expected in m.state.buffer
  {
    Machine(Taken(m.state), Draining)
  }

  /** What the loop will still deliver and acknowledge before it reads again. */
  function Remaining(m: Machine): Receipt
    requires WellPlaced(m)
  {
    match m.phase
    case Reading => Receipt(m.state, [], [])
    case Delivering(p) =>
      var d := Drain(m.state.(expected := m.state.expected + 1));
      Receipt(d.state, [p] + d.delivered, d.acks)
    case Draining => Drain(m.state)
    case DrainDelivering =>
      var d := Drain(Taken(m.state));
      Receipt(d.state, [m.state.buffer[m.state.expected]] + d.delivered, d.acks)
  }

  /** Taken step by step, the loop does with each packet what Accept says. */
  lemma StepsComputeAccept(m: Machine, p: Packet)
    requires WellPlaced(m) && m.phase.Reading?
    ensures WellPlaced(Arrive(m, p))
    ensures var r := Remaining(Arrive(m, p));
            Accept(m.state, p) == Receipt(r.state, r.delivered, ArriveAcks(m, p) + r.acks)
  {
    if p.number == m.state.expected {
      AcceptUnfolds(m.state, p);
      hide Accept, Drain;
    } else {
      AcceptOther(m.state, p);
      AcceptOtherAcks(m, p);
      hide Accept, Drain;
    }
  }

  lemma AcceptOtherAcks(m: Machine, p: Packet)
    requires p.number != m.state.expected
    ensures Accept(m.state, p) == Receipt(Arrive(m, p).state, [], ArriveAcks(m, p))
  {
  }

  /** Each later step puts out exactly the next piece of what remains, and the last one leaves nothing. */
  lemma StepsFollowRemaining(m: Machine)
    requires WellPlaced(m)
    ensures m.phase.Reading? ==> Remaining(m) == Receipt(m.state, [], [])
    ensures m.phase.Delivering? ==>
              && WellPlaced(DeliverHeld(m))
              && var r := Remaining(DeliverHeld(m));
                 Remaining(m) == Receipt(r.state, [m.phase.held] + r.delivered, r.acks)
    ensures m.phase.Draining? ==>
              && WellPlaced(Look(m))
              && var r := Remaining(Look(m));
                 Remaining(m) == Receipt(r.state, r.delivered, LookAcks(m) + r.acks)
    ensures m.phase.DrainDelivering? ==>
              && WellPlaced(DeliverBuffered(m))
              && var r := Remaining(DeliverBuffered(m));
                 Remaining(m) == Receipt(r.state, [m.state.buffer[m.state.expected]] + r.delivered, r.acks)
  {
  }
}
