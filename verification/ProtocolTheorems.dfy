/** What the protocol guarantees in every run: delivery, forgetting, the joint window, and where it fails. */
module ProtocolTheorems {
  import opened Packets
  import opened SenderModel
  import opened Protocol
  import R = ReceiverModel

  // ---- Runs ------------------------------------------------------------------------------

  predicate CanRun(s: System, acts: seq<Action>)
    decreases |acts|
  {
    acts == [] || (CanStep(s, acts[0]) && CanRun(Step(s, acts[0]), acts[1..]))
  }

  function Run(s: System, acts: seq<Action>): System
    requires CanRun(s, acts)
    decreases |acts|
  {
    if acts == [] then s else Run(Step(s, acts[0]), acts[1..])
  }

  /** Stop's packet is written only where it is harmless. */
  predicate CarefulRun(s: System, acts: seq<Action>)
    requires CanRun(s, acts)
    decreases |acts|
  {
    acts == [] || (Careful(s, acts[0]) && CarefulRun(Step(s, acts[0]), acts[1..]))
  }

  lemma {:induction false} RunKeeps(s: System, acts: seq<Action>)
    requires Inv(s) && CanRun(s, acts)
    ensures Inv(Run(s, acts))
    decreases |acts|
  {
    if acts == [] {
    } else {
      StepKeeps(s, acts[0]);
      RunKeeps(Step(s, acts[0]), acts[1..]);
    }
  }

  lemma {:induction false} RunKeepsUntaken(s: System, acts: seq<Action>)
    requires Inv(s) && Untaken(s) && CanRun(s, acts) && CarefulRun(s, acts)
    ensures Untaken(Run(s, acts))
    decreases |acts|
  {
    if acts == [] {
    } else {
      StepKeeps(s, acts[0]);
      StepKeepsUntaken(s, acts[0]);
      RunKeepsUntaken(Step(s, acts[0]), acts[1..]);
    }
  }

  // ---- Delivery --------------------------------------------------------------------------

  /** The delivered packets are the bodies written, in order and numbered from 0, up to `expected`. */
  predicate DeliveredIsPrefix(s: System) {
    && |s.delivered| == s.receiver.state.expected <= s.sender.state.next <= |s.written|
    && forall i :: 0 <= i < |s.delivered| ==> s.delivered[i] == Stamp(i, s.written[i])
  }

  /** The same, but Stop's packet may stand in the place of number 0, even if nothing has been sent yet. */
  predicate PrefixButForFirst(s: System) {
    && |s.delivered| == s.receiver.state.expected <= (if s.sender.state.next == 0 then 1 else s.sender.state.next)
    && s.sender.state.next <= |s.written|
    && (forall i :: 1 <= i < |s.delivered| ==> s.delivered[i] == Stamp(i, s.written[i]))
    && (s.delivered != [] ==> s.delivered[0] == TERMINATE || Sent(s, s.delivered[0]))
  }

  lemma DeliveredOf(s: System)
    requires Inv(s)
    ensures PrefixButForFirst(s)
    ensures DeliveredIsPrefix(s) <==> s.delivered == [] || Sent(s, s.delivered[0])
  {
    forall i | 1 <= i < |s.delivered| ensures Sent(s, s.delivered[i]) {
      assert Genuine(s, s.delivered[i]);
    }
    if |s.delivered| > 1 {
      assert Sent(s, s.delivered[|s.delivered| - 1]);
    }
  }

  /**
   * Over a link that loses, repeats and reorders, in every interleaving, whenever Stop is called: what
   * has been delivered is a prefix of what has been written, in order, each exactly once, the k-th body
   * as number k. The one exception is the first place, which Stop's packet may have taken.
   */
  lemma InOrderButForFirst(acts: seq<Action>)
    requires CanRun(INITIAL_SYSTEM, acts)
    ensures var s := Run(INITIAL_SYSTEM, acts);
            && PrefixButForFirst(s)
            && (DeliveredIsPrefix(s) <==> s.delivered == [] || Sent(s, s.delivered[0]))
  {
    InitialInv();
    RunKeeps(INITIAL_SYSTEM, acts);
    DeliveredOf(Run(INITIAL_SYSTEM, acts));
  }

  /** There is no exception in a run in which Stop's packet is written only where it is harmless. */
  lemma ExactlyOnceInOrder(acts: seq<Action>)
    requires CanRun(INITIAL_SYSTEM, acts) && CarefulRun(INITIAL_SYSTEM, acts)
    ensures DeliveredIsPrefix(Run(INITIAL_SYSTEM, acts))
  {
    InitialInv();
    RunKeeps(INITIAL_SYSTEM, acts);
    RunKeepsUntaken(INITIAL_SYSTEM, acts);
    DeliveredOf(Run(INITIAL_SYSTEM, acts));
  }

  /**
   * What is delivered has the flags it was written with, but for the first: number 0 is a Syn unless it
   * was written as a Fin.
   */
  lemma FlagsDelivered(acts: seq<Action>, k: nat)
    requires CanRun(INITIAL_SYSTEM, acts) && k < |Run(INITIAL_SYSTEM, acts).delivered|
    ensures var s := Run(INITIAL_SYSTEM, acts);
            var flags := s.delivered[k].body.flags;
            && (k > 0 ==> k < |s.written| && flags == s.written[k].flags)
            && (k == 0 && s.delivered[0] != TERMINATE ==>
                  s.written != [] && flags == if s.written[0].flags == 2 then 2 else 1)
  {
    InOrderButForFirst(acts);
    var s := Run(INITIAL_SYSTEM, acts);
    if k < |s.written| {
      StampMeans(k, s.written[k]);
    }
    hide CanRun, Run;
  }

  /** No queue holds more than 20 messages. */
  lemma QueuesAreBounded(acts: seq<Action>)
    requires CanRun(INITIAL_SYSTEM, acts)
    ensures var s := Run(INITIAL_SYSTEM, acts);
            && 0 <= |s.written| - s.sender.state.next <= 20
            && 0 <= |s.delivered| - s.taken <= 20
  {
    InitialInv();
    RunKeeps(INITIAL_SYSTEM, acts);
  }

  /** A number the sender has removed from its map has been delivered, is buffered, or is in hand. */
  lemma ForgottenIsCovered(acts: seq<Action>, k: int)
    requires CanRun(INITIAL_SYSTEM, acts)
    ensures var s := Run(INITIAL_SYSTEM, acts);
            && (0 <= k < s.sender.state.next && k !in s.sender.state.unacked ==> Covered(s.receiver, k))
            && (s.receiver.phase.Reading? && 0 <= k < s.sender.state.next && k !in s.sender.state.unacked ==>
                  k < |s.delivered| || k in s.receiver.state.buffer)
  {
    InitialInv();
    RunKeeps(INITIAL_SYSTEM, acts);
  }

  /**
   * The packet the receiver is waiting for is always still with the sender, and the receiver takes it
   * even when its buffer is full.
   */
  lemma ExpectedIsStillHeld(s: System)
    requires Inv(s) && s.receiver.phase.Reading? && s.receiver.state.expected < s.sender.state.next
    ensures var e := s.receiver.state.expected;
            && e in s.sender.state.unacked
            && s.sender.state.unacked[e].packet == Stamp(e, s.written[e])
            && R.Accept(s.receiver.state, Stamp(e, s.written[e])).state.expected > e
            && [Stamp(e, s.written[e])] <= R.Accept(s.receiver.state, Stamp(e, s.written[e])).delivered
  {
    var e := s.receiver.state.expected;
    assert !Covered(s.receiver, e);
    R.AcceptExpected(s.receiver.state, Stamp(e, s.written[e]));
    R.AcceptUnfolds(s.receiver.state, Stamp(e, s.written[e]));
  }

  // ---- The joint window ------------------------------------------------------------------

  function Range(a: int, b: int): (r: set<int>)
    ensures forall k :: k in r <==> a <= k < b
    decreases b - a
  {
    if a < b then Range(a, b - 1) + {b - 1} else {}
  }

  lemma {:induction false} RangeSize(a: int, b: int)
    requires a <= b
    ensures |Range(a, b)| == b - a
    decreases b - a
  {
    if a >= b {
    } else {
      RangeSize(a, b - 1);
    }
  }

  lemma {:induction false} SubsetSize(a: set<int>, b: set<int>)
    requires a <= b
    ensures |a| <= |b|
  {
    assert b == a + (b - a);
  }

  /** How many packets may be held between the channel and the reading loop. */
  function InHand(m: R.Machine): nat {
    if m.phase.Delivering? then 1 else 0
  }

  /**
   * The two limits, 10 in flight by count and 50 in the buffer by count, bound the distance between
   * the two counters: every number from `expected` up to `next` is in flight, buffered, or in hand.
   */
  lemma WindowOf(s: System)
    requires Inv(s)
    ensures s.sender.state.next - s.receiver.state.expected <= MAX_INFLIGHT + R.MAX_OUT_OF_ORDER + InHand(s.receiver)
  {
    var e, n := s.receiver.state.expected, s.sender.state.next;
    var inFlight, buffered := s.sender.state.unacked.Keys, s.receiver.state.buffer.Keys;
    var held := if s.receiver.phase.Delivering? then {e} else {};
    if e <= n {
      forall k | k in Range(e, n) ensures k in inFlight + buffered + held {
        assert k in s.sender.state.unacked || Covered(s.receiver, k);
      }
      RangeSize(e, n);
      SubsetSize(Range(e, n), inFlight + buffered + held);
      UnionSize(inFlight, buffered);
      UnionSize(inFlight + buffered, held);
    }
  }

  lemma UnionSize(a: set<int>, b: set<int>)
    ensures |a + b| <= |a| + |b|
  {
    assert |a + b| == |a| + |b| - |a * b|;
  }

  /** At most 60 numbers apart at every loop head, and at most 61 while the expected packet is in hand. */
  lemma JointWindow(acts: seq<Action>)
    requires CanRun(INITIAL_SYSTEM, acts)
    ensures var s := Run(INITIAL_SYSTEM, acts);
            s.sender.state.next - s.receiver.state.expected <= 60 + InHand(s.receiver)
  {
    InitialInv();
    RunKeeps(INITIAL_SYSTEM, acts);
    WindowOf(Run(INITIAL_SYSTEM, acts));
  }

  // ---- Where acknowledging first shows ---------------------------------------------------

  /** The sender has forgotten `k`. */
  predicate Forgotten(s: System, k: int) {
    0 <= k < s.sender.state.next && k !in s.sender.state.unacked
  }

  /** No continuation delivers number `k`. */
  ghost predicate NeverDelivered(s: System, k: int) {
    forall acts :: CanRun(s, acts) ==> k >= |Run(s, acts).delivered|
  }

  /** The receiver is keeping `k`, or has it in hand for the delivery channel. */
  predicate Holding(m: R.Machine, k: int) {
    k in m.state.buffer || (m.phase.Delivering? && k == m.state.expected)
  }

  lemma {:induction false} EndedStays(s: System, acts: seq<Action>)
    requires !s.receiverLive && CanRun(s, acts)
    ensures Run(s, acts).delivered == s.delivered
    decreases |acts|
  {
    if acts == [] {
    } else {
      EndedStays(Step(s, acts[0]), acts[1..]);
    }
  }

  /**
   * A packet is acknowledged before it is delivered. In every run, once the receiving session has ended,
   * a packet that the sender has forgotten is never delivered exactly when the receiver is still holding
   * it.
   */
  lemma ForgottenIsLostIff(acts: seq<Action>, k: int)
    requires CanRun(INITIAL_SYSTEM, acts) && !Run(INITIAL_SYSTEM, acts).receiverLive
    requires Forgotten(Run(INITIAL_SYSTEM, acts), k)
    ensures var s := Run(INITIAL_SYSTEM, acts);
            NeverDelivered(s, k) <==> Holding(s.receiver, k)
  {
    var s := Run(INITIAL_SYSTEM, acts);
    InitialInv();
    RunKeeps(INITIAL_SYSTEM, acts);
    HeldIsUndelivered(s, k);
    forall more | CanRun(s, more) ensures Run(s, more).delivered == s.delivered {
      EndedStays(s, more);
    }
    assert CanRun(s, []) && Run(s, []) == s;
  }

  /** What has been forgotten has been delivered or is being held, and not both. */
  lemma HeldIsUndelivered(s: System, k: int)
    requires Inv(s) && Forgotten(s, k)
    ensures Holding(s.receiver, k) <==> k >= |s.delivered|
  {
    assert Covered(s.receiver, k);
  }

  /** Those are at most 50 packets, and the one in hand. */
  lemma FewAreLost(acts: seq<Action>, ks: set<int>)
    requires CanRun(INITIAL_SYSTEM, acts) && !Run(INITIAL_SYSTEM, acts).receiverLive
    requires forall k :: k in ks ==>
               Forgotten(Run(INITIAL_SYSTEM, acts), k) && NeverDelivered(Run(INITIAL_SYSTEM, acts), k)
    ensures |ks| <= R.MAX_OUT_OF_ORDER + InHand(Run(INITIAL_SYSTEM, acts).receiver)
  {
    var s := Run(INITIAL_SYSTEM, acts);
    InitialInv();
    RunKeeps(INITIAL_SYSTEM, acts);
    var buffered := s.receiver.state.buffer.Keys;
    var held := if s.receiver.phase.Delivering? then {s.receiver.state.expected} else {};
    forall k | k in ks ensures k in buffered + held {
      ForgottenIsLostIff(acts, k);
    }
    SubsetSize(ks, buffered + held);
    UnionSize(buffered, held);
  }

  /** It happens to a single packet: acknowledged, and the session ends before it is delivered. */
  lemma AcknowledgedButNeverDelivered(body: Body)
    requires body.carried
    ensures var acts := [Write(body), SenderStep(MessagePulled(body, 0, 0)), Arrive(Stamp(0, body)),
                         SenderStep(AckReceived(0)), StopReceiver];
            && CanRun(INITIAL_SYSTEM, acts)
            && var s := Run(INITIAL_SYSTEM, acts);
               && !s.receiverLive && s.delivered == []
               && s.sender.state.next == 1 && s.sender.state.unacked == map[]
  {
    var p := Stamp(0, body);
    var pull := MessagePulled(body, 0, 0);
    var a0, a1, a2, a3, a4 := Write(body), SenderStep(pull), Arrive(p), SenderStep(AckReceived(0)), StopReceiver;
    var s1 := Step(INITIAL_SYSTEM, a0);
    var s2 := Step(s1, a1);
    assert Handed(s1.sender, pull) == {p};
    assert s2.sender.state == SenderState(1, map[0 := Entry(p, 0, 0)], true) && s2.data == {p};
    assert s2.receiver == INITIAL_SYSTEM.receiver;
    Vanishes(s2, body);
    RunOne(s1, a1, [a2, a3, a4]);
    RunOne(INITIAL_SYSTEM, a0, [a1, a2, a3, a4]);
  }

  lemma Vanishes(s: System, body: Body)
    requires s.receiverLive && s.receiver == R.Machine(R.EMPTY, R.Reading) && s.delivered == []
    requires s.sender.live && s.sender.state == SenderState(1, map[0 := Entry(Stamp(0, body), 0, 0)], true)
    requires s.data == {Stamp(0, body)}
    ensures var acts := [Arrive(Stamp(0, body)), SenderStep(AckReceived(0)), StopReceiver];
            && CanRun(s, acts)
            && var t := Run(s, acts);
               && !t.receiverLive && t.delivered == []
               && t.sender.state.next == 1 && t.sender.state.unacked == map[]
  {
    var a2, a3 := Arrive(Stamp(0, body)), SenderStep(AckReceived(0));
    var s3 := Step(s, a2);
    assert AsSet([0]) == {0};
    var s4 := Step(s3, a3);
    assert s4.sender.state.unacked == map[];
    RunOne(s4, StopReceiver, []);
    RunOne(s3, a3, [StopReceiver]);
    RunOne(s, a2, [a3, StopReceiver]);
  }

  lemma RunOne(s: System, a: Action, rest: seq<Action>)
    requires CanStep(s, a) && CanRun(Step(s, a), rest)
    ensures CanRun(s, [a] + rest) && Run(s, [a] + rest) == Run(Step(s, a), rest)
    ensures Careful(s, a) && CarefulRun(Step(s, a), rest) ==> CarefulRun(s, [a] + rest)
  {
    assert ([a] + rest)[1..] == rest;
  }

  // ---- The terminate frame ---------------------------------------------------------------

  /** Every careful continuation of `s` delivers a prefix of what is written. */
  ghost predicate StaysPrefix(s: System) {
    forall acts :: CanRun(s, acts) && CarefulRun(s, acts) ==> DeliveredIsPrefix(Run(s, acts))
  }

  /**
   * Stop's terminate frame carries number 0 without having been given it. Wherever the two loops are,
   * it leaves delivery intact exactly when it is harmless; before that it can take the place of number
   * 0, and the first body written is then never delivered.
   */
  lemma TerminateHarmlessIff(s: System)
    requires Inv(s) && Untaken(s) && s.sender.live
    ensures StaysPrefix(Step(s, WriteTerminate)) <==> Harmless(s)
  {
    var t := Step(s, WriteTerminate);
    StepKeeps(s, WriteTerminate);
    if Harmless(s) {
      StepKeepsUntaken(s, WriteTerminate);
      forall acts | CanRun(t, acts) && CarefulRun(t, acts) ensures DeliveredIsPrefix(Run(t, acts)) {
        RunKeeps(t, acts);
        RunKeepsUntaken(t, acts);
        DeliveredOf(Run(t, acts));
      }
    } else {
      TerminateTakesZero(t);
    }
  }

  /** The run that delivers the terminate packet as number 0. */
  lemma TerminateTakesZero(t: System)
    requires Inv(t) && TERMINATE in t.data && !Harmless(t)
    ensures !StaysPrefix(t)
  {
    if t.receiver.phase.Draining? {
      var u := Step(t, Look);
      StepKeeps(t, Look);
      ReadingTakesZero(u);
      RunOne(t, Look, [Arrive(TERMINATE), Deliver]);
      assert !DeliveredIsPrefix(Run(t, [Look] + [Arrive(TERMINATE), Deliver]));
    } else {
      ReadingTakesZero(t);
    }
  }

  lemma ReadingTakesZero(t: System)
    requires Inv(t) && t.receiver.phase.Reading? && TERMINATE in t.data && !Harmless(t)
    ensures var acts := [Arrive(TERMINATE), Deliver];
            CanRun(t, acts) && CarefulRun(t, acts) && !DeliveredIsPrefix(Run(t, acts))
  {
    var u := Step(t, Arrive(TERMINATE));
    var v := Step(u, Deliver);
    RunOne(u, Deliver, []);
    RunOne(t, Arrive(TERMINATE), [Deliver]);
    assert v.delivered == [TERMINATE];
  }
}
