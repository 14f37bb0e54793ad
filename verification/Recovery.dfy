/** From which states the protocol can still get everything across, after everything under way was lost. */
module Recovery {
  import opened Numbers
  import opened Packets
  import opened SenderModel
  import opened Protocol
  import opened ProtocolTheorems
  import R = ReceiverModel

  // ---- Reachability ----------------------------------------------------------------------

  /** Stop is not called: no terminate packet is written. */
  predicate Quiet(acts: seq<Action>) {
    forall a :: a in acts ==> !a.WriteTerminate?
  }

  ghost predicate Reaches(s: System, t: System) {
    exists acts :: CanRun(s, acts) && Quiet(acts) && Run(s, acts) == t
  }

  lemma ReachesItself(s: System)
    ensures Reaches(s, s)
  {
    assert CanRun(s, []) && Quiet([]) && Run(s, []) == s;
  }

  lemma ReachesBy(s: System, a: Action)
    requires CanStep(s, a) && !a.WriteTerminate?
    ensures Reaches(s, Step(s, a))
  {
    RunOne(s, a, []);
    assert CanRun(s, [a] + []) && Quiet([a] + []) && Run(s, [a] + []) == Step(s, a);
  }

  lemma {:induction false} RunOn(s: System, acts: seq<Action>, more: seq<Action>)
    requires CanRun(s, acts) && CanRun(Run(s, acts), more)
    ensures CanRun(s, acts + more)
    ensures Run(s, acts + more) == Run(Run(s, acts), more)
    decreases |acts|
  {
    if acts == [] {
      assert acts + more == more;
    } else {
      RunOn(Step(s, acts[0]), acts[1..], more);
      assert (acts + more)[1..] == acts[1..] + more;
    }
  }

  lemma ReachesOn(s: System, t: System, u: System)
    requires Reaches(s, t) && Reaches(t, u)
    ensures Reaches(s, u)
  {
    var a :| CanRun(s, a) && Quiet(a) && Run(s, a) == t;
    var b :| CanRun(t, b) && Quiet(b) && Run(t, b) == u;
    RunOn(s, a, b);
    assert Quiet(a + b);
  }

  lemma {:induction false} QuietIsCareful(s: System, acts: seq<Action>)
    requires CanRun(s, acts) && Quiet(acts)
    ensures CarefulRun(s, acts)
    decreases |acts|
  {
    if acts == [] {
    } else {
      QuietIsCareful(Step(s, acts[0]), acts[1..]);
    }
  }

  lemma ReachesKeeps(s: System, t: System)
    requires Inv(s) && Reaches(s, t)
    ensures Inv(t)
    ensures Untaken(s) ==> Untaken(t)
  {
    var a :| CanRun(s, a) && Quiet(a) && Run(s, a) == t;
    RunKeeps(s, a);
    QuietIsCareful(s, a);
    if Untaken(s) {
      RunKeepsUntaken(s, a);
    }
  }

  // ---- Letting the receiver come to rest -------------------------------------------------

  /**
   * The receiver is keeping `k` and has yet to acknowledge it again on delivery. The one packet it may
   * be blocked on in its inner loop has been acknowledged again already.
   */
  predicate Kept(m: R.Machine, k: int) {
    k in m.state.buffer && !(m.phase.DrainDelivering? && k == m.state.expected)
  }

  /** Only the receiver has moved: it has more, and what it no longer keeps it has acknowledged again. */
  ghost predicate Calmer(s: System, t: System) {
    && t.sender == s.sender && t.data == s.data && t.written == s.written
    && s.acks <= t.acks && t.receiverLive == s.receiverLive
    && s.receiver.state.expected <= t.receiver.state.expected
    && forall j :: Kept(s.receiver, j) ==> Kept(t.receiver, j) || j in t.acks
  }

  function Rank(m: R.Machine): nat {
    match m.phase
    case Reading => 0
    case Delivering(_) => 2 * |m.state.buffer| + 2
    case Draining => 2 * |m.state.buffer| + 1
    case DrainDelivering => 2 * |m.state.buffer|
  }

  /** Read makes room in the delivery channel if it is full. */
  lemma MakeRoom(s: System) returns (t: System)
    requires Inv(s)
    ensures Inv(t) && Reaches(s, t) && Calmer(s, t) && t.receiver == s.receiver
    ensures |t.delivered| - t.taken < QUEUE_SIZE
  {
    if |s.delivered| - s.taken < QUEUE_SIZE {
      t := s;
      ReachesItself(s);
    } else {
      t := Step(s, Read);
      StepKeeps(s, Read);
      ReachesBy(s, Read);
    }
  }

  /** One step of a receiver that is not reading. */
  lemma CalmStep(s: System) returns (t: System)
    requires Inv(s) && s.receiverLive && !s.receiver.phase.Reading?
    ensures Inv(t) && Reaches(s, t) && Calmer(s, t) && Rank(t.receiver) < Rank(s.receiver)
  {
    var a := if s.receiver.phase.Delivering? then Deliver
             else if s.receiver.phase.Draining? then Look else DeliverBuffered;
    var r := MakeRoom(s);
    t := Step(r, a);
    StepKeeps(r, a);
    ReachesBy(r, a);
    ReachesOn(s, r, t);
    var e, buffer := s.receiver.state.expected, s.receiver.state.buffer;
    if a.Look? && e in buffer {
      assert R.LookAcks(r.receiver) == [e];
      assert e in AsSet([e]);
    }
  }

  lemma {:induction false} Settle(s: System) returns (t: System)
    requires Inv(s) && s.receiverLive
    ensures Inv(t) && Reaches(s, t) && Calmer(s, t) && t.receiver.phase.Reading?
    decreases Rank(s.receiver)
  {
    if s.receiver.phase.Reading? {
      t := s;
      ReachesItself(s);
    } else {
      var r := CalmStep(s);
      t := Settle(r);
      ReachesOn(s, r, t);
    }
  }

  // ---- Getting one packet acknowledged ---------------------------------------------------

  /** Both sessions are running, wherever their loops are, and the invariants hold. */
  ghost predicate Live(s: System) {
    Inv(s) && Timed(s.sender) && s.sender.live && s.receiverLive
  }

  /** The receiver is between two frames. */
  ghost predicate Resting(s: System) {
    Live(s) && s.receiver.phase.Reading?
  }

  /** There is still a moment at which the sender would write `k` again before it gives up on it, and `k` can arrive. */
  predicate Resendable(h: History, k: int)
    requires k in h.state.unacked
  {
    var e := h.state.unacked[k];
    e.packet.body.carried
    && h.clock <= e.first + RESEND_TIMEOUT && e.last + RESEND_INTERVAL + 1 <= e.first + RESEND_TIMEOUT
  }

  /** A frame with number `k` may still arrive. */
  ghost predicate UnderWay(s: System, k: int) {
    exists p :: p in s.data && p.number == k
  }

  /** Whatever is still needed to get `k` acknowledged is under way, kept by the receiver, or can be resent. */
  ghost predicate Hopeful(s: System, k: int)
    requires k in s.sender.state.unacked
  {
    || k in s.acks
    || Kept(s.receiver, k)
    || UnderWay(s, k)
    || Resendable(s.sender, k)
  }

  ghost predicate AllHopeful(s: System) {
    forall k :: k in s.sender.state.unacked ==> Hopeful(s, k)
  }

  /** The smallest number in flight is never one the receiver is keeping, and is not beyond `expected`. */
  lemma Smallest(s: System) returns (k: int)
    requires Resting(s) && s.sender.state.unacked.Keys != {}
    ensures k in s.sender.state.unacked && k <= s.receiver.state.expected && k !in s.receiver.state.buffer
    ensures forall j :: j in s.sender.state.unacked ==> k <= j
  {
    k := Minimum(s.sender.state.unacked.Keys);
    var e := s.receiver.state.expected;
    assert !Covered(s.receiver, e);
    assert e < s.sender.state.next ==> e in s.sender.state.unacked;
  }

  lemma {:induction false} Minimum(s: set<int>) returns (k: int)
    requires s != {}
    ensures k in s && forall j :: j in s ==> k <= j
    decreases |s|
  {
    assert (forall j :: j !in s) ==> s == {};
    k :| k in s;
    var rest := s - {k};
    if rest == {} {
      assert s == {k};
    } else {
      var m := Minimum(rest);
      assert s == rest + {k};
      if m < k {
        k := m;
      }
    }
  }

  /** A frame the receiver can use at once leads to its acknowledgment, with nothing else given up. */
  lemma ArriveAndSettle(s: System, p: Packet) returns (t: System)
    requires Resting(s) && p in s.data && p.number <= s.receiver.state.expected
    ensures Resting(t) && Reaches(s, t) && Calmer(s, t) && p.number in t.acks
  {
    var a := Step(s, Arrive(p));
    StepKeeps(s, Arrive(p));
    ReachesBy(s, Arrive(p));
    assert R.ArriveAcks(s.receiver, p) == [p.number];
    assert p.number in AsSet([p.number]);
    t := Settle(a);
    ReachesOn(s, a, t);
  }

  lemma HopefulCalmer(s: System, t: System)
    requires AllHopeful(s) && Calmer(s, t)
    ensures AllHopeful(t)
  {
  }

  /** The moment of the resend pass that writes `k` again. */
  function ResendTime(h: History, k: int): int
    requires k in h.state.unacked
  {
    var due := h.state.unacked[k].last + RESEND_INTERVAL + 1;
    if due < h.clock then h.clock else due
  }

  /** A step of the sender after which it is still running. */
  lemma SenderTakes(s: System, e: Event) returns (t: System)
    requires Resting(s) && CanStep(s, SenderStep(e)) && Next(s.sender, e).live
    ensures Resting(t) && Reaches(s, t) && t == Step(s, SenderStep(e))
  {
    t := Step(s, SenderStep(e));
    StepKeeps(s, SenderStep(e));
    ReachesBy(s, SenderStep(e));
    TimedStep(s.sender, e);
    hide Inv, Timed, Reaches;
  }

  /** The resend pass that writes the smallest number in flight again does not time out. */
  lemma ResendAllowed(h: History, k: int)
    requires Timed(h) && h.live && k in h.state.unacked && Resendable(h, k)
    requires forall j :: j in h.state.unacked ==> k <= j
    ensures var now := ResendTime(h, k);
            && Enabled(h, Ticked(now, {})) && !TimedOut(h.state, now) && k in Idle(h.state, now)
  {
  }

  /** A resend pass for the smallest number in flight kills nothing, and keeps every other one hopeful. */
  lemma ResendSmallest(s: System, k: int) returns (t: System)
    requires Resting(s) && AllHopeful(s) && k in s.sender.state.unacked && Resendable(s.sender, k)
    requires forall j :: j in s.sender.state.unacked ==> k <= j
    ensures Resting(t) && Reaches(s, t) && AllHopeful(t)
    ensures t.receiver == s.receiver && t.sender.state.unacked.Keys == s.sender.state.unacked.Keys
    ensures t.sender.state.next == s.sender.state.next && t.written == s.written
    ensures UnderWay(t, k)
  {
    hide Reaches, Inv, Timed, Resendable, ResendTime, Idle, TimedOut, AllHopeful;
    var now := ResendTime(s.sender, k);
    ResendAllowed(s.sender, k);
    t := SenderTakes(s, Ticked(now, {}));
    ResendLeaves(s, t, k);
  }

  lemma ResendLeaves(s: System, t: System, k: int)
    requires Resting(s) && AllHopeful(s) && k in s.sender.state.unacked && Resendable(s.sender, k)
    requires forall j :: j in s.sender.state.unacked ==> k <= j
    requires var e := Ticked(ResendTime(s.sender, k), {});
             && CanStep(s, SenderStep(e)) && t == Step(s, SenderStep(e)) && t.sender.live
             && k in Idle(s.sender.state, e.now)
    ensures AllHopeful(t) && UnderWay(t, k)
  {
    var e := Ticked(ResendTime(s.sender, k), {});
    assert s.sender.state.unacked[k].packet in Emitted(s.sender, e);
    assert t.sender.state.unacked.Keys == s.sender.state.unacked.Keys;
    hide Inv, Timed, Resendable, ResendTime, Idle, TimedOut, Emitted, Next;
    forall j | j in t.sender.state.unacked ensures Hopeful(t, j) {
      ResendKeepsHope(s, t, k, j);
    }
  }

  lemma ResendKeepsHope(s: System, t: System, k: int, j: int)
    requires Resting(s) && k in s.sender.state.unacked && j in s.sender.state.unacked && k <= j
    requires Hopeful(s, j) && Resendable(s.sender, k)
    requires var e := Ticked(ResendTime(s.sender, k), {});
             CanStep(s, SenderStep(e)) && t == Step(s, SenderStep(e)) && t.sender.live
    ensures j in t.sender.state.unacked && Hopeful(t, j)
  {
    var now := ResendTime(s.sender, k);
    var e := s.sender.state.unacked[j];
    if IsIdle(e, now) && e.packet.body.carried {
      assert j in Idle(s.sender.state, now);
      assert e.packet in Emitted(s.sender, Ticked(now, {}));
    }
  }

  // ---- Getting everything acknowledged ---------------------------------------------------

  /** The acknowledgment of `k` reaches the sender; the others are as hopeful as before. */
  lemma TakeAck(s: System, k: int) returns (t: System)
    requires Resting(s) && AllHopeful(s) && k in s.sender.state.unacked && k in s.acks
    ensures Resting(t) && Reaches(s, t) && AllHopeful(t)
    ensures t.sender.state.unacked == s.sender.state.unacked - {k} && t.sender.state.next == s.sender.state.next
    ensures t.written == s.written
  {
    hide Reaches, Inv, Timed, AllHopeful;
    t := SenderTakes(s, AckReceived(k));
    HopefulAfterAck(s, t, k);
  }

  lemma HopefulAfterAck(s: System, t: System, k: int)
    requires AllHopeful(s) && s.sender.live && t == s.(sender := Next(s.sender, AckReceived(k)))
    ensures AllHopeful(t)
  {
    forall j | j in t.sender.state.unacked ensures Hopeful(t, j) {
      assert Hopeful(s, j);
    }
  }

  /** The frame of the smallest number in flight is under way, or is made to be. */
  lemma GetFrame(s: System, k: int) returns (t: System)
    requires Resting(s) && AllHopeful(s) && k in s.sender.state.unacked
    requires k !in s.receiver.state.buffer && k !in s.acks && k <= s.receiver.state.expected
    requires forall j :: j in s.sender.state.unacked ==> k <= j
    ensures Resting(t) && Reaches(s, t) && AllHopeful(t)
    ensures t.receiver == s.receiver && t.sender.state.unacked.Keys == s.sender.state.unacked.Keys
    ensures t.sender.state.next == s.sender.state.next && t.written == s.written
    ensures UnderWay(t, k)
  {
    assert Hopeful(s, k);
    if UnderWay(s, k) {
      t := s;
      ReachesItself(s);
    } else {
      t := ResendSmallest(s, k);
    }
  }

  /** One number fewer in flight. */
  lemma AckOne(s: System) returns (t: System)
    requires Resting(s) && AllHopeful(s) && s.sender.state.unacked.Keys != {}
    ensures Resting(t) && Reaches(s, t) && AllHopeful(t) && t.written == s.written
    ensures t.sender.state.unacked.Keys < s.sender.state.unacked.Keys && t.sender.state.next == s.sender.state.next
  {
    var k := Smallest(s);
    if k in s.acks {
      t := TakeAck(s, k);
    } else {
      var u := GetFrame(s, k);
      var p :| p in u.data && p.number == k;
      var v := ArriveAndSettle(u, p);
      HopefulCalmer(u, v);
      t := TakeAck(v, k);
      ReachesOn(s, u, v);
      ReachesOn(s, v, t);
    }
  }

  /** Every number pulled has been delivered, nothing is in flight, and the session has not given up. */
  predicate Recovered(s: System) {
    s.sender.live && s.sender.state.unacked == map[] && s.sender.state.next <= s.receiver.state.expected
  }

  lemma {:induction false} RecoverResting(s: System) returns (t: System)
    requires Resting(s) && AllHopeful(s)
    ensures Resting(t) && Reaches(s, t) && Recovered(t) && t.written == s.written
    ensures t.sender.state.next == s.sender.state.next
    ensures s.sender.state.unacked == map[] ==> t == s
    decreases s.sender.state.unacked.Keys
  {
    if s.sender.state.unacked.Keys == {} {
      t := s;
      ReachesItself(s);
      assert s.sender.state.unacked == map[];
      assert !Covered(s.receiver, s.receiver.state.expected);
    } else {
      var u := AckOne(s);
      t := RecoverResting(u);
      ReachesOn(s, u, t);
    }
  }

  /** From wherever the receiver is, it first comes to rest. */
  lemma Recover(s: System) returns (t: System)
    requires Live(s) && AllHopeful(s)
    ensures Resting(t) && Reaches(s, t) && Recovered(t) && t.written == s.written
  {
    var u := Settle(s);
    HopefulCalmer(s, u);
    t := RecoverResting(u);
    ReachesOn(s, u, t);
  }

  // ---- The other direction: what cannot be recovered --------------------------------------

  /** Nothing about `k` is under way, and every moment left for resending it is too late or in vain. */
  ghost predicate Hopeless(s: System, k: int, e: Entry) {
    && Inv(s)
    && (s.sender.live ==>
          && k in s.sender.state.unacked && s.sender.state.unacked[k].packet == e.packet
          && (e.packet.body.carried ==> s.sender.state.unacked[k] == e)
          && k !in s.acks && !Kept(s.receiver, k) && !UnderWay(s, k)
          && !Resendable(s.sender, k))
  }

  /** While a pass does not time out, an entry past its last chance is not idle. */
  lemma HopelessTick(s: System, k: int, e: Entry, now: int, before: set<int>)
    requires Hopeless(s, k, e) && CanStep(s, SenderStep(Ticked(now, before)))
    ensures Hopeless(Step(s, SenderStep(Ticked(now, before))), k, e)
  {
    TickKeeps(s, now, before);
    var t := Step(s, SenderStep(Ticked(now, before)));
    if t.sender.live {
      assert e.packet.body.carried ==> k !in Idle(s.sender.state, now);
      forall p | p in Emitted(s.sender, Ticked(now, before)) ensures p.number != k {
      }
    }
  }

  lemma HopelessReceiver(s: System, k: int, e: Entry, a: Action)
    requires a.Arrive? || a.Deliver? || a.Look? || a.DeliverBuffered?
    requires Hopeless(s, k, e) && CanStep(s, a)
    ensures Hopeless(Step(s, a), k, e)
  {
    StepKeeps(s, a);
  }

  lemma HopelessSender(s: System, k: int, e: Entry, event: Event)
    requires !event.Ticked? && Hopeless(s, k, e) && CanStep(s, SenderStep(event))
    ensures Hopeless(Step(s, SenderStep(event)), k, e)
  {
    StepKeeps(s, SenderStep(event));
  }

  lemma HopelessStep(s: System, k: int, e: Entry, a: Action)
    requires Hopeless(s, k, e) && CanStep(s, a) && !a.WriteTerminate?
    ensures Hopeless(Step(s, a), k, e)
  {
    match a
    case SenderStep(event) =>
      match event {
        case Ticked(now, before) => HopelessTick(s, k, e, now, before);
        case _ => HopelessSender(s, k, e, event);
      }
    case Arrive(_) => HopelessReceiver(s, k, e, a);
    case Deliver => HopelessReceiver(s, k, e, a);
    case Look => HopelessReceiver(s, k, e, a);
    case DeliverBuffered => HopelessReceiver(s, k, e, a);
    case _ => StepKeeps(s, a);
  }

  lemma {:induction false} HopelessRun(s: System, k: int, e: Entry, acts: seq<Action>)
    requires Hopeless(s, k, e) && CanRun(s, acts) && Quiet(acts)
    ensures Hopeless(Run(s, acts), k, e)
    decreases |acts|
  {
    if acts == [] {
    } else {
      HopelessStep(s, k, e, acts[0]);
      HopelessRun(Step(s, acts[0]), k, e, acts[1..]);
    }
  }

  ghost predicate Recoverable(s: System) {
    exists t :: Reaches(s, t) && Recovered(t)
  }

  /**
   * Wherever the two loops are, there is a continuation that delivers every number sent and gets all of
   * them acknowledged, exactly when for each packet in flight a frame or an acknowledgment is under
   * way, the receiver is keeping it and has yet to acknowledge it again, or it can be resent before its
   * minute is over.
   */
  lemma RecoverableIff(s: System)
    requires Live(s)
    ensures Recoverable(s) <==> AllHopeful(s)
  {
    if AllHopeful(s) {
      var t := Recover(s);
    } else {
      var k :| k in s.sender.state.unacked && !Hopeful(s, k);
      var e := s.sender.state.unacked[k];
      forall t | Reaches(s, t) ensures !Recovered(t) {
        var acts :| CanRun(s, acts) && Quiet(acts) && Run(s, acts) == t;
        HopelessRun(s, k, e, acts);
      }
    }
  }

  /** Every frame and every acknowledgment under way has been lost. */
  predicate AllLost(s: System) {
    s.data == {} && s.acks == {}
  }

  /** After a total loss, resending alone recovers everything the receiver is not already keeping, or nothing does. */
  lemma RecoverableAfterTotalLossIff(s: System)
    requires Live(s) && AllLost(s)
    ensures Recoverable(s)
            <==> forall k :: k in s.sender.state.unacked ==> Kept(s.receiver, k) || Resendable(s.sender, k)
  {
    RecoverableIff(s);
    assert forall k :: k in s.sender.state.unacked ==>
        (Hopeful(s, k) <==> Kept(s.receiver, k) || Resendable(s.sender, k));
  }

  /** The first packet has been sent, and has not arrived. */
  lemma SendFirst(body: Body) returns (s: System)
    requires body.carried
    ensures Resting(s) && Reaches(INITIAL_SYSTEM, s) && s.sender.clock == 0
    ensures s.sender.state == SenderState(1, map[0 := Entry(Stamp(0, body), 0, 0)], true)
    ensures s.data == {Stamp(0, body)} && s.acks == {} && s.receiver == INITIAL_SYSTEM.receiver
  {
    InitialInv();
    var a := Step(INITIAL_SYSTEM, Write(body));
    StepKeeps(INITIAL_SYSTEM, Write(body));
    ReachesBy(INITIAL_SYSTEM, Write(body));
    assert Resting(a);
    s := SenderTakes(a, MessagePulled(body, 0, 0));
    hide Reaches, Inv, Timed;
    assert Handed(a.sender, MessagePulled(body, 0, 0)) == {Stamp(0, body)};
    ReachesOn(INITIAL_SYSTEM, a, s);
  }

  /** A state that is not is reached: resent at the last moment, the frame is lost again, and time is up. */
  lemma LateLossIsReached(body: Body)
    requires body.carried
    ensures exists s :: Reaches(INITIAL_SYSTEM, s) && Live(s) && !AllHopeful(s)
  {
    hide Reaches, Inv, Timed;
    var s := SendFirst(body);
    var tick := Ticked(RESEND_TIMEOUT, {});
    assert !TimedOut(s.sender.state, RESEND_TIMEOUT);
    var t := SenderTakes(s, tick);
    assert t.sender.state.unacked[0] == Entry(Stamp(0, body), 0, RESEND_TIMEOUT);
    var u := LoseAll(t);
    ReachesOn(INITIAL_SYSTEM, s, t);
    ReachesOn(INITIAL_SYSTEM, t, u);
    assert !Hopeful(u, 0);
  }

  /** Every frame under way is lost. */
  lemma {:induction false} LoseAll(s: System) returns (t: System)
    requires Live(s)
    ensures Live(t) && Reaches(s, t) && t == s.(data := {})
    decreases |s.data|
  {
    if s.data == {} {
      t := s;
      ReachesItself(s);
    } else {
      assert (forall p :: p !in s.data) ==> s.data == {};
      var p :| p in s.data;
      var u := Step(s, LoseData(p));
      StepKeeps(s, LoseData(p));
      ReachesBy(s, LoseData(p));
      hide Reaches, Inv, Timed;
      assert s.data == u.data + {p};
      t := LoseAll(u);
      ReachesOn(s, u, t);
    }
  }

  // ---- Everything written ----------------------------------------------------------------

  /**
   * A queued body will be acknowledged once it is sent: it can arrive, or something else with its number
   * is there already. The latter can only be Stop's packet in the place of number 0.
   */
  ghost predicate Promising(s: System, i: nat)
    requires i < |s.written|
  {
    s.written[i].carried || i in s.acks || Kept(s.receiver, i) || UnderWay(s, i)
  }

  ghost predicate AllPromising(s: System) {
    forall i: nat :: s.sender.state.next <= i < |s.written| ==> Promising(s, i)
  }

  /** Nothing but Stop's packet is about before its number has been handed out. */
  lemma PromisingIsCarried(s: System, i: nat)
    requires Inv(s) && s.sender.state.next <= i && 0 < i < |s.written|
    ensures Promising(s, i) <==> s.written[i].carried
  {
    DeliveredOf(s);
    forall p | p in s.data ensures p.number != i {
      assert Genuine(s, p);
    }
    assert i in s.acks ==> Covered(s.receiver, i);
    assert i in s.receiver.state.buffer ==> Genuine(s, s.receiver.state.buffer[i]);
    assert s.receiver.phase.Delivering? ==> Genuine(s, s.receiver.phase.held);
  }

  lemma PromisingCalmer(s: System, t: System)
    requires AllPromising(s) && Calmer(s, t)
    ensures AllPromising(t)
  {
    forall i: nat | t.sender.state.next <= i < |t.written| ensures Promising(t, i) {
      assert Promising(s, i);
    }
  }

  /** The next body is pulled, and can then be acknowledged. */
  lemma PullNext(s: System) returns (t: System)
    requires Resting(s) && Recovered(s) && s.sender.state.next < |s.written| <= MAX_I64
    requires CanPull(s.sender.state) && Promising(s, s.sender.state.next)
    ensures Resting(t) && Reaches(s, t) && AllHopeful(t) && t.sender.live
    ensures t.written == s.written && t.sender.state.next == s.sender.state.next + 1
  {
    var n, clock := s.sender.state.next, s.sender.clock;
    var pull := MessagePulled(s.written[n], clock, clock);
    t := SenderTakes(s, pull);
    hide Inv, Timed, Reaches;
    assert s.written[n].carried ==> Stamp(n, s.written[n]) in Emitted(s.sender, pull);
    assert t.sender.state.unacked == map[n := Entry(Stamp(n, s.written[n]), clock, clock)];
    assert Hopeful(t, n);
  }

  /** With nothing in flight, the next body written is sent and acknowledged. */
  lemma SendOne(s: System) returns (t: System)
    requires Resting(s) && Recovered(s) && s.sender.state.next < |s.written| <= MAX_I64
    requires AllPromising(s)
    ensures Resting(t) && Recovered(t) && Reaches(s, t) && AllPromising(t)
    ensures t.written == s.written && t.sender.state.next == s.sender.state.next + 1
  {
    hide Reaches, Timed, AllHopeful, Recovered, Hopeful;
    var r := Ready(s);
    assert Promising(s, s.sender.state.next);
    assert Promising(r, r.sender.state.next);
    var u := PullNext(r);
    t := RecoverResting(u);
    ReachesOn(s, r, u);
    ReachesOn(s, u, t);
    LaterPromising(s, t);
  }

  lemma LaterPromising(s: System, t: System)
    requires Inv(s) && Inv(t) && AllPromising(s)
    requires t.written == s.written && t.sender.state.next > s.sender.state.next
    ensures AllPromising(t)
  {
    forall i: nat | t.sender.state.next <= i < |t.written| ensures Promising(t, i) {
      PromisingIsCarried(s, i);
      PromisingIsCarried(t, i);
    }
  }

  /** The throttle timer fires if it has to. */
  lemma Ready(s: System) returns (r: System)
    requires Resting(s) && Recovered(s)
    ensures Resting(r) && Recovered(r) && Reaches(s, r) && CanPull(r.sender.state)
    ensures r.sender.state.next == s.sender.state.next && r == s.(sender := r.sender)
  {
    if s.sender.state.throttled {
      r := SenderTakes(s, ThrottleFired);
    } else {
      r := s;
      ReachesItself(s);
    }
  }

  lemma {:induction false} SendRest(s: System) returns (t: System)
    requires Resting(s) && Recovered(s) && AllPromising(s) && |s.written| <= MAX_I64
    ensures Resting(t) && Recovered(t) && Reaches(s, t) && t.written == s.written
    ensures t.sender.state.next == |t.written|
    decreases |s.written| - s.sender.state.next
  {
    if s.sender.state.next == |s.written| {
      t := s;
      ReachesItself(s);
    } else {
      var u := SendOne(s);
      t := SendRest(u);
      ReachesOn(s, u, t);
    }
  }

  /** Everything written, sent or still queued, gets its acknowledgment. */
  lemma SendAll(s: System) returns (t: System)
    requires Live(s) && AllHopeful(s) && AllPromising(s) && |s.written| <= MAX_I64
    ensures Resting(t) && Recovered(t) && Reaches(s, t) && t.written == s.written
    ensures t.sender.state.next == |t.written|
  {
    var u := Settle(s);
    HopefulCalmer(s, u);
    PromisingCalmer(s, u);
    var v := RecoverResting(u);
    if u.sender.state.next == 0 {
      assert forall k :: k !in u.sender.state.unacked;
      assert u.sender.state.unacked == map[];
    } else {
      StillPromising(u, v);
    }
    hide Reaches, Inv, Calmer;
    t := SendRest(v);
    ReachesOn(s, u, v);
    ReachesOn(s, v, t);
  }

  lemma StillPromising(s: System, t: System)
    requires Inv(s) && Inv(t) && AllPromising(s) && s.sender.state.next > 0
    requires t.written == s.written && t.sender.state.next == s.sender.state.next
    ensures AllPromising(t)
  {
    forall i: nat | t.sender.state.next <= i < |t.written| ensures Promising(t, i) {
      PromisingIsCarried(s, i);
      PromisingIsCarried(t, i);
    }
  }

  /** A body that cannot arrive, with nothing else that could get its number acknowledged. */
  ghost predicate Stuck(s: System, k: nat) {
    && Inv(s) && k < |s.written| && !s.written[k].carried
    && (s.sender.live ==>
          && k !in s.acks && !Kept(s.receiver, k) && !UnderWay(s, k)
          && (k < s.sender.state.next ==> k in s.sender.state.unacked))
  }

  lemma StuckSender(s: System, k: nat, e: Event)
    requires Stuck(s, k) && CanStep(s, SenderStep(e))
    ensures Stuck(Step(s, SenderStep(e)), k)
  {
    hide Inv, Emitted;
    StepKeeps(s, SenderStep(e));
    StuckIsNotEmitted(s, k, e);
  }

  /** Of the packets handed to writeMessage, the one with that number cannot arrive. */
  lemma StuckIsNotEmitted(s: System, k: nat, e: Event)
    requires Inv(s) && k < |s.written| && !s.written[k].carried && CanStep(s, SenderStep(e))
    ensures forall p :: p in Emitted(s.sender, e) ==> p.number != k
  {
    EmittedIsSent(s, e);
    hide Inv, Handed;
    forall p | p in Emitted(s.sender, e) ensures p.number != k {
      assert Sent(Step(s, SenderStep(e)), p);
    }
  }

  lemma StuckReceiver(s: System, k: nat, a: Action)
    requires !a.SenderStep? && !a.WriteTerminate? && Stuck(s, k) && CanStep(s, a)
    ensures Stuck(Step(s, a), k)
  {
    StepKeeps(s, a);
    assert R.WellPlaced(s.receiver);
    hide Inv, Emitted;
  }

  lemma {:induction false} StuckRun(s: System, k: nat, acts: seq<Action>)
    requires Stuck(s, k) && CanRun(s, acts) && Quiet(acts)
    ensures Stuck(Run(s, acts), k)
    decreases |acts|
  {
    if acts == [] {
    } else {
      if acts[0].SenderStep? {
        StuckSender(s, k, acts[0].event);
      } else {
        StuckReceiver(s, k, acts[0]);
      }
      StuckRun(Step(s, acts[0]), k, acts[1..]);
    }
  }

  /** Everything written so far has been sent and acknowledged, and the session has not given up. */
  predicate Through(s: System) {
    Recovered(s) && s.sender.state.next == |s.written|
  }

  /**
   * Everything written so far, sent or still queued, can get through exactly when each packet in flight
   * can be recovered and each queued body can arrive or has its number taken by Stop's packet.
   */
  lemma EverythingCanArriveIff(s: System)
    requires Live(s) && |s.written| <= MAX_I64
    ensures (exists t :: Reaches(s, t) && t.written == s.written && Through(t)) <==> AllHopeful(s) && AllPromising(s)
  {
    RecoverableIff(s);
    if AllHopeful(s) && AllPromising(s) {
      var t := SendAll(s);
    }
    if !AllPromising(s) {
      var k: nat :| s.sender.state.next <= k < |s.written| && !Promising(s, k);
      forall t | Reaches(s, t) && t.written == s.written ensures !Through(t) {
        var acts :| CanRun(s, acts) && Quiet(acts) && Run(s, acts) == t;
        StuckRun(s, k, acts);
      }
    }
  }

  /** What then has been delivered are the bodies written, unless Stop's packet has the first place. */
  lemma EverythingCanArrive(s: System)
    requires Live(s) && AllHopeful(s) && AllPromising(s) && |s.written| <= MAX_I64
    ensures exists t :: Reaches(s, t) && Live(t) && Through(t) && t.written == s.written
                        && |t.written| <= |t.delivered| && PrefixButForFirst(t)
                        && (Untaken(s) ==> |t.delivered| == |t.written| && DeliveredIsPrefix(t))
  {
    var t := SendAll(s);
    ReachesKeeps(s, t);
    DeliveredOf(t);
  }

  /** The outgoing queue takes 20 messages before the loop has pulled any. */
  lemma {:induction false} QueueFills(body: Body, n: nat) returns (s: System)
    requires n <= 20
    ensures Reaches(INITIAL_SYSTEM, s) && s == INITIAL_SYSTEM.(written := seq(n, _ => body))
  {
    if n == 0 {
      s := INITIAL_SYSTEM;
      ReachesItself(s);
    } else {
      var r := QueueFills(body, n - 1);
      s := Step(r, Write(body));
      ReachesBy(r, Write(body));
      ReachesOn(INITIAL_SYSTEM, r, s);
      assert seq(n - 1, _ => body) + [body] == seq(n, _ => body);
    }
  }

  // ---- Reachable states ------------------------------------------------------------------

  lemma {:induction false} TimedRun(s: System, acts: seq<Action>)
    requires Timed(s.sender) && CanRun(s, acts)
    ensures Timed(Run(s, acts).sender)
    decreases |acts|
  {
    if acts == [] {
    } else {
      if acts[0].SenderStep? {
        TimedStep(s.sender, acts[0].event);
      }
      TimedRun(Step(s, acts[0]), acts[1..]);
    }
  }

  /** Every reachable state in which both sessions run is such a state. */
  lemma ReachableIsLive(acts: seq<Action>)
    requires CanRun(INITIAL_SYSTEM, acts)
    ensures var s := Run(INITIAL_SYSTEM, acts);
            s.sender.live && s.receiverLive ==> Live(s)
  {
    InitialInv();
    RunKeeps(INITIAL_SYSTEM, acts);
    TimedRun(INITIAL_SYSTEM, acts);
  }
}
