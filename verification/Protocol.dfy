/**
 * Both ends of one direction and the link between them: a sending session, frames and acknowledgments
 * that may be lost, repeated and reordered, and a receiving session, step by step in any order.
 */
module Protocol {
  import opened Numbers
  import opened Packets
  import opened SenderModel
  import R = ReceiverModel

  const QUEUE_SIZE: nat := 20

  /**
   * `written` is every body Write has accepted; the outgoing queue is the part of it that the sender
   * has not pulled. `delivered` is everything put into the delivery channel, of which Read has taken
   * the first `taken`. `data` and `acks` hold what is under way and may still arrive, any number of times.
   */
  datatype System = System(
    written: seq<Body>,
    sender: History,
    data: set<Packet>,
    acks: set<int>,
    receiver: R.Machine,
    receiverLive: bool,
    delivered: seq<Packet>,
    taken: nat)

  const INITIAL_SYSTEM: System :=
    System([], START, {}, {}, R.Machine(R.EMPTY, R.Reading), true, [], 0)

  datatype Action =
    | Write(body: Body)
    | SenderStep(event: Event)
    | WriteTerminate
    | StopSender
    | Arrive(packet: Packet)
    | Deliver
    | Look
    | DeliverBuffered
    | Read
    | StopReceiver
    | LoseData(packet: Packet)
    | LoseAck(n: int)

  /** The packets a sender event hands to writeMessage. */
  function Handed(h: History, e: Event): set<Packet>
    requires Enabled(h, e)
  {
    match e
    case AckReceived(_) => {}
    case MessagePulled(body, _, _) => {Stamp(h.state.next, body)}
    case ThrottleFired => {}
    case Ticked(now, before) =>
      if TimedOut(h.state, now) then set k | k in before :: h.state.unacked[k].packet
      else set k | k in Idle(h.state, now) :: h.state.unacked[k].packet
  }

  /** Those of them that can arrive as data. */
  function Emitted(h: History, e: Event): set<Packet>
    requires Enabled(h, e)
  {
    set p | p in Handed(h, e) && p.body.carried
  }

  /** Acknowledgments come from the link, and messages from the head of the outgoing queue. */
  predicate Fed(s: System, e: Event) {
    match e
    case AckReceived(n) => n in s.acks
    case MessagePulled(body, _, _) =>
      && 0 <= s.sender.state.next < |s.written| && s.sender.state.next < MAX_I64
      && body == s.written[s.sender.state.next]
    case _ => true
  }

  predicate CanStep(s: System, a: Action) {
    match a
    case Write(_) => |s.written| - s.sender.state.next < QUEUE_SIZE
    case SenderStep(e) => Enabled(s.sender, e) && Fed(s, e)
    case WriteTerminate => s.sender.live
    case StopSender => s.sender.live
    case Arrive(p) => s.receiverLive && s.receiver.phase.Reading? && p in s.data
    case Deliver => s.receiverLive && s.receiver.phase.Delivering? && |s.delivered| - s.taken < QUEUE_SIZE
    case Look => s.receiverLive && s.receiver.phase.Draining?
    case DeliverBuffered =>
      && s.receiverLive && s.receiver.phase.DrainDelivering? && |s.delivered| - s.taken < QUEUE_SIZE
      && s.receiver.state.expected in s.receiver.state.buffer
    case Read => s.taken < |s.delivered|
    case StopReceiver => s.receiverLive
    case LoseData(p) => p in s.data
    case LoseAck(n) => n in s.acks
  }

  function AsSet(ns: seq<int>): set<int> {
    set n | n in ns
  }

  function Step(s: System, a: Action): System
    requires CanStep(s, a)
  {
    var m := s.receiver;
    match a
    case Write(body) => s.(written := s.written + [body])
    case SenderStep(e) => s.(sender := Next(s.sender, e), data := s.data + Emitted(s.sender, e))
    case WriteTerminate => s.(data := s.data + {TERMINATE})
    case StopSender => s.(sender := s.sender.(live := false))
    case Arrive(p) => s.(receiver := R.Arrive(m, p), acks := s.acks + AsSet(R.ArriveAcks(m, p)))
    case Deliver => s.(receiver := R.DeliverHeld(m), delivered := s.delivered + [m.phase.held])
    case Look => s.(receiver := R.Look(m), acks := s.acks + AsSet(R.LookAcks(m)))
    case DeliverBuffered =>
      s.(receiver := R.DeliverBuffered(m), delivered := s.delivered + [m.state.buffer[m.state.expected]])
    case Read => s.(taken := s.taken + 1)
    case StopReceiver => s.(receiverLive := false)
    case LoseData(p) => s.(data := s.data - {p})
    case LoseAck(n) => s.(acks := s.acks - {n})
  }

  // ---- What every reachable state satisfies ----------------------------------------------

  /** The receiver has delivered number `k`, is keeping it, or is holding it for delivery. */
  predicate Covered(m: R.Machine, k: int) {
    k < m.state.expected || k in m.state.buffer || (m.phase.Delivering? && k == m.state.expected)
  }

  /** `p` is what the sender has made of the body written as its number. */
  predicate Sent(s: System, p: Packet) {
    0 <= p.number < s.sender.state.next <= |s.written| && p == Stamp(p.number, s.written[p.number])
  }

  /** Stop's terminate packet also carries a number, 0, though it was never given one. */
  predicate Genuine(s: System, p: Packet) {
    Sent(s, p) || p == TERMINATE
  }

  ghost predicate SenderOk(s: System) {
    && Counted(s.sender)
    && s.sender.state.next <= |s.written|
    && |s.written| - s.sender.state.next <= QUEUE_SIZE
    && forall k :: k in s.sender.state.unacked ==> Sent(s, s.sender.state.unacked[k].packet)
  }

  predicate LinkOk(s: System) {
    && (forall p :: p in s.data ==> Genuine(s, p))
    && (forall n :: n in s.acks ==> Covered(s.receiver, n))
  }

  predicate ReceiverOk(s: System) {
    && R.WellPlaced(s.receiver)
    && (forall k :: k in s.receiver.state.buffer ==> Genuine(s, s.receiver.state.buffer[k]))
    && (s.receiver.phase.Delivering? ==> Genuine(s, s.receiver.phase.held))
  }

  predicate DeliveredOk(s: System) {
    && |s.delivered| == s.receiver.state.expected
    && s.taken <= |s.delivered| <= s.taken + QUEUE_SIZE
    && (forall i :: 0 <= i < |s.delivered| ==> Genuine(s, s.delivered[i]) && s.delivered[i].number == i)
  }

  /** Whatever the sender has removed from its map the receiver has. */
  predicate SafeToForget(s: System) {
    forall k :: 0 <= k < s.sender.state.next ==> k in s.sender.state.unacked || Covered(s.receiver, k)
  }

  ghost predicate Inv(s: System) {
    SenderOk(s) && LinkOk(s) && ReceiverOk(s) && DeliveredOk(s) && SafeToForget(s)
  }

  /** The sender's side has not moved. */
  lemma SentSame(s: System, t: System)
    requires t.sender.state.next == s.sender.state.next && t.written == s.written
    ensures forall p :: Sent(t, p) <==> Sent(s, p)
  {
  }

  /** What has been sent stays sent. */
  lemma SentStays(s: System, t: System)
    requires s.sender.state.next <= t.sender.state.next <= |t.written| && s.written <= t.written
    ensures forall p :: Sent(s, p) ==> Sent(t, p)
  {
  }

  lemma InitialInv()
    ensures Inv(INITIAL_SYSTEM) && Untaken(INITIAL_SYSTEM)
  {
  }

  lemma WriteKeeps(s: System, body: Body)
    requires Inv(s) && CanStep(s, Write(body))
    ensures Inv(Step(s, Write(body)))
  {
  }

  lemma AckKeeps(s: System, n: int)
    requires Inv(s) && CanStep(s, SenderStep(AckReceived(n)))
    ensures Inv(Step(s, SenderStep(AckReceived(n))))
  {
    CountedAck(s.sender, n);
  }

  /** What the sender's steps leave of the invariant's other parts. */
  lemma SenderLeaves(s: System, e: Event)
    requires SenderOk(s) && LinkOk(s) && ReceiverOk(s) && DeliveredOk(s) && CanStep(s, SenderStep(e))
    ensures var t := Step(s, SenderStep(e)); LinkOk(t) && ReceiverOk(t) && DeliveredOk(t)
  {
    EmittedIsSent(s, e);
    SentStays(s, Step(s, SenderStep(e)));
    hide Sent, Covered, Emitted, SenderOk, Next;
  }

  lemma PullKeeps(s: System, body: Body, first: int, last: int)
    requires Inv(s) && CanStep(s, SenderStep(MessagePulled(body, first, last)))
    ensures Inv(Step(s, SenderStep(MessagePulled(body, first, last))))
  {
    PullKeepsSender(s, body, first, last);
    SenderLeaves(s, MessagePulled(body, first, last));
    hide Emitted, Covered, SenderOk, LinkOk, ReceiverOk, DeliveredOk;
  }

  lemma PullKeepsSender(s: System, body: Body, first: int, last: int)
    requires SenderOk(s) && CanStep(s, SenderStep(MessagePulled(body, first, last)))
    ensures SenderOk(Step(s, SenderStep(MessagePulled(body, first, last))))
  {
    CountedPull(s.sender, body, first, last);
    hide Emitted, Counted;
  }

  /** A resend pass writes nothing but what is in flight. */
  lemma TickKeeps(s: System, now: int, before: set<int>)
    requires Inv(s) && CanStep(s, SenderStep(Ticked(now, before)))
    ensures Inv(Step(s, SenderStep(Ticked(now, before))))
  {
    CountedTick(s.sender, now, before);
    SenderLeaves(s, Ticked(now, before));
    PacketsStay(s.sender, now, before);
    hide Emitted, Counted, Covered, Next, LinkOk, ReceiverOk, DeliveredOk;
  }

  lemma PacketsStay(h: History, now: int, before: set<int>)
    ensures var n := Next(h, Ticked(now, before));
            && n.state.next == h.state.next && n.state.unacked.Keys == h.state.unacked.Keys
            && forall k :: k in h.state.unacked ==> n.state.unacked[k].packet == h.state.unacked[k].packet
  {
  }

  /** A step of the sender writes what is in flight and what it has just pulled. */
  lemma EmittedIsSent(s: System, e: Event)
    requires SenderOk(s) && CanStep(s, SenderStep(e))
    ensures forall p :: p in Emitted(s.sender, e) ==> Sent(Step(s, SenderStep(e)), p)
    ensures var n := Step(s, SenderStep(e)).sender.state.next;
            s.sender.state.next <= n <= |s.written|
  {
    hide Counted;
    var t := Step(s, SenderStep(e));
    if e.Ticked? {
      PacketsStay(s.sender, e.now, e.before);
      forall p | p in Emitted(s.sender, e) ensures Sent(t, p) {
        var k :| k in s.sender.state.unacked && p == s.sender.state.unacked[k].packet;
      }
    }
  }

  lemma SenderKeeps(s: System, e: Event)
    requires Inv(s) && CanStep(s, SenderStep(e))
    ensures Inv(Step(s, SenderStep(e)))
  {
    match e
    case AckReceived(n) => AckKeeps(s, n);
    case MessagePulled(body, first, last) => PullKeeps(s, body, first, last);
    case ThrottleFired =>
    case Ticked(now, before) => TickKeeps(s, now, before);
  }

  /** The receiver's steps never give up a number. */
  lemma CoveredStays(s: System, a: Action)
    requires a.Arrive? || a.Deliver? || a.DeliverBuffered? || a.Look?
    requires ReceiverOk(s) && CanStep(s, a)
    ensures forall k :: Covered(s.receiver, k) ==> Covered(Step(s, a).receiver, k)
  {
    hide Genuine, Sent;
  }

  lemma ArriveKeepsReceiver(s: System, p: Packet)
    requires ReceiverOk(s) && LinkOk(s) && CanStep(s, Arrive(p))
    ensures ReceiverOk(Step(s, Arrive(p)))
  {
    SentSame(s, Step(s, Arrive(p)));
    hide Sent, Covered;
    if p.number > s.receiver.state.expected {
      assert s.receiver.state.buffer[p.number := p].Keys == s.receiver.state.buffer.Keys + {p.number};
    }
  }

  lemma AcknowledgedIsCovered(s: System, p: Packet)
    requires s.receiver.phase.Reading?
    ensures forall n :: n in R.ArriveAcks(s.receiver, p) ==> Covered(R.Arrive(s.receiver, p), n)
  {
  }

  lemma ArriveKeeps(s: System, p: Packet)
    requires Inv(s) && CanStep(s, Arrive(p))
    ensures Inv(Step(s, Arrive(p)))
  {
    SentSame(s, Step(s, Arrive(p)));
    CoveredStays(s, Arrive(p));
    ArriveKeepsReceiver(s, p);
    AcknowledgedIsCovered(s, p);
    hide Sent, Counted, Emitted, Covered, ReceiverOk;
  }

  lemma DeliverKeepsReceiver(s: System, a: Action)
    requires a.Deliver? || a.DeliverBuffered?
    requires ReceiverOk(s) && DeliveredOk(s) && CanStep(s, a)
    ensures ReceiverOk(Step(s, a)) && DeliveredOk(Step(s, a))
  {
    SentSame(s, Step(s, a));
    hide Sent, Emitted;
  }

  lemma DeliverKeeps(s: System, a: Action)
    requires a.Deliver? || a.DeliverBuffered?
    requires Inv(s) && CanStep(s, a)
    ensures Inv(Step(s, a))
  {
    SentSame(s, Step(s, a));
    CoveredStays(s, a);
    DeliverKeepsReceiver(s, a);
    hide Sent, Counted, Emitted, Covered, ReceiverOk, DeliveredOk;
  }

  lemma LookKeeps(s: System)
    requires Inv(s) && CanStep(s, Look)
    ensures Inv(Step(s, Look))
  {
  }

  lemma OtherKeeps(s: System, a: Action)
    requires a.WriteTerminate? || a.StopSender? || a.Read? || a.StopReceiver? || a.LoseData? || a.LoseAck?
    requires Inv(s) && CanStep(s, a)
    ensures Inv(Step(s, a))
  {
  }

  /** Every step keeps the invariant, whenever Stop is called. */
  lemma StepKeeps(s: System, a: Action)
    requires Inv(s) && CanStep(s, a)
    ensures Inv(Step(s, a))
  {
    match a
    case Write(body) => WriteKeeps(s, body);
    case SenderStep(e) => SenderKeeps(s, e);
    case Arrive(p) => ArriveKeeps(s, p);
    case Deliver => DeliverKeeps(s, a);
    case DeliverBuffered => DeliverKeeps(s, a);
    case Look => LookKeeps(s);
    case _ => OtherKeeps(s, a);
  }

  // ---- Whether a terminate packet can take the place of number 0 -------------------------

  /**
   * A terminate packet written now can never be delivered as number 0: the receiver has number 0
   * already or has ended, or the first message sent is itself that packet.
   */
  predicate Harmless(s: System) {
    Covered(s.receiver, 0) || !s.receiverLive || Sent(s, TERMINATE)
  }

  /** Stop's packet is only written when it is harmless. */
  predicate Careful(s: System, a: Action) {
    a.WriteTerminate? ==> Harmless(s)
  }

  /** No terminate packet has taken, or can take, the place of number 0. */
  predicate Untaken(s: System) {
    && (forall p :: p in s.data ==> Sent(s, p) || Harmless(s))
    && (forall k :: k in s.receiver.state.buffer ==> Sent(s, s.receiver.state.buffer[k]))
    && (s.receiver.phase.Delivering? ==> Sent(s, s.receiver.phase.held))
    && (forall i :: 0 <= i < |s.delivered| ==> Sent(s, s.delivered[i]))
  }

  lemma SenderKeepsUntaken(s: System, e: Event)
    requires Inv(s) && Untaken(s) && CanStep(s, SenderStep(e))
    ensures Untaken(Step(s, SenderStep(e)))
  {
    var t := Step(s, SenderStep(e));
    SentStays(s, t);
    EmittedIsSent(s, e);
    hide Sent, Emitted, Inv, Counted;
  }

  lemma HarmlessStays(s: System, a: Action)
    requires a.Arrive? || a.Deliver? || a.Look? || a.DeliverBuffered?
    requires ReceiverOk(s) && CanStep(s, a)
    ensures Harmless(s) ==> Harmless(Step(s, a))
  {
    SentSame(s, Step(s, a));
    CoveredStays(s, a);
    hide Sent, Covered;
  }

  lemma ArriveKeepsUntaken(s: System, p: Packet)
    requires ReceiverOk(s) && LinkOk(s) && Untaken(s) && CanStep(s, Arrive(p))
    ensures Untaken(Step(s, Arrive(p)))
  {
    SentSame(s, Step(s, Arrive(p)));
    HarmlessStays(s, Arrive(p));
    if p.number >= s.receiver.state.expected {
      assert Sent(s, p) || p.number == 0 == s.receiver.state.expected;
      assert !Sent(s, p) ==> !Covered(s.receiver, 0) && p == TERMINATE;
    }
    hide Sent, Harmless;
  }

  lemma DeliverKeepsUntaken(s: System, a: Action)
    requires a.Deliver? || a.Look? || a.DeliverBuffered?
    requires ReceiverOk(s) && Untaken(s) && CanStep(s, a)
    ensures Untaken(Step(s, a))
  {
    SentSame(s, Step(s, a));
    HarmlessStays(s, a);
    hide Sent, Harmless;
  }

  /** Stop's packet is harmless, and the other steps put nothing new on the link. */
  lemma OtherKeepsUntaken(s: System, a: Action)
    requires a.Write? || a.WriteTerminate? || a.StopSender? || a.Read? || a.StopReceiver? || a.LoseData? || a.LoseAck?
    requires SenderOk(s) && Untaken(s) && CanStep(s, a) && Careful(s, a)
    ensures Untaken(Step(s, a))
  {
    SentStays(s, Step(s, a));
    hide Sent, SenderOk, Emitted;
  }

  lemma StepKeepsUntaken(s: System, a: Action)
    requires Inv(s) && Untaken(s) && CanStep(s, a) && Careful(s, a)
    ensures Untaken(Step(s, a))
  {
    match a
    case SenderStep(e) => SenderKeepsUntaken(s, e);
    case Arrive(p) => ArriveKeepsUntaken(s, p);
    case Deliver => DeliverKeepsUntaken(s, a);
    case Look => DeliverKeepsUntaken(s, a);
    case DeliverBuffered => DeliverKeepsUntaken(s, a);
    case _ => OtherKeepsUntaken(s, a);
  }

  /** What the sender can see is enough: once number 0 has been acknowledged Stop is harmless. */
  lemma AcknowledgedIsHarmless(s: System)
    requires Inv(s) && 0 < s.sender.state.next && 0 !in s.sender.state.unacked
    ensures Harmless(s)
  {
  }
}
