/** The receiving loop's variables and its handling of one data frame, with the drain loop. */
module Receiver {
  import opened Packets
  import opened ReceiverModel

  /** What one round of the drain loop leaves for the rest. */
  lemma DrainUnfolds(s: ReceiverState)
    ensures s.expected in s.buffer ==>
              var p, rest := s.buffer[s.expected], Drain(Taken(s));
              Drain(s) == Receipt(rest.state, [p] + rest.delivered, [p.number] + rest.acks)
    ensures s.expected !in s.buffer ==> Drain(s) == Receipt(s, [], [])
  {
  }

  lemma Shift<T>(base: seq<T>, x: T, rest: seq<T>)
    ensures base + ([x] + rest) == (base + [x]) + rest
  {
  }

  /** What has been put out so far and what is still to come make up `all`. */
  predicate Split<T(==)>(all: seq<T>, out: seq<T>, rest: seq<T>) {
    all == out + rest
  }

  class IncomingLoop {
    var expected: int
    var outOfOrder: map<int, Packet>
    /** Everything sent into the channel that Read takes from. */
    var delivered: seq<Packet>
    /**
     * Every number handed to sendAcknowledgeMessage, which queues the acknowledgment unless the context
     * ends first; the loop goes on either way.
     */
    var acks: seq<int>

    ghost predicate Valid()
      reads this
    {
      AtRest(State()) && |delivered| == expected
    }

    ghost function State(): ReceiverState
      reads this
    {
      ReceiverState(expected, outOfOrder)
    }

    constructor ()
      ensures Valid() && State() == EMPTY && delivered == [] && acks == []
    {
      expected, outOfOrder, delivered, acks := 0, map[], [], [];
    }

    /**
     * The OutputStreamData branch. `room` is how many sends into the delivery channel go through before
     * the context ends; the loop returns at the first one that does not. The acknowledgment of a packet
     * is sent for before it is delivered, so a cancelled call has done so for one packet more.
     */
    method HandleOutput(p: Packet, room: nat) returns (cancelled: bool)
      requires Valid()
      modifies this
      ensures var r := Accept(old(State()), p);
              var allDelivered, allAcks := old(delivered) + r.delivered, old(acks) + r.acks;
              && (cancelled <==> room < |r.delivered|)
              && (!cancelled ==> Valid() && State() == r.state && delivered == allDelivered && acks == allAcks)
              && (cancelled ==> delivered <= allDelivered && |delivered| == old(|delivered|) + room
                                && acks <= allAcks && |acks| == old(|acks|) + room + 1)
    {
      ghost var s := State();
      if expected >= p.number {
        acks := acks + [p.number];
      } else if |outOfOrder| < MAX_OUT_OF_ORDER {
        outOfOrder := outOfOrder[p.number := p];
        acks := acks + [p.number];
      }
      if expected == p.number {
        AcceptExpected(s, p);
        AcceptUnfolds(s, p);
        hide Accept, Drain;
        Shift(old(acks), p.number, Drain(s.(expected := s.expected + 1)).acks);
        cancelled := DeliverExpected(p, room);
      } else {
        AcceptOther(s, p);
        cancelled := false;
      }
    }

    /** The expected packet, whose acknowledgment has just been sent for: deliver it, and what it unblocks. */
    method DeliverExpected(p: Packet, room: nat) returns (cancelled: bool)
      requires Filed(State()) && p.number == expected && expected !in outOfOrder
      modifies this
      ensures var d := Drain(old(State().(expected := expected + 1)));
              var allDelivered, allAcks := old(delivered) + ([p] + d.delivered), old(acks) + d.acks;
              && (cancelled <==> room <= |d.delivered|)
              && (!cancelled ==> State() == d.state && delivered == allDelivered && acks == allAcks)
              && (cancelled ==> delivered <= allDelivered && |delivered| == old(|delivered|) + room
                                && acks <= allAcks && |acks| == old(|acks|) + room)
    {
      hide Drain;
      ghost var d := Drain(State().(expected := expected + 1));
      if room == 0 {
        return true;
      }
      Shift(delivered, p, d.delivered);
      delivered := delivered + [p];
      expected := expected + 1;
      cancelled := DrainBuffer(room - 1);
    }

    /** The inner loop: acknowledge and deliver what the buffer holds next, until it holds nothing next. */
    method DrainBuffer(room: nat) returns (cancelled: bool)
      requires Filed(State())
      modifies this
      ensures var r := Drain(old(State()));
              var allDelivered, allAcks := old(delivered) + r.delivered, old(acks) + r.acks;
              && (cancelled <==> room < |r.delivered|)
              && (!cancelled ==> State() == r.state && delivered == allDelivered && acks == allAcks)
              && (cancelled ==> delivered <= allDelivered && |delivered| == old(|delivered|) + room
                                && acks <= allAcks && |acks| == old(|acks|) + room + 1)
    {
      ghost var whole := Drain(State());
      ghost var allDelivered, allAcks := delivered + whole.delivered, acks + whole.acks;
      var done: nat := 0;
      hide Drain;
      while expected in outOfOrder
        invariant Filed(State()) && done <= room
        invariant Drain(State()).state == whole.state
        invariant Split(allDelivered, delivered, Drain(State()).delivered)
        invariant Split(allAcks, acks, Drain(State()).acks)
        invariant |delivered| == old(|delivered|) + done && |acks| == old(|acks|) + done
        decreases |outOfOrder|
      {
        var p := outOfOrder[expected];
        DrainUnfolds(State());
        Shift(acks, p.number, Drain(Taken(State())).acks);
        Shift(delivered, p, Drain(Taken(State())).delivered);
        acks := acks + [p.number];
        if done == room {
          return true;
        }
        DeliverNext(p);
        done := done + 1;
      }
      DrainUnfolds(State());
      return false;
    }

    /** One round of the inner loop, behind the acknowledgment. */
    method DeliverNext(p: Packet)
      requires Filed(State()) && expected in outOfOrder && p == outOfOrder[expected]
      modifies this`delivered, this`outOfOrder, this`expected
      ensures State() == Taken(old(State())) && Filed(State()) && |outOfOrder| < old(|outOfOrder|)
      ensures delivered == old(delivered) + [p]
    {
      delivered := delivered + [p];
      outOfOrder := Without(outOfOrder, expected);
      expected := expected + 1;
    }
  }
}
