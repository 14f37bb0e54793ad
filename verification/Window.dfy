/** The joint window bound is exact: runs that put the two counters 60 and 61 apart. */
module Window {
  import opened Numbers
  import opened Packets
  import opened SenderModel
  import opened Protocol
  import opened Recovery
  import R = ReceiverModel

  /**
   * Number 0 is in flight and has not arrived; the next `kept` numbers are buffered and acknowledged;
   * the `flying` numbers after them are in flight too.
   */
  ghost predicate Stage(s: System, body: Body, kept: nat, flying: nat, throttled: bool := false) {
    && body.carried
    && Inv(s) && s.sender.live && s.receiverLive && s.receiver.phase.Reading?
    && s.sender.state.throttled == throttled && s.sender.clock == 0
    && s.sender.state.next == |s.written| == kept + flying + 1
    && 0 in s.sender.state.unacked && |s.sender.state.unacked| == flying + 1
    && s.receiver.state.expected == 0 && s.delivered == []
    && |s.receiver.state.buffer| == kept && (forall k :: k in s.receiver.state.buffer ==> k <= kept)
    && Stamp(0, body) in s.data
  }

  // ---- Small runs ------------------------------------------------------------------------

  /** A body is written and pulled at once. */
  lemma WriteAndPull(s: System, body: Body) returns (t: System)
    requires Inv(s) && s.sender.live && CanPull(s.sender.state) && s.sender.clock == 0 && body.carried
    requires s.sender.state.next == |s.written| < MAX_I64
    ensures Inv(t) && Reaches(s, t)
    ensures var n, state := s.sender.state.next, Pull(s.sender.state, body, 0, 0);
            && t.written == s.written + [body] && t.data == s.data + {Stamp(n, body)} && t.acks == s.acks
            && t.sender == History(state, 0, s.sender.sent + multiset{n}, true)
            && t.receiver == s.receiver && t.receiverLive == s.receiverLive && t.delivered == s.delivered
    ensures |t.sender.state.unacked| == |s.sender.state.unacked| + 1
  {
    hide Reaches, Inv;
    var u := Step(s, Write(body));
    StepKeeps(s, Write(body));
    ReachesBy(s, Write(body));
    t := PullLast(u, body);
    ReachesOn(s, u, t);
  }

  lemma PullLast(s: System, body: Body) returns (t: System)
    requires Inv(s) && s.sender.live && CanPull(s.sender.state) && s.sender.clock == 0 && body.carried
    requires 0 <= s.sender.state.next == |s.written| - 1 < MAX_I64 && s.written[s.sender.state.next] == body
    ensures Inv(t) && Reaches(s, t)
    ensures var n, state := s.sender.state.next, Pull(s.sender.state, body, 0, 0);
            t == s.(data := s.data + {Stamp(n, body)}, sender := History(state, 0, s.sender.sent + multiset{n}, true))
    ensures |t.sender.state.unacked| == |s.sender.state.unacked| + 1
  {
    var a := SenderStep(MessagePulled(body, 0, 0));
    t := Step(s, a);
    StepKeeps(s, a);
    ReachesBy(s, a);
    OneMoreInFlight(s, body);
    hide Reaches, Inv;
    assert Handed(s.sender, a.event) == {Stamp(s.sender.state.next, body)};
  }

  lemma OneMoreInFlight(s: System, body: Body)
    requires Inv(s)
    ensures |Pull(s.sender.state, body, 0, 0).unacked| == |s.sender.state.unacked| + 1
  {
    var n := s.sender.state.next;
    var m := s.sender.state.unacked[n := Entry(Stamp(n, body), 0, 0)];
    assert n !in s.sender.state.unacked;
    assert m.Keys == s.sender.state.unacked.Keys + {n};
    assert |m.Keys| == |s.sender.state.unacked.Keys| + 1;
  }

  lemma Unthrottle(s: System) returns (t: System)
    requires Inv(s) && s.sender.live && s.sender.state.throttled
    ensures Inv(t) && Reaches(s, t)
    ensures t == s.(sender := s.sender.(state := Unthrottled(s.sender.state)))
  {
    t := Step(s, SenderStep(ThrottleFired));
    StepKeeps(s, SenderStep(ThrottleFired));
    ReachesBy(s, SenderStep(ThrottleFired));
  }

  lemma TakeArrival(s: System, p: Packet) returns (t: System)
    requires Inv(s) && s.receiverLive && s.receiver.phase.Reading? && p in s.data
    requires p.number == s.receiver.state.expected || |s.receiver.state.buffer| < R.MAX_OUT_OF_ORDER
    ensures Inv(t) && Reaches(s, t)
    ensures t == s.(receiver := R.Arrive(s.receiver, p), acks := s.acks + {p.number})
  {
    t := Step(s, Arrive(p));
    StepKeeps(s, Arrive(p));
    ReachesBy(s, Arrive(p));
    assert AsSet([p.number]) == {p.number};
  }

  lemma TakeAcknowledgment(s: System, n: int) returns (t: System)
    requires Inv(s) && s.sender.live && n in s.acks && n in s.sender.state.unacked
    ensures Inv(t) && Reaches(s, t)
    ensures t == s.(sender := s.sender.(state := Acked(s.sender.state, n)))
    ensures t.sender.state.unacked.Keys == s.sender.state.unacked.Keys - {n}
    ensures |t.sender.state.unacked| == |s.sender.state.unacked| - 1
  {
    t := Step(s, SenderStep(AckReceived(n)));
    StepKeeps(s, SenderStep(AckReceived(n)));
    ReachesBy(s, SenderStep(AckReceived(n)));
    var before, after := s.sender.state.unacked, t.sender.state.unacked;
    assert after.Keys == before.Keys - {n};
    assert |after.Keys| == |before.Keys| - 1;
  }

  // ---- The stages ------------------------------------------------------------------------

  /** One more body is written and pulled. */
  lemma PullAnother(s: System, body: Body, kept: nat, flying: nat) returns (t: System)
    requires Stage(s, body, kept, flying) && flying < 9 && kept <= 50
    ensures Stage(t, body, kept, flying + 1, true) && Reaches(s, t)
    ensures kept + flying + 1 in t.sender.state.unacked && Stamp(kept + flying + 1, body) in t.data
  {
    hide Reaches, Inv;
    t := WriteAndPull(s, body);
  }

  /** Then the throttle timer fires. */
  lemma SendAnother(s: System, body: Body, kept: nat, flying: nat) returns (t: System)
    requires Stage(s, body, kept, flying) && flying < 9 && kept <= 50
    ensures Stage(t, body, kept, flying + 1) && Reaches(s, t)
    ensures kept + flying + 1 in t.sender.state.unacked && Stamp(kept + flying + 1, body) in t.data
  {
    hide Reaches, Inv;
    var u := PullAnother(s, body, kept, flying);
    t := Unthrottle(u);
    ReachesOn(s, u, t);
  }

  /** The one packet in flight beside number 0 arrives, is kept, and is acknowledged. */
  lemma KeepAnother(s: System, body: Body, kept: nat) returns (t: System)
    requires Stage(s, body, kept, 1) && kept < 50
    requires kept + 1 in s.sender.state.unacked && Stamp(kept + 1, body) in s.data
    ensures Stage(t, body, kept + 1, 0) && Reaches(s, t)
  {
    hide Inv, Reaches;
    var n := kept + 1;
    assert n !in s.receiver.state.buffer;
    var u := TakeArrival(s, Stamp(n, body));
    assert u.receiver.state.buffer.Keys == s.receiver.state.buffer.Keys + {n};
    assert |u.receiver.state.buffer.Keys| == |s.receiver.state.buffer.Keys| + 1;
    t := TakeAcknowledgment(u, n);
    ReachesOn(s, u, t);
  }

  lemma {:induction false} KeepAll(s: System, body: Body, kept: nat) returns (t: System)
    requires Stage(s, body, kept, 0) && kept <= 50
    ensures Stage(t, body, 50, 0) && Reaches(s, t)
    decreases 50 - kept
  {
    hide Stage, Reaches;
    if kept == 50 {
      t := s;
      ReachesItself(s);
    } else {
      var u := SendAnother(s, body, kept, 0);
      var v := KeepAnother(u, body, kept);
      t := KeepAll(v, body, kept + 1);
      ReachesOn(s, u, v);
      ReachesOn(s, v, t);
    }
  }

  lemma {:induction false} SendAll(s: System, body: Body, flying: nat) returns (t: System)
    requires Stage(s, body, 50, flying) && flying <= 9
    ensures Stage(t, body, 50, 9) && Reaches(s, t)
    decreases 9 - flying
  {
    hide Stage, Reaches;
    if flying == 9 {
      t := s;
      ReachesItself(s);
    } else {
      var u := SendAnother(s, body, 50, flying);
      t := SendAll(u, body, flying + 1);
      ReachesOn(s, u, t);
    }
  }

  lemma Begin(body: Body) returns (t: System)
    requires body.carried
    ensures Stage(t, body, 0, 0) && Reaches(INITIAL_SYSTEM, t)
  {
    InitialInv();
    var u := WriteAndPull(INITIAL_SYSTEM, body);
    t := Unthrottle(u);
    ReachesOn(INITIAL_SYSTEM, u, t);
    assert t.sender.state.unacked == map[0 := Entry(Stamp(0, body), 0, 0)];
  }

  /** Number 0 arrives and is acknowledged before it is delivered, which lets one more number go out. */
  lemma Overtake(s: System, body: Body) returns (t: System)
    requires Stage(s, body, 50, 9)
    ensures Reaches(s, t) && t.receiver.phase.Delivering?
    ensures t.sender.state.next - t.receiver.state.expected == 61
  {
    var u := TakeArrival(s, Stamp(0, body));
    var v := TakeAcknowledgment(u, 0);
    t := WriteAndPull(v, body);
    ReachesOn(s, u, v);
    ReachesOn(s, v, t);
  }

  /** Both limits of JointWindow are attained. */
  lemma JointWindowIsReached(body: Body)
    requires body.carried
    ensures exists s :: Reaches(INITIAL_SYSTEM, s) && s.receiver.phase.Reading?
                        && s.sender.state.next - s.receiver.state.expected == 60
    ensures exists s :: Reaches(INITIAL_SYSTEM, s) && s.receiver.phase.Delivering?
                        && s.sender.state.next - s.receiver.state.expected == 61
  {
    var a := Begin(body);
    var b := KeepAll(a, body, 0);
    var c := SendAll(b, body, 0);
    var d := Overtake(c, body);
    ReachesOn(INITIAL_SYSTEM, a, b);
    ReachesOn(INITIAL_SYSTEM, b, c);
    ReachesOn(INITIAL_SYSTEM, c, d);
  }
}
