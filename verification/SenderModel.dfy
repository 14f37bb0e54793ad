/**
 * The sending loop as a function of its events: which packets are in flight, when they are resent,
 * and when the loop gives up. Times are nanoseconds of one monotonic clock.
 */
module SenderModel {
  import opened Packets

  const MAX_INFLIGHT: nat := 10
  const RESEND_INTERVAL: int := 1_000_000_000
  const RESEND_TIMEOUT: int := 60 * RESEND_INTERVAL
  const MAX_TRANSMISSIONS: nat := 60

  datatype Entry = Entry(packet: Packet, first: int, last: int)

  datatype SenderState = SenderState(next: int, unacked: map<int, Entry>, throttled: bool)

  const INITIAL: SenderState := SenderState(0, map[], false)

  // ---- One select branch each ------------------------------------------------------------

  /** The loop listens on the outgoing queue only when this holds. */
  predicate CanPull(s: SenderState) {
    |s.unacked| < MAX_INFLIGHT && !s.throttled
  }

  function Pull(s: SenderState, body: Body, first: int, last: int): SenderState {
    SenderState(s.next + 1, s.unacked[s.next := Entry(Stamp(s.next, body), first, last)], true)
  }

  function Acked(s: SenderState, n: int): SenderState {
    s.(unacked := s.unacked - {n})
  }

  function Unthrottled(s: SenderState): SenderState {
    s.(throttled := false)
  }

  predicate Expired(e: Entry, now: int) {
    now - e.first > RESEND_TIMEOUT
  }

  predicate IsIdle(e: Entry, now: int) {
    now - e.last > RESEND_INTERVAL
  }

  predicate TimedOut(s: SenderState, now: int) {
    exists k :: k in s.unacked && Expired(s.unacked[k], now)
  }

  /** The numbers a resend pass at `now` writes again. */
  function Idle(s: SenderState, now: int): set<int> {
    set k | k in s.unacked && IsIdle(s.unacked[k], now)
  }

  /** The numbers that a pass may have written again before it met an expired entry. */
  function Due(s: SenderState, now: int): set<int> {
    set k | k in Idle(s, now) && !Expired(s.unacked[k], now)
  }

  function Touch(e: Entry, now: int): Entry {
    if IsIdle(e, now) then e.(last := now) else e
  }

  function Resent(s: SenderState, now: int): SenderState {
    s.(unacked := map k | k in s.unacked :: Touch(s.unacked[k], now))
  }

  /** After a pass that did not time out no entry is idle, and only last-send times have moved. */
  lemma PassLeavesNothingIdle(s: SenderState, now: int)
    requires !TimedOut(s, now)
    ensures Idle(Resent(s, now), now) == {}
    ensures Resent(s, now).unacked.Keys == s.unacked.Keys
    ensures forall k :: k in s.unacked ==>
              && Resent(s, now).unacked[k].packet == s.unacked[k].packet
              && Resent(s, now).unacked[k].first == s.unacked[k].first
    ensures Resent(Resent(s, now), now) == Resent(s, now)
  {
    var r := Resent(s, now);
    assert forall k :: k in r.unacked ==> Touch(r.unacked[k], now) == r.unacked[k];
    assert Resent(r, now).unacked.Keys == r.unacked.Keys;
    assert Resent(r, now).unacked == r.unacked;
  }

  // ---- Whole runs against arbitrary acknowledgments --------------------------------------

  /**
   * What can happen to the loop. A resend pass that finds an expired entry may already have written
   * some of the others, depending on the order in which it meets them: `before` is that choice.
   */
  datatype Event =
    | AckReceived(n: int)
    | MessagePulled(body: Body, first: int, last: int)
    | ThrottleFired
    | Ticked(now: int, before: set<int>)

  /** `sent` counts, for each number, how often writeMessage was called with it. */
  datatype History = History(state: SenderState, clock: int, sent: multiset<int>, live: bool)

  const START: History := History(INITIAL, 0, multiset{}, true)

  /** The clock does not run backwards, and a branch is taken only when its channel is ready. */
  predicate Enabled(h: History, e: Event) {
    && h.live
    && match e
       case AckReceived(_) => true
       case MessagePulled(_, first, last) => CanPull(h.state) && h.clock <= first <= last
       case ThrottleFired => h.state.throttled
       case Ticked(now, before) =>
         h.clock <= now && before <= Due(h.state, now)
  }

  function Next(h: History, e: Event): History {
    match e
    case AckReceived(n) => h.(state := Acked(h.state, n))
    case MessagePulled(body, first, last) =>
      h.(state := Pull(h.state, body, first, last), clock := last, sent := h.sent + multiset{h.state.next})
    case ThrottleFired => h.(state := Unthrottled(h.state))
    case Ticked(now, before) =>
      if TimedOut(h.state, now) then h.(clock := now, sent := h.sent + multiset(before), live := false)
      else h.(state := Resent(h.state, now), clock := now, sent := h.sent + multiset(Idle(h.state, now)))
  }

  predicate RunsFrom(h: History, events: seq<Event>)
    decreases |events|
  {
    events == [] || (Enabled(h, events[0]) && RunsFrom(Next(h, events[0]), events[1..]))
  }

  function After(h: History, events: seq<Event>): History
    decreases |events|
  {
    if events == [] then h else After(Next(h, events[0]), events[1..])
  }

  /** Each entry's age bounds how often it can have been sent. */
  predicate EntryCounted(e: Entry, count: nat, clock: int) {
    && 1 <= count
    && e.first <= e.last <= clock
    && (count > 1 ==> (count - 1) * RESEND_INTERVAL < e.last - e.first <= RESEND_TIMEOUT)
  }

  ghost predicate Counted(h: History) {
    && 0 <= h.state.next
    && |h.state.unacked| <= MAX_INFLIGHT
    && (forall k :: k in h.state.unacked ==>
          && 0 <= k < h.state.next
          && h.state.unacked[k].packet.number == k
          && (h.live ==> EntryCounted(h.state.unacked[k], h.sent[k], h.clock)))
    && (forall k :: h.sent[k] <= MAX_TRANSMISSIONS)
    && (forall k :: k < 0 || k >= h.state.next ==> h.sent[k] == 0)
  }

  lemma CountedResend(e: Entry, count: nat, clock: int, now: int)
    requires EntryCounted(e, count, clock) && clock <= now && IsIdle(e, now) && !Expired(e, now)
    ensures EntryCounted(e.(last := now), count + 1, now) && count + 1 <= MAX_TRANSMISSIONS
  {
    assert (count - 1) * RESEND_INTERVAL <= e.last - e.first;
    assert count * RESEND_INTERVAL < now - e.first;
  }

  lemma CountedTick(h: History, now: int, before: set<int>)
    requires Counted(h) && Enabled(h, Ticked(now, before))
    ensures Counted(Next(h, Ticked(now, before)))
  {
    var s, h' := h.state, Next(h, Ticked(now, before));
    forall k | k in Idle(s, now) && !Expired(s.unacked[k], now)
      ensures h.sent[k] + 1 <= MAX_TRANSMISSIONS
    {
      CountedResend(s.unacked[k], h.sent[k], h.clock, now);
    }
    if !TimedOut(s, now) {
      assert h'.state.unacked.Keys == s.unacked.Keys;
      forall k | k in s.unacked ensures EntryCounted(h'.state.unacked[k], h'.sent[k], now) {
        if IsIdle(s.unacked[k], now) {
          CountedResend(s.unacked[k], h.sent[k], h.clock, now);
        }
      }
    }
  }

  lemma CountedPull(h: History, body: Body, first: int, last: int)
    requires Counted(h) && Enabled(h, MessagePulled(body, first, last))
    ensures Counted(Next(h, MessagePulled(body, first, last)))
  {
    var s := h.state;
    assert s.next !in s.unacked;
    var m := s.unacked[s.next := Entry(Stamp(s.next, body), first, last)];
    assert m.Keys == s.unacked.Keys + {s.next};
  }

  lemma CountedAck(h: History, n: int)
    requires Counted(h) && Enabled(h, AckReceived(n))
    ensures Counted(Next(h, AckReceived(n)))
  {
    var m := h.state.unacked;
    assert (m - {n}).Keys == m.Keys - {n};
    Smaller(m.Keys, n);
  }

  lemma Smaller(s: set<int>, n: int)
    ensures |s - {n}| <= |s|
  {
    if n in s {
      assert s == (s - {n}) + {n};
    } else {
      assert s - {n} == s;
    }
  }

  lemma CountedStep(h: History, e: Event)
    requires Counted(h) && Enabled(h, e)
    ensures Counted(Next(h, e))
  {
    match e
    case AckReceived(n) => CountedAck(h, n);
    case MessagePulled(body, first, last) => CountedPull(h, body, first, last);
    case ThrottleFired =>
    case Ticked(now, before) => CountedTick(h, now, before);
  }

  lemma {:induction false} CountedRun(h: History, events: seq<Event>)
    requires Counted(h) && RunsFrom(h, events)
    ensures Counted(After(h, events))
    decreases |events|
  {
    if events == [] {
    } else {
      CountedStep(h, events[0]);
      CountedRun(Next(h, events[0]), events[1..]);
    }
  }

  /**
   * Whatever acknowledgments arrive and however the timers fire, no number is handed to
   * writeMessage more than 60 times, and never more than 10 packets are in flight.
   */
  lemma TransmissionBound(events: seq<Event>, k: int)
    requires RunsFrom(START, events)
    ensures After(START, events).sent[k] <= MAX_TRANSMISSIONS
    ensures |After(START, events).state.unacked| <= MAX_INFLIGHT
  {
    CountedRun(START, events);
  }

  // ---- What the events do ----------------------------------------------------------------

  /**
   * A resend pass at `now`, entry by entry: it ends the loop exactly when some packet was first sent more
   * than a minute ago; otherwise it writes exactly those last written more than a second ago, and only
   * for these moves the time of the last write.
   */
  lemma TickMeans(h: History, now: int, before: set<int>)
    requires Enabled(h, Ticked(now, before))
    ensures var n := Next(h, Ticked(now, before));
            && (n.live <==> forall k :: k in h.state.unacked ==> now - h.state.unacked[k].first <= 60_000_000_000)
            && (n.live ==>
                  && n.state.next == h.state.next && n.state.throttled == h.state.throttled
                  && n.state.unacked.Keys == h.state.unacked.Keys
                  && forall k :: n.sent[k] == h.sent[k] +
                       if k in h.state.unacked && now - h.state.unacked[k].last > 1_000_000_000 then 1 else 0)
            && (n.live ==> forall k :: k in h.state.unacked ==>
                  var e := h.state.unacked[k];
                  n.state.unacked[k] == if now - e.last > 1_000_000_000 then e.(last := now) else e)
  {
    var n := Next(h, Ticked(now, before));
    if n.live {
      forall k ensures n.sent[k] == h.sent[k] + multiset(Idle(h.state, now))[k] {
      }
    }
  }

  /** No event acknowledges `k`. */
  predicate Unheard(events: seq<Event>, k: int) {
    forall i :: 0 <= i < |events| ==> events[i] != AckReceived(k)
  }

  lemma {:induction false} FirstSendStays(h: History, events: seq<Event>, k: int, e: Entry)
    requires Counted(h) && RunsFrom(h, events) && Unheard(events, k)
    requires k in h.state.unacked && h.state.unacked[k].packet == e.packet && h.state.unacked[k].first == e.first
    ensures var n := After(h, events).state;
            k in n.unacked && n.unacked[k].packet == e.packet && n.unacked[k].first == e.first
    decreases |events|
  {
    if events == [] {
    } else {
      CountedStep(h, events[0]);
      FirstSendStays(Next(h, events[0]), events[1..], k, e);
    }
  }

  /** A pulled packet stays in flight with its number and the time of its first send until it is acknowledged. */
  lemma StaysUntilAcknowledged(events: seq<Event>, body: Body, first: int, last: int, more: seq<Event>)
    requires RunsFrom(START, events) && Enabled(After(START, events), MessagePulled(body, first, last))
    requires RunsFrom(Next(After(START, events), MessagePulled(body, first, last)), more)
    requires Unheard(more, After(START, events).state.next)
    ensures var h := After(START, events);
            var n := After(Next(h, MessagePulled(body, first, last)), more).state;
            && h.state.next in n.unacked
            && n.unacked[h.state.next].packet == Stamp(h.state.next, body)
            && n.unacked[h.state.next].first == first
  {
    var h := After(START, events);
    CountedRun(START, events);
    CountedStep(h, MessagePulled(body, first, last));
    FirstSendStays(Next(h, MessagePulled(body, first, last)), more, h.state.next,
                   Entry(Stamp(h.state.next, body), first, last));
  }

  predicate Fires(events: seq<Event>) {
    exists i :: 0 <= i < |events| && events[i].ThrottleFired?
  }

  lemma {:induction false} ThrottledUntilFired(h: History, events: seq<Event>)
    requires h.state.throttled && RunsFrom(h, events) && !Fires(events)
    ensures After(h, events).state.throttled
    decreases |events|
  {
    if events == [] {
    } else {
      assert !events[0].ThrottleFired?;
      forall i | 0 <= i < |events[1..]| ensures !events[1..][i].ThrottleFired? {
        assert events[1..][i] == events[i + 1];
      }
      ThrottledUntilFired(Next(h, events[0]), events[1..]);
    }
  }

  /** Between two messages that are pulled the throttle timer has fired. */
  lemma PullsAreThrottled(h: History, pull: Event, events: seq<Event>, again: Event)
    requires pull.MessagePulled? && again.MessagePulled?
    requires Enabled(h, pull) && RunsFrom(Next(h, pull), events) && Enabled(After(Next(h, pull), events), again)
    ensures Fires(events)
  {
    if !Fires(events) {
      ThrottledUntilFired(Next(h, pull), events);
    }
  }

  // ---- Send times ------------------------------------------------------------------------

  /** While the loop runs, later numbers were first sent later, and no send lies in the future. */
  ghost predicate Timed(h: History) {
    h.live ==>
      && (forall k :: k in h.state.unacked ==>
            k < h.state.next && h.state.unacked[k].first <= h.clock && h.state.unacked[k].last <= h.clock)
      && (forall j, k :: j in h.state.unacked && k in h.state.unacked && j <= k ==>
            h.state.unacked[j].first <= h.state.unacked[k].first)
  }

  lemma TimedStep(h: History, e: Event)
    requires Timed(h) && Enabled(h, e)
    ensures Timed(Next(h, e))
  {
  }

  // ---- The bound is reached --------------------------------------------------------------

  /** `n` resend passes, each one nanosecond more than a second after the one before. */
  function Ticks(from: int, n: nat): (events: seq<Event>)
    ensures |events| == n
    decreases n
  {
    if n == 0 then [] else [Ticked(from, {})] + Ticks(from + RESEND_INTERVAL + 1, n - 1)
  }

  /** The history in which packet 0 has been sent `count` times, last at `last`. */
  function Lonely(body: Body, last: int, count: nat): History {
    History(SenderState(1, map[0 := Entry(Stamp(0, body), 0, last)], true), last, multiset{}[0 := count], true)
  }

  lemma {:induction false} TicksResend(body: Body, last: int, count: nat, n: nat)
    requires 0 <= last && last + n * (RESEND_INTERVAL + 1) <= RESEND_TIMEOUT
    ensures var events := Ticks(last + RESEND_INTERVAL + 1, n);
            && RunsFrom(Lonely(body, last, count), events)
            && After(Lonely(body, last, count), events) == Lonely(body, last + n * (RESEND_INTERVAL + 1), count + n)
    decreases n
  {
    if n == 0 {
    } else {
      var h, now := Lonely(body, last, count), last + RESEND_INTERVAL + 1;
      assert (n - 1) * (RESEND_INTERVAL + 1) >= 0;
      TickResends(body, last, count);
      TicksResend(body, now, count + 1, n - 1);
      hide Enabled, Next, Lonely;
      assert Ticks(now, n)[1..] == Ticks(now + RESEND_INTERVAL + 1, n - 1);
    }
  }

  lemma TickResends(body: Body, last: int, count: nat)
    requires 0 <= last <= RESEND_TIMEOUT - RESEND_INTERVAL - 1
    ensures var h, now := Lonely(body, last, count), last + RESEND_INTERVAL + 1;
            Enabled(h, Ticked(now, {})) && Next(h, Ticked(now, {})) == Lonely(body, now, count + 1)
  {
    var h, now := Lonely(body, last, count), last + RESEND_INTERVAL + 1;
    assert h.state.unacked[0] == Entry(Stamp(0, body), 0, last);
    assert Idle(h.state, now) == {0};
    assert !TimedOut(h.state, now);
    assert Resent(h.state, now).unacked == map[0 := Entry(Stamp(0, body), 0, now)];
    assert multiset{}[0 := count] + multiset({0}) == multiset{}[0 := count + 1];
  }

  lemma RunsOn(h: History, e: Event, events: seq<Event>)
    requires Enabled(h, e) && RunsFrom(Next(h, e), events)
    ensures RunsFrom(h, [e] + events) && After(h, [e] + events) == After(Next(h, e), events)
  {
    hide Enabled, Next;
    assert ([e] + events)[1..] == events;
  }

  /** A packet that is never acknowledged can indeed be sent 60 times. */
  lemma TransmissionBoundIsReached(body: Body)
    ensures exists events :: RunsFrom(START, events) && After(START, events).sent[0] == MAX_TRANSMISSIONS
  {
    var pull := MessagePulled(body, 0, 0);
    var events := [pull] + Ticks(RESEND_INTERVAL + 1, 59);
    assert events[1..] == Ticks(RESEND_INTERVAL + 1, 59);
    assert multiset{} + multiset{0} == multiset{}[0 := 1];
    assert Next(START, pull) == Lonely(body, 0, 1);
    TicksResend(body, 0, 1, 59);
    assert Lonely(body, 59 * (RESEND_INTERVAL + 1), 60).sent[0] == 60;
    assert Enabled(START, pull);
    RunsOn(START, pull, Ticks(RESEND_INTERVAL + 1, 59));
    hide Enabled, Next, Lonely, Ticks;
    assert After(START, events).sent[0] == MAX_TRANSMISSIONS;
  }
}
