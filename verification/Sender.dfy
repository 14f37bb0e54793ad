/**
 * The sending loop's state and its select branches, over the message objects its callers hand in:
 * the map keeps references, so numbers, flags and digests are written into the callers' objects.
 */
module Sender {
  import opened Numbers
  import opened Messages
  import opened Packets
  import opened SenderModel

  /** A message that does not marshal never reaches the socket. */
  function Pushed(socket: seq<seq<Byte>>, r: Result<seq<Byte>, Fault>): seq<seq<Byte>> {
    if r.Ok? then socket + [r.value] else socket
  }

  // ---- Which frames are on the socket ----------------------------------------------------

  /**
   * `origin` says of each frame on the socket under which number it was written, or that it is a control
   * message: every frame of a number is the frame its message had the first time.
   */
  ghost predicate Traces(sha: Hash, socket: seq<seq<Byte>>, origin: seq<Option<int>>, messages: map<int, Message>) {
    && |origin| == |socket|
    && forall i :: 0 <= i < |socket| && origin[i].Some? ==>
         origin[i].value in messages && Marshal(sha, messages[origin[i].value]) == Ok(socket[i])
  }

  /** The origins of the frames that writing one message adds. */
  function OriginOf(r: Result<seq<Byte>, Fault>, o: Option<int>): seq<Option<int>> {
    if r.Ok? then [o] else []
  }

  /** And that writing the messages numbered in `order` adds. */
  ghost function OriginsOf(sha: Hash, messages: map<int, Message>, order: seq<int>): seq<Option<int>>
    requires forall k :: k in order ==> k in messages
    decreases |order|
  {
    if order == [] then []
    else
      var rest, k := order[..|order| - 1], order[|order| - 1];
      assert k in order;
      OriginsOf(sha, messages, rest) + OriginOf(Marshal(sha, messages[k]), Some(k))
  }

  lemma TracesMore(sha: Hash, socket: seq<seq<Byte>>, origin: seq<Option<int>>, messages: map<int, Message>,
                   r: Result<seq<Byte>, Fault>, o: Option<int>)
    requires Traces(sha, socket, origin, messages)
    requires o.Some? ==> o.value in messages && r == Marshal(sha, messages[o.value])
    ensures Traces(sha, Pushed(socket, r), origin + OriginOf(r, o), messages)
  {
  }

  lemma {:induction false} TracesAll(sha: Hash, socket: seq<seq<Byte>>, origin: seq<Option<int>>,
                                     messages: map<int, Message>, order: seq<int>)
    requires Traces(sha, socket, origin, messages) && forall k :: k in order ==> k in messages
    ensures Traces(sha, PushAll(sha, socket, messages, order), origin + OriginsOf(sha, messages, order), messages)
    decreases |order|
  {
    if order == [] {
      assert origin + [] == origin;
    } else {
      var rest, k := order[..|order| - 1], order[|order| - 1];
      assert k in order;
      TracesAll(sha, socket, origin, messages, rest);
      var o, r := OriginsOf(sha, messages, rest), Marshal(sha, messages[k]);
      TracesMore(sha, PushAll(sha, socket, messages, rest), origin + o, messages, r, Some(k));
      assert origin + o + OriginOf(r, Some(k)) == origin + (o + OriginOf(r, Some(k)));
    }
  }

  lemma TracesNewNumber(sha: Hash, socket: seq<seq<Byte>>, origin: seq<Option<int>>, messages: map<int, Message>,
                        k: int, m: Message)
    requires Traces(sha, socket, origin, messages) && k !in messages
    ensures Traces(sha, socket, origin, messages[k := m])
  {
  }

  /** Every retransmission of a number is byte for byte its first frame. */
  lemma SameNumberSameFrame(sha: Hash, socket: seq<seq<Byte>>, origin: seq<Option<int>>, messages: map<int, Message>,
                            i: nat, j: nat)
    requires Traces(sha, socket, origin, messages)
    requires i < |socket| && j < |socket| && origin[i] == origin[j] && origin[i].Some?
    ensures socket[i] == socket[j]
  {
    assert Marshal(sha, messages[origin[i].value]) == Ok(socket[i]);
  }

  // ---- The resend pass as a function of the entries --------------------------------------

  /** The frames of the messages numbered in `order`, pushed one after the other. */
  function PushAll(sha: Hash, socket: seq<seq<Byte>>, messages: map<int, Message>, order: seq<int>): seq<seq<Byte>>
    requires forall k :: k in order ==> k in messages
    decreases |order|
  {
    if order == [] then socket
    else
      var rest, k := order[..|order| - 1], order[|order| - 1];
      assert k in order;
      Pushed(PushAll(sha, socket, messages, rest), Marshal(sha, messages[k]))
  }

  /** A socket that had been handed `before` has since been handed the frames of `order`, and nothing else. */
  ghost predicate Wrote(sha: Hash, before: seq<seq<Byte>>, messages: map<int, Message>, order: seq<int>,
                        after: seq<seq<Byte>>) {
    && (forall k :: k in order ==> k in messages)
    && after == PushAll(sha, before, messages, order)
  }

  /** `order` with `k` at its end, if `k` has just been written. */
  function Noted(order: seq<int>, k: int, again: bool): seq<int> {
    if again then order + [k] else order
  }

  lemma WroteNothing(sha: Hash, socket: seq<seq<Byte>>, messages: map<int, Message>)
    ensures Wrote(sha, socket, messages, [], socket)
  {
  }

  lemma WroteMore(sha: Hash, before: seq<seq<Byte>>, messages: map<int, Message>, order: seq<int>,
                  socket: seq<seq<Byte>>, k: int, again: bool, after: seq<seq<Byte>>)
    requires Wrote(sha, before, messages, order, socket) && k in messages
    requires after == if again then Pushed(socket, Marshal(sha, messages[k])) else socket
    ensures Wrote(sha, before, messages, Noted(order, k, again), after)
  {
    assert (order + [k])[..|order|] == order;
  }

  /**
   * What a resend pass may do to the state `s`, writing the numbers in `order`. It times out exactly
   * when some entry has been waiting for more than a minute, and then it has written some of the idle
   * entries that have not, once each; otherwise it writes every idle entry exactly once and nothing
   * else, and moves only their last-send times.
   */
  ghost predicate PassResult(s: SenderState, after: SenderState, order: seq<int>, now: int, timedOut: bool) {
    && (timedOut <==> TimedOut(s, now))
    && (timedOut ==> multiset(order) <= multiset(Due(s, now)))
    && (!timedOut ==> after == Resent(s, now) && multiset(order) == multiset(Idle(s, now)))
  }

  /** A pass part of the way through: `todo` is still to visit. */
  ghost predicate PassSoFar(s: SenderState, m: map<int, Entry>, todo: set<int>, order: seq<int>, now: int) {
    && todo <= m.Keys == s.unacked.Keys
    && (forall k :: k in todo ==> m[k] == s.unacked[k])
    && (forall k :: k in m && k !in todo ==> !Expired(s.unacked[k], now) && m[k] == Touch(s.unacked[k], now))
    && multiset(order) == multiset(Idle(s, now) - todo)
  }

  lemma PassBegins(s: SenderState, now: int)
    ensures PassSoFar(s, s.unacked, s.unacked.Keys, [], now)
  {
    assert Idle(s, now) - s.unacked.Keys == {};
  }

  lemma PassStep(s: SenderState, m: map<int, Entry>, todo: set<int>, order: seq<int>, now: int, k: int)
    requires PassSoFar(s, m, todo, order, now) && k in todo && !Expired(m[k], now)
    ensures PassSoFar(s, m[k := Touch(m[k], now)], todo - {k}, Noted(order, k, IsIdle(m[k], now)), now)
  {
    hide Touch, Expired, IsIdle;
    var idle := Idle(s, now);
    if IsIdle(m[k], now) {
      assert idle - (todo - {k}) == (idle - todo) + {k};
    } else {
      assert idle - (todo - {k}) == idle - todo;
    }
  }

  lemma PassDone(s: SenderState, after: SenderState, order: seq<int>, now: int)
    requires PassSoFar(s, after.unacked, {}, order, now) && after == s.(unacked := after.unacked)
    ensures PassResult(s, after, order, now, false)
  {
    var m, r := after.unacked, Resent(s, now).unacked;
    assert forall k :: k in m ==> m[k] == r[k];
    assert m == r;
    assert Idle(s, now) - {} == Idle(s, now);
  }

  lemma PassAborts(s: SenderState, m: map<int, Entry>, todo: set<int>, order: seq<int>, now: int, k: int,
                   after: SenderState)
    requires PassSoFar(s, m, todo, order, now) && k in todo && Expired(m[k], now)
    ensures PassResult(s, after, order, now, true)
  {
    assert forall j :: j in Idle(s, now) - todo ==> j in m && j in Due(s, now);
    assert Idle(s, now) - todo <= Due(s, now);
  }

  /**
   * Every resend pass is a step of the history machine, which counts the numbers in the order in which
   * their frames were pushed: what holds of all its runs holds of the loop and its socket.
   */
  lemma PassIsTick(h: History, after: SenderState, order: seq<int>, now: int, timedOut: bool)
    requires h.live && h.clock <= now
    requires PassResult(h.state, after, order, now, timedOut)
    ensures exists before ::
              && Enabled(h, Ticked(now, before))
              && Next(h, Ticked(now, before))
                 == History(if timedOut then h.state else after, now, h.sent + multiset(order), !timedOut)
  {
    var before := if timedOut then set k | k in order else {};
    if timedOut {
      hide Due;
      forall k | k in order ensures k in Due(h.state, now) && multiset(order)[k] == 1 {
        assert multiset(order)[k] <= multiset(Due(h.state, now))[k];
      }
      assert multiset(before) == multiset(order);
    }
    assert Enabled(h, Ticked(now, before));
  }

  // ---- The loop's variables --------------------------------------------------------------

  /** A reference to the caller's message object, with its first and last send times. */
  datatype Pending = Pending(message: AgentMessage, first: int, last: int)

  /** `entries` are the entries of `unacked` as values. */
  ghost predicate Mirrored(unacked: map<int, Pending>, entries: map<int, Entry>, messages: map<int, Message>) {
    && entries.Keys == unacked.Keys
    && forall k :: k in unacked ==>
         k in messages && entries[k] == Entry(PacketOf(messages[k]), unacked[k].first, unacked[k].last)
  }

  lemma TimesStayMirrored(unacked: map<int, Pending>, entries: map<int, Entry>, messages: map<int, Message>, k: int,
                          last: int)
    requires Mirrored(unacked, entries, messages) && k in unacked
    ensures k in entries
    ensures Mirrored(unacked[k := unacked[k].(last := last)], entries[k := entries[k].(last := last)], messages)
  {
  }

  class OutgoingLoop {
    const sha: Hash
    var next: I64
    var unacked: map<int, Pending>
    var throttled: bool
    /** Every frame handed to the socket, control messages included. */
    var socket: seq<seq<Byte>>
    /** The entries of `unacked` as values. */
    ghost var inFlight: map<int, Entry>
    /** What was marshalled for each number the first time. */
    ghost var firstSent: map<int, Message>
    /** The number each frame on the socket was written under, if it was written under one. */
    ghost var origin: seq<Option<int>>

    ghost predicate Traced()
      reads this`socket, this`origin, this`firstSent
    {
      Traces(sha, socket, origin, firstSent)
    }

    ghost function Objects(): set<AgentMessage>
      reads this
    {
      set k | k in unacked :: unacked[k].message
    }

    /** Each number handed out so far has a message of its own, complete with its digest and length. */
    ghost predicate Numbered()
      reads this`next, this`firstSent
    {
      && (forall k :: k in firstSent <==> 0 <= k < next)
      && (forall k :: k in firstSent ==>
            firstSent[k].sequenceNumber == k && Prepared(sha, firstSent[k]) == firstSent[k])
    }

    /** The objects in flight still are the messages that were first sent. */
    ghost predicate Unchanged()
      reads this, Objects()
    {
      forall k :: k in unacked ==> k in firstSent && unacked[k].message.Value() == firstSent[k]
    }

    ghost predicate Mirrors()
      reads this`unacked, this`inFlight, this`firstSent
    {
      Mirrored(unacked, inFlight, firstSent)
    }

    /** What holds of the loop's own variables, whatever becomes of the callers' objects. */
    ghost predicate Recorded()
      reads this`next, this`unacked, this`inFlight, this`firstSent
    {
      0 <= next && Numbered() && Mirrors()
    }

    ghost predicate Valid()
      reads this, Objects()
    {
      Recorded() && Unchanged()
    }

    ghost function State(): SenderState
      reads this
    {
      SenderState(next, inFlight, throttled)
    }

    constructor (sha: Hash)
      ensures Valid() && State() == INITIAL && this.sha == sha
      ensures socket == [] && firstSent == map[] && origin == [] && Traced()
    {
      this.sha := sha;
      next, unacked, throttled := 0, map[], false;
      socket, inFlight, firstSent, origin := [], map[], map[], [];
    }

    // ---- Acknowledgments, the throttle timer, control messages ---------------------------

    /** An acknowledgment arrives: the number is forgotten if it is known, and ignored otherwise. */
    method HandleAck(n: I64)
      requires Valid()
      modifies this`unacked, this`inFlight
      ensures Valid() && State() == Acked(old(State()), n)
    {
      if n in unacked {
        unacked := unacked - {n};
        inFlight := inFlight - {n};
      }
      assert inFlight == old(inFlight) - {n};
    }

    method HandleThrottleTimer()
      requires Valid()
      modifies this`throttled
      ensures Valid() && State() == Unthrottled(old(State()))
    {
      throttled := false;
    }

    /** writeMessage: marshal, and hand the frame to the socket when there is one. */
    method WriteMessage(message: AgentMessage) returns (r: Result<seq<Byte>, Fault>)
      modifies this`socket, message
      ensures message.Value() == Prepared(sha, old(message.Value())) == Prepared(sha, message.Value())
      ensures r == Marshal(sha, message.Value())
      ensures socket == Pushed(old(socket), r)
    {
      MarshalTwice(sha, message.Value());
      r := message.MarshalBinary(sha);
      if r.Ok? {
        socket := socket + [r.value];
      }
    }

    /** A control message is written as it is: no number, no retransmission. */
    method HandleControl(message: AgentMessage)
      requires Valid() && Traced() && message !in Objects()
      modifies this`socket, this`origin, message
      ensures Valid() && Traced() && State() == old(State())
      ensures message.Value() == Prepared(sha, old(message.Value()))
      ensures socket == Pushed(old(socket), Marshal(sha, message.Value()))
    {
      ghost var frames := socket;
      var r := WriteMessage(message);
      TracesMore(sha, frames, origin, firstSent, r, None);
      origin := origin + OriginOf(r, None);
    }

    // ---- New messages --------------------------------------------------------------------

    /** The number and flags a pulled message is given. */
    method Number(message: AgentMessage)
      modifies message
      ensures PacketOf(message.Value()) == Stamp(next, BodyOf(old(message.Value())))
      ensures message.Value()
              == old(message.Value()).(sequenceNumber := next,
                                       flags := if next == 0 && old(message.flags) != 2 then 1 else old(message.flags))
    {
      message.sequenceNumber := next;
      if message.sequenceNumber == 0 && message.flags != FLAG_FIN {
        message.flags := FLAG_SYN;
      }
    }

    /** The bookkeeping for a numbered and written message; the map keeps the reference. */
    method Record(message: AgentMessage, first: int, last: int)
      requires Recorded() && next < MAX_I64
      requires message.sequenceNumber == next && Prepared(sha, message.Value()) == message.Value()
      modifies this`unacked, this`inFlight, this`firstSent, this`next, this`throttled
      ensures Recorded()
      ensures State() == SenderState(old(next) + 1,
                                     old(inFlight)[old(next) := Entry(PacketOf(message.Value()), first, last)], true)
      ensures unacked == old(unacked)[old(next) := Pending(message, first, last)]
      ensures firstSent == old(firstSent)[old(next) := message.Value()]
    {
      unacked := unacked[next := Pending(message, first, last)];
      inFlight := inFlight[next := Entry(PacketOf(message.Value()), first, last)];
      firstSent := firstSent[next := message.Value()];
      next := next + 1;
      throttled := true;
    }

    /**
     * A message is pulled from the outgoing queue. Numbers are assumed not to run out of the int64
     * range. An object that is still in flight gets the new number too, so its older entry no longer
     * holds what was sent under the older number; that is the only way to lose it.
     */
    method HandleMessage(message: AgentMessage, first: int, last: int)
      requires Valid() && Traced() && CanPull(State()) && next < MAX_I64
      modifies this, message
      ensures Recorded() && Traced() && State() == Pull(old(State()), BodyOf(old(message.Value())), first, last)
      ensures Valid() <==> message !in old(Objects())
      ensures unacked == old(unacked)[old(next) := Pending(message, first, last)]
      ensures message.Value()
              == old(message.Value()).(sequenceNumber := old(next),
                                       flags := if old(next) == 0 && old(message.flags) != 2 then 1
                                                else old(message.flags),
                                       payloadDigest := sha(old(message.payload)),
                                       payloadLength := |old(message.payload)| % 0x1_0000_0000)
      ensures firstSent == old(firstSent)[old(next) := message.Value()]
      ensures socket == Pushed(old(socket), Marshal(sha, message.Value()))
    {
      hide Mirrors, Unchanged, Marshal, Stamp, Traces;
      ghost var frames, k, messages := socket, next, firstSent;
      assert k !in messages;
      hide Numbered;
      Number(message);
      var r := WriteMessage(message);
      Record(message, first, last);
      TracesNewNumber(sha, frames, origin, messages, k, message.Value());
      TracesMore(sha, frames, origin, firstSent, r, Some(k));
      origin := origin + OriginOf(r, Some(k));
      UnchangedIff(message);
    }

    /** Only the object that was given a new number can differ from what was sent under an older one. */
    twostate lemma UnchangedIff(message: AgentMessage)
      requires old(allocated(message)) && old(Valid()) && message.sequenceNumber == old(next)
      requires exists first, last :: unacked == old(unacked)[old(next) := Pending(message, first, last)]
      requires firstSent == old(firstSent)[old(next) := message.Value()]
      requires forall o :: o in old(Objects()) && o != message ==> unchanged(o)
      ensures Unchanged() <==> message !in old(Objects())
    {
      if message in old(Objects()) {
        var k :| k in old(unacked) && old(unacked)[k].message == message;
        assert k in firstSent && firstSent[k].sequenceNumber == k;
      } else {
        forall k | k in old(unacked) ensures unacked[k].message.Value() == firstSent[k] {
          assert old(unacked)[k].message in old(Objects());
        }
      }
    }

    // ---- The resend pass -----------------------------------------------------------------

    /** The bookkeeping of a resend: only the last-send time of `k` moves. */
    method Touched(k: int, now: int)
      requires Valid() && k in unacked
      modifies this`unacked, this`inFlight
      ensures Valid() && Objects() == old(Objects())
      ensures inFlight == old(inFlight)[k := old(inFlight[k]).(last := now)]
    {
      TimesStayMirrored(unacked, inFlight, firstSent, k, now);
      hide Mirrored, Numbered;
      inFlight := inFlight[k := inFlight[k].(last := now)];
      unacked := unacked[k := unacked[k].(last := now)];
      assert forall j :: j in unacked ==> unacked[j].message == old(unacked)[j].message;
    }

    /** An unacknowledged message is written again: the same message, hence the same frame. */
    method Resend(k: int, now: int)
      requires Valid() && k in unacked
      modifies this`unacked, this`inFlight, this`socket, unacked[k].message
      ensures Valid() && Objects() == old(Objects())
      ensures inFlight == old(inFlight)[k := old(inFlight[k]).(last := now)]
      ensures socket == Pushed(old(socket), Marshal(sha, firstSent[k]))
    {
      var r := WriteMessage(unacked[k].message);
      Touched(k, now);
    }

    /** One entry of the resend pass: give up, write it again, or leave it. */
    method VisitEntry(k: int, now: int) returns (expired: bool, again: bool)
      requires Valid() && k in unacked
      modifies this`unacked, this`inFlight, this`socket, unacked[k].message
      ensures Valid() && Objects() == old(Objects())
      ensures expired <==> Expired(old(inFlight[k]), now)
      ensures again <==> !expired && IsIdle(old(inFlight[k]), now)
      ensures inFlight == if expired then old(inFlight) else old(inFlight)[k := Touch(old(inFlight[k]), now)]
      ensures socket == if again then Pushed(old(socket), Marshal(sha, firstSent[k])) else old(socket)
    {
      expired, again := false, false;
      var e := unacked[k];
      if now - e.first > RESEND_TIMEOUT {
        expired := true;
      } else if now - e.last > RESEND_INTERVAL {
        Resend(k, now);
        again := true;
      }
    }

    /** The next entry of a pass that began in the state `s` with the frames `begun` on the socket. */
    method VisitNext(k: int, now: int, ghost s: SenderState, ghost todo: set<int>, ghost begun: seq<seq<Byte>>,
                     ghost order: seq<int>) returns (expired: bool, ghost more: seq<int>)
      requires Valid() && k in todo && k in unacked
      requires PassSoFar(s, inFlight, todo, order, now) && Wrote(sha, begun, firstSent, order, socket)
      modifies this`unacked, this`inFlight, this`socket, unacked[k].message
      ensures Valid() && Objects() == old(Objects())
      ensures if expired then PassResult(s, State(), more, now, true)
              else PassSoFar(s, inFlight, todo - {k}, more, now)
      ensures Wrote(sha, begun, firstSent, more, socket)
    {
      hide Wrote, PassSoFar, PassResult, Expired, IsIdle, Touch, Marshal;
      ghost var entries, frames := inFlight, socket;
      var again;
      expired, again := VisitEntry(k, now);
      more := Noted(order, k, again);
      if expired {
        PassAborts(s, entries, todo, order, now, k, State());
      } else {
        PassStep(s, entries, todo, order, now, k);
      }
      WroteMore(sha, begun, firstSent, order, frames, k, again, socket);
    }

    /** The loop over the map, in whatever order it comes, up to the first expired entry. */
    method VisitAll(now: int) returns (timedOut: bool, ghost order: seq<int>)
      requires Valid()
      modifies this`unacked, this`inFlight, this`socket, Objects()
      ensures Valid()
      ensures PassResult(old(State()), State(), order, now, timedOut)
      ensures Wrote(sha, old(socket), firstSent, order, socket)
    {
      hide Wrote, PassResult, Expired, IsIdle, Touch, Marshal;
      timedOut, order := false, [];
      ghost var before := State();
      var todo := unacked.Keys;
      PassBegins(before, now);
      WroteNothing(sha, socket, firstSent);
      while todo != {}
        invariant Valid() && Objects() == old(Objects())
        invariant PassSoFar(before, inFlight, todo, order, now)
        invariant Wrote(sha, old(socket), firstSent, order, socket)
      {
        assert (forall j :: j !in todo) ==> todo == {};
        var k :| k in todo;
        timedOut, order := VisitNext(k, now, before, todo, old(socket), order);
        if timedOut {
          return;
        }
        todo := todo - {k};
      }
      PassDone(before, State(), order, now);
    }

    /**
     * The resend pass. `order` is the order in which it has written: the socket has been handed the first
     * frame of each of those numbers, in that order, and nothing else.
     */
    method HandleTick(now: int) returns (timedOut: bool, ghost order: seq<int>)
      requires Valid() && Traced()
      modifies this`unacked, this`inFlight, this`socket, this`origin, Objects()
      ensures Valid() && Traced()
      ensures PassResult(old(State()), State(), order, now, timedOut)
      ensures Wrote(sha, old(socket), firstSent, order, socket)
    {
      hide PassResult, Traces, Numbered, Mirrors;
      ghost var frames := socket;
      timedOut, order := VisitAll(now);
      TracesAll(sha, frames, origin, firstSent, order);
      origin := origin + OriginsOf(sha, firstSent, order);
    }
  }
}
