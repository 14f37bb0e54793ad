/**
 * The byte stream end to end: a local reader behind one copy loop, the protocol in the middle with
 * other writers in between, and a local writer behind the other copy loop.
 */
module EndToEnd {
  import opened Numbers
  import opened Messages
  import opened Packets
  import opened Protocol
  import opened ProtocolTheorems
  import opened CopyLoops
  import H = Handoff

  /**
   * `inward` is the loop from the local reader to the session with its helper, `got` the result it is
   * working on; `outward` the loop from the session to the local writer. `returned` is every byte the
   * local reader has returned, `offered` every byte passed to the local writer, and `dropped` a payload
   * the outward loop had in hand when it returned.
   */
  datatype Pipeline = Pipeline(
    system: System,
    inward: H.Pair<(), ReadResult>,
    got: Option<ReadResult>,
    readerFailed: bool,
    returned: seq<Byte>,
    outward: H.Pair<seq<Byte>, bool>,
    offered: seq<Byte>,
    dropped: seq<Byte>)

  const START_PIPELINE: Pipeline :=
    Pipeline(INITIAL_SYSTEM, H.Initial(), None, false, [], H.Initial(), [], [])

  datatype Event =
    /** Any step of the two sessions and the link, other writers' messages included. */
    | Elsewhere(action: Action)
    // The inward loop and its helper.
    | Request
    | ReaderCalled
    | ReaderReturns(r: ReadResult)
    | ResultPut
    | ResultTaken
    | SessionWrite
    | InwardFails
    | InwardEnds
    | InwardExits
    // The outward loop and its helper.
    | SessionRead
    | WriterCalled
    | WriterReturns(failed: bool)
    | VerdictPut
    | VerdictTaken
    | OutwardEnds
    | OutwardExits

  /** Nothing is left to write of the result in hand. */
  predicate Written(got: Option<ReadResult>) {
    got.None? || got.value.data == []
  }

  predicate CanHappen(p: Pipeline, e: Event) {
    match e
    case Elsewhere(a) =>
      && CanStep(p.system, a) && !a.Read?
      && (a.Write? ==> a.body.payloadType != PAYLOAD_OUTPUT)
    case Request => p.inward.loop.Busy? && Written(p.got) && (p.got.Some? ==> !p.got.value.failed)
    case ReaderCalled => H.CanMove(p.inward, H.Hand)
    case ReaderReturns(r) => H.CanMove(p.inward, H.Finish(r)) && |r.data| <= BUFFER_SIZE
    case ResultPut => H.CanMove(p.inward, H.Put)
    case ResultTaken => H.CanMove(p.inward, H.Take)
    case SessionWrite =>
      && p.inward.loop.Busy? && p.got.Some? && p.got.value.data != []
      && CanStep(p.system, Write(StreamBody(p.got.value.data)))
    case InwardFails => p.inward.loop.Busy? && p.got.Some? && p.got.value.data == [] && p.got.value.failed
    case InwardEnds => !p.inward.loop.Ended?
    case InwardExits => H.CanMove(p.inward, H.Exit)
    case SessionRead => p.outward.loop.Busy? && CanStep(p.system, Read)
    case WriterCalled => H.CanMove(p.outward, H.Hand)
    case WriterReturns(failed) => H.CanMove(p.outward, H.Finish(failed))
    case VerdictPut => H.CanMove(p.outward, H.Put)
    case VerdictTaken => H.CanMove(p.outward, H.Take)
    case OutwardEnds => !p.outward.loop.Ended?
    case OutwardExits => H.CanMove(p.outward, H.Exit)
  }

  /** What the outward loop does with the packet Read returns: only Output payloads go to the writer. */
  function Offer(p: Pipeline): H.Pair<seq<Byte>, bool>
    requires p.outward.loop.Busy? && CanStep(p.system, Read)
  {
    var body := p.system.delivered[p.system.taken].body;
    if body.payloadType == PAYLOAD_OUTPUT then H.Apply(p.outward, H.Offer(body.payload)) else p.outward
  }

  function After(p: Pipeline, e: Event): Pipeline
    requires CanHappen(p, e)
  {
    match e
    case Elsewhere(a) => p.(system := Step(p.system, a))
    case Request => p.(inward := H.Apply(p.inward, H.Offer(())), got := None)
    case ReaderCalled => p.(inward := H.Apply(p.inward, H.Hand))
    case ReaderReturns(r) => p.(inward := H.Apply(p.inward, H.Finish(r)), returned := p.returned + r.data)
    case ResultPut => p.(inward := H.Apply(p.inward, H.Put))
    case ResultTaken => p.(inward := H.Apply(p.inward, H.Take), got := p.inward.result)
    case SessionWrite =>
      p.(system := Step(p.system, Write(StreamBody(p.got.value.data))), got := Some(p.got.value.(data := [])))
    case InwardFails => p.(inward := H.Apply(p.inward, H.End), readerFailed := true)
    case InwardEnds => p.(inward := H.Apply(p.inward, H.End))
    case InwardExits => p.(inward := H.Apply(p.inward, H.Exit))
    case SessionRead => p.(system := Step(p.system, Read), outward := Offer(p))
    case WriterCalled =>
      p.(outward := H.Apply(p.outward, H.Hand), offered := p.offered + p.outward.loop.request)
    case WriterReturns(failed) => p.(outward := H.Apply(p.outward, H.Finish(failed)))
    case VerdictPut => p.(outward := H.Apply(p.outward, H.Put))
    case VerdictTaken =>
      var q := H.Apply(p.outward, H.Take);
      p.(outward := if p.outward.result.value then H.Apply(q, H.End) else q)
    case OutwardEnds =>
      p.(outward := H.Apply(p.outward, H.End),
         dropped := if p.outward.loop.Offering? then p.outward.loop.request else [])
    case OutwardExits => p.(outward := H.Apply(p.outward, H.Exit))
  }

  // ---- Where every byte is ---------------------------------------------------------------

  /** Bytes the local reader has returned that have not been written to the session. */
  function Pending(p: Pipeline): seq<Byte> {
    (if p.got.Some? then p.got.value.data else [])
    + (if p.inward.result.Some? then p.inward.result.value.data else [])
    + (if p.inward.helper.Sending? then p.inward.helper.outcome.data else [])
  }

  /** Bytes taken from the session that have not been offered to the local writer. */
  function InHand(p: Pipeline): seq<Byte> {
    if p.outward.loop.Offering? then p.outward.loop.request else p.dropped
  }

  function Bodies(packets: seq<Packet>): (r: seq<Body>)
    ensures |r| == |packets|
  {
    seq(|packets|, i requires 0 <= i < |packets| => packets[i].body)
  }

  /** The bodies the outward loop has taken. */
  function Taken(s: System): seq<Body> {
    if s.taken <= |s.delivered| then Bodies(s.delivered[..s.taken]) else []
  }

  /** The inward side: the bytes written and the bytes pending are the bytes returned, in that order. */
  ghost predicate InwardOk(p: Pipeline) {
    && H.InStep(p.inward)
    && (!p.inward.loop.Busy? && !p.inward.loop.Ended? ==> p.got.None?)
    && (p.got.Some? ==> H.Outstanding(p.inward) == 0)
    && p.returned == Bytes(p.system.written) + Pending(p)
    && (p.readerFailed ==> p.inward.loop.Ended? && Pending(p) == [] && H.Outstanding(p.inward) == 0)
  }

  /** The outward side: the bytes offered and the bytes in hand are the bytes taken, in that order. */
  ghost predicate OutwardOk(p: Pipeline) {
    && H.InStep(p.outward)
    && (!p.outward.loop.Ended? ==> p.dropped == [])
    && Bytes(Taken(p.system)) == p.offered + InHand(p)
  }

  ghost predicate Flows(p: Pipeline) {
    Inv(p.system) && InwardOk(p) && OutwardOk(p)
  }

  lemma TakenStays(s: System, a: Action)
    requires Inv(s) && CanStep(s, a) && !a.Read?
    ensures Taken(Step(s, a)) == Taken(s)
  {
    var t := Step(s, a);
    assert t.delivered[..t.taken] == s.delivered[..s.taken];
  }

  /** Steps elsewhere leave the bytes written and the packets taken as they are. */
  lemma ElsewhereMovesNoBytes(s: System, a: Action)
    requires Inv(s) && CanStep(s, a) && !a.Read?
    requires a.Write? ==> a.body.payloadType != PAYLOAD_OUTPUT
    ensures Bytes(Step(s, a).written) == Bytes(s.written)
    ensures Taken(Step(s, a)) == Taken(s)
  {
    var t := Step(s, a);
    if a.Write? {
      BytesOneMore(s.written, a.body);
    }
    TakenStays(s, a);
    hide Taken;
  }

  lemma ElsewhereKeeps(p: Pipeline, a: Action)
    requires Flows(p) && CanHappen(p, Elsewhere(a))
    ensures Flows(After(p, Elsewhere(a)))
  {
    StepKeeps(p.system, a);
    ElsewhereMovesNoBytes(p.system, a);
    hide Bytes, Taken, Step;
  }

  lemma InwardKeeps(p: Pipeline, e: Event)
    requires e.Request? || e.ReaderCalled? || e.ReaderReturns? || e.ResultPut? || e.ResultTaken? || e.InwardFails?
             || e.InwardEnds? || e.InwardExits?
    requires Flows(p) && CanHappen(p, e)
    ensures Flows(After(p, e))
  {
    hide Inv, Bytes, Taken;
  }

  lemma SessionWriteKeeps(p: Pipeline)
    requires Flows(p) && CanHappen(p, SessionWrite)
    ensures Flows(After(p, SessionWrite))
  {
    hide Inv, Bytes;
    var body := StreamBody(p.got.value.data);
    StepKeeps(p.system, Write(body));
    BytesOneMore(p.system.written, body);
    TakenStays(p.system, Write(body));
  }

  lemma OutwardKeeps(p: Pipeline, e: Event)
    requires e.WriterCalled? || e.WriterReturns? || e.VerdictPut? || e.OutwardEnds? || e.OutwardExits?
    requires Flows(p) && CanHappen(p, e)
    ensures Flows(After(p, e))
  {
    hide Inv, Bytes, Taken;
  }

  lemma VerdictTakenKeeps(p: Pipeline)
    requires Flows(p) && CanHappen(p, VerdictTaken)
    ensures Flows(After(p, VerdictTaken))
  {
    hide Inv, Bytes, Taken;
  }

  /** Taking the next packet adds its body to the bodies taken. */
  lemma TakenOneMore(s: System)
    requires Inv(s) && CanStep(s, Read)
    ensures s.taken < |s.delivered|
    ensures Taken(Step(s, Read)) == Taken(s) + [s.delivered[s.taken].body]
  {
    hide Inv;
    var t := Step(s, Read);
    assert t.delivered[..t.taken] == s.delivered[..s.taken] + [s.delivered[s.taken]];
  }

  lemma SessionReadKeeps(p: Pipeline)
    requires Flows(p) && CanHappen(p, SessionRead)
    ensures Flows(After(p, SessionRead))
  {
    hide Inv, Bytes, Taken;
    StepKeeps(p.system, Read);
    TakenOneMore(p.system);
    BytesOneMore(Taken(p.system), p.system.delivered[p.system.taken].body);
  }

  lemma EventKeeps(p: Pipeline, e: Event)
    requires Flows(p) && CanHappen(p, e)
    ensures Flows(After(p, e))
  {
    match e
    case Elsewhere(a) => ElsewhereKeeps(p, a);
    case SessionWrite => SessionWriteKeeps(p);
    case SessionRead => SessionReadKeeps(p);
    case WriterCalled => OutwardKeeps(p, e);
    case WriterReturns(_) => OutwardKeeps(p, e);
    case VerdictPut => OutwardKeeps(p, e);
    case VerdictTaken => VerdictTakenKeeps(p);
    case OutwardEnds => OutwardKeeps(p, e);
    case OutwardExits => OutwardKeeps(p, e);
    case _ => InwardKeeps(p, e);
  }

  // ---- Every run -------------------------------------------------------------------------

  predicate CanUnfold(p: Pipeline, es: seq<Event>)
    decreases |es|
  {
    es == [] || (CanHappen(p, es[0]) && CanUnfold(After(p, es[0]), es[1..]))
  }

  function Unfold(p: Pipeline, es: seq<Event>): Pipeline
    requires CanUnfold(p, es)
    decreases |es|
  {
    if es == [] then p else Unfold(After(p, es[0]), es[1..])
  }

  lemma {:induction false} UnfoldKeeps(p: Pipeline, es: seq<Event>)
    requires Flows(p) && CanUnfold(p, es)
    ensures Flows(Unfold(p, es))
    decreases |es|
  {
    if es == [] {
    } else {
      EventKeeps(p, es[0]);
      UnfoldKeeps(After(p, es[0]), es[1..]);
    }
  }

  lemma {:induction false} BytesPrefix(bodies: seq<Body>, n: nat)
    requires n <= |bodies|
    ensures Bytes(bodies[..n]) <= Bytes(bodies)
    decreases |bodies|
  {
    if n == |bodies| {
      assert bodies[..n] == bodies;
    } else {
      var front := bodies[..|bodies| - 1];
      BytesPrefix(front, n);
      assert front[..n] == bodies[..n];
    }
  }

  /** Numbering a body changes neither its payload nor its payload type. */
  lemma {:induction false} StampedBytes(bodies: seq<Body>, others: seq<Body>)
    requires |bodies| == |others|
    requires forall i :: 0 <= i < |bodies| ==>
               bodies[i].payloadType == others[i].payloadType && bodies[i].payload == others[i].payload
    ensures Bytes(bodies) == Bytes(others)
    decreases |bodies|
  {
    if bodies == [] {
    } else {
      StampedBytes(bodies[..|bodies| - 1], others[..|others| - 1]);
    }
  }

  lemma {:induction false} BytesJoin(a: seq<Body>, b: seq<Body>)
    ensures Bytes(a + b) == Bytes(a) + Bytes(b)
    decreases |b|
  {
    if b == [] {
      assert a + b == a;
    } else {
      var last := |b| - 1;
      assert (a + b)[..|a + b| - 1] == a + b[..last];
      BytesJoin(a, b[..last]);
    }
  }

  // ---- What Stop can take out of the stream ----------------------------------------------

  /** What the receiving side makes of the bodies written: Stop's packet may have the first place. */
  function Heard(s: System): seq<Body> {
    if s.delivered != [] && s.delivered[0] == TERMINATE && s.written != [] then [TERMINATE.body] + s.written[1..]
    else s.written
  }

  /** The bytes of the first message, if Stop's packet has been delivered in its place. */
  function Lost(s: System): seq<Byte> {
    if s.delivered != [] && s.delivered[0] == TERMINATE && s.written != [] then Bytes(s.written[..1]) else []
  }

  lemma HeardBytes(s: System)
    ensures Bytes(s.written) == Lost(s) + Bytes(Heard(s))
  {
    if s.delivered != [] && s.delivered[0] == TERMINATE && s.written != [] {
      BytesJoin(s.written[..1], s.written[1..]);
      assert s.written[..1] + s.written[1..] == s.written;
      BytesJoin([TERMINATE.body], s.written[1..]);
    }
  }

  /** If no terminate packet took the place of another message, nothing is lost. */
  lemma UntakenLosesNothing(s: System)
    requires Untaken(s)
    ensures Lost(s) == []
  {
    if s.delivered != [] && s.delivered[0] == TERMINATE {
      assert Sent(s, s.delivered[0]);
      assert s.written[0].payloadType == PAYLOAD_FLAG;
      assert s.written[..1] == [] + [s.written[0]];
      BytesOneMore([], s.written[0]);
    }
  }

  /** What has been taken is a prefix of what is heard, and all of it when all of it was taken. */
  lemma TakenIsPrefix(s: System)
    requires Inv(s)
    ensures Bytes(Taken(s)) <= Bytes(Heard(s))
    ensures s.taken >= |s.written| ==> Bytes(Taken(s)) == Bytes(Heard(s))
  {
    DeliveredOf(s);
    if s.written == [] {
      TakenNothing(s);
    } else {
      TakenOf(s);
      hide Inv, Taken, Heard, Bytes, PrefixButForFirst;
      PrefixOf(Taken(s), Heard(s));
    }
  }

  lemma PrefixOf(taken: seq<Body>, heard: seq<Body>)
    requires |taken| <= |heard|
    requires forall i :: 0 <= i < |taken| ==>
               taken[i].payloadType == heard[i].payloadType && taken[i].payload == heard[i].payload
    ensures Bytes(taken) <= Bytes(heard)
    ensures |taken| == |heard| ==> Bytes(taken) == Bytes(heard)
  {
    StampedBytes(taken, heard[..|taken|]);
    BytesPrefix(heard, |taken|);
    assert heard[..|heard|] == heard;
  }

  /** Before anything is written only Stop's packet can have been delivered. */
  lemma TakenNothing(s: System)
    requires PrefixButForFirst(s) && s.written == []
    ensures Bytes(Taken(s)) == []
  {
    if s.taken == 1 && |s.delivered| == 1 {
      assert s.delivered[..1] == [TERMINATE];
      assert Taken(s) == [TERMINATE.body];
    }
  }

  lemma TakenOf(s: System)
    requires DeliveredOk(s) && PrefixButForFirst(s) && s.written != []
    ensures s.taken <= |s.written| == |Heard(s)| && |Taken(s)| == s.taken
    ensures forall i :: 0 <= i < s.taken ==>
              Taken(s)[i].payloadType == Heard(s)[i].payloadType && Taken(s)[i].payload == Heard(s)[i].payload
  {
    forall i | 0 <= i < s.taken
      ensures Taken(s)[i].payloadType == Heard(s)[i].payloadType && Taken(s)[i].payload == Heard(s)[i].payload
    {
      assert Taken(s)[i] == s.delivered[i].body;
    }
  }

  // ---- The stream ------------------------------------------------------------------------

  /**
   * Over a link that loses, repeats and reorders, whatever other messages are written in between and
   * whenever Stop is called: the bytes the near reader has returned are the bytes lost and then a
   * sequence of which the bytes offered to the far writer are a prefix. What is lost is at most the
   * first message, and only to Stop's packet in its place. When the inward loop has ended because its
   * reader failed, all of the reader's bytes were written to the session, the ones that came with the
   * error included; and once the outward loop has taken every message and holds none, the far writer
   * has been offered all of them that are not lost.
   */
  lemma StreamButForFirst(es: seq<Event>)
    requires CanUnfold(START_PIPELINE, es)
    ensures var p := Unfold(START_PIPELINE, es);
            && Lost(p.system) + p.offered <= p.returned
            && (p.readerFailed ==> p.returned == Bytes(p.system.written))
            && (p.readerFailed && p.system.taken >= |p.system.written| && InHand(p) == [] ==>
                  Lost(p.system) + p.offered == p.returned)
  {
    InitialInv();
    UnfoldKeeps(START_PIPELINE, es);
    var p := Unfold(START_PIPELINE, es);
    BytesFlow(p);
  }

  lemma BytesFlow(p: Pipeline)
    requires Flows(p)
    ensures Lost(p.system) + p.offered <= p.returned
    ensures p.readerFailed ==> p.returned == Bytes(p.system.written)
    ensures p.readerFailed && p.system.taken >= |p.system.written| && InHand(p) == [] ==>
              Lost(p.system) + p.offered == p.returned
  {
    HeardBytes(p.system);
    TakenIsPrefix(p.system);
    hide Inv, Bytes, Taken, Lost, Heard;
    assert p.offered <= Bytes(Taken(p.system)) <= Bytes(Heard(p.system));
    assert Lost(p.system) + p.offered <= Lost(p.system) + Bytes(Heard(p.system)) <= p.returned;
  }

  /** Stop's packet is only written where it is harmless. */
  predicate CarefulUnfold(p: Pipeline, es: seq<Event>)
    requires CanUnfold(p, es)
    decreases |es|
  {
    es == []
    || ((es[0].Elsewhere? ==> Careful(p.system, es[0].action)) && CarefulUnfold(After(p, es[0]), es[1..]))
  }

  lemma EventKeepsUntaken(p: Pipeline, e: Event)
    requires Inv(p.system) && Untaken(p.system) && CanHappen(p, e)
    requires e.Elsewhere? ==> Careful(p.system, e.action)
    ensures Untaken(After(p, e).system)
  {
    match e
    case Elsewhere(a) => StepKeepsUntaken(p.system, a);
    case SessionWrite => StepKeepsUntaken(p.system, Write(StreamBody(p.got.value.data)));
    case SessionRead => StepKeepsUntaken(p.system, Read);
    case _ =>
  }

  lemma {:induction false} UnfoldKeepsUntaken(p: Pipeline, es: seq<Event>)
    requires Flows(p) && Untaken(p.system) && CanUnfold(p, es) && CarefulUnfold(p, es)
    ensures Untaken(Unfold(p, es).system)
    decreases |es|
  {
    if es == [] {
    } else {
      EventKeeps(p, es[0]);
      EventKeepsUntaken(p, es[0]);
      UnfoldKeepsUntaken(After(p, es[0]), es[1..]);
    }
  }

  /** Nothing is lost in a run in which Stop's packet is only written where it is harmless. */
  lemma StreamIsPrefix(es: seq<Event>)
    requires CanUnfold(START_PIPELINE, es) && CarefulUnfold(START_PIPELINE, es)
    ensures var p := Unfold(START_PIPELINE, es);
            && p.offered <= p.returned
            && (p.readerFailed && p.system.taken >= |p.system.written| && InHand(p) == [] ==>
                  p.offered == p.returned)
  {
    InitialInv();
    StreamButForFirst(es);
    UnfoldKeepsUntaken(START_PIPELINE, es);
    UntakenLosesNothing(Unfold(START_PIPELINE, es).system);
  }
}
