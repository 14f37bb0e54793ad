/** The part of a message the two session loops look at, and its link to the codec. */
module Packets {
  import opened Numbers
  import opened Names
  import opened Messages
  import opened Codec

  /**
   * `carried` says whether the message can reach the data branch of the far loop at all. If it cannot,
   * it is numbered and put in flight like any other, but no frame of it arrives as data.
   */
  datatype Body = Body(flags: U64, payloadType: U32, payload: seq<Byte>, carried: bool)

  datatype Packet = Packet(number: int, body: Body)

  /** The name a reader makes of the type: the type itself when it is canonical. */
  function ReadAs(t: Name): Name {
    ParseName(PadName(t))
  }

  /** A well-formed message of the type that this side's constructors give to stream data. */
  predicate Carried(m: Message) {
    && m.headerLength == HEADER_LENGTH
    && m.schemaVersion >= 1
    && |m.messageType| >= 10
    && m.created != ZERO_TIME
    && ReadAs(m.messageType) == INPUT_STREAM_DATA
    && 120 + |m.payload| < TWO_32
  }

  function BodyOf(m: Message): Body {
    Body(m.flags, m.payloadType, m.payload, Carried(m))
  }

  function PacketOf(m: Message): Packet {
    Packet(m.sequenceNumber, BodyOf(m))
  }

  /** What the sender makes of a body it pulls as number `n`: the first one becomes a Syn unless it is a Fin. */
  function Stamp(n: int, body: Body): Packet {
    Packet(n, if n == 0 && body.flags != FLAG_FIN then body.(flags := FLAG_SYN) else body)
  }

  /** The packet NewTerminateSessionMessage queues, which never passes through the numbering. */
  const TERMINATE: Packet := Packet(0, Body(FLAG_FIN, PAYLOAD_FLAG, [0, 0, 0, 2], true))

  /** The number and the flags of a stamped packet: the first is a Syn unless it is a Fin, the others are as written. */
  lemma StampMeans(n: int, body: Body)
    ensures var p := Stamp(n, body);
            && p.number == n
            && p.body.flags == (if n == 0 && body.flags != 2 then 1 else body.flags)
            && p.body.payloadType == body.payloadType && p.body.payload == body.payload
            && p.body.carried == body.carried
  {
  }

  /** The message that NewTerminateSessionMessage makes. */
  lemma TerminateMessage(now: int, id: Id)
    requires now != ZERO_TIME
    ensures PacketOf(Message(116, INPUT_STREAM_DATA, 1, now, 0, 2, id, [], 10, 0, [0, 0, 0, 2])) == TERMINATE
  {
    DataIsValidated(INPUT_STREAM_DATA);
  }

  /** The flags and payload type of NewStreamMessage; with a buffer's worth of data such a message is carried. */
  function StreamBody(data: seq<Byte>): Body {
    Body(FLAG_DATA, PAYLOAD_OUTPUT, data, true)
  }

  /** The message that NewStreamMessage makes. */
  lemma StreamMessage(now: int, id: Id, data: seq<Byte>)
    requires now != ZERO_TIME && |data| <= 1024
    ensures BodyOf(Message(116, INPUT_STREAM_DATA, 1, now, 0, 0, id, [], 1, 0, data)) == StreamBody(data)
  {
    DataIsValidated(INPUT_STREAM_DATA);
  }

  // ---- Which messages arrive -------------------------------------------------------------

  /** Written and read by any receiver object, the message comes out as stream data with the same packet. */
  predicate ArrivesAsData(sha: Hash, m: Message, r: Message) {
    && Marshal(sha, m).Ok?
    && var u := Unmarshal(sha, r, Marshal(sha, m).value);
       && u.outcome.Accepted? && u.message.messageType == INPUT_STREAM_DATA
       && u.message.sequenceNumber == m.sequenceNumber && BodyOf(u.message) == BodyOf(m)
  }

  /** The two types that skip validation are not read as stream data. */
  lemma DataIsValidated(t: Name)
    ensures ReadAs(INPUT_STREAM_DATA) == INPUT_STREAM_DATA
    ensures ReadAs(t) == INPUT_STREAM_DATA ==> !SkipsValidation(t)
    ensures !SkipsValidation(INPUT_STREAM_DATA) && |INPUT_STREAM_DATA| >= 10
  {
    hide ParseName, PadName, Canonical;
    NamesAreCanonical();
    SurvivesIffCanonical(INPUT_STREAM_DATA);
    SurvivesIffCanonical(START_PUBLICATION);
    SurvivesIffCanonical(PAUSE_PUBLICATION);
    assert INPUT_STREAM_DATA[0] != START_PUBLICATION[0] && INPUT_STREAM_DATA[0] != PAUSE_PUBLICATION[0];
  }

  lemma NamesAreCanonical()
    ensures Canonical(INPUT_STREAM_DATA) && Canonical(START_PUBLICATION) && Canonical(PAUSE_PUBLICATION)
  {
  }

  /** What the reader makes of a frame with the standard header, and what it finds in any other. */
  lemma ReadBack(sha: Hash, m: Message, r: Message)
    requires Marshal(sha, m).Ok? && m.headerLength == HEADER_LENGTH
    ensures var u, p := Unmarshal(sha, r, Marshal(sha, m).value), Reread(sha, m);
            if 120 + |m.payload| < TWO_32 then u == Parsed(p, Validate(sha, p))
            else u.outcome.Accepted? ==> |u.message.payload| < |m.payload|
  {
    hide Unmarshal, Reread, Frame, Validate;
    if 120 + |m.payload| < TWO_32 {
      FrameParses(sha, m, r);
    } else {
      OversizedIsLost(sha, m, r);
    }
  }

  /** A date that is written never reads as the zero time. */
  lemma NeverZero(created: int)
    ensures ParseTime(Unsigned(UnixMilli(created))) != ZERO_TIME
  {
  }

  lemma CarriedIsAccepted(sha: Hash, m: Message)
    requires Carried(m)
    ensures Marshal(sha, m).Ok?
    ensures var p := Reread(sha, m);
            && Validate(sha, p).Accepted? && p.messageType == INPUT_STREAM_DATA
            && p.sequenceNumber == m.sequenceNumber && BodyOf(p) == BodyOf(m)
  {
    hide Frame, ParseName, PadName, ParseTime, UnixMilli;
    DataIsValidated(m.messageType);
    NeverZero(m.created);
  }

  lemma CarriedArrives(sha: Hash, m: Message, r: Message)
    requires Carried(m)
    ensures ArrivesAsData(sha, m, r)
  {
    CarriedIsAccepted(sha, m);
    ReadBack(sha, m, r);
    hide Unmarshal, Marshal, Reread, Validate, BodyOf;
  }

  /** Any other header length is written only for a type that skips validation, and then not read. */
  lemma OtherHeaderIsLost(sha: Hash, m: Message, r: Message)
    requires Marshal(sha, m).Ok? && (m.headerLength < SHORT_HEADER_LENGTH || m.headerLength > HEADER_LENGTH)
    ensures !Unmarshal(sha, r, Marshal(sha, m).value).outcome.Accepted?
  {
    FrameReads(Prepared(sha, m), r);
    hide Frame, FixedPart;
  }

  lemma ArrivedIsCarried(sha: Hash, m: Message, r: Message)
    requires !(SHORT_HEADER_LENGTH <= m.headerLength < HEADER_LENGTH) && ArrivesAsData(sha, m, r)
    ensures Carried(m)
  {
    if m.headerLength == HEADER_LENGTH {
      ReadBack(sha, m, r);
      DataIsValidated(m.messageType);
      hide Unmarshal, Frame, ParseName, PadName, ParseTime, UnixMilli;
      assert Validate(sha, Prepared(sha, m)).Accepted?;
    } else {
      OtherHeaderIsLost(sha, m, r);
    }
  }

  /**
   * A message arrives as data exactly when it is carried. A message that was itself read from a frame
   * with a shorter header keeps that header and is not meant here; no constructor makes one.
   */
  lemma ArrivesIffCarried(sha: Hash, m: Message, r: Message)
    requires !(SHORT_HEADER_LENGTH <= m.headerLength < HEADER_LENGTH)
    ensures ArrivesAsData(sha, m, r) <==> Carried(m)
  {
    hide ArrivesAsData, Carried;
    if Carried(m) {
      CarriedArrives(sha, m, r);
    }
    if ArrivesAsData(sha, m, r) {
      ArrivedIsCarried(sha, m, r);
    }
  }

  /** Writing a message twice writes the same frame. */
  lemma MarshalTwice(sha: Hash, m: Message)
    ensures Marshal(sha, Prepared(sha, m)) == Marshal(sha, m)
    ensures Prepared(sha, Prepared(sha, m)) == Prepared(sha, m)
    ensures PacketOf(Prepared(sha, m)) == PacketOf(m)
  {
    assert Prepared(sha, Prepared(sha, m)) == Prepared(sha, m);
  }
}
