/** What the frame codec promises: round trips in both directions, and exactly when they fail. */
module Codec {
  import opened Numbers
  import opened Names
  import opened Messages

  // ---- The declared length ---------------------------------------------------------------

  /** The header and the payload-length field are present, so the declared length can be read. */
  predicate LengthReadable(data: seq<Byte>) {
    && |data| >= FIXED_FIELDS
    && SHORT_HEADER_LENGTH <= Get32(data, 0) <= HEADER_LENGTH
    && |data| >= Get32(data, 0) + 4
  }

  /** Header, length field and declared payload together, as an exact integer. */
  function DeclaredEnd(data: seq<Byte>): int
    requires LengthReadable(data)
  {
    Get32(data, 0) + 4 + Get32(data, Get32(data, 0))
  }

  /** The payload slice has its bounds crossed exactly when the declared end does not fit in a uint32. */
  lemma PanicsIffLengthWraps(sha: Hash, m: Message, data: seq<Byte>)
    ensures Unmarshal(sha, m, data).outcome.Panicked? <==> LengthReadable(data) && DeclaredEnd(data) >= TWO_32
  {
    if LengthReadable(data) {
      HeaderPaths(sha, m, data);
      PayloadOutcome(sha, ParseFixedPart(m, data), data, Get32(data, 0));
      if Get32(data, 0) == HEADER_LENGTH {
        PayloadOutcome(sha, ParseFixedPart(m, data).(payloadType := Get32(data, 112)), data, HEADER_LENGTH);
      }
    }
  }

  /** A frame of 120 bytes that declares the longest payload a uint32 can express. */
  function Crossing(): (data: seq<Byte>)
    ensures |data| == 120
  {
    BigEndian(HEADER_LENGTH, 4) + Repeat(0, 112) + BigEndian(TWO_32 - 1, 4)
  }

  /** It makes the bounds cross, whatever the receiver object and the hash. */
  lemma CrossingPanics(sha: Hash, r: Message)
    ensures Unmarshal(sha, r, Crossing()).outcome.Panicked?
  {
    var data := Crossing();
    Word32(HEADER_LENGTH);
    Word32(TWO_32 - 1);
    assert data[0..4] == BigEndian(HEADER_LENGTH, 4) && data[116..120] == BigEndian(TWO_32 - 1, 4);
    PanicsIffLengthWraps(sha, r, data);
  }

  /** The two paths of UnmarshalBinary behind the fixed part: only the long one reads a payload type. */
  lemma HeaderPaths(sha: Hash, r: Message, data: seq<Byte>)
    requires |data| >= FIXED_FIELDS
    ensures Get32(data, 0) == HEADER_LENGTH && |data| >= HEADER_LENGTH ==>
              Unmarshal(sha, r, data)
              == ParsePayload(sha, ParseFixedPart(r, data).(payloadType := Get32(data, 112)), data, HEADER_LENGTH)
    ensures SHORT_HEADER_LENGTH <= Get32(data, 0) < HEADER_LENGTH ==>
              Unmarshal(sha, r, data) == ParsePayload(sha, ParseFixedPart(r, data), data, Get32(data, 0))
  {
  }

  /** How the payload part ends, by the exact declared end. */
  lemma PayloadOutcome(sha: Hash, m: Message, data: seq<Byte>, at: U32)
    requires SHORT_HEADER_LENGTH <= at <= HEADER_LENGTH && at + 4 <= |data|
    ensures var end := at + 4 + Get32(data, at);
            var r := ParsePayload(sha, m, data, at);
            && (r.outcome.Panicked? <==> end >= TWO_32)
            && (r.outcome.Accepted? ==>
                  && end < TWO_32 && end <= |data|
                  && r.message == m.(payloadLength := Get32(data, at), payload := data[at + 4..end]))
  {
    var end := at + 4 + Get32(data, at);
    assert end % TWO_32 == if end < TWO_32 then end else end - TWO_32;
  }

  /** An accepted frame holds the whole declared payload, and the message holds exactly those bytes. */
  lemma AcceptedPayloadIsDeclared(sha: Hash, m: Message, data: seq<Byte>)
    requires Unmarshal(sha, m, data).outcome.Accepted?
    ensures LengthReadable(data) && DeclaredEnd(data) <= |data| && DeclaredEnd(data) < TWO_32
    ensures Unmarshal(sha, m, data).message.payload == data[Get32(data, 0) + 4..DeclaredEnd(data)]
    ensures Unmarshal(sha, m, data).message.payloadLength == DeclaredEnd(data) - Get32(data, 0) - 4
  {
    HeaderPaths(sha, m, data);
    PayloadOutcome(sha, ParseFixedPart(m, data), data, Get32(data, 0));
    if Get32(data, 0) == HEADER_LENGTH {
      PayloadOutcome(sha, ParseFixedPart(m, data).(payloadType := Get32(data, 112)), data, HEADER_LENGTH);
    }
  }

  lemma SameField(data: seq<Byte>, extra: seq<Byte>, from: nat, to: nat)
    requires from <= to <= |data|
    ensures (data + extra)[from..to] == data[from..to]
  {
  }

  // ---- Reading back a written frame ------------------------------------------------------

  /** `field` occupies bytes `from..to` of the sequence `before + field + after`. */
  lemma FieldAt(before: seq<Byte>, field: seq<Byte>, after: seq<Byte>)
    ensures (before + field + after)[|before|..|before| + |field|] == field
  {
  }

  lemma FixedPartFields(m: Message)
    requires |m.payloadDigest| == 32
    ensures var f := FixedPart(m);
            && f[0..4] == BigEndian(m.headerLength, 4)
            && f[4..36] == PadName(m.messageType)
            && f[36..40] == BigEndian(m.schemaVersion, 4)
            && f[40..48] == BigEndian(Unsigned(UnixMilli(m.created)), 8)
            && f[48..56] == BigEndian(Unsigned(m.sequenceNumber), 8)
            && f[56..64] == BigEndian(m.flags, 8)
            && f[64..80] == SwapHalves(m.messageId)
            && f[80..112] == m.payloadDigest
  {
  }

  /** The fixed part parses back field by field; only the name and the date can change. */
  lemma FixedPartParses(m: Message, r: Message, data: seq<Byte>)
    requires |m.payloadDigest| == 32
    requires |data| >= FIXED_FIELDS && data[..FIXED_FIELDS] == FixedPart(m)
    ensures Get32(data, 0) == m.headerLength
    ensures ParseFixedPart(r, data) == Message(m.headerLength, ParseName(PadName(m.messageType)), m.schemaVersion,
                                               ParseTime(Unsigned(UnixMilli(m.created))), m.sequenceNumber, m.flags,
                                               m.messageId, m.payloadDigest, r.payloadType, r.payloadLength, r.payload)
  {
    FixedPartFields(m);
    var f := FixedPart(m);
    assert data == f + data[FIXED_FIELDS..];
    SameField(f, data[FIXED_FIELDS..], 0, 4);
    SameField(f, data[FIXED_FIELDS..], 4, 36);
    SameField(f, data[FIXED_FIELDS..], 36, 40);
    SameField(f, data[FIXED_FIELDS..], 40, 48);
    SameField(f, data[FIXED_FIELDS..], 48, 56);
    SameField(f, data[FIXED_FIELDS..], 56, 64);
    SameField(f, data[FIXED_FIELDS..], 64, 80);
    SameField(f, data[FIXED_FIELDS..], 80, 112);
    Word32(m.headerLength);
    Word32(m.schemaVersion);
    Word64(Unsigned(UnixMilli(m.created)));
    Word64(Unsigned(m.sequenceNumber));
    Word64(m.flags);
    SwapTwice(m.messageId);
  }

  /** The fields behind the fixed part. */
  lemma FrameTail(m: Message)
    requires |m.payloadDigest| == 32
    ensures var f := Frame(m);
            && f[..112] == FixedPart(m)
            && f[112..116] == BigEndian(m.payloadType, 4)
            && f[116..120] == BigEndian(m.payloadLength, 4)
            && f[120..] == m.payload
            && Get32(f, 112) == m.payloadType
            && Get32(f, 116) == m.payloadLength
  {
    var f := Frame(m);
    var a, b, c := FixedPart(m), BigEndian(m.payloadType, 4), BigEndian(m.payloadLength, 4);
    assert f == a + b + (c + m.payload);
    assert f == (a + b) + c + m.payload;
    FieldAt(a, b, c + m.payload);
    FieldAt(a + b, c, m.payload);
    Word32(m.payloadType);
    Word32(m.payloadLength);
  }

  // ---- Dates -----------------------------------------------------------------------------

  const MAX_MILLIS: int := 9223372036854

  predicate DateInRange(created: int) {
    -MAX_MILLIS <= Millis(created) <= MAX_MILLIS
  }

  /** A date survives the frame, rounded down to the millisecond, exactly when it is in range. */
  lemma DateSurvivesIff(created: int)
    ensures ParseTime(Unsigned(UnixMilli(created))) == Millis(created) * NANOS_PER_MILLI <==> DateInRange(created)
  {
    var ms := UnixMilli(created);
    UnsignedProduct(ms);
    if DateInRange(created) {
      assert -TWO_63 <= Millis(created) * NANOS_PER_MILLI < TWO_63;
    } else {
      assert !(-TWO_63 <= Millis(created) * NANOS_PER_MILLI < TWO_63);
    }
  }

  /** The product wraps the same way whether the factor is read as signed or as unsigned. */
  lemma UnsignedProduct(ms: I64)
    ensures ParseTime(Unsigned(ms)) == Wrap64(ms * NANOS_PER_MILLI)
  {
    if ms < 0 {
      var x := ms * NANOS_PER_MILLI + TWO_63;
      assert Unsigned(ms) * NANOS_PER_MILLI + TWO_63 == x + NANOS_PER_MILLI * TWO_64;
      ModShift(x, NANOS_PER_MILLI);
    }
  }

  lemma {:induction false} ModShift(x: int, k: nat)
    ensures (x + k * TWO_64) % TWO_64 == x % TWO_64
  {
    if k == 0 {
    } else {
      ModShift(x, k - 1);
      assert x + k * TWO_64 == (x + (k - 1) * TWO_64) + TWO_64;
    }
  }

  // ---- Round trip of a message -----------------------------------------------------------

  /** The message as the other side should see it: digest and length filled in, date in whole milliseconds. */
  function OnArrival(sha: Hash, m: Message): Message {
    Prepared(sha, m).(created := Millis(m.created) * NANOS_PER_MILLI)
  }

  /** Everything the frame must be able to carry for the message to come back whole. */
  predicate Carries(m: Message) {
    && Canonical(m.messageType)
    && DateInRange(m.created)
    && 120 + |m.payload| < TWO_32
  }

  lemma PayloadParses(sha: Hash, m: Message, data: seq<Byte>, at: U32)
    requires SHORT_HEADER_LENGTH <= at <= HEADER_LENGTH && at + 4 <= |data|
    requires at + 4 + Get32(data, at) <= |data| && at + 4 + Get32(data, at) < TWO_32
    ensures var p := m.(payloadLength := Get32(data, at), payload := data[at + 4..at + 4 + Get32(data, at)]);
            ParsePayload(sha, m, data, at) == Parsed(p, Validate(sha, p))
  {
  }

  /** ParsePayload decides the payload length and the payload, and nothing else. */
  lemma PayloadParseFrame(sha: Hash, m: Message, data: seq<Byte>, at: U32)
    requires SHORT_HEADER_LENGTH <= at <= HEADER_LENGTH && at + 4 <= |data|
    ensures ParsePayload(sha, m, data, at).message.payloadLength == Get32(data, at)
    ensures ParsePayload(sha, m, data, at).message.payloadType == m.payloadType
    ensures ParsePayload(sha, m, data, at).message.messageType == m.messageType
    ensures ParsePayload(sha, m, data, at).message.created == m.created
    ensures ParsePayload(sha, m, data, at).outcome.Accepted? ==>
              |ParsePayload(sha, m, data, at).message.payload| == Get32(data, at)
  {
  }

  /** What becomes of a message's name and date on the way through a frame. */
  function Reparsed(m: Message): Message {
    m.(messageType := ParseName(PadName(m.messageType)), created := ParseTime(Unsigned(UnixMilli(m.created))))
  }

  /** A written frame, parsed up to the final validation. */
  function Reread(sha: Hash, m: Message): Message {
    Reparsed(Prepared(sha, m))
  }

  /** The three reads of a written frame that the two header paths share. */
  lemma FrameReads(m: Message, r: Message)
    requires |m.payloadDigest| == 32
    ensures Get32(Frame(m), 0) == m.headerLength
    ensures Get32(Frame(m), 112) == m.payloadType && Get32(Frame(m), 116) == m.payloadLength
    ensures Frame(m)[120..120 + |m.payload|] == m.payload
    ensures ParseFixedPart(r, Frame(m))
            == Reparsed(m).(payloadType := r.payloadType, payloadLength := r.payloadLength, payload := r.payload)
  {
    hide Get32, Frame, FixedPart, ParseFixedPart, PadName, ParseName, ParseTime, UnixMilli;
    FrameTail(m);
    FixedPartParses(m, r, Frame(m));
  }

  lemma FrameParses(sha: Hash, m: Message, r: Message)
    requires m.headerLength == HEADER_LENGTH && 120 + |m.payload| < TWO_32
    ensures Unmarshal(sha, r, Frame(Prepared(sha, m))) == Parsed(Reread(sha, m), Validate(sha, Reread(sha, m)))
  {
    hide Unmarshal, ParseFixedPart, Frame, Get32;
    FrameReads(Prepared(sha, m), r);
    ReadsParse(sha, Prepared(sha, m), r, Frame(Prepared(sha, m)));
  }

  /** Any frame that reads like the one written for `p` parses to what `p` becomes on the way. */
  lemma ReadsParse(sha: Hash, p: Message, r: Message, data: seq<Byte>)
    requires p.payloadLength == |p.payload| && |data| == 120 + |p.payload| < TWO_32
    requires Get32(data, 0) == HEADER_LENGTH
    requires Get32(data, 112) == p.payloadType && Get32(data, 116) == p.payloadLength
    requires data[120..120 + |p.payload|] == p.payload
    requires ParseFixedPart(r, data)
             == Reparsed(p).(payloadType := r.payloadType, payloadLength := r.payloadLength, payload := r.payload)
    ensures Unmarshal(sha, r, data) == Parsed(Reparsed(p), Validate(sha, Reparsed(p)))
  {
    var fixed := ParseFixedPart(r, data).(payloadType := p.payloadType);
    HeaderPaths(sha, r, data);
    PayloadParses(sha, fixed, data, HEADER_LENGTH);
    assert fixed.(payloadLength := p.payloadLength, payload := p.payload) == Reparsed(p);
  }

  /**
   * A frame written with the standard header comes back as the message that was written, for any
   * receiver object and any hash, exactly when the frame can carry the name, the date and the length.
   */
  lemma RoundTripIff(sha: Hash, m: Message, r: Message)
    requires Marshal(sha, m).Ok? && m.headerLength == HEADER_LENGTH
    ensures Unmarshal(sha, r, Marshal(sha, m).value) == Parsed(OnArrival(sha, m), Accepted) <==> Carries(m)
  {
    SurvivesIffCanonical(m.messageType);
    DateSurvivesIff(m.created);
    if 120 + |m.payload| < TWO_32 {
      FrameParses(sha, m, r);
      if Carries(m) {
        assert Reread(sha, m) == OnArrival(sha, m);
        assert OnArrival(sha, m).created != ZERO_TIME;
      }
    } else {
      OversizedIsLost(sha, m, r);
    }
  }

  /** A payload of 4 GiB less 120 bytes or more does not come back: the reader fails, or reads fewer bytes. */
  lemma OversizedIsLost(sha: Hash, m: Message, r: Message)
    requires Marshal(sha, m).Ok? && 120 + |m.payload| >= TWO_32
    requires m.headerLength == HEADER_LENGTH
    ensures var u := Unmarshal(sha, r, Marshal(sha, m).value); u.outcome.Accepted? ==> |u.message.payload| < |m.payload|
  {
    var f := Frame(Prepared(sha, m));
    if Unmarshal(sha, r, f).outcome.Accepted? {
      FrameReads(Prepared(sha, m), r);
      AcceptedPayloadIsDeclared(sha, r, f);
      hide Unmarshal, Frame, Prepared, Get32;
      assert |Unmarshal(sha, r, f).message.payload| == DeclaredEnd(f) - 120;
    }
  }

  /**
   * A frame written with a shorter header still carries the payload type, so the reader takes the
   * payload length from the wrong place: it restores a fresh receiver only in the degenerate case.
   */
  lemma ShortHeaderRoundTripIff(sha: Hash, m: Message, r: Message)
    requires Marshal(sha, m).Ok? && SHORT_HEADER_LENGTH <= m.headerLength < HEADER_LENGTH
    requires r.payloadType == 0
    ensures Unmarshal(sha, r, Marshal(sha, m).value) == Parsed(OnArrival(sha, m), Accepted)
            <==> Canonical(m.messageType) && DateInRange(m.created) && m.payloadType == 0 && m.payload == []
  {
    hide Unmarshal, Frame, Get32, ParseFixedPart, PadName, ParseName, Canonical, DateInRange, ParseTime, Validate;
    var p := Prepared(sha, m);
    FrameReads(p, r);
    SurvivesIffCanonical(m.messageType);
    DateSurvivesIff(m.created);
    ShortParse(sha, r, Frame(p));
    if m.payloadType == 0 {
      ShiftedLength(p, m.headerLength);
      if m.payload == [] && Canonical(m.messageType) && DateInRange(m.created) {
        EmptyShortFrameParses(sha, m, r, Frame(p));
      }
    }
  }

  /** What the short-header path leaves in the payload fields of any readable frame. */
  lemma ShortParse(sha: Hash, r: Message, data: seq<Byte>)
    requires LengthReadable(data) && Get32(data, 0) < HEADER_LENGTH
    ensures Unmarshal(sha, r, data).message.payloadType == r.payloadType
    ensures Unmarshal(sha, r, data).message.messageType == ParseFixedPart(r, data).messageType
    ensures Unmarshal(sha, r, data).message.created == ParseFixedPart(r, data).created
    ensures Unmarshal(sha, r, data).outcome.Accepted? ==>
              |Unmarshal(sha, r, data).message.payload| == Get32(data, Get32(data, 0))
    ensures Unmarshal(sha, r, data).message.payloadLength == Get32(data, Get32(data, 0))
    ensures Get32(data, Get32(data, 0)) == 0 ==>
              var m := ParseFixedPart(r, data).(payloadLength := 0, payload := []);
              Unmarshal(sha, r, data) == Parsed(m, Validate(sha, m))
  {
    var h := Get32(data, 0);
    HeaderPaths(sha, r, data);
    PayloadParseFrame(sha, ParseFixedPart(r, data), data, h);
    if Get32(data, h) == 0 {
      PayloadParses(sha, ParseFixedPart(r, data), data, h);
      assert data[h + 4..h + 4] == [];
    }
  }

  lemma EmptyShortFrameParses(sha: Hash, m: Message, r: Message, data: seq<Byte>)
    requires Marshal(sha, m).Ok? && Canonical(m.messageType) && DateInRange(m.created)
    requires r.payloadType == m.payloadType == 0 && m.payload == []
    requires LengthReadable(data) && Get32(data, 0) < HEADER_LENGTH && Get32(data, Get32(data, 0)) == 0
    requires ParseFixedPart(r, data)
             == Reread(sha, m).(payloadType := r.payloadType, payloadLength := r.payloadLength, payload := r.payload)
    ensures Unmarshal(sha, r, data) == Parsed(OnArrival(sha, m), Accepted)
  {
    ShortParse(sha, r, data);
    CanonicalSurvives(m.messageType);
    DateSurvivesIff(m.created);
    hide Unmarshal, ParseFixedPart, Get32, Canonical, PadName, ParseName, ParseTime, UnixMilli, Millis;
    assert ParseFixedPart(r, data).(payloadLength := 0, payload := []) == OnArrival(sha, m);
  }

  /** With payload type 0, reading the length up to four bytes early loses its low-order bytes. */
  lemma ShiftedLength(p: Message, h: U32)
    requires |p.payloadDigest| == 32 && p.payloadType == 0
    requires SHORT_HEADER_LENGTH <= h < HEADER_LENGTH
    ensures Get32(Frame(p), h) == p.payloadLength <==> p.payloadLength == 0
  {
    var f := Frame(p);
    FrameTail(p);
    WordBytes(0);
    var words := [0, 0, 0, 0] + BigEndian(p.payloadLength, 4);
    assert f[112..120] == f[112..116] + f[116..120] == words;
    assert f[h..h + 4] == f[112..120][h - 112..h - 108];
    LateWord(p.payloadLength, h - 112);
  }

  /** A length read `4 - k` bytes early keeps only its high-order bytes. */
  lemma LateWord(n: U32, k: nat)
    requires k < 4
    ensures FromBigEndian(([0, 0, 0, 0] + BigEndian(n, 4))[k..k + 4]) == n <==> n == 0
  {
    WordBytes(n);
    HighBytes(n);
    var w := ([0, 0, 0, 0] + BigEndian(n, 4))[k..k + 4];
    FourBytes(w);
    var b3, b2, b1, b0: Byte := n / 256 / 256 / 256 % 256, n / 256 / 256 % 256, n / 256 % 256, n % 256;
    assert BigEndian(n, 4) == [b3, b2, b1, b0];
    hide BigEndian, FromBigEndian;
    if k == 0 {
      assert w == [0, 0, 0, 0];
    } else if k == 1 {
      assert w == [0, 0, 0, b3];
    } else if k == 2 {
      assert w == [0, 0, b3, b2];
    } else {
      assert w == [0, b3, b2, b1];
    }
  }

  /** Dropping low-order bytes changes every number but 0. */
  lemma HighBytes(n: U32)
    ensures var b3, b2, b1 := n / 256 / 256 / 256 % 256, n / 256 / 256 % 256, n / 256 % 256;
            && (b3 == n <==> n == 0)
            && (b3 * 0x100 + b2 == n <==> n == 0)
            && (b3 * 0x1_0000 + b2 * 0x100 + b1 == n <==> n == 0)
  {
    var q1, q2, q3: int := n / 256, n / 256 / 256, n / 256 / 256 / 256;
    assert q3 % 256 == q3;
    assert q2 == q3 * 0x100 + q2 % 256 && q1 == q2 * 0x100 + q1 % 256;
  }

  lemma FourBytes(w: seq<Byte>)
    requires |w| == 4
    ensures FromBigEndian(w) == (w[0] as int) * 0x100_0000 + (w[1] as int) * 0x1_0000 + (w[2] as int) * 0x100 + w[3]
  {
    assert w[..3][..2] == w[..2] && w[..2][..1] == w[..1] && w[..1][..0] == [];
    assert FromBigEndian(w[..1]) == w[0];
    assert FromBigEndian(w[..2]) == (w[0] as int) * 0x100 + w[1];
    assert FromBigEndian(w[..3]) == FromBigEndian(w[..2]) * 0x100 + w[2];
  }

  lemma WordBytes(n: U32)
    ensures BigEndian(n, 4) == [n / 256 / 256 / 256 % 256, n / 256 / 256 % 256, n / 256 % 256, n % 256]
  {
    assert BigEndian(n / 256 / 256 / 256, 1) == [n / 256 / 256 / 256 % 256];
    assert BigEndian(n / 256 / 256, 2) == BigEndian(n / 256 / 256 / 256, 1) + [n / 256 / 256 % 256];
    assert BigEndian(n / 256, 3) == BigEndian(n / 256 / 256, 2) + [n / 256 % 256];
  }

  // ---- Round trip of a frame -------------------------------------------------------------

  /** A frame with nothing in it that the message object does not keep. */
  predicate CanonicalFrame(sha: Hash, data: seq<Byte>)
    requires LengthReadable(data)
  {
    && SpacePadded(data[4..36])
    && -MAX_MILLIS <= Signed(Get64(data, 40)) <= MAX_MILLIS
    && DeclaredEnd(data) == |data|
    && data[80..112] == sha(data[Get32(data, 0) + 4..])
  }

  lemma FixedPartRebuilds(m: Message, data: seq<Byte>)
    requires |data| >= FIXED_FIELDS
    requires var p := ParseFixedPart(m, data);
             && PadName(p.messageType) == data[4..36]
             && Unsigned(UnixMilli(p.created)) == Get64(data, 40)
    ensures FixedPart(ParseFixedPart(m, data)) == data[..FIXED_FIELDS]
  {
    FieldsRewritten(data);
    FieldsJoin(data);
    hide Get32, Get64, BigEndian, PadName, ParseName, ParseTime, UnixMilli, SwapHalves;
  }

  lemma FieldsRewritten(data: seq<Byte>)
    requires |data| >= FIXED_FIELDS
    ensures BigEndian(Get32(data, 0), 4) == data[0..4] && BigEndian(Get32(data, 36), 4) == data[36..40]
    ensures BigEndian(Get64(data, 40), 8) == data[40..48]
    ensures BigEndian(Unsigned(Signed(Get64(data, 48))), 8) == data[48..56]
    ensures BigEndian(Get64(data, 56), 8) == data[56..64]
    ensures SwapHalves(SwapHalves(data[64..80])) == data[64..80]
  {
    hide Get32, Get64, BigEndian, SwapHalves;
    Rewritten32(data, 0);
    Rewritten32(data, 36);
    Rewritten64(data, 40);
    Rewritten64(data, 48);
    Rewritten64(data, 56);
    SwapTwice(data[64..80]);
  }

  /** A field is written back as it was read. */
  lemma Rewritten32(data: seq<Byte>, at: nat)
    requires at + 4 <= |data|
    ensures BigEndian(Get32(data, at), 4) == data[at..at + 4]
  {
    EncodeBigEndian(data[at..at + 4]);
  }

  lemma Rewritten64(data: seq<Byte>, at: nat)
    requires at + 8 <= |data|
    ensures BigEndian(Get64(data, at), 8) == data[at..at + 8]
  {
    EncodeBigEndian(data[at..at + 8]);
  }

  lemma FieldsJoin(data: seq<Byte>)
    requires |data| >= FIXED_FIELDS
    ensures data[0..4] + data[4..36] + data[36..40] + data[40..48] + data[48..56] + data[56..64] + data[64..80]
            + data[80..112] == data[..FIXED_FIELDS]
  {
  }

  /** A date field is written back as it was read exactly when its millisecond count is in range. */
  lemma DateFieldSurvivesIff(field: U64)
    ensures Unsigned(UnixMilli(ParseTime(field))) == field <==> -MAX_MILLIS <= Signed(field) <= MAX_MILLIS
  {
    var ms := Signed(field);
    assert Unsigned(ms) == field;
    UnsignedProduct(ms);
    if -MAX_MILLIS <= ms <= MAX_MILLIS {
      assert Millis(ms * NANOS_PER_MILLI) == ms;
    } else {
      var ns := ParseTime(field);
      assert -MAX_MILLIS - 1 <= Millis(ns) <= MAX_MILLIS;
      MinimumMillis(ms);
    }
  }

  /** The one value below the range that a wrapped product could have come from is not a fixed point. */
  lemma MinimumMillis(ms: I64)
    ensures ms == -MAX_MILLIS - 1 ==> Millis(Wrap64(ms * NANOS_PER_MILLI)) != ms
  {
  }

  /** An accepted standard-header frame and the message it parses to, field by field. */
  lemma AcceptedMessage(sha: Hash, r: Message, data: seq<Byte>)
    requires Unmarshal(sha, r, data).outcome.Accepted? && |data| >= 4 && Get32(data, 0) == HEADER_LENGTH
    ensures LengthReadable(data) && DeclaredEnd(data) <= |data| && DeclaredEnd(data) < TWO_32
    ensures Unmarshal(sha, r, data).message
            == ParseFixedPart(r, data).(payloadType := Get32(data, 112), payloadLength := Get32(data, 116),
                                        payload := data[120..DeclaredEnd(data)])
    ensures Validate(sha, Unmarshal(sha, r, data).message).Accepted?
  {
    AcceptedPayloadIsDeclared(sha, r, data);
    HeaderPaths(sha, r, data);
    PayloadParses(sha, ParseFixedPart(r, data).(payloadType := Get32(data, 112)), data, HEADER_LENGTH);
  }

  lemma CanonicalFrameRebuilds(sha: Hash, r: Message, data: seq<Byte>)
    requires Unmarshal(sha, r, data).outcome.Accepted? && |data| >= 4 && Get32(data, 0) == HEADER_LENGTH
    requires LengthReadable(data) && CanonicalFrame(sha, data)
    ensures Frame(Prepared(sha, Unmarshal(sha, r, data).message)) == data
  {
    AcceptedMessage(sha, r, data);
    CanonicalFixedPartRebuilds(sha, r, data);
    hide Unmarshal, Get32, FixedPart, SpacePadded, Get64, Validate, PadName, ParseName, Frame;
    assert data[120..DeclaredEnd(data)] == data[120..];
    WholeFrameRebuilds(sha, ParseFixedPart(r, data), data);
  }

  /** The payload fields behind a fixed part that rebuilds. */
  lemma WholeFrameRebuilds(sha: Hash, fixed: Message, data: seq<Byte>)
    requires |data| >= 120 && Get32(data, 116) == |data| - 120
    requires fixed.payloadDigest == sha(data[120..]) && FixedPart(fixed) == data[..112]
    ensures var m := fixed.(payloadType := Get32(data, 112), payloadLength := Get32(data, 116), payload := data[120..]);
            Frame(Prepared(sha, m)) == data
  {
    var m := fixed.(payloadType := Get32(data, 112), payloadLength := Get32(data, 116), payload := data[120..]);
    hide Get32, Frame, PadName;
    assert Prepared(sha, m) == m;
    FrameRebuilds(m, data);
  }

  lemma CanonicalFixedPartRebuilds(sha: Hash, r: Message, data: seq<Byte>)
    requires LengthReadable(data) && CanonicalFrame(sha, data)
    ensures FixedPart(ParseFixedPart(r, data)) == data[..FIXED_FIELDS]
  {
    hide PadName, ParseName, SpacePadded, FixedPart, Get32, Get64, UnixMilli, ParseTime;
    FieldSurvivesIff(data[4..36]);
    DateFieldSurvivesIff(Get64(data, 40));
    FixedPartRebuilds(r, data);
  }

  lemma FrameRebuilds(m: Message, data: seq<Byte>)
    requires |data| >= 120 && |m.payloadDigest| == 32 && FixedPart(m) == data[..112]
    requires m.payloadType == Get32(data, 112) && m.payloadLength == Get32(data, 116) && m.payload == data[120..]
    ensures Frame(m) == data
  {
    EncodeBigEndian(data[112..116]);
    EncodeBigEndian(data[116..120]);
    assert data == data[..112] + data[112..116] + data[116..120] + data[120..];
  }

  lemma RebuiltFrameIsCanonical(sha: Hash, r: Message, data: seq<Byte>)
    requires Unmarshal(sha, r, data).outcome.Accepted? && |data| >= 4 && Get32(data, 0) == HEADER_LENGTH
    requires Frame(Prepared(sha, Unmarshal(sha, r, data).message)) == data
    ensures LengthReadable(data) && CanonicalFrame(sha, data)
  {
    AcceptedMessage(sha, r, data);
    var p := Prepared(sha, Unmarshal(sha, r, data).message);
    FrameTail(p);
    FixedPartFields(p);
    FieldSurvivesIff(data[4..36]);
    DateFieldSurvivesIff(Get64(data, 40));
    var f := data[..112];
    assert data[4..36] == f[4..36] && data[40..48] == f[40..48] && data[80..112] == f[80..112];
    Word64(Unsigned(UnixMilli(p.created)));
    assert |data| == 120 + |p.payload|;
    assert data[120..] == p.payload;
  }

  /**
   * An accepted frame with the standard header is reproduced byte for byte by writing the parsed
   * message again, exactly when it is canonical.
   */
  lemma FrameRoundTripIff(sha: Hash, r: Message, data: seq<Byte>)
    requires Unmarshal(sha, r, data).outcome.Accepted? && |data| >= 4 && Get32(data, 0) == HEADER_LENGTH
    ensures LengthReadable(data)
    ensures Marshal(sha, Unmarshal(sha, r, data).message) == Ok(data) <==> CanonicalFrame(sha, data)
  {
    AcceptedMessage(sha, r, data);
    var m := Unmarshal(sha, r, data).message;
    assert Validate(sha, Prepared(sha, m)).Accepted?;
    if CanonicalFrame(sha, data) {
      CanonicalFrameRebuilds(sha, r, data);
    } else if Frame(Prepared(sha, m)) == data {
      RebuiltFrameIsCanonical(sha, r, data);
    }
  }
}
