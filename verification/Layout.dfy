/** Where each field stands in a frame, and which frames are accepted, byte by byte. */
module Layout {
  import opened Numbers
  import opened Names
  import opened Messages
  import opened Codec

  // ---- Writing ---------------------------------------------------------------------------

  /** The 32 bytes of the type: its first 32, or all of them and spaces. */
  lemma PaddedBytes(t: Name)
    ensures forall i :: 0 <= i < 32 ==> PadName(t)[i] == if i < |t| then t[i] else 0x20
  {
  }

  /** An int64 is written as the uint64 it is congruent to. */
  lemma UnsignedIsModular(x: int)
    ensures Unsigned(Wrap64(x)) == x % 0x1_0000_0000_0000_0000
  {
  }

  /** Which messages are written: the two publication types as they are, others when their fields are in order. */
  lemma WrittenIff(sha: Hash, m: Message)
    ensures Marshal(sha, m).Ok? <==>
            || m.messageType == START_PUBLICATION || m.messageType == PAUSE_PUBLICATION
            || (&& 112 <= m.headerLength <= 116 && m.schemaVersion >= 1 && |m.messageType| >= 10
                && m.created != ZERO_TIME && |m.payload| < 0x1_0000_0000)
  {
    hide Frame;
  }

  /** The layout of a written frame. */
  lemma WrittenLayout(sha: Hash, m: Message)
    requires Marshal(sha, m).Ok?
    ensures var f := Marshal(sha, m).value;
            && |f| == 120 + |m.payload|
            && f[0..4] == BigEndian(m.headerLength, 4)
            && (forall i :: 0 <= i < 32 ==> f[4 + i] == if i < |m.messageType| then m.messageType[i] else 0x20)
            && f[36..40] == BigEndian(m.schemaVersion, 4)
            && f[40..48] == BigEndian(m.created / 1_000_000 % 0x1_0000_0000_0000_0000, 8)
            && f[48..56] == BigEndian(m.sequenceNumber % 0x1_0000_0000_0000_0000, 8)
            && f[56..64] == BigEndian(m.flags, 8)
            && f[64..72] == m.messageId[8..] && f[72..80] == m.messageId[..8]
            && f[80..112] == sha(m.payload)
            && f[112..116] == BigEndian(m.payloadType, 4)
            && f[116..120] == BigEndian(|m.payload| % 0x1_0000_0000, 4)
            && f[120..] == m.payload
  {
    var p := Prepared(sha, m);
    var f, fixed := Frame(p), FixedPart(p);
    FrameTail(p);
    FixedPartFields(p);
    PaddedBytes(m.messageType);
    UnsignedIsModular(Millis(m.created));
    UnsignedIsModular(m.sequenceNumber);
    assert SwapHalves(m.messageId)[..8] == m.messageId[8..] && SwapHalves(m.messageId)[8..] == m.messageId[..8];
    hide Frame, FixedPart, Validate, BigEndian, PadName, UnixMilli, Unsigned, SwapHalves;
    FieldsOf(f, fixed);
    forall i | 0 <= i < 32 ensures f[4 + i] == if i < |m.messageType| then m.messageType[i] else 0x20 {
      assert f[4 + i] == f[4..36][i];
    }
  }

  /** The fields of a frame's fixed part are those of the frame. */
  lemma FieldsOf(f: seq<Byte>, fixed: seq<Byte>)
    requires |f| >= 112 && f[..112] == fixed
    ensures f[0..4] == fixed[0..4] && f[4..36] == fixed[4..36] && f[36..40] == fixed[36..40]
    ensures f[40..48] == fixed[40..48] && f[48..56] == fixed[48..56] && f[56..64] == fixed[56..64]
    ensures f[64..72] == fixed[64..80][..8] && f[72..80] == fixed[64..80][8..] && f[80..112] == fixed[80..112]
  {
  }

  // ---- Reading ---------------------------------------------------------------------------

  /** A number read from a field, as the signed 64-bit number it is congruent to. */
  predicate Congruent(x: int, field: int) {
    -0x8000_0000_0000_0000 <= x < 0x8000_0000_0000_0000 && (x - field) % 0x1_0000_0000_0000_0000 == 0
  }

  lemma SignedIsCongruent(x: U64)
    ensures Congruent(Signed(x), x)
  {
  }

  lemma WrapIsCongruent(x: int)
    ensures Congruent(Wrap64(x), x)
  {
    var q := (x + TWO_63) / TWO_64;
    assert Wrap64(x) - x == -q * TWO_64;
    Multiple(-q);
  }

  lemma Multiple(q: int)
    ensures q * 0x1_0000_0000_0000_0000 % 0x1_0000_0000_0000_0000 == 0
  {
  }

  /** The header length is one of the five that are read on, and everything up to the digest is there. */
  predicate FixedPartRead(data: seq<Byte>) {
    |data| >= 112 && 112 <= FromBigEndian(data[0..4]) <= 116
  }

  predicate LengthRead(data: seq<Byte>) {
    FixedPartRead(data) && |data| >= FromBigEndian(data[0..4]) + 4
  }

  function Length(data: seq<Byte>): nat
    requires LengthRead(data)
  {
    var h := FromBigEndian(data[0..4]);
    FromBigEndian(data[h..h + 4])
  }

  /** The declared payload is there, and its end is a uint32. */
  predicate PayloadRead(data: seq<Byte>) {
    && LengthRead(data)
    && var end := FromBigEndian(data[0..4]) + 4 + Length(data);
       end <= |data| && end < 0x1_0000_0000
  }

  /** The eight fields that are read whatever the header length. */
  predicate FixedFieldsRead(m: Message, data: seq<Byte>)
    requires |data| >= 112
  {
    && m.headerLength == FromBigEndian(data[0..4])
    && m.messageType == ParseName(data[4..36])
    && m.schemaVersion == FromBigEndian(data[36..40])
    && Congruent(m.created, FromBigEndian(data[40..48]) * 1_000_000)
    && Congruent(m.sequenceNumber, FromBigEndian(data[48..56]))
    && m.flags == FromBigEndian(data[56..64])
    && m.messageId[8..] == data[64..72] && m.messageId[..8] == data[72..80]
    && m.payloadDigest == data[80..112]
  }

  lemma FixedPartIsRead(r: Message, data: seq<Byte>)
    requires |data| >= 112
    ensures FixedFieldsRead(ParseFixedPart(r, data), data)
  {
    WrapIsCongruent(Get64(data, 40) * NANOS_PER_MILLI);
    SignedIsCongruent(Get64(data, 48));
    hide FromBigEndian, ParseName, Congruent, Wrap64, Signed;
    assert SwapHalves(data[64..80])[8..] == data[64..80][..8] == data[64..72];
    assert SwapHalves(data[64..80])[..8] == data[64..80][8..] == data[72..80];
  }

  /** Before the fixed part is read, at most the header length has changed. */
  lemma ShortIsLeftAlone(sha: Hash, r: Message, data: seq<Byte>)
    requires !FixedPartRead(data)
    ensures Unmarshal(sha, r, data).outcome.Rejected?
    ensures Unmarshal(sha, r, data).message
            == if |data| < 4 then r else r.(headerLength := FromBigEndian(data[0..4]))
  {
    hide ParsePayload, ParseFixedPart;
  }

  /** What the payload part reads after a header of `at` bytes. */
  lemma PayloadIsRead(sha: Hash, m: Message, data: seq<Byte>, at: U32)
    requires 112 <= at <= 116
    ensures var u := ParsePayload(sha, m, data, at);
            && (u.outcome.Accepted? ==> at + 4 <= |data|)
            && u.message.payloadLength
               == (if at + 4 <= |data| then FromBigEndian(data[at..at + 4]) else m.payloadLength)
            && u.message == m.(payloadLength := u.message.payloadLength, payload := u.message.payload)
            && (at + 4 > |data| ==> u.message.payload == m.payload)
            && (at + 4 <= |data| ==>
                  var end := at + 4 + FromBigEndian(data[at..at + 4]);
                  var fits := end <= |data| && end < 0x1_0000_0000;
                  && u.message.payload == (if fits then data[at + 4..end] else m.payload)
                  && (u.outcome.Accepted? <==> fits && Validate(sha, u.message).Accepted?))
  {
    hide Validate, FromBigEndian;
    if at + 4 <= |data| {
      var end := at + 4 + Get32(data, at);
      assert end % TWO_32 == if end < TWO_32 then end else end - TWO_32;
    }
  }

  /** Only a standard header that is cut off before its last field stops between the two parts. */
  lemma CutOff(sha: Hash, r: Message, data: seq<Byte>)
    requires |data| >= 112 && Get32(data, 0) == 116
    ensures |data| < 116 ==> Unmarshal(sha, r, data) == Parsed(ParseFixedPart(r, data), Rejected(TooShortForFullHeader))
  {
    hide Get32, ParsePayload, ParseName, ParseTime;
  }

  /** What the payload part starts from. */
  function Started(r: Message, data: seq<Byte>): Message
    requires FixedPartRead(data)
  {
    var m := ParseFixedPart(r, data);
    if FromBigEndian(data[0..4]) == 116 && |data| >= 116 then m.(payloadType := Get32(data, 112)) else m
  }

  lemma TwoParts(sha: Hash, r: Message, data: seq<Byte>)
    requires FixedPartRead(data)
    ensures var h := FromBigEndian(data[0..4]);
            Unmarshal(sha, r, data)
            == if h == 116 && |data| < 116 then Parsed(Started(r, data), Rejected(TooShortForFullHeader))
               else ParsePayload(sha, Started(r, data), data, h)
  {
    hide ParseFixedPart, ParsePayload, Unmarshal, FromBigEndian;
    HeaderPaths(sha, r, data);
    assert Get32(data, 0) == FromBigEndian(data[0..4]);
    if Get32(data, 0) == 116 {
      CutOff(sha, r, data);
      if |data| >= 116 {
        assert Started(r, data) == ParseFixedPart(r, data).(payloadType := Get32(data, 112));
      }
    } else {
      assert Started(r, data) == ParseFixedPart(r, data);
    }
  }

  /** The object after an attempt to read a frame, whatever its outcome. */
  lemma ObjectRead(sha: Hash, r: Message, data: seq<Byte>)
    requires FixedPartRead(data)
    ensures var m, h := Unmarshal(sha, r, data).message, FromBigEndian(data[0..4]);
            && FixedFieldsRead(m, data)
            && m.payloadType == (if h == 116 && |data| >= 116 then FromBigEndian(data[112..116]) else r.payloadType)
            && m.payloadLength == (if LengthRead(data) then Length(data) else r.payloadLength)
            && m.payload == (if PayloadRead(data) then data[h + 4..h + 4 + Length(data)] else r.payload)
  {
    FixedPartIsRead(r, data);
    hide FromBigEndian, Congruent, ParsePayload, ParseName, Unmarshal;
    TwoParts(sha, r, data);
    PayloadIsRead(sha, Started(r, data), data, FromBigEndian(data[0..4]));
  }

  /** Which messages are valid. */
  lemma ValidIff(sha: Hash, m: Message)
    ensures Validate(sha, m).Accepted? <==>
            || m.messageType == START_PUBLICATION || m.messageType == PAUSE_PUBLICATION
            || (&& 112 <= m.headerLength <= 116 && m.schemaVersion >= 1 && |m.messageType| >= 10
                && m.created != ZERO_TIME && |m.payload| == m.payloadLength
                && (|m.payload| == 0 || sha(m.payload) == m.payloadDigest))
  {
  }

  /** A frame is accepted when what it declares is there and the message it leaves is valid. */
  lemma AcceptedIfValid(sha: Hash, r: Message, data: seq<Byte>)
    requires FixedPartRead(data)
    ensures var u := Unmarshal(sha, r, data);
            u.outcome.Accepted? <==> PayloadRead(data) && Validate(sha, u.message).Accepted?
  {
    hide FromBigEndian, ParsePayload, Unmarshal, Validate, Started;
    TwoParts(sha, r, data);
    PayloadIsRead(sha, Started(r, data), data, FromBigEndian(data[0..4]));
  }

  /**
   * Which byte strings are accepted: those that hold all they declare, within a uint32, and are one of
   * the two publication types or have their schema version, type and digest in order. A date that is
   * read is never the zero time.
   */
  lemma AcceptedIff(sha: Hash, r: Message, data: seq<Byte>)
    ensures Unmarshal(sha, r, data).outcome.Accepted? <==>
            && PayloadRead(data)
            && var name, h := ParseName(data[4..36]), FromBigEndian(data[0..4]);
               || name == START_PUBLICATION || name == PAUSE_PUBLICATION
               || (&& FromBigEndian(data[36..40]) >= 1 && |name| >= 10
                   && (Length(data) == 0 || sha(data[h + 4..h + 4 + Length(data)]) == data[80..112]))
  {
    hide Unmarshal, FromBigEndian, ParseName, Validate;
    if FixedPartRead(data) {
      ObjectRead(sha, r, data);
      AcceptedIfValid(sha, r, data);
      ValidIff(sha, Unmarshal(sha, r, data).message);
    } else {
      ShortIsLeftAlone(sha, r, data);
    }
  }

  // ---- The byte order --------------------------------------------------------------------

  /** The most significant byte comes first. */
  lemma BytesOfWord(n: U32)
    ensures BigEndian(n, 4) == [n / 0x100_0000, n / 0x1_0000 % 256, n / 0x100 % 256, n % 256]
  {
    WordBytes(n);
  }

  /** A double word is its two words, the high one first. */
  lemma BytesOfDoubleWord(n: U64)
    ensures BigEndian(n, 8) == BigEndian(n / 0x1_0000_0000, 4) + BigEndian(n % 0x1_0000_0000, 4)
  {
    var n1, n2, n3, n4: int := n / 256, n / 256 / 256, n / 256 / 256 / 256, n / 256 / 256 / 256 / 256;
    BytesOfWord(n % 0x1_0000_0000);
    assert n4 == n / 0x1_0000_0000;
    assert BigEndian(n1, 7) == BigEndian(n2, 6) + [n1 % 256];
    assert BigEndian(n2, 6) == BigEndian(n3, 5) + [n2 % 256];
    assert BigEndian(n3, 5) == BigEndian(n4, 4) + [n3 % 256];
    hide BigEndian;
    LowBytes(n);
  }

  lemma LowBytes(n: U64)
    ensures var low := n % 0x1_0000_0000;
            && low / 0x100_0000 == n / 256 / 256 / 256 % 256 && low / 0x1_0000 % 256 == n / 256 / 256 % 256
            && low / 0x100 % 256 == n / 256 % 256 && low % 256 == n % 256
  {
    var q1: int := n / 256;
    var q2 := q1 / 256;
    var q3 := q2 / 256;
    var b3, b2, b1, b0 := q3 % 256, q2 % 256, q1 % 256, n % 256;
    var low := b3 * 0x100_0000 + b2 * 0x1_0000 + b1 * 0x100 + b0;
    assert n == (q3 / 256) * 0x1_0000_0000 + low;
    assert n % 0x1_0000_0000 == low;
    Digits256(b3, b2, b1, b0);
  }

  lemma Digits256(b3: Byte, b2: Byte, b1: Byte, b0: Byte)
    ensures var low := (b3 as int) * 0x100_0000 + (b2 as int) * 0x1_0000 + (b1 as int) * 0x100 + b0;
            && low / 0x100_0000 == b3 && low / 0x1_0000 % 256 == b2 && low / 0x100 % 256 == b1 && low % 256 == b0
  {
    var low := (b3 as int) * 0x100_0000 + (b2 as int) * 0x1_0000 + (b1 as int) * 0x100 + b0;
    assert low / 0x1_0000 == (b3 as int) * 256 + b2;
    assert low / 0x100 == (b3 as int) * 0x1_0000 + (b2 as int) * 256 + b1;
  }
}
