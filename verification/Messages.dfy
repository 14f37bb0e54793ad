/** The agent message, its validation, and the binary frame it travels in. */
module Messages {
  import opened Numbers
  import opened Names

  // ---- Constants and entities ------------------------------------------------------------

  const HEADER_LENGTH: U32 := 116
  const SHORT_HEADER_LENGTH: U32 := 112
  const FIXED_FIELDS: nat := 112

  const START_PUBLICATION: Name := [115, 116, 97, 114, 116, 95, 112, 117, 98, 108, 105, 99, 97, 116, 105, 111, 110]
  const PAUSE_PUBLICATION: Name := [112, 97, 117, 115, 101, 95, 112, 117, 98, 108, 105, 99, 97, 116, 105, 111, 110]

  const INPUT_STREAM_DATA: Name := [105, 110, 112, 117, 116, 95, 115, 116, 114, 101, 97, 109, 95, 100, 97, 116, 97]

  const FLAG_DATA: U64 := 0
  const FLAG_SYN: U64 := 1
  const FLAG_FIN: U64 := 2

  const PAYLOAD_OUTPUT: U32 := 1
  const PAYLOAD_FLAG: U32 := 10

  const NANOS_PER_MILLI: int := 1_000_000

  /** The instant of Go's zero time.Time, 1 January of year 1, in nanoseconds of the Unix epoch. */
  const ZERO_TIME: int := -62135596800 * 1_000_000_000

  type Id = s: seq<Byte> | |s| == 16 witness seq(16, _ => 0)
  type Digest = s: seq<Byte> | |s| == 32 witness seq(32, _ => 0)

  /** Any hash function with 32-byte results: nothing here depends on which one it is. */
  type Hash = seq<Byte> -> Digest

  datatype Message = Message(
    headerLength: U32,
    messageType: Name,
    schemaVersion: U32,
    created: int,
    sequenceNumber: I64,
    flags: U64,
    messageId: Id,
    payloadDigest: seq<Byte>,
    payloadType: U32,
    payloadLength: U32,
    payload: seq<Byte>)

  datatype Fault =
    | TooShortForHeaderLength
    | InvalidHeaderLength
    | TooShortForBasicHeader
    | TooShortForFullHeader
    | TooShortForPayloadLength
    | TooShortForPayload
    | InvalidSchemaVersion
    | InvalidType
    | InvalidDate
    | PayloadLengthMismatch
    | PayloadDigestMismatch

  /** `Panicked` is the run-time failure of a slice whose low bound exceeds its high bound. */
  datatype Outcome = Accepted | Rejected(fault: Fault) | Panicked

  datatype Parsed = Parsed(message: Message, outcome: Outcome)

  // ---- Time ------------------------------------------------------------------------------

  /** Milliseconds since the epoch, rounded down. */
  function Millis(created: int): int {
    created / NANOS_PER_MILLI
  }

  /** time.Time.UnixMilli, which computes in int64. */
  function UnixMilli(created: int): I64 {
    Wrap64(Millis(created))
  }

  /** parseTime: the product with a millisecond is a wrapping int64 product. */
  function ParseTime(field: U64): int {
    Wrap64(field * NANOS_PER_MILLI)
  }

  // ---- UUID ------------------------------------------------------------------------------

  /** formatUUIDBytes: the two halves change places. */
  function SwapHalves(id: Id): Id {
    id[8..] + id[..8]
  }

  lemma SwapTwice(id: Id)
    ensures SwapHalves(SwapHalves(id)) == id
  {
    assert SwapHalves(id)[8..] == id[..8];
    assert SwapHalves(id)[..8] == id[8..];
  }

  // ---- Validation ------------------------------------------------------------------------

  predicate SkipsValidation(t: Name) {
    t == START_PUBLICATION || t == PAUSE_PUBLICATION
  }

  function Validate(sha: Hash, m: Message): Outcome {
    if SkipsValidation(m.messageType) then Accepted
    else if m.headerLength > HEADER_LENGTH || m.headerLength < SHORT_HEADER_LENGTH then Rejected(InvalidHeaderLength)
    else if m.schemaVersion < 1 then Rejected(InvalidSchemaVersion)
    else if |m.messageType| < 10 then Rejected(InvalidType)
    else if m.created == ZERO_TIME then Rejected(InvalidDate)
    else if |m.payload| != m.payloadLength then Rejected(PayloadLengthMismatch)
    else if m.payloadLength > 0 && sha(m.payload) != m.payloadDigest then Rejected(PayloadDigestMismatch)
    else Accepted
  }

  // ---- Encoding --------------------------------------------------------------------------

  /** What MarshalBinary stores in the message before it validates and writes. */
  function Prepared(sha: Hash, m: Message): Message {
    m.(payloadDigest := sha(m.payload), payloadLength := |m.payload| % TWO_32)
  }

  /** The 112 bytes every reader parses, whatever the header length. */
  function FixedPart(m: Message): (r: seq<Byte>)
    requires |m.payloadDigest| == 32
    ensures |r| == FIXED_FIELDS
  {
    BigEndian(m.headerLength, 4) + PadName(m.messageType) + BigEndian(m.schemaVersion, 4)
    + BigEndian(Unsigned(UnixMilli(m.created)), 8) + BigEndian(Unsigned(m.sequenceNumber), 8)
    + BigEndian(m.flags, 8) + SwapHalves(m.messageId) + m.payloadDigest
  }

  function Frame(m: Message): (r: seq<Byte>)
    requires |m.payloadDigest| == 32
    ensures |r| == 120 + |m.payload|
  {
    FixedPart(m) + BigEndian(m.payloadType, 4) + BigEndian(m.payloadLength, 4) + m.payload
  }

  function Marshal(sha: Hash, m: Message): Result<seq<Byte>, Fault> {
    var p := Prepared(sha, m);
    match Validate(sha, p)
    case Rejected(fault) => Err(fault)
    case _ => Ok(Frame(p))
  }

  // ---- Decoding --------------------------------------------------------------------------

  function Get32(data: seq<Byte>, at: nat): U32
    requires at + 4 <= |data|
  {
    FieldRanges(data[at..at + 4]);
    FromBigEndian(data[at..at + 4])
  }

  function Get64(data: seq<Byte>, at: nat): U64
    requires at + 8 <= |data|
  {
    FieldRanges(data[at..at + 8]);
    FromBigEndian(data[at..at + 8])
  }

  /** The fields up to the digest; the receiver's payload fields stay as they were. */
  function ParseFixedPart(m: Message, data: seq<Byte>): Message
    requires |data| >= FIXED_FIELDS
  {
    Message(Get32(data, 0), ParseName(data[4..36]), Get32(data, 36), ParseTime(Get64(data, 40)),
            Signed(Get64(data, 48)), Get64(data, 56), SwapHalves(data[64..80]), data[80..112],
            m.payloadType, m.payloadLength, m.payload)
  }

  /** The declared payload length and the slice it selects, after the length field at `at`. */
  function ParsePayload(sha: Hash, m: Message, data: seq<Byte>, at: U32): Parsed
    requires SHORT_HEADER_LENGTH <= at <= HEADER_LENGTH
  {
    var start := at + 4;
    if |data| < start then Parsed(m, Rejected(TooShortForPayloadLength))
    else
      var m := m.(payloadLength := Get32(data, at));
      var end := (start + m.payloadLength) % TWO_32;
      if |data| < end then Parsed(m, Rejected(TooShortForPayload))
      else if end < start then Parsed(m, Panicked)
      else
        var m := m.(payload := data[start..end]);
        Parsed(m, Validate(sha, m))
  }

  /**
   * UnmarshalBinary into the receiver `m`. Fields assigned before a failure keep their new values,
   * and a header shorter than 116 bytes leaves the receiver's payload type alone.
   */
  function Unmarshal(sha: Hash, m: Message, data: seq<Byte>): Parsed {
    if |data| < 4 then Parsed(m, Rejected(TooShortForHeaderLength))
    else
      var m := m.(headerLength := Get32(data, 0));
      if m.headerLength > HEADER_LENGTH || m.headerLength < SHORT_HEADER_LENGTH then
        Parsed(m, Rejected(InvalidHeaderLength))
      else if |data| < FIXED_FIELDS then Parsed(m, Rejected(TooShortForBasicHeader))
      else
        var m := ParseFixedPart(m, data);
        if m.headerLength == HEADER_LENGTH then
          if |data| < HEADER_LENGTH then Parsed(m, Rejected(TooShortForFullHeader))
          else ParsePayload(sha, m.(payloadType := Get32(data, 112)), data, m.headerLength)
        else ParsePayload(sha, m, data, m.headerLength)
  }

  // ---- The message object ----------------------------------------------------------------

  class AgentMessage {
    var headerLength: U32
    var messageType: Name
    var schemaVersion: U32
    var created: int
    var sequenceNumber: I64
    var flags: U64
    var messageId: Id
    var payloadDigest: seq<Byte>
    var payloadType: U32
    var payloadLength: U32
    var payload: seq<Byte>

    ghost function Value(): Message
      reads this
    {
      Message(headerLength, messageType, schemaVersion, created, sequenceNumber, flags, messageId,
              payloadDigest, payloadType, payloadLength, payload)
    }

    /** NewAgentMessage, with the clock and the generated identifier as parameters. */
    constructor (now: int, id: Id)
      ensures Value() == Message(HEADER_LENGTH, [], 1, now, 0, FLAG_DATA, id, [], 0, 0, [])
    {
      headerLength, messageType, schemaVersion, created := HEADER_LENGTH, [], 1, now;
      sequenceNumber, flags, messageId := 0, FLAG_DATA, id;
      payloadDigest, payloadType, payloadLength, payload := [], 0, 0, [];
    }

    method ValidateMessage(sha: Hash) returns (outcome: Outcome)
      ensures outcome == Validate(sha, Value())
    {
      if SkipsValidation(messageType) {
        return Accepted;
      }
      if headerLength > HEADER_LENGTH || headerLength < SHORT_HEADER_LENGTH {
        return Rejected(InvalidHeaderLength);
      }
      if schemaVersion < 1 {
        return Rejected(InvalidSchemaVersion);
      }
      if |messageType| < 10 {
        return Rejected(InvalidType);
      }
      if created == ZERO_TIME {
        return Rejected(InvalidDate);
      }
      if |payload| != payloadLength {
        return Rejected(PayloadLengthMismatch);
      }
      if payloadLength > 0 && sha(payload) != payloadDigest {
        return Rejected(PayloadDigestMismatch);
      }
      return Accepted;
    }

    method UnmarshalBinary(sha: Hash, data: seq<Byte>) returns (outcome: Outcome)
      modifies this
      ensures Parsed(Value(), outcome) == Unmarshal(sha, old(Value()), data)
    {
      if |data| < 4 {
        return Rejected(TooShortForHeaderLength);
      }
      headerLength := Get32(data, 0);
      if headerLength > HEADER_LENGTH || headerLength < SHORT_HEADER_LENGTH {
        return Rejected(InvalidHeaderLength);
      }
      if |data| < FIXED_FIELDS {
        return Rejected(TooShortForBasicHeader);
      }
      UnmarshalFixedPart(data);
      if headerLength == HEADER_LENGTH {
        if |data| < headerLength {
          return Rejected(TooShortForFullHeader);
        }
        payloadType := Get32(data, 112);
      }
      outcome := UnmarshalPayload(sha, data);
    }

    /** The assignments of UnmarshalBinary from the message type to the digest. */
    method UnmarshalFixedPart(data: seq<Byte>)
      requires |data| >= FIXED_FIELDS && headerLength == Get32(data, 0)
      modifies this
      ensures Value() == ParseFixedPart(old(Value()), data)
    {
      hide ParseName, Get32, Get64, ParseTime;
      messageType := ParseName(data[4..36]);
      schemaVersion := Get32(data, 36);
      created := ParseTime(Get64(data, 40));
      sequenceNumber := Signed(Get64(data, 48));
      flags := Get64(data, 56);
      messageId := SwapHalves(data[64..80]);
      payloadDigest := data[80..112];
    }

    /** The tail of UnmarshalBinary, from the payload length on. */
    method UnmarshalPayload(sha: Hash, data: seq<Byte>) returns (outcome: Outcome)
      requires SHORT_HEADER_LENGTH <= headerLength <= HEADER_LENGTH
      modifies this
      ensures Parsed(Value(), outcome) == ParsePayload(sha, old(Value()), data, old(headerLength))
    {
      var start := headerLength + 4;
      if |data| < start {
        return Rejected(TooShortForPayloadLength);
      }
      payloadLength := Get32(data, headerLength);
      var end := (start + payloadLength) % TWO_32;
      if |data| < end {
        return Rejected(TooShortForPayload);
      }
      if end < start {
        return Panicked;
      }
      payload := data[start..end];
      outcome := ValidateMessage(sha);
    }

    method MarshalBinary(sha: Hash) returns (r: Result<seq<Byte>, Fault>)
      modifies this
      ensures Value() == Prepared(sha, old(Value()))
      ensures r == Marshal(sha, old(Value()))
    {
      payloadDigest := sha(payload);
      payloadLength := |payload| % TWO_32;
      var outcome := ValidateMessage(sha);
      if outcome.Rejected? {
        return Err(outcome.fault);
      }
      var buf: seq<Byte> := BigEndian(headerLength, 4);
      buf := buf + PadName(messageType);
      buf := buf + BigEndian(schemaVersion, 4);
      buf := buf + BigEndian(Unsigned(UnixMilli(created)), 8);
      buf := buf + BigEndian(Unsigned(sequenceNumber), 8);
      buf := buf + BigEndian(flags, 8);
      buf := buf + SwapHalves(messageId);
      buf := buf + payloadDigest;
      assert buf == FixedPart(Value());
      buf := buf + BigEndian(payloadType, 4);
      buf := buf + BigEndian(payloadLength, 4);
      buf := buf + payload;
      return Ok(buf);
    }
  }
}
