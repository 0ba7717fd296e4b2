/**
 * The wire codec: Message, OutboundMessage and InboundMessage, and Response.parse / Response.validate
 * (InstaxLink.py:197-235, 302-319).
 *
 * Outbound frame:  41 62 | size (BE16) | category | operation | data | checksum,  size = 7 + |data|
 * Inbound frame:   61 42 | size (BE16) | category | operation | result code | data | checksum
 */
module Frame {
  import opened Wrappers
  import opened Faults
  import opened Bytes
  import opened Catalog

  type u16 = x: int | 0 <= x < 0x1_0000

  const OutboundSignature: seq<byte> := [0x41, 0x62]
  const InboundSignature: seq<byte> := [0x61, 0x42]

  /** The fields of one frame. An outbound message has result code Unknown, which get_content leaves out. */
  datatype Message = Message(signature: seq<byte>, size: u16, sid: Sid, resultCode: ResultCode, data: seq<byte>, checksum: byte)

  /** get_content: every byte of the frame except the trailing checksum. */
  function Content(m: Message): (c: seq<byte>)
  {
    m.signature + BE16(m.size) + [SidValue(m.sid).0, SidValue(m.sid).1]
      + (if m.resultCode != Unknown then [ResultCodeValue(m.resultCode) as byte] else [])
      + m.data
  }

  /** (255 - (sum(content) & 255)) & 255 */
  function ChecksumOf(content: seq<byte>): byte
  {
    (255 - Sum(content) % 256) % 256
  }

  /** calculate_checksum */
  function Checksum(m: Message): byte
  {
    ChecksumOf(Content(m))
  }

  /** The checksum byte is the one that brings the byte sum of the whole frame to 255 modulo 256. */
  lemma ChecksumCompletes(content: seq<byte>, c: byte)
    ensures c == ChecksumOf(content) <==> (Sum(content + [c])) % 256 == 255
  {
    SumConcat(content, [c]);
    assert Sum([c]) == c;
  }

  /** OutboundMessage(sid, data): packing a size above 0xFFFF raises before any checksum exists. */
  function NewOutbound(sid: Sid, data: seq<byte>): (r: Result<Message, Fault>)
    ensures r.Success? <==> 7 + |data| < 0x1_0000
    ensures r.Success? ==> r.value.signature == OutboundSignature && r.value.sid == sid && r.value.data == data
    ensures r.Success? ==> r.value.resultCode == Unknown && r.value.size == 7 + |data|
    ensures r.Success? ==> r.value.checksum == Checksum(r.value)
  {
    if 7 + |data| >= 0x1_0000 then Failure(OutOfRange)
    else
      var m := Message(OutboundSignature, 7 + |data|, sid, Unknown, data, 0);
      Success(m.(checksum := Checksum(m)))
  }

  /** get_payload: the bytes written to the transport. */
  function Payload(m: Message): seq<byte>
  {
    Content(m) + [m.checksum]
  }

  /** The outbound frame of a SID and its data, as a request builds it. */
  function OutboundFrame(sid: Sid, data: seq<byte>): Result<seq<byte>, Fault>
  {
    var m :- NewOutbound(sid, data);
    Success(Payload(m))
  }

  /**
   * An outbound frame is 7 + |data| bytes long, its size field says so, it starts with 41 62, carries
   * the SID pair, then the data with no result-code byte, and all its bytes sum to 255 modulo 256.
   */
  lemma OutboundLayout(sid: Sid, data: seq<byte>)
    requires 7 + |data| < 0x1_0000
    ensures OutboundFrame(sid, data).Success?
    ensures var f := OutboundFrame(sid, data).value;
      && |f| == 7 + |data| == ReadBE16(f, 2)
      && f[..2] == OutboundSignature
      && (f[4], f[5]) == SidValue(sid)
      && f[6..|f| - 1] == data
      && Sum(f) % 256 == 255
  {
    var m := NewOutbound(sid, data).value;
    var f := Payload(m);
    assert Content(m) == OutboundSignature + BE16(7 + |data|) + [SidValue(sid).0, SidValue(sid).1] + data;
    BE16RoundTrip(7 + |data|, f, 2);
    assert f[2..4] == BE16(7 + |data|);
    assert f[6..|f| - 1] == data;
    ChecksumCompletes(Content(m), m.checksum);
  }

  /** Offset of the checksum byte: unpack_from at size - 1, where a negative offset counts from the end. */
  function ChecksumOffset(payload: seq<byte>): int
    requires |payload| >= 7
  {
    var size := ReadBE16(payload, 2);
    if size == 0 then |payload| - 1 else size - 1
  }

  /**
   * Response.parse: a 7-byte header, data = payload[7:-1], checksum read at offset size - 1.
   * A short buffer raises in unpack_from; a SID or result code outside its table raises in the lookup.
   */
  function Parse(payload: seq<byte>): (r: Result<Message, Fault>)
    ensures r.Success? <==>
      && |payload| >= 7 && ChecksumOffset(payload) < |payload|
      && SidOf(payload[4], payload[5]).Some? && ResultCodeOf(payload[6]).Some?
    ensures r.Success? ==>
      && r.value.signature == payload[..2]
      && r.value.size == ReadBE16(payload, 2)
      && SidValue(r.value.sid) == (payload[4], payload[5])
      && ResultCodeValue(r.value.resultCode) == payload[6] && r.value.resultCode != Unknown
      && r.value.data == (if |payload| > 7 then payload[7..|payload| - 1] else [])
      && r.value.checksum == payload[ChecksumOffset(payload)]
  {
    if |payload| < 7 then Failure(Truncated)
    else
      var size := ReadBE16(payload, 2);
      var at := ChecksumOffset(payload);
      if at >= |payload| then Failure(Truncated)
      else
        match SidOf(payload[4], payload[5])
        case None => Failure(UnknownValue)
        case Some(sid) =>
          match ResultCodeOf(payload[6])
          case None => Failure(UnknownValue)
          case Some(rc) =>
            Success(Message(payload[..2], size, sid, rc, if |payload| > 7 then payload[7..|payload| - 1] else [], payload[at]))
  }

  /** The outcome of Response.validate, naming the first check that failed. */
  datatype Verdict = Accepted | InvalidSignature | InvalidChecksum | DeviceError(code: ResultCode)

  /** validate_signature, then validate_checksum, then the OK result code, in that order. */
  function Check(m: Message): Verdict
  {
    if m.signature != InboundSignature then InvalidSignature
    else if Checksum(m) != m.checksum then InvalidChecksum
    else if m.resultCode != Ok then DeviceError(m.resultCode)
    else Accepted
  }

  /** Response.validate */
  predicate Validate(m: Message)
  {
    Check(m) == Accepted
  }

  /** The checksum check of a parsed frame covers every byte of the buffer except the last one. */
  lemma ParsedContent(payload: seq<byte>)
    requires |payload| >= 8 && Parse(payload).Success?
    ensures Content(Parse(payload).value) == payload[..|payload| - 1]
  {
    var m := Parse(payload).value;
    BE16RoundTrip(m.size, payload, 2);
    assert payload[..|payload| - 1] == payload[..2] + payload[2..4] + [payload[4], payload[5]] + [payload[6]] + payload[7..|payload| - 1];
  }

  /**
   * Response.validate accepts a parsed frame whose size field is its length exactly when the frame starts
   * with 61 42, all its bytes sum to 255 modulo 256, and its result code byte is 0 (OK).
   */
  lemma ValidateFrame(payload: seq<byte>)
    requires |payload| >= 8 && Parse(payload).Success? && ReadBE16(payload, 2) == |payload|
    ensures Validate(Parse(payload).value) <==>
      payload[..2] == InboundSignature && Sum(payload) % 256 == 255 && payload[6] == 0
  {
    var m := Parse(payload).value;
    ParsedContent(payload);
    assert payload == payload[..|payload| - 1] + [m.checksum];
    ChecksumCompletes(Content(m), m.checksum);
    ResultCodeOfValue(m.resultCode);
  }

  /** The frame a device sends: 61 42 | size | SID pair | result code | data | checksum, size = 8 + |data|. */
  function InboundFrame(sid: Sid, rc: ResultCode, data: seq<byte>): (f: seq<byte>)
    requires rc != Unknown && 8 + |data| < 0x1_0000
  {
    var content := InboundSignature + BE16(8 + |data|) + [SidValue(sid).0, SidValue(sid).1, ResultCodeValue(rc) as byte] + data;
    content + [ChecksumOf(content)]
  }

  /**
   * Parsing a well-formed inbound frame recovers its SID, result code, data and checksum, and the frame
   * validates exactly when its result code is OK; otherwise validation reports that result code.
   */
  lemma ParseRoundTrip(sid: Sid, rc: ResultCode, data: seq<byte>)
    requires rc != Unknown && 8 + |data| < 0x1_0000
    ensures var f := InboundFrame(sid, rc, data);
      && Parse(f).Success?
      && Parse(f).value == Message(InboundSignature, 8 + |data|, sid, rc, data, f[|f| - 1])
      && Check(Parse(f).value) == (if rc == Ok then Accepted else DeviceError(rc))
  {
    var f := InboundFrame(sid, rc, data);
    BE16RoundTrip(8 + |data|, f, 2);
    assert f[2..4] == BE16(8 + |data|);
    assert f[..2] == InboundSignature;
    SidOfValue(sid);
    ResultCodeOfValue(rc);
    assert f[7..|f| - 1] == data;
    ParsedContent(f);
    var m := Parse(f).value;
    assert Content(m) == f[..|f| - 1];
  }
}
