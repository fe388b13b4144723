/** The YAS binary wire format: messages written as bytes and read back. */
module Yas {
  import opened Strings

  // ── The value types (data.py) ─────────────────────────────────────────────

  datatype RingBuffer = RingBuffer(samples: seq<Byte>, id: nat, ts: nat)

  /** What a service passes on. `Json` is a dict or a list, `J` being whatever
      stands for those; `Unsupported` is any other object. */
  datatype Data<J> =
    | Ring(buffer: RingBuffer)
    | Json(value: J)
    | Text(text: string)
    | Str(s: string)
    | Binary(bytes: seq<Byte>)
    | Null
    | NoneValue
    | Undefined
    | Unsupported

  datatype Message<J> = Message(purpose: nat, sender: string, data: Data<J>)

  datatype Error =
    | UnsupportedType
    | OutOfRange
    | NotAscii
    | BadHeader
    | Truncated
    | BadUtf8
    | BadJson
    | UnknownTypeId(id: nat)
    | MalformedRingBuffer

  datatype Result<+T> = Ok(value: T) | Err(error: Error)

  /** `json.dumps` and `json.loads`. */
  datatype Codec<!J> = Codec(dumps: J -> string, loads: string -> Option<J>)

  const FLOAT_RING_BUFFER: nat := 1
  const JSON: nat := 2
  const BINARY: nat := 3
  const STRING: nat := 4
  const NULL: nat := 5
  const UNDEFINED: nat := 0

  function TypeId<J>(data: Data<J>): Option<nat> {
    match data
    case Ring(_) => Some(FLOAT_RING_BUFFER)
    case Json(_) => Some(JSON)
    case Binary(_) => Some(BINARY)
    case Text(_) => Some(STRING)
    case Str(_) => Some(STRING)
    case Null => Some(NULL)
    case NoneValue => Some(NULL)
    case Undefined => Some(UNDEFINED)
    case Unsupported => None
  }

  // ── Little-endian numbers ─────────────────────────────────────────────────

  function Power(width: nat): (p: nat)
    ensures p >= 1
  {
    if width == 0 then 1 else 0x100 * Power(width - 1)
  }

  function Pack(n: nat, width: nat): (b: seq<Byte>)
    ensures |b| == width
  {
    if width == 0 then [] else [n % 0x100] + Pack(n / 0x100, width - 1)
  }

  function Unpack(b: seq<Byte>): nat {
    if b == [] then 0 else b[0] as int + 0x100 * Unpack(b[1..])
  }

  lemma {:induction false} UnpackUndoesPack(n: nat, width: nat)
    requires n < Power(width)
    ensures Unpack(Pack(n, width)) == n
  {
    if width > 0 {
      UnpackUndoesPack(n / 0x100, width - 1);
      assert Pack(n, width)[1..] == Pack(n / 0x100, width - 1);
    }
  }

  lemma PowerOf(n: nat)
    ensures Power(2) == 0x1_0000 && Power(4) == 0x1_0000_0000 && Power(8) == 0x1_0000_0000_0000_0000
  {
    assert Power(0) == 1 && Power(1) == 0x100 && Power(2) == 0x100 * Power(1) && Power(3) == 0x100 * Power(2);
    assert Power(4) == 0x100 * Power(3) && Power(5) == 0x100 * Power(4) && Power(6) == 0x100 * Power(5);
    assert Power(7) == 0x100 * Power(6) && Power(8) == 0x100 * Power(7);
  }

  // ── Writing ───────────────────────────────────────────────────────────────

  const HEADER: seq<Byte> := [0x79, 0x61, 0x73, 0x30, 0x30, 0x31, 0x37]

  predicate IsAscii(s: string) { forall i | 0 <= i < |s| :: s[i] as int < 0x80 }

  function Ascii(s: string): (b: seq<Byte>)
    requires IsAscii(s)
    ensures |b| == |s|
  {
    seq(|s|, i requires 0 <= i < |s| => s[i] as int)
  }

  function NumSamples(b: RingBuffer): nat { |b.samples| / 4 }

  /** A ring buffer with a type id of two bytes, as this runtime and the C++ one
      write it, or of four, as the TypeScript one does. */
  function RingPayload(b: RingBuffer, typeWidth: nat): seq<Byte> {
    HEADER + (Pack(FLOAT_RING_BUFFER, typeWidth) + (Pack(NumSamples(b), 8) + (b.samples + (Pack(b.id, 4) + Pack(b.ts, 8)))))
  }

  function SizedText(b: seq<Byte>): seq<Byte> { HEADER + (Pack(|b|, 8) + b) }

  predicate FieldsInRange(b: RingBuffer) {
    b.id < Power(4) && b.ts < Power(8) && NumSamples(b) < Power(8)
  }

  function Payload<J>(data: Data<J>, codec: Codec<J>): Result<seq<Byte>> {
    match data
    case Ring(b) => if FieldsInRange(b) then Ok(RingPayload(b, 2)) else Err(OutOfRange)
    case Json(value) => SizedPayload(Utf8(codec.dumps(value)))
    case Text(text) => SizedPayload(Utf8(text))
    case Str(s) => SizedPayload(Utf8(s))
    case Binary(bytes) => Ok(bytes)
    case Null => Ok([0])
    case NoneValue => Ok([0])
    case Undefined => Ok([0])
    case Unsupported => Err(UnsupportedType)
  }

  function SizedPayload(b: seq<Byte>): Result<seq<Byte>> {
    if |b| < Power(8) then Ok(SizedText(b)) else Err(OutOfRange)
  }

  function Serialize<J>(m: Message<J>, codec: Codec<J>): Result<seq<Byte>> {
    if !IsAscii(m.sender) then Err(NotAscii)
    else if TypeId(m.data).None? then Err(UnsupportedType)
    else if m.purpose >= Power(2) || |m.sender| >= Power(8) then Err(OutOfRange)
    else
      match Payload(m.data, codec)
      case Err(e) => Err(e)
      case Ok(payload) =>
        Ok(HEADER + (Pack(m.purpose, 2) + (Pack(TypeId(m.data).value, 2) + (Pack(|m.sender|, 8) + (Ascii(m.sender) + payload)))))
  }

  // ── Reading ───────────────────────────────────────────────────────────────

  /** What a number field at the front of the bytes holds. */
  function Field(b: seq<Byte>, width: nat): nat
    requires |b| >= width
  {
    Unpack(b[..width])
  }

  predicate HasHeader(b: seq<Byte>) { |b| >= 7 && b[..3] == HEADER[..3] }

  function FromAscii(b: seq<Byte>): string {
    seq(|b|, i requires 0 <= i < |b| => if b[i] < 0x80 then b[i] as char else 0xFFFD as char)
  }

  /** The reading of one dialect, None where the bytes do not fit it: the sample
      count has to fill the frame exactly. `b` is what follows the header. */
  function ReadRing(b: seq<Byte>, typeWidth: nat): Option<RingBuffer> {
    if |b| < typeWidth + 8 || Field(b, typeWidth) != FLOAT_RING_BUFFER then None
    else
      var n := Field(b[typeWidth..], 8);
      var rest := b[typeWidth + 8..];
      if |rest| != n * 4 + 12 then None
      else Some(RingBuffer(rest[..n * 4], Field(rest[n * 4..], 4), Field(rest[n * 4 + 4..], 8)))
  }

  function ReadRingBuffer(b: seq<Byte>): Result<RingBuffer> {
    if !HasHeader(b) then Err(BadHeader)
    else if ReadRing(b[7..], 2).Some? then Ok(ReadRing(b[7..], 2).value)
    else if ReadRing(b[7..], 4).Some? then Ok(ReadRing(b[7..], 4).value)
    else Err(MalformedRingBuffer)
  }

  function ReadSizedText(b: seq<Byte>): Result<string> {
    if !HasHeader(b) then Err(BadHeader)
    else if |b| < 15 then Err(Truncated)
    else
      var length := Field(b[7..], 8);
      if |b| < 15 + length then Err(Truncated)
      else
        match DecodeUtf8(b[15..15 + length])
        case None => Err(BadUtf8)
        case Some(text) => Ok(text)
  }

  function ReadPayload<J>(b: seq<Byte>, typeId: nat, codec: Codec<J>): Result<Data<J>> {
    if typeId == FLOAT_RING_BUFFER then
      match ReadRingBuffer(b)
      case Err(e) => Err(e)
      case Ok(buffer) => Ok(Ring(buffer))
    else if typeId == JSON then
      match ReadSizedText(b)
      case Err(e) => Err(e)
      case Ok(text) =>
        match codec.loads(text)
        case None => Err(BadJson)
        case Some(value) => Ok(Data<J>.Json(value))
    else if typeId == STRING then
      match ReadSizedText(b)
      case Err(e) => Err(e)
      case Ok(text) => Ok(Text(text))
    else if typeId == BINARY then Ok(Binary(b))
    else if typeId == NULL then Ok(Null)
    else if typeId == UNDEFINED then Ok(Undefined)
    else Err(UnknownTypeId(typeId))
  }

  function Deserialize<J>(b: seq<Byte>, codec: Codec<J>): Result<Message<J>> {
    if !HasHeader(b) then Err(BadHeader)
    else if |b| < 19 then Err(Truncated)
    else
      var purpose, typeId, length := Field(b[7..], 2), Field(b[9..], 2), Field(b[11..], 8);
      if |b| < 19 + length then Err(Truncated)
      else Framed(purpose, FromAscii(b[19..19 + length]), ReadPayload(b[19 + length..], typeId, codec))
  }

  function Framed<J>(purpose: nat, sender: string, data: Result<Data<J>>): Result<Message<J>> {
    match data
    case Err(e) => Err(e)
    case Ok(value) => Ok(Message(purpose, sender, value))
  }

  // ── Reading what was written ──────────────────────────────────────────────

  lemma ReadsField(n: nat, width: nat, rest: seq<Byte>)
    requires n < Power(width)
    ensures Field(Pack(n, width) + rest, width) == n && (Pack(n, width) + rest)[width..] == rest
  {
    assert (Pack(n, width) + rest)[..width] == Pack(n, width);
    UnpackUndoesPack(n, width);
  }

  lemma SkipsHeader(rest: seq<Byte>)
    ensures HasHeader(HEADER + rest) && (HEADER + rest)[7..] == rest
  {
  }

  lemma TypeIdFits(width: nat)
    requires width in [2, 4]
    ensures FLOAT_RING_BUFFER < Power(width)
  {
    PowerOf(0);
  }

  /** A ring buffer of whole samples is read back by the dialect it was written in. */
  lemma ReadsOwnDialect(b: RingBuffer, typeWidth: nat)
    requires typeWidth in [2, 4] && FieldsInRange(b) && |b.samples| % 4 == 0
    ensures ReadRing(RingPayload(b, typeWidth)[7..], typeWidth) == Some(b)
  {
    var tail := Pack(b.id, 4) + Pack(b.ts, 8);
    var counted := Pack(NumSamples(b), 8) + (b.samples + tail);
    SkipsHeader(Pack(FLOAT_RING_BUFFER, typeWidth) + counted);
    TypeIdFits(typeWidth);
    ReadsField(FLOAT_RING_BUFFER, typeWidth, counted);
    ReadsField(NumSamples(b), 8, b.samples + tail);
    var all := RingPayload(b, typeWidth)[7..];
    assert all[typeWidth + 8..] == all[typeWidth..][8..];
    ReadsTail(b, tail);
  }

  lemma ReadsTail(b: RingBuffer, tail: seq<Byte>)
    requires FieldsInRange(b) && tail == Pack(b.id, 4) + Pack(b.ts, 8)
    ensures var rest, n := b.samples + tail, |b.samples|;
            rest[..n] == b.samples && Field(rest[n..], 4) == b.id && Field(rest[n + 4..], 8) == b.ts
  {
    var rest, n := b.samples + tail, |b.samples|;
    assert rest[n..] == tail && rest[n + 4..] == tail[4..];
    ReadsField(b.id, 4, Pack(b.ts, 8));
    ReadsField(b.ts, 8, []);
    assert Pack(b.ts, 8) + [] == Pack(b.ts, 8);
  }

  lemma FittingLength(b: seq<Byte>, typeWidth: nat)
    ensures ReadRing(b, typeWidth).Some? ==> (|b| - typeWidth) % 4 == 0
  {
  }

  /** And never by the other one: the lengths the two ask for differ by two, a
      sample by four. */
  lemma NeverTheOtherDialect(b: RingBuffer, typeWidth: nat)
    requires typeWidth in [2, 4] && |b.samples| % 4 == 0
    ensures ReadRing(RingPayload(b, typeWidth)[7..], 6 - typeWidth).None?
  {
    FittingLength(RingPayload(b, typeWidth)[7..], 6 - typeWidth);
    assert |RingPayload(b, typeWidth)[7..]| == typeWidth + 8 + |b.samples| + 12;
  }

  /** Whatever is read has whole samples. */
  lemma ReadsWholeSamples(b: seq<Byte>)
    ensures ReadRingBuffer(b).Ok? ==> |ReadRingBuffer(b).value.samples| % 4 == 0
  {
  }

  /** A ring buffer, written with either width of type id, decodes to itself
      exactly when its samples are whole. */
  lemma RingBufferRoundTrip(b: RingBuffer, typeWidth: nat)
    requires typeWidth in [2, 4] && FieldsInRange(b)
    ensures ReadRingBuffer(RingPayload(b, typeWidth)) == Ok(b) <==> |b.samples| % 4 == 0
  {
    if |b.samples| % 4 == 0 {
      ReadsOwnDialect(b, typeWidth);
      NeverTheOtherDialect(b, typeWidth);
      SkipsHeader(RingPayload(b, typeWidth)[7..]);
    } else {
      ReadsWholeSamples(RingPayload(b, typeWidth));
    }
  }

  lemma ReadsSizedText(text: string)
    requires |Utf8(text)| < Power(8)
    ensures ReadSizedText(SizedText(Utf8(text))) == Ok(text)
  {
    var b := Utf8(text);
    var all := SizedText(b);
    SkipsHeader(Pack(|b|, 8) + b);
    ReadsField(|b|, 8, b);
    assert all[15..15 + |b|] == all[7..][8..];
    Utf8RoundTrip(text);
  }

  lemma AsciiRoundTrip(s: string)
    requires IsAscii(s)
    ensures FromAscii(Ascii(s)) == s
  {
  }

  /** What a value comes back as: text data for a str, null for None. */
  function Received<J>(data: Data<J>): Data<J> {
    match data
    case Str(s) => Text(s)
    case NoneValue => Null
    case _ => data
  }

  lemma PayloadRoundTrip<J>(data: Data<J>, codec: Codec<J>)
    requires Payload(data, codec).Ok?
    requires data.Json? ==> codec.loads(codec.dumps(data.value)) == Some(data.value)
    ensures ReadPayload(Payload(data, codec).value, TypeId(data).value, codec) == Ok(Received(data))
            <==> !(data.Ring? && |data.buffer.samples| % 4 != 0)
  {
    match data
    case Ring(b) =>
      RingBufferRoundTrip(b, 2);
    case Json(value) => ReadsSizedText(codec.dumps(value));
    case Text(text) => ReadsSizedText(text);
    case Str(s) => ReadsSizedText(s);
    case _ =>
  }

  lemma ReadsFrame<J>(purpose: nat, typeId: nat, sender: string, payload: seq<Byte>, codec: Codec<J>)
    requires purpose < Power(2) && typeId < Power(2) && |sender| < Power(8) && IsAscii(sender)
    ensures var b := HEADER + (Pack(purpose, 2) + (Pack(typeId, 2) + (Pack(|sender|, 8) + (Ascii(sender) + payload))));
            Deserialize(b, codec) == Framed(purpose, sender, ReadPayload(payload, typeId, codec))
  {
    var tail := Ascii(sender) + payload;
    var sized := Pack(|sender|, 8) + tail;
    var typed := Pack(typeId, 2) + sized;
    var b := HEADER + (Pack(purpose, 2) + typed);
    SkipsHeader(Pack(purpose, 2) + typed);
    ReadsField(purpose, 2, typed);
    ReadsField(typeId, 2, sized);
    ReadsField(|sender|, 8, tail);
    assert b[9..] == b[7..][2..] && b[11..] == b[9..][2..] && b[19..] == b[11..][8..];
    assert b[19..19 + |sender|] == Ascii(sender) && b[19 + |sender|..] == payload;
    AsciiRoundTrip(sender);
  }

  /** Decoding an encoded message gives back its purpose, sender and value,
      exactly unless the value is a ring buffer holding part of a sample. Only
      a value JSON itself would not give back is left out. */
  lemma DeserializeUndoesSerialize<J>(m: Message<J>, codec: Codec<J>)
    requires Serialize(m, codec).Ok?
    requires m.data.Json? ==> codec.loads(codec.dumps(m.data.value)) == Some(m.data.value)
    ensures Deserialize(Serialize(m, codec).value, codec) == Ok(m.(data := Received(m.data)))
            <==> !(m.data.Ring? && |m.data.buffer.samples| % 4 != 0)
  {
    PowerOf(0);
    ReadsFrame(m.purpose, TypeId(m.data).value, m.sender, Payload(m.data, codec).value, codec);
    PayloadRoundTrip(m.data, codec);
  }

  // ── The reader as the source has it, an offset moving through the buffer ──

  method ParseYasHeader(buf: seq<Byte>, offset: nat) returns (r: Result<nat>)
    requires offset <= |buf|
    ensures r == if HasHeader(buf[offset..]) then Ok(offset + 7) else Err(BadHeader)
  {
    if |buf| < offset + 7 || buf[offset..offset + 3] != HEADER[..3] {
      return Err(BadHeader);
    }
    assert buf[offset..][..3] == buf[offset..offset + 3];
    r := Ok(offset + 7);
  }

  lemma FieldAt(buf: seq<Byte>, start: nat, pos: nat, width: nat)
    requires start <= pos && pos + width <= |buf|
    ensures Unpack(buf[pos..pos + width]) == Field(buf[start..][pos - start..], width)
    ensures buf[start..][pos - start..] == buf[pos..]
  {
    assert buf[start..][pos - start..] == buf[pos..];
    assert buf[pos..][..width] == buf[pos..pos + width];
  }

  /** The type id's width is found out by which reading fills the frame. */
  method DeserializeRingBuffer(buf: seq<Byte>, start: nat) returns (r: Result<RingBuffer>)
    requires start <= |buf|
    ensures r == ReadRingBuffer(buf[start..])
  {
    var header := ParseYasHeader(buf, start);
    if header.Err? {
      return Err(BadHeader);
    }
    var offset := header.value;
    assert buf[start..][7..] == buf[offset..];
    var dialects := [2, 4];
    for i := 0 to |dialects|
      invariant i > 0 ==> ReadRing(buf[offset..], 2).None?
      invariant i > 1 ==> ReadRing(buf[offset..], 4).None?
    {
      var fitting := TryDialect(buf, offset, dialects[i]);
      if fitting.Some? {
        return Ok(fitting.value);
      }
    }
    r := Err(MalformedRingBuffer);
  }

  method TryDialect(buf: seq<Byte>, offset: nat, typeWidth: nat) returns (r: Option<RingBuffer>)
    requires offset <= |buf|
    ensures r == ReadRing(buf[offset..], typeWidth)
  {
    var pos := offset;
    if |buf| < pos + typeWidth + 8 {
      return None;
    }
    FieldAt(buf, offset, pos, typeWidth);
    if Unpack(buf[pos..pos + typeWidth]) != FLOAT_RING_BUFFER {
      return None;
    }
    pos := pos + typeWidth;
    FieldAt(buf, offset, pos, 8);
    var numSamples := Unpack(buf[pos..pos + 8]);
    pos := pos + 8;
    FieldAt(buf, offset, pos, 0);
    if |buf| != pos + numSamples * 4 + 4 + 8 {
      return None;
    }
    var samples := buf[pos..pos + numSamples * 4];
    assert samples == buf[pos..][..numSamples * 4];
    ghost var rest := pos;
    pos := pos + numSamples * 4;
    FieldAt(buf, rest, pos, 4);
    FieldAt(buf, rest, pos + 4, 8);
    r := Some(RingBuffer(samples, Unpack(buf[pos..pos + 4]), Unpack(buf[pos + 4..pos + 12])));
  }

  method DeserializeSizedText(buf: seq<Byte>, start: nat) returns (r: Result<string>)
    requires start <= |buf|
    ensures r == ReadSizedText(buf[start..])
  {
    var header := ParseYasHeader(buf, start);
    if header.Err? {
      return Err(BadHeader);
    }
    var offset := header.value;
    if |buf| < offset + 8 {
      return Err(Truncated);
    }
    FieldAt(buf, start, offset, 8);
    var length := Unpack(buf[offset..offset + 8]);
    offset := offset + 8;
    if |buf| < offset + length {
      return Err(Truncated);
    }
    assert buf[start..][15..15 + length] == buf[offset..offset + length];
    var text := DecodeUtf8(buf[offset..offset + length]);
    r := if text.Some? then Ok(text.value) else Err(BadUtf8);
  }

  method DeserializePayload<J>(buf: seq<Byte>, offset: nat, typeId: nat, codec: Codec<J>) returns (r: Result<Data<J>>)
    requires offset <= |buf|
    ensures r == ReadPayload(buf[offset..], typeId, codec)
  {
    if typeId == FLOAT_RING_BUFFER {
      var ring := DeserializeRingBuffer(buf, offset);
      r := if ring.Ok? then Ok(Ring(ring.value)) else Err(ring.error);
    } else if typeId == JSON || typeId == STRING {
      var text := DeserializeSizedText(buf, offset);
      if text.Err? {
        return Err(text.error);
      }
      if typeId == STRING {
        return Ok(Text(text.value));
      }
      var value := codec.loads(text.value);
      r := if value.Some? then Ok(Data<J>.Json(value.value)) else Err(BadJson);
    } else if typeId == BINARY {
      r := Ok(Binary(buf[offset..]));
    } else if typeId == NULL {
      r := Ok(Null);
    } else if typeId == UNDEFINED {
      r := Ok(Undefined);
    } else {
      r := Err(UnknownTypeId(typeId));
    }
  }

  method DeserializeMessage<J>(buf: seq<Byte>, codec: Codec<J>) returns (r: Result<Message<J>>)
    ensures r == Deserialize(buf, codec)
  {
    assert buf[0..] == buf;
    var header := ParseYasHeader(buf, 0);
    if header.Err? {
      return Err(BadHeader);
    }
    var offset := header.value;
    if |buf| < offset + 12 {
      return Err(Truncated);
    }
    FieldAt(buf, 0, offset, 2);
    FieldAt(buf, 0, offset + 2, 2);
    FieldAt(buf, 0, offset + 4, 8);
    var purpose, typeId, length :=
      Unpack(buf[offset..offset + 2]), Unpack(buf[offset + 2..offset + 4]), Unpack(buf[offset + 4..offset + 12]);
    offset := offset + 12;
    if |buf| < offset + length {
      return Err(Truncated);
    }
    var sender := FromAscii(buf[offset..offset + length]);
    offset := offset + length;
    var data := DeserializePayload(buf, offset, typeId, codec);
    r := if data.Ok? then Ok(Message(purpose, sender, data.value)) else Err(data.error);
  }
}
