/** What stands where in the bytes of a message, and what is read of bytes that
    nobody wrote this way. */
module YasLayout {
  import opened Strings
  import opened Yas

  // ── Numbers ───────────────────────────────────────────────────────────────

  lemma DividesTwice(n: nat, p: nat)
    requires p >= 1
    ensures n / 0x100 / p == n / (0x100 * p)
  {
    var q, r := n / 0x100 / p, n / 0x100 % p;
    assert n / 0x100 == p * q + r;
    assert n == 0x100 * (p * q + r) + n % 0x100;
    assert 0x100 * (p * q + r) == (0x100 * p) * q + 0x100 * r;
    Quotient(n, 0x100 * p, q, 0x100 * r + n % 0x100);
  }

  lemma AtLeastOnce(d: int, m: int)
    requires d >= 1 && m >= 1
    ensures d * m >= d
  {
  }

  lemma Differ(d: int, q: int, k: int)
    ensures d * q - d * k == d * (q - k)
  {
  }

  lemma Quotient(n: nat, d: nat, q: nat, r: nat)
    requires d >= 1 && n == d * q + r && r < d
    ensures n / d == q
  {
    var k, s := n / d, n % d;
    assert d * q + r == d * k + s;
    Differ(d, q, k);
    Differ(d, k, q);
    if k < q {
      AtLeastOnce(d, q - k);
    } else if k > q {
      AtLeastOnce(d, k - q);
    }
  }

  /** The least significant byte comes first. */
  lemma {:induction false} LittleEndian(n: nat, width: nat, k: nat)
    requires k < width
    ensures Pack(n, width)[k] == n / Power(k) % 0x100
  {
    if k > 0 {
      LittleEndian(n / 0x100, width - 1, k - 1);
      DividesTwice(n, Power(k - 1));
    }
  }

  /** From `at` on, `width` bytes hold a number, the least significant first. */
  ghost predicate Holds(b: seq<Byte>, at: nat, width: nat, n: nat) {
    at + width <= |b| && forall k | 0 <= k < width :: b[at + k] == n / Power(k) % 0x100
  }

  /** "yas0017" stands there. */
  ghost predicate HoldsHeader(b: seq<Byte>, at: nat) {
    && at + 7 <= |b| && b[at] == 'y' as int && b[at + 1] == 'a' as int && b[at + 2] == 's' as int
    && b[at + 3] == '0' as int && b[at + 4] == '0' as int && b[at + 5] == '1' as int && b[at + 6] == '7' as int
  }

  lemma PackHolds(before: seq<Byte>, n: nat, width: nat, after: seq<Byte>)
    ensures Holds(before + (Pack(n, width) + after), |before|, width, n)
  {
    var b := before + (Pack(n, width) + after);
    forall k | 0 <= k < width
      ensures b[|before| + k] == n / Power(k) % 0x100
    {
      LittleEndian(n, width, k);
    }
  }

  // ── The frame ─────────────────────────────────────────────────────────────

  function TypeNumber<J>(data: Data<J>): nat {
    if data.Ring? then 1
    else if data.Json? then 2
    else if data.Binary? then 3
    else if data.Text? || data.Str? then 4
    else if data.Null? || data.NoneValue? then 5
    else 0
  }

  lemma FrameHolds(purpose: nat, typeId: nat, sender: seq<Byte>, payload: seq<Byte>)
    ensures var b := HEADER + (Pack(purpose, 2) + (Pack(typeId, 2) + (Pack(|sender|, 8) + (sender + payload))));
            && HoldsHeader(b, 0) && Holds(b, 7, 2, purpose) && Holds(b, 9, 2, typeId) && Holds(b, 11, 8, |sender|)
            && |b| == 19 + |sender| + |payload| && b[19..19 + |sender|] == sender && b[19 + |sender|..] == payload
  {
    var fourth := sender + payload;
    var third := Pack(|sender|, 8) + fourth;
    var second := Pack(typeId, 2) + third;
    PackHolds(HEADER, purpose, 2, second);
    Regroup(HEADER, Pack(purpose, 2), second);
    PackHolds(HEADER + Pack(purpose, 2), typeId, 2, third);
    Regroup(HEADER + Pack(purpose, 2), Pack(typeId, 2), third);
    PackHolds(HEADER + Pack(purpose, 2) + Pack(typeId, 2), |sender|, 8, fourth);
  }

  /** A message is "yas0017", the purpose and the number of the type in two bytes
      each, the length of the sender in eight, the sender in ASCII, and the
      payload; every number with its least significant byte first. */
  lemma MessageLayout<J>(m: Message<J>, codec: Codec<J>)
    requires Serialize(m, codec).Ok?
    ensures var b, n := Serialize(m, codec).value, |m.sender|;
            && HoldsHeader(b, 0)
            && Holds(b, 7, 2, m.purpose) && Holds(b, 9, 2, TypeNumber(m.data)) && Holds(b, 11, 8, n)
            && 19 + n <= |b| && (forall i | 0 <= i < n :: b[19 + i] == m.sender[i] as int)
            && Payload(m.data, codec) == Ok(b[19 + n..])
  {
    FrameHolds(m.purpose, TypeId(m.data).value, Ascii(m.sender), Payload(m.data, codec).value);
    var b, n := Serialize(m, codec).value, |m.sender|;
    forall i | 0 <= i < n
      ensures b[19 + i] == m.sender[i] as int
    {
      assert b[19 + i] == b[19..19 + n][i];
    }
  }

  /** The payload of a text, or of data as its JSON: "yas0017", the length of its
      UTF-8 in eight bytes, and that; binary as it is; and of nothing one zero. */
  lemma PayloadLayout<J>(data: Data<J>, codec: Codec<J>)
    requires Payload(data, codec).Ok?
    ensures var b := Payload(data, codec).value;
            match data
            case Ring(r) => HoldsRing(b, r)
            case Json(value) => HoldsText(b, codec.dumps(value))
            case Text(text) => HoldsText(b, text)
            case Str(text) => HoldsText(b, text)
            case Binary(bytes) => b == bytes
            case Null => b == [0]
            case NoneValue => b == [0]
            case Undefined => b == [0]
            case Unsupported => false
  {
    match data
    case Ring(r) => RingLayout(r);
    case Json(value) => TextLayout(codec.dumps(value));
    case Text(text) => TextLayout(text);
    case Str(text) => TextLayout(text);
    case _ =>
  }

  ghost predicate HoldsText(b: seq<Byte>, text: string) {
    HoldsHeader(b, 0) && Holds(b, 7, 8, Utf8Length(text)) && DecodeUtf8(b[15..]) == Some(text)
  }

  /** "yas0017", the number 1 in two bytes, the number of samples in eight, the
      samples of four bytes each, the buffer's id in four and its time in eight. */
  ghost predicate HoldsRing(b: seq<Byte>, r: RingBuffer) {
    var n := |r.samples|;
    && HoldsHeader(b, 0) && Holds(b, 7, 2, 1) && Holds(b, 9, 8, n / 4)
    && |b| == 17 + n + 12 && b[17..17 + n] == r.samples
    && Holds(b, 17 + n, 4, r.id) && Holds(b, 21 + n, 8, r.ts)
  }

  lemma TextLayout(text: string)
    ensures HoldsText(SizedText(Utf8(text)), text)
  {
    Utf8RoundTrip(text);
    PackHolds(HEADER, Utf8Length(text), 8, Utf8(text));
    Regroup(HEADER, Pack(Utf8Length(text), 8), Utf8(text));
    assert SizedText(Utf8(text))[15..] == Utf8(text);
  }

  lemma RingLayout(r: RingBuffer)
    ensures HoldsRing(RingPayload(r, 2), r)
  {
    var id, ts := Pack(r.id, 4), Pack(r.ts, 8);
    var third := r.samples + (id + ts);
    var second := Pack(NumSamples(r), 8) + third;
    PackHolds(HEADER, 1, 2, second);
    Regroup(HEADER, Pack(1, 2), second);
    PackHolds(HEADER + Pack(1, 2), NumSamples(r), 8, third);
    var front := HEADER + Pack(1, 2) + Pack(NumSamples(r), 8);
    Regroup(HEADER + Pack(1, 2), Pack(NumSamples(r), 8), third);
    Regroup(front, r.samples, id + ts);
    PackHolds(front + r.samples, r.id, 4, ts);
    Regroup(front + r.samples, id, ts);
    assert ts + [] == ts;
    PackHolds(front + r.samples + id, r.ts, 8, []);
    var b := front + r.samples + id + ts;
    assert b[17..17 + |r.samples|] == r.samples;
  }

  // ── Any bytes ─────────────────────────────────────────────────────────────

  /** The three letters in front are all of the header that is looked at: bytes
      without them are refused, and the version behind them changes nothing. */
  lemma OnlyTheLettersCount<J>(b: seq<Byte>, version: seq<Byte>, codec: Codec<J>)
    requires |b| >= 7 && |version| == 4
    ensures b[..3] != ['y' as int, 'a' as int, 's' as int] ==> Deserialize(b, codec) == Err(BadHeader)
    ensures Deserialize(b[..3] + version + b[7..], codec) == Deserialize(b, codec)
  {
    var c := b[..3] + version + b[7..];
    assert HEADER[..3] == ['y' as int, 'a' as int, 's' as int];
    assert c[..3] == b[..3];
    assert |c| == |b|;
    assert forall k | 7 <= k <= |b| :: c[k..] == b[k..];
    if |b| >= 19 {
      var length := Field(b[11..], 8);
      if |b| >= 19 + length {
        assert c[19..19 + length] == b[19..19 + length];
      }
    }
  }

  /** A sender is read byte by byte, what is no ASCII as the replacement
      character. */
  lemma SenderIsRead<J>(b: seq<Byte>, codec: Codec<J>)
    requires Deserialize(b, codec).Ok?
    ensures var sender := Deserialize(b, codec).value.sender;
            && 19 + |sender| <= |b| && |sender| == Unpack(b[11..19])
            && forall i | 0 <= i < |sender| ::
                 sender[i] as int == if b[19 + i] < 0x80 then b[19 + i] else 0xFFFD
  {
    assert b[11..][..8] == b[11..19];
  }
}
