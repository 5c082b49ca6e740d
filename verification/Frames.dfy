/** The control protocol: checksummed frames whose payload is a run of tagged fields. */
module Frames {
  import opened Types
  import opened Endian
  import opened Checksums

  const FRAME_MAGIC: Bytes := [70, 70, 80, 49]  // "FFP1"
  const FRAME_VERSION: u8 := 1
  const FIRST_TYPE: u8 := 1
  const LAST_TYPE: u8 := 27
  const MAX_PAYLOAD: nat := 0x100_0000
  const FRAME_HEADER: nat := 22
  const SHORTEST_FRAME: nat := 31

  /** A frame; `kind` is the byte of its message type, valid from HELLO (1) to ERROR_MSG (27). */
  datatype Frame = Frame(kind: u8, msgId: u32, epoch: u64, payload: Bytes)

  datatype FrameFault =
    | TooShort | BadMagic | UnsupportedVersion | InvalidType | PayloadTooLarge | LengthMismatch | ChecksumMismatch
    | TruncatedField | InvalidFieldType | FieldTooLarge | FieldExceedsPayload
    | MissingField | InvalidBoolValue

  // ----- frames ----------------------------------------------------------------------

  function FrameBody(f: Frame): (b: Bytes)
    ensures |b| == FRAME_HEADER + |f.payload|
  {
    FRAME_MAGIC + [FRAME_VERSION] + [f.kind] + LittleEndian(4, f.msgId) + LittleEndian(8, f.epoch)
      + LittleEndian(4, |f.payload|) + f.payload
  }

  function EncodeFrame(f: Frame): Result<Bytes, FrameFault> {
    if |f.payload| > MAX_PAYLOAD then Failure(PayloadTooLarge)
    else Success(FrameBody(f) + LittleEndian(4, Crc32(FrameBody(f))))
  }

  function DecodeFrame(data: Bytes): Result<Frame, FrameFault> {
    if |data| < SHORTEST_FRAME then Failure(TooShort)
    else if data[..4] != FRAME_MAGIC then Failure(BadMagic)
    else if data[4] != FRAME_VERSION then Failure(UnsupportedVersion)
    else if data[5] < FIRST_TYPE || data[5] > LAST_TYPE then Failure(InvalidType)
    else
      WidthFacts();
      var length := FromLittleEndian(data[18..FRAME_HEADER]);
      if length > MAX_PAYLOAD then Failure(PayloadTooLarge)
      else if FRAME_HEADER + length + 4 != |data| then Failure(LengthMismatch)
      else if Crc32(data[..FRAME_HEADER + length]) != FromLittleEndian(data[FRAME_HEADER + length..])
        then Failure(ChecksumMismatch)
      else Success(Frame(data[5], FromLittleEndian(data[6..10]), FromLittleEndian(data[10..18]),
                         data[FRAME_HEADER..FRAME_HEADER + length]))
  }

  /** Fills the send buffer field by field and closes it with its checksum. */
  method BuildFrame(f: Frame) returns (r: Result<Bytes, FrameFault>)
    ensures r == EncodeFrame(f)
  {
    hide Crc32, LittleEndian;
    var b := FRAME_MAGIC;
    b := b + [FRAME_VERSION];
    b := b + [f.kind];
    b := b + LittleEndian(4, f.msgId);
    b := b + LittleEndian(8, f.epoch);
    if |f.payload| > MAX_PAYLOAD {
      return Failure(PayloadTooLarge);
    }
    b := b + LittleEndian(4, |f.payload|);
    b := b + f.payload;
    assert b == FrameBody(f);
    var crc := ComputeCrc32(b);
    return Success(b + LittleEndian(4, crc));
  }

  /** Takes a received frame apart, check by check, with a running offset. */
  method OpenFrame(data: Bytes) returns (r: Result<Frame, FrameFault>)
    ensures r == DecodeFrame(data)
  {
    hide Crc32, FromLittleEndian;
    WidthFacts();
    if |data| < SHORTEST_FRAME {
      return Failure(TooShort);
    }
    if data[..4] != FRAME_MAGIC {
      return Failure(BadMagic);
    }
    var off := 4;
    if data[off] != FRAME_VERSION {
      return Failure(UnsupportedVersion);
    }
    off := off + 1;
    var kind := data[off];
    if kind < FIRST_TYPE || kind > LAST_TYPE {
      return Failure(InvalidType);
    }
    off := off + 1;
    var msgId := FromLittleEndian(data[off..off + 4]);
    off := off + 4;
    var epoch := FromLittleEndian(data[off..off + 8]);
    off := off + 8;
    var length := FromLittleEndian(data[off..off + 4]);
    off := off + 4;
    if length > MAX_PAYLOAD {
      return Failure(PayloadTooLarge);
    }
    if off + length + 4 != |data| {
      return Failure(LengthMismatch);
    }
    var crc := ComputeCrc32(data[..off + length]);
    if crc != FromLittleEndian(data[off + length..]) {
      return Failure(ChecksumMismatch);
    }
    return Success(Frame(kind, msgId, epoch, data[off..off + length]));
  }

  lemma FrameFields(f: Frame, rest: Bytes)
    requires |f.payload| <= MAX_PAYLOAD
    ensures var b := FrameBody(f) + rest;
            && b[..4] == FRAME_MAGIC && b[4] == FRAME_VERSION && b[5] == f.kind
            && FromLittleEndian(b[6..10]) == f.msgId && FromLittleEndian(b[10..18]) == f.epoch
            && FromLittleEndian(b[18..FRAME_HEADER]) == |f.payload|
            && b[FRAME_HEADER..FRAME_HEADER + |f.payload|] == f.payload
  {
    WidthFacts();
    var b := FrameBody(f) + rest;
    assert b[6..10] == LittleEndian(4, f.msgId);
    assert b[10..18] == LittleEndian(8, f.epoch);
    assert b[18..FRAME_HEADER] == LittleEndian(4, |f.payload|);
    LittleEndianRead(4, f.msgId);
    LittleEndianRead(8, f.epoch);
    LittleEndianRead(4, |f.payload|);
  }

  /** A frame survives the wire exactly when its type is a declared one and its payload has at
      least five bytes: the decoder asks for 31 bytes where an empty frame has 26. */
  lemma FrameRoundTrip(f: Frame)
    requires |f.payload| <= MAX_PAYLOAD
    ensures DecodeFrame(EncodeFrame(f).value) == Success(f) <==> FIRST_TYPE <= f.kind <= LAST_TYPE && |f.payload| >= 5
    ensures !(FIRST_TYPE <= f.kind <= LAST_TYPE && |f.payload| >= 5) ==> DecodeFrame(EncodeFrame(f).value).Failure?
  {
    hide FrameBody, Crc32, LittleEndian, FromLittleEndian;
    var body := FrameBody(f);
    var crc := LittleEndian(4, Crc32(body));
    var data := EncodeFrame(f).value;
    assert data[..|body|] == body && data[|body|..] == crc;
    FrameFields(f, crc);
    WidthFacts();
    LittleEndianRead(4, Crc32(body));
  }

  /** Whatever the decoder accepts is the encoding of what it returns. */
  lemma DecodeFrameAcceptsOnlyEncodings(data: Bytes)
    requires DecodeFrame(data).Success?
    ensures EncodeFrame(DecodeFrame(data).value) == Success(data)
  {
    hide Crc32, LittleEndian, FromLittleEndian;
    var f := DecodeFrame(data).value;
    var n := FRAME_HEADER + |f.payload|;
    LittleEndianWritten(data[6..10]);
    LittleEndianWritten(data[10..18]);
    LittleEndianWritten(data[18..FRAME_HEADER]);
    LittleEndianWritten(data[n..]);
    assert data[..n]
           == data[..4] + [data[4]] + [data[5]] + data[6..10] + data[10..18] + data[18..FRAME_HEADER] +
              data[FRAME_HEADER..n];
    assert data == data[..n] + data[n..];
  }

  /** No byte sequence that differs from an encoded frame in exactly one byte is accepted. */
  lemma OneByteFrameCorruptionRejected(f: Frame, corrupt: Bytes, p: nat)
    requires EncodeFrame(f).Success? && DifferOnlyAt(EncodeFrame(f).value, corrupt, p)
    ensures DecodeFrame(corrupt).Failure?
  {
    hide Crc, FromLittleEndian, LittleEndian, FrameBody;
    if DecodeFrame(corrupt).Success? {
      var body := FrameBody(f);
      var n := |body|;
      var data := EncodeFrame(f).value;
      assert data[..n] == body && data[n..] == LittleEndian(4, Crc32(body));
      WidthFacts();
      LittleEndianRead(4, Crc32(body));
      assert n == FRAME_HEADER + |DecodeFrame(corrupt).value.payload|;
      if p < n {
        assert data[n..] == corrupt[n..];
        CrcDetectsOneByte(0xFFFF_FFFF, body, corrupt[..n], p);
      } else {
        assert corrupt[..n] == body;
        assert data[n..][p - n] != corrupt[n..][p - n];
        LittleEndianWritten(corrupt[n..]);
      }
    }
  }

  // ----- tagged fields ---------------------------------------------------------------

  /** What a writer call puts into a field. */
  datatype FieldValue =
    | U8(u8: u8) | U32(u32: u32) | U64(u64: u64) | Bool(b: bool) | I64(i64: i64)
    | F64(bits: DoubleBits) | Str(text: Bytes) | Blob(bytes: Bytes)

  function TypeCode(v: FieldValue): (c: u8)
    ensures c <= 7
  {
    match v
    case U8(_) => 0 case U32(_) => 1 case U64(_) => 2 case Bool(_) => 3
    case I64(_) => 4 case F64(_) => 5 case Str(_) => 6 case Blob(_) => 7
  }

  function ValueBytes(v: FieldValue): Bytes {
    match v
    case U8(x) => [x]
    case U32(x) => LittleEndian(4, x)
    case U64(x) => LittleEndian(8, x)
    case Bool(x) => [if x then 1 else 0]
    case I64(x) => LittleEndian(8, if x < 0 then x + U64_LIMIT else x)
    case F64(x) => LittleEndian(8, x)
    case Str(x) => x
    case Blob(x) => x
  }

  datatype Written = Written(id: u8, value: FieldValue)

  datatype Field = Field(id: u8, kind: u8, bytes: Bytes)

  function FieldOf(w: Written): Field {
    Field(w.id, TypeCode(w.value), ValueBytes(w.value))
  }

  /** One writer call: the size checks come before and after the header is appended. */
  function Append(buf: Bytes, w: Written): Result<Bytes, FrameFault> {
    var value := ValueBytes(w.value);
    if |value| > MAX_PAYLOAD then Failure(FieldTooLarge)
    else if |buf| + 6 > MAX_PAYLOAD then Failure(PayloadTooLarge)
    else Success(buf + [w.id, TypeCode(w.value)] + LittleEndian(4, |value|) + value)
  }

  function AppendAll(buf: Bytes, ws: seq<Written>): Result<Bytes, FrameFault>
    decreases |ws|
  {
    if ws == [] then Success(buf)
    else
      match Append(buf, ws[0])
      case Failure(e) => Failure(e)
      case Success(b) => AppendAll(b, ws[1..])
  }

  class PayloadWriter {
    var buf: Bytes

    constructor ()
      ensures buf == []
    {
      buf := [];
    }

    /** The writer's eight typed calls. A refused header has already been appended. */
    method Write(w: Written) returns (fault: Option<FrameFault>)
      modifies this
      ensures fault.None? ==> Append(old(buf), w) == Success(buf)
      ensures fault.Some? ==> Append(old(buf), w) == Failure(fault.value) && old(buf) <= buf
    {
      var value := ValueBytes(w.value);
      if |value| > MAX_PAYLOAD {
        return Some(FieldTooLarge);
      }
      buf := buf + [w.id, TypeCode(w.value)] + LittleEndian(4, |value|);
      if |buf| > MAX_PAYLOAD {
        return Some(PayloadTooLarge);
      }
      buf := buf + value;
      return None;
    }
  }

  /** The reader's scan from offset `i`. */
  function Parse(data: Bytes, i: nat): Result<seq<Field>, FrameFault>
    requires i <= |data|
    decreases |data| - i
  {
    if i == |data| then Success([])
    else if i + 6 > |data| then Failure(TruncatedField)
    else
      var size := FromLittleEndian(data[i + 2..i + 6]);
      if data[i + 1] > 7 then Failure(InvalidFieldType)
      else if size > MAX_PAYLOAD then Failure(FieldTooLarge)
      else if i + 6 + size > |data| then Failure(FieldExceedsPayload)
      else
        match Parse(data, i + 6 + size)
        case Failure(e) => Failure(e)
        case Success(fs) => Success([Field(data[i], data[i + 1], data[i + 6..i + 6 + size])] + fs)
  }

  method ParseFields(data: Bytes) returns (r: Result<seq<Field>, FrameFault>)
    ensures r == Parse(data, 0)
  {
    var i := 0;
    var fields: seq<Field> := [];
    assert forall fs: seq<Field> :: [] + fs == fs;
    while i < |data|
      invariant i <= |data|
      invariant Parse(data, 0)
                == match Parse(data, i) case Failure(e) => Failure(e) case Success(fs) => Success(fields + fs)
    {
      if i + 6 > |data| {
        return Failure(TruncatedField);
      }
      var id, kind := data[i], data[i + 1];
      var size := FromLittleEndian(data[i + 2..i + 6]);
      if kind > 7 {
        return Failure(InvalidFieldType);
      }
      if size > MAX_PAYLOAD {
        return Failure(FieldTooLarge);
      }
      if i + 6 + size > |data| {
        return Failure(FieldExceedsPayload);
      }
      ghost var before := fields;
      fields := fields + [Field(id, kind, data[i + 6..i + 6 + size])];
      assert forall fs: seq<Field> :: before + ([Field(id, kind, data[i + 6..i + 6 + size])] + fs) == fields + fs;
      i := i + 6 + size;
    }
    assert fields + [] == fields;
    r := Success(fields);
  }

  function First(fs: seq<Field>, id: u8): Option<Field> {
    if fs == [] then None else if fs[0].id == id then Some(fs[0]) else First(fs[1..], id)
  }

  method Find(fs: seq<Field>, id: u8) returns (r: Option<Field>)
    ensures r == First(fs, id)
  {
    for k := 0 to |fs|
      invariant First(fs[k..], id) == First(fs, id)
    {
      if fs[k].id == id {
        return Some(fs[k]);
      }
    }
    r := None;
  }

  /** The typed getters: `kind` selects which one. */
  function Read(fs: seq<Field>, id: u8, kind: u8): Result<FieldValue, FrameFault>
    requires kind <= 7
  {
    match First(fs, id)
    case None => Failure(MissingField)
    case Some(f) =>
      if f.kind != kind then Failure(MissingField) else ReadValue(kind, f.bytes)
  }

  function ReadValue(kind: u8, b: Bytes): Result<FieldValue, FrameFault>
    requires kind <= 7
  {
    WidthFacts();
    if kind == 6 then Success(Str(b))
    else if kind == 7 then Success(Blob(b))
    else if |b| != [1, 4, 8, 1, 8, 8][kind] then Failure(MissingField)
    else if kind == 0 then Success(U8(b[0]))
    else if kind == 1 then Success(U32(FromLittleEndian(b)))
    else if kind == 2 then Success(U64(FromLittleEndian(b)))
    else if kind == 3 then (if b[0] > 1 then Failure(InvalidBoolValue) else Success(Bool(b[0] == 1)))
    else if kind == 4 then (var v := FromLittleEndian(b); Success(I64(if v < I64_LIMIT then v else v - U64_LIMIT)))
    else Success(F64(FromLittleEndian(b)))
  }

  lemma ValueReadsBack(v: FieldValue)
    ensures ReadValue(TypeCode(v), ValueBytes(v)) == Success(v)
  {
    WidthFacts();
    match v {
      case U32(x) => LittleEndianRead(4, x);
      case U64(x) => LittleEndianRead(8, x);
      case I64(x) => LittleEndianRead(8, if x < 0 then x + U64_LIMIT else x);
      case F64(x) => LittleEndianRead(8, x);
      case _ =>
    }
  }

  function FieldsOf(ws: seq<Written>): seq<Field> {
    if ws == [] then [] else [FieldOf(ws[0])] + FieldsOf(ws[1..])
  }

  lemma {:induction false} AppendAllExtends(buf: Bytes, ws: seq<Written>)
    requires AppendAll(buf, ws).Success?
    ensures buf <= AppendAll(buf, ws).value
    ensures |AppendAll(buf, ws).value| >= |buf| + 6 * |ws|
    decreases |ws|
  {
    if ws != [] {
      AppendAllExtends(Append(buf, ws[0]).value, ws[1..]);
    }
  }

  lemma AppendedHeader(buf: Bytes, w: Written, all: Bytes)
    requires Append(buf, w).Success? && Append(buf, w).value <= all
    ensures var i, n := |buf|, |ValueBytes(w.value)|;
            && n <= MAX_PAYLOAD && i + 6 + n <= |all| && |Append(buf, w).value| == i + 6 + n
            && all[i] == w.id && all[i + 1] == TypeCode(w.value)
            && FromLittleEndian(all[i + 2..i + 6]) == n && all[i + 6..i + 6 + n] == ValueBytes(w.value)
  {
    var i, value := |buf|, ValueBytes(w.value);
    var b := Append(buf, w).value;
    assert b[i + 2..i + 6] == LittleEndian(4, |value|) && b[i + 6..i + 6 + |value|] == value;
    assert all[i + 2..i + 6] == b[i + 2..i + 6] && all[i + 6..i + 6 + |value|] == b[i + 6..i + 6 + |value|];
    WidthFacts();
    LittleEndianRead(4, |value|);
  }

  /** Reading from where writing began gives back the written fields, in order. */
  lemma {:induction false} ParseInvertsAppendAll(buf: Bytes, ws: seq<Written>)
    requires AppendAll(buf, ws).Success?
    ensures buf <= AppendAll(buf, ws).value
    ensures Parse(AppendAll(buf, ws).value, |buf|) == Success(FieldsOf(ws))
    decreases |ws|
  {
    hide Append, FromLittleEndian, ValueBytes, TypeCode;
    AppendAllExtends(buf, ws);
    if ws != [] {
      var b := Append(buf, ws[0]).value;
      AppendAllExtends(b, ws[1..]);
      AppendedHeader(buf, ws[0], AppendAll(buf, ws).value);
      ParseInvertsAppendAll(b, ws[1..]);
    }
  }

  function FirstWritten(ws: seq<Written>, id: u8): Option<FieldValue> {
    if ws == [] then None else if ws[0].id == id then Some(ws[0].value) else FirstWritten(ws[1..], id)
  }

  lemma {:induction false} FirstFieldWritten(ws: seq<Written>, id: u8)
    ensures First(FieldsOf(ws), id) ==
            match FirstWritten(ws, id) case None => None case Some(v) => Some(Field(id, TypeCode(v), ValueBytes(v)))
  {
    if ws != [] {
      FirstFieldWritten(ws[1..], id);
      assert FieldsOf(ws)[1..] == FieldsOf(ws[1..]);
    }
  }

  /** For any accepted run of writer calls, each getter returns the first value written under
      its field id when that value has the getter's type, and reports the field missing otherwise. */
  lemma PayloadRoundTrip(ws: seq<Written>, id: u8, kind: u8)
    requires AppendAll([], ws).Success? && kind <= 7
    ensures Parse(AppendAll([], ws).value, 0).Success?
    ensures Read(Parse(AppendAll([], ws).value, 0).value, id, kind) ==
            match FirstWritten(ws, id)
            case None => Failure(MissingField)
            case Some(v) => if TypeCode(v) == kind then Success(v) else Failure(MissingField)
  {
    hide ReadValue, ValueBytes;
    ParseInvertsAppendAll([], ws);
    FirstFieldWritten(ws, id);
    if FirstWritten(ws, id).Some? {
      ValueReadsBack(FirstWritten(ws, id).value);
    }
  }

  /** A message with at least one field reaches its reader unchanged. */
  lemma MessageRoundTrip(kind: u8, msgId: u32, epoch: u64, ws: seq<Written>)
    requires FIRST_TYPE <= kind <= LAST_TYPE && ws != []
    requires AppendAll([], ws).Success? && |AppendAll([], ws).value| <= MAX_PAYLOAD
    ensures var f := Frame(kind, msgId, epoch, AppendAll([], ws).value);
            && DecodeFrame(EncodeFrame(f).value) == Success(f)
            && Parse(f.payload, 0) == Success(FieldsOf(ws))
  {
    hide EncodeFrame, DecodeFrame, Append, Parse;
    ParseInvertsAppendAll([], ws);
    AppendAllExtends([], ws);
    FrameRoundTrip(Frame(kind, msgId, epoch, AppendAll([], ws).value));
  }
}
