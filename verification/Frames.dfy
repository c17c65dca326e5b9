/** FLAP framing (wire/frames.go): numbered frames on a byte stream, with SNACs inside data frames. */
module Frames {
  import opened Wrappers
  import opened Bytes
  import opened Codec
  import opened RoundTrip
  import opened Canonical
  import opened Tlv
  import opened Marshaller

  const FLAP_SIGNON: byte := 1
  const FLAP_DATA: byte := 2
  const FLAP_SIGNOFF: byte := 4
  const FLAP_KEEP_ALIVE: byte := 5

  const FLAP_FRAME: Schema := Struct(None, [UInt(1), UInt(1), UInt(2), BYTE_SLICE])
  const FLAP_FRAME_DISCONNECT: Schema := Struct(None, [UInt(1), UInt(1), UInt(2)])
  const SNAC_FRAME: Schema := Struct(None, [UInt(2), UInt(2), UInt(2), UInt(4)])
  const FLAP_SIGNON_FRAME: Schema := Struct(None, [UInt(4), TLV_REST_BLOCK])

  datatype Frame = Frame(frameType: byte, sequence: nat, payload: seq<byte>) {
    /** Start marker, type, sequence number, payload length, payload. */
    function AsValue(): Value {
      VList([VInt(42), VInt(frameType), VInt(sequence), VList(ToBytes(payload))])
    }

    predicate Numbered() { sequence < 65536 }
  }

  /** What a call of a sender hands over. */
  datatype Sent = Sent(frameType: byte, payload: seq<byte>)

  function FrameOf(v: Value): Frame
    requires Typed(FLAP_FRAME, v)
  {
    FrameShape(v);
    Frame(v.vs[1].n, v.vs[2].n, OfBytes(v.vs[3].vs))
  }

  // ---------------------------------------------------------------- single frames

  lemma FLAPShape()
    ensures Canon(FLAP_FRAME)
  {
    FieldsCanonAll(FLAP_FRAME.fields);
  }

  lemma FrameShape(v: Value)
    requires Typed(FLAP_FRAME, v)
    ensures v.VList? && |v.vs| == 4
    ensures v.vs[0].VInt? && v.vs[1].VInt? && v.vs[1].n < 256 && v.vs[2].VInt? && v.vs[2].n < 65536
    ensures v.vs[3].VList? && AllTyped(UInt(1), v.vs[3].vs)
  {
    OneByte(0, BigEndian);
    TwoBytes();
    var vs := v.vs;
    FieldsTypedAll(FLAP_FRAME.fields, vs);
    assert Typed(UInt(1), vs[0]) && Typed(UInt(1), vs[1]) && Typed(UInt(2), vs[2]) && Typed(BYTE_SLICE, vs[3]);
  }

  /** The last two fields of a frame. */
  lemma PayloadFields(sequence: nat, payload: seq<byte>)
    requires sequence < 65536
    ensures var fs, vs := [UInt(2), BYTE_SLICE], [VInt(sequence), VList(ToBytes(payload))];
            FieldsTyped(fs, vs)
            && (FieldsFit(fs, vs, BigEndian) <==> |payload| <= 65535)
            && EncFields(fs, vs, BigEndian) == Some(PutBE(sequence, 2) + (PutBE(|payload|, 2) + payload))
  {
    TwoBytes();
    BlobEncoding(payload, BigEndian);
    var v := VList(ToBytes(payload));
    FieldsCons(BYTE_SLICE, [], v, [], BigEndian);
    assert [BYTE_SLICE] + [] == [BYTE_SLICE] && [v] + [] == [v];
    assert Enc(BYTE_SLICE, v, BigEndian).value + [] == PutBE(|payload|, 2) + payload;
    FieldsCons(UInt(2), [BYTE_SLICE], VInt(sequence), [v], BigEndian);
    assert [UInt(2)] + [BYTE_SLICE] == [UInt(2), BYTE_SLICE] && [VInt(sequence)] + [v] == [VInt(sequence), v];
  }

  /** A one-byte field in front. */
  lemma ByteField(b: byte, fs: seq<Schema>, vs: seq<Value>, body: seq<byte>)
    requires FieldsTyped(fs, vs) && EncFields(fs, vs, BigEndian) == Some(body)
    ensures FieldsTyped([UInt(1)] + fs, [VInt(b)] + vs)
    ensures FieldsFit([UInt(1)] + fs, [VInt(b)] + vs, BigEndian) <==> FieldsFit(fs, vs, BigEndian)
    ensures EncFields([UInt(1)] + fs, [VInt(b)] + vs, BigEndian) == Some([b] + body)
  {
    OneByte(b, BigEndian);
    FieldsCons(UInt(1), fs, VInt(b), vs, BigEndian);
  }

  /** A frame is typed; it fits its length prefix exactly when its payload has at most 65535 bytes. */
  lemma FrameFits(f: Frame)
    requires f.Numbered()
    ensures Typed(FLAP_FRAME, f.AsValue()) && FrameOf(f.AsValue()) == f
    ensures Fits(FLAP_FRAME, f.AsValue(), BigEndian) <==> |f.payload| <= 65535
    ensures Enc(FLAP_FRAME, f.AsValue(), BigEndian) == Some(FrameBytes(f))
  {
    PayloadFields(f.sequence, f.payload);
    var fs, vs := [UInt(2), BYTE_SLICE], [VInt(f.sequence), VList(ToBytes(f.payload))];
    var body := EncFields(fs, vs, BigEndian).value;
    ByteField(f.frameType, fs, vs, body);
    ByteField(42, [UInt(1)] + fs, [VInt(f.frameType)] + vs, [f.frameType] + body);
    assert [UInt(1)] + ([UInt(1)] + fs) == FLAP_FRAME.fields;
    assert [VInt(42)] + ([VInt(f.frameType)] + vs) == f.AsValue().vs;
    assert [42] + ([f.frameType] + body) == FrameBytes(f);
    BytesAreRaw(f.payload, BigEndian);
  }

  function FrameBytes(f: Frame): seq<byte> {
    [42, f.frameType] + PutBE(f.sequence, 2) + PutBE(|f.payload|, 2) + f.payload
  }

  // ---------------------------------------------------------------- streams

  /** The frames a client numbers from `start` on; only the low 16 bits of the counter travel. */
  function Numbered(start: nat, sends: seq<Sent>): (fs: seq<Frame>)
    ensures |fs| == |sends|
    ensures forall i | 0 <= i < |fs| :: fs[i] == Frame(sends[i].frameType, (start + i) % 65536, sends[i].payload)
    decreases |sends|
  {
    if sends == [] then [] else
    [Frame(sends[0].frameType, start % 65536, sends[0].payload)] + Numbered(start + 1, sends[1..])
  }

  function StreamOf(fs: seq<Frame>): seq<byte> {
    if fs == [] then [] else FrameBytes(fs[0]) + StreamOf(fs[1..])
  }

  /** `ReceiveFLAP`, as a function of the bytes in the reader. */
  function DecFrame(r: seq<byte>): Read<Frame> {
    match Dec(FLAP_FRAME, r, BigEndian)
    case Done(v, rest) =>
      FLAPShape();
      EncodeDecode(FLAP_FRAME, r, BigEndian);
      Done(FrameOf(v), rest)
    case Fail(e, rest) => Fail(e, rest)
  }

  /** `n` frames read one after the other. */
  function DecFrames(n: nat, r: seq<byte>): Read<seq<Frame>> {
    if n == 0 then Done([], r) else
    match DecFrame(r)
    case Fail(e, rest) => Fail(e, rest)
    case Done(f, rest) =>
      match DecFrames(n - 1, rest)
      case Fail(e, rest') => Fail(e, rest')
      case Done(fs, rest') => Done([f] + fs, rest')
  }

  /** A frame with an overlong payload desynchronizes its reader; any other frame arrives as sent. */
  lemma FrameArrives(f: Frame, rest: seq<byte>)
    requires f.Numbered()
    ensures |f.payload| <= 65535 ==> DecFrame(FrameBytes(f) + rest) == Done(f, rest)
    ensures |f.payload| > 65535 && DecFrame(FrameBytes(f) + rest).Done? ==> DecFrame(FrameBytes(f) + rest).value != f
  {
    FLAPShape();
    FrameFits(f);
    var r := FrameBytes(f) + rest;
    RoundTripsIffFits(FLAP_FRAME, f.AsValue(), rest, BigEndian);
    if Dec(FLAP_FRAME, r, BigEndian).Done? {
      var v := Dec(FLAP_FRAME, r, BigEndian).value;
      EncodeDecode(FLAP_FRAME, r, BigEndian);
      FrameShape(v);
      LenField(v, BigEndian);
    }
  }

  /** The payload of a value that fits a frame has at most 65535 bytes. */
  lemma LenField(v: Value, o: Order)
    requires Typed(FLAP_FRAME, v) && Fits(FLAP_FRAME, v, o)
    ensures |FrameOf(v).payload| <= 65535
  {
    TwoBytes();
    FrameShape(v);
    FieldFits(FLAP_FRAME.fields, v.vs, o, 3);
    assert Fits(BYTE_SLICE, v.vs[3], o);
    BytesAreRaw(OfBytes(v.vs[3].vs), o);
  }

  /**
   A stream of sends decodes, frame by frame and to the last byte, into the same
   types and payloads with consecutive 16-bit sequence numbers, exactly when
   every payload has at most 65535 bytes.
   */
  lemma {:induction false} StreamArrives(start: nat, sends: seq<Sent>)
    ensures (forall s <- sends :: |s.payload| <= 65535)
       <==> DecFrames(|sends|, StreamOf(Numbered(start, sends))) == Done(Numbered(start, sends), [])
    decreases |sends|
  {
    if sends != [] {
      var fs := Numbered(start, sends);
      assert fs[1..] == Numbered(start + 1, sends[1..]);
      FrameArrives(fs[0], StreamOf(fs[1..]));
      StreamArrives(start + 1, sends[1..]);
      assert fs == [fs[0]] + fs[1..];
      assert sends == [sends[0]] + sends[1..];
      var d := DecFrames(|sends|, StreamOf(fs));
      if d == Done(fs, []) {
        var h := DecFrame(StreamOf(fs));
        assert h.value == d.value[0] == fs[0];
        assert DecFrames(|sends| - 1, h.rest).value == d.value[1..];
      }
    }
  }

  lemma {:induction false} StreamAppend(fs: seq<Frame>, f: Frame)
    ensures StreamOf(fs + [f]) == StreamOf(fs) + FrameBytes(f)
    decreases |fs|
  {
    if fs == [] {
      StreamOne(f);
      assert fs + [f] == [f];
      Assoc([], [], FrameBytes(f));
    } else {
      StreamAppend(fs[1..], f);
      assert (fs + [f])[1..] == fs[1..] + [f];
      Assoc(FrameBytes(fs[0]), StreamOf(fs[1..]), FrameBytes(f));
    }
  }

  lemma StreamOne(f: Frame)
    ensures StreamOf([f]) == FrameBytes(f)
  {
    assert [f][1..] == [];
    assert FrameBytes(f) + [] == FrameBytes(f);
  }

  lemma NumberedAppend(start: nat, log: seq<Sent>, s: Sent)
    ensures Numbered(start, log + [s]) == Numbered(start, log) + [Frame(s.frameType, (start + |log|) % 65536, s.payload)]
  {
  }

  /** A uint32 counter shows the low 16 bits of the count, and wraps with it. */
  lemma CounterWraps(n: nat)
    ensures (n % UINT32) % 65536 == n % 65536 && (n + 1) % UINT32 == (n % UINT32 + 1) % UINT32
  {
  }

  /** Sending once more adds one frame, numbered by a counter that wraps at 2^32. */
  lemma LogAppend(start: nat, log: seq<Sent>, s: Sent)
    ensures var counter := (start + |log|) % UINT32;
            StreamOf(Numbered(start, log + [s]))
            == StreamOf(Numbered(start, log)) + FrameBytes(Frame(s.frameType, counter % 65536, s.payload))
    ensures (start + |log| + 1) % UINT32 == ((start + |log|) % UINT32 + 1) % UINT32
  {
    CounterWraps(start + |log|);
    NumberedAppend(start, log, s);
    StreamAppend(Numbered(start, log), Frame(s.frameType, (start + |log|) % 65536, s.payload));
  }

  // ---------------------------------------------------------------- SNACs

  /** `ReceiveSNAC`: a frame, then a SNAC header and a body out of its payload. */
  function DecSNAC(body: Schema, r: seq<byte>): Read<(Value, Value)> {
    match DecFrame(r)
    case Fail(e, rest) => Fail(e, rest)
    case Done(f, rest) =>
      match Dec(SNAC_FRAME, f.payload, BigEndian)
      case Fail(e, _) => Fail(e, rest)
      case Done(h, payload) =>
        match Dec(body, payload, BigEndian)
        case Fail(e, _) => Fail(e, rest)
        case Done(b, _) => Done((h, b), rest)
  }

  lemma SNACShape()
    ensures WellFormed(SNAC_FRAME, false)
  {
    FieldsCanonAll(SNAC_FRAME.fields);
    CanonWellFormed(SNAC_FRAME, false);
  }

  lemma {:induction false} IntsFit(fs: seq<Schema>, vs: seq<Value>, o: Order)
    requires FieldsTyped(fs, vs) && forall f <- fs :: f.UInt?
    ensures FieldsFit(fs, vs, o)
    decreases |fs|
  {
    if fs != [] {
      IntsFit(fs[1..], vs[1..], o);
    }
  }

  /** A SNAC whose body round-trips in tail position arrives with its header, whatever follows in the stream. */
  lemma SNACArrives(header: Value, body: Schema, v: Value, sequence: nat, rest: seq<byte>)
    requires Typed(SNAC_FRAME, header) && sequence < 65536
    requires WellFormed(body, true) && Typed(body, v) && Fits(body, v, BigEndian)
    ensures var payload := SNACPayload(header, body, v);
            payload.Some? && (|payload.value| <= 65535
            ==> DecSNAC(body, FrameBytes(Frame(FLAP_DATA, sequence, payload.value)) + rest) == Done((header, v), rest))
  {
    SNACShape();
    IntsFit(SNAC_FRAME.fields, header.vs, BigEndian);
    DecodeEncode(body, v, true, [], BigEndian);
    var b := Enc(body, v, BigEndian).value;
    assert b + [] == b;
    DecodeEncode(SNAC_FRAME, header, false, b, BigEndian);
    FrameArrives(Frame(FLAP_DATA, sequence, SNACPayload(header, body, v).value), rest);
  }

  // ---------------------------------------------------------------- the client

  method MarshalFrame(f: Frame, w: Stream)
    requires f.Numbered()
    modifies w
    ensures w.data == old(w.data) + FrameBytes(f)
  {
    FrameFits(f);
    var ok := Marshal(FLAP_FRAME, f.AsValue(), w, BigEndian);
  }

  /** Header and body one after the other. */
  function SNACPayload(header: Value, body: Schema, v: Value): Option<seq<byte>>
    requires Typed(SNAC_FRAME, header) && Typed(body, v)
  {
    Join(Enc(SNAC_FRAME, header, BigEndian), Enc(body, v, BigEndian))
  }

  method MarshalSNAC(header: Value, body: Schema, v: Value) returns (payload: Option<seq<byte>>)
    requires Typed(SNAC_FRAME, header) && Typed(body, v)
    ensures payload == SNACPayload(header, body, v)
  {
    var buf := new Stream([]);
    var ok := Marshal(SNAC_FRAME, header, buf, BigEndian);
    if !ok {
      return None;
    }
    var h := buf.data;
    assert h == Enc(SNAC_FRAME, header, BigEndian).value;
    ok := Marshal(body, v, buf, BigEndian);
    payload := if ok then Some(buf.data) else None;
  }

  const UINT32: nat := 0x1_0000_0000

  class FlapClient {
    var sequence: nat
    const r: Stream
    const w: Stream

    // what was sent so far, the counter it started from and what the writer held before
    ghost const start: nat
    ghost const before: seq<byte>
    ghost var log: seq<Sent>

    /** The counter is a uint32; the writer holds the frames of the log, numbered from the start value. */
    ghost predicate Valid()
      reads this, w
    {
      && r != w
      && sequence == (start + |log|) % UINT32
      && w.data == before + StreamOf(Numbered(start, log))
    }

    constructor (startSeq: nat, r: Stream, w: Stream)
      requires startSeq < UINT32 && r != w
      ensures Valid() && log == [] && sequence == start == startSeq && this.r == r && this.w == w && before == w.data
    {
      this.sequence := startSeq;
      this.r := r;
      this.w := w;
      this.start := startSeq;
      this.before := w.data;
      this.log := [];
      new;
      assert w.data == w.data + [];
    }

    /** Marshals one frame and counts it, as every sender does. */
    method Send(frameType: byte, payload: seq<byte>)
      requires Valid()
      modifies this`sequence, this`log, w
      ensures Valid() && log == old(log) + [Sent(frameType, payload)]
    {
      var flap := Frame(frameType, sequence % 65536, payload);
      MarshalFrame(flap, w);
      sequence := (sequence + 1) % UINT32;
      log := log + [Sent(frameType, payload)];
      LogAppend(start, old(log), Sent(frameType, payload));
      Assoc(before, StreamOf(Numbered(start, old(log))), FrameBytes(flap));
    }

    method SendDataFrame(payload: seq<byte>)
      requires Valid()
      modifies this`sequence, this`log, w
      ensures Valid() && log == old(log) + [Sent(FLAP_DATA, payload)]
    {
      Send(FLAP_DATA, payload);
    }

    method SendKeepAliveFrame()
      requires Valid()
      modifies this`sequence, this`log, w
      ensures Valid() && log == old(log) + [Sent(FLAP_KEEP_ALIVE, [])]
    {
      Send(FLAP_KEEP_ALIVE, []);
    }

    /** The signon frame carries version 1 and a TLV block. */
    method SendSignonFrame(tlvs: seq<Item>) returns (ok: bool)
      requires Valid() && forall t <- tlvs :: t.Tagged()
      modifies this`sequence, this`log, w
      ensures Valid() && ok && log == old(log) + [Sent(FLAP_SIGNON, PutBE(1, 4) + WireAll(tlvs, BigEndian))]
    {
      SignonEncoding(tlvs);
      var buf := new Stream([]);
      ok := Marshal(FLAP_SIGNON_FRAME, VList([VInt(1), VList([VList(AsValues(tlvs))])]), buf, BigEndian);
      assert buf.data == PutBE(1, 4) + WireAll(tlvs, BigEndian);
      Send(FLAP_SIGNON, buf.data);
    }

    method NewSignoff(tlvs: seq<Item>) returns (ok: bool)
      requires Valid() && forall t <- tlvs :: t.Tagged()
      modifies this`sequence, this`log, w
      ensures Valid() && ok && log == old(log) + [Sent(FLAP_SIGNOFF, WireAll(tlvs, BigEndian))]
    {
      RestBlockEncoding(tlvs);
      var buf := new Stream([]);
      ok := Marshal(TLV_REST_BLOCK, VList([VList(AsValues(tlvs))]), buf, BigEndian);
      assert buf.data == WireAll(tlvs, BigEndian);
      Send(FLAP_SIGNOFF, buf.data);
    }

    /** Nothing is sent or counted when the body does not marshal. */
    method SendSNAC(header: Value, body: Schema, v: Value) returns (ok: bool)
      requires Valid() && Typed(SNAC_FRAME, header) && Typed(body, v)
      modifies this`sequence, this`log, w
      ensures Valid()
      ensures var payload := SNACPayload(header, body, v);
        ok == payload.Some? && log == if ok then old(log) + [Sent(FLAP_DATA, payload.value)] else old(log)
    {
      var payload := MarshalSNAC(header, body, v);
      ok := payload.Some?;
      if ok {
        Send(FLAP_DATA, payload.value);
      }
    }

    /** The last frame for old clients has no length field and is not counted. */
    method OldSignoff()
      modifies w
      ensures w.data == old(w.data) + SignoffBytes(sequence % 65536)
    {
      SignoffEncoding(sequence % 65536);
      var ok := Marshal(FLAP_FRAME_DISCONNECT, VList([VInt(42), VInt(FLAP_SIGNOFF), VInt(sequence % 65536)]), w, BigEndian);
    }

    method ReceiveFLAP() returns (res: Outcome<Frame>)
      modifies r
      ensures res.Left(r.data) == DecFrame(old(r.data))
    {
      var v := Unmarshal(FLAP_FRAME, r, BigEndian);
      if v.Error? {
        return Error(v.err);
      }
      FLAPShape();
      EncodeDecode(FLAP_FRAME, old(r.data), BigEndian);
      res := Ok(FrameOf(v.value));
    }

    method ReceiveSNAC(body: Schema) returns (res: Outcome<(Value, Value)>)
      modifies r
      ensures res.Left(r.data) == DecSNAC(body, old(r.data))
    {
      var flap := ReceiveFLAP();
      if flap.Error? {
        return Error(flap.err);
      }
      var buf := new Stream(flap.value.payload);
      var header := Unmarshal(SNAC_FRAME, buf, BigEndian);
      if header.Error? {
        return Error(header.err);
      }
      var v := Unmarshal(body, buf, BigEndian);
      if v.Error? {
        return Error(v.err);
      }
      res := Ok((header.value, v.value));
    }
  }

  function SignoffBytes(sequence: nat): seq<byte> {
    [42, FLAP_SIGNOFF] + PutBE(sequence, 2)
  }

  lemma SignoffEncoding(sequence: nat)
    requires sequence < 65536
    ensures var v := VList([VInt(42), VInt(FLAP_SIGNOFF), VInt(sequence)]);
            Typed(FLAP_FRAME_DISCONNECT, v) && Enc(FLAP_FRAME_DISCONNECT, v, BigEndian) == Some(SignoffBytes(sequence))
  {
    TwoBytes();
    var fs, vs := [UInt(2)], [VInt(sequence)];
    FieldsCons(UInt(2), [], VInt(sequence), [], BigEndian);
    assert [UInt(2)] + [] == fs && [VInt(sequence)] + [] == vs && PutBE(sequence, 2) + [] == PutBE(sequence, 2);
    ByteField(FLAP_SIGNOFF, fs, vs, PutBE(sequence, 2));
    ByteField(42, [UInt(1)] + fs, [VInt(FLAP_SIGNOFF)] + vs, [FLAP_SIGNOFF] + PutBE(sequence, 2));
    assert [UInt(1)] + ([UInt(1)] + fs) == [UInt(1), UInt(1), UInt(2)];
    assert [VInt(42)] + ([VInt(FLAP_SIGNOFF)] + vs) == [VInt(42), VInt(FLAP_SIGNOFF), VInt(sequence)];
    assert [42] + ([FLAP_SIGNOFF] + PutBE(sequence, 2)) == SignoffBytes(sequence);
  }

  /** To a receiver the old signoff is the end of the stream: the missing length field reads as `EOF`. */
  lemma OldSignoffEndsStream(sequence: nat)
    requires sequence < 65536
    ensures DecFrame(SignoffBytes(sequence)) == Fail(EOF, [])
  {
    var fs := FLAP_FRAME.fields;
    assert fs[1..] == [UInt(1), UInt(2), BYTE_SLICE] && fs[1..][1..] == [UInt(2), BYTE_SLICE];
    assert fs[1..][1..][1..] == [BYTE_SLICE];
    var r := SignoffBytes(sequence);
    assert r[1..][1..] == PutBE(sequence, 2) && r[1..][1..][2..] == [];
    assert DecFields([BYTE_SLICE], [], BigEndian) == Fail(EOF, []);
    assert DecFields(fs[1..][1..], r[1..][1..], BigEndian) == Fail(EOF, []);
    assert DecFields(fs[1..], r[1..], BigEndian) == Fail(EOF, []);
    assert DecFields(fs, r, BigEndian) == Fail(EOF, []);
  }

  lemma RestBlockEncoding(tlvs: seq<Item>)
    requires forall t <- tlvs :: t.Tagged()
    ensures Typed(TLV_REST_BLOCK, VList([VList(AsValues(tlvs))]))
    ensures Enc(TLV_REST_BLOCK, VList([VList(AsValues(tlvs))]), BigEndian) == Some(WireAll(tlvs, BigEndian))
  {
    TLVShape();
    TLVListEncoding(tlvs, BigEndian);
    var v := VList(AsValues(tlvs));
    assert Enc(Slice(Rest, TLV), v, BigEndian) == Some(WireAll(tlvs, BigEndian));
    FieldsCons(Slice(Rest, TLV), [], v, [], BigEndian);
    assert [Slice(Rest, TLV)] + [] == [Slice(Rest, TLV)] && [v] + [] == [v];
    assert WireAll(tlvs, BigEndian) + [] == WireAll(tlvs, BigEndian);
  }

  lemma SignonEncoding(tlvs: seq<Item>)
    requires forall t <- tlvs :: t.Tagged()
    ensures var v := VList([VInt(1), VList([VList(AsValues(tlvs))])]);
            Typed(FLAP_SIGNON_FRAME, v) && Enc(FLAP_SIGNON_FRAME, v, BigEndian) == Some(PutBE(1, 4) + WireAll(tlvs, BigEndian))
  {
    RestBlockEncoding(tlvs);
    var block := VList([VList(AsValues(tlvs))]);
    assert Pow256(4) == 256 * Pow256(3) && Pow256(3) > 0;
    FieldsCons(TLV_REST_BLOCK, [], block, [], BigEndian);
    assert [TLV_REST_BLOCK] + [] == [TLV_REST_BLOCK] && [block] + [] == [block];
    assert WireAll(tlvs, BigEndian) + [] == WireAll(tlvs, BigEndian);
    FieldsCons(UInt(4), [TLV_REST_BLOCK], VInt(1), [block], BigEndian);
    assert [UInt(4)] + [TLV_REST_BLOCK] == [UInt(4), TLV_REST_BLOCK] && [VInt(1)] + [block] == [VInt(1), block];
  }
}
