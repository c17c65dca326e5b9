/** The bytes on the wire, byte by byte: what each encoding of the other modules comes to. */
module Layouts {
  import opened Wrappers
  import opened Bytes
  import opened Codec
  import opened Canonical
  import opened Tlv
  import opened Frames
  import opened Cookie
  import FeedbagItems
  import opened Manifest

  /** Start marker, type, number and length, most significant byte first, and the payload. */
  lemma FrameLayout(f: Frame)
    requires f.Numbered()
    ensures Typed(FLAP_FRAME, f.AsValue())
    ensures Enc(FLAP_FRAME, f.AsValue(), BigEndian)
         == Some([42, f.frameType, f.sequence / 256, f.sequence % 256, |f.payload| / 256 % 256, |f.payload| % 256] + f.payload)
  {
    FrameFits(f);
    TwoBytesWritten(f.sequence);
    TwoBytesWritten(|f.payload|);
    var n, l := f.sequence, |f.payload|;
    assert [42, f.frameType] + [n / 256, n % 256] + [l / 256 % 256, l % 256]
        == [42, f.frameType, n / 256, n % 256, l / 256 % 256, l % 256];
  }

  /** The empty data frame numbered 1. */
  lemma EmptyFrame()
    ensures Typed(FLAP_FRAME, Frame(2, 1, []).AsValue())
    ensures Enc(FLAP_FRAME, Frame(2, 1, []).AsValue(), BigEndian) == Some([42, 2, 0, 1, 0, 0])
    ensures DecFrame([42, 2, 0, 1, 0, 0]) == Done(Frame(2, 1, []), [])
  {
    var f := Frame(2, 1, []);
    FrameLayout(f);
    assert [42, 2, 0, 1, 0, 0] + [] == [42, 2, 0, 1, 0, 0];
    FrameFits(f);
    FrameArrives(f, []);
    assert FrameBytes(f) + [] == [42, 2, 0, 1, 0, 0];
  }

  lemma SignoffLayout(sequence: nat)
    requires sequence < 65536
    ensures SignoffBytes(sequence) == [42, 4, sequence / 256, sequence % 256]
  {
    TwoBytesWritten(sequence);
  }

  lemma SignonLayout(tlvs: seq<Item>)
    requires forall t <- tlvs :: t.Tagged()
    ensures var v := VList([VInt(1), VList([VList(AsValues(tlvs))])]);
      Typed(FLAP_SIGNON_FRAME, v) && Enc(FLAP_SIGNON_FRAME, v, BigEndian) == Some([0, 0, 0, 1] + WireAll(tlvs, BigEndian))
  {
    SignonEncoding(tlvs);
    FourBytesWritten(1);
  }

  lemma Pairs(a: seq<byte>, b: seq<byte>, c: seq<byte>)
    requires |a| == |b| == 2
    ensures a + (b + c) == [a[0], a[1], b[0], b[1]] + c
  {
  }

  lemma WireBytes(t: Item)
    requires t.Tagged()
    ensures t.Wire(BigEndian) == [t.tag / 256, t.tag % 256, |t.value| / 256 % 256, |t.value| % 256] + t.value
    ensures t.Wire(LittleEndian) == [t.tag % 256, t.tag / 256, |t.value| % 256, |t.value| / 256 % 256] + t.value
  {
    TwoBytesWritten(t.tag);
    TwoBytesWritten(|t.value|);
    Pairs(PutUint(t.tag, 2, BigEndian), PutUint(|t.value|, 2, BigEndian), t.value);
    Pairs(PutUint(t.tag, 2, LittleEndian), PutUint(|t.value|, 2, LittleEndian), t.value);
  }

  /** Tag and length, two bytes each, and the value; ICQ's are little-endian. */
  lemma TLVLayout(t: Item)
    requires t.Tagged()
    ensures Typed(TLV, t.AsValue())
    ensures Enc(TLV, t.AsValue(), BigEndian)
         == Some([t.tag / 256, t.tag % 256, |t.value| / 256 % 256, |t.value| % 256] + t.value)
    ensures Enc(TLV, t.AsValue(), LittleEndian)
         == Some([t.tag % 256, t.tag / 256, |t.value| % 256, |t.value| / 256 % 256] + t.value)
  {
    TLVEncoding(t, BigEndian);
    TLVEncoding(t, LittleEndian);
    WireBytes(t);
  }

  lemma TwoTLVs()
    ensures WireAll([Item(1, [65, 66]), Item(0x0102, [])], BigEndian) == [0, 1, 0, 2, 65, 66, 1, 2, 0, 0]
    ensures WireAll([Item(1, [65, 66]), Item(0x0102, [])], LittleEndian) == [1, 0, 2, 0, 65, 66, 2, 1, 0, 0]
  {
    WireBytes(Item(1, [65, 66]));
    WireBytes(Item(0x0102, []));
    WireTwo(Item(1, [65, 66]), Item(0x0102, []), BigEndian);
    WireTwo(Item(1, [65, 66]), Item(0x0102, []), LittleEndian);
  }

  lemma WireTwo(t: Item, u: Item, o: Order)
    ensures WireAll([t, u], o) == t.Wire(o) + u.Wire(o)
  {
    assert [t, u][1..] == [u] && [u][1..] == [];
    assert WireAll([u], o) == u.Wire(o) + [];
  }

  /** Food group, subgroup and flags, two bytes each, and a request ID of four. */
  lemma SNACLayout(foodGroup: nat, subGroup: nat, flags: nat, requestID: nat)
    requires foodGroup < 65536 && subGroup < 65536 && flags < 65536 && requestID < 0x1_0000_0000
    ensures var v := VList([VInt(foodGroup), VInt(subGroup), VInt(flags), VInt(requestID)]);
      && Typed(SNAC_FRAME, v)
      && Enc(SNAC_FRAME, v, BigEndian) == Some(
           [foodGroup / 256, foodGroup % 256, subGroup / 256, subGroup % 256, flags / 256, flags % 256]
           + [requestID / 0x100_0000, requestID / 0x1_0000 % 256, requestID / 256 % 256, requestID % 256])
  {
    var last := PutUint(requestID, 4, BigEndian);
    LastInt(requestID);
    Powers();
    var two := PutUint(flags, 2, BigEndian) + last;
    IntInFront(2, flags, [UInt(4)], [VInt(requestID)], last);
    ThreeTwos(foodGroup, subGroup, flags, requestID, two);
    TwoBytesWritten(foodGroup);
    TwoBytesWritten(subGroup);
    TwoBytesWritten(flags);
    FourBytesWritten(requestID);
    Regrouped(PutUint(foodGroup, 2, BigEndian), PutUint(subGroup, 2, BigEndian), PutUint(flags, 2, BigEndian), last);
  }

  lemma Regrouped(a: seq<byte>, b: seq<byte>, c: seq<byte>, d: seq<byte>)
    requires |a| == |b| == |c| == 2
    ensures a + (b + (c + d)) == [a[0], a[1], b[0], b[1], c[0], c[1]] + d
  {
  }

  lemma LastInt(n: nat)
    requires n < 0x1_0000_0000
    ensures FieldsTyped([UInt(4)], [VInt(n)]) && EncFields([UInt(4)], [VInt(n)], BigEndian) == Some(PutUint(n, 4, BigEndian))
  {
    FourBytes();
    FieldsCons(UInt(4), [], VInt(n), [], BigEndian);
    assert [UInt(4)] + [] == [UInt(4)] && [VInt(n)] + [] == [VInt(n)] && PutUint(n, 4, BigEndian) + [] == PutUint(n, 4, BigEndian);
  }

  lemma ThreeTwos(a: nat, b: nat, c: nat, d: nat, two: seq<byte>)
    requires a < 65536 && b < 65536
    requires FieldsTyped([UInt(2)] + [UInt(4)], [VInt(c)] + [VInt(d)])
    requires EncFields([UInt(2)] + [UInt(4)], [VInt(c)] + [VInt(d)], BigEndian) == Some(two)
    ensures var v := VList([VInt(a), VInt(b), VInt(c), VInt(d)]);
      Typed(SNAC_FRAME, v) && Enc(SNAC_FRAME, v, BigEndian) == Some(PutUint(a, 2, BigEndian) + (PutUint(b, 2, BigEndian) + two))
  {
    Powers();
    var fs, vs := [UInt(2)] + [UInt(4)], [VInt(c)] + [VInt(d)];
    IntInFront(2, b, fs, vs, two);
    IntInFront(2, a, [UInt(2)] + fs, [VInt(b)] + vs, PutUint(b, 2, BigEndian) + two);
    assert [UInt(2)] + ([UInt(2)] + fs) == SNAC_FRAME.fields;
    assert [VInt(a)] + ([VInt(b)] + vs) == [VInt(a), VInt(b), VInt(c), VInt(d)];
  }

  lemma IntInFront(w: IntWidth, n: nat, fs: seq<Schema>, vs: seq<Value>, body: seq<byte>)
    requires n < Pow256(w) && FieldsTyped(fs, vs) && EncFields(fs, vs, BigEndian) == Some(body)
    ensures FieldsTyped([UInt(w)] + fs, [VInt(n)] + vs)
    ensures EncFields([UInt(w)] + fs, [VInt(n)] + vs, BigEndian) == Some(PutUint(n, w, BigEndian) + body)
  {
    FieldsCons(UInt(w), fs, VInt(n), vs, BigEndian);
  }

  // ---------------------------------------------------------------- strings, slices, structs

  /** An empty string is a zero length and nothing else; a NUL-terminated one that is not empty counts its NUL. */
  lemma StringLayout(p: PrefixWidth, s: seq<byte>, o: Order)
    ensures Enc(Str(Some(p), true), VStr([]), o) == Enc(Str(Some(p), false), VStr([]), o) == Some(PutUint(0, p, o))
    ensures s != [] ==> Enc(Str(Some(p), true), VStr(s), o) == Some(PutUint(|s| + 1, p, o) + s + [0])
    ensures Enc(Str(Some(p), false), VStr(s), o) == Some(PutUint(|s|, p, o) + s)
    ensures s != [] ==> Enc(Str(None, true), VStr(s), o) == Some(s + [0])
  {
    assert PutUint(0, p, o) + [] == PutUint(0, p, o);
    assert PutUint(|s| + 1, p, o) + s + [0] == PutUint(|s| + 1, p, o) + (s + [0]);
  }

  lemma StringsRead()
    ensures Dec(Str(Some(1), true), [3, 65, 0, 66, 67], BigEndian) == Done(VStr([65]), [67])
    ensures Dec(Str(Some(1), false), [3, 65, 0, 66, 67], BigEndian) == Done(VStr([65, 0, 66]), [67])
    ensures Dec(Str(Some(2), true), [0, 0, 67], BigEndian) == Done(VStr([]), [67])
    ensures Dec(Str(Some(1), false), [3, 65], BigEndian) == Fail(UnexpectedEOF, [])
    ensures Dec(Str(Some(1), false), [3], BigEndian) == Fail(EOF, [])
  {
    Powers();
    GetTwo(0, 0);
    assert [3, 65, 0, 66, 67][1..] == [65, 0, 66, 67] && [65, 0, 66, 67][..3] == [65, 0, 66] && [65, 0, 66, 67][3..] == [67];
    assert [3, 65, 0, 66, 67][..1] == [3] && [3, 65][..1] == [3] && [3][..1] == [3];
    OneRead(3);
    assert UpToNul([65, 0, 66]) == [65];
    assert [0, 0, 67][..2] == [0, 0] && [0, 0, 67][2..] == [67] && [67][..0] == [] && [67][0..] == [67];
  }

  lemma OneRead(b: byte)
    ensures GetUint([b], BigEndian) == b
  {
    assert [b][..0] == [];
  }

  /** How a slice tells its end, on the values 1 and 258 in two bytes each. */
  lemma SlicesWritten()
    ensures var vs := VList([VInt(1), VInt(258)]);
      && AllTyped(UInt(2), vs.vs)
      && Enc(Slice(Len(1), UInt(2)), vs, BigEndian) == Some([4, 0, 1, 1, 2])
      && Enc(Slice(Len(2), UInt(2)), vs, LittleEndian) == Some([4, 0, 1, 0, 2, 1])
      && Enc(Slice(Count(1), UInt(2)), vs, BigEndian) == Some([2, 0, 1, 1, 2])
      && Enc(Slice(Rest, UInt(2)), vs, BigEndian) == Some([0, 1, 1, 2])
      && Enc(Arr(2, UInt(2)), vs, BigEndian) == Some([0, 1, 1, 2])
  {
    Powers();
    TwoBytesWritten(1);
    TwoBytesWritten(258);
    TwoBytesWritten(4);
    OneByte(4, BigEndian);
    OneByte(2, BigEndian);
    TwoInts(1, 258, BigEndian);
    TwoInts(1, 258, LittleEndian);
    var big: seq<byte>, little: seq<byte> := [0, 1, 1, 2], [1, 0, 2, 1];
    assert PutUint(1, 2, BigEndian) + PutUint(258, 2, BigEndian) == big;
    assert PutUint(1, 2, LittleEndian) + PutUint(258, 2, LittleEndian) == little;
    assert [4] + big == [4, 0, 1, 1, 2] && [2] + big == [2, 0, 1, 1, 2] && [4, 0] + little == [4, 0, 1, 0, 2, 1];
  }

  lemma TwoInts(a: nat, b: nat, o: Order)
    requires a < 65536 && b < 65536
    ensures AllTyped(UInt(2), [VInt(a), VInt(b)])
    ensures EncElems(UInt(2), [VInt(a), VInt(b)], o) == Some(PutUint(a, 2, o) + PutUint(b, 2, o))
  {
    Powers();
    ConsFacts(UInt(2), VInt(b), [], o);
    assert [VInt(b)] + [] == [VInt(b)] && PutUint(b, 2, o) + [] == PutUint(b, 2, o);
    ConsFacts(UInt(2), VInt(a), [VInt(b)], o);
    assert [VInt(a)] + [VInt(b)] == [VInt(a), VInt(b)];
  }

  /** A prefixed struct announces its body; an absent optional is nothing at all; only the last field may be one. */
  lemma StructsWritten()
    ensures var fs, vs := [UInt(1), UInt(1)], [VInt(5), VInt(6)];
      && FieldsTyped(fs, vs)
      && Enc(Struct(None, fs), VList(vs), BigEndian) == Some([5, 6])
      && Enc(Struct(Some(2), fs), VList(vs), BigEndian) == Some([0, 2, 5, 6])
      && Enc(Optional(Some(1), fs), VList(vs), BigEndian) == Some([2, 5, 6])
      && Enc(Optional(Some(1), fs), VNil, BigEndian) == Some([])
  {
    Powers();
    var fs, vs := [UInt(1), UInt(1)], [VInt(5), VInt(6)];
    ByteField(6, [], [], []);
    assert [UInt(1)] + [] == [UInt(1)] && [VInt(6)] + [] == [VInt(6)];
    var last: seq<byte> := [6];
    assert last + [] == last;
    ByteField(5, [UInt(1)], [VInt(6)], last);
    assert [UInt(1)] + [UInt(1)] == fs && [VInt(5)] + [VInt(6)] == vs;
    var body: seq<byte> := [5, 6];
    assert [5] + last == body;
    assert EncFields(fs, vs, BigEndian) == Some(body);
    OneByte(2, BigEndian);
    TwoBytesWritten(2);
    assert [0, 2] + body == [0, 2, 5, 6] && [2] + body == [2, 5, 6];
  }

  // ---------------------------------------------------------------- reading what is not written so

  /** What is left of a struct's block is dropped; an optional is absent at the end of the input, but not in the middle of itself. */
  lemma StructsRead()
    ensures Dec(Struct(Some(1), [UInt(1)]), [2, 5, 6, 7], BigEndian) == Done(VList([VInt(5)]), [7])
    ensures Dec(Optional(None, [UInt(2)]), [], BigEndian) == Done(VNil, [])
    ensures Dec(Optional(None, [UInt(2)]), [5], BigEndian) == Fail(UnexpectedEOF, [])
    ensures Dec(Struct(None, [Optional(None, [UInt(1)]), UInt(1)]), [5, 6], BigEndian) == Fail(Malformed, [5, 6])
  {
    Powers();
    var r: seq<byte>, block: seq<byte> := [2, 5, 6, 7], [5, 6];
    assert r[..1] == [2] && r[1..] == [5, 6, 7] && [5, 6, 7][..2] == block && [5, 6, 7][2..] == [7];
    OneRead(2);
    OneRead(5);
    assert block[..1] == [5] && block[1..] == [6];
    assert [UInt(1)][1..] == [];
    assert DecFields([], [6], BigEndian) == Done([], [6]);
    assert [VInt(5)] + [] == [VInt(5)];
    assert DecFields([UInt(1)], block, BigEndian) == Done([VInt(5)], [6]);
    assert DecFields([UInt(2)], [], BigEndian) == Fail(EOF, []);
    assert DecFields([UInt(2)], [5], BigEndian) == Fail(UnexpectedEOF, []);
  }

  // ---------------------------------------------------------------- the order attribute, cookies, manifests

  /** The IDs of an order attribute, two bytes each. */
  lemma OrderLayout(id: nat, ids: seq<nat>)
    requires id < 65536
    ensures FeedbagItems.PutIds([id] + ids) == [id / 256, id % 256] + FeedbagItems.PutIds(ids)
  {
    TwoBytesWritten(id);
    assert ([id] + ids)[1..] == ids;
  }

  lemma OrderRead(a: byte, b: byte, rest: seq<byte>)
    ensures FeedbagItems.Ids([a, b] + rest) == [256 * a + b] + FeedbagItems.Ids(rest)
    ensures FeedbagItems.Ids([a]) == FeedbagItems.Ids([]) == []
  {
    GetTwo(a, b);
    var bs := [a, b] + rest;
    assert bs[..2] == [a, b] && bs[2..] == rest;
  }

  /**
   A cookie, byte by byte: the signed part with its length, made of the second it
   expires in, one minute after it was issued, and the data; then the tag of that part.
   */
  lemma CookieLayout(mac: Mac, key: seq<byte>, data: seq<byte>, now: nat)
    requires Tags32(mac) && |data| <= 214
    ensures var e, d := (now / 1_000_000_000 + 60) % 0x1_0000_0000, |data|;
      var body := [e / 0x100_0000, e / 0x1_0000 % 256, e / 256 % 256, e % 256, 0, d] + data;
      Cookie.Cookie(mac, key, data, now) == [0, d + 6] + body + [0, 32] + mac(key, body)
  {
    var e, d := (now / 1_000_000_000 + 60) % 0x1_0000_0000, |data|;
    OneMinute(now);
    FourBytesWritten(e);
    TwoBytesWritten(d);
    TwoBytesWritten(d + 6);
    TwoBytesWritten(32);
    var body := [e / 0x100_0000, e / 0x1_0000 % 256, e / 256 % 256, e % 256, 0, d] + data;
    assert PayloadBytes(ExpiryAt(now), data) == body;
    assert (PutBE(d + 6, 2) + body) + (PutBE(32, 2) + mac(key, body)) == [0, d + 6] + body + [0, 32] + mac(key, body);
  }

  lemma OneMinute(now: nat)
    ensures ExpiryAt(now) == (now / 1_000_000_000 + 60) % 0x1_0000_0000
    ensures now / 1_000_000_000 + 60 < 0x1_0000_0000 ==> ExpiryAt(now) == now / 1_000_000_000 + 60
  {
  }

  /** It gives its data back up to the start of the second one minute on, and not after. */
  lemma CookieLastsAMinute(mac: Mac, key: seq<byte>, data: seq<byte>, issued: nat, padding: seq<byte>, now: nat)
    requires Tags32(mac) && |data| <= 214 && issued / 1_000_000_000 + 60 < 0x1_0000_0000
    ensures Cracked(mac, key, Cookie.Cookie(mac, key, data, issued) + padding, now)
         == if now <= (issued / 1_000_000_000 + 60) * 1_000_000_000 then Some(data) else None
  {
    OneMinute(issued);
    var expiry := issued / 1_000_000_000 + 60;
    assert ExpiryAt(issued) == expiry && SECOND == 1_000_000_000;
    CrackIssued(mac, key, data, issued, padding, now);
  }

  function Two(n: nat): seq<byte> { [n / 256 % 256, n % 256] }

  /** The algorithm, and the key with its length. */
  function KeyBytes(k: Key): seq<byte>
    requires k.Valid()
  {
    [k.alg] + (Two(|k.key|) + k.key)
  }

  /** The key to encrypt to, the key that signs, and the name. */
  function DeviceBytes(d: Device): seq<byte>
    requires d.Valid()
  {
    KeyBytes(d.box) + (KeyBytes(d.sign) + ([|d.name|] + d.name))
  }

  function DevicesBytes(ds: seq<Device>): seq<byte>
    requires AllValid(ds)
  {
    if ds == [] then [] else DeviceBytes(ds[0]) + DevicesBytes(ds[1..])
  }

  /** A field in front of others. */
  lemma FieldInFront(f: Schema, v: Value, fs: seq<Schema>, vs: seq<Value>, head: seq<byte>, body: seq<byte>)
    requires !f.Optional? && Typed(f, v) && Enc(f, v, BigEndian) == Some(head)
    requires FieldsTyped(fs, vs) && EncFields(fs, vs, BigEndian) == Some(body)
    ensures FieldsTyped([f] + fs, [v] + vs) && EncFields([f] + fs, [v] + vs, BigEndian) == Some(head + body)
  {
    FieldsCons(f, fs, v, vs, BigEndian);
  }

  lemma NoFields()
    ensures FieldsTyped([], []) && EncFields([], [], BigEndian) == Some([])
  {
  }

  lemma KeyLayout(k: Key)
    requires k.Valid()
    ensures Typed(KEY_SCHEMA, k.AsValue()) && Enc(KEY_SCHEMA, k.AsValue(), BigEndian) == Some(KeyBytes(k))
  {
    Widths();
    OneByte(k.alg, BigEndian);
    BlobEncoding(k.key, BigEndian);
    TwoBytesWritten(|k.key|);
    TwoFields(UInt(1), VInt(k.alg), BYTE_SLICE, VList(ToBytes(k.key)), BigEndian);
  }

  lemma NameLayout(name: seq<byte>)
    requires |name| < 256
    ensures Enc(Str(Some(1), false), VStr(name), BigEndian) == Some([|name|] + name)
  {
    OneByte(|name|, BigEndian);
  }

  lemma DeviceLayout(d: Device)
    requires d.Valid()
    ensures Typed(DEVICE_SCHEMA, d.AsValue()) && Enc(DEVICE_SCHEMA, d.AsValue(), BigEndian) == Some(DeviceBytes(d))
  {
    KeyLayout(d.box);
    KeyLayout(d.sign);
    NameLayout(d.name);
    NoFields();
    var f, v, bytes := Str(Some(1), false), VStr(d.name), [|d.name|] + d.name;
    FieldInFront(f, v, [], [], bytes, []);
    assert [f] + [] == [f] && [v] + [] == [v] && bytes + [] == bytes;
    FieldInFront(KEY_SCHEMA, d.sign.AsValue(), [f], [v], KeyBytes(d.sign), bytes);
    FieldInFront(KEY_SCHEMA, d.box.AsValue(), [KEY_SCHEMA] + [f], [d.sign.AsValue()] + [v], KeyBytes(d.box), KeyBytes(d.sign) + bytes);
    assert [KEY_SCHEMA] + ([KEY_SCHEMA] + [f]) == DEVICE_SCHEMA.fields;
    assert [d.box.AsValue()] + ([d.sign.AsValue()] + [v]) == d.AsValue().vs;
  }

  lemma {:induction false} DevicesLayout(ds: seq<Device>)
    requires AllValid(ds)
    ensures AllTyped(DEVICE_SCHEMA, DeviceValues(ds)) && EncElems(DEVICE_SCHEMA, DeviceValues(ds), BigEndian) == Some(DevicesBytes(ds))
    decreases |ds|
  {
    if ds != [] {
      DevicesLayout(ds[1..]);
      DeviceLayout(ds[0]);
      ConsFacts(DEVICE_SCHEMA, ds[0].AsValue(), DeviceValues(ds[1..]), BigEndian);
    }
  }

  lemma CountedLayout(e: Schema, vs: seq<Value>, body: seq<byte>)
    requires AllTyped(e, vs) && ElemOk(e) && EncElems(e, vs, BigEndian) == Some(body)
    ensures Typed(Slice(Count(2), e), VList(vs)) && Enc(Slice(Count(2), e), VList(vs), BigEndian) == Some(Two(|vs|) + body)
  {
    TwoBytesWritten(|vs|);
  }

  /** Version, screen name, counter, time, identity key and the devices with their number, in this order. */
  lemma ManifestLayout(m: Manifest)
    requires m.Valid()
    ensures Wire(m) == Two(m.version) + ([|m.screenName|] + m.screenName) + PutUint(m.counter, 8, BigEndian) + PutUint(m.issuedAt, 8, BigEndian)
                       + KeyBytes(m.identity) + (Two(|m.devices|) + DevicesBytes(m.devices))
  {
    var fs, vs := MANIFEST_SCHEMA.fields, m.AsValue().vs;
    var hs := [Two(m.version), [|m.screenName|] + m.screenName, PutUint(m.counter, 8, BigEndian), PutUint(m.issuedAt, 8, BigEndian),
               KeyBytes(m.identity), Two(|m.devices|) + DevicesBytes(m.devices)];
    ManifestFields(m, fs, vs, hs);
    FieldsLayout(fs, vs, hs);
    ManifestValue(m);
    AllSix(hs);
  }

  lemma ManifestFields(m: Manifest, fs: seq<Schema>, vs: seq<Value>, hs: seq<seq<byte>>)
    requires m.Valid() && fs == MANIFEST_SCHEMA.fields && vs == m.AsValue().vs
    requires hs == [Two(m.version), [|m.screenName|] + m.screenName, PutUint(m.counter, 8, BigEndian), PutUint(m.issuedAt, 8, BigEndian),
                    KeyBytes(m.identity), Two(|m.devices|) + DevicesBytes(m.devices)]
    ensures |fs| == |vs| == |hs| == 6 && forall i | 0 <= i < 6 :: FieldIs(fs[i], vs[i], hs[i])
  {
    Widths();
    DevicesLayout(m.devices);
    CountedLayout(DEVICE_SCHEMA, DeviceValues(m.devices), DevicesBytes(m.devices));
    TwoBytesWritten(m.version);
    IntIs(2, m.version);
    IntIs(8, m.counter);
    IntIs(8, m.issuedAt);
    NameIs(m.screenName);
    KeyIs(m.identity);
    assert FieldIs(fs[5], vs[5], hs[5]);
  }

  lemma IntIs(w: IntWidth, n: nat)
    requires n < Pow256(w)
    ensures FieldIs(UInt(w), VInt(n), PutUint(n, w, BigEndian))
  {
  }

  lemma NameIs(name: seq<byte>)
    requires |name| < 256
    ensures FieldIs(Str(Some(1), false), VStr(name), [|name|] + name)
  {
    NameLayout(name);
  }

  lemma KeyIs(k: Key)
    requires k.Valid()
    ensures FieldIs(KEY_SCHEMA, k.AsValue(), KeyBytes(k))
  {
    KeyLayout(k);
  }

  ghost predicate FieldIs(f: Schema, v: Value, head: seq<byte>) {
    !f.Optional? && Typed(f, v) && Enc(f, v, BigEndian) == Some(head)
  }

  function Concat(hs: seq<seq<byte>>): seq<byte> {
    if hs == [] then [] else hs[0] + Concat(hs[1..])
  }

  lemma {:induction false} FieldsLayout(fs: seq<Schema>, vs: seq<Value>, hs: seq<seq<byte>>)
    requires |fs| == |vs| == |hs| && forall i | 0 <= i < |fs| :: FieldIs(fs[i], vs[i], hs[i])
    ensures FieldsTyped(fs, vs) && EncFields(fs, vs, BigEndian) == Some(Concat(hs))
    decreases |fs|
  {
    if fs != [] {
      forall i | 0 <= i < |fs| - 1 ensures FieldIs(fs[1..][i], vs[1..][i], hs[1..][i]) {
        assert FieldIs(fs[i + 1], vs[i + 1], hs[i + 1]);
      }
      FieldsLayout(fs[1..], vs[1..], hs[1..]);
      FieldInFront(fs[0], vs[0], fs[1..], vs[1..], hs[0], Concat(hs[1..]));
      assert [fs[0]] + fs[1..] == fs && [vs[0]] + vs[1..] == vs;
    }
  }

  lemma AllSix(hs: seq<seq<byte>>)
    requires |hs| == 6
    ensures Concat(hs) == hs[0] + hs[1] + hs[2] + hs[3] + hs[4] + hs[5]
  {
    AllThree(hs[..3]);
    AllThree(hs[3..]);
    ConcatSplit(hs[..3], hs[3..]);
    assert hs[..3] + hs[3..] == hs;
  }

  lemma AllThree(hs: seq<seq<byte>>)
    requires |hs| == 3
    ensures Concat(hs) == hs[0] + hs[1] + hs[2]
  {
    assert hs[1..][1..] == hs[2..] && hs[2..][1..] == [];
    assert Concat(hs[2..]) == hs[2] + [];
  }

  lemma {:induction false} ConcatSplit(hs: seq<seq<byte>>, more: seq<seq<byte>>)
    ensures Concat(hs + more) == Concat(hs) + Concat(more)
    decreases |hs|
  {
    if hs == [] {
      assert hs + more == more;
    } else {
      ConcatSplit(hs[1..], more);
      assert (hs + more)[1..] == hs[1..] + more;
    }
  }
}
