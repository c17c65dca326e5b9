/** Signed device manifests (wire/benco_keydir.go). */
module Manifest {
  import opened Wrappers
  import opened Bytes
  import opened Codec
  import opened RoundTrip
  import opened Canonical
  import opened Tlv

  const KEY_SCHEMA: Schema := Struct(None, [UInt(1), BYTE_SLICE])
  const DEVICE_SCHEMA: Schema := Struct(None, [KEY_SCHEMA, KEY_SCHEMA, Str(Some(1), false)])
  const MANIFEST_SCHEMA: Schema :=
    Struct(None, [UInt(2), Str(Some(1), false), UInt(8), UInt(8), KEY_SCHEMA, Slice(Count(2), DEVICE_SCHEMA)])

  /** `BENCOKey`. */
  datatype Key = Key(alg: nat, key: seq<byte>) {
    predicate Valid() { alg < 256 && |key| < 65536 }

    function AsValue(): Value { VList([VInt(alg), VList(ToBytes(key))]) }
  }

  /** `BENCODevice`. */
  datatype Device = Device(box: Key, sign: Key, name: seq<byte>) {
    predicate Valid() { box.Valid() && sign.Valid() && |name| < 256 }

    function AsValue(): Value { VList([box.AsValue(), sign.AsValue(), VStr(name)]) }
  }

  /** `BENCOManifest`. */
  datatype Manifest = Manifest(version: nat, screenName: seq<byte>, counter: nat, issuedAt: nat, identity: Key, devices: seq<Device>) {
    predicate Valid() {
      && version < 0x1_0000 && |screenName| < 256 && counter < 0x1_0000_0000_0000_0000 && issuedAt < 0x1_0000_0000_0000_0000
      && identity.Valid() && |devices| < 0x1_0000 && forall i | 0 <= i < |devices| :: devices[i].Valid()
    }

    function AsValue(): Value {
      VList([VInt(version), VStr(screenName), VInt(counter), VInt(issuedAt), identity.AsValue(), VList(DeviceValues(devices))])
    }
  }

  function DeviceValues(ds: seq<Device>): (vs: seq<Value>)
    ensures |vs| == |ds|
  {
    if ds == [] then [] else [ds[0].AsValue()] + DeviceValues(ds[1..])
  }

  lemma Widths()
    ensures Pow256(1) == 0x100 && Pow256(2) == 0x1_0000 && Pow256(8) == 0x1_0000_0000_0000_0000
  {
    assert Pow256(2) == 256 * Pow256(1) && Pow256(1) == 256 * Pow256(0);
    assert Pow256(4) == 256 * Pow256(3) && Pow256(3) == 256 * Pow256(2);
    assert Pow256(6) == 256 * Pow256(5) && Pow256(5) == 256 * Pow256(4);
    assert Pow256(8) == 256 * Pow256(7) && Pow256(7) == 256 * Pow256(6);
  }

  lemma Shapes()
    ensures Canon(KEY_SCHEMA) && Canon(DEVICE_SCHEMA) && Canon(MANIFEST_SCHEMA)
  {
    FieldsCanonAll(KEY_SCHEMA.fields);
    FieldsCanonAll(DEVICE_SCHEMA.fields);
    FieldsCanonAll(MANIFEST_SCHEMA.fields);
  }

  // ---------------------------------------------------------------- from and to values

  function ToKey(v: Value): (k: Key)
    requires Typed(KEY_SCHEMA, v)
    ensures k.AsValue() == v
  {
    FieldsTypedAll(KEY_SCHEMA.fields, v.vs);
    assert Typed(UInt(1), v.vs[0]) && Typed(BYTE_SLICE, v.vs[1]);
    assert v.vs == [v.vs[0], v.vs[1]];
    Key(v.vs[0].n, OfBytes(v.vs[1].vs))
  }

  function ToDevice(v: Value): (d: Device)
    requires Typed(DEVICE_SCHEMA, v)
    ensures d.AsValue() == v
  {
    FieldsTypedAll(DEVICE_SCHEMA.fields, v.vs);
    assert Typed(KEY_SCHEMA, v.vs[0]) && Typed(KEY_SCHEMA, v.vs[1]) && Typed(Str(Some(1), false), v.vs[2]);
    assert v.vs == [v.vs[0], v.vs[1], v.vs[2]];
    Device(ToKey(v.vs[0]), ToKey(v.vs[1]), v.vs[2].chars)
  }

  function ToDevices(vs: seq<Value>): (ds: seq<Device>)
    requires AllTyped(DEVICE_SCHEMA, vs)
    ensures DeviceValues(ds) == vs
    decreases |vs|
  {
    if vs == [] then [] else
    var ds := [ToDevice(vs[0])] + ToDevices(vs[1..]);
    assert ds[1..] == ToDevices(vs[1..]);
    ds
  }

  function ToManifest(v: Value): (m: Manifest)
    requires Typed(MANIFEST_SCHEMA, v)
    ensures m.AsValue() == v
  {
    var fs := MANIFEST_SCHEMA.fields;
    FieldsTypedAll(fs, v.vs);
    assert Typed(fs[0], v.vs[0]) && Typed(fs[1], v.vs[1]) && Typed(fs[2], v.vs[2]);
    assert Typed(fs[3], v.vs[3]) && Typed(fs[4], v.vs[4]) && Typed(fs[5], v.vs[5]);
    assert v.vs == [v.vs[0], v.vs[1], v.vs[2], v.vs[3], v.vs[4], v.vs[5]];
    Manifest(v.vs[0].n, v.vs[1].chars, v.vs[2].n, v.vs[3].n, ToKey(v.vs[4]), ToDevices(v.vs[5].vs))
  }

  lemma {:induction false} FieldsFitAll(fs: seq<Schema>, vs: seq<Value>)
    requires FieldsTyped(fs, vs)
    ensures |fs| == |vs| && forall i | 0 <= i < |fs| :: Typed(fs[i], vs[i])
    ensures FieldsFit(fs, vs, BigEndian) <==> forall i | 0 <= i < |fs| :: Fits(fs[i], vs[i], BigEndian)
    decreases |fs|
  {
    FieldsTypedAll(fs, vs);
    if fs != [] {
      FieldsFitAll(fs[1..], vs[1..]);
      assert forall i | 1 <= i < |fs| :: fs[i] == fs[1..][i - 1] && vs[i] == vs[1..][i - 1];
    }
  }

  /** A key is a value of its type, and fits, exactly when it is within bounds. */
  lemma KeyValue(k: Key)
    ensures Typed(KEY_SCHEMA, k.AsValue()) <==> k.alg < 256
    ensures k.alg < 256 ==> ToKey(k.AsValue()) == k && (Fits(KEY_SCHEMA, k.AsValue(), BigEndian) <==> k.Valid())
  {
    Widths();
    BytesAreRaw(k.key, BigEndian);
    var fs, vs := KEY_SCHEMA.fields, k.AsValue().vs;
    FieldsTypedAll(fs, vs);
    assert Typed(fs[0], vs[0]) <==> k.alg < 256;
    assert Typed(fs[1], vs[1]);
    if k.alg < 256 {
      FieldsFitAll(fs, vs);
      BlobEncoding(k.key, BigEndian);
      assert Fits(fs[0], vs[0], BigEndian);
      assert Fits(fs[1], vs[1], BigEndian) <==> k.Valid();
    }
  }

  lemma DeviceValue(d: Device)
    requires d.box.alg < 256 && d.sign.alg < 256
    ensures Typed(DEVICE_SCHEMA, d.AsValue()) && ToDevice(d.AsValue()) == d
    ensures Fits(DEVICE_SCHEMA, d.AsValue(), BigEndian) <==> d.Valid()
  {
    Widths();
    KeyValue(d.box);
    KeyValue(d.sign);
    var fs, vs := DEVICE_SCHEMA.fields, d.AsValue().vs;
    FieldsTypedAll(fs, vs);
    assert Typed(fs[0], vs[0]) && Typed(fs[1], vs[1]) && Typed(fs[2], vs[2]);
    FieldsFitAll(fs, vs);
    assert Fits(fs[2], vs[2], BigEndian) <==> |d.name| < 256;
  }

  predicate AllValid(ds: seq<Device>) {
    forall i | 0 <= i < |ds| :: ds[i].Valid()
  }

  lemma ConsDevice(d: Device, ds: seq<Device>)
    requires d.box.alg < 256 && d.sign.alg < 256
    requires AllTyped(DEVICE_SCHEMA, DeviceValues(ds)) && ToDevices(DeviceValues(ds)) == ds
    ensures AllTyped(DEVICE_SCHEMA, DeviceValues([d] + ds)) && ToDevices(DeviceValues([d] + ds)) == [d] + ds
    ensures AllFit(DEVICE_SCHEMA, DeviceValues([d] + ds), BigEndian) <==> d.Valid() && AllFit(DEVICE_SCHEMA, DeviceValues(ds), BigEndian)
  {
    DeviceValue(d);
    assert ([d] + ds)[1..] == ds;
    assert DeviceValues([d] + ds) == [d.AsValue()] + DeviceValues(ds);
    assert DeviceValues([d] + ds)[1..] == DeviceValues(ds);
    ConsFacts(DEVICE_SCHEMA, d.AsValue(), DeviceValues(ds), BigEndian);
  }

  lemma {:induction false} DevicesValue(ds: seq<Device>)
    requires OneByteAlgs(ds)
    ensures AllTyped(DEVICE_SCHEMA, DeviceValues(ds)) && ToDevices(DeviceValues(ds)) == ds
    ensures AllFit(DEVICE_SCHEMA, DeviceValues(ds), BigEndian) <==> AllValid(ds)
    decreases |ds|
  {
    if ds != [] {
      DevicesValue(ds[1..]);
      ConsDevice(ds[0], ds[1..]);
      assert [ds[0]] + ds[1..] == ds;
      assert forall i | 1 <= i < |ds| :: ds[i] == ds[1..][i - 1];
    }
  }

  lemma IntField(w: IntWidth, n: nat)
    requires n < Pow256(w)
    ensures Typed(UInt(w), VInt(n)) && Fits(UInt(w), VInt(n), BigEndian)
  {
  }

  lemma NameField(chars: seq<byte>)
    ensures Typed(Str(Some(1), false), VStr(chars))
    ensures Fits(Str(Some(1), false), VStr(chars), BigEndian) <==> |chars| < 256
  {
    Widths();
  }

  lemma DevicesField(ds: seq<Device>)
    requires |ds| < 0x1_0000 && forall i | 0 <= i < |ds| :: ds[i].Valid()
    ensures Typed(Slice(Count(2), DEVICE_SCHEMA), VList(DeviceValues(ds)))
    ensures Fits(Slice(Count(2), DEVICE_SCHEMA), VList(DeviceValues(ds)), BigEndian)
  {
    Widths();
    DevicesValue(ds);
  }

  /** Six fields in a row. */
  lemma SixFields(f: seq<Schema>, v: seq<Value>)
    requires |f| == |v| == 6 && forall i | 0 <= i < 6 :: Typed(f[i], v[i]) && Fits(f[i], v[i], BigEndian)
    ensures FieldsTyped(f, v) && FieldsFit(f, v, BigEndian)
  {
    FieldsTypedAll(f, v);
    FieldsFitAll(f, v);
  }

  lemma ManifestFits(m: Manifest)
    requires m.Valid()
    ensures Typed(MANIFEST_SCHEMA, m.AsValue()) && Fits(MANIFEST_SCHEMA, m.AsValue(), BigEndian)
  {
    var f, v := MANIFEST_SCHEMA.fields, m.AsValue().vs;
    Widths();
    IntField(2, m.version);
    NameField(m.screenName);
    IntField(8, m.counter);
    IntField(8, m.issuedAt);
    KeyValue(m.identity);
    DevicesField(m.devices);
    forall i | 0 <= i < 6 ensures Typed(f[i], v[i]) && Fits(f[i], v[i], BigEndian) {
      if i == 0 {
        assert f[i] == UInt(2) && v[i] == VInt(m.version);
      } else if i == 1 {
        assert f[i] == Str(Some(1), false) && v[i] == VStr(m.screenName);
      } else if i == 2 {
        assert f[i] == UInt(8) && v[i] == VInt(m.counter);
      } else if i == 3 {
        assert f[i] == UInt(8) && v[i] == VInt(m.issuedAt);
      } else if i == 4 {
        assert f[i] == KEY_SCHEMA && v[i] == m.identity.AsValue();
      } else {
        assert f[i] == Slice(Count(2), DEVICE_SCHEMA) && v[i] == VList(DeviceValues(m.devices));
      }
    }
    SixFields(f, v);
  }

  lemma ManifestValue(m: Manifest)
    requires m.Valid()
    ensures Typed(MANIFEST_SCHEMA, m.AsValue()) && ToManifest(m.AsValue()) == m && Fits(MANIFEST_SCHEMA, m.AsValue(), BigEndian)
  {
    ManifestFits(m);
    KeyValue(m.identity);
    DevicesValue(m.devices);
  }

  // ---------------------------------------------------------------- reading and writing

  /** What `wire.UnmarshalBE` makes of the bytes; whatever follows the manifest is not looked at. */
  function Decoded(bytes: seq<byte>): Option<Manifest> {
    Shapes();
    var d := Dec(MANIFEST_SCHEMA, bytes, BigEndian);
    if d.Fail? then None else
    EncodeDecode(MANIFEST_SCHEMA, bytes, BigEndian);
    Some(ToManifest(d.value))
  }

  /** What `wire.MarshalBE` writes. */
  function Wire(m: Manifest): seq<byte>
    requires m.Valid()
  {
    ManifestValue(m);
    Shapes();
    CanonWellFormed(MANIFEST_SCHEMA, false);
    DecodeEncode(MANIFEST_SCHEMA, m.AsValue(), false, [], BigEndian);
    Enc(MANIFEST_SCHEMA, m.AsValue(), BigEndian).value
  }

  /** Every manifest within bounds decodes from its own bytes, whatever follows them. */
  lemma DecodedWire(m: Manifest, rest: seq<byte>)
    requires m.Valid()
    ensures Decoded(Wire(m) + rest) == Some(m)
  {
    ManifestValue(m);
    Shapes();
    RoundTripsIffFits(MANIFEST_SCHEMA, m.AsValue(), rest, BigEndian);
  }

  /** A decoded manifest is within bounds, and re-encoding it gives the very bytes it was read from. */
  lemma WireDecoded(bytes: seq<byte>)
    requires Decoded(bytes).Some?
    ensures Decoded(bytes).value.Valid() && Wire(Decoded(bytes).value) <= bytes
  {
    Shapes();
    EncodeDecode(MANIFEST_SCHEMA, bytes, BigEndian);
    var v := Dec(MANIFEST_SCHEMA, bytes, BigEndian).value;
    TypedValid(v);
  }

  lemma TypedValid(v: Value)
    requires Typed(MANIFEST_SCHEMA, v) && Fits(MANIFEST_SCHEMA, v, BigEndian)
    ensures ToManifest(v).Valid()
  {
    Widths();
    var m := ToManifest(v);
    var fs, vs := MANIFEST_SCHEMA.fields, v.vs;
    FieldsFitAll(fs, vs);
    assert Typed(fs[0], vs[0]) && Typed(fs[1], vs[1]) && Typed(fs[2], vs[2]) && Typed(fs[3], vs[3]) && Typed(fs[4], vs[4]) && Typed(fs[5], vs[5]);
    assert Fits(fs[1], vs[1], BigEndian) && Fits(fs[4], vs[4], BigEndian) && Fits(fs[5], vs[5], BigEndian);
    KeyValue(m.identity);
    DevicesTyped(vs[5].vs);
    assert m.devices == ToDevices(vs[5].vs);
    DevicesValue(m.devices);
  }

  lemma DeviceTyped(v: Value)
    requires Typed(DEVICE_SCHEMA, v)
    ensures ToDevice(v).box.alg < 256 && ToDevice(v).sign.alg < 256
  {
    var d := ToDevice(v);
    FieldsTypedAll(DEVICE_SCHEMA.fields, v.vs);
    assert Typed(KEY_SCHEMA, v.vs[0]) && Typed(KEY_SCHEMA, v.vs[1]);
    KeyValue(d.box);
    KeyValue(d.sign);
  }

  /** Algorithms are one byte. */
  predicate OneByteAlgs(ds: seq<Device>) {
    forall i | 0 <= i < |ds| :: ds[i].box.alg < 256 && ds[i].sign.alg < 256
  }

  lemma OneMoreDevice(d: Device, ds: seq<Device>)
    requires d.box.alg < 256 && d.sign.alg < 256 && OneByteAlgs(ds)
    ensures OneByteAlgs([d] + ds)
  {
  }

  lemma {:induction false} DevicesTyped(vs: seq<Value>)
    requires AllTyped(DEVICE_SCHEMA, vs)
    ensures OneByteAlgs(ToDevices(vs))
    decreases |vs|
  {
    if vs != [] {
      DevicesTyped(vs[1..]);
      DeviceTyped(vs[0]);
      OneMoreDevice(ToDevice(vs[0]), ToDevices(vs[1..]));
    }
  }
}
