/** TLVs (wire/tlv.go) and the open-ended TLV block, cut anywhere. */
module Tlv {
  import opened Wrappers
  import opened Bytes
  import opened Codec
  import opened RoundTrip
  import opened Canonical

  const BYTE_SLICE: Schema := Slice(Len(2), UInt(1))
  const TLV: Schema := Struct(None, [UInt(2), BYTE_SLICE])
  const TLV_REST_BLOCK: Schema := Struct(None, [Slice(Rest, TLV)])
  const TLV_BLOCK: Schema := Struct(None, [Slice(Count(2), TLV)])
  const TLVL_BLOCK: Schema := Struct(None, [Slice(Len(2), TLV)])

  /** A `[]byte` as the value of a slice of one-byte integers. */
  function ToBytes(bs: seq<byte>): (vs: seq<Value>)
    ensures |vs| == |bs|
  {
    if bs == [] then [] else [VInt(bs[0])] + ToBytes(bs[1..])
  }

  function OfBytes(vs: seq<Value>): (bs: seq<byte>)
    requires AllTyped(UInt(1), vs)
    ensures |bs| == |vs| && ToBytes(bs) == vs
    decreases |vs|
  {
    if vs == [] then [] else
    assert Typed(UInt(1), vs[0]);
    assert Pow256(1) == 256 * Pow256(0);
    var bs := [vs[0].n] + OfBytes(vs[1..]);
    assert bs[1..] == OfBytes(vs[1..]);
    bs
  }

  /** A byte slice is written as its own bytes. */
  lemma {:induction false} BytesAreRaw(bs: seq<byte>, o: Order)
    ensures AllTyped(UInt(1), ToBytes(bs)) && AllFit(UInt(1), ToBytes(bs), o)
    ensures EncElems(UInt(1), ToBytes(bs), o) == Some(bs)
    ensures OfBytes(ToBytes(bs)) == bs
    decreases |bs|
  {
    if bs != [] {
      BytesAreRaw(bs[1..], o);
      ConsFacts(UInt(1), VInt(bs[0]), ToBytes(bs[1..]), o);
      OneByte(bs[0], o);
      assert [bs[0]] + bs[1..] == bs;
      assert ToBytes(bs)[1..] == ToBytes(bs[1..]);
    }
  }

  lemma OneByte(b: byte, o: Order)
    ensures b < Pow256(1) == 256 && PutUint(b, 1, o) == [b]
  {
    assert Pow256(1) == 256 * Pow256(0);
    assert PutBE(b, 1) == PutBE(b / 256, 0) + [b % 256];
    assert PutLE(b, 1) == [b % 256] + PutLE(b / 256, 0);
  }

  datatype Item = Item(tag: nat, value: seq<byte>) {
    /** The tag is a uint16. */
    predicate Tagged() { tag < 65536 }

    /** And the value's length fits its prefix. */
    predicate Valid() { Tagged() && |value| < 65536 }

    function AsValue(): Value { VList([VInt(tag), VList(ToBytes(value))]) }

    function Wire(o: Order): seq<byte> {
      PutUint(tag, 2, o) + (PutUint(|value|, 2, o) + value)
    }
  }

  function AsValues(ts: seq<Item>): (vs: seq<Value>)
    ensures |vs| == |ts|
  {
    if ts == [] then [] else [ts[0].AsValue()] + AsValues(ts[1..])
  }

  function WireAll(ts: seq<Item>, o: Order): seq<byte> {
    if ts == [] then [] else ts[0].Wire(o) + WireAll(ts[1..], o)
  }

  lemma TwoBytes()
    ensures Pow256(2) == 65536
  {
    assert Pow256(1) == 256 * Pow256(0);
  }

  /** A byte slice with a two-byte length. */
  lemma BlobEncoding(bs: seq<byte>, o: Order)
    ensures Typed(BYTE_SLICE, VList(ToBytes(bs)))
    ensures Fits(BYTE_SLICE, VList(ToBytes(bs)), o) <==> |bs| < 65536
    ensures Enc(BYTE_SLICE, VList(ToBytes(bs)), o) == Some(PutUint(|bs|, 2, o) + bs)
  {
    TwoBytes();
    BytesAreRaw(bs, o);
  }

  lemma TLVShape()
    ensures Canon(TLV) && Consumes(TLV) && WellFormed(TLV, false) && ElemOk(TLV)
  {
    FieldsCanonAll(TLV.fields);
    assert SomeFieldConsumes(TLV.fields) by {
      assert Consumes(TLV.fields[0]);
    }
    CanonWellFormed(TLV, false);
  }

  lemma TLVEncoding(t: Item, o: Order)
    requires t.Tagged()
    ensures Typed(TLV, t.AsValue()) && Enc(TLV, t.AsValue(), o) == Some(t.Wire(o))
    ensures Fits(TLV, t.AsValue(), o) <==> t.Valid()
  {
    TwoBytes();
    BlobEncoding(t.value, o);
    var tag, val := VInt(t.tag), VList(ToBytes(t.value));
    TwoFields(UInt(2), tag, BYTE_SLICE, val, o);
  }

  lemma {:induction false} TLVListEncoding(ts: seq<Item>, o: Order)
    requires forall t <- ts :: t.Tagged()
    ensures AllTyped(TLV, AsValues(ts)) && (AllFit(TLV, AsValues(ts), o) <==> forall t <- ts :: t.Valid())
    ensures EncElems(TLV, AsValues(ts), o) == Some(WireAll(ts, o))
    decreases |ts|
  {
    if ts != [] {
      TLVEncoding(ts[0], o);
      TLVListEncoding(ts[1..], o);
      ConsFacts(TLV, ts[0].AsValue(), AsValues(ts[1..]), o);
    }
  }

  // ---------------------------------------------------------------- blocks with a prefix

  /** What is in front of a block's TLVs: their number, or how many bytes they take. */
  function Announced(block: Schema, ts: seq<Item>, o: Order): nat {
    if block == TLV_BLOCK then |ts| else |WireAll(ts, o)|
  }

  lemma BlockEncoding(block: Schema, ts: seq<Item>, o: Order)
    requires (block == TLV_BLOCK || block == TLVL_BLOCK) && forall t <- ts :: t.Tagged()
    ensures var v := VList([VList(AsValues(ts))]);
      && Canon(block) && Typed(block, v)
      && Enc(block, v, o) == Some(PutUint(Announced(block, ts, o), 2, o) + WireAll(ts, o))
      && (Fits(block, v, o) <==> (forall t <- ts :: t.Valid()) && Announced(block, ts, o) < 65536)
  {
    TwoBytes();
    TLVShape();
    TLVListEncoding(ts, o);
    var list, vs := block.fields[0], VList(AsValues(ts));
    var bytes := PutUint(Announced(block, ts, o), 2, o) + WireAll(ts, o);
    assert Enc(list, vs, o) == Some(bytes);
    FieldsCons(list, [], vs, [], o);
    assert [list] + [] == block.fields && [vs] + [] == [vs] && bytes + [] == bytes;
    FieldsCanonAll(block.fields);
  }

  /**
   Unlike the open-ended block, a block that announces its TLVs is never taken
   for complete when it was cut short.
   */
  lemma CutBlockFails(block: Schema, ts: seq<Item>, k: nat, o: Order)
    requires (block == TLV_BLOCK || block == TLVL_BLOCK) && (forall t <- ts :: t.Valid())
    requires Announced(block, ts, o) < 65536 && k < 2 + |WireAll(ts, o)|
    ensures Dec(block, (PutUint(Announced(block, ts, o), 2, o) + WireAll(ts, o))[..k], o).Fail?
  {
    BlockEncoding(block, ts, o);
    CutEncodingFails(block, VList([VList(AsValues(ts))]), k, o);
  }

  // ---------------------------------------------------------------- cutting

  /** The boundaries inside a TLV: before the tag, after the tag, after the length. */
  predicate Boundary(off: nat) { off == 0 || off == 2 || off == 4 }

  /** A TLV cut at a field boundary looks like a clean end of input; cut anywhere else it does not. */
  lemma CutTLV(t: Item, k: nat, o: Order)
    requires t.Valid() && k < |t.Wire(o)|
    ensures Dec(TLV, t.Wire(o)[..k], o) == Fail(if Boundary(k) then EOF else UnexpectedEOF, [])
  {
    TwoBytes();
    var tag, len := PutUint(t.tag, 2, o), PutUint(|t.value|, 2, o);
    var r := t.Wire(o)[..k];
    var fs := [UInt(2), BYTE_SLICE];
    assert fs[1..] == [BYTE_SLICE];
    assert Dec(TLV, r, o) == AsList(DecFields(fs, r, o));
    if k < 2 {
      assert Dec(fs[0], r, o) == Fail(if k == 0 then EOF else UnexpectedEOF, []);
    } else {
      assert r == tag + (len + t.value)[..k - 2];
      ReadUintAppend(t.tag, 2, (len + t.value)[..k - 2], o);
      var r' := (len + t.value)[..k - 2];
      assert DecFields(fs, r, o) == Prepend([VInt(t.tag)], DecFields([BYTE_SLICE], r', o));
      if k >= 4 {
        assert r' == len + t.value[..k - 4];
        ReadUintAppend(|t.value|, 2, t.value[..k - 4], o);
      }
      assert Dec(BYTE_SLICE, r', o) == Fail(if Boundary(k) then EOF else UnexpectedEOF, []);
    }
  }

  /** Where the cut falls: the number of TLVs that are complete before it and the offset into the next one. */
  function CutPoint(ts: seq<Item>, k: nat, o: Order): (p: (nat, nat))
    requires k < |WireAll(ts, o)|
    ensures p.0 < |ts| && p.1 < |ts[p.0].Wire(o)|
    decreases |ts|
  {
    var n := |ts[0].Wire(o)|;
    if k < n then (0, k) else
    var p := CutPoint(ts[1..], k - n, o);
    (p.0 + 1, p.1)
  }

  lemma {:induction false} CutPointSplits(ts: seq<Item>, k: nat, o: Order)
    requires k < |WireAll(ts, o)|
    ensures var p := CutPoint(ts, k, o);
      WireAll(ts, o)[..k] == WireAll(ts[..p.0], o) + ts[p.0].Wire(o)[..p.1]
    decreases |ts|
  {
    var head := ts[0].Wire(o);
    var p := CutPoint(ts, k, o);
    if k < |head| {
      assert ts[..0] == [];
      assert WireAll(ts, o)[..k] == head[..k];
    } else {
      CutPointSplits(ts[1..], k - |head|, o);
      assert ts[..p.0][1..] == ts[1..][..p.0 - 1];
      TakeAfter(head, WireAll(ts[1..], o), k);
      Assoc(head, WireAll(ts[1..][..p.0 - 1], o), ts[p.0].Wire(o)[..p.1]);
    }
  }

  lemma TakeAfter(a: seq<byte>, b: seq<byte>, k: nat)
    requires |a| <= k <= |a| + |b|
    ensures (a + b)[..k] == a + b[..k - |a|]
  {
  }

  /**
   A TLV block without a length, cut short anywhere: on a field boundary the
   decoder silently returns the complete TLVs before the cut, elsewhere it fails.
   */
  lemma CutTLVRestBlock(ts: seq<Item>, k: nat, o: Order)
    requires (forall t <- ts :: t.Valid()) && k < |WireAll(ts, o)|
    ensures var (i, off) := CutPoint(ts, k, o);
            Dec(TLV_REST_BLOCK, WireAll(ts, o)[..k], o)
            == if Boundary(off) then Done(VList([VList(AsValues(ts[..i]))]), []) else Fail(UnexpectedEOF, [])
  {
    var (i, off) := CutPoint(ts, k, o);
    CutPointSplits(ts, k, o);
    CutTLV(ts[i], off, o);
    var tail := ts[i].Wire(o)[..off];
    var r := WireAll(ts, o)[..k];
    RestAfterComplete(ts[..i], tail, o);
    var vs := AsValues(ts[..i]);
    assert vs + [] == vs;
    assert DecRest(TLV, r, o) == if Boundary(off) then Done(vs, []) else Fail(UnexpectedEOF, []);
    var fs := [Slice(Rest, TLV)];
    assert fs[1..] == [] && [VList(vs)] + [] == [VList(vs)];
    assert Dec(fs[0], r, o) == AsList(DecRest(TLV, r, o));
    assert DecFields(fs, r, o)
        == if Boundary(off) then Prepend([VList(vs)], DecFields([], [], o)) else Fail(UnexpectedEOF, []);
    assert Dec(TLV_REST_BLOCK, r, o) == AsList(DecFields(fs, r, o));
  }

  /** The loop reads complete TLVs one by one and then does whatever the bytes after them make it do. */
  lemma {:induction false} RestAfterComplete(ts: seq<Item>, tail: seq<byte>, o: Order)
    requires forall t <- ts :: t.Valid()
    ensures DecRest(TLV, WireAll(ts, o) + tail, o) == Prepend(AsValues(ts), DecRest(TLV, tail, o))
    decreases |ts|
  {
    if ts == [] {
      assert WireAll(ts, o) + tail == tail;
      var d := DecRest(TLV, tail, o);
      if d.Done? { assert [] + d.value == d.value; }
    } else {
      var after := WireAll(ts[1..], o) + tail;
      Assoc(ts[0].Wire(o), WireAll(ts[1..], o), tail);
      assert ts[0].Valid();
      TLVEncoding(ts[0], o);
      TLVShape();
      DecodeEncode(TLV, ts[0].AsValue(), false, after, o);
      RestAfterComplete(ts[1..], tail, o);
      var d := DecRest(TLV, tail, o);
      if d.Done? {
        assert [ts[0].AsValue()] + (AsValues(ts[1..]) + d.value) == AsValues(ts) + d.value;
      }
    }
  }
}
