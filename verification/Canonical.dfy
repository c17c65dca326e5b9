/**
 Schemas whose encodings are canonical: integers, arrays, prefixed strings and
 prefixed slices, in structs without a prefix of their own. Frames, TLVs and
 signed manifests are of this kind.
 */
module Canonical {
  import opened Wrappers
  import opened Bytes
  import opened Codec
  import opened RoundTrip

  predicate Canon(s: Schema)
    decreases s, 0
  {
    match s
    case UInt(_) => true
    case Arr(_, e) => ElemOk(e) && Canon(e)
    case Str(p, nt) => p.Some? && !nt
    case Slice(x, e) => !x.Rest? && ElemOk(e) && Canon(e) && (x.Count? || Consumes(e))
    case Struct(p, fs) => p.None? && FieldsCanon(fs)
    case Optional(_, _) => false
  }

  predicate FieldsCanon(fs: seq<Schema>)
    decreases fs, 1
  {
    fs == [] || (Canon(fs[0]) && FieldsCanon(fs[1..]))
  }

  lemma {:induction false} FieldsCanonAll(fs: seq<Schema>)
    ensures FieldsCanon(fs) <==> forall i | 0 <= i < |fs| :: Canon(fs[i])
    decreases |fs|
  {
    if fs != [] {
      FieldsCanonAll(fs[1..]);
      assert forall i | 1 <= i < |fs| :: fs[i] == fs[1..][i - 1];
    }
  }

  lemma {:induction false} FieldsTypedAll(fs: seq<Schema>, vs: seq<Value>)
    ensures FieldsTyped(fs, vs) <==> |fs| == |vs| && forall i | 0 <= i < |fs| :: Typed(fs[i], vs[i])
    decreases |fs|
  {
    if fs != [] && |fs| == |vs| {
      FieldsTypedAll(fs[1..], vs[1..]);
      assert forall i | 1 <= i < |fs| :: fs[i] == fs[1..][i - 1] && vs[i] == vs[1..][i - 1];
    }
  }

  /** Each field of a struct that fits does. */
  lemma {:induction false} FieldFits(fs: seq<Schema>, vs: seq<Value>, o: Order, i: nat)
    requires FieldsTyped(fs, vs) && FieldsFit(fs, vs, o) && i < |fs|
    ensures Typed(fs[i], vs[i]) && Fits(fs[i], vs[i], o)
    decreases i
  {
    if i > 0 {
      FieldFits(fs[1..], vs[1..], o, i - 1);
    }
  }

  lemma {:induction false} CanonWellFormed(s: Schema, tail: bool)
    requires Canon(s)
    ensures WellFormed(s, tail)
    decreases s, 0
  {
    match s
    case Arr(_, e) => CanonWellFormed(e, false);
    case Slice(_, e) => CanonWellFormed(e, false);
    case Struct(_, fs) => FieldsCanonWellFormed(fs, tail);
    case _ =>
  }

  lemma {:induction false} FieldsCanonWellFormed(fs: seq<Schema>, tail: bool)
    requires FieldsCanon(fs)
    ensures FieldsWellFormed(fs, tail)
    decreases fs, 1
  {
    if fs != [] {
      CanonWellFormed(fs[0], tail && |fs| == 1);
      FieldsCanonWellFormed(fs[1..], tail);
    }
  }

  // ---------------------------------------------------------------- writing back what was read

  lemma ReadUintExact(w: nat, r: seq<byte>, o: Order)
    requires ReadUint(w, r, o).Done?
    ensures var n := ReadUint(w, r, o); n.value < Pow256(w) && r == PutUint(n.value, w, o) + n.rest
  {
    GetPut(r[..w], o);
  }

  lemma ReadBlockExact(w: PrefixWidth, r: seq<byte>, o: Order)
    requires ReadBlock(w, r, o).Done?
    ensures var b := ReadBlock(w, r, o); |b.value| < Pow256(w) && r == Prefixed(Some(w), b.value, o) + b.rest
  {
    ReadUintExact(w, r, o);
  }

  /** A decoded value fits its prefixes, and re-encoding it gives exactly the bytes that were consumed. */
  lemma {:induction false} EncodeDecode(s: Schema, r: seq<byte>, o: Order)
    requires Canon(s) && Dec(s, r, o).Done?
    ensures var d := Dec(s, r, o);
            Typed(s, d.value) && Fits(s, d.value, o) && Enc(s, d.value, o).Some?
            && r == Enc(s, d.value, o).value + d.rest
    decreases s, 0, 0
  {
    match s
    case UInt(w) => ReadUintExact(w, r, o);
    case Arr(n, e) => ElemsEncodeDecode(n, e, r, o);
    case Str(p, _) => ReadBlockExact(p.value, r, o);
    case Slice(x, e) =>
      match x {
        case Len(w) =>
          ReadBlockExact(w, r, o);
          AllEncodeDecode(e, ReadBlock(w, r, o).value, o);
        case Count(w) =>
          ReadUintExact(w, r, o);
          var n := ReadUint(w, r, o);
          ElemsEncodeDecode(n.value, e, n.rest, o);
          var d := DecElems(n.value, e, n.rest, o);
          Assoc(PutUint(n.value, w, o), EncElems(e, d.value, o).value, d.rest);
      }
    case Struct(_, fs) => FieldsEncodeDecode(fs, r, o);
  }

  lemma {:induction false} ElemsEncodeDecode(n: nat, e: Schema, r: seq<byte>, o: Order)
    requires Canon(e) && DecElems(n, e, r, o).Done?
    ensures var d := DecElems(n, e, r, o);
            |d.value| == n && AllTyped(e, d.value) && AllFit(e, d.value, o) && EncElems(e, d.value, o).Some?
            && r == EncElems(e, d.value, o).value + d.rest
    decreases e, 1, n
  {
    if n > 0 {
      var h := Dec(e, r, o);
      EncodeDecode(e, r, o);
      ElemsEncodeDecode(n - 1, e, h.rest, o);
      var t := DecElems(n - 1, e, h.rest, o);
      ConsFacts(e, h.value, t.value, o);
      Assoc(Enc(e, h.value, o).value, EncElems(e, t.value, o).value, t.rest);
    }
  }

  lemma {:induction false} AllEncodeDecode(e: Schema, r: seq<byte>, o: Order)
    requires Canon(e) && DecAll(e, r, o).Done?
    ensures var d := DecAll(e, r, o);
            AllTyped(e, d.value) && AllFit(e, d.value, o) && EncElems(e, d.value, o) == Some(r)
    decreases e, 1, |r|
  {
    if r != [] {
      var h := Dec(e, r, o);
      EncodeDecode(e, r, o);
      AllEncodeDecode(e, h.rest, o);
      ConsFacts(e, h.value, DecAll(e, h.rest, o).value, o);
    }
  }

  lemma ConsFacts(e: Schema, v: Value, vs: seq<Value>, o: Order)
    requires Typed(e, v) && AllTyped(e, vs)
    ensures AllTyped(e, [v] + vs)
    ensures EncElems(e, [v] + vs, o) == Join(Enc(e, v, o), EncElems(e, vs, o))
    ensures AllFit(e, [v] + vs, o) <==> Fits(e, v, o) && AllFit(e, vs, o)
  {
    assert ([v] + vs)[1..] == vs;
  }

  /** One more field in front. */
  lemma FieldsCons(f: Schema, fs: seq<Schema>, v: Value, vs: seq<Value>, o: Order)
    requires Typed(f, v) && FieldsTyped(fs, vs)
    ensures FieldsTyped([f] + fs, [v] + vs)
    ensures FieldsFit([f] + fs, [v] + vs, o) <==> Fits(f, v, o) && FieldsFit(fs, vs, o)
    ensures !f.Optional? ==> EncFields([f] + fs, [v] + vs, o) == Join(Enc(f, v, o), EncFields(fs, vs, o))
  {
    assert ([f] + fs)[1..] == fs && ([v] + vs)[1..] == vs;
  }

  lemma TwoFields(f: Schema, v: Value, g: Schema, w: Value, o: Order)
    requires Typed(f, v) && Typed(g, w) && Enc(f, v, o).Some? && Enc(g, w, o).Some? && !f.Optional?
    ensures var s, x := Struct(None, [f, g]), VList([v, w]);
            Typed(s, x) && Enc(s, x, o) == Some(Enc(f, v, o).value + Enc(g, w, o).value)
            && (Fits(s, x, o) <==> Fits(f, v, o) && Fits(g, w, o))
  {
    FieldsCons(g, [], w, [], o);
    FieldsCons(f, [g], v, [w], o);
    assert [g] + [] == [g] && [w] + [] == [w] && [f] + [g] == [f, g] && [v] + [w] == [v, w];
    assert EncFields([g], [w], o) == Enc(g, w, o) by {
      assert ([g])[1..] == [] && ([w])[1..] == [] && Enc(g, w, o).value + [] == Enc(g, w, o).value;
    }
  }

  lemma {:induction false} FieldsEncodeDecode(fs: seq<Schema>, r: seq<byte>, o: Order)
    requires FieldsCanon(fs) && DecFields(fs, r, o).Done?
    ensures var d := DecFields(fs, r, o);
            FieldsTyped(fs, d.value) && FieldsFit(fs, d.value, o) && EncFields(fs, d.value, o).Some?
            && r == EncFields(fs, d.value, o).value + d.rest
    decreases fs, 1, 0
  {
    if fs != [] {
      var h := Dec(fs[0], r, o);
      EncodeDecode(fs[0], r, o);
      FieldsEncodeDecode(fs[1..], h.rest, o);
      var vs := DecFields(fs[1..], h.rest, o).value;
      assert ([h.value] + vs)[1..] == vs;
    }
  }

  // ---------------------------------------------------------------- what follows

  /** The round trip holds exactly for the values whose lengths fit: an overlong one never comes back. */
  lemma RoundTripsIffFits(s: Schema, v: Value, rest: seq<byte>, o: Order)
    requires Canon(s) && Typed(s, v)
    ensures Enc(s, v, o).Some? && Dec(s, Enc(s, v, o).value + rest, o) == Done(v, rest) <==> Fits(s, v, o)
  {
    CanonWellFormed(s, false);
    if Fits(s, v, o) {
      DecodeEncode(s, v, false, rest, o);
    } else if Enc(s, v, o).Some? && Dec(s, Enc(s, v, o).value + rest, o) == Done(v, rest) {
      EncodeDecode(s, Enc(s, v, o).value + rest, o);
    }
  }

  /** No encoding is a proper prefix of another, so two streams that start with encodings of a type agree on both. */
  lemma UniquelyDecodable(s: Schema, v: Value, v': Value, rest: seq<byte>, rest': seq<byte>, o: Order)
    requires Canon(s) && Typed(s, v) && Typed(s, v') && Fits(s, v, o) && Fits(s, v', o)
    requires Enc(s, v, o).Some? && Enc(s, v', o).Some?
    requires Enc(s, v, o).value + rest == Enc(s, v', o).value + rest'
    ensures v == v' && rest == rest'
  {
    RoundTripsIffFits(s, v, rest, o);
    RoundTripsIffFits(s, v', rest', o);
  }

  /** An encoding that was cut short anywhere does not decode. */
  lemma CutEncodingFails(s: Schema, v: Value, k: nat, o: Order)
    requires Canon(s) && Typed(s, v) && Fits(s, v, o)
    requires Enc(s, v, o).Some? && k < |Enc(s, v, o).value|
    ensures Dec(s, Enc(s, v, o).value[..k], o).Fail?
  {
    var bytes := Enc(s, v, o).value;
    if Dec(s, bytes[..k], o).Done? {
      var d := Dec(s, bytes[..k], o);
      EncodeDecode(s, bytes[..k], o);
      Assoc(Enc(s, d.value, o).value, d.rest, bytes[k..]);
      assert bytes + [] == Enc(s, d.value, o).value + (d.rest + bytes[k..]);
      UniquelyDecodable(s, v, d.value, [], d.rest + bytes[k..], o);
      assert false;
    }
  }
}
