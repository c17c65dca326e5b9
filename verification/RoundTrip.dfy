/** What the marshaller and the unmarshaller promise together. */
module RoundTrip {
  import opened Wrappers
  import opened Bytes
  import opened Codec

  // ---------------------------------------------------------------- which schemas, which values

  /** Every encoding has a byte and decoding nothing hits `EOF` at once. */
  predicate Consumes(s: Schema)
    decreases s, 0
  {
    match s
    case UInt(_) => true
    case Arr(n, e) => n > 0 && Consumes(e)
    case Str(p, _) => p.Some?
    case Slice(x, _) => !x.Rest?
    case Struct(p, fs) => p.Some? || SomeFieldConsumes(fs)
    case Optional(_, _) => false
  }

  predicate SomeFieldConsumes(fs: seq<Schema>)
    decreases fs, 1
  {
    fs != [] && (Consumes(fs[0]) || SomeFieldConsumes(fs[1..]))
  }

  /**
   The schemas that round-trip. Something that runs to the end of its input (a
   rest slice, an optional) must be in `tail` position; the body of a
   length-prefixed struct is an input of its own, so its last field always is.
   */
  predicate WellFormed(s: Schema, tail: bool)
    decreases s, 0
  {
    match s
    case UInt(_) => true
    case Arr(_, e) => ElemOk(e) && WellFormed(e, false)
    case Str(p, _) => p.Some?
    case Slice(x, e) => ElemOk(e) && WellFormed(e, false) && (x.Rest? ==> tail) && (x.Count? || Consumes(e))
    case Struct(p, fs) => FieldsWellFormed(fs, tail || p.Some?)
    case Optional(p, fs) =>
      tail && FieldsWellFormed(fs, true) && (p.Some? || SomeFieldConsumes(fs))
  }

  predicate FieldsWellFormed(fs: seq<Schema>, tail: bool)
    decreases fs, 1
  {
    fs == [] || (WellFormed(fs[0], tail && |fs| == 1) && FieldsWellFormed(fs[1..], tail))
  }

  /** Lengths fit their prefixes, and NUL-terminated strings hold no NUL. */
  ghost predicate Fits(s: Schema, v: Value, o: Order)
    requires Typed(s, v)
    decreases s, 0, 0
  {
    match s
    case UInt(_) => true
    case Arr(_, e) => AllFit(e, v.vs, o)
    case Str(p, nt) => (p.Some? ==> |Terminated(v.chars, nt)| < Pow256(p.value)) && (nt ==> 0 !in v.chars)
    case Slice(x, e) =>
      && AllFit(e, v.vs, o)
      && (x.Len? ==> EncElems(e, v.vs, o).Some? ==> |EncElems(e, v.vs, o).value| < Pow256(x.width))
      && (x.Count? ==> |v.vs| < Pow256(x.width))
    case Struct(p, fs) => FieldsFit(fs, v.vs, o) && BodyFits(p, fs, v.vs, o)
    case Optional(p, fs) => v.VNil? || (FieldsFit(fs, v.vs, o) && BodyFits(p, fs, v.vs, o))
  }

  ghost predicate BodyFits(p: Option<PrefixWidth>, fs: seq<Schema>, vs: seq<Value>, o: Order)
    requires FieldsTyped(fs, vs)
    decreases fs, 2, 0
  {
    p.Some? ==> EncFields(fs, vs, o).Some? ==> |EncFields(fs, vs, o).value| < Pow256(p.value)
  }

  ghost predicate AllFit(e: Schema, vs: seq<Value>, o: Order)
    requires AllTyped(e, vs)
    decreases e, 1, |vs|
  {
    vs == [] || (Fits(e, vs[0], o) && AllFit(e, vs[1..], o))
  }

  ghost predicate FieldsFit(fs: seq<Schema>, vs: seq<Value>, o: Order)
    requires FieldsTyped(fs, vs)
    decreases fs, 1, 0
  {
    fs == [] || (Fits(fs[0], vs[0], o) && FieldsFit(fs[1..], vs[1..], o))
  }

  // ---------------------------------------------------------------- reading back what was written

  lemma Assoc(a: seq<byte>, b: seq<byte>, c: seq<byte>)
    ensures a + b + c == a + (b + c)
    ensures [] + c == c
  {
  }

  lemma ReadFullAppend(bs: seq<byte>, rest: seq<byte>)
    ensures ReadFull(|bs|, bs + rest) == Done(bs, rest)
  {
    assert (bs + rest)[..|bs|] == bs && (bs + rest)[|bs|..] == rest;
  }

  lemma ReadUintAppend(n: nat, w: nat, rest: seq<byte>, o: Order)
    requires n < Pow256(w)
    ensures ReadUint(w, PutUint(n, w, o) + rest, o) == Done(n, rest)
  {
    ReadFullAppend(PutUint(n, w, o), rest);
    PutGet(n, w, o);
  }

  lemma ReadBlockAppend(body: seq<byte>, w: PrefixWidth, rest: seq<byte>, o: Order)
    requires |body| < Pow256(w)
    ensures ReadBlock(w, Prefixed(Some(w), body, o) + rest, o) == Done(body, rest)
  {
    var head := PutUint(|body|, w, o);
    assert Prefixed(Some(w), body, o) + rest == head + (body + rest);
    ReadUintAppend(|body|, w, body + rest, o);
    ReadFullAppend(body, rest);
  }

  lemma {:induction false} UpToNulOfTerminated(chars: seq<byte>, nullTerm: bool)
    requires nullTerm ==> 0 !in chars
    ensures (if nullTerm then UpToNul(Terminated(chars, nullTerm)) else Terminated(chars, nullTerm)) == chars
    decreases |chars|
  {
    if nullTerm && chars != [] {
      UpToNulOfTerminated(chars[1..], nullTerm);
      if |chars| > 1 {
        assert Terminated(chars, true)[1..] == Terminated(chars[1..], true);
      } else {
        assert Terminated(chars, true)[1..] == [0];
      }
    }
  }

  /** Writing a value whose type is in tail position or followed by anything else never fails and reads back. */
  lemma {:induction false} DecodeEncode(s: Schema, v: Value, tail: bool, rest: seq<byte>, o: Order)
    requires WellFormed(s, tail) && Typed(s, v) && Fits(s, v, o)
    requires tail ==> rest == []
    ensures Enc(s, v, o).Some?
    ensures Dec(s, Enc(s, v, o).value + rest, o) == Done(v, rest)
    decreases s, 0, 0
  {
    match s
    case UInt(w) =>
      ReadUintAppend(v.n, w, rest, o);
    case Arr(n, e) =>
      ElemsDecodeEncode(e, v.vs, rest, o);
    case Str(p, nt) =>
      ReadBlockAppend(Terminated(v.chars, nt), p.value, rest, o);
      UpToNulOfTerminated(v.chars, nt);
    case Slice(x, e) =>
      SliceDecodeEncode(x, e, v.vs, rest, o);
    case Struct(p, fs) =>
      BodyDecodeEncode(p, fs, v.vs, tail || p.Some?, rest, o);
    case Optional(p, fs) =>
      if v.VNil? {
        assert Enc(s, v, o).value + rest == [];
        if p.None? {
          FieldsDecodeNothing(fs, true, o);
        } else {
          assert Prefixed(None, [], o) == [];
        }
      } else {
        BodyDecodeEncode(p, fs, v.vs, true, rest, o);
      }
  }

  lemma {:induction false} SliceDecodeEncode(x: Extent, e: Schema, vs: seq<Value>, rest: seq<byte>, o: Order)
    requires ElemOk(e) && WellFormed(e, false) && (x.Rest? ==> rest == []) && (x.Count? || Consumes(e))
    requires Typed(Slice(x, e), VList(vs)) && Fits(Slice(x, e), VList(vs), o)
    ensures Enc(Slice(x, e), VList(vs), o).Some?
    ensures Dec(Slice(x, e), Enc(Slice(x, e), VList(vs), o).value + rest, o) == Done(VList(vs), rest)
    decreases e, 2, 0
  {
    ElemsDecodeEncode(e, vs, rest, o);
    var body := EncElems(e, vs, o).value;
    match x {
      case Len(w) =>
        AllDecodeEncode(e, vs, o);
        BlockReadsBack(body, w, rest, o);
      case Count(w) =>
        CountReadsBack(|vs|, body, w, rest, o);
      case Rest =>
        assert body + rest == body;
        RestDecodeEncode(e, vs, o);
    }
  }

  lemma BlockReadsBack(body: seq<byte>, w: PrefixWidth, rest: seq<byte>, o: Order)
    requires |body| < Pow256(w)
    ensures ReadBlock(w, Prefixed(Some(w), body, o) + rest, o) == Done(body, rest)
  {
    ReadBlockAppend(body, w, rest, o);
  }

  lemma CountReadsBack(n: nat, body: seq<byte>, w: PrefixWidth, rest: seq<byte>, o: Order)
    requires n < Pow256(w)
    ensures ReadUint(w, PutUint(n, w, o) + body + rest, o) == Done(n, body + rest)
  {
    Assoc(PutUint(n, w, o), body, rest);
    ReadUintAppend(n, w, body + rest, o);
  }

  lemma {:induction false} BodyDecodeEncode(p: Option<PrefixWidth>, fs: seq<Schema>, vs: seq<Value>, tail: bool, rest: seq<byte>, o: Order)
    requires FieldsWellFormed(fs, tail) && FieldsTyped(fs, vs) && FieldsFit(fs, vs, o) && BodyFits(p, fs, vs, o)
    requires p.None? && tail ==> rest == []
    ensures EncFields(fs, vs, o).Some?
    ensures var bytes := Prefixed(p, EncFields(fs, vs, o).value, o) + rest;
            if p.None? then DecFields(fs, bytes, o) == Done(vs, rest)
            else ReadBlock(p.value, bytes, o) == Done(EncFields(fs, vs, o).value, rest)
                 && DecFields(fs, EncFields(fs, vs, o).value, o) == Done(vs, [])
    decreases fs, 2, 0
  {
    if p.None? {
      FieldsDecodeEncode(fs, vs, tail, rest, o);
    } else {
      FieldsDecodeEncode(fs, vs, tail, [], o);
      var body := EncFields(fs, vs, o).value;
      assert body + [] == body;
      ReadBlockAppend(body, p.value, rest, o);
    }
  }

  lemma {:induction false} FieldsDecodeEncode(fs: seq<Schema>, vs: seq<Value>, tail: bool, rest: seq<byte>, o: Order)
    requires FieldsWellFormed(fs, tail) && FieldsTyped(fs, vs) && FieldsFit(fs, vs, o)
    requires tail ==> rest == []
    ensures EncFields(fs, vs, o).Some?
    ensures DecFields(fs, EncFields(fs, vs, o).value + rest, o) == Done(vs, rest)
    decreases fs, 1, 0
  {
    if fs != [] {
      FieldsDecodeEncode(fs[1..], vs[1..], tail, rest, o);
      var after := EncFields(fs[1..], vs[1..], o).value + rest;
      DecodeEncode(fs[0], vs[0], tail && |fs| == 1, after, o);
      Assoc(Enc(fs[0], vs[0], o).value, EncFields(fs[1..], vs[1..], o).value, rest);
      assert [vs[0]] + vs[1..] == vs;
    }
  }

  lemma {:induction false} ElemsDecodeEncode(e: Schema, vs: seq<Value>, rest: seq<byte>, o: Order)
    requires WellFormed(e, false) && AllTyped(e, vs) && AllFit(e, vs, o)
    ensures EncElems(e, vs, o).Some?
    ensures DecElems(|vs|, e, EncElems(e, vs, o).value + rest, o) == Done(vs, rest)
    decreases e, 1, |vs|
  {
    if vs != [] {
      ElemsDecodeEncode(e, vs[1..], rest, o);
      var after := EncElems(e, vs[1..], o).value + rest;
      DecodeEncode(e, vs[0], false, after, o);
      Assoc(Enc(e, vs[0], o).value, EncElems(e, vs[1..], o).value, rest);
      assert [vs[0]] + vs[1..] == vs;
    }
  }

  /** The loop over a length-prefixed block stops exactly where the elements do. */
  lemma {:induction false} AllDecodeEncode(e: Schema, vs: seq<Value>, o: Order)
    requires WellFormed(e, false) && Consumes(e) && AllTyped(e, vs) && AllFit(e, vs, o)
    ensures EncElems(e, vs, o).Some?
    ensures DecAll(e, EncElems(e, vs, o).value, o) == Done(vs, [])
    decreases e, 1, |vs|
  {
    if vs != [] {
      AllDecodeEncode(e, vs[1..], o);
      var after := EncElems(e, vs[1..], o).value;
      DecodeEncode(e, vs[0], false, after, o);
      EncodingNonEmpty(e, vs[0], o);
      assert [vs[0]] + vs[1..] == vs;
    }
  }

  /** The open-ended loop stops at the end of its input, and only there. */
  lemma {:induction false} RestDecodeEncode(e: Schema, vs: seq<Value>, o: Order)
    requires WellFormed(e, false) && Consumes(e) && AllTyped(e, vs) && AllFit(e, vs, o)
    ensures EncElems(e, vs, o).Some?
    ensures DecRest(e, EncElems(e, vs, o).value, o) == Done(vs, [])
    decreases e, 1, |vs|
  {
    if vs != [] {
      RestDecodeEncode(e, vs[1..], o);
      var after := EncElems(e, vs[1..], o).value;
      DecodeEncode(e, vs[0], false, after, o);
      EncodingNonEmpty(e, vs[0], o);
      assert [vs[0]] + vs[1..] == vs;
    } else {
      DecodeNothing(e, false, o);
    }
  }

  /** On an empty input a read either succeeds without bytes or reports `EOF`; a consuming type reports `EOF`. */
  lemma {:induction false} DecodeNothing(s: Schema, tail: bool, o: Order)
    requires WellFormed(s, tail)
    ensures Dec(s, [], o).rest == []
    ensures Dec(s, [], o).Fail? ==> Dec(s, [], o).err.EOF?
    ensures Consumes(s) ==> Dec(s, [], o).Fail?
    decreases s, 0, 0
  {
    match s
    case Arr(n, e) => ElemsDecodeNothing(n, e, o);
    case Slice(x, e) => if x.Rest? { DecodeNothing(e, false, o); }
    case Struct(p, fs) => if p.None? { FieldsDecodeNothing(fs, tail, o); }
    case Optional(p, fs) => if p.None? { FieldsDecodeNothing(fs, true, o); }
    case _ =>
  }

  lemma {:induction false} ElemsDecodeNothing(n: nat, e: Schema, o: Order)
    requires WellFormed(e, false)
    ensures DecElems(n, e, [], o).rest == []
    ensures DecElems(n, e, [], o).Fail? ==> DecElems(n, e, [], o).err.EOF?
    ensures n > 0 && Consumes(e) ==> DecElems(n, e, [], o).Fail?
    decreases e, 1, n
  {
    DecodeNothing(e, false, o);
    if n > 0 {
      ElemsDecodeNothing(n - 1, e, o);
    }
  }

  lemma {:induction false} FieldsDecodeNothing(fs: seq<Schema>, tail: bool, o: Order)
    requires FieldsWellFormed(fs, tail)
    ensures DecFields(fs, [], o).rest == []
    ensures DecFields(fs, [], o).Fail? ==> DecFields(fs, [], o).err.EOF?
    ensures SomeFieldConsumes(fs) ==> DecFields(fs, [], o).Fail?
    decreases fs, 1, 0
  {
    if fs != [] {
      DecodeNothing(fs[0], tail && |fs| == 1, o);
      FieldsDecodeNothing(fs[1..], tail, o);
    }
  }

  lemma {:induction false} EncodingNonEmpty(s: Schema, v: Value, o: Order)
    requires Consumes(s) && Typed(s, v) && Enc(s, v, o).Some?
    ensures Enc(s, v, o).value != []
    decreases s, 0
  {
    match s
    case Arr(n, e) => EncodingNonEmpty(e, v.vs[0], o);
    case Struct(p, fs) => if p.None? { FieldsNonEmpty(fs, v.vs, o); }
    case _ =>
  }

  lemma {:induction false} FieldsNonEmpty(fs: seq<Schema>, vs: seq<Value>, o: Order)
    requires SomeFieldConsumes(fs) && FieldsTyped(fs, vs) && EncFields(fs, vs, o).Some?
    ensures EncFields(fs, vs, o).value != []
    decreases fs, 1
  {
    if Consumes(fs[0]) {
      EncodingNonEmpty(fs[0], vs[0], o);
    } else {
      FieldsNonEmpty(fs[1..], vs[1..], o);
    }
  }
}
