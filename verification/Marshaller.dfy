/**
 The marshaller as the source runs it: recursive routines that loop over fields
 and elements, write into a buffer and consume a reader. Each is proved against
 `Enc` or `Dec`.
 */
module Marshaller {
  import opened Wrappers
  import opened Bytes
  import opened Codec

  /** A `bytes.Buffer`: written at the end, read from the front. */
  class Stream {
    var data: seq<byte>

    constructor (data: seq<byte>)
      ensures this.data == data
    {
      this.data := data;
    }

    method Write(bs: seq<byte>)
      modifies this
      ensures data == old(data) + bs
    {
      data := data + bs;
    }

    /** `io.ReadFull`: a short read still uses up what there was. */
    method ReadFull(n: nat) returns (res: Outcome<seq<byte>>)
      modifies this
      ensures res.Left(data) == Codec.ReadFull(n, old(data))
    {
      if n <= |data| {
        res := Ok(data[..n]);
        data := data[n..];
      } else {
        res := Error(if data == [] then EOF else UnexpectedEOF);
        data := [];
      }
    }
  }

  /** What a decoding routine returns; what it left unread stays in the reader. */
  datatype Outcome<+T> = Ok(value: T) | Error(err: ReadError) {
    function Left(rest: seq<byte>): Read<T> {
      match this
      case Ok(v) => Done(v, rest)
      case Error(e) => Fail(e, rest)
    }
  }

  // ---------------------------------------------------------------- encoding

  lemma JoinAssoc(a: seq<byte>, b: Option<seq<byte>>, c: Option<seq<byte>>)
    ensures Join(Some(a), Join(b, c)) == Join(Join(Some(a), b), c)
  {
    if b.Some? && c.Some? {
      assert a + (b.value + c.value) == a + b.value + c.value;
    }
  }

  lemma JoinUnits(a: seq<byte>, b: Option<seq<byte>>)
    ensures Join(Some([]), b) == b
    ensures Join(Some(a), Some([])) == Some(a)
  {
    if b.Some? {
      assert [] + b.value == b.value;
    }
    assert a + [] == a;
  }

  /** `marshal`: dispatches on the kind of the type. */
  method Marshal(s: Schema, v: Value, w: Stream, o: Order) returns (ok: bool)
    requires Typed(s, v)
    modifies w
    ensures ok == Enc(s, v, o).Some?
    ensures ok ==> w.data == old(w.data) + Enc(s, v, o).value
    decreases s, 0, 0
  {
    match s
    case UInt(width) =>
      w.Write(PutUint(v.n, width, o));
      ok := true;
    case Arr(_, e) =>
      if !ElemOk(e) {
        return false;
      }
      ok := MarshalElems(e, v.vs, w, o);
    case Str(p, nt) =>
      MarshalString(p, nt, v.chars, w, o);
      ok := true;
    case Slice(x, e) =>
      ok := MarshalSlice(x, e, v.vs, w, o);
    case Struct(p, fs) =>
      ok := MarshalStruct(p, fs, v.vs, w, o);
    case Optional(p, fs) =>
      if v.VNil? {
        assert w.data == w.data + [];
        return true;
      }
      ok := MarshalStruct(p, fs, v.vs, w, o);
  }

  method MarshalString(p: Option<PrefixWidth>, nullTerm: bool, chars: seq<byte>, w: Stream, o: Order)
    modifies w
    ensures w.data == old(w.data) + Prefixed(p, Terminated(chars, nullTerm), o)
  {
    var str := chars;
    if nullTerm && str != [] {
      str := str + [0];
    }
    if p.Some? {
      w.Write(PutUint(|str|, p.value, o));
    }
    w.Write(str);
  }

  ghost function SliceHead(x: Extent, count: nat, size: nat, o: Order): seq<byte> {
    match x
    case Len(w) => PutUint(size, w, o)
    case Count(w) => PutUint(count, w, o)
    case Rest => []
  }

  lemma SliceEncoding(x: Extent, e: Schema, vs: seq<Value>, body: seq<byte>, o: Order)
    requires AllTyped(e, vs) && ElemOk(e) && EncElems(e, vs, o).Some? && body == [] + EncElems(e, vs, o).value
    ensures Typed(Slice(x, e), VList(vs))
    ensures Enc(Slice(x, e), VList(vs), o) == Some(SliceHead(x, |vs|, |body|, o) + body)
  {
    assert body == EncElems(e, vs, o).value == [] + body;
  }

  /** The elements go to a temporary buffer first, so that their length is known. */
  method MarshalSlice(x: Extent, e: Schema, vs: seq<Value>, w: Stream, o: Order) returns (ok: bool)
    requires AllTyped(e, vs)
    modifies w
    ensures ok == Enc(Slice(x, e), VList(vs), o).Some?
    ensures ok ==> w.data == old(w.data) + Enc(Slice(x, e), VList(vs), o).value
    decreases e, 2, 0
  {
    if !ElemOk(e) {
      return false;
    }
    var buf := new Stream([]);
    ok := MarshalElems(e, vs, buf, o);
    if !ok {
      return;
    }
    var body := buf.data;
    SliceEncoding(x, e, vs, body, o);
    if x.Len? {
      w.Write(PutUint(|body|, x.width, o));
    } else if x.Count? {
      w.Write(PutUint(|vs|, x.width, o));
    }
    w.Write(body);
    assert w.data == old(w.data) + (SliceHead(x, |vs|, |body|, o) + body);
  }

  /** What is written after one more element, and what remains to be written. */
  lemma ElemsStep(e: Schema, vs: seq<Value>, j: nat, before: seq<byte>, written: seq<byte>, o: Order)
    requires j < |vs| && AllTyped(e, vs[j..])
    ensures Typed(e, vs[j]) && AllTyped(e, vs[j + 1..])
    ensures EncElems(e, vs[j..], o) == Join(Enc(e, vs[j], o), EncElems(e, vs[j + 1..], o))
    ensures Enc(e, vs[j], o).Some? ==>
      var x := Enc(e, vs[j], o).value;
      && before + written + x == before + (written + x)
      && Join(Some(written), EncElems(e, vs[j..], o)) == Join(Some(written + x), EncElems(e, vs[j + 1..], o))
  {
    assert vs[j..][1..] == vs[j + 1..];
    JoinAssoc(written, Enc(e, vs[j], o), EncElems(e, vs[j + 1..], o));
  }

  /** One element after the other: the loop over structs, and `binary.Write` of fixed-size elements. */
  method MarshalElems(e: Schema, vs: seq<Value>, w: Stream, o: Order) returns (ok: bool)
    requires AllTyped(e, vs)
    modifies w
    ensures ok == EncElems(e, vs, o).Some?
    ensures ok ==> w.data == old(w.data) + EncElems(e, vs, o).value
    decreases e, 1, 0
  {
    ghost var written := [];
    JoinUnits([], EncElems(e, vs, o));
    for j := 0 to |vs|
      invariant AllTyped(e, vs[j..])
      invariant w.data == old(w.data) + written
      invariant EncElems(e, vs, o) == Join(Some(written), EncElems(e, vs[j..], o))
    {
      ElemsStep(e, vs, j, old(w.data), written, o);
      ok := Marshal(e, vs[j], w, o);
      if !ok {
        return;
      }
      written := written + Enc(e, vs[j], o).value;
    }
    JoinUnits(written, Some([]));
    ok := true;
  }

  /** The length of a buffer, and what is in it. */
  method WritePrefixed(width: PrefixWidth, buf: Stream, w: Stream, o: Order)
    requires buf != w
    modifies w
    ensures w.data == old(w.data) + Prefixed(Some(width), buf.data, o)
  {
    w.Write(PutUint(|buf.data|, width, o));
    w.Write(buf.data);
    assert w.data == old(w.data) + (PutUint(|buf.data|, width, o) + buf.data);
  }

  /** A length-prefixed struct is written to a buffer of its own first. */
  method MarshalStruct(p: Option<PrefixWidth>, fs: seq<Schema>, vs: seq<Value>, w: Stream, o: Order) returns (ok: bool)
    requires FieldsTyped(fs, vs)
    modifies w
    ensures ok == EncFields(fs, vs, o).Some?
    ensures ok ==> w.data == old(w.data) + Prefixed(p, EncFields(fs, vs, o).value, o)
    decreases fs, 2, 0
  {
    if p.Some? {
      var buf := new Stream([]);
      ok := MarshalFields(fs, vs, buf, o);
      if ok {
        WritePrefixed(p.value, buf, w, o);
        assert buf.data == [] + EncFields(fs, vs, o).value == EncFields(fs, vs, o).value;
      }
    } else {
      ok := MarshalFields(fs, vs, w, o);
    }
  }

  lemma FieldsStep(fs: seq<Schema>, vs: seq<Value>, i: nat, before: seq<byte>, written: seq<byte>, o: Order)
    requires i < |fs| == |vs| && FieldsTyped(fs[i..], vs[i..])
    ensures Typed(fs[i], vs[i]) && FieldsTyped(fs[i + 1..], vs[i + 1..])
    ensures EncFields(fs[i..], vs[i..], o) ==
      if fs[i].Optional? && i != |fs| - 1 then None else Join(Enc(fs[i], vs[i], o), EncFields(fs[i + 1..], vs[i + 1..], o))
    ensures Enc(fs[i], vs[i], o).Some? && !(fs[i].Optional? && i != |fs| - 1) ==>
      var x := Enc(fs[i], vs[i], o).value;
      && before + written + x == before + (written + x)
      && Join(Some(written), EncFields(fs[i..], vs[i..], o)) == Join(Some(written + x), EncFields(fs[i + 1..], vs[i + 1..], o))
  {
    assert fs[i..][1..] == fs[i + 1..] && vs[i..][1..] == vs[i + 1..];
    JoinAssoc(written, Enc(fs[i], vs[i], o), EncFields(fs[i + 1..], vs[i + 1..], o));
  }

  method MarshalFields(fs: seq<Schema>, vs: seq<Value>, w: Stream, o: Order) returns (ok: bool)
    requires FieldsTyped(fs, vs)
    modifies w
    ensures ok == EncFields(fs, vs, o).Some?
    ensures ok ==> w.data == old(w.data) + EncFields(fs, vs, o).value
    decreases fs, 1, 0
  {
    ghost var written := [];
    JoinUnits([], EncFields(fs, vs, o));
    for i := 0 to |fs|
      invariant FieldsTyped(fs[i..], vs[i..])
      invariant w.data == old(w.data) + written
      invariant EncFields(fs, vs, o) == Join(Some(written), EncFields(fs[i..], vs[i..], o))
    {
      FieldsStep(fs, vs, i, old(w.data), written, o);
      if fs[i].Optional? && i != |fs| - 1 {
        return false;
      }
      ok := Marshal(fs[i], vs[i], w, o);
      if !ok {
        return;
      }
      written := written + Enc(fs[i], vs[i], o).value;
    }
    JoinUnits(written, Some([]));
    ok := true;
  }

  // ---------------------------------------------------------------- decoding

  method UnmarshalUint(w: nat, r: Stream, o: Order) returns (res: Outcome<nat>)
    modifies r
    ensures res.Left(r.data) == ReadUint(w, old(r.data), o)
  {
    var bs := r.ReadFull(w);
    match bs
    case Ok(b) => res := Ok(GetUint(b, o));
    case Error(e) => res := Error(e);
  }

  method UnmarshalBlock(w: PrefixWidth, r: Stream, o: Order) returns (res: Outcome<seq<byte>>)
    modifies r
    ensures res.Left(r.data) == ReadBlock(w, old(r.data), o)
  {
    var n := UnmarshalUint(w, r, o);
    match n
    case Ok(len) => res := r.ReadFull(len);
    case Error(e) => res := Error(e);
  }

  function Listed(out: Outcome<seq<Value>>): Outcome<Value> {
    match out
    case Ok(vs) => Ok(VList(vs))
    case Error(e) => Error(e)
  }

  /** `unmarshal`: dispatches on the kind of the type. */
  method Unmarshal(s: Schema, r: Stream, o: Order) returns (res: Outcome<Value>)
    modifies r
    ensures res.Left(r.data) == Dec(s, old(r.data), o)
    decreases s, 0, 0
  {
    match s
    case UInt(w) =>
      var n := UnmarshalUint(w, r, o);
      res := if n.Ok? then Ok(VInt(n.value)) else Error(n.err);
    case Arr(n, e) =>
      var vs := UnmarshalElems(n, e, r, o);
      res := Listed(vs);
    case Str(p, nt) =>
      if p.None? {
        return Error(Malformed);
      }
      var bs := UnmarshalBlock(p.value, r, o);
      res := if bs.Error? then Error(bs.err) else Ok(VStr(if nt then UpToNul(bs.value) else bs.value));
    case Slice(x, e) =>
      var vs := UnmarshalSlice(x, e, r, o);
      res := Listed(vs);
    case Struct(p, fs) =>
      var vs := UnmarshalStruct(p, fs, r, o);
      res := Listed(vs);
    case Optional(p, fs) =>
      var vs := UnmarshalStruct(p, fs, r, o);
      res := Listed(vs);
      if res.Error? && res.err.EOF? {
        res := Ok(VNil);
      }
  }

  method UnmarshalElems(n: nat, e: Schema, r: Stream, o: Order) returns (res: Outcome<seq<Value>>)
    modifies r
    ensures res.Left(r.data) == DecElems(n, e, old(r.data), o)
    decreases e, 1, 0
  {
    var slice: seq<Value> := [];
    PrependNone(DecElems(n, e, r.data, o));
    for i := 0 to n
      invariant DecElems(n, e, old(r.data), o) == Prepend(slice, DecElems(n - i, e, r.data, o))
    {
      ghost var before := r.data;
      var elem := Unmarshal(e, r, o);
      if elem.Error? {
        return Error(elem.err);
      }
      PrependStep(slice, elem.value, DecElems(n - i - 1, e, r.data, o));
      slice := slice + [elem.value];
    }
    assert slice + [] == slice;
    res := Ok(slice);
  }

  method UnmarshalSlice(x: Extent, e: Schema, r: Stream, o: Order) returns (res: Outcome<seq<Value>>)
    modifies r
    ensures Listed(res).Left(r.data) == Dec(Slice(x, e), old(r.data), o)
    decreases e, 2, 0
  {
    match x
    case Len(w) =>
      var block := UnmarshalBlock(w, r, o);
      if block.Error? {
        return Error(block.err);
      }
      var buf := new Stream(block.value);
      res := UnmarshalAll(e, buf, o);
    case Count(w) =>
      var n := UnmarshalUint(w, r, o);
      if n.Error? {
        return Error(n.err);
      }
      res := UnmarshalElems(n.value, e, r, o);
    case Rest =>
      res := UnmarshalRest(e, r, o);
  }

  /** The loop `for buf.Len() > 0`. */
  method UnmarshalAll(e: Schema, buf: Stream, o: Order) returns (res: Outcome<seq<Value>>)
    modifies buf
    ensures res.Left(buf.data) == DecAll(e, old(buf.data), o)
    decreases e, 1, 0
  {
    var slice: seq<Value> := [];
    PrependNone(DecAll(e, buf.data, o));
    while |buf.data| > 0
      invariant DecAll(e, old(buf.data), o) == Prepend(slice, DecAll(e, buf.data, o))
      decreases |buf.data|
    {
      var before := |buf.data|;
      var elem := Unmarshal(e, buf, o);
      if elem.Error? {
        return Error(elem.err);
      }
      if |buf.data| == before {
        return Error(Stuck);
      }
      PrependStep(slice, elem.value, DecAll(e, buf.data, o));
      slice := slice + [elem.value];
    }
    assert slice + [] == slice;
    res := Ok(slice);
  }

  /** The loop without a condition: only `EOF` breaks out of it. */
  method UnmarshalRest(e: Schema, r: Stream, o: Order) returns (res: Outcome<seq<Value>>)
    modifies r
    ensures res.Left(r.data) == DecRest(e, old(r.data), o)
    decreases e, 1, 0
  {
    var slice: seq<Value> := [];
    PrependNone(DecRest(e, r.data, o));
    while true
      invariant DecRest(e, old(r.data), o) == Prepend(slice, DecRest(e, r.data, o))
      decreases |r.data|
    {
      var before := |r.data|;
      var elem := Unmarshal(e, r, o);
      if elem.Error? {
        if elem.err.EOF? {
          assert slice + [] == slice;
          return Ok(slice);
        }
        return Error(elem.err);
      }
      if |r.data| == before {
        return Error(Stuck);
      }
      PrependStep(slice, elem.value, DecRest(e, r.data, o));
      slice := slice + [elem.value];
    }
  }

  /** A length-prefixed struct is decoded from a reader over its own block. */
  method UnmarshalStruct(p: Option<PrefixWidth>, fs: seq<Schema>, r: Stream, o: Order) returns (res: Outcome<seq<Value>>)
    modifies r
    ensures Listed(res).Left(r.data) == Dec(Struct(p, fs), old(r.data), o)
    decreases fs, 2, 0
  {
    if p.None? {
      res := UnmarshalFields(fs, r, o);
    } else {
      var block := UnmarshalBlock(p.value, r, o);
      if block.Error? {
        return Error(block.err);
      }
      var buf := new Stream(block.value);
      res := UnmarshalFields(fs, buf, o);
    }
  }

  method UnmarshalFields(fs: seq<Schema>, r: Stream, o: Order) returns (res: Outcome<seq<Value>>)
    modifies r
    ensures res.Left(r.data) == DecFields(fs, old(r.data), o)
    decreases fs, 1, 0
  {
    var vs: seq<Value> := [];
    PrependNone(DecFields(fs, r.data, o));
    for i := 0 to |fs|
      invariant DecFields(fs, old(r.data), o) == Prepend(vs, DecFields(fs[i..], r.data, o))
    {
      assert fs[i..][1..] == fs[i + 1..];
      if fs[i].Optional? && i != |fs| - 1 {
        return Error(Malformed);
      }
      var field := Unmarshal(fs[i], r, o);
      if field.Error? {
        return Error(field.err);
      }
      PrependStep(vs, field.value, DecFields(fs[i + 1..], r.data, o));
      vs := vs + [field.value];
    }
    assert vs + [] == vs;
    res := Ok(vs);
  }

  lemma PrependNone(r: Read<seq<Value>>)
    ensures Prepend([], r) == r
  {
    if r.Done? {
      assert [] + r.value == r.value;
    }
  }

  lemma PrependStep(vs: seq<Value>, v: Value, r: Read<seq<Value>>)
    ensures Prepend(vs, Prepend([v], r)) == Prepend(vs + [v], r)
  {
    if r.Done? {
      assert vs + ([v] + r.value) == vs + [v] + r.value;
    }
  }
}
