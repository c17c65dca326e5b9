/**
 The OSCAR marshaller of wire/encode.go and wire/decode.go.

 Go's reflection over struct types becomes a `Schema`; a Go value of that type
 becomes a `Value`. `Enc` and `Dec` say what the two recursive routines write and
 read, including every error they return. A reader is the bytes it has left; an
 end of input before the first byte of a read (`EOF`) is kept apart from one in
 the middle (`UnexpectedEOF`), because the decoder branches on the difference.
 */
module Codec {
  import opened Wrappers
  import opened Bytes

  /** The widths `reflect.Uint8` to `reflect.Uint64` have, and those a prefix may have. */
  type IntWidth = w: nat | w == 1 || w == 2 || w == 4 || w == 8 witness 1
  type PrefixWidth = w: nat | w == 1 || w == 2 witness 1

  /** How a slice says where it ends: byte length, element count, or the end of the input. */
  datatype Extent = Len(width: PrefixWidth) | Count(width: PrefixWidth) | Rest

  datatype Schema =
    | UInt(width: IntWidth)
    | Arr(len: nat, elem: Schema)
    | Str(prefix: Option<PrefixWidth>, nullTerm: bool)
    | Slice(extent: Extent, elem: Schema)
    | Struct(prefix: Option<PrefixWidth>, fields: seq<Schema>)
    | Optional(prefix: Option<PrefixWidth>, fields: seq<Schema>)

  /** A nil optional pointer is `VNil`; a set one is the `VList` of its fields. */
  datatype Value = VInt(n: nat) | VStr(chars: seq<byte>) | VList(vs: seq<Value>) | VNil

  datatype ReadError = EOF | UnexpectedEOF | Malformed | Stuck

  datatype Read<+T> = Done(value: T, rest: seq<byte>) | Fail(err: ReadError, rest: seq<byte>)

  // ---------------------------------------------------------------- types

  /** Go's static typing: the value has the shape of the type. */
  ghost predicate Typed(s: Schema, v: Value)
    decreases s, 0, 0
  {
    match s
    case UInt(w) => v.VInt? && v.n < Pow256(w)
    case Arr(n, e) => v.VList? && |v.vs| == n && AllTyped(e, v.vs)
    case Str(_, _) => v.VStr?
    case Slice(_, e) => v.VList? && AllTyped(e, v.vs)
    case Struct(_, fs) => v.VList? && FieldsTyped(fs, v.vs)
    case Optional(_, fs) => v.VNil? || (v.VList? && FieldsTyped(fs, v.vs))
  }

  ghost predicate AllTyped(e: Schema, vs: seq<Value>)
    decreases e, 1, |vs|
  {
    vs == [] || (Typed(e, vs[0]) && AllTyped(e, vs[1..]))
  }

  ghost predicate FieldsTyped(fs: seq<Schema>, vs: seq<Value>)
    decreases fs, 1, 0
  {
    |fs| == |vs| && (fs == [] || (Typed(fs[0], vs[0]) && FieldsTyped(fs[1..], vs[1..])))
  }

  /** Types `binary.Write` accepts: nothing of variable size inside. */
  predicate Fixed(s: Schema)
    decreases s, 0
  {
    match s
    case UInt(_) => true
    case Arr(_, e) => Fixed(e)
    case Struct(p, fs) => p.None? && FieldsFixed(fs)
    case _ => false
  }

  predicate FieldsFixed(fs: seq<Schema>)
    decreases fs, 1
  {
    fs == [] || (Fixed(fs[0]) && FieldsFixed(fs[1..]))
  }

  /** Element types the encoder accepts in arrays and slices; elements carry no tag. */
  predicate ElemOk(e: Schema) {
    (e.Struct? && e.prefix.None?) || Fixed(e)
  }

  // ---------------------------------------------------------------- encoding

  /** The length prefix, if any, in front of a body; Go's conversion drops the high bytes of the length. */
  function Prefixed(p: Option<PrefixWidth>, body: seq<byte>, o: Order): seq<byte> {
    if p.Some? then PutUint(|body|, p.value, o) + body else body
  }

  /** What `nullterm` adds to a nonempty string. */
  function Terminated(chars: seq<byte>, nullTerm: bool): seq<byte> {
    if nullTerm && chars != [] then chars + [0] else chars
  }

  function Join(a: Option<seq<byte>>, b: Option<seq<byte>>): Option<seq<byte>> {
    if a.Some? && b.Some? then Some(a.value + b.value) else None
  }

  /** The bytes `marshal` writes, or `None` where it returns an error. */
  function Enc(s: Schema, v: Value, o: Order): (r: Option<seq<byte>>)
    requires Typed(s, v)
    decreases s, 0, 0
  {
    match s
    case UInt(w) => Some(PutUint(v.n, w, o))
    case Arr(_, e) => if ElemOk(e) then EncElems(e, v.vs, o) else None
    case Str(p, nt) => Some(Prefixed(p, Terminated(v.chars, nt), o))
    case Slice(x, e) =>
      if !ElemOk(e) then None else
      var body := EncElems(e, v.vs, o);
      if body.None? then None else
      (match x
       case Len(w) => Some(Prefixed(Some(w), body.value, o))
       case Count(w) => Some(PutUint(|v.vs|, w, o) + body.value)
       case Rest => body)
    case Struct(p, fs) =>
      var body := EncFields(fs, v.vs, o);
      if body.None? then None else Some(Prefixed(p, body.value, o))
    case Optional(p, fs) =>
      if v.VNil? then Some([]) else
      var body := EncFields(fs, v.vs, o);
      if body.None? then None else Some(Prefixed(p, body.value, o))
  }

  function EncElems(e: Schema, vs: seq<Value>, o: Order): (r: Option<seq<byte>>)
    requires AllTyped(e, vs)
    decreases e, 1, |vs|
  {
    if vs == [] then Some([]) else Join(Enc(e, vs[0], o), EncElems(e, vs[1..], o))
  }

  /** A pointer field anywhere but last is an error. */
  function EncFields(fs: seq<Schema>, vs: seq<Value>, o: Order): (r: Option<seq<byte>>)
    requires FieldsTyped(fs, vs)
    decreases fs, 1, 0
  {
    if fs == [] then Some([])
    else if fs[0].Optional? && |fs| > 1 then None
    else Join(Enc(fs[0], vs[0], o), EncFields(fs[1..], vs[1..], o))
  }

  // ---------------------------------------------------------------- decoding

  /** `io.ReadFull` of `n` bytes; every caller skips the read when `n` is zero. */
  function ReadFull(n: nat, r: seq<byte>): (res: Read<seq<byte>>) {
    if n <= |r| then Done(r[..n], r[n..])
    else if r == [] then Fail(EOF, [])
    else Fail(UnexpectedEOF, [])
  }

  function ReadUint(w: nat, r: seq<byte>, o: Order): Read<nat> {
    match ReadFull(w, r)
    case Done(bs, rest) => Done(GetUint(bs, o), rest)
    case Fail(e, rest) => Fail(e, rest)
  }

  /** A length prefix and that many bytes after it. */
  function ReadBlock(w: PrefixWidth, r: seq<byte>, o: Order): Read<seq<byte>> {
    match ReadUint(w, r, o)
    case Done(n, rest) => ReadFull(n, rest)
    case Fail(e, rest) => Fail(e, rest)
  }

  /** The bytes before the first NUL, or all of them. */
  function UpToNul(bs: seq<byte>): seq<byte> {
    if bs == [] || bs[0] == 0 then [] else [bs[0]] + UpToNul(bs[1..])
  }

  function AsList(r: Read<seq<Value>>): Read<Value> {
    match r
    case Done(vs, rest) => Done(VList(vs), rest)
    case Fail(e, rest) => Fail(e, rest)
  }

  /** Prepends decoded elements to what the rest of a loop yields. */
  function Prepend(vs: seq<Value>, r: Read<seq<Value>>): Read<seq<Value>> {
    match r
    case Done(ws, rest) => Done(vs + ws, rest)
    case Fail(e, rest) => Fail(e, rest)
  }

  /** Decodes a struct body found inside a block of its own: bytes left in the block are dropped. */
  function Within(inner: Read<seq<Value>>, rest: seq<byte>): Read<seq<Value>> {
    match inner
    case Done(vs, _) => Done(vs, rest)
    case Fail(e, _) => Fail(e, rest)
  }

  /** What `unmarshal` returns, and the bytes it leaves in the reader. */
  function Dec(s: Schema, r: seq<byte>, o: Order): (res: Read<Value>)
    ensures |res.rest| <= |r|
    decreases s, 0, 0
  {
    match s
    case UInt(w) =>
      (match ReadUint(w, r, o)
       case Done(n, rest) => Done(VInt(n), rest)
       case Fail(e, rest) => Fail(e, rest))
    case Arr(n, e) => AsList(DecElems(n, e, r, o))
    case Str(p, nt) =>
      if p.None? then Fail(Malformed, r) else
      (match ReadBlock(p.value, r, o)
       case Done(bs, rest) => Done(VStr(if nt then UpToNul(bs) else bs), rest)
       case Fail(e, rest) => Fail(e, rest))
    case Slice(x, e) =>
      (match x
       case Len(w) =>
         (match ReadBlock(w, r, o)
          case Done(block, rest) => AsList(Within(DecAll(e, block, o), rest))
          case Fail(err, rest) => Fail(err, rest))
       case Count(w) =>
         (match ReadUint(w, r, o)
          case Done(n, rest) => AsList(DecElems(n, e, rest, o))
          case Fail(err, rest) => Fail(err, rest))
       case Rest => AsList(DecRest(e, r, o)))
    case Struct(p, fs) =>
      if p.None? then AsList(DecFields(fs, r, o)) else
      (match ReadBlock(p.value, r, o)
       case Done(block, rest) => AsList(Within(DecFields(fs, block, o), rest))
       case Fail(err, rest) => Fail(err, rest))
    case Optional(p, fs) =>
      var res :=
        if p.None? then AsList(DecFields(fs, r, o)) else
        (match ReadBlock(p.value, r, o)
         case Done(block, rest) => AsList(Within(DecFields(fs, block, o), rest))
         case Fail(err, rest) => Fail(err, rest));
      if res.Fail? && res.err.EOF? then Done(VNil, res.rest) else res
  }

  /** Exactly `n` elements: arrays and count-prefixed slices. */
  function DecElems(n: nat, e: Schema, r: seq<byte>, o: Order): (res: Read<seq<Value>>)
    ensures |res.rest| <= |r|
    decreases e, 1, n
  {
    if n == 0 then Done([], r) else
    match Dec(e, r, o)
    case Done(v, rest) => Prepend([v], DecElems(n - 1, e, rest, o))
    case Fail(err, rest) => Fail(err, rest)
  }

  /** Elements until a length-prefixed block is used up. The Go loop never ends if an element takes no bytes: `Stuck`. */
  function DecAll(e: Schema, r: seq<byte>, o: Order): (res: Read<seq<Value>>)
    ensures |res.rest| <= |r|
    decreases e, 1, |r|
  {
    if r == [] then Done([], r) else
    match Dec(e, r, o)
    case Done(v, rest) => if |rest| < |r| then Prepend([v], DecAll(e, rest, o)) else Fail(Stuck, rest)
    case Fail(err, rest) => Fail(err, rest)
  }

  /** Elements until one fails with `EOF`, which ends the slice; any other failure is returned. */
  function DecRest(e: Schema, r: seq<byte>, o: Order): (res: Read<seq<Value>>)
    ensures |res.rest| <= |r|
    decreases e, 1, |r|
  {
    match Dec(e, r, o)
    case Done(v, rest) => if |rest| < |r| then Prepend([v], DecRest(e, rest, o)) else Fail(Stuck, rest)
    case Fail(err, rest) => if err.EOF? then Done([], rest) else Fail(err, rest)
  }

  function DecFields(fs: seq<Schema>, r: seq<byte>, o: Order): (res: Read<seq<Value>>)
    ensures |res.rest| <= |r|
    decreases fs, 1, 0
  {
    if fs == [] then Done([], r)
    else if fs[0].Optional? && |fs| > 1 then Fail(Malformed, r)
    else
      match Dec(fs[0], r, o)
      case Done(v, rest) => Prepend([v], DecFields(fs[1..], rest, o))
      case Fail(err, rest) => Fail(err, rest)
  }
}
