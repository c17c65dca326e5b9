/** The signed sign-on cookie of state/cookie.go, over any MAC with 32-byte tags. */
module Cookie {
  import opened Wrappers
  import opened Bytes
  import opened Codec
  import opened RoundTrip
  import opened Canonical
  import opened Tlv
  import opened Marshaller

  const AUTH_COOKIE_LEN: nat := 256
  const SECOND: int := 1_000_000_000

  const TOKEN_PAYLOAD: Schema := Struct(None, [UInt(4), BYTE_SLICE])
  const TOKEN: Schema := Struct(None, [BYTE_SLICE, BYTE_SLICE])

  /** HMAC-SHA256 is left open; only the length of its tags matters. */
  type Mac = (seq<byte>, seq<byte>) -> seq<byte>

  ghost predicate Tags32(mac: Mac) {
    forall key, msg :: |mac(key, msg)| == 32
  }

  /** Zero bytes up to the fixed length. */
  function Zeros(n: nat): (bs: seq<byte>)
    ensures |bs| == n
  {
    seq(n, _ => 0)
  }

  /** One minute from `now` (nanoseconds), as a uint32 of seconds. */
  function ExpiryAt(now: nat): nat {
    (now + 60 * SECOND) / SECOND % 0x1_0000_0000
  }

  function PayloadBytes(expiry: nat, data: seq<byte>): seq<byte> {
    PutBE(expiry, 4) + (PutBE(|data|, 2) + data)
  }

  function TokenBytes(data: seq<byte>, sig: seq<byte>): seq<byte> {
    (PutBE(|data|, 2) + data) + (PutBE(|sig|, 2) + sig)
  }

  lemma PayloadEncoding(expiry: nat, data: seq<byte>)
    requires expiry < 0x1_0000_0000
    ensures var v := VList([VInt(expiry), VList(ToBytes(data))]);
            Typed(TOKEN_PAYLOAD, v) && Enc(TOKEN_PAYLOAD, v, BigEndian) == Some(PayloadBytes(expiry, data))
            && (Fits(TOKEN_PAYLOAD, v, BigEndian) <==> |data| < 65536)
  {
    FourBytes();
    BlobEncoding(data, BigEndian);
    TwoFields(UInt(4), VInt(expiry), BYTE_SLICE, VList(ToBytes(data)), BigEndian);
  }

  lemma TokenEncoding(data: seq<byte>, sig: seq<byte>)
    ensures var v := VList([VList(ToBytes(data)), VList(ToBytes(sig))]);
            Typed(TOKEN, v) && Enc(TOKEN, v, BigEndian) == Some(TokenBytes(data, sig))
            && (Fits(TOKEN, v, BigEndian) <==> |data| < 65536 && |sig| < 65536)
  {
    BlobEncoding(data, BigEndian);
    BlobEncoding(sig, BigEndian);
    TwoFields(BYTE_SLICE, VList(ToBytes(data)), BYTE_SLICE, VList(ToBytes(sig)), BigEndian);
  }

  lemma FourBytes()
    ensures Pow256(4) == 0x1_0000_0000
  {
    TwoBytes();
    assert Pow256(3) == 256 * Pow256(2);
  }

  lemma CookieShapes()
    ensures Canon(TOKEN_PAYLOAD) && Canon(TOKEN)
  {
    FieldsCanonAll(TOKEN_PAYLOAD.fields);
    FieldsCanonAll(TOKEN.fields);
  }

  /** The two byte slices of a decoded token. */
  function TokenParts(v: Value): (p: (seq<byte>, seq<byte>))
    requires Typed(TOKEN, v)
  {
    FieldsTypedAll(TOKEN.fields, v.vs);
    assert Typed(BYTE_SLICE, v.vs[0]) && Typed(BYTE_SLICE, v.vs[1]);
    (OfBytes(v.vs[0].vs), OfBytes(v.vs[1].vs))
  }

  function PayloadParts(v: Value): (p: (nat, seq<byte>))
    requires Typed(TOKEN_PAYLOAD, v)
  {
    FieldsTypedAll(TOKEN_PAYLOAD.fields, v.vs);
    assert Typed(UInt(4), v.vs[0]) && Typed(BYTE_SLICE, v.vs[1]);
    (v.vs[0].n, OfBytes(v.vs[1].vs))
  }

  /** `Crack`, as a function of the cookie and the time in nanoseconds. */
  function Cracked(mac: Mac, key: seq<byte>, cookie: seq<byte>, now: nat): Option<seq<byte>> {
    CookieShapes();
    var t := Dec(TOKEN, cookie, BigEndian);
    if t.Fail? then None else
    EncodeDecode(TOKEN, cookie, BigEndian);
    var (data, sig) := TokenParts(t.value);
    if sig != mac(key, data) then None else
    var p := Dec(TOKEN_PAYLOAD, data, BigEndian);
    if p.Fail? then None else
    EncodeDecode(TOKEN_PAYLOAD, data, BigEndian);
    var (expiry, payload) := PayloadParts(p.value);
    if expiry * SECOND < now then None else Some(payload)
  }

  class CookieBaker {
    const key: seq<byte>
    const mac: Mac

    constructor (key: seq<byte>, mac: Mac)
      ensures this.key == key && this.mac == mac
    {
      this.key := key;
      this.mac := mac;
    }

    /** A cookie is always 256 bytes: payload, tag and zero padding. There is none for more than 214 bytes of data. */
    method Issue(data: seq<byte>, now: nat) returns (cookie: Option<seq<byte>>)
      requires Tags32(mac)
      ensures cookie.Some? <==> |data| <= 214
      ensures cookie.Some? ==> |cookie.value| == 256 && Cookie(mac, key, data, now) <= cookie.value
      ensures cookie.Some? ==> cookie.value[42 + |data|..] == Zeros(214 - |data|)
    {
      var expiry := ExpiryAt(now);
      PayloadEncoding(expiry, data);
      var buf := new Stream([]);
      var ok := Marshal(TOKEN_PAYLOAD, VList([VInt(expiry), VList(ToBytes(data))]), buf, BigEndian);
      var body := buf.data;
      assert body == PayloadBytes(expiry, data);
      var sig := mac(key, body);
      TokenEncoding(body, sig);
      buf := new Stream([]);
      ok := Marshal(TOKEN, VList([VList(ToBytes(body)), VList(ToBytes(sig))]), buf, BigEndian);
      assert buf.data == TokenBytes(body, sig);
      if |buf.data| > AUTH_COOKIE_LEN {
        return None;
      }
      buf.Write(Zeros(AUTH_COOKIE_LEN - |buf.data|));
      cookie := Some(buf.data);
    }

    method Crack(cookie: seq<byte>, now: nat) returns (data: Option<seq<byte>>)
      ensures data == Cracked(mac, key, cookie, now)
    {
      CookieShapes();
      var buf := new Stream(cookie);
      var token := Unmarshal(TOKEN, buf, BigEndian);
      if token.Error? {
        return None;
      }
      EncodeDecode(TOKEN, cookie, BigEndian);
      var (body, sig) := TokenParts(token.value);
      if sig != mac(key, body) {
        return None;
      }
      buf := new Stream(body);
      var payload := Unmarshal(TOKEN_PAYLOAD, buf, BigEndian);
      if payload.Error? {
        return None;
      }
      EncodeDecode(TOKEN_PAYLOAD, body, BigEndian);
      var (expiry, d) := PayloadParts(payload.value);
      data := if expiry * SECOND < now then None else Some(d);
    }
  }

  /** The signed part of a cookie issued at `now`. */
  function Cookie(mac: Mac, key: seq<byte>, data: seq<byte>, now: nat): seq<byte> {
    var body := PayloadBytes(ExpiryAt(now), data);
    TokenBytes(body, mac(key, body))
  }

  /** Whatever padding follows, an issued cookie gives its data back until it expires, and nothing after that. */
  lemma CrackIssued(mac: Mac, key: seq<byte>, data: seq<byte>, issued: nat, padding: seq<byte>, now: nat)
    requires Tags32(mac) && |data| <= 214
    ensures Cracked(mac, key, Cookie(mac, key, data, issued) + padding, now)
         == if now <= ExpiryAt(issued) * SECOND then Some(data) else None
  {
    CookieShapes();
    var expiry := ExpiryAt(issued);
    var body := PayloadBytes(expiry, data);
    var sig := mac(key, body);
    PayloadEncoding(expiry, data);
    TokenEncoding(body, sig);
    var p := VList([VInt(expiry), VList(ToBytes(data))]);
    var t := VList([VList(ToBytes(body)), VList(ToBytes(sig))]);
    RoundTripsIffFits(TOKEN, t, padding, BigEndian);
    RoundTripsIffFits(TOKEN_PAYLOAD, p, [], BigEndian);
    assert body + [] == body;
    BytesAreRaw(body, BigEndian);
    BytesAreRaw(sig, BigEndian);
    BytesAreRaw(data, BigEndian);
    assert TokenParts(t) == (body, sig) && PayloadParts(p) == (expiry, data);
  }

  /** A cookie that cracks starts with some payload under its correct tag. */
  lemma CrackedIsSigned(mac: Mac, key: seq<byte>, cookie: seq<byte>, now: nat)
    requires Cracked(mac, key, cookie, now).Some?
    ensures exists body :: TokenBytes(body, mac(key, body)) <= cookie
  {
    CookieShapes();
    EncodeDecode(TOKEN, cookie, BigEndian);
    var v := Dec(TOKEN, cookie, BigEndian).value;
    var (body, sig) := TokenParts(v);
    FieldsTypedAll(TOKEN.fields, v.vs);
    assert Typed(BYTE_SLICE, v.vs[0]) && Typed(BYTE_SLICE, v.vs[1]);
    assert v.vs == [VList(ToBytes(body)), VList(ToBytes(sig))];
    TokenEncoding(body, sig);
    assert TokenBytes(body, mac(key, body)) <= cookie;
  }
}
