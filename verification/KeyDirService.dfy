/** The key directory service (foodgroup/benco_keydir.go): what is checked before anything is stored. */
module KeyDirService {
  import opened Wrappers
  import opened Bytes
  import opened ScreenNames
  import opened Manifest
  import opened KeyDirectory
  import opened KeyDirRuns

  const KEYDIR_VERSION: nat := 2
  const ALG_X25519: nat := 1
  const ALG_ED25519: nat := 2
  const KEY_LEN: nat := 32
  const SIG_LEN: nat := 64
  const MAX_MANIFEST_LEN: nat := 16384
  const MAX_DEVICES: nat := 32
  const MAX_BACKUP_LEN: nat := 4096
  const KDF_ARGON2ID: nat := 1

  const PUBLISH_REJECTED: nat := 0
  const PUBLISH_STORED: nat := 1
  const PUBLISH_PINNED: nat := 2

  /** Ed25519 verification of a message under a key is left open. */
  type Verifier = (seq<byte>, seq<byte>, seq<byte>) -> bool

  datatype PublishRequest = PublishRequest(version: nat, manifest: seq<byte>, sigAlg: nat, signature: seq<byte>)

  datatype BackupRequest = BackupRequest(version: nat, kdf: nat, params: seq<byte>, salt: seq<byte>, blob: seq<byte>)

  datatype Reply = InvalidSnac | PublishReply(accepted: nat, counter: nat)

  // ---------------------------------------------------------------- what a stored manifest promises

  /** An absent key, or one of the wanted algorithm and size. */
  predicate DeviceKey(k: Key, want: nat) {
    (k.alg == 0 && k.key == []) || (k.alg == want && |k.key| == KEY_LEN)
  }

  predicate DeviceKeys(ds: seq<Device>) {
    forall i | 0 <= i < |ds| :: DeviceKey(ds[i].box, ALG_X25519) && DeviceKey(ds[i].sign, ALG_ED25519)
  }

  /** The identity inside the manifest signed exactly these bytes. */
  predicate Signed(verify: Verifier, identity: Key, sigAlg: nat, sig: seq<byte>, manifest: seq<byte>) {
    && identity.alg == ALG_ED25519 && |identity.key| == KEY_LEN
    && sigAlg == ALG_ED25519 && |sig| == SIG_LEN
    && verify(identity.key, manifest, sig)
  }

  /** A manifest for this account. */
  predicate For(m: Manifest, name: Name) {
    && m.version == KEYDIR_VERSION
    && Ident(m.screenName) == name
    && m.counter != 0
    && |m.devices| <= MAX_DEVICES && DeviceKeys(m.devices)
  }

  /** `int64(x)` of an unsigned 64-bit number. */
  function Int64(n: nat): int {
    if n <= MAX_INT64 then n else n - 0x1_0000_0000_0000_0000
  }

  /** A row that tells what the manifest `m` says, for the account it is stored under, signed over its verbatim bytes. */
  predicate Tells(verify: Verifier, name: Name, row: KeyManifest, m: Manifest) {
    && 0 < |row.manifest| <= MAX_MANIFEST_LEN && For(m, name)
    && row.identityAlg == m.identity.alg && row.identityKey == m.identity.key
    && row.counter == m.counter && row.issuedAt == Int64(m.issuedAt)
    && Signed(verify, m.identity, row.sigAlg, row.signature, row.manifest)
  }

  /** The manifest a row tells of is the one its bytes decode to. */
  predicate Genuine(verify: Verifier, name: Name, row: KeyManifest) {
    var m := Decoded(row.manifest);
    m.Some? && Tells(verify, name, row, m.value)
  }

  predicate AllRows(p: (Name, KeyManifest) -> bool, d: Dir) {
    forall name <- d.manifests :: p(name, d.manifests[name]) && d.manifests[name].counter <= MAX_INT64
  }

  predicate AllGenuine(verify: Verifier, d: Dir) {
    AllRows((name, row) => Genuine(verify, name, row), d)
  }

  function RowOf(m: Manifest, req: PublishRequest): KeyManifest {
    KeyManifest(m.identity.alg, m.identity.key, m.counter, Int64(m.issuedAt), req.manifest, req.sigAlg, req.signature)
  }

  /** When a request is published: its bytes are a genuine manifest of the account. */
  predicate Acceptable(verify: Verifier, name: Name, req: PublishRequest) {
    && req.version == KEYDIR_VERSION
    && Decoded(req.manifest).Some?
    && Genuine(verify, name, RowOf(Decoded(req.manifest).value, req))
  }

  predicate BackupOk(req: BackupRequest) {
    && req.version == KEYDIR_VERSION && req.kdf == KDF_ARGON2ID
    && 0 < |req.salt| <= MAX_BACKUP_LEN && 0 < |req.blob| <= MAX_BACKUP_LEN && |req.params| <= MAX_BACKUP_LEN
  }

  class Service {
    const verify: Verifier
    const store: Store

    constructor (verify: Verifier, store: Store)
      ensures this.verify == verify && this.store == store
    {
      this.verify := verify;
      this.store := store;
    }

    method ValidateDeviceKey(k: Key, want: nat) returns (ok: bool)
      ensures ok == DeviceKey(k, want)
    {
      if k.alg == 0 && |k.key| == 0 {
        return true;
      }
      if k.alg != want {
        return false;
      }
      return |k.key| == KEY_LEN;
    }

    method VerifyManifestSignature(identity: Key, sigAlg: nat, sig: seq<byte>, manifest: seq<byte>) returns (ok: bool)
      ensures ok == Signed(verify, identity, sigAlg, sig, manifest)
    {
      if identity.alg != ALG_ED25519 {
        return false;
      }
      if |identity.key| != KEY_LEN {
        return false;
      }
      if sigAlg != ALG_ED25519 {
        return false;
      }
      if |sig| != SIG_LEN {
        return false;
      }
      return verify(identity.key, manifest, sig);
    }

    /** Everything that is checked of a decoded manifest. */
    method ValidateManifest(screenName: Name, req: PublishRequest, m: Manifest) returns (ok: bool)
      requires 0 < |req.manifest| <= MAX_MANIFEST_LEN
      ensures ok == Tells(verify, screenName, RowOf(m, req), m)
    {
      if m.version != KEYDIR_VERSION || Ident(m.screenName) != screenName || m.counter == 0 {
        return false;
      }
      if |m.devices| > MAX_DEVICES {
        return false;
      }
      for i := 0 to |m.devices|
        invariant DeviceKeys(m.devices[..i])
      {
        var box := ValidateDeviceKey(m.devices[i].box, ALG_X25519);
        if !box {
          return false;
        }
        var sign := ValidateDeviceKey(m.devices[i].sign, ALG_ED25519);
        if !sign {
          return false;
        }
      }
      assert m.devices[..|m.devices|] == m.devices;
      ok := VerifyManifestSignature(m.identity, req.sigAlg, req.signature, req.manifest);
    }

    /** `None` is any of its errors. */
    method ValidatePublish(screenName: Name, req: PublishRequest) returns (m: Option<Manifest>)
      ensures m == if Acceptable(verify, screenName, req) then Decoded(req.manifest) else None
    {
      if req.version != KEYDIR_VERSION || |req.manifest| == 0 || |req.manifest| > MAX_MANIFEST_LEN {
        return None;
      }
      m := Decoded(req.manifest);
      if m.Some? {
        var ok := ValidateManifest(screenName, req, m.value);
        m := if ok then m else None;
      }
    }

    /** Only a genuine manifest of the session's account gets to the store, and the reply says what the store now holds. */
    method PublishManifest(screenName: Name, req: PublishRequest) returns (reply: Reply)
      modifies store
      ensures
        var d := old(store.Now());
        if !Acceptable(verify, screenName, req) then reply == InvalidSnac && store.Now() == d
        else
          var (e, r) := Publish(d, screenName, RowOf(Decoded(req.manifest).value, req));
          && store.Now() == e
          && reply == match r
            case Stored(c) => PublishReply(PUBLISH_STORED, c)
            case Stale(c) => PublishReply(PUBLISH_REJECTED, c)
            case OutOfRange => PublishReply(PUBLISH_REJECTED, 0)
            case Pinned(c) => PublishReply(PUBLISH_PINNED, c)
    {
      var m := ValidatePublish(screenName, req);
      if m.None? {
        return InvalidSnac;
      }
      var r := store.PublishManifest(screenName, RowOf(m.value, req));
      match r {
        case Pinned(c) => reply := PublishReply(PUBLISH_PINNED, c);
        case Stale(c) => reply := PublishReply(PUBLISH_REJECTED, c);
        case OutOfRange => reply := PublishReply(PUBLISH_REJECTED, 0);
        case Stored(c) => reply := PublishReply(PUBLISH_STORED, c);
      }
    }

    /** The published bytes come back as they were published. */
    method QueryManifest(screenName: Name) returns (m: Option<(seq<byte>, nat, seq<byte>)>)
      ensures var name := Ident(screenName);
        m == if name in store.manifests
             then Some((store.manifests[name].manifest, store.manifests[name].sigAlg, store.manifests[name].signature)) else None
    {
      var row := store.KeyManifest(Ident(screenName));
      m := if row.Some? then Some((row.value.manifest, row.value.sigAlg, row.value.signature)) else None;
    }

    method PutBackup(screenName: Name, req: BackupRequest, now: nat) returns (ok: bool)
      modifies store
      ensures ok == BackupOk(req)
      ensures store.Now() ==
        if ok then SetBackup(old(store.Now()), screenName, IdentityBackup(req.kdf, req.params, req.salt, req.blob, 0), now)
        else old(store.Now())
    {
      if req.version != KEYDIR_VERSION || req.kdf != KDF_ARGON2ID || |req.salt| == 0 || |req.blob| == 0 {
        return false;
      }
      if |req.params| > MAX_BACKUP_LEN || |req.salt| > MAX_BACKUP_LEN || |req.blob| > MAX_BACKUP_LEN {
        return false;
      }
      store.SetIdentityBackup(screenName, IdentityBackup(req.kdf, req.params, req.salt, req.blob, 0), now);
      return true;
    }
  }

  // ---------------------------------------------------------------- runs of the service

  datatype Request =
    | PublishOne(account: Name, req: PublishRequest)
    | PutOne(account: Name, backup: BackupRequest, now: nat)
    | ClearOne(account: Name, now: nat)

  /** The transaction a request leads to, if any. */
  function Transactions(verify: Verifier, r: Request): (ops: seq<Op>)
    ensures |ops| <= 1
  {
    match r
    case PublishOne(name, req) =>
      if Acceptable(verify, name, req) then [Publication(name, RowOf(Decoded(req.manifest).value, req))] else []
    case PutOne(name, b, now) =>
      if BackupOk(b) then [Backup(name, IdentityBackup(b.kdf, b.params, b.salt, b.blob, 0), now)] else []
    case ClearOne(name, now) => [ClearAll(name, now)]
  }

  function Serve(verify: Verifier, d: Dir, rs: seq<Request>): Dir {
    if rs == [] then d else Run(Serve(verify, d, rs[..|rs| - 1]), Transactions(verify, rs[|rs| - 1]))
  }

  /** Whatever clients send, every stored row stays genuine; an empty directory has none. */
  lemma {:induction false} StoredAreGenuine(verify: Verifier, d: Dir, rs: seq<Request>)
    requires AllGenuine(verify, d)
    ensures AllGenuine(verify, Serve(verify, d, rs))
    decreases |rs|
  {
    if rs != [] {
      var front := rs[..|rs| - 1];
      StoredAreGenuine(verify, d, front);
      OneKeepsGenuine(verify, Serve(verify, d, front), rs[|rs| - 1]);
    }
  }

  /** Without a clear, the stored manifest is the same or a newer one of the same identity. */
  lemma {:induction false} OnlyNewerManifests(verify: Verifier, d: Dir, rs: seq<Request>, name: Name)
    requires name in d.manifests && forall i | 0 <= i < |rs| :: !(rs[i].ClearOne? && rs[i].account == name)
    ensures name in Serve(verify, d, rs).manifests
    ensures var m, n := d.manifests[name], Serve(verify, d, rs).manifests[name]; SameIdentity(m, n) && (n == m || n.counter > m.counter)
    decreases |rs|
  {
    if rs != [] {
      var front := rs[..|rs| - 1];
      OnlyNewerManifests(verify, d, front, name);
      PinnedAndForward(Serve(verify, d, front), Transactions(verify, rs[|rs| - 1]), name);
    }
  }

  lemma RunOne(d: Dir, op: Op)
    ensures Run(d, [op]) == Apply(d, op)
  {
    assert [op][..0] == [];
  }

  lemma PublicationKeeps(p: (Name, KeyManifest) -> bool, d: Dir, name: Name, m: KeyManifest)
    requires AllRows(p, d) && p(name, m)
    ensures AllRows(p, Publish(d, name, m).0)
  {
  }

  lemma OneKeepsGenuine(verify: Verifier, d: Dir, r: Request)
    requires AllGenuine(verify, d)
    ensures AllGenuine(verify, Run(d, Transactions(verify, r)))
  {
    var ops := Transactions(verify, r);
    if ops != [] {
      RunOne(d, ops[0]);
      if r.PublishOne? {
        PublicationKeeps((name, row) => Genuine(verify, name, row), d, r.account, ops[0].m);
      }
    }
  }
}
