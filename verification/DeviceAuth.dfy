/** Device attestation (foodgroup/benco_deviceauth.go) and the gate in front of the handlers (server/oscar/handler.go). */
module DeviceAuth {
  import opened Bytes
  import opened ScreenNames
  import opened Manifest
  import opened KeyDirectory
  import opened KeyDirService

  const NONCE_LEN: nat := 32

  /** "BENCO-ATTEST-v1". */
  const ATTEST_DOMAIN: seq<byte> := [66, 69, 78, 67, 79, 45, 65, 84, 84, 69, 83, 84, 45, 118, 49]

  // ---------------------------------------------------------------- what is signed

  /** `appendLenPrefixed`: a 32-bit length, as Go's conversion truncates it, and the bytes. */
  function LenPrefixed(b: seq<byte>): seq<byte> {
    PutBE(|b|, 4) + b
  }

  function AttestContext(name: Name, nonce: seq<byte>): seq<byte> {
    ATTEST_DOMAIN + [0] + LenPrefixed(name) + LenPrefixed(nonce)
  }

  /** Two sessions never sign the same bytes: the account and the nonce can be read off them. */
  lemma AttestContextInjective(name: Name, nonce: seq<byte>, name': Name, nonce': seq<byte>)
    requires |nonce| == |nonce'| && AttestContext(name, nonce) == AttestContext(name', nonce')
    ensures name == name' && nonce == nonce'
  {
    var c, c' := AttestContext(name, nonce), AttestContext(name', nonce');
    assert |c| == 24 + |name| + |nonce| && |c'| == 24 + |name'| + |nonce'|;
    assert c[20..20 + |name|] == name && c'[20..20 + |name|] == name';
    assert c[24 + |name|..] == nonce && c'[24 + |name|..] == nonce';
  }

  // ---------------------------------------------------------------- who is enrolled

  datatype Enrolled = Keys(keys: seq<seq<byte>>) | NoDevices | NotEnrolled | Undecodable

  /** The signing keys of Ed25519 size, in the order of the devices. */
  function SignKeys(ds: seq<Device>): seq<seq<byte>> {
    if ds == [] then [] else (if |ds[0].sign.key| == KEY_LEN then [ds[0].sign.key] else []) + SignKeys(ds[1..])
  }

  /** Exactly the keys of that size are kept. */
  lemma {:induction false} SignKeysAre(ds: seq<Device>, k: seq<byte>)
    ensures k in SignKeys(ds) <==> |k| == KEY_LEN && exists i | 0 <= i < |ds| :: ds[i].sign.key == k
    decreases |ds|
  {
    if ds != [] {
      SignKeysAre(ds[1..], k);
      assert forall i | 1 <= i < |ds| :: ds[i] == ds[1..][i - 1];
      if i :| 0 <= i < |ds[1..]| && ds[1..][i].sign.key == k {
        assert ds[i + 1].sign.key == k;
      }
    }
  }

  function EnrolledBy(m: Manifest): Enrolled {
    if m.devices == [] then NoDevices
    else if SignKeys(m.devices) == [] then NotEnrolled
    else Keys(SignKeys(m.devices))
  }

  function EnrolledIn(d: Dir, name: Name): Enrolled {
    if name !in d.manifests || d.manifests[name].manifest == [] then NoDevices else
    var m := Decoded(d.manifests[name].manifest);
    if m.None? then Undecodable else EnrolledBy(m.value)
  }

  datatype Verdict = Proven | NothingToProve | Refused

  /** A signature by one of the keys over the account and the nonce. */
  predicate Signs(verify: Verifier, keys: seq<seq<byte>>, name: Name, nonce: seq<byte>, offered: seq<byte>, sig: seq<byte>) {
    offered in keys && |sig| == SIG_LEN && verify(offered, AttestContext(name, nonce), sig)
  }

  /** The key is one of the manifest stored now. */
  predicate Proof(verify: Verifier, d: Dir, name: Name, nonce: seq<byte>, offered: seq<byte>, sig: seq<byte>) {
    var e := EnrolledIn(d, name);
    e.Keys? && Signs(verify, e.keys, name, nonce, offered, sig)
  }

  function VerifiedBy(verify: Verifier, e: Enrolled, name: Name, nonce: seq<byte>, offered: seq<byte>, sig: seq<byte>): Verdict {
    if |nonce| != NONCE_LEN then Refused
    else if e.NoDevices? then NothingToProve
    else if e.Keys? && Signs(verify, e.keys, name, nonce, offered, sig) then Proven
    else Refused
  }

  function Verified(verify: Verifier, d: Dir, name: Name, nonce: seq<byte>, offered: seq<byte>, sig: seq<byte>): Verdict {
    VerifiedBy(verify, EnrolledIn(d, name), name, nonce, offered, sig)
  }

  datatype Mode = Off | Log | Enforce

  /** The attestation fields of `SessionInstance`. */
  class SessionInstance {
    const name: Name
    var attestNonce: seq<byte>
    var attested: bool

    constructor (name: Name)
      ensures this.name == name && attestNonce == [] && !attested
    {
      this.name := name;
      attestNonce, attested := [], false;
    }
  }

  class DeviceAuthService {
    const verify: Verifier
    const store: Store

    constructor (verify: Verifier, store: Store)
      ensures this.verify == verify && this.store == store
    {
      this.verify := verify;
      this.store := store;
    }

    method SigningKeys(ds: seq<Device>) returns (out: seq<seq<byte>>)
      ensures out == SignKeys(ds)
    {
      out := [];
      for i := 0 to |ds|
        invariant out + SignKeys(ds[i..]) == SignKeys(ds)
      {
        assert ds[i..][1..] == ds[i + 1..];
        if |ds[i].sign.key| == KEY_LEN {
          out := out + [ds[i].sign.key];
        }
      }
    }

    method EnrolledSigningKeys(name: Name) returns (r: Enrolled)
      ensures r == EnrolledIn(store.Now(), name)
    {
      var stored := store.KeyManifest(name);
      if stored.None? || |stored.value.manifest| == 0 {
        return NoDevices;
      }
      var m := Decoded(stored.value.manifest);
      if m.None? {
        return Undecodable;
      }
      if |m.value.devices| == 0 {
        return NoDevices;
      }
      var out := SigningKeys(m.value.devices);
      return if |out| == 0 then NotEnrolled else Keys(out);
    }

    /** Membership first, then the signature. */
    method CheckSignature(keys: seq<seq<byte>>, name: Name, nonce: seq<byte>, offered: seq<byte>, sig: seq<byte>) returns (ok: bool)
      ensures ok == Signs(verify, keys, name, nonce, offered, sig)
    {
      var known := false;
      for i := 0 to |keys|
        invariant known <==> offered in keys[..i]
      {
        if keys[i] == offered {
          known := true;
        }
      }
      assert keys[..|keys|] == keys;
      if !known || |sig| != SIG_LEN {
        return false;
      }
      return verify(offered, AttestContext(name, nonce), sig);
    }

    method Verify(name: Name, nonce: seq<byte>, offered: seq<byte>, sig: seq<byte>) returns (r: Verdict)
      ensures r == Verified(verify, store.Now(), name, nonce, offered, sig)
    {
      if |nonce| != NONCE_LEN {
        return Refused;
      }
      var enrolled := EnrolledSigningKeys(name);
      if enrolled.NoDevices? {
        return NothingToProve;
      }
      if !enrolled.Keys? {
        return Refused;
      }
      var ok := CheckSignature(enrolled.keys, name, nonce, offered, sig);
      return if ok then Proven else Refused;
    }

    /** Whether the session is to be asked, with the nonce drawn for it. */
    method Challenge(mode: Mode, name: Name) returns (ask: bool)
      ensures ask <==> mode != Off && !EnrolledIn(store.Now(), name).NoDevices?
    {
      if mode == Off {
        return false;
      }
      var enrolled := EnrolledSigningKeys(name);
      return !enrolled.NoDevices?;
    }

    method AttestResponse(instance: SessionInstance, version: nat, signKey: Key, sig: seq<byte>) returns (accepted: bool)
      modifies instance
      ensures instance.attestNonce == old(instance.attestNonce)
      ensures var n := old(instance.attestNonce);
        accepted == (version == KEYDIR_VERSION && n != [] && Verified(verify, store.Now(), instance.name, n, signKey.key, sig) != Refused)
      ensures instance.attested <==> old(instance.attested) || accepted
    {
      accepted := false;
      if version != KEYDIR_VERSION || |instance.attestNonce| == 0 {
        return;
      }
      var r := Verify(instance.name, instance.attestNonce, signKey.key, sig);
      if r != Refused {
        instance.attested := true;
        accepted := true;
      }
    }

    /** `gateDeviceAuth`: whether the request goes on to its handler. */
    method Gate(mode: Mode, bos: bool, instance: SessionInstance, exempt: bool, nonce: seq<byte>) returns (routed: bool)
      requires |nonce| == NONCE_LEN
      modifies instance
      ensures var s := Session(old(instance.attestNonce), old(instance.attested));
        (Session(instance.attestNonce, instance.attested), routed) == Gated(store.Now(), instance.name, s, mode, bos, exempt, nonce)
    {
      if mode == Off || !bos || instance.attested {
        return true;
      }
      if |instance.attestNonce| == 0 {
        var ask := Challenge(mode, instance.name);
        if !ask {
          instance.attested := true;
          return true;
        }
        instance.attestNonce := nonce;
      }
      if exempt {
        return true;
      }
      return mode != Enforce;
    }
  }

  // ---------------------------------------------------------------- one session, any number of requests

  datatype Session = Session(nonce: seq<byte>, attested: bool)

  /** What `Gate` does to a session; exempt are publishing a manifest and answering the challenge. */
  function Gated(d: Dir, name: Name, s: Session, mode: Mode, bos: bool, exempt: bool, nonce: seq<byte>): (Session, bool) {
    if mode == Off || !bos || s.attested then (s, true)
    else if s.nonce == [] && EnrolledIn(d, name).NoDevices? then (s.(attested := true), true)
    else (if s.nonce == [] then s.(nonce := nonce) else s, exempt || mode != Enforce)
  }

  /** The end of `ClientOnline`: a challenged session that has not answered is asked again. */
  function Reasked(d: Dir, name: Name, s: Session, mode: Mode, nonce: seq<byte>): Session {
    if mode == Off || s.attested || s.nonce == [] then s
    else if EnrolledIn(d, name).NoDevices? then s.(attested := true)
    else s.(nonce := nonce)
  }

  function Answered(verify: Verifier, d: Dir, name: Name, s: Session, version: nat, signKey: Key, sig: seq<byte>): Session {
    if version == KEYDIR_VERSION && s.nonce != [] && Verified(verify, d, name, s.nonce, signKey.key, sig) != Refused
    then s.(attested := true) else s
  }

  datatype Event =
    | Directory(request: Request)
    | Incoming(bos: bool, exempt: bool, nonce: seq<byte>)
    | Online(nonce: seq<byte>)
    | Response(version: nat, signKey: Key, sig: seq<byte>)

  datatype World = World(dir: Dir, session: Session)

  /** The server around one session of `name`: others use the directory at any time. */
  function After(verify: Verifier, name: Name, mode: Mode, w: World, e: Event): World {
    match e
    case Directory(r) => w.(dir := Serve(verify, w.dir, [r]))
    case Incoming(bos, exempt, nonce) => w.(session := Gated(w.dir, name, w.session, mode, bos, exempt, nonce).0)
    case Online(nonce) => w.(session := Reasked(w.dir, name, w.session, mode, nonce))
    case Response(version, k, sig) => w.(session := Answered(verify, w.dir, name, w.session, version, k, sig))
  }

  function Worlds(verify: Verifier, name: Name, mode: Mode, w: World, es: seq<Event>): World {
    if es == [] then w else After(verify, name, mode, Worlds(verify, name, mode, w, es[..|es| - 1]), es[|es| - 1])
  }

  /** Why a session may count as attested from an event on. */
  predicate Witness(verify: Verifier, name: Name, w: World, e: Event) {
    || EnrolledIn(w.dir, name).NoDevices?
    || (e.Response? && w.session.nonce != [] && Proof(verify, w.dir, name, w.session.nonce, e.signKey.key, e.sig))
  }

  /** Event i makes the session attested, and at that moment there is a witness. */
  predicate AttestedAt(verify: Verifier, name: Name, mode: Mode, w: World, es: seq<Event>, i: nat)
    requires i < |es|
  {
    var before, after := Worlds(verify, name, mode, w, es[..i]), Worlds(verify, name, mode, w, es[..i + 1]);
    !before.session.attested && after.session.attested && Witness(verify, name, before, es[i])
  }

  /**
   A session becomes attested only at an event at which the account has no
   devices, or by a signature over its own account and nonce under a key of the
   manifest stored at that moment.
   */
  lemma {:induction false} AttestedByWitness(verify: Verifier, name: Name, mode: Mode, w: World, es: seq<Event>)
    requires !w.session.attested && Worlds(verify, name, mode, w, es).session.attested
    ensures exists i | 0 <= i < |es| :: AttestedAt(verify, name, mode, w, es, i)
    decreases |es|
  {
    var n := |es| - 1;
    var before := Worlds(verify, name, mode, w, es[..n]);
    if before.session.attested {
      AttestedByWitness(verify, name, mode, w, es[..n]);
      var i :| 0 <= i < n && AttestedAt(verify, name, mode, w, es[..n], i);
      assert es[..n][..i] == es[..i] && es[..n][..i + 1] == es[..i + 1];
      assert AttestedAt(verify, name, mode, w, es, i);
    } else {
      assert es[..n + 1] == es;
      assert AttestedAt(verify, name, mode, w, es, n);
    }
  }

  /**
   With enforcement, a request other than a publish or an answer reaches its
   handler only if the session became attested before, or does so now because the
   account has no devices.
   */
  lemma RoutedOnlyProven(verify: Verifier, name: Name, w: World, es: seq<Event>, nonce: seq<byte>)
    requires !w.session.attested
    requires var v := Worlds(verify, name, Enforce, w, es); Gated(v.dir, name, v.session, Enforce, true, false, nonce).1
    ensures var v := Worlds(verify, name, Enforce, w, es);
      if v.session.attested then exists i | 0 <= i < |es| :: AttestedAt(verify, name, Enforce, w, es, i)
      else EnrolledIn(v.dir, name).NoDevices? && Gated(v.dir, name, v.session, Enforce, true, false, nonce).0.attested
  {
    if Worlds(verify, name, Enforce, w, es).session.attested {
      AttestedByWitness(verify, name, Enforce, w, es);
    }
  }

  /** In a directory of genuine rows an account has nothing to prove exactly if it published no device. */
  lemma NothingToProveIff(verify: Verifier, d: Dir, name: Name)
    requires AllGenuine(verify, d)
    ensures !EnrolledIn(d, name).Undecodable?
    ensures name in d.manifests ==> Decoded(d.manifests[name].manifest).Some?
    ensures EnrolledIn(d, name).NoDevices? <==>
      name !in d.manifests || Decoded(d.manifests[name].manifest).value.devices == []
  {
    if name in d.manifests {
      StoredIsGenuine((n, row) => Genuine(verify, n, row), d, name);
      GenuineDecodes(verify, name, d.manifests[name]);
    }
  }

  lemma GenuineDecodes(verify: Verifier, name: Name, row: KeyManifest)
    requires Genuine(verify, name, row)
    ensures row.manifest != [] && Decoded(row.manifest).Some?
  {
  }

  lemma StoredIsGenuine(p: (Name, KeyManifest) -> bool, d: Dir, name: Name)
    requires AllRows(p, d) && name in d.manifests
    ensures p(name, d.manifests[name])
  {
  }

  /** A key the stored manifest does not name proves nothing, whatever is signed with it. */
  lemma RemovedDeviceIsRefused(verify: Verifier, m: Manifest, name: Name, nonce: seq<byte>, k: seq<byte>, sig: seq<byte>)
    requires m.devices != [] && forall i | 0 <= i < |m.devices| :: m.devices[i].sign.key != k
    ensures VerifiedBy(verify, EnrolledBy(m), name, nonce, k, sig) == Refused
  {
    SignKeysAre(m.devices, k);
  }

  /**
   A device that a stored manifest leaves out stays out, whatever is published
   or replayed, until a newer manifest of the same identity replaces that one.
   */
  lemma RemovedStaysOut(verify: Verifier, d: Dir, rs: seq<Request>, name: Name, nonce: seq<byte>, k: seq<byte>, sig: seq<byte>)
    requires name in d.manifests && d.manifests[name].manifest != [] && Decoded(d.manifests[name].manifest).Some?
    requires var ds := Decoded(d.manifests[name].manifest).value.devices;
      ds != [] && forall i | 0 <= i < |ds| :: ds[i].sign.key != k
    requires forall i | 0 <= i < |rs| :: !(rs[i].ClearOne? && rs[i].account == name)
    ensures var e := Serve(verify, d, rs);
      || Verified(verify, e, name, nonce, k, sig) == Refused
      || (name in e.manifests && SameIdentity(d.manifests[name], e.manifests[name])
          && e.manifests[name].counter > d.manifests[name].counter)
  {
    OnlyNewerManifests(verify, d, rs, name);
    RemovedDeviceIsRefused(verify, Decoded(d.manifests[name].manifest).value, name, nonce, k, sig);
  }
}
