/** Who is attested and who gets through, said of the stored manifest, the signature and the session's fields alone. */
module DeviceAuthOutcomes {
  import opened Bytes
  import opened ScreenNames
  import opened Manifest
  import opened KeyDirectory
  import opened KeyDirService
  import opened DeviceAuth

  /** The account has nothing to prove with: no manifest, or one without devices. */
  predicate Unequipped(d: Dir, name: Name) {
    || name !in d.manifests || d.manifests[name].manifest == []
    || (Decoded(d.manifests[name].manifest).Some? && Decoded(d.manifests[name].manifest).value.devices == [])
  }

  /** A device of the manifest that is stored signs with the key. */
  predicate Equips(d: Dir, name: Name, key: seq<byte>) {
    && name in d.manifests && d.manifests[name].manifest != []
    && Decoded(d.manifests[name].manifest).Some?
    && var ds := Decoded(d.manifests[name].manifest).value.devices;
       |key| == 32 && exists i | 0 <= i < |ds| :: ds[i].sign.key == key
  }

  function Four(n: nat): seq<byte> { [n / 0x100_0000 % 256, n / 0x1_0000 % 256, n / 256 % 256, n % 256] }

  /** "BENCO-ATTEST-v1", a zero, and the account and the nonce, each after its length. */
  function Signable(name: Name, nonce: seq<byte>): seq<byte> {
    [66, 69, 78, 67, 79, 45, 65, 84, 84, 69, 83, 84, 45, 118, 49] + [0] + (Four(|name|) + name) + (Four(|nonce|) + nonce)
  }

  lemma ContextLayout(name: Name, nonce: seq<byte>)
    ensures AttestContext(name, nonce) == Signable(name, nonce)
  {
    FourBytesWritten(|name|);
    FourBytesWritten(|nonce|);
  }

  lemma UnequippedIs(d: Dir, name: Name)
    ensures EnrolledIn(d, name).NoDevices? <==> Unequipped(d, name)
  {
  }

  lemma EquipsIs(d: Dir, name: Name, key: seq<byte>)
    ensures EnrolledIn(d, name).Keys? && key in EnrolledIn(d, name).keys <==> Equips(d, name, key)
  {
    if name in d.manifests && d.manifests[name].manifest != [] && Decoded(d.manifests[name].manifest).Some? {
      SignKeysAre(Decoded(d.manifests[name].manifest).value.devices, key);
    }
  }

  /**
   An answer attests the session if and only if it is of version 2, to a challenge
   of 32 bytes, and the account has nothing to prove with or a device of its stored
   manifest has signed this account and this nonce.
   */
  lemma AnswerOutcome(verify: Verifier, d: Dir, name: Name, s: Session, version: nat, k: Key, sig: seq<byte>)
    ensures var s' := Answered(verify, d, name, s, version, k, sig);
      && s'.nonce == s.nonce
      && (s'.attested <==>
            || s.attested
            || (version == 2 && |s.nonce| == 32
                && (Unequipped(d, name)
                    || (Equips(d, name, k.key) && |sig| == 64 && verify(k.key, Signable(name, s.nonce), sig)))))
  {
    ContextLayout(name, s.nonce);
    UnequippedIs(d, name);
    EquipsIs(d, name, k.key);
  }

  /** The verdict tells a proof from nothing to prove. */
  lemma VerdictIs(verify: Verifier, d: Dir, name: Name, nonce: seq<byte>, key: seq<byte>, sig: seq<byte>)
    ensures Verified(verify, d, name, nonce, key, sig)
         == if |nonce| != 32 then Refused
            else if Unequipped(d, name) then NothingToProve
            else if Equips(d, name, key) && |sig| == 64 && verify(key, Signable(name, nonce), sig) then Proven
            else Refused
  {
    ContextLayout(name, nonce);
    UnequippedIs(d, name);
    EquipsIs(d, name, key);
  }

  /**
   A request goes on to its handler if and only if attestation is off or only
   logged, the connection is no BOS connection, the request is exempt, or the
   session is attested, which one without a challenge becomes now if its account
   has nothing to prove with. Any other session without a challenge gets one.
   */
  lemma GateOutcome(d: Dir, name: Name, s: Session, mode: Mode, bos: bool, exempt: bool, nonce: seq<byte>)
    ensures var (s', routed) := Gated(d, name, s, mode, bos, exempt, nonce);
      var admitted := s.nonce == [] && Unequipped(d, name);
      && (routed <==> mode.Off? || mode.Log? || !bos || exempt || s.attested || admitted)
      && s' == if mode.Off? || !bos || s.attested then s
               else if admitted then Session([], true)
               else if s.nonce == [] then Session(nonce, false)
               else s
  {
    UnequippedIs(d, name);
  }

  /** At the end of sign-on a challenge that is unanswered is replaced, or dropped for an account with nothing to prove with. */
  lemma OnlineOutcome(d: Dir, name: Name, s: Session, mode: Mode, nonce: seq<byte>)
    ensures Reasked(d, name, s, mode, nonce)
         == if mode.Off? || s.attested || s.nonce == [] then s
            else if Unequipped(d, name) then Session(s.nonce, true)
            else Session(nonce, false)
  {
    UnequippedIs(d, name);
  }

  /** From the first request to the last: a device that signs its challenge is let in, whatever the mode. */
  lemma HonestDeviceGetsIn(verify: Verifier, d: Dir, name: Name, mode: Mode, nonce: seq<byte>, k: Key, sig: seq<byte>, more: seq<byte>)
    requires |nonce| == 32 && Equips(d, name, k.key) && |sig| == 64 && verify(k.key, Signable(name, nonce), sig)
    ensures
      var asked := Gated(d, name, Session([], false), mode, true, false, nonce).0;
      var answered := Answered(verify, d, name, asked, 2, k, sig);
      Gated(d, name, answered, mode, true, false, more).1
  {
    GateOutcome(d, name, Session([], false), mode, true, false, nonce);
    var asked := Gated(d, name, Session([], false), mode, true, false, nonce).0;
    AnswerOutcome(verify, d, name, asked, 2, k, sig);
    GateOutcome(d, name, Answered(verify, d, name, asked, 2, k, sig), mode, true, false, more);
    UnequippedIs(d, name);
    EquipsIs(d, name, k.key);
  }
}
