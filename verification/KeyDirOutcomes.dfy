/** What the key directory stores and refuses, said of the manifest's bytes, the signature and the numbers alone. */
module KeyDirOutcomes {
  import opened ScreenNames
  import opened Manifest
  import opened KeyDirectory
  import opened KeyDirRuns
  import opened KeyDirService

  // ---------------------------------------------------------------- what is stored

  /** Absent, or of the algorithm and 32 bytes. */
  predicate UsableKey(k: Key, alg: nat) {
    (k.alg == 0 && k.key == []) || (k.alg == alg && |k.key| == 32)
  }

  /** The account's own manifest, its keys as they should be. */
  predicate WellMade(m: Manifest, name: Name) {
    && m.version == 2 && Ident(m.screenName) == name && m.counter > 0 && |m.devices| <= 32
    && forall i | 0 <= i < |m.devices| :: UsableKey(m.devices[i].box, 1) && UsableKey(m.devices[i].sign, 2)
  }

  /** The 64 bits of a number, as a signed number. */
  function Signed64(n: nat): int {
    if n < 0x8000_0000_0000_0000 then n else n - 0x1_0000_0000_0000_0000
  }

  /**
   Over everything clients can send to an empty directory: a stored row holds the
   bytes of a well-made manifest of its own account and says what they say, and
   its 64-byte signature over these bytes verifies under the 32-byte identity key.
   */
  lemma {:induction false} StoredIsVerified(verify: Verifier, rs: seq<Request>, name: Name)
    requires name in Serve(verify, Dir(map[], map[], [], 1), rs).manifests
    ensures var row := Serve(verify, Dir(map[], map[], [], 1), rs).manifests[name];
      && 0 < |row.manifest| <= 16384
      && Decoded(row.manifest).Some?
      && var m := Decoded(row.manifest).value;
         && WellMade(m, name)
         && row.identityAlg == m.identity.alg == 2 && row.identityKey == m.identity.key
         && row.counter == m.counter <= 0x7FFF_FFFF_FFFF_FFFF && row.issuedAt == Signed64(m.issuedAt)
         && |row.identityKey| == 32 && row.sigAlg == 2 && |row.signature| == 64
         && verify(row.identityKey, row.manifest, row.signature)
    decreases |rs|
  {
    var d := Dir(map[], map[], [], 1);
    assert AllGenuine(verify, d);
    StoredAreGenuine(verify, d, rs);
    var e := Serve(verify, d, rs);
    StoredRow(verify, e, name);
  }

  lemma StoredRow(verify: Verifier, d: Dir, name: Name)
    requires AllGenuine(verify, d) && name in d.manifests
    ensures Genuine(verify, name, d.manifests[name]) && d.manifests[name].counter <= MAX_INT64
  {
    RowAllowed((name, row) => Genuine(verify, name, row), d, name);
  }

  lemma RowAllowed(p: (Name, KeyManifest) -> bool, d: Dir, name: Name)
    requires AllRows(p, d) && name in d.manifests
    ensures p(name, d.manifests[name]) && d.manifests[name].counter <= MAX_INT64
  {
  }

  // ---------------------------------------------------------------- what a publish does

  /** The request is the account's own manifest, signed by the identity inside. */
  predicate GoodRequest(verify: Verifier, name: Name, req: PublishRequest) {
    && req.version == 2 && 0 < |req.manifest| <= 16384
    && Decoded(req.manifest).Some?
    && var m := Decoded(req.manifest).value;
       && WellMade(m, name)
       && m.identity.alg == 2 && |m.identity.key| == 32
       && req.sigAlg == 2 && |req.signature| == 64
       && verify(m.identity.key, req.manifest, req.signature)
  }

  /** The row of a good request. */
  function RowFor(req: PublishRequest, m: Manifest): KeyManifest {
    KeyManifest(2, m.identity.key, m.counter, Signed64(m.issuedAt), req.manifest, 2, req.signature)
  }

  /**
   What a publish does, in every case: nothing unless the request is good; then a
   first manifest is stored, and a later one exactly if its identity is the one
   stored and its counter is greater. The time wraps to a signed number.
   */
  lemma PublishOutcome(verify: Verifier, d: Dir, rs: seq<Request>, name: Name, req: PublishRequest)
    ensures var before := Serve(verify, d, rs);
      var after := Serve(verify, d, rs + [PublishOne(name, req)]);
      if !GoodRequest(verify, name, req) then after == before
      else
        var m := Decoded(req.manifest).value;
        var takes := m.counter <= 0x7FFF_FFFF_FFFF_FFFF
          && (name in before.manifests ==>
                && before.manifests[name].identityAlg == 2 && before.manifests[name].identityKey == m.identity.key
                && before.manifests[name].counter < m.counter);
        after == if takes then before.(manifests := before.manifests[name := RowFor(req, m)]) else before
  {
    ServeSnoc(verify, d, rs, PublishOne(name, req));
    GoodIsAcceptable(verify, name, req);
    var before := Serve(verify, d, rs);
    if Acceptable(verify, name, req) {
      KeyDirService.RunOne(before, KeyDirRuns.Publication(name, RowOf(Decoded(req.manifest).value, req)));
    }
  }

  lemma GoodIsAcceptable(verify: Verifier, name: Name, req: PublishRequest)
    ensures GoodRequest(verify, name, req) <==> Acceptable(verify, name, req)
    ensures GoodRequest(verify, name, req) ==> RowOf(Decoded(req.manifest).value, req) == RowFor(req, Decoded(req.manifest).value)
  {
  }

  lemma ServeSnoc(verify: Verifier, d: Dir, rs: seq<Request>, r: Request)
    ensures Serve(verify, d, rs + [r]) == Run(Serve(verify, d, rs), Transactions(verify, r))
  {
    assert (rs + [r])[..|rs|] == rs;
  }

  /** So a forged manifest, whatever it says, leaves the directory as it was. */
  lemma ForgedIsRefused(verify: Verifier, d: Dir, rs: seq<Request>, name: Name, req: PublishRequest)
    requires Decoded(req.manifest).Some? && !verify(Decoded(req.manifest).value.identity.key, req.manifest, req.signature)
    ensures Serve(verify, d, rs + [PublishOne(name, req)]) == Serve(verify, d, rs)
  {
    PublishOutcome(verify, d, rs, name, req);
  }

  /** What the store answers, and with which counter. */
  lemma PublishAnswer(d: Dir, name: Name, row: KeyManifest)
    ensures Publish(d, name, row).1
         == if row.counter > 0x7FFF_FFFF_FFFF_FFFF then OutOfRange
            else if name !in d.manifests then Stored(row.counter)
            else
              var stored := d.manifests[name];
              if stored.identityAlg != row.identityAlg || stored.identityKey != row.identityKey then Pinned(stored.counter)
              else if row.counter > stored.counter then Stored(row.counter)
              else Stale(stored.counter)
  {
  }

  // ---------------------------------------------------------------- backups and clears

  /** The newest twenty of what was superseded, with the oldest in place of the twentieth. */
  lemma ArchiveOutcome(ops: seq<Op>, name: Name)
    ensures var log := Log(ops, name);
      ArchiveOf(Run(Dir(map[], map[], [], 1), ops).history, name)
      == if |log| <= 20 then log else [log[0]] + log[|log| - 19..]
  {
    ArchiveIsTrimmedLog(ops, name);
  }

  predicate GoodBackup(b: BackupRequest) {
    && b.version == 2 && b.kdf == 1
    && 0 < |b.salt| <= 4096 && 0 < |b.blob| <= 4096 && |b.params| <= 4096
  }

  /** A good backup becomes the live one, stamped with the time; a bad one changes nothing. */
  lemma BackupOutcome(verify: Verifier, d: Dir, rs: seq<Request>, name: Name, b: BackupRequest, now: nat)
    ensures var before, after := Serve(verify, d, rs), Serve(verify, d, rs + [PutOne(name, b, now)]);
      && after.manifests == before.manifests
      && (if GoodBackup(b) then after.backups == before.backups[name := IdentityBackup(1, b.params, b.salt, b.blob, now)]
          else after == before)
  {
    ServeSnoc(verify, d, rs, PutOne(name, b, now));
    if BackupOk(b) {
      KeyDirService.RunOne(Serve(verify, d, rs), Backup(name, IdentityBackup(b.kdf, b.params, b.salt, b.blob, 0), now));
    }
  }

  /** A clear takes the manifest and the live backup of its account, nobody else's, and says whether there was either. */
  lemma ClearOutcome(verify: Verifier, d: Dir, rs: seq<Request>, name: Name, now: nat)
    ensures var before, after := Serve(verify, d, rs), Serve(verify, d, rs + [ClearOne(name, now)]);
      && after.manifests == before.manifests - {name} && after.backups == before.backups - {name}
      && Clear(before, name, now) == (after, name in before.manifests || name in before.backups)
  {
    ServeSnoc(verify, d, rs, ClearOne(name, now));
    KeyDirService.RunOne(Serve(verify, d, rs), ClearAll(name, now));
  }
}
