/** Storage of manifests and identity backups (state/key_directory.go); tables as maps and lists of rows. */
module KeyDirectory {
  import opened Wrappers
  import opened Bytes
  import opened ScreenNames

  const MAX_INT64: nat := 0x7FFF_FFFF_FFFF_FFFF
  const HISTORY_DEPTH: nat := 20

  datatype KeyManifest = KeyManifest(identityAlg: nat, identityKey: seq<byte>, counter: nat, issuedAt: int,
                                     manifest: seq<byte>, sigAlg: nat, signature: seq<byte>)

  datatype IdentityBackup = IdentityBackup(kdf: nat, params: seq<byte>, salt: seq<byte>, blob: seq<byte>, updatedAt: nat)

  datatype Superseded = Superseded(backup: IdentityBackup, supersededAt: nat)

  /** A row of keyDirIdentityBackupHistory; `id` is the autoincrement key. */
  datatype Row = Row(id: nat, account: Name, entry: Superseded)

  datatype Dir = Dir(manifests: map<Name, KeyManifest>, backups: map<Name, IdentityBackup>, history: seq<Row>, nextId: nat)

  const EMPTY: Dir := Dir(map[], map[], [], 1)

  // ---------------------------------------------------------------- the trim

  /** `id IN (SELECT MIN(id) ... WHERE identScreenName = ?)`, for a row of the account. */
  predicate IsOldest(h: seq<Row>, name: Name, id: nat) {
    forall i | 0 <= i < |h| && h[i].account == name :: id <= h[i].id
  }

  /** How many rows of the account have a greater id. */
  function Newer(h: seq<Row>, name: Name, id: nat): nat {
    if h == [] then 0 else (if h[0].account == name && h[0].id > id then 1 else 0) + Newer(h[1..], name, id)
  }

  /** `id IN (SELECT id ... ORDER BY id DESC LIMIT n)`. */
  predicate AmongNewest(h: seq<Row>, name: Name, id: nat, n: nat) {
    Newer(h, name, id) < n
  }

  predicate Kept(h: seq<Row>, name: Name, r: Row) {
    r.account != name || IsOldest(h, name, r.id) || AmongNewest(h, name, r.id, HISTORY_DEPTH - 1)
  }

  function KeptFrom(h: seq<Row>, name: Name, k: nat): seq<Row>
    requires k <= |h|
    decreases |h| - k
  {
    if k == |h| then [] else (if Kept(h, name, h[k]) then [h[k]] else []) + KeptFrom(h, name, k + 1)
  }

  /** `trimIdentityBackupHistory`: the rows the DELETE leaves. */
  function Trimmed(h: seq<Row>, name: Name): seq<Row> {
    KeptFrom(h, name, 0)
  }

  /** The account's archived backups, oldest first. */
  function ArchiveOf(h: seq<Row>, name: Name): seq<Superseded> {
    if h == [] then [] else (if h[0].account == name then [h[0].entry] else []) + ArchiveOf(h[1..], name)
  }

  /** The oldest entry and the newest 19, or all of at most 20. */
  function Trim<T>(l: seq<T>): (t: seq<T>)
    ensures |t| == if |l| <= HISTORY_DEPTH then |l| else HISTORY_DEPTH
  {
    if |l| <= HISTORY_DEPTH then l else [l[0]] + l[|l| - (HISTORY_DEPTH - 1)..]
  }

  predicate Sorted(h: seq<Row>) {
    forall i, j | 0 <= i < j < |h| :: h[i].id < h[j].id
  }

  lemma {:induction false} NewerOfNext(h: seq<Row>, name: Name, id: nat)
    requires forall i | 0 <= i < |h| :: h[i].id > id
    ensures Newer(h, name, id) == |ArchiveOf(h, name)|
    decreases |h|
  {
    if h != [] {
      NewerOfNext(h[1..], name, id);
    }
  }

  lemma {:induction false} NewerAt(h: seq<Row>, name: Name, k: nat)
    requires Sorted(h) && k < |h|
    ensures Newer(h, name, h[k].id) == |ArchiveOf(h[k + 1..], name)|
    decreases k
  {
    if k == 0 {
      NewerOfNext(h[1..], name, h[0].id);
    } else {
      NewerAt(h[1..], name, k - 1);
      assert h[1..][k..] == h[k + 1..];
    }
  }

  lemma {:induction false} ArchiveSplit(h: seq<Row>, g: seq<Row>, name: Name)
    ensures ArchiveOf(h + g, name) == ArchiveOf(h, name) + ArchiveOf(g, name)
    decreases |h|
  {
    if h == [] {
      assert h + g == g;
    } else {
      ArchiveSplit(h[1..], g, name);
      assert (h + g)[1..] == h[1..] + g;
    }
  }

  /** Without a row of the account before it, a row is the oldest. */
  lemma OldestAt(h: seq<Row>, name: Name, k: nat)
    requires Sorted(h) && k < |h| && h[k].account == name
    ensures IsOldest(h, name, h[k].id) <==> ArchiveOf(h[..k], name) == []
  {
    NoneBefore(h[..k], name);
    if IsOldest(h, name, h[k].id) {
      forall i | 0 <= i < k ensures h[..k][i].account != name {
        assert h[i].id < h[k].id;
      }
    }
  }

  lemma {:induction false} NoneBefore(h: seq<Row>, name: Name)
    ensures ArchiveOf(h, name) == [] <==> forall i | 0 <= i < |h| :: h[i].account != name
    decreases |h|
  {
    if h != [] {
      NoneBefore(h[1..], name);
      assert forall i | 1 <= i < |h| :: h[i] == h[1..][i - 1];
    }
  }

  /** What the trim keeps of the entries from position `i` on. */
  function KeptEntries<T>(l: seq<T>, i: nat): seq<T>
    requires i <= |l|
    decreases |l| - i
  {
    if i == |l| then [] else (if i == 0 || |l| - 1 - i < HISTORY_DEPTH - 1 then [l[i]] else []) + KeptEntries(l, i + 1)
  }

  lemma {:induction false} KeptTail<T>(l: seq<T>, i: nat)
    requires 1 <= i <= |l|
    ensures KeptEntries(l, i) == if |l| - i <= HISTORY_DEPTH - 1 then l[i..] else l[|l| - (HISTORY_DEPTH - 1)..]
    decreases |l| - i
  {
    if i < |l| {
      KeptTail(l, i + 1);
      assert l[i..] == [l[i]] + l[i + 1..];
    }
  }

  lemma KeptIsTrim<T>(l: seq<T>)
    ensures KeptEntries(l, 0) == Trim(l)
  {
    if l != [] {
      KeptTail(l, 1);
      assert l == [l[0]] + l[1..];
    }
  }

  lemma {:induction false} KeptFromEntries(h: seq<Row>, name: Name, k: nat)
    requires Sorted(h) && k <= |h|
    ensures |ArchiveOf(h[..k], name)| <= |ArchiveOf(h, name)|
    ensures ArchiveOf(KeptFrom(h, name, k), name) == KeptEntries(ArchiveOf(h, name), |ArchiveOf(h[..k], name)|)
    decreases |h| - k
  {
    var l := ArchiveOf(h, name);
    assert h == h[..k] + h[k..];
    ArchiveSplit(h[..k], h[k..], name);
    var i := |ArchiveOf(h[..k], name)|;
    if k < |h| {
      KeptFromEntries(h, name, k + 1);
      assert h[..k + 1] == h[..k] + [h[k]];
      ArchiveSplit(h[..k], [h[k]], name);
      ArchiveSplit(if Kept(h, name, h[k]) then [h[k]] else [], KeptFrom(h, name, k + 1), name);
      assert h[k..][1..] == h[k + 1..];
      if h[k].account == name {
        NewerAt(h, name, k);
        OldestAt(h, name, k);
        assert l[i] == h[k].entry;
      }
    } else {
      assert h[..k] == h;
    }
  }

  lemma {:induction false} KeptFromOthers(h: seq<Row>, name: Name, k: nat, other: Name)
    requires k <= |h| && other != name
    ensures ArchiveOf(KeptFrom(h, name, k), other) == ArchiveOf(h[k..], other)
    decreases |h| - k
  {
    if k < |h| {
      KeptFromOthers(h, name, k + 1, other);
      ArchiveSplit(if Kept(h, name, h[k]) then [h[k]] else [], KeptFrom(h, name, k + 1), other);
      assert h[k..][1..] == h[k + 1..];
    }
  }

  lemma {:induction false} KeptFromSorted(h: seq<Row>, name: Name, k: nat, bound: nat)
    requires Sorted(h) && k <= |h| && forall i | 0 <= i < |h| :: h[i].id < bound
    ensures var t := KeptFrom(h, name, k);
      Sorted(t) && forall i | 0 <= i < |t| :: k < |h| && h[k].id <= t[i].id < bound
    decreases |h| - k
  {
    if k < |h| {
      KeptFromSorted(h, name, k + 1, bound);
      var t := KeptFrom(h, name, k + 1);
      if k + 1 < |h| {
        assert h[k].id < h[k + 1].id;
      }
      assert forall i | 0 <= i < |t| :: h[k].id < t[i].id;
    }
  }

  /**
   The DELETE, seen from an account: of the rows of the account it leaves the
   oldest and the newest 19, of the rows of every other account all.
   */
  lemma TrimmedArchive(h: seq<Row>, name: Name, account: Name)
    requires Sorted(h)
    ensures ArchiveOf(Trimmed(h, name), account) == if account == name then Trim(ArchiveOf(h, name)) else ArchiveOf(h, account)
  {
    if account == name {
      KeptFromEntries(h, name, 0);
      KeptIsTrim(ArchiveOf(h, name));
    } else {
      KeptFromOthers(h, name, 0, account);
      assert h[0..] == h;
    }
  }

  // ---------------------------------------------------------------- the transactions

  /** The INSERT ... SELECT that archives the live backup, if there is one. */
  function Archived(d: Dir, name: Name, now: nat): Dir {
    if name in d.backups
    then d.(history := d.history + [Row(d.nextId, name, Superseded(d.backups[name], now))], nextId := d.nextId + 1)
    else d
  }

  function SetBackup(d: Dir, name: Name, b: IdentityBackup, now: nat): Dir {
    var a := Archived(d, name, now);
    a.(history := Trimmed(a.history, name), backups := a.backups[name := b.(updatedAt := now)])
  }

  /** The flag says whether there was anything to clear. */
  function Clear(d: Dir, name: Name, now: nat): (Dir, bool) {
    var a := Archived(d, name, now);
    (a.(history := Trimmed(a.history, name), manifests := a.manifests - {name}, backups := a.backups - {name}),
     name in d.manifests || name in d.backups)
  }

  datatype Publication = Stored(counter: nat) | Stale(counter: nat) | Pinned(counter: nat) | OutOfRange

  predicate SameIdentity(a: KeyManifest, b: KeyManifest) {
    a.identityAlg == b.identityAlg && a.identityKey == b.identityKey
  }

  function Publish(d: Dir, name: Name, m: KeyManifest): (Dir, Publication) {
    if m.counter > MAX_INT64 then (d, OutOfRange)
    else if name in d.manifests && !SameIdentity(d.manifests[name], m) then (d, Pinned(d.manifests[name].counter))
    else if name in d.manifests && m.counter <= d.manifests[name].counter then (d, Stale(d.manifests[name].counter))
    else (d.(manifests := d.manifests[name := m]), Stored(m.counter))
  }

  /** The tables of `SQLiteUserStore`, statement by statement. */
  class Store {
    var manifests: map<Name, KeyManifest>
    var backups: map<Name, IdentityBackup>
    var history: seq<Row>
    var nextId: nat

    ghost function Now(): Dir
      reads this
    {
      Dir(manifests, backups, history, nextId)
    }

    constructor ()
      ensures Now() == EMPTY
    {
      manifests, backups, history, nextId := map[], map[], [], 1;
    }

    method KeyManifest(screenName: Name) returns (m: Option<KeyManifest>)
      ensures m.Some? <==> screenName in manifests
      ensures m.Some? ==> m.value == manifests[screenName]
    {
      m := if screenName in manifests then Some(manifests[screenName]) else None;
    }

    method PublishManifest(screenName: Name, m: KeyManifest) returns (r: Publication)
      modifies this
      ensures (Now(), r) == Publish(old(Now()), screenName, m)
    {
      if m.counter > MAX_INT64 {
        return OutOfRange;
      }
      if screenName in manifests {
        var stored := manifests[screenName];
        if stored.identityAlg == m.identityAlg && stored.identityKey == m.identityKey {
          if m.counter <= stored.counter {
            return Stale(stored.counter);
          }
        } else {
          return Pinned(stored.counter);
        }
      }
      manifests := manifests[screenName := m];
      return Stored(m.counter);
    }

    method ArchiveLive(screenName: Name, now: nat)
      modifies this
      ensures Now() == Archived(old(Now()), screenName, now)
    {
      if screenName in backups {
        history := history + [Row(nextId, screenName, Superseded(backups[screenName], now))];
        nextId := nextId + 1;
      }
    }

    method TrimIdentityBackupHistory(screenName: Name)
      modifies this
      ensures Now() == old(Now()).(history := Trimmed(old(history), screenName))
    {
      var kept: seq<Row> := [];
      for i := 0 to |history|
        invariant Now() == old(Now())
        invariant kept + KeptFrom(history, screenName, i) == Trimmed(history, screenName)
      {
        if Kept(history, screenName, history[i]) {
          kept := kept + [history[i]];
        }
      }
      history := kept;
    }

    method SetIdentityBackup(screenName: Name, b: IdentityBackup, now: nat)
      modifies this
      ensures Now() == SetBackup(old(Now()), screenName, b, now)
    {
      ArchiveLive(screenName, now);
      TrimIdentityBackupHistory(screenName);
      backups := backups[screenName := b.(updatedAt := now)];
    }

    method ClearKeyDirectory(screenName: Name, now: nat) returns (cleared: bool)
      modifies this
      ensures (Now(), cleared) == Clear(old(Now()), screenName, now)
    {
      ArchiveLive(screenName, now);
      TrimIdentityBackupHistory(screenName);
      var had := screenName in manifests;
      manifests := manifests - {screenName};
      cleared := had || screenName in backups;
      backups := backups - {screenName};
    }

    /** Most recently replaced first. */
    method IdentityBackupHistory(screenName: Name) returns (out: seq<Superseded>)
      ensures |out| == |ArchiveOf(history, screenName)|
      ensures forall i | 0 <= i < |out| :: out[i] == ArchiveOf(history, screenName)[|out| - 1 - i]
    {
      out := [];
      var i := |history|;
      while i > 0
        invariant 0 <= i <= |history|
        invariant |out| == |ArchiveOf(history[i..], screenName)|
        invariant forall k | 0 <= k < |out| :: out[k] == ArchiveOf(history[i..], screenName)[|out| - 1 - k]
      {
        i := i - 1;
        assert history[i..][1..] == history[i + 1..];
        if history[i].account == screenName {
          out := out + [history[i].entry];
        }
      }
      assert history[0..] == history;
    }
  }
}
