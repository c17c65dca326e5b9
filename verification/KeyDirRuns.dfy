/** What holds over every run of the key directory's transactions. */
module KeyDirRuns {
  import opened Wrappers
  import opened ScreenNames
  import opened KeyDirectory

  datatype Op =
    | Backup(account: Name, backup: IdentityBackup, now: nat)
    | ClearAll(account: Name, now: nat)
    | Publication(account: Name, m: KeyManifest)

  function Apply(d: Dir, op: Op): Dir {
    match op
    case Backup(name, b, now) => SetBackup(d, name, b, now)
    case ClearAll(name, now) => Clear(d, name, now).0
    case Publication(name, m) => Publish(d, name, m).0
  }

  function Run(d: Dir, ops: seq<Op>): Dir {
    if ops == [] then d else Apply(Run(d, ops[..|ops| - 1]), ops[|ops| - 1])
  }

  // ---------------------------------------------------------------- the archive

  /** The backup an account's operations leave live. */
  function Live(ops: seq<Op>, name: Name): Option<IdentityBackup> {
    if ops == [] then None else
    var op := ops[|ops| - 1];
    if op.account != name then Live(ops[..|ops| - 1], name) else
    match op
    case Backup(_, b, now) => Some(b.(updatedAt := now))
    case ClearAll(_, _) => None
    case Publication(_, _) => Live(ops[..|ops| - 1], name)
  }

  /** Every backup of the account that was ever superseded, nothing dropped. */
  function Log(ops: seq<Op>, name: Name): seq<Superseded> {
    if ops == [] then [] else
    var front := ops[..|ops| - 1];
    var op := ops[|ops| - 1];
    if op.account == name && !op.Publication? && Live(front, name).Some?
    then Log(front, name) + [Superseded(Live(front, name).value, op.now)]
    else Log(front, name)
  }

  predicate IdsInOrder(d: Dir) {
    Sorted(d.history) && forall i | 0 <= i < |d.history| :: d.history[i].id < d.nextId
  }

  lemma ArchivedInOrder(d: Dir, name: Name, now: nat)
    requires IdsInOrder(d)
    ensures var a := Archived(d, name, now);
      IdsInOrder(a) && IdsInOrder(a.(history := Trimmed(a.history, name)))
  {
    var a := Archived(d, name, now);
    KeptFromSorted(a.history, name, 0, a.nextId);
  }

  lemma ArchivedArchive(d: Dir, name: Name, now: nat, account: Name)
    ensures ArchiveOf(Archived(d, name, now).history, account) ==
      ArchiveOf(d.history, account) + if account == name && name in d.backups then [Superseded(d.backups[name], now)] else []
  {
    if name in d.backups {
      var r := Row(d.nextId, name, Superseded(d.backups[name], now));
      ArchiveSplit(d.history, [r], account);
      assert [r][1..] == [];
    }
  }

  lemma TrimOne<T>(l: seq<T>, x: T)
    ensures Trim(Trim(l) + [x]) == Trim(l + [x])
  {
  }

  lemma TrimTrim<T>(l: seq<T>)
    ensures Trim(Trim(l)) == Trim(l)
  {
  }

  /**
   Over every run: the live backup is the last one put, and the archive is the
   oldest entry and the newest 19 of everything ever superseded, although each
   transaction only sees what the trims before it left.
   */
  lemma {:induction false} ArchiveIsTrimmedLog(ops: seq<Op>, name: Name)
    ensures var d := Run(EMPTY, ops);
      && IdsInOrder(d)
      && (name in d.backups <==> Live(ops, name).Some?)
      && (name in d.backups ==> Live(ops, name) == Some(d.backups[name]))
      && ArchiveOf(d.history, name) == Trim(Log(ops, name))
    decreases |ops|
  {
    if ops != [] {
      var front := ops[..|ops| - 1];
      var op := ops[|ops| - 1];
      var d := Run(EMPTY, front);
      ArchiveIsTrimmedLog(front, name);
      if !op.Publication? {
        var a := Archived(d, op.account, op.now);
        ArchivedInOrder(d, op.account, op.now);
        ArchivedArchive(d, op.account, op.now, name);
        TrimmedArchive(a.history, op.account, name);
        if op.account == name {
          TrimTrim(Log(front, name));
          if name in d.backups {
            TrimOne(Log(front, name), Superseded(d.backups[name], op.now));
          }
        }
      }
    }
  }

  /** The first backup the account ever put. */
  function FirstBackup(ops: seq<Op>, name: Name): Option<IdentityBackup> {
    if ops == [] then None else
    var front := FirstBackup(ops[..|ops| - 1], name);
    var op := ops[|ops| - 1];
    if front.None? && op.Backup? && op.account == name then Some(op.backup.(updatedAt := op.now)) else front
  }

  lemma {:induction false} FirstIsLiveOrLogged(ops: seq<Op>, name: Name)
    ensures FirstBackup(ops, name).None? ==> Live(ops, name).None? && Log(ops, name) == []
    ensures FirstBackup(ops, name).Some? ==>
      if Log(ops, name) == [] then Live(ops, name) == FirstBackup(ops, name)
      else Log(ops, name)[0].backup == FirstBackup(ops, name).value
    decreases |ops|
  {
    if ops != [] {
      FirstIsLiveOrLogged(ops[..|ops| - 1], name);
    }
  }

  /** However often an account is overwritten or cleared, its first backup is live or the oldest in the archive. */
  lemma FirstBackupSurvives(ops: seq<Op>, name: Name)
    requires FirstBackup(ops, name).Some?
    ensures var d := Run(EMPTY, ops);
      var archive := ArchiveOf(d.history, name);
      if archive == [] then name in d.backups && d.backups[name] == FirstBackup(ops, name).value
      else archive[0].backup == FirstBackup(ops, name).value
    ensures |ArchiveOf(Run(EMPTY, ops).history, name)| <= HISTORY_DEPTH
  {
    ArchiveIsTrimmedLog(ops, name);
    FirstIsLiveOrLogged(ops, name);
  }

  // ---------------------------------------------------------------- the pin and the counter

  predicate Clears(op: Op, name: Name) {
    op.ClearAll? && op.account == name
  }

  predicate NeverClears(ops: seq<Op>, name: Name) {
    forall i | 0 <= i < |ops| :: !Clears(ops[i], name)
  }

  /** Between two clears the identity is constant, and the counter grows with every change of the stored manifest. */
  lemma {:induction false} PinnedAndForward(d: Dir, ops: seq<Op>, name: Name)
    requires name in d.manifests && NeverClears(ops, name)
    ensures name in Run(d, ops).manifests
    ensures var m, n := d.manifests[name], Run(d, ops).manifests[name]; SameIdentity(m, n) && (n == m || n.counter > m.counter)
    decreases |ops|
  {
    if ops != [] {
      PinnedAndForward(d, ops[..|ops| - 1], name);
    }
  }

  /**
   A manifest once accepted is never accepted again before a clear, whatever
   was published since: a device removed by a newer manifest stays removed.
   */
  lemma ReplayIsRefused(d: Dir, name: Name, m: KeyManifest, ops: seq<Op>)
    requires Publish(d, name, m).1.Stored? && NeverClears(ops, name)
    ensures var e := Run(Publish(d, name, m).0, ops);
      name in e.manifests && Publish(e, name, m) == (e, Stale(e.manifests[name].counter))
  {
    PinnedAndForward(Publish(d, name, m).0, ops, name);
  }
}
