/** Who lists and blocks whom, said of the rows of the three tables alone. */
module RelationshipOutcomes {
  import opened Wrappers
  import opened ScreenNames
  import opened Relationship

  ghost predicate UsesServerList(db: DB, user: Name) {
    exists m :: m in db.modes && m.screenName == user && m.useFeedbag
  }

  /** An entry of the server-side list, which counts only while it is in use, and not as a buddy while it is pending. */
  ghost predicate OnServer(db: DB, owner: Name, target: Name, classID: nat) {
    && UsesServerList(db, owner)
    && exists r :: r in db.feedbag && r.screenName == owner && r.name == target && r.classID == classID
         && (classID == 0 ==> !r.authPending)
  }

  ghost predicate ListsAsBuddy(db: DB, owner: Name, target: Name) {
    OnServer(db, owner, target, 0) || exists c :: c in db.client && c.me == owner && c.them == target && c.isBuddy
  }

  ghost predicate ListsAsPermitted(db: DB, owner: Name, target: Name) {
    OnServer(db, owner, target, 2) || exists c :: c in db.client && c.me == owner && c.them == target && c.isPermit
  }

  ghost predicate ListsAsDenied(db: DB, owner: Name, target: Name) {
    OnServer(db, owner, target, 3) || exists c :: c in db.client && c.me == owner && c.them == target && c.isDeny
  }

  /** Any entry at all, a pending buddy or an empty client-side row among them. */
  ghost predicate ListsAtAll(db: DB, owner: Name, target: Name) {
    || (UsesServerList(db, owner)
        && exists r :: r in db.feedbag && r.screenName == owner && r.name == target
             && (r.classID == 0 || r.classID == 2 || r.classID == 3))
    || exists c :: c in db.client && c.me == owner && c.them == target
  }

  ghost predicate ModeStored(db: DB, user: Name) {
    exists r :: r in db.feedbag && r.screenName == user && r.classID == 4
  }

  /**
   A privacy mode of the user: of the client-side list, or, with the server-side
   list in use, of a class 4 item, where 1 stands for none.
   */
  ghost predicate HasMode(db: DB, user: Name, mode: nat) {
    exists m :: m in db.modes && m.screenName == user &&
      if !m.useFeedbag then mode == m.clientSidePDMode
      else if ModeStored(db, user) then
        exists r :: r in db.feedbag && r.screenName == user && r.classID == 4 && mode == if r.pdMode.Some? then r.pdMode.value else 1
      else mode == 1
  }

  /** Modes 2 to 5 block everybody, all but the permitted, the denied, and all but the buddies. */
  ghost predicate BlocksAs(db: DB, mode: nat, owner: Name, target: Name) {
    || mode == 2
    || (mode == 3 && !ListsAsPermitted(db, owner, target))
    || (mode == 4 && ListsAsDenied(db, owner, target))
    || (mode == 5 && !ListsAsBuddy(db, owner, target))
  }

  ghost predicate BlockFlag(db: DB, owner: Name, target: Name, blocks: bool) {
    exists mode :: HasMode(db, owner, mode) && blocks == BlocksAs(db, mode, owner, target)
  }

  lemma ListedSame(db: DB, owner: Name, target: Name)
    ensures Befriends(db, owner, target) <==> ListsAsBuddy(db, owner, target)
    ensures Permits(db, owner, target) <==> ListsAsPermitted(db, owner, target)
    ensures Denies(db, owner, target) <==> ListsAsDenied(db, owner, target)
    ensures HasEntryFor(db, owner, target) <==> ListsAtAll(db, owner, target)
  {
  }

  lemma ModesSame(db: DB, user: Name, mode: nat)
    ensures Pref(user, mode) in Prefs(db) <==> HasMode(db, user, mode)
  {
  }

  lemma FlagSame(db: DB, owner: Name, target: Name, blocks: bool)
    ensures (exists p :: p in Prefs(db) && p.screenName == owner && blocks == BlocksIn(db, p.pdMode, owner, target))
            <==> BlockFlag(db, owner, target, blocks)
  {
    ListedSame(db, owner, target);
    if p :| p in Prefs(db) && p.screenName == owner && blocks == BlocksIn(db, p.pdMode, owner, target) {
      ModesSame(db, owner, p.pdMode);
    }
    if mode :| HasMode(db, owner, mode) && blocks == BlocksAs(db, mode, owner, target) {
      ModesSame(db, owner, mode);
      assert Pref(owner, mode) in Prefs(db);
    }
  }

  /**
   A row is in the result of the query if and only if its user is admitted by the
   filter, one of the two lists the other, and its four flags say, by the rows
   alone, who blocks and who lists whom.
   */
  lemma QueryOutcome(db: DB, me: Name, filter: Option<set<Name>>, r: Relation)
    requires db.Keyed()
    ensures r in Query(db, me, filter) <==>
      && (filter == None || filter.value == {} || r.user in filter.value)
      && (ListsAtAll(db, r.user, me) || ListsAtAll(db, me, r.user))
      && r.onTheirList == ListsAsBuddy(db, r.user, me) && r.onYourList == ListsAsBuddy(db, me, r.user)
      && BlockFlag(db, r.user, me, r.blocksYou) && BlockFlag(db, me, r.user, r.youBlock)
  {
    QueryIsPointwise(db, me, filter, r);
    ListedSame(db, r.user, me);
    ListedSame(db, me, r.user);
    FlagSame(db, r.user, me, r.blocksYou);
    FlagSame(db, me, r.user, r.youBlock);
  }
}
