/**
 The relationship query (state/relationship.go) as relational algebra over sets
 of rows, with SQL's three-valued flags, and what it means user by user.
 */
module Relationship {
  import opened Wrappers
  import opened ScreenNames

  const CLASS_BUDDY: nat := 0
  const CLASS_PERMIT: nat := 2
  const CLASS_DENY: nat := 3
  const CLASS_PDINFO: nat := 4

  datatype FeedbagRow = FeedbagRow(screenName: Name, groupID: nat, itemID: nat, classID: nat, name: Name,
                                   pdMode: Option<nat>, authPending: bool)
  datatype ModeRow = ModeRow(screenName: Name, clientSidePDMode: nat, useFeedbag: bool)
  datatype ClientRow = ClientRow(me: Name, them: Name, isBuddy: bool, isPermit: bool, isDeny: bool)

  datatype DB = DB(feedbag: set<FeedbagRow>, modes: set<ModeRow>, client: set<ClientRow>) {
    /** The primary keys of buddyListMode and clientSideBuddyList. */
    ghost predicate Keyed() {
      && (forall a, b | a in modes && b in modes && a.screenName == b.screenName :: a == b)
      && (forall a, b | a in client && b in client && a.me == b.me && a.them == b.them :: a == b)
    }
  }

  // ---------------------------------------------------------------- SQL

  datatype Bool3 = True | False | Null

  function Of(b: bool): Bool3 {
    if b then True else False
  }

  function Or(a: Bool3, b: Bool3): Bool3 {
    if a.True? || b.True? then True else if a.Null? || b.Null? then Null else False
  }

  /** `COALESCE(x, FALSE)` and `IFNULL(x, false)`. */
  predicate OrFalse(a: Bool3) {
    a.True?
  }

  /** Rows of one table without a partner in the other are kept. */
  ghost function FullJoin(xs: set<Listing>, ys: set<Listing>): set<(Option<Listing>, Option<Listing>)> {
    (set x, y | x in xs && y in ys && x.name == y.name :: (Some(x), Some(y)))
    + (set x | x in xs && (forall y <- ys :: x.name != y.name) :: (Some(x), None))
    + (set y | y in ys && (forall x <- xs :: x.name != y.name) :: (None, Some(y)))
  }

  /** A user with the flags of an entry. */
  datatype Listing = Listing(name: Name, isBuddy: bool, isPermit: bool, isDeny: bool)

  function Flag(x: Option<Listing>, get: Listing -> bool): Bool3 {
    if x.Some? then Of(get(x.value)) else Null
  }

  function IsBuddy(x: Listing): bool { x.isBuddy }
  function IsPermit(x: Listing): bool { x.isPermit }
  function IsDeny(x: Listing): bool { x.isDeny }

  /** `COALESCE(x.name, y.name)`. */
  function NameOf(p: (Option<Listing>, Option<Listing>)): Name
    requires p.0.Some? || p.1.Some?
  {
    if p.0.Some? then p.0.value.name else p.1.value.name
  }

  // ---------------------------------------------------------------- the query

  /** Whose entries: those that others have of the user, or those the user has of others. */
  datatype Side = Theirs | Yours

  function Owner(side: Side, me: Name, other: Name): Name { if side.Theirs? then other else me }
  function Target(side: Side, me: Name, other: Name): Name { if side.Theirs? then me else other }

  /** No filter, like an empty one, admits everybody. */
  predicate Admits(filter: Option<set<Name>>, name: Name) {
    filter.Some? && filter.value != {} ==> name in filter.value
  }

  ghost predicate UsesFeedbag(db: DB, name: Name) {
    exists m :: m in db.modes && m.screenName == name && m.useFeedbag
  }

  /** The rows behind the feedbag subquery, with the other user of each. */
  ghost function Entries(db: DB, me: Name, side: Side, filter: Option<set<Name>>): set<(Name, FeedbagRow)> {
    set r | r in db.feedbag && (if side.Theirs? then r.name == me else r.screenName == me)
      && Admits(filter, if side.Theirs? then r.screenName else r.name)
      && r.classID in {CLASS_BUDDY, CLASS_PERMIT, CLASS_DENY} && UsesFeedbag(db, r.screenName)
      :: (if side.Theirs? then r.screenName else r.name, r)
  }

  /** `MAX(CASE WHEN ... THEN 1 ELSE 0 END)` over a group. */
  ghost predicate Any(es: set<(Name, FeedbagRow)>, name: Name, p: FeedbagRow -> bool) {
    exists e :: e in es && e.0 == name && p(e.1)
  }

  function BuddyRow(r: FeedbagRow): bool { r.classID == CLASS_BUDDY && !r.authPending }
  function PermitRow(r: FeedbagRow): bool { r.classID == CLASS_PERMIT }
  function DenyRow(r: FeedbagRow): bool { r.classID == CLASS_DENY }

  /** The feedbag subquery: grouped by the other user. */
  ghost function FeedbagLists(db: DB, me: Name, side: Side, filter: Option<set<Name>>): set<Listing> {
    var es := Entries(db, me, side, filter);
    set e | e in es :: Listing(e.0, Any(es, e.0, BuddyRow), Any(es, e.0, PermitRow), Any(es, e.0, DenyRow))
  }

  /** The client-side subquery. */
  ghost function ClientLists(db: DB, me: Name, side: Side, filter: Option<set<Name>>): set<Listing> {
    set r | r in db.client && (if side.Theirs? then r.them == me else r.me == me)
      && Admits(filter, if side.Theirs? then r.me else r.them)
      :: Listing(if side.Theirs? then r.me else r.them, r.isBuddy, r.isPermit, r.isDeny)
  }

  /** The flags of either source, an absent row counting as NULL. */
  ghost function Merged(client: set<Listing>, feedbag: set<Listing>): set<Listing> {
    set p | p in FullJoin(client, feedbag) ::
      Listing(NameOf(p),
              OrFalse(Or(Flag(p.0, IsBuddy), Flag(p.1, IsBuddy))),
              OrFalse(Or(Flag(p.0, IsPermit), Flag(p.1, IsPermit))),
              OrFalse(Or(Flag(p.0, IsDeny), Flag(p.1, IsDeny))))
  }

  /** theirBuddyLists and yourBuddyList. */
  ghost function Lists(db: DB, me: Name, side: Side, filter: Option<set<Name>>): set<Listing> {
    Merged(ClientLists(db, me, side, filter), FeedbagLists(db, me, side, filter))
  }

  datatype Pref = Pref(screenName: Name, pdMode: nat)

  /** buddyListMode LEFT JOIN feedbag on the class-4 rows of the same user. */
  ghost function Prefs(db: DB): set<Pref> {
    (set m, r | m in db.modes && r in db.feedbag && r.screenName == m.screenName && r.classID == CLASS_PDINFO ::
       Pref(m.screenName, if m.useFeedbag then (if r.pdMode.Some? then r.pdMode.value else 1) else m.clientSidePDMode))
    + (set m | m in db.modes && (forall r <- db.feedbag :: !(r.screenName == m.screenName && r.classID == CLASS_PDINFO)) ::
       Pref(m.screenName, if m.useFeedbag then 1 else m.clientSidePDMode))
  }

  /** theirPrivacyPrefs: of the users on either list. */
  ghost function TheirPrefs(prefs: set<Pref>, theirs: set<Listing>, yours: set<Listing>): set<Pref> {
    set p | p in prefs && ((exists x :: x in theirs && x.name == p.screenName) || (exists y :: y in yours && y.name == p.screenName))
  }

  /** yourPrivacyPrefs. */
  ghost function YourPrefs(prefs: set<Pref>, me: Name): set<Pref> {
    set p | p in prefs && p.screenName == me
  }

  /** The CASE over a privacy mode; the entry is NULL where the outer join found none. */
  function Blocks(pdMode: nat, entry: Option<Listing>): bool {
    match pdMode
    case 1 => false
    case 2 => true
    case 3 => OrFalse(Flag(entry, IsPermit)) == false
    case 4 => OrFalse(Flag(entry, IsDeny))
    case 5 => OrFalse(Flag(entry, IsBuddy)) == false
    case _ => false
  }

  datatype Relation = Relation(user: Name, youBlock: bool, blocksYou: bool, onTheirList: bool, onYourList: bool)

  /** The final SELECT. */
  ghost function Combined(theirs: set<Listing>, yours: set<Listing>, theirPrefs: set<Pref>, yourPrefs: set<Pref>): set<Relation> {
    set p, their, your | p in FullJoin(theirs, yours) && their in theirPrefs && their.screenName == NameOf(p) && your in yourPrefs ::
      Relation(NameOf((p.1, p.0)), Blocks(your.pdMode, p.1), Blocks(their.pdMode, p.0),
               OrFalse(Flag(p.0, IsBuddy)), OrFalse(Flag(p.1, IsBuddy)))
  }

  ghost function Query(db: DB, me: Name, filter: Option<set<Name>>): set<Relation> {
    var theirs, yours := Lists(db, me, Theirs, filter), Lists(db, me, Yours, filter);
    Combined(theirs, yours, TheirPrefs(Prefs(db), theirs, yours), YourPrefs(Prefs(db), me))
  }

  // ---------------------------------------------------------------- what it means

  /** The user has an entry of that kind for the other: in the feedbag if it is in use, or on the client side. */
  ghost predicate Has(db: DB, owner: Name, target: Name, inFeedbag: FeedbagRow -> bool, onClient: ClientRow -> bool) {
    || (UsesFeedbag(db, owner)
        && exists r :: r in db.feedbag && r.screenName == owner && r.name == target
             && r.classID in {CLASS_BUDDY, CLASS_PERMIT, CLASS_DENY} && inFeedbag(r))
    || (exists c :: c in db.client && c.me == owner && c.them == target && onClient(c))
  }

  function AnyRow(r: FeedbagRow): bool { true }
  function AnyClient(c: ClientRow): bool { true }
  function BuddyClient(c: ClientRow): bool { c.isBuddy }
  function PermitClient(c: ClientRow): bool { c.isPermit }
  function DenyClient(c: ClientRow): bool { c.isDeny }

  ghost predicate HasEntryFor(db: DB, owner: Name, target: Name) { Has(db, owner, target, AnyRow, AnyClient) }
  ghost predicate Befriends(db: DB, owner: Name, target: Name) { Has(db, owner, target, BuddyRow, BuddyClient) }
  ghost predicate Permits(db: DB, owner: Name, target: Name) { Has(db, owner, target, PermitRow, PermitClient) }
  ghost predicate Denies(db: DB, owner: Name, target: Name) { Has(db, owner, target, DenyRow, DenyClient) }

  /** In privacy mode `mode` the owner blocks the target. */
  ghost predicate BlocksIn(db: DB, mode: nat, owner: Name, target: Name) {
    match mode
    case 2 => true
    case 3 => !Permits(db, owner, target)
    case 4 => Denies(db, owner, target)
    case 5 => !Befriends(db, owner, target)
    case _ => false
  }

  /** The row for one user: either of the two lists the other, both have privacy modes, and the flags say who blocks and lists whom. */
  ghost predicate Meant(db: DB, me: Name, r: Relation) {
    && (HasEntryFor(db, r.user, me) || HasEntryFor(db, me, r.user))
    && r.onTheirList == Befriends(db, r.user, me) && r.onYourList == Befriends(db, me, r.user)
    && (exists p :: p in Prefs(db) && p.screenName == r.user && r.blocksYou == BlocksIn(db, p.pdMode, r.user, me))
    && (exists p :: p in Prefs(db) && p.screenName == me && r.youBlock == BlocksIn(db, p.pdMode, me, r.user))
  }

  // ---------------------------------------------------------------- the subqueries, user by user

  /** A feedbag row behind a listing. */
  ghost predicate Backs(db: DB, owner: Name, target: Name, r: FeedbagRow) {
    && r in db.feedbag && r.screenName == owner && r.name == target
    && r.classID in {CLASS_BUDDY, CLASS_PERMIT, CLASS_DENY} && UsesFeedbag(db, owner)
  }

  ghost predicate InFeedbag(db: DB, owner: Name, target: Name, p: FeedbagRow -> bool) {
    exists r :: Backs(db, owner, target, r) && p(r)
  }

  ghost predicate OnClient(db: DB, owner: Name, target: Name, p: ClientRow -> bool) {
    exists c :: c in db.client && c.me == owner && c.them == target && p(c)
  }

  lemma HasIs(db: DB, owner: Name, target: Name, p: FeedbagRow -> bool, q: ClientRow -> bool)
    ensures Has(db, owner, target, p, q) <==> InFeedbag(db, owner, target, p) || OnClient(db, owner, target, q)
  {
    if UsesFeedbag(db, owner) {
      forall r | r in db.feedbag && r.screenName == owner && r.name == target
        && r.classID in {CLASS_BUDDY, CLASS_PERMIT, CLASS_DENY} && p(r) ensures InFeedbag(db, owner, target, p) {
        assert Backs(db, owner, target, r);
      }
    }
  }

  lemma EntriesAre(db: DB, me: Name, side: Side, filter: Option<set<Name>>, name: Name, r: FeedbagRow)
    ensures (name, r) in Entries(db, me, side, filter) <==>
      Admits(filter, name) && Backs(db, Owner(side, me, name), Target(side, me, name), r)
  {
  }

  lemma AnyIs(db: DB, me: Name, side: Side, filter: Option<set<Name>>, name: Name, p: FeedbagRow -> bool)
    requires Admits(filter, name)
    ensures Any(Entries(db, me, side, filter), name, p) <==> InFeedbag(db, Owner(side, me, name), Target(side, me, name), p)
  {
    var es := Entries(db, me, side, filter);
    if e :| e in es && e.0 == name && p(e.1) {
      EntriesAre(db, me, side, filter, name, e.1);
      assert e == (name, e.1);
    }
    if r :| Backs(db, Owner(side, me, name), Target(side, me, name), r) && p(r) {
      EntriesAre(db, me, side, filter, name, r);
      assert (name, r).0 == name && p((name, r).1);
    }
  }

  /** At most one listing a user. */
  ghost predicate OnePerName(xs: set<Listing>) {
    forall x, y | x in xs && y in xs && x.name == y.name :: x == y
  }

  lemma FeedbagListsAre(db: DB, me: Name, side: Side, filter: Option<set<Name>>, x: Listing)
    ensures
      var o, t := Owner(side, me, x.name), Target(side, me, x.name);
      x in FeedbagLists(db, me, side, filter) <==>
        (&& Admits(filter, x.name) && InFeedbag(db, o, t, AnyRow)
         && x.isBuddy == InFeedbag(db, o, t, BuddyRow) && x.isPermit == InFeedbag(db, o, t, PermitRow) && x.isDeny == InFeedbag(db, o, t, DenyRow))
  {
    var es := Entries(db, me, side, filter);
    var o, t := Owner(side, me, x.name), Target(side, me, x.name);
    if Admits(filter, x.name) {
      AnyIs(db, me, side, filter, x.name, BuddyRow);
      AnyIs(db, me, side, filter, x.name, PermitRow);
      AnyIs(db, me, side, filter, x.name, DenyRow);
      AnyIs(db, me, side, filter, x.name, AnyRow);
      if e :| e in es && e.0 == x.name && AnyRow(e.1) {
        assert Listing(e.0, Any(es, e.0, BuddyRow), Any(es, e.0, PermitRow), Any(es, e.0, DenyRow)) in FeedbagLists(db, me, side, filter);
      }
    }
    if x in FeedbagLists(db, me, side, filter) {
      var e :| e in es && x == Listing(e.0, Any(es, e.0, BuddyRow), Any(es, e.0, PermitRow), Any(es, e.0, DenyRow));
      EntriesAre(db, me, side, filter, e.0, e.1);
      assert AnyRow(e.1);
    }
  }

  lemma ClientListsAre(db: DB, me: Name, side: Side, filter: Option<set<Name>>, x: Listing)
    requires db.Keyed()
    ensures
      var o, t := Owner(side, me, x.name), Target(side, me, x.name);
      x in ClientLists(db, me, side, filter) <==>
        (&& Admits(filter, x.name) && OnClient(db, o, t, AnyClient)
         && x.isBuddy == OnClient(db, o, t, BuddyClient) && x.isPermit == OnClient(db, o, t, PermitClient) && x.isDeny == OnClient(db, o, t, DenyClient))
  {
    var o, t := Owner(side, me, x.name), Target(side, me, x.name);
    if c :| c in db.client && c.me == o && c.them == t && AnyClient(c) {
      assert OnClient(db, o, t, BuddyClient) <==> BuddyClient(c);
      assert OnClient(db, o, t, PermitClient) <==> PermitClient(c);
      assert OnClient(db, o, t, DenyClient) <==> DenyClient(c);
    }
  }

  /** What the outer join of two such tables means, user by user. */
  lemma JoinedAre(xs: set<Listing>, ys: set<Listing>, p: (Option<Listing>, Option<Listing>))
    requires OnePerName(xs) && OnePerName(ys)
    ensures p in FullJoin(xs, ys) <==>
      (&& (p.0.Some? || p.1.Some?)
       && (if p.0.Some? then p.0.value in xs && p.0.value.name == NameOf(p) else forall x <- xs :: x.name != NameOf(p))
       && (if p.1.Some? then p.1.value in ys && p.1.value.name == NameOf(p) else forall y <- ys :: y.name != NameOf(p)))
  {
  }

  /** The listing of one user, if there is any entry. */
  ghost function ListingOf(db: DB, me: Name, side: Side, name: Name): Listing {
    var o, t := Owner(side, me, name), Target(side, me, name);
    Listing(name, Befriends(db, o, t), Permits(db, o, t), Denies(db, o, t))
  }

  ghost predicate Listed(db: DB, me: Name, side: Side, name: Name) {
    HasEntryFor(db, Owner(side, me, name), Target(side, me, name))
  }

  // ---------------------------------------------------------------- the two lists, user by user

  ghost function ClientOf(db: DB, me: Name, side: Side, name: Name): Option<Listing> {
    var o, t := Owner(side, me, name), Target(side, me, name);
    if OnClient(db, o, t, AnyClient)
    then Some(Listing(name, OnClient(db, o, t, BuddyClient), OnClient(db, o, t, PermitClient), OnClient(db, o, t, DenyClient)))
    else None
  }

  ghost function FeedbagOf(db: DB, me: Name, side: Side, name: Name): Option<Listing> {
    var o, t := Owner(side, me, name), Target(side, me, name);
    if InFeedbag(db, o, t, AnyRow)
    then Some(Listing(name, InFeedbag(db, o, t, BuddyRow), InFeedbag(db, o, t, PermitRow), InFeedbag(db, o, t, DenyRow)))
    else None
  }

  lemma SubqueriesAre(db: DB, me: Name, side: Side, filter: Option<set<Name>>, x: Listing)
    requires db.Keyed()
    ensures x in ClientLists(db, me, side, filter) <==> Admits(filter, x.name) && ClientOf(db, me, side, x.name) == Some(x)
    ensures x in FeedbagLists(db, me, side, filter) <==> Admits(filter, x.name) && FeedbagOf(db, me, side, x.name) == Some(x)
  {
    ClientListsAre(db, me, side, filter, x);
    FeedbagListsAre(db, me, side, filter, x);
  }

  /** Two tables with one optional row a user, given by functions: their outer join. */
  ghost predicate TableOf(xs: set<Listing>, filter: Option<set<Name>>, f: Name -> Option<Listing>) {
    && (forall x :: x in xs <==> Admits(filter, x.name) && f(x.name) == Some(x))
    && (forall n :: f(n).Some? ==> f(n).value.name == n)
  }

  lemma JoinOf(xs: set<Listing>, ys: set<Listing>, filter: Option<set<Name>>, f: Name -> Option<Listing>, g: Name -> Option<Listing>,
               p: (Option<Listing>, Option<Listing>))
    requires TableOf(xs, filter, f) && TableOf(ys, filter, g)
    ensures p in FullJoin(xs, ys) <==>
      (p.0.Some? || p.1.Some?) && Admits(filter, NameOf(p)) && p == (f(NameOf(p)), g(NameOf(p)))
  {
    assert OnePerName(xs) && OnePerName(ys);
    JoinedAre(xs, ys, p);
    if p.0.Some? || p.1.Some? {
      var n := NameOf(p);
      if f(n).Some? && Admits(filter, n) {
        assert f(n).value in xs;
      }
      if g(n).Some? && Admits(filter, n) {
        assert g(n).value in ys;
      }
    }
  }

  lemma SubqueryTables(db: DB, me: Name, side: Side, filter: Option<set<Name>>)
    requires db.Keyed()
    ensures TableOf(ClientLists(db, me, side, filter), filter, n => ClientOf(db, me, side, n))
    ensures TableOf(FeedbagLists(db, me, side, filter), filter, n => FeedbagOf(db, me, side, n))
  {
    forall x ensures
      && (x in ClientLists(db, me, side, filter) <==> Admits(filter, x.name) && ClientOf(db, me, side, x.name) == Some(x))
      && (x in FeedbagLists(db, me, side, filter) <==> Admits(filter, x.name) && FeedbagOf(db, me, side, x.name) == Some(x))
    {
      SubqueriesAre(db, me, side, filter, x);
    }
  }

  lemma FlagsAre(db: DB, me: Name, side: Side, name: Name)
    ensures
      var c, f, x := ClientOf(db, me, side, name), FeedbagOf(db, me, side, name), ListingOf(db, me, side, name);
      && (c.Some? || f.Some? <==> Listed(db, me, side, name))
      && OrFalse(Or(Flag(c, IsBuddy), Flag(f, IsBuddy))) == x.isBuddy
      && OrFalse(Or(Flag(c, IsPermit), Flag(f, IsPermit))) == x.isPermit
      && OrFalse(Or(Flag(c, IsDeny), Flag(f, IsDeny))) == x.isDeny
  {
    var o, t := Owner(side, me, name), Target(side, me, name);
    HasIs(db, o, t, AnyRow, AnyClient);
    HasIs(db, o, t, BuddyRow, BuddyClient);
    HasIs(db, o, t, PermitRow, PermitClient);
    HasIs(db, o, t, DenyRow, DenyClient);
    assert forall r | BuddyRow(r) || PermitRow(r) || DenyRow(r) :: AnyRow(r);
    assert forall c | BuddyClient(c) || PermitClient(c) || DenyClient(c) :: AnyClient(c);
  }

  ghost function ListedAs(db: DB, me: Name, side: Side, name: Name): Option<Listing> {
    if Listed(db, me, side, name) then Some(ListingOf(db, me, side, name)) else None
  }

  /** The row that two optional rows of a user merge into. */
  ghost function Both(name: Name, c: Option<Listing>, f: Option<Listing>): Option<Listing> {
    if c.None? && f.None? then None else
    Some(Listing(name,
                 OrFalse(Or(Flag(c, IsBuddy), Flag(f, IsBuddy))),
                 OrFalse(Or(Flag(c, IsPermit), Flag(f, IsPermit))),
                 OrFalse(Or(Flag(c, IsDeny), Flag(f, IsDeny)))))
  }

  lemma MergedAre(cs: set<Listing>, fs: set<Listing>, filter: Option<set<Name>>, f: Name -> Option<Listing>, g: Name -> Option<Listing>, x: Listing)
    requires TableOf(cs, filter, f) && TableOf(fs, filter, g)
    ensures x in Merged(cs, fs) <==> Admits(filter, x.name) && Both(x.name, f(x.name), g(x.name)) == Some(x)
  {
    var p := (f(x.name), g(x.name));
    JoinOf(cs, fs, filter, f, g, p);
    if x in Merged(cs, fs) {
      var q :| q in FullJoin(cs, fs) && x == Listing(NameOf(q),
            OrFalse(Or(Flag(q.0, IsBuddy), Flag(q.1, IsBuddy))),
            OrFalse(Or(Flag(q.0, IsPermit), Flag(q.1, IsPermit))),
            OrFalse(Or(Flag(q.0, IsDeny), Flag(q.1, IsDeny))));
      JoinOf(cs, fs, filter, f, g, q);
    }
    if Admits(filter, x.name) && Both(x.name, f(x.name), g(x.name)) == Some(x) {
      assert p in FullJoin(cs, fs) && NameOf(p) == x.name;
    }
  }

  /** The joined list: one row for every admitted user with an entry, client-side or feedbag. */
  lemma ListsAre(db: DB, me: Name, side: Side, filter: Option<set<Name>>)
    requires db.Keyed()
    ensures TableOf(Lists(db, me, side, filter), filter, n => ListedAs(db, me, side, n))
  {
    SubqueryTables(db, me, side, filter);
    var f, g := n => ClientOf(db, me, side, n), n => FeedbagOf(db, me, side, n);
    forall x ensures x in Lists(db, me, side, filter) <==> Admits(filter, x.name) && ListedAs(db, me, side, x.name) == Some(x) {
      FlagsAre(db, me, side, x.name);
      MergedAre(ClientLists(db, me, side, filter), FeedbagLists(db, me, side, filter), filter, f, g, x);
    }
  }

  // ---------------------------------------------------------------- the query, user by user

  lemma BlocksAre(db: DB, me: Name, side: Side, name: Name, mode: nat)
    ensures Blocks(mode, ListedAs(db, me, side, name)) == BlocksIn(db, mode, Owner(side, me, name), Target(side, me, name))
    ensures OrFalse(Flag(ListedAs(db, me, side, name), IsBuddy)) == Befriends(db, Owner(side, me, name), Target(side, me, name))
  {
    FlagsAre(db, me, side, name);
  }

  /** The final SELECT over two such lists, user by user. */
  ghost predicate CombinedRow(prefs: set<Pref>, me: Name, filter: Option<set<Name>>,
                              theirs: Option<Listing>, yours: Option<Listing>, r: Relation) {
    && Admits(filter, r.user) && (theirs.Some? || yours.Some?)
    && r.onTheirList == OrFalse(Flag(theirs, IsBuddy)) && r.onYourList == OrFalse(Flag(yours, IsBuddy))
    && (exists p :: p in prefs && p.screenName == r.user && r.blocksYou == Blocks(p.pdMode, theirs))
    && (exists p :: p in prefs && p.screenName == me && r.youBlock == Blocks(p.pdMode, yours))
  }

  lemma CombinedOnly(ts: set<Listing>, ys: set<Listing>, prefs: set<Pref>, me: Name, filter: Option<set<Name>>,
                     f: Name -> Option<Listing>, g: Name -> Option<Listing>, r: Relation)
    requires TableOf(ts, filter, f) && TableOf(ys, filter, g)
    requires r in Combined(ts, ys, TheirPrefs(prefs, ts, ys), YourPrefs(prefs, me))
    ensures CombinedRow(prefs, me, filter, f(r.user), g(r.user), r)
  {
    var tps, yps := TheirPrefs(prefs, ts, ys), YourPrefs(prefs, me);
    var p, their, your :| p in FullJoin(ts, ys) && their in tps && their.screenName == NameOf(p) && your in yps
      && r == Relation(NameOf((p.1, p.0)), Blocks(your.pdMode, p.1), Blocks(their.pdMode, p.0),
                       OrFalse(Flag(p.0, IsBuddy)), OrFalse(Flag(p.1, IsBuddy)));
    JoinOf(ts, ys, filter, f, g, p);
    assert their in prefs && your in prefs;
  }

  lemma CombinedAll(ts: set<Listing>, ys: set<Listing>, prefs: set<Pref>, me: Name, filter: Option<set<Name>>,
                    f: Name -> Option<Listing>, g: Name -> Option<Listing>, r: Relation)
    requires TableOf(ts, filter, f) && TableOf(ys, filter, g)
    requires CombinedRow(prefs, me, filter, f(r.user), g(r.user), r)
    ensures r in Combined(ts, ys, TheirPrefs(prefs, ts, ys), YourPrefs(prefs, me))
  {
    var u := r.user;
    var p := (f(u), g(u));
    JoinOf(ts, ys, filter, f, g, p);
    assert p in FullJoin(ts, ys);
    var their :| their in prefs && their.screenName == u && r.blocksYou == Blocks(their.pdMode, p.0);
    var your :| your in prefs && your.screenName == me && r.youBlock == Blocks(your.pdMode, p.1);
    assert their in TheirPrefs(prefs, ts, ys) by {
      assert if p.0.Some? then p.0.value in ts else p.1.value in ys;
    }
    assert your in YourPrefs(prefs, me);
    assert NameOf((p.1, p.0)) == u;
  }

  lemma RowIsMeant(db: DB, me: Name, filter: Option<set<Name>>, r: Relation)
    ensures CombinedRow(Prefs(db), me, filter, ListedAs(db, me, Theirs, r.user), ListedAs(db, me, Yours, r.user), r) <==>
      Admits(filter, r.user) && Meant(db, me, r)
  {
    forall mode ensures
      && Blocks(mode, ListedAs(db, me, Theirs, r.user)) == BlocksIn(db, mode, r.user, me)
      && Blocks(mode, ListedAs(db, me, Yours, r.user)) == BlocksIn(db, mode, me, r.user)
    {
      BlocksAre(db, me, Theirs, r.user, mode);
      BlocksAre(db, me, Yours, r.user, mode);
    }
    BlocksAre(db, me, Theirs, r.user, 0);
    BlocksAre(db, me, Yours, r.user, 0);
  }

  lemma QueryIsCombined(db: DB, me: Name, filter: Option<set<Name>>, r: Relation)
    requires db.Keyed()
    ensures r in Query(db, me, filter) <==>
      CombinedRow(Prefs(db), me, filter, ListedAs(db, me, Theirs, r.user), ListedAs(db, me, Yours, r.user), r)
  {
    ListsAre(db, me, Theirs, filter);
    ListsAre(db, me, Yours, filter);
    var ts, ys := Lists(db, me, Theirs, filter), Lists(db, me, Yours, filter);
    CombinedIff(ts, ys, Prefs(db), me, filter, n => ListedAs(db, me, Theirs, n), n => ListedAs(db, me, Yours, n), r);
  }

  lemma CombinedIff(ts: set<Listing>, ys: set<Listing>, prefs: set<Pref>, me: Name, filter: Option<set<Name>>,
                    f: Name -> Option<Listing>, g: Name -> Option<Listing>, r: Relation)
    requires TableOf(ts, filter, f) && TableOf(ys, filter, g)
    ensures r in Combined(ts, ys, TheirPrefs(prefs, ts, ys), YourPrefs(prefs, me)) <==>
      CombinedRow(prefs, me, filter, f(r.user), g(r.user), r)
  {
    if r in Combined(ts, ys, TheirPrefs(prefs, ts, ys), YourPrefs(prefs, me)) {
      CombinedOnly(ts, ys, prefs, me, filter, f, g, r);
    }
    if CombinedRow(prefs, me, filter, f(r.user), g(r.user), r) {
      CombinedAll(ts, ys, prefs, me, filter, f, g, r);
    }
  }

  /**
   For every database, user and filter, a row is in the result exactly when it
   is the row of an admitted user as defined pointwise.
   */
  lemma QueryIsPointwise(db: DB, me: Name, filter: Option<set<Name>>, r: Relation)
    requires db.Keyed()
    ensures r in Query(db, me, filter) <==> Admits(filter, r.user) && Meant(db, me, r)
  {
    QueryIsCombined(db, me, filter, r);
    RowIsMeant(db, me, filter, r);
  }

  /** Pushing the filter into every subquery changes nothing but who is in the result. */
  lemma FilterIsPushedDown(db: DB, me: Name, filter: Option<set<Name>>)
    requires db.Keyed()
    ensures Query(db, me, filter) == set r | r in Query(db, me, None) && Admits(filter, r.user)
  {
    forall r ensures r in Query(db, me, filter) <==> r in Query(db, me, None) && Admits(filter, r.user) {
      QueryIsPointwise(db, me, filter, r);
      QueryIsPointwise(db, me, None, r);
    }
  }

  // ---------------------------------------------------------------- one pair of users

  /** At most one privacy-mode row. */
  ghost predicate OneMode(db: DB, name: Name) {
    forall r, s | r in db.feedbag && s in db.feedbag
      && r.screenName == name && s.screenName == name && r.classID == CLASS_PDINFO && s.classID == CLASS_PDINFO :: r == s
  }

  lemma OnePref(db: DB, name: Name)
    requires db.Keyed() && OneMode(db, name)
    ensures forall p, q | p in Prefs(db) && q in Prefs(db) && p.screenName == name && q.screenName == name :: p == q
  {
  }

  lemma OneRow(db: DB, me: Name, filter: Option<set<Name>>, r: Relation, s: Relation)
    requires db.Keyed() && OneMode(db, me) && OneMode(db, r.user)
    requires r in Query(db, me, filter) && s in Query(db, me, filter) && r.user == s.user
    ensures r == s
  {
    QueryIsPointwise(db, me, filter, r);
    QueryIsPointwise(db, me, filter, s);
    OnePref(db, me);
    OnePref(db, r.user);
  }

  /** `Relationship`: the row of the other user, or one with no flag set. */
  ghost function Between(db: DB, me: Name, them: Name): (r: Relation)
    ensures r in Query(db, me, Some({them})) || (Query(db, me, Some({them})) == {} && r == Relation(them, false, false, false, false))
  {
    if r :| r in Query(db, me, Some({them})) then r else Relation(them, false, false, false, false)
  }

  function Mirrored(r: Relation, user: Name): Relation {
    Relation(user, r.blocksYou, r.youBlock, r.onYourList, r.onTheirList)
  }

  lemma MeantMirrors(db: DB, me: Name, r: Relation)
    requires Meant(db, me, r)
    ensures Meant(db, r.user, Mirrored(r, me))
  {
    var p :| p in Prefs(db) && p.screenName == r.user && r.blocksYou == BlocksIn(db, p.pdMode, r.user, me);
    var q :| q in Prefs(db) && q.screenName == me && r.youBlock == BlocksIn(db, q.pdMode, me, r.user);
  }

  lemma MeantIsFound(db: DB, me: Name, filter: Option<set<Name>>, r: Relation)
    requires db.Keyed() && Admits(filter, r.user) && Meant(db, me, r)
    ensures r in Query(db, me, filter)
  {
    QueryIsPointwise(db, me, filter, r);
  }

  lemma FoundIsMeant(db: DB, me: Name, filter: Option<set<Name>>, r: Relation)
    requires db.Keyed() && r in Query(db, me, filter)
    ensures Admits(filter, r.user) && Meant(db, me, r)
  {
    QueryIsPointwise(db, me, filter, r);
  }

  lemma MirrorRow(db: DB, a: Name, b: Name, r: Relation)
    requires db.Keyed() && r in Query(db, a, Some({b}))
    ensures r.user == b && Mirrored(r, a) in Query(db, b, Some({a}))
  {
    FoundIsMeant(db, a, Some({b}), r);
    MeantMirrors(db, a, r);
    MeantIsFound(db, b, Some({a}), Mirrored(r, a));
  }

  /** Both users see the same relationship from their own side. */
  lemma RelationshipMirrors(db: DB, a: Name, b: Name)
    requires db.Keyed() && OneMode(db, a) && OneMode(db, b)
    ensures Between(db, b, a) == Mirrored(Between(db, a, b), a)
  {
    var r, s := Between(db, a, b), Between(db, b, a);
    if r in Query(db, a, Some({b})) {
      MirrorRow(db, a, b, r);
      MirrorRow(db, b, a, s);
      OneRow(db, b, Some({a}), Mirrored(r, a), s);
    } else if s in Query(db, b, Some({a})) {
      MirrorRow(db, b, a, s);
      assert false;
    }
  }
}
