/** How the TOC commands save a list (server/toc/cmd_client.go): one batch each, deletes first. */
module FeedbagSaves {
  import opened Bytes
  import opened ScreenNames
  import opened FeedbagItems
  import opened FeedbagBatch
  import opened FeedbagReplay
  import opened FeedbagRuns
  import FeedbagList

  /** Only listed groups are tracked: so far the batch deleted, and fixed orders. */
  predicate OnlyGroupsTracked(b: Batch) {
    && b.InRange()
    && forall i | 0 <= i < |b.updates| :: b.updates[i] in b.items && b.heap[b.updates[i]].classID == CLASS_GROUP
  }

  lemma TrackedAreListed(b: Batch)
    requires OnlyGroupsTracked(b)
    ensures KeysOf(Updates(b)) <= KeysOf(Items(b))
  {
    forall i | 0 <= i < |b.updates| ensures KeyOf(Updates(b)[i]) in KeysOf(Items(b)) {
      ListedKey(b, i);
    }
  }

  predicate Removal(op: Op) {
    op.DeletePermit? || op.DeleteDeny? || op.OpDeleteBuddy?
  }

  lemma DeleteTracks(b: Batch, x: FeedbagItem)
    requires OnlyGroupsTracked(b) && x.classID != CLASS_GROUP
    ensures OnlyGroupsTracked(Delete(b, x).0)
  {
    var i := First(b, Matching(x), 0);
    if i < |b.items| {
      var c := RemoveAt(b, i);
      forall p | p in b.items && b.heap[p].classID == CLASS_GROUP ensures p in c.items {
        var j :| 0 <= j < |b.items| && b.items[j] == p;
        assert j != i;
        assert c.items[if j < i then j else j - 1] == p;
      }
    }
  }

  lemma DeleteOpTracks(b: Batch, op: Op)
    requires OnlyGroupsTracked(b) && op.Valid() && Removal(op)
    ensures OnlyGroupsTracked(Apply(b, op))
  {
    match op
    case DeletePermit(user) => DeleteTracks(b, Entry(CLASS_PERMIT, user));
    case DeleteDeny(user) => DeleteTracks(b, Entry(CLASS_DENY, user));
    case OpDeleteBuddy(group, user) => DeleteBuddyTracks(b, group, user);
  }

  lemma DeleteBuddyTracks(b: Batch, group: Name, buddy: Name)
    requires OnlyGroupsTracked(b)
    ensures OnlyGroupsTracked(DeleteBuddy(b, group, buddy).0)
  {
    var i := First(b, GroupNamed(group), 0);
    if i < |b.items| {
      var x := FeedbagItem(buddy, b.heap[b.items[i]].groupID, 0, CLASS_BUDDY, []);
      DeleteTracks(b, x);
      var (c, d) := Delete(b, x);
      if d.Some? {
        var j := First(b, Matching(x), 0);
        assert b.heap[b.items[j]].classID == CLASS_BUDDY;
        StillAt(b.items, i, j);
      }
    }
  }

  lemma {:induction false} DeleteRunTracks(b: Batch, ops: seq<Op>)
    requires OnlyGroupsTracked(b) && AllValid(ops) && forall i | 0 <= i < |ops| :: Removal(ops[i])
    ensures OnlyGroupsTracked(Run(b, ops))
    decreases |ops|
  {
    if ops != [] {
      DeleteOpTracks(b, ops[0]);
      DeleteRunTracks(Apply(b, ops[0]), ops[1..]);
    }
  }

  lemma {:induction false} RemovalsKeyed(b: Batch, ops: seq<Op>)
    requires b.InRange() && AllValid(ops) && forall i | 0 <= i < |ops| :: Removal(ops[i])
    ensures AllKeyed(b, ops)
    decreases |ops|
  {
    if ops != [] {
      RemovalsKeyed(Apply(b, ops[0]), ops[1..]);
    }
  }

  /** Removing any number of buddies, permits and denies is saved exactly. */
  lemma RemovalsAreSaved(xs: seq<FeedbagItem>, ops: seq<Op>)
    requires Distinct(xs) && AllValid(ops)
    requires forall i | 0 <= i < |ops| :: Removal(ops[i])
    ensures var b := Run(Fresh(xs), ops); Store(Erase(AsRows(xs), Deletes(b)), Updates(b)) == AsRows(Items(b))
  {
    DeleteRunTracks(Fresh(xs), ops);
    RemovalsKeyed(Fresh(xs), ops);
    TrackedAreListed(Run(Fresh(xs), ops));
    SavingDeletesFirst(xs, ops);
  }

  lemma {:induction false} DeleteEachTracksNothing(b: Batch, ps: seq<Ptr>)
    requires b.InRange() && forall i | 0 <= i < |ps| :: ps[i] < |b.heap|
    ensures DeleteEach(b, ps).updates == b.updates
    decreases |ps|
  {
    if ps != [] {
      DeleteEachTracksNothing(Delete(b, b.heap[ps[0]]).0, ps[1..]);
    }
  }

  lemma {:induction false} ForgetGroupTracks(b: Batch, gid: nat, i: nat)
    requires OnlyGroupsTracked(b) && i <= |b.items|
    ensures OnlyGroupsTracked(ForgetGroup(b, gid, i))
    decreases |b.items| - i
  {
    if i < |b.items| {
      var c := ForgetOne(b, gid, i);
      assert forall p | 0 <= p < |b.heap| :: c.heap[p].classID == b.heap[p].classID;
      ForgetGroupTracks(c, gid, i + 1);
    }
  }

  lemma GroupDeletionTracks(b: Batch, name: Name)
    requires b.InRange() && b.updates == []
    ensures OnlyGroupsTracked(DeleteGroup(b, name))
  {
    var i := First(b, GroupNamed(name), 0);
    if i < |b.items| {
      var gid := b.heap[b.items[i]].groupID;
      var ps := InGroup(b, b.items, gid);
      DeleteEachTracksNothing(b, ps);
      if gid != 0 {
        ForgetGroupTracks(DeleteEach(b, ps), gid, 0);
      }
    }
  }

  /** Deleting a group is saved exactly, whatever the list holds. */
  lemma GroupDeletionIsSaved(xs: seq<FeedbagItem>, name: Name)
    requires Distinct(xs)
    ensures var b := DeleteGroup(Fresh(xs), name); Store(Erase(AsRows(xs), Deletes(b)), Updates(b)) == AsRows(Items(b))
  {
    FreshInv(xs);
    GroupDeletionTracks(Fresh(xs), name);
    DeleteGroupKeeps(Fresh(xs), AsRows(xs), name);
    TrackedAreListed(DeleteGroup(Fresh(xs), name));
    DeletesThenUpserts(DeleteGroup(Fresh(xs), name), AsRows(xs));
  }

  /** `DelGroup`: the table ends up as the list. */
  method DelGroup(table: FeedbagTable, xs: seq<FeedbagItem>, groupName: Name)
    requires table.rows == AsRows(xs) && Distinct(xs)
    modifies table
    ensures table.rows == AsRows(Items(DeleteGroup(Fresh(xs), groupName)))
  {
    var list := new FeedbagList.List(xs);
    list.DeleteGroup(groupName);
    var deletes := list.PendingDeletes();
    table.FeedbagDelete(deletes);
    var updates := list.PendingUpdates();
    table.FeedbagUpsert(updates);
    GroupDeletionIsSaved(xs, groupName);
  }

  predicate Addition(op: Op) {
    op.SetMode? || op.PermitUser? || op.DenyUser? || op.OpAddGroup? || op.OpAddBuddy?
  }

  lemma UpsertDeletesNothing(b: Batch, item: FeedbagItem, num: nat)
    requires b.InRange() && num < 65535
    ensures Upsert(b, item, num).0.deletes == b.deletes
  {
  }

  lemma AddDeletesNothing(b: Batch, op: Op)
    requires b.InRange() && op.Valid() && Addition(op)
    ensures Apply(b, op).deletes == b.deletes
  {
    if op.OpAddBuddy? {
      var i := First(b, GroupNamed(op.group), 0);
      if i < |b.items| {
        UpsertDeletesNothing(b, BuddyItem(op.user, op.alias, op.note).(groupID := b.heap[b.items[i]].groupID), op.num);
      }
    }
  }

  lemma {:induction false} AddsDeleteNothing(b: Batch, ops: seq<Op>)
    requires b.InRange() && AllValid(ops) && forall i | 0 <= i < |ops| :: Addition(ops[i])
    ensures Run(b, ops).deletes == b.deletes
    decreases |ops|
  {
    if ops != [] {
      AddDeletesNothing(b, ops[0]);
      AddsDeleteNothing(Apply(b, ops[0]), ops[1..]);
    }
  }

  /** Adding anything is saved exactly by upserting the updates alone. */
  lemma AdditionsAreSaved(xs: seq<FeedbagItem>, ops: seq<Op>)
    requires Distinct(xs) && AllValid(ops) && AllKeyed(Fresh(xs), ops)
    requires forall i | 0 <= i < |ops| :: Addition(ops[i])
    ensures var b := Run(Fresh(xs), ops); b.deletes == [] && Store(AsRows(xs), Updates(b)) == AsRows(Items(b))
  {
    var b := Run(Fresh(xs), ops);
    AddsDeleteNothing(Fresh(xs), ops);
    SavingReplays(xs, ops);
    assert Deletes(b) == [];
    assert KeysOf(Deletes(b)) == {};
  }

  // ---------------------------------------------------------------- one operation

  /** The stored rows, after the updates and then the deletes, are the list, and its keys are distinct. */
  ghost predicate Saved(xs: seq<FeedbagItem>, b: Batch)
    requires b.InRange()
  {
    Distinct(Items(b)) && Erase(Store(AsRows(xs), Updates(b)), Deletes(b)) == AsRows(Items(b))
  }

  predicate Gone(b: Batch)
    requires b.InRange()
  {
    KeysOf(Items(b)) !! KeysOf(Deletes(b))
  }

  lemma RemovedApart(xs: seq<FeedbagItem>, ds: seq<FeedbagItem>, i: nat)
    requires Distinct(xs) && KeysOf(xs) !! KeysOf(ds) && i < |xs|
    ensures KeysOf(xs[..i] + xs[i + 1..]) !! KeysOf(ds + [xs[i]])
  {
    MoreKeys(ds, xs[i]);
    FewerKeys(xs, i);
    var rest := xs[..i] + xs[i + 1..];
    forall j | 0 <= j < |rest| ensures KeyOf(rest[j]) != KeyOf(xs[i]) {
      assert rest[j] == xs[Was(i, j)];
    }
  }

  lemma RemoveGone(b: Batch, base: Rows, i: nat)
    requires Inv(b, base) && Gone(b) && i < |b.items|
    ensures Gone(RemoveAt(b, i))
  {
    RemoveKeeps(b, base, i);
    RemovedApart(Items(b), Deletes(b), i);
  }

  lemma DeleteGone(b: Batch, base: Rows, x: FeedbagItem)
    requires Inv(b, base) && Gone(b)
    ensures Gone(Delete(b, x).0)
  {
    var i := First(b, Matching(x), 0);
    if i < |b.items| {
      RemoveGone(b, base, i);
    }
  }

  lemma {:induction false} DeleteEachGone(b: Batch, base: Rows, ps: seq<Ptr>)
    requires Inv(b, base) && Gone(b) && forall i | 0 <= i < |ps| :: ps[i] < |b.heap|
    ensures Gone(DeleteEach(b, ps))
    decreases |ps|
  {
    if ps != [] {
      DeleteKeeps(b, base, b.heap[ps[0]]);
      DeleteGone(b, base, b.heap[ps[0]]);
      DeleteEachGone(Delete(b, b.heap[ps[0]]).0, base, ps[1..]);
    }
  }

  /** Overwriting a listed item without changing its key. */
  lemma ModifyGone(b: Batch, base: Rows, i: nat, x: FeedbagItem)
    requires Inv(b, base) && Gone(b) && i < |b.items| && KeyOf(x) == KeyOf(Items(b)[i]) && Normalized(x) == x
    ensures Gone(Modify(b, b.items[i], x))
  {
    ModifyKeeps(b, base, i, x);
    SameKeys(Items(b), Items(b)[i := x]);
  }

  lemma ForgetOneGone(b: Batch, base: Rows, gid: nat, i: nat)
    requires Inv(b, base) && Gone(b) && i < |b.items|
    ensures Gone(ForgetOne(b, gid, i))
  {
    if IsRoot(Items(b)[i]) {
      ModifyGone(b, base, i, RemoveOrderMember(Items(b)[i], gid));
    }
  }

  lemma {:induction false} ForgetGroupGone(b: Batch, base: Rows, gid: nat, i: nat)
    requires Inv(b, base) && Gone(b) && i <= |b.items|
    ensures Gone(ForgetGroup(b, gid, i))
    decreases |b.items| - i
  {
    if i < |b.items| {
      ForgetOneGone(b, base, gid, i);
      ForgetOneKeeps(b, base, gid, i);
      ForgetGroupGone(ForgetOne(b, gid, i), base, gid, i + 1);
    }
  }

  lemma DeleteGroupGone(b: Batch, base: Rows, name: Name)
    requires Inv(b, base) && Gone(b)
    ensures Gone(DeleteGroup(b, name))
  {
    var i := First(b, GroupNamed(name), 0);
    if i < |b.items| {
      var gid := b.heap[b.items[i]].groupID;
      var ps := InGroup(b, b.items, gid);
      GroupGone(b, base, ps, gid);
      assert DeleteGroup(b, name) == AfterEach(DeleteEach(b, ps), gid);
    }
  }

  function AfterEach(b: Batch, gid: nat): (r: Batch)
    requires b.InRange()
    ensures r.InRange()
  {
    if gid != 0 then ForgetGroup(b, gid, 0) else b
  }

  lemma GroupGone(b: Batch, base: Rows, ps: seq<Ptr>, gid: nat)
    requires Inv(b, base) && Gone(b) && forall i | 0 <= i < |ps| :: ps[i] < |b.heap|
    ensures Gone(AfterEach(DeleteEach(b, ps), gid))
  {
    DeleteEachKeeps(b, base, ps);
    DeleteEachGone(b, base, ps);
    ForgetGroupGone(DeleteEach(b, ps), base, gid, 0);
  }

  /** Item `j` is deleted, and the group at `i` forgets it. */
  lemma ForgetBuddyGone(b: Batch, base: Rows, i: nat, j: nat)
    requires Inv(b, base) && Gone(b) && i < |b.items| && j < |b.items| && i != j && Items(b)[i].classID == CLASS_GROUP
    ensures Gone(Modify(RemoveAt(b, j), b.items[i], RemoveOrderMember(Items(b)[i], Items(b)[j].itemID)))
  {
    RemoveKeeps(b, base, j);
    RemoveGone(b, base, j);
    StillAt(b.items, i, j);
    StillAt(Items(b), i, j);
    ModifyGone(RemoveAt(b, j), base, if i < j then i else i - 1, RemoveOrderMember(Items(b)[i], Items(b)[j].itemID));
  }

  lemma DeleteBuddyGone(b: Batch, base: Rows, group: Name, buddy: Name)
    requires Inv(b, base) && Gone(b)
    ensures Gone(DeleteBuddy(b, group, buddy).0)
  {
    var i := First(b, GroupNamed(group), 0);
    if i < |b.items| {
      var j := First(b, Matching(FeedbagItem(buddy, Items(b)[i].groupID, 0, CLASS_BUDDY, [])), 0);
      if j < |b.items| {
        assert Items(b)[j].classID == CLASS_BUDDY;
        ForgetBuddyGone(b, base, i, j);
      }
    }
  }

  lemma OneOperationGone(b: Batch, base: Rows, op: Op)
    requires Inv(b, base) && Gone(b) && op.Valid() && !Addition(op)
    ensures Gone(Apply(b, op))
  {
    match op
    case DeletePermit(user) => DeleteGone(b, base, Entry(CLASS_PERMIT, user));
    case DeleteDeny(user) => DeleteGone(b, base, Entry(CLASS_DENY, user));
    case OpDeleteGroup(name) => DeleteGroupGone(b, base, name);
    case OpDeleteBuddy(group, user) => DeleteBuddyGone(b, base, group, user);
  }

  lemma KeyedIsSaved(xs: seq<FeedbagItem>, op: Op)
    requires Distinct(xs) && op.Valid() && Keyed(Fresh(xs), op)
    ensures Saved(xs, Apply(Fresh(xs), op))
  {
    FreshInv(xs);
    ApplyKeeps(Fresh(xs), AsRows(xs), op);
    var b := Apply(Fresh(xs), op);
    if Addition(op) {
      AddDeletesNothing(Fresh(xs), op);
      assert Deletes(b) == [];
    } else {
      OneOperationGone(Fresh(xs), AsRows(xs), op);
    }
    UpsertsThenDeletes(b, AsRows(xs));
  }

  lemma InsertRepeats(b: Batch, x: FeedbagItem)
    requires b.InRange() && KeyOf(x) in KeysOf(Items(b))
    ensures !Distinct(Items(Insert(b, x)))
  {
    InsertInserts(b, x);
    var i :| 0 <= i < |b.items| && KeyOf(Items(b)[i]) == KeyOf(x);
    assert Items(Insert(b, x))[i] == Items(b)[i] && Items(Insert(b, x))[|b.items|] == x;
  }

  /** Keys that repeat stay so while items are added and orders rewritten. */
  lemma RepeatsKept(b: Batch, c: Batch)
    requires b.InRange() && c.InRange() && !Distinct(Items(b)) && |b.items| <= |c.items|
    requires forall i | 0 <= i < |b.items| :: KeyOf(Items(c)[i]) == KeyOf(Items(b)[i])
    ensures !Distinct(Items(c))
  {
    var i, j :| 0 <= i < j < |b.items| && KeyOf(Items(b)[i]) == KeyOf(Items(b)[j]);
  }

  /** An overwritten item whose key changes leaves its old row behind. */
  lemma RekeyedIsNotSaved(xs: seq<FeedbagItem>, i: nat, y: FeedbagItem)
    requires Distinct(xs) && i < |xs| && KeyOf(y) != KeyOf(xs[i])
    ensures !Saved(xs, Modify(Fresh(xs), i, y))
  {
    var b := Modify(Fresh(xs), i, y);
    var k := KeyOf(xs[i]);
    assert Items(b) == xs[i := y];
    assert Updates(b) == [y] && Deletes(b) == [];
    StoreAt(AsRows(xs), Updates(b), k);
    KeyIn(xs, i);
    assert k !in KeysOf(Items(b)) by {
      forall j | 0 <= j < |xs| ensures KeyOf(Items(b)[j]) != k {
        assert j != i ==> Items(b)[j] == xs[j];
      }
    }
  }

  lemma UpsertUnkeyed(xs: seq<FeedbagItem>, item: FeedbagItem, num: nat)
    requires Distinct(xs) && num < 65535 && !UpsertKeyed(Fresh(xs), item, num)
    ensures var (b, _, inserted) := Upsert(Fresh(xs), item, num);
      if inserted then !Distinct(Items(b)) else !Saved(xs, b)
  {
    var b, x := Fresh(xs), Normalized(item);
    var i := First(b, Matching(x), 0);
    if i < |b.items| {
      RekeyedIsNotSaved(xs, i, x.(itemID := xs[i].itemID));
    } else {
      InsertRepeats(b, x.(itemID := GenID(Used(b), num)));
    }
  }

  lemma ModifyKeepsKeys(b: Batch, i: nat, x: FeedbagItem)
    requires b.InRange() && i < |b.items| && KeyOf(x) == KeyOf(Items(b)[i])
    ensures forall j | 0 <= j < |b.items| :: KeyOf(Items(Modify(b, b.items[i], x))[j]) == KeyOf(Items(b)[j])
  {
  }

  /** Adding a group repeats a key if the keys repeat already or its own is taken. */
  lemma AppendGroupRepeats(b: Batch, i: nat, x: FeedbagItem, y: FeedbagItem)
    requires b.InRange() && i < |b.items| && KeyOf(x) == KeyOf(Items(b)[i])
    requires !Distinct(Items(b)) || KeyOf(y) in KeysOf(Items(b))
    ensures !Distinct(Items(Insert(Modify(b, b.items[i], x), y)))
  {
    var c := Modify(b, b.items[i], x);
    ModifyKeepsKeys(b, i, x);
    if Distinct(Items(b)) {
      SameKeys(Items(b), Items(c));
      InsertRepeats(c, y);
    } else {
      RepeatsKept(b, c);
      InsertInserts(c, y);
      RepeatsKept(c, Insert(c, y));
    }
  }

  lemma AddGroupUnkeyed(b: Batch, name: Name, num: nat)
    requires b.InRange() && num < 65535 && !AddGroupKeyed(b, name, num)
    ensures !Distinct(Items(AddGroup(b, name, num).0))
  {
    var i := First(b, IsRoot, 0);
    var (b1, root) := WithRoot(b);
    if !RootKeyed(b) {
      InsertRepeats(b, EMPTY_ROOT);
    }
    assert b1.items[i] == root;
    var gid := GenID(Used(b1), num);
    AppendGroupRepeats(b1, i, AppendOrderMember(b1.heap[root], gid), FeedbagItem(name, gid, 0, CLASS_GROUP, []));
  }

  lemma AddBuddyUnkeyed(xs: seq<FeedbagItem>, group: Name, buddy: FeedbagItem, num: nat)
    requires Distinct(xs) && num < 65535 && !AddBuddyKeyed(Fresh(xs), group, buddy, num)
    ensures !Saved(xs, AddBuddy(Fresh(xs), group, buddy, num).0)
  {
    var b := Fresh(xs);
    var i := First(b, GroupNamed(group), 0);
    var item := buddy.(groupID := b.heap[b.items[i]].groupID);
    UpsertUnkeyed(xs, item, num);
    var (c, p, inserted) := Upsert(b, item, num);
    if inserted {
      assert c.items[i] == b.items[i];
      ReorderRepeats(c, i, c.heap[p].itemID);
    }
  }

  lemma ReorderRepeats(b: Batch, i: nat, id: nat)
    requires b.InRange() && i < |b.items| && !Distinct(Items(b))
    ensures !Distinct(Items(Modify(b, b.items[i], AppendOrderMember(b.heap[b.items[i]], id))))
  {
    var x := AppendOrderMember(b.heap[b.items[i]], id);
    ModifyKeepsKeys(b, i, x);
    RepeatsKept(b, Modify(b, b.items[i], x));
  }

  /** One operation on a stored list is saved exactly if and only if it gives out no key twice and changes none. */
  lemma OneOperationSavedIff(xs: seq<FeedbagItem>, op: Op)
    requires Distinct(xs) && op.Valid()
    ensures Saved(xs, Apply(Fresh(xs), op)) <==> Keyed(Fresh(xs), op)
  {
    if Keyed(Fresh(xs), op) {
      KeyedIsSaved(xs, op);
    } else {
      match op
      case SetMode(mode, num) => UpsertUnkeyed(xs, ModeItem(mode), num);
      case PermitUser(user, num) => UpsertUnkeyed(xs, Entry(CLASS_PERMIT, user), num);
      case DenyUser(user, num) => UpsertUnkeyed(xs, Entry(CLASS_DENY, user), num);
      case OpAddGroup(name, num) => AddGroupUnkeyed(Fresh(xs), name, num);
      case OpAddBuddy(group, user, alias, note, num) => AddBuddyUnkeyed(xs, group, BuddyItem(user, alias, note), num);
    }
  }

  /** A stored item under the key (0, 0) of a root that is not there is overwritten by the first new group's root. */
  lemma RootOverwrites(xs: seq<FeedbagItem>, name: Name, num: nat)
    requires Distinct(xs) && num < 65535 && (0, 0) in KeysOf(xs)
    requires forall x <- xs :: !IsRoot(x) && !GroupNamed(name)(x)
    ensures
      var b := AddGroup(Fresh(xs), name, num).0;
      var saved := Erase(Store(AsRows(xs), Updates(b)), Deletes(b));
      && !Distinct(Items(b)) && (0, 0) in saved && IsRoot(saved[(0, 0)]) && (0, 0) in AsRows(xs) && !IsRoot(AsRows(xs)[(0, 0)])
  {
    var f := Fresh(xs);
    var b := AddGroup(f, name, num).0;
    AddGroupUnkeyed(f, name, num);
    AddGroupTracks(f, name, num);
    assert Deletes(b) == [];
    StoreAt(AsRows(xs), Updates(b), (0, 0));
    KeyIn(Updates(b), 0);
  }

  lemma AddGroupTracks(b: Batch, name: Name, num: nat)
    requires b.InRange() && num < 65535 && b.updates == []
    requires First(b, GroupNamed(name), 0) == First(b, IsRoot, 0) == |b.items|
    ensures var c := AddGroup(b, name, num).0;
      && c.deletes == b.deletes && |c.updates| == 2 && KeyOf(Updates(c)[0]) == (0, 0)
      && Updates(c)[0].classID == Updates(c)[1].classID == CLASS_GROUP
  {
  }

  /** So a list of one permit entry, stored as a client sent it, loses that entry when a group is added. */
  lemma PermitLostExample()
    ensures
      var xs := [FeedbagItem([97], 0, 0, CLASS_PERMIT, [])];
      var b := AddGroup(Fresh(xs), [98], 5).0;
      var saved := Erase(Store(AsRows(xs), Updates(b)), Deletes(b));
      AsRows(xs) == map[(0, 0) := xs[0]] && !Distinct(Items(b)) && (0, 0) in saved && saved[(0, 0)].classID == CLASS_GROUP
  {
    var xs := [FeedbagItem([97], 0, 0, CLASS_PERMIT, [])];
    KeyIn(xs, 0);
    assert KeysOf(xs) == {(0, 0)};
    RootOverwrites(xs, [98], 5);
  }

  /** A deny entry that a client stored in group 5, denied again: its old row stays behind beside the new one. */
  lemma StrayDenyExample()
    ensures
      var x := FeedbagItem([97], 5, 7, CLASS_DENY, []);
      var b := Apply(Fresh([x]), DenyUser([97], 9));
      && Items(b) == [x.(groupID := 0)]
      && Erase(Store(AsRows([x]), Updates(b)), Deletes(b)) == map[(5, 7) := x, (0, 7) := x.(groupID := 0)]
  {
    var x := FeedbagItem([97], 5, 7, CLASS_DENY, []);
    var y := x.(groupID := 0);
    assert Ident([97][1..]) == [];
    assert Ident([97]) == [97];
    assert First(Fresh([x]), Matching(Entry(CLASS_DENY, [97])), 0) == 0;
    var b := Apply(Fresh([x]), DenyUser([97], 9));
    assert b == Batch([y], [0], [0], []);
    assert Items(b) == [y] && Updates(b) == [y] && Deletes(b) == [];
    OneRowStored(x, y);
  }

  lemma OneRowStored(x: FeedbagItem, y: FeedbagItem)
    requires KeyOf(x) != KeyOf(y) && Normalized(y) == y
    ensures Store(AsRows([x]), [y]) == map[KeyOf(x) := x, KeyOf(y) := y]
  {
    KeyIn([x], 0);
    assert KeysOf([x]) == {KeyOf(x)};
    assert AsRows([x]) == map[KeyOf(x) := x];
    assert [y][..0] == [];
  }

  // ---------------------------------------------------------------- batches that are not saved

  lemma DenyOnEmpty(b: Batch, c: byte)
    requires b.InRange() && b.items == [] && 97 <= c <= 122
    ensures Apply(b, DenyUser([c], 5)) == Insert(b, FeedbagItem([c], 0, 5, CLASS_DENY, []))
  {
    assert Ident([c][1..]) == [];
    assert Ident([c]) == [c];
    UsedIff(b, 5);
  }

  lemma UndenyOnly(b: Batch, c: byte)
    requires b.InRange() && |b.items| == 1 && 97 <= c <= 122
    requires b.heap[b.items[0]] == FeedbagItem([c], 0, 5, CLASS_DENY, [])
    ensures Apply(b, DeleteDeny([c])) == b.(items := [], deletes := b.deletes + [b.items[0]])
  {
    assert First(b, Matching(Entry(CLASS_DENY, [c])), 0) == 0;
  }

  lemma RunStep(b: Batch, op: Op, ops: seq<Op>, c: Batch)
    requires b.InRange() && op.Valid() && AllValid(ops) && Apply(b, op) == c
    ensures AllValid([op] + ops) && Run(b, [op] + ops) == Run(c, ops)
  {
    assert ([op] + ops)[1..] == ops;
  }

  function ReusedKeyRun(): (ops: seq<Op>)
    ensures AllValid(ops)
  {
    [DenyUser([97], 5)] + ([DeleteDeny([97])] + ([DenyUser([98], 5)] + []))
  }

  const ENTRY_A: FeedbagItem := FeedbagItem([97], 0, 5, CLASS_DENY, [])
  const ENTRY_B: FeedbagItem := FeedbagItem([98], 0, 5, CLASS_DENY, [])

  const DENIED: Batch := Batch([ENTRY_A], [0], [0], [])
  const UNDENIED: Batch := Batch([ENTRY_A], [], [0], [0])
  const REUSED: Batch := Batch([ENTRY_A, ENTRY_B], [1], [0, 1], [0])

  lemma DenyFirst()
    ensures Apply(Fresh([]), DenyUser([97], 5)) == DENIED
  {
    DenyOnEmpty(Fresh([]), 97);
  }

  lemma ThenUndeny()
    ensures Apply(DENIED, DeleteDeny([97])) == UNDENIED
  {
    UndenyOnly(DENIED, 97);
  }

  lemma ThenDenyAnother()
    ensures Apply(UNDENIED, DenyUser([98], 5)) == REUSED
  {
    DenyOnEmpty(UNDENIED, 98);
  }

  lemma RunThree(b: Batch, o1: Op, o2: Op, o3: Op, b1: Batch, b2: Batch, b3: Batch)
    requires b.InRange() && o1.Valid() && Apply(b, o1) == b1
    requires b1.InRange() && o2.Valid() && Apply(b1, o2) == b2
    requires b2.InRange() && o3.Valid() && Apply(b2, o3) == b3
    ensures AllValid([o1] + ([o2] + ([o3] + []))) && Run(b, [o1] + ([o2] + ([o3] + []))) == b3
  {
    RunStep(b2, o3, [], b3);
    RunStep(b1, o2, [o3] + [], b2);
    RunStep(b, o1, [o2] + ([o3] + []), b1);
  }

  lemma ReusedKeyResult()
    ensures Run(Fresh([]), ReusedKeyRun()) == REUSED
  {
    DenyFirst();
    ThenUndeny();
    ThenDenyAnother();
    RunThree(Fresh([]), DenyUser([97], 5), DeleteDeny([97]), DenyUser([98], 5), DENIED, UNDENIED, REUSED);
  }

  /** Why a key must not be given out again: the new entry is deleted with the old one. */
  lemma ReusedKeyExample()
    ensures
      var b := Run(Fresh([]), ReusedKeyRun());
      && Items(b) == [FeedbagItem([98], 0, 5, CLASS_DENY, [])]
      && Erase(Store(AsRows([]), Updates(b)), Deletes(b)) != AsRows(Items(b))
  {
    ReusedKeyResult();
    SmallRunsReplay([], ReusedKeyRun());
    var b := Run(Fresh([]), ReusedKeyRun());
    assert Items(b) == [FeedbagItem([98], 0, 5, CLASS_DENY, [])] && Deletes(b) == [FeedbagItem([97], 0, 5, CLASS_DENY, [])];
    assert KeyOf(Items(b)[0]) in KeysOf(Items(b)) && KeyOf(Deletes(b)[0]) in KeysOf(Deletes(b));
    SavingReplays([], ReusedKeyRun());
  }

  function UndoneRun(): (ops: seq<Op>)
    ensures AllValid(ops)
  {
    [DenyUser([97], 5)] + ([DeleteDeny([97])] + [])
  }

  /** Why the deletes must not come first in general: an entry that was made and deleted again is stored. */
  lemma DeletesFirstExample()
    ensures
      var b := Run(Fresh([]), UndoneRun());
      var saved := Store(Erase(AsRows([]), Deletes(b)), Updates(b));
      Items(b) == [] && AsRows(Items(b)) == map[] && saved == map[(0, 5) := FeedbagItem([97], 0, 5, CLASS_DENY, [])]
  {
    UndoneResult();
    assert Updates(UNDENIED) == [ENTRY_A] && Deletes(UNDENIED) == [ENTRY_A];
    StoredAlone();
  }

  lemma UndoneResult()
    ensures Run(Fresh([]), UndoneRun()) == UNDENIED
  {
    DenyFirst();
    ThenUndeny();
    RunStep(DENIED, DeleteDeny([97]), [], UNDENIED);
    RunStep(Fresh([]), DenyUser([97], 5), [DeleteDeny([97])] + [], DENIED);
  }

  lemma StoredAlone()
    ensures Store(Erase(map[], [ENTRY_A]), [ENTRY_A]) == map[(0, 5) := ENTRY_A]
  {
    assert [ENTRY_A][..0] == [];
    assert Ident([97][1..]) == [];
    assert Normalized(ENTRY_A) == ENTRY_A;
  }
}
