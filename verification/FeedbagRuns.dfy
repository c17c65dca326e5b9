/** Every operation of a feedbag list keeps what replaying its pending changes needs. */
module FeedbagRuns {
  import opened ScreenNames
  import opened FeedbagItems
  import opened FeedbagBatch
  import opened FeedbagReplay

  // ---------------------------------------------------------------- one change at a time

  lemma ListedOnce(b: Batch)
    requires b.InRange() && Distinct(Items(b))
    ensures forall i, j | 0 <= i < |b.items| && 0 <= j < |b.items| && b.items[i] == b.items[j] :: i == j
  {
    forall i, j | 0 <= i < |b.items| && 0 <= j < |b.items| && b.items[i] == b.items[j] ensures i == j {
      assert Items(b)[i] == Items(b)[j];
    }
  }

  lemma SameKeys(xs: seq<FeedbagItem>, ys: seq<FeedbagItem>)
    requires |xs| == |ys| && forall i | 0 <= i < |xs| :: KeyOf(xs[i]) == KeyOf(ys[i])
    ensures KeysOf(xs) == KeysOf(ys)
  {
    forall i | 0 <= i < |xs| ensures KeyOf(xs[i]) in KeysOf(ys) && KeyOf(ys[i]) in KeysOf(xs) {}
  }

  lemma MoreKeys(xs: seq<FeedbagItem>, x: FeedbagItem)
    ensures KeysOf(xs + [x]) == KeysOf(xs) + {KeyOf(x)}
  {
    var ys := xs + [x];
    forall i | 0 <= i < |xs| ensures KeyOf(xs[i]) in KeysOf(ys) {
      assert ys[i] == xs[i];
    }
    assert ys[|xs|] == x;
  }

  lemma FewerKeys(xs: seq<FeedbagItem>, i: nat)
    requires i < |xs|
    ensures KeysOf(xs) == KeysOf(xs[..i] + xs[i + 1..]) + {KeyOf(xs[i])}
  {
    var ys := xs[..i] + xs[i + 1..];
    forall j | 0 <= j < |xs| ensures KeyOf(xs[j]) in KeysOf(ys) + {KeyOf(xs[i])} {
      assert j < i ==> ys[j] == xs[j];
      assert j > i ==> ys[j - 1] == xs[j];
    }
    forall j | 0 <= j < |ys| ensures KeyOf(ys[j]) in KeysOf(xs) {
      assert ys[j] == xs[if j < i then j else j + 1];
    }
  }

  lemma ListedKey(b: Batch, u: nat)
    requires b.InRange() && u < |b.updates| && b.updates[u] in b.items
    ensures KeyOf(Updates(b)[u]) in KeysOf(Items(b))
  {
    var m :| 0 <= m < |b.items| && b.items[m] == b.updates[u];
    KeyIn(Items(b), m);
    assert Items(b)[m] == Updates(b)[u];
  }

  // ---------------------------------------------------------------- overwriting a listed item

  /** The batch after a listed item is overwritten, pointer by pointer. */
  predicate Modified(b: Batch, c: Batch, i: nat, x: FeedbagItem)
    requires b.InRange() && c.InRange() && i < |b.items|
  {
    && c.items == b.items && c.deletes == b.deletes
    && Items(c) == Items(b)[i := x] && Deletes(c) == Deletes(b)
    && (c.updates == b.updates || c.updates == b.updates + [b.items[i]])
    && b.items[i] in c.updates
    && (forall j | 0 <= j < |c.updates| :: Updates(c)[j] == if c.updates[j] == b.items[i] then x else b.heap[c.updates[j]])
    && (|c.updates| > |b.updates| ==> b.items[i] !in b.updates)
  }

  lemma ModifyModifies(b: Batch, i: nat, x: FeedbagItem)
    requires Shape(b) && Distinct(Items(b)) && i < |b.items|
    ensures Modified(b, Modify(b, b.items[i], x), i, x)
  {
    var c := Modify(b, b.items[i], x);
    ListedOnce(b);
    assert Items(c) == Items(b)[i := x];
    assert Deletes(c) == Deletes(b);
    if |c.updates| > |b.updates| {
      assert c.updates[|b.updates|] == b.items[i];
    }
  }

  lemma ModifiedReborn(b: Batch, c: Batch, i: nat, x: FeedbagItem)
    requires b.InRange() && c.InRange() && i < |b.items| && Modified(b, c, i, x)
    requires Distinct(Items(b)) && Reborn(b) && KeyOf(x) == KeyOf(Items(b)[i])
    ensures Reborn(c)
  {
    forall j | 0 <= j < |c.items| ensures KeyOf(Items(c)[j]) == KeyOf(Items(b)[j]) {}
    forall j | 0 <= j < |b.updates| ensures KeyOf(Updates(c)[j]) == KeyOf(Updates(b)[j]) && c.updates[j] == b.updates[j] {
      if b.updates[j] == b.items[i] {
        assert Updates(b)[j] == Items(b)[i];
      }
    }
    forall j, m | 0 <= j < m < |c.updates| && KeyOf(Updates(c)[j]) == KeyOf(Updates(c)[m]) ensures c.updates[j] !in c.items {
      if m == |b.updates| && c.updates[j] in c.items {
        OwnKey(b, i, j);
        assert false;
      }
    }
    forall j | 0 <= j < |c.items| && KeyOf(Items(c)[j]) in KeysOf(Deletes(c)) ensures c.items[j] in c.updates {
      assert b.items[j] in b.updates;
    }
  }

  /** Overwriting a listed item without changing its key. */
  lemma ModifyKeeps(b: Batch, base: Rows, i: nat, x: FeedbagItem)
    requires Inv(b, base) && i < |b.items|
    requires KeyOf(x) == KeyOf(Items(b)[i]) && Normalized(x) == x
    ensures Inv(Modify(b, b.items[i], x), base)
    ensures Items(Modify(b, b.items[i], x)) == Items(b)[i := x]
    ensures Deletes(Modify(b, b.items[i], x)) == Deletes(b)
  {
    var c := Modify(b, b.items[i], x);
    ModifyModifies(b, i, x);
    ModifiedReborn(b, c, i, x);
    SameKeys(Items(b), Items(c));
    ModifiedCovers(b, c, base, i, x);
    assert UpdatesNormal(c) by {
      forall j | 0 <= j < |c.updates| ensures Normalized(Updates(c)[j]) == Updates(c)[j] {
        assert j < |b.updates| ==> Normalized(Updates(b)[j]) == Updates(b)[j];
      }
    }
  }

  lemma ModifiedCovers(b: Batch, c: Batch, base: Rows, i: nat, x: FeedbagItem)
    requires b.InRange() && c.InRange() && i < |b.items| && Modified(b, c, i, x)
    requires Covers(b, base) && KeysOf(Items(c)) == KeysOf(Items(b))
    ensures Covers(c, base)
  {
    forall j | 0 <= j < |c.items|
      ensures c.items[j] in c.updates || (KeyOf(Items(c)[j]) in base && base[KeyOf(Items(c)[j])] == Items(c)[j])
    {
      if j != i {
        assert Items(c)[j] == Items(b)[j];
      }
    }
  }

  // ---------------------------------------------------------------- a new item

  predicate Inserted(b: Batch, c: Batch, x: FeedbagItem)
    requires b.InRange() && c.InRange()
  {
    && c.items == b.items + [|b.heap|] && c.updates == b.updates + [|b.heap|] && c.deletes == b.deletes
    && Items(c) == Items(b) + [x] && Updates(c) == Updates(b) + [x] && Deletes(c) == Deletes(b)
  }

  lemma InsertInserts(b: Batch, x: FeedbagItem)
    requires b.InRange()
    ensures Inserted(b, Insert(b, x), x)
  {
    var c := Insert(b, x);
    assert Items(c) == Items(b) + [x];
    assert Updates(c) == Updates(b) + [x];
    assert Deletes(c) == Deletes(b);
  }

  lemma InsertedShape(b: Batch, c: Batch, x: FeedbagItem)
    requires b.InRange() && c.InRange() && Inserted(b, c, x) && Shape(b)
    ensures Shape(c)
  {
    forall i | 0 <= i < |c.updates| ensures c.updates[i] in c.items || c.updates[i] in c.deletes {
      if i < |b.updates| {
        assert b.updates[i] in b.items || b.updates[i] in b.deletes;
      } else {
        assert c.items[|b.items|] == c.updates[i];
      }
    }
  }

  lemma InsertedCovers(b: Batch, c: Batch, base: Rows, x: FeedbagItem)
    requires b.InRange() && c.InRange() && Inserted(b, c, x) && Covers(b, base)
    ensures Covers(c, base)
  {
    MoreKeys(Items(b), x);
    forall i | 0 <= i < |c.items|
      ensures c.items[i] in c.updates || (KeyOf(Items(c)[i]) in base && base[KeyOf(Items(c)[i])] == Items(c)[i])
    {
      if i < |b.items| {
        assert Items(c)[i] == Items(b)[i];
      } else {
        assert c.updates[|b.updates|] == c.items[i];
      }
    }
  }

  lemma InsertedReborn(b: Batch, c: Batch, x: FeedbagItem)
    requires b.InRange() && c.InRange() && Inserted(b, c, x)
    requires Reborn(b) && KeyOf(x) !in KeysOf(Items(b))
    ensures Reborn(c)
  {
    forall i, j | 0 <= i < j < |c.updates| && KeyOf(Updates(c)[i]) == KeyOf(Updates(c)[j]) ensures c.updates[i] !in c.items {
      assert Updates(c)[i] == Updates(b)[i];
      if b.updates[i] in b.items {
        ListedKey(b, i);
      }
    }
    forall i | 0 <= i < |c.items| && KeyOf(Items(c)[i]) in KeysOf(Deletes(c)) ensures c.items[i] in c.updates {
      if i < |b.items| {
        assert Items(c)[i] == Items(b)[i];
      } else {
        assert c.updates[|b.updates|] == c.items[i];
      }
    }
  }

  /** A new item with a key no listed item has. */
  lemma InsertKeeps(b: Batch, base: Rows, x: FeedbagItem)
    requires Inv(b, base) && KeyOf(x) !in KeysOf(Items(b)) && Normalized(x) == x
    ensures Inv(Insert(b, x), base)
    ensures Items(Insert(b, x)) == Items(b) + [x] && Deletes(Insert(b, x)) == Deletes(b)
  {
    var c := Insert(b, x);
    InsertInserts(b, x);
    InsertedShape(b, c, x);
    InsertedCovers(b, c, base, x);
    InsertedReborn(b, c, x);
    assert Distinct(Items(c)) by {
      forall i | 0 <= i < |b.items| ensures KeyOf(Items(b)[i]) in KeysOf(Items(b)) {}
    }
  }

  // ---------------------------------------------------------------- a listed item moves to the deletes

  predicate Removed(b: Batch, c: Batch, i: nat)
    requires b.InRange() && c.InRange() && i < |b.items|
  {
    && c.items == b.items[..i] + b.items[i + 1..] && c.updates == b.updates && c.deletes == b.deletes + [b.items[i]]
    && Items(c) == Items(b)[..i] + Items(b)[i + 1..] && Updates(c) == Updates(b) && Deletes(c) == Deletes(b) + [Items(b)[i]]
  }

  lemma RemoveRemoves(b: Batch, i: nat)
    requires b.InRange() && i < |b.items|
    ensures Removed(b, RemoveAt(b, i), i)
  {
    var c := RemoveAt(b, i);
    assert Items(c) == Items(b)[..i] + Items(b)[i + 1..];
    assert Updates(c) == Updates(b);
    assert Deletes(c) == Deletes(b) + [Items(b)[i]];
  }

  function Was(i: nat, j: nat): nat {
    if j < i then j else j + 1
  }

  lemma RemovedShape(b: Batch, c: Batch, i: nat)
    requires b.InRange() && c.InRange() && i < |b.items| && Removed(b, c, i) && Shape(b) && Distinct(Items(b))
    ensures Shape(c) && Distinct(Items(c))
    ensures forall p | p in c.items :: p in b.items
  {
    ListedOnce(b);
    forall j | 0 <= j < |c.items| ensures c.items[j] == b.items[Was(i, j)] && Items(c)[j] == Items(b)[Was(i, j)] {}
    forall j | 0 <= j < |c.updates| ensures c.updates[j] in c.items || c.updates[j] in c.deletes {
      var p := b.updates[j];
      if p in b.items {
        var m :| 0 <= m < |b.items| && b.items[m] == p;
        assert m < i ==> c.items[m] == p;
        assert m > i ==> c.items[m - 1] == p;
        assert c.deletes[|b.deletes|] == b.items[i];
      }
    }
  }

  lemma RemovedReborn(b: Batch, c: Batch, i: nat)
    requires b.InRange() && c.InRange() && i < |b.items| && Removed(b, c, i) && Distinct(Items(b)) && Reborn(b)
    requires forall p | p in c.items :: p in b.items
    ensures Reborn(c)
  {
    MoreKeys(Deletes(b), Items(b)[i]);
    forall j | 0 <= j < |c.items| && KeyOf(Items(c)[j]) in KeysOf(Deletes(c)) ensures c.items[j] in c.updates {
      assert c.items[j] == b.items[Was(i, j)] && Items(c)[j] == Items(b)[Was(i, j)];
    }
    forall j, m | 0 <= j < m < |c.updates| && KeyOf(Updates(c)[j]) == KeyOf(Updates(c)[m]) ensures c.updates[j] !in c.items {
      assert b.updates[j] !in b.items;
    }
  }

  lemma RemovedCovers(b: Batch, c: Batch, base: Rows, i: nat)
    requires b.InRange() && c.InRange() && i < |b.items| && Removed(b, c, i) && Covers(b, base)
    ensures Covers(c, base)
  {
    MoreKeys(Deletes(b), Items(b)[i]);
    FewerKeys(Items(b), i);
    forall j | 0 <= j < |c.items|
      ensures c.items[j] in c.updates || (KeyOf(Items(c)[j]) in base && base[KeyOf(Items(c)[j])] == Items(c)[j])
    {
      RemovedAt(b, c, i, j);
    }
  }

  lemma RemovedAt(b: Batch, c: Batch, i: nat, j: nat)
    requires b.InRange() && c.InRange() && i < |b.items| && Removed(b, c, i) && j < |c.items|
    ensures c.items[j] == b.items[Was(i, j)] && Items(c)[j] == Items(b)[Was(i, j)]
  {
  }

  lemma RemoveKeeps(b: Batch, base: Rows, i: nat)
    requires Inv(b, base) && i < |b.items|
    ensures Inv(RemoveAt(b, i), base)
    ensures Items(RemoveAt(b, i)) == Items(b)[..i] + Items(b)[i + 1..]
    ensures Deletes(RemoveAt(b, i)) == Deletes(b) + [Items(b)[i]]
  {
    var c := RemoveAt(b, i);
    RemoveRemoves(b, i);
    RemovedShape(b, c, i);
    RemovedReborn(b, c, i);
    RemovedCovers(b, c, base, i);
  }

  // ---------------------------------------------------------------- the operations

  lemma NormalizedTwice(x: FeedbagItem, id: nat)
    ensures Normalized(Normalized(x).(itemID := id)) == Normalized(x).(itemID := id)
  {
    if HasScreenName(x.classID) {
      IdentIdempotent(x.name);
    }
  }

  /** An ID the search returns belongs to no listed item. */
  lemma GenIDFresh(b: Batch, num: nat)
    requires b.InRange() && num < 65535
    ensures var id := GenID(Used(b), num); id != 0 ==> forall i | 0 <= i < |b.items| :: Items(b)[i].groupID != id && Items(b)[i].itemID != id
  {
    UsedIff(b, GenID(Used(b), num));
  }

  // An operation that gives out no key twice, and changes none.

  predicate UpsertKeyed(b: Batch, item: FeedbagItem, num: nat)
    requires b.InRange() && num < 65535
  {
    var x := Normalized(item);
    var i := First(b, Matching(x), 0);
    if i < |b.items| then b.heap[b.items[i]].groupID == x.groupID
    else (x.groupID, GenID(Used(b), num)) !in KeysOf(Items(b))
  }

  predicate RootKeyed(b: Batch)
    requires b.InRange()
  {
    First(b, IsRoot, 0) < |b.items| || (0, 0) !in KeysOf(Items(b))
  }

  predicate AddGroupKeyed(b: Batch, name: Name, num: nat)
    requires b.InRange() && num < 65535
  {
    || First(b, GroupNamed(name), 0) < |b.items|
    || (RootKeyed(b) && (GenID(Used(WithRoot(b).0), num), 0) !in KeysOf(Items(WithRoot(b).0)))
  }

  predicate AddBuddyKeyed(b: Batch, group: Name, buddy: FeedbagItem, num: nat)
    requires b.InRange() && num < 65535
  {
    var i := First(b, GroupNamed(group), 0);
    i == |b.items| || UpsertKeyed(b, buddy.(groupID := b.heap[b.items[i]].groupID), num)
  }

  predicate Keyed(b: Batch, op: Op)
    requires b.InRange() && op.Valid()
  {
    match op
    case SetMode(mode, num) => UpsertKeyed(b, ModeItem(mode), num)
    case PermitUser(user, num) => UpsertKeyed(b, Entry(CLASS_PERMIT, user), num)
    case DenyUser(user, num) => UpsertKeyed(b, Entry(CLASS_DENY, user), num)
    case OpAddGroup(name, num) => AddGroupKeyed(b, name, num)
    case OpAddBuddy(group, user, alias, note, num) => AddBuddyKeyed(b, group, BuddyItem(user, alias, note), num)
    case _ => true
  }

  lemma UpsertKeeps(b: Batch, base: Rows, item: FeedbagItem, num: nat)
    requires Inv(b, base) && num < 65535 && UpsertKeyed(b, item, num)
    ensures Inv(Upsert(b, item, num).0, base)
    ensures
      var x := Normalized(item);
      var i := First(b, Matching(x), 0);
      var (c, p, inserted) := Upsert(b, item, num);
      && inserted == (i == |b.items|)
      && Deletes(c) == Deletes(b)
      && (inserted ==> c.items == b.items + [p] && Items(c) == Items(b) + [x.(itemID := GenID(Used(b), num))])
      && (!inserted ==> c.items == b.items && p == b.items[i] && Items(c) == Items(b)[i := x.(itemID := Items(b)[i].itemID)])
  {
    var x := Normalized(item);
    var i := First(b, Matching(x), 0);
    if i < |b.items| {
      var y := x.(itemID := Items(b)[i].itemID);
      NormalizedTwice(item, y.itemID);
      if IsEqual(Items(b)[i], x) {
        assert Items(b)[i := y] == Items(b);
      } else {
        ModifyKeeps(b, base, i, y);
      }
    } else {
      NormalizedTwice(item, GenID(Used(b), num));
      InsertKeeps(b, base, x.(itemID := GenID(Used(b), num)));
    }
  }

  lemma DeleteKeeps(b: Batch, base: Rows, x: FeedbagItem)
    requires Inv(b, base)
    ensures Inv(Delete(b, x).0, base)
    ensures
      var i := First(b, Matching(x), 0);
      var (c, d) := Delete(b, x);
      && d.Some? == (i < |b.items|)
      && (d.Some? ==> Items(c) == Items(b)[..i] + Items(b)[i + 1..] && Deletes(c) == Deletes(b) + [Items(b)[i]] && b.heap[d.value] == Items(b)[i])
      && (d.None? ==> c == b)
  {
    var i := First(b, Matching(x), 0);
    if i < |b.items| {
      RemoveKeeps(b, base, i);
    }
  }

  lemma {:induction false} DeleteEachKeeps(b: Batch, base: Rows, ps: seq<Ptr>)
    requires Inv(b, base) && forall i | 0 <= i < |ps| :: ps[i] < |b.heap|
    ensures Inv(DeleteEach(b, ps), base) && |DeleteEach(b, ps).items| <= |b.items|
    decreases |ps|
  {
    if ps != [] {
      DeleteKeeps(b, base, b.heap[ps[0]]);
      DeleteEachKeeps(Delete(b, b.heap[ps[0]]).0, base, ps[1..]);
    }
  }

  lemma ForgetOneKeeps(b: Batch, base: Rows, gid: nat, i: nat)
    requires Inv(b, base) && i < |b.items|
    ensures Inv(ForgetOne(b, gid, i), base)
  {
    if IsRoot(Items(b)[i]) {
      ModifyKeeps(b, base, i, RemoveOrderMember(Items(b)[i], gid));
    }
  }

  lemma {:induction false} ForgetGroupKeeps(b: Batch, base: Rows, gid: nat, i: nat)
    requires Inv(b, base) && i <= |b.items|
    ensures Inv(ForgetGroup(b, gid, i), base)
    decreases |b.items| - i
  {
    if i < |b.items| {
      ForgetOneKeeps(b, base, gid, i);
      ForgetGroupKeeps(ForgetOne(b, gid, i), base, gid, i + 1);
    }
  }

  const EMPTY_ROOT: FeedbagItem := FeedbagItem([], 0, 0, CLASS_GROUP, [])

  lemma WithRootKeeps(b: Batch, base: Rows)
    requires Inv(b, base) && RootKeyed(b)
    ensures Inv(WithRoot(b).0, base)
    ensures
      var i := First(b, IsRoot, 0);
      var (c, p) := WithRoot(b);
      && i < |c.items| && c.items[i] == p && IsRoot(Items(c)[i])
      && (if i < |b.items| then c == b else c.items == b.items + [p] && Items(c) == Items(b) + [EMPTY_ROOT])
  {
    var i := First(b, IsRoot, 0);
    if i == |b.items| {
      InsertKeeps(b, base, EMPTY_ROOT);
    }
  }

  /** A root takes a group number in, and the group is listed. */
  lemma AppendGroupKeeps(b: Batch, base: Rows, i: nat, name: Name, gid: nat)
    requires Inv(b, base) && i < |b.items| && IsRoot(Items(b)[i]) && (gid, 0) !in KeysOf(Items(b))
    ensures
      var c := Insert(Modify(b, b.items[i], AppendOrderMember(Items(b)[i], gid)), FeedbagItem(name, gid, 0, CLASS_GROUP, []));
      Inv(c, base) && |c.items| == |b.items| + 1
  {
    var root := AppendOrderMember(Items(b)[i], gid);
    ModifyKeeps(b, base, i, root);
    var c := Modify(b, b.items[i], root);
    SameKeys(Items(c), Items(b));
    InsertKeeps(c, base, FeedbagItem(name, gid, 0, CLASS_GROUP, []));
  }

  lemma AddGroupKeeps(b: Batch, base: Rows, name: Name, num: nat)
    requires Inv(b, base) && num < 65535 && AddGroupKeyed(b, name, num)
    ensures Inv(AddGroup(b, name, num).0, base) && |AddGroup(b, name, num).0.items| <= |b.items| + 2
  {
    if First(b, GroupNamed(name), 0) == |b.items| {
      WithRootKeeps(b, base);
      var b1 := WithRoot(b).0;
      AppendGroupKeeps(b1, base, First(b, IsRoot, 0), name, GenID(Used(b1), num));
    }
  }

  lemma DeleteGroupKeeps(b: Batch, base: Rows, name: Name)
    requires Inv(b, base)
    ensures Inv(DeleteGroup(b, name), base) && |DeleteGroup(b, name).items| <= |b.items|
  {
    var i := First(b, GroupNamed(name), 0);
    if i < |b.items| {
      var gid := b.heap[b.items[i]].groupID;
      var ps := InGroup(b, b.items, gid);
      DeleteEachKeeps(b, base, ps);
      if gid != 0 {
        ForgetGroupKeeps(DeleteEach(b, ps), base, gid, 0);
      }
    }
  }

  lemma AddBuddyKeeps(b: Batch, base: Rows, group: Name, buddy: FeedbagItem, num: nat)
    requires Inv(b, base) && buddy.classID == CLASS_BUDDY && num < 65535 && AddBuddyKeyed(b, group, buddy, num)
    ensures Inv(AddBuddy(b, group, buddy, num).0, base) && |AddBuddy(b, group, buddy, num).0.items| <= |b.items| + 1
  {
    var i := First(b, GroupNamed(group), 0);
    if i < |b.items| {
      var item := buddy.(groupID := Items(b)[i].groupID);
      UpsertKeeps(b, base, item, num);
      var (c, p, inserted) := Upsert(b, item, num);
      if inserted {
        assert c.items[i] == b.items[i] && Items(c)[i] == Items(b)[i];
        ModifyKeeps(c, base, i, AppendOrderMember(Items(c)[i], c.heap[p].itemID));
      }
    }
  }

  /** Item `j` is deleted, and the group at `i` forgets it. */
  lemma ForgetBuddyKeeps(b: Batch, base: Rows, i: nat, j: nat)
    requires Inv(b, base) && i < |b.items| && j < |b.items| && i != j && Items(b)[i].classID == CLASS_GROUP
    ensures var c := Modify(RemoveAt(b, j), b.items[i], RemoveOrderMember(Items(b)[i], Items(b)[j].itemID));
      Inv(c, base) && |c.items| == |b.items| - 1
  {
    RemoveKeeps(b, base, j);
    var k := if i < j then i else i - 1;
    StillAt(b.items, i, j);
    StillAt(Items(b), i, j);
    ForgetKeeps(RemoveAt(b, j), base, k, Items(b)[j].itemID);
  }

  lemma StillAt<T>(xs: seq<T>, i: nat, j: nat)
    requires i < |xs| && j < |xs| && i != j
    ensures (xs[..j] + xs[j + 1..])[if i < j then i else i - 1] == xs[i]
  {
  }

  lemma ForgetKeeps(b: Batch, base: Rows, i: nat, id: nat)
    requires Inv(b, base) && i < |b.items| && Items(b)[i].classID == CLASS_GROUP
    ensures Inv(Modify(b, b.items[i], RemoveOrderMember(Items(b)[i], id)), base)
  {
    ModifyKeeps(b, base, i, RemoveOrderMember(Items(b)[i], id));
  }

  lemma DeleteBuddyKeeps(b: Batch, base: Rows, group: Name, buddy: Name)
    requires Inv(b, base)
    ensures Inv(DeleteBuddy(b, group, buddy).0, base) && |DeleteBuddy(b, group, buddy).0.items| <= |b.items|
  {
    var i := First(b, GroupNamed(group), 0);
    if i < |b.items| {
      var j := First(b, Matching(FeedbagItem(buddy, Items(b)[i].groupID, 0, CLASS_BUDDY, [])), 0);
      if j < |b.items| {
        assert Items(b)[j].classID == CLASS_BUDDY;
        ForgetBuddyKeeps(b, base, i, j);
      }
    }
  }

  lemma ApplyKeeps(b: Batch, base: Rows, op: Op)
    requires Inv(b, base) && op.Valid() && Keyed(b, op)
    ensures Inv(Apply(b, op), base) && |Apply(b, op).items| <= |b.items| + 2
  {
    match op
    case SetMode(mode, num) => UpsertKeeps(b, base, ModeItem(mode), num);
    case PermitUser(user, num) => UpsertKeeps(b, base, Entry(CLASS_PERMIT, user), num);
    case DenyUser(user, num) => UpsertKeeps(b, base, Entry(CLASS_DENY, user), num);
    case DeletePermit(user) => DeleteKeeps(b, base, Entry(CLASS_PERMIT, user));
    case DeleteDeny(user) => DeleteKeeps(b, base, Entry(CLASS_DENY, user));
    case OpAddGroup(name, num) => AddGroupKeeps(b, base, name, num);
    case OpDeleteGroup(name) => DeleteGroupKeeps(b, base, name);
    case OpAddBuddy(group, user, alias, note, num) => AddBuddyKeeps(b, base, group, BuddyItem(user, alias, note), num);
    case OpDeleteBuddy(group, user) => DeleteBuddyKeeps(b, base, group, user);
  }

  // ---------------------------------------------------------------- runs

  predicate AllValid(ops: seq<Op>) {
    forall i | 0 <= i < |ops| :: ops[i].Valid()
  }

  function Run(b: Batch, ops: seq<Op>): (r: Batch)
    requires b.InRange() && AllValid(ops)
    ensures r.InRange()
    decreases |ops|
  {
    if ops == [] then b else Run(Apply(b, ops[0]), ops[1..])
  }

  predicate AllKeyed(b: Batch, ops: seq<Op>)
    requires b.InRange() && AllValid(ops)
    decreases |ops|
  {
    ops == [] || (Keyed(b, ops[0]) && AllKeyed(Apply(b, ops[0]), ops[1..]))
  }

  lemma {:induction false} RunKeeps(b: Batch, base: Rows, ops: seq<Op>)
    requires Inv(b, base) && AllValid(ops) && AllKeyed(b, ops)
    ensures Inv(Run(b, ops), base)
    decreases |ops|
  {
    if ops != [] {
      ApplyKeeps(b, base, ops[0]);
      RunKeeps(Apply(b, ops[0]), base, ops[1..]);
    }
  }

  lemma FreshInv(xs: seq<FeedbagItem>)
    requires Distinct(xs)
    ensures Inv(Fresh(xs), AsRows(xs))
  {
    var b := Fresh(xs);
    forall i | 0 <= i < |xs| ensures KeyOf(xs[i]) in KeysOf(xs) && AsRows(xs)[KeyOf(xs[i])] == xs[i] {
      KeyIn(xs, i);
    }
    assert Items(b) == xs;
    assert Shape(b);
    assert Reborn(b) && UpdatesNormal(b);
  }

  /**
   For every list of stored items and every sequence of operations: saving the
   pending updates and then the pending deletes turns the stored rows into
   exactly the current list, if and only if no key of a deleted item was given
   out again. No operation on the way may give out or change a key of a listed item.
   */
  lemma SavingReplays(xs: seq<FeedbagItem>, ops: seq<Op>)
    requires Distinct(xs) && AllValid(ops) && AllKeyed(Fresh(xs), ops)
    ensures
      var b := Run(Fresh(xs), ops);
      Erase(Store(AsRows(xs), Updates(b)), Deletes(b)) == AsRows(Items(b)) <==> KeysOf(Items(b)) !! KeysOf(Deletes(b))
    ensures Distinct(Items(Run(Fresh(xs), ops)))
  {
    FreshInv(xs);
    RunKeeps(Fresh(xs), AsRows(xs), ops);
    UpsertsThenDeletes(Run(Fresh(xs), ops), AsRows(xs));
  }

  /** With the deletes first, if and only if every updated item is still listed under its key. */
  lemma SavingDeletesFirst(xs: seq<FeedbagItem>, ops: seq<Op>)
    requires Distinct(xs) && AllValid(ops) && AllKeyed(Fresh(xs), ops)
    ensures
      var b := Run(Fresh(xs), ops);
      Store(Erase(AsRows(xs), Deletes(b)), Updates(b)) == AsRows(Items(b)) <==> KeysOf(Updates(b)) <= KeysOf(Items(b))
  {
    FreshInv(xs);
    RunKeeps(Fresh(xs), AsRows(xs), ops);
    DeletesThenUpserts(Run(Fresh(xs), ops), AsRows(xs));
  }

  // ---------------------------------------------------------------- lists on which every run is keyed

  /** Permit, deny and mode items are in group 0; only a group has the key (0, 0). */
  predicate Placed(x: FeedbagItem) {
    && (x.classID == CLASS_PERMIT || x.classID == CLASS_DENY || x.classID == CLASS_PDINFO ==> x.groupID == 0)
    && (KeyOf(x) == (0, 0) ==> x.classID == CLASS_GROUP)
  }

  predicate AllPlaced(xs: seq<FeedbagItem>) {
    forall i | 0 <= i < |xs| :: Placed(xs[i])
  }

  predicate HeapPlaced(b: Batch) {
    forall p | 0 <= p < |b.heap| :: Placed(b.heap[p])
  }

  lemma UpsertPlaced(b: Batch, item: FeedbagItem, num: nat)
    requires b.InRange() && HeapPlaced(b) && num < 65535 && |b.items| <= 32766
    requires HasScreenName(item.classID) || item.classID == CLASS_PDINFO
    requires item.classID != CLASS_BUDDY ==> item.groupID == 0
    ensures UpsertKeyed(b, item, num) && HeapPlaced(Upsert(b, item, num).0)
  {
    GenIDFinds(b, num);
    GenIDFresh(b, num);
    var x := Normalized(item);
    var i := First(b, Matching(x), 0);
    if i < |b.items| {
      assert Placed(b.heap[b.items[i]]);
    }
  }

  lemma WithRootPlaced(b: Batch)
    requires b.InRange() && HeapPlaced(b)
    ensures RootKeyed(b) && HeapPlaced(WithRoot(b).0)
  {
    if (0, 0) in KeysOf(Items(b)) {
      var j :| 0 <= j < |b.items| && KeyOf(Items(b)[j]) == (0, 0);
      assert Placed(b.heap[b.items[j]]) && IsRoot(b.heap[b.items[j]]);
    }
  }

  lemma FreshKey(b: Batch, num: nat)
    requires b.InRange() && num < 65535 && |b.items| <= 32766
    ensures (GenID(Used(b), num), 0) !in KeysOf(Items(b))
  {
    GenIDFinds(b, num);
    GenIDFresh(b, num);
  }

  lemma AppendPlaced(b: Batch, p: Ptr, y: FeedbagItem, id: nat)
    requires b.InRange() && HeapPlaced(b) && p < |b.heap| && y.classID == CLASS_GROUP
    ensures HeapPlaced(Insert(Modify(b, p, AppendOrderMember(b.heap[p], id)), y))
  {
    assert Placed(b.heap[p]);
  }

  lemma AddGroupPlaced(b: Batch, name: Name, num: nat)
    requires b.InRange() && HeapPlaced(b) && num < 65535 && |b.items| <= 32765
    ensures AddGroupKeyed(b, name, num) && HeapPlaced(AddGroup(b, name, num).0)
  {
    WithRootPlaced(b);
    var (b1, root) := WithRoot(b);
    FreshKey(b1, num);
    var gid := GenID(Used(b1), num);
    AppendPlaced(b1, root, FeedbagItem(name, gid, 0, CLASS_GROUP, []), gid);
  }

  lemma {:induction false} ForgetGroupPlaced(b: Batch, gid: nat, i: nat)
    requires b.InRange() && HeapPlaced(b) && i <= |b.items|
    ensures HeapPlaced(ForgetGroup(b, gid, i))
    decreases |b.items| - i
  {
    if i < |b.items| {
      assert HeapPlaced(ForgetOne(b, gid, i));
      ForgetGroupPlaced(ForgetOne(b, gid, i), gid, i + 1);
    }
  }

  lemma DeleteGroupPlaced(b: Batch, name: Name)
    requires b.InRange() && HeapPlaced(b)
    ensures HeapPlaced(DeleteGroup(b, name))
  {
    var i := First(b, GroupNamed(name), 0);
    if i < |b.items| {
      var gid := b.heap[b.items[i]].groupID;
      ForgetGroupPlaced(DeleteEach(b, InGroup(b, b.items, gid)), gid, 0);
    }
  }

  lemma AddBuddyPlaced(b: Batch, group: Name, buddy: FeedbagItem, num: nat)
    requires b.InRange() && HeapPlaced(b) && buddy.classID == CLASS_BUDDY && num < 65535 && |b.items| <= 32766
    ensures AddBuddyKeyed(b, group, buddy, num) && HeapPlaced(AddBuddy(b, group, buddy, num).0)
  {
    var i := First(b, GroupNamed(group), 0);
    if i < |b.items| {
      UpsertPlaced(b, buddy.(groupID := b.heap[b.items[i]].groupID), num);
    }
  }

  lemma ApplyPlaced(b: Batch, op: Op)
    requires b.InRange() && HeapPlaced(b) && op.Valid() && |b.items| <= 32765
    ensures Keyed(b, op) && HeapPlaced(Apply(b, op))
  {
    match op
    case SetMode(mode, num) => UpsertPlaced(b, ModeItem(mode), num);
    case PermitUser(user, num) => UpsertPlaced(b, Entry(CLASS_PERMIT, user), num);
    case DenyUser(user, num) => UpsertPlaced(b, Entry(CLASS_DENY, user), num);
    case OpAddGroup(name, num) => AddGroupPlaced(b, name, num);
    case OpDeleteGroup(name) => DeleteGroupPlaced(b, name);
    case OpAddBuddy(group, user, alias, note, num) => AddBuddyPlaced(b, group, BuddyItem(user, alias, note), num);
    case _ =>
  }

  lemma {:induction false} PlacedRuns(b: Batch, base: Rows, ops: seq<Op>)
    requires Inv(b, base) && HeapPlaced(b) && AllValid(ops) && |b.items| + 2 * |ops| <= 32767
    ensures AllKeyed(b, ops)
    decreases |ops|
  {
    if ops != [] {
      ApplyPlaced(b, ops[0]);
      ApplyKeeps(b, base, ops[0]);
      PlacedRuns(Apply(b, ops[0]), base, ops[1..]);
    }
  }

  /**
   On a list of ordinary size whose permit, deny and mode items are in group 0,
   and in which only a group has the key (0, 0), every run keeps the keys apart.
   */
  lemma SmallRunsReplay(xs: seq<FeedbagItem>, ops: seq<Op>)
    requires Distinct(xs) && AllPlaced(xs) && AllValid(ops) && |xs| + 2 * |ops| <= 32767
    ensures AllKeyed(Fresh(xs), ops) && Distinct(Items(Run(Fresh(xs), ops)))
  {
    FreshInv(xs);
    PlacedRuns(Fresh(xs), AsRows(xs), ops);
    SavingReplays(xs, ops);
  }
}
