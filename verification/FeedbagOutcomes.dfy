/** What each operation does to the items of a list, in the order of the list and with the numbers of the protocol. */
module FeedbagOutcomes {
  import opened Wrappers
  import opened Bytes
  import opened ScreenNames
  import opened Tlv
  import opened FeedbagItems
  import opened FeedbagBatch
  import opened FeedbagReplay
  import opened FeedbagRuns

  /** Two items stand for the same: the class, the name, and for buddies the group. */
  predicate Same(a: FeedbagItem, b: FeedbagItem) {
    && a.classID == b.classID
    && (if a.classID == 0 || a.classID == 2 || a.classID == 3 then Ident(a.name) == Ident(b.name) else a.name == b.name)
    && (a.classID == 0 ==> a.groupID == b.groupID)
  }

  /** The first item that stands for the same, or the length of the list. */
  predicate FirstSame(xs: seq<FeedbagItem>, x: FeedbagItem, i: nat) {
    && i <= |xs| && (forall j | 0 <= j < i :: !Same(xs[j], x))
    && (i < |xs| ==> Same(xs[i], x))
  }

  /** Screen names are stored normalized. */
  function Kept(x: FeedbagItem, id: nat): FeedbagItem {
    FeedbagItem(if x.classID == 0 || x.classID == 2 || x.classID == 3 then Ident(x.name) else x.name, x.groupID, id, x.classID, x.tlvs)
  }

  /** No item has the number as its group's or its own. */
  predicate Unused(xs: seq<FeedbagItem>, id: nat) {
    forall i | 0 <= i < |xs| :: xs[i].groupID != id && xs[i].itemID != id
  }

  /** One entry for the same: overwritten where it is, under its own ID, or added at the end, under an unused one. */
  predicate Put(xs: seq<FeedbagItem>, ys: seq<FeedbagItem>, x: FeedbagItem, i: nat, id: nat) {
    && FirstSame(xs, x, i)
    && (if i < |xs| then ys == xs[i := Kept(x, xs[i].itemID)]
        else ys == xs + [Kept(x, id)] && (id != 0 ==> Unused(xs, id)))
  }

  predicate OncePointed(b: Batch) {
    forall i, j | 0 <= i < j < |b.items| :: b.items[i] != b.items[j]
  }

  lemma ItemsModified(b: Batch, i: nat, x: FeedbagItem)
    requires b.InRange() && OncePointed(b) && i < |b.items|
    ensures Items(Modify(b, b.items[i], x)) == Items(b)[i := x]
  {
  }

  lemma MatchingIsSame(b: Batch, x: FeedbagItem, i: nat)
    requires b.InRange() && i < |b.items|
    ensures Matching(x)(b.heap[b.items[i]]) <==> Same(Items(b)[i], x)
  {
  }

  lemma FirstIsSame(b: Batch, x: FeedbagItem, y: FeedbagItem)
    requires b.InRange() && forall z :: Same(z, x) <==> Same(z, y)
    ensures FirstSame(Items(b), y, First(b, Matching(x), 0))
  {
    forall i | 0 <= i < |b.items| ensures Matching(x)(b.heap[b.items[i]]) <==> Same(Items(b)[i], y) {
      MatchingIsSame(b, x, i);
    }
  }

  lemma NormalizedSame(x: FeedbagItem)
    ensures forall z :: Same(z, Normalized(x)) <==> Same(z, x)
    ensures Normalized(x) == Kept(x, x.itemID)
  {
    IdentIdempotent(x.name);
  }

  lemma UpsertOutcome(b: Batch, x: FeedbagItem, num: nat) returns (i: nat, id: nat)
    requires b.InRange() && OncePointed(b) && num < 65535
    ensures Put(Items(b), Items(Upsert(b, x, num).0), x, i, id)
    ensures Upsert(b, x, num).0.deletes == b.deletes
    ensures id == GenID(Used(b), num) && Upsert(b, x, num).2 == (i == |b.items|)
  {
    var y := Normalized(x);
    NormalizedSame(x);
    FirstIsSame(b, y, x);
    GenIDFresh(b, num);
    i, id := First(b, Matching(y), 0), GenID(Used(b), num);
    if i < |b.items| {
      Overwritten(b, i, y);
    } else {
      InsertInserts(b, y.(itemID := id));
    }
  }

  lemma Overwritten(b: Batch, i: nat, y: FeedbagItem)
    requires b.InRange() && OncePointed(b) && i < |b.items|
    ensures var c := if IsEqual(b.heap[b.items[i]], y) then b else Modify(b, b.items[i], y.(itemID := b.heap[b.items[i]].itemID));
      Items(c) == Items(b)[i := y.(itemID := Items(b)[i].itemID)]
  {
    ItemsModified(b, i, y.(itemID := b.heap[b.items[i]].itemID));
  }

  // ---------------------------------------------------------------- entries

  /** The mode item, and permit and deny entries: class 4 without a name, classes 2 and 3, all in group 0. */
  lemma EntryPut(b: Batch, op: Op) returns (i: nat, id: nat)
    requires b.InRange() && OncePointed(b) && op.Valid() && (op.SetMode? || op.PermitUser? || op.DenyUser?)
    ensures var x := if op.SetMode? then FeedbagItem([], 0, 0, 4, [Item(0x00CA, [op.mode])])
                     else FeedbagItem(op.user, 0, 0, if op.PermitUser? then 2 else 3, []);
      && Put(Items(b), Items(Apply(b, op)), x, i, id) && id == GenID(Used(b), op.num)
      && Apply(b, op).deletes == b.deletes
  {
    match op
    case SetMode(mode, num) => i, id := UpsertOutcome(b, ModeItem(mode), num);
    case PermitUser(user, num) => i, id := UpsertOutcome(b, Entry(CLASS_PERMIT, user), num);
    case DenyUser(user, num) => i, id := UpsertOutcome(b, Entry(CLASS_DENY, user), num);
  }

  /** The first entry for the same goes to the deletes; without one nothing changes. */
  predicate Took(b: Batch, c: Batch, x: FeedbagItem, i: nat)
    requires b.InRange() && c.InRange()
  {
    var xs := Items(b);
    && FirstSame(xs, x, i)
    && (if i < |xs| then Items(c) == xs[..i] + xs[i + 1..] && Deletes(c) == Deletes(b) + [xs[i]] && Updates(c) == Updates(b)
        else c == b)
  }

  lemma DeleteOutcome(b: Batch, x: FeedbagItem) returns (i: nat)
    requires b.InRange()
    ensures Took(b, Delete(b, x).0, x, i)
    ensures Delete(b, x).1.Some? <==> i < |b.items|
  {
    FirstIsSame(b, x, x);
    i := First(b, Matching(x), 0);
    if i < |b.items| {
      RemoveRemoves(b, i);
    }
  }

  lemma EntryTaken(b: Batch, op: Op) returns (i: nat)
    requires b.InRange() && op.Valid() && (op.DeletePermit? || op.DeleteDeny?)
    ensures Took(b, Apply(b, op), FeedbagItem(op.user, 0, 0, if op.DeletePermit? then 2 else 3, []), i)
  {
    match op
    case DeletePermit(user) => i := DeleteOutcome(b, Entry(CLASS_PERMIT, user));
    case DeleteDeny(user) => i := DeleteOutcome(b, Entry(CLASS_DENY, user));
  }

  // ---------------------------------------------------------------- buddies

  /** The first group of the name. */
  predicate FirstGroup(xs: seq<FeedbagItem>, name: Name, g: nat) {
    && g <= |xs| && (forall j | 0 <= j < g :: !(xs[j].classID == 1 && xs[j].name == name))
    && (g < |xs| ==> xs[g].classID == 1 && xs[g].name == name)
  }

  lemma GroupFound(b: Batch, name: Name)
    requires b.InRange()
    ensures FirstGroup(Items(b), name, First(b, GroupNamed(name), 0))
  {
    forall i | 0 <= i < |b.items| ensures GroupNamed(name)(b.heap[b.items[i]]) <==> Items(b)[i].classID == 1 && Items(b)[i].name == name {}
  }

  /** A group with other members: two bytes for each, in the order attribute. */
  predicate Reordered(x: FeedbagItem, y: FeedbagItem, ids: seq<nat>) {
    && y == x.(tlvs := y.tlvs)
    && Lookup(y.tlvs, 0x00C8) == Some(PutIds(ids)) && Members(y) == ids
  }

  lemma AppendedIs(x: FeedbagItem, id: nat)
    requires id < 65536
    ensures Reordered(x, AppendOrderMember(x, id), Members(x) + [id])
  {
    AppendedMembers(x, id);
    var order := Item(ATTR_ORDER, PutIds(Members(x) + [id]));
    if Lookup(x.tlvs, ATTR_ORDER).Some? {
      LookupReplaced(x.tlvs, order);
    } else {
      LookupAppended(x.tlvs, order);
    }
  }

  /** A buddy with its alias and note is put into the first group of the name; a new one is the last its group names. */
  lemma BuddyPut(b: Batch, group: Name, user: Name, alias: seq<byte>, note: seq<byte>, num: nat) returns (g: nat, i: nat, id: nat)
    requires b.InRange() && OncePointed(b) && num < 65535
    ensures FirstGroup(Items(b), group, g)
    ensures var xs := Items(b);
      var ys := Items(Apply(b, OpAddBuddy(group, user, alias, note, num)));
      if g == |xs| then ys == xs else
      var tlvs := (if alias != [] then [Item(0x0131, alias)] else []) + (if note != [] then [Item(0x013C, note)] else []);
      var x := FeedbagItem(user, xs[g].groupID, 0, 0, tlvs);
      && id == GenID(Used(b), num) && i <= |xs|
      && (i < |xs| ==> Put(xs, ys, x, i, id))
      && (i == |xs| ==> |ys| == |xs| + 1 && Put(xs, ys[g := xs[g]], x, i, id) && Reordered(xs[g], ys[g], Members(xs[g]) + [id]))
  {
    GroupFound(b, group);
    g := First(b, GroupNamed(group), 0);
    i, id := 0, 0;
    if g < |b.items| {
      var item := BuddyItem(user, alias, note).(groupID := Items(b)[g].groupID);
      i, id := UpsertOutcome(b, item, num);
      var c := Upsert(b, item, num).0;
      if i == |b.items| {
        StillPointed(b, item, num);
        assert Items(c)[g] == Items(b)[g];
        ItemsModified(c, g, AppendOrderMember(Items(b)[g], id));
        AppendedIs(Items(b)[g], id);
        var ys := Items(c)[g := AppendOrderMember(Items(b)[g], id)];
        assert ys[g := Items(b)[g]] == Items(c);
      }
    }
  }

  // ---------------------------------------------------------------- groups

  /** The first root: a group in group 0. */
  predicate FirstRoot(xs: seq<FeedbagItem>, r: nat) {
    && r <= |xs| && (forall j | 0 <= j < r :: !(xs[j].classID == 1 && xs[j].groupID == 0))
    && (r < |xs| ==> xs[r].classID == 1 && xs[r].groupID == 0)
  }

  lemma RootFound(b: Batch)
    requires b.InRange()
    ensures FirstRoot(Items(b), First(b, IsRoot, 0))
  {
    forall i | 0 <= i < |b.items| ensures IsRoot(b.heap[b.items[i]]) <==> Items(b)[i].classID == 1 && Items(b)[i].groupID == 0 {}
  }

  /** One more group at the end, and one more member of the root. */
  predicate Grown(xs: seq<FeedbagItem>, ys: seq<FeedbagItem>, r: nat, name: Name, id: nat) {
    && r < |xs| && |ys| == |xs| + 1
    && ys == xs[r := ys[r]] + [FeedbagItem(name, id, 0, 1, [])]
    && Reordered(xs[r], ys[r], Members(xs[r]) + [id])
    && (id != 0 ==> Unused(xs, id))
  }

  /** The list with a root. */
  function RootedItems(xs: seq<FeedbagItem>, r: nat): seq<FeedbagItem> {
    if r < |xs| then xs else xs + [FeedbagItem([], 0, 0, 1, [])]
  }

  /** A new group comes last, after a new root if there was none, and is the last the root names; a known name changes nothing. */
  lemma GroupPut(b: Batch, name: Name, num: nat) returns (g: nat, r: nat, id: nat)
    requires b.InRange() && OncePointed(b) && num < 65535
    ensures FirstGroup(Items(b), name, g) && FirstRoot(Items(b), r)
    ensures var c := AddGroup(b, name, num).0;
      if g < |b.items| then c == b else Grown(RootedItems(Items(b), r), Items(c), r, name, id)
  {
    GroupFound(b, name);
    RootFound(b);
    g, r, id := First(b, GroupNamed(name), 0), First(b, IsRoot, 0), GenID(Used(WithRoot(b).0), num);
    if g == |b.items| {
      GroupAdded(b, r, name, num);
    }
  }

  /** What the operations on groups and buddies are in a run. */
  lemma OperationsAre(b: Batch, name: Name, user: Name, num: nat)
    requires b.InRange() && num < 65535
    ensures Apply(b, OpAddGroup(name, num)) == AddGroup(b, name, num).0
    ensures Apply(b, OpDeleteGroup(name)) == DeleteGroup(b, name)
    ensures Apply(b, OpDeleteBuddy(name, user)) == DeleteBuddy(b, name, user).0
  {
  }

  lemma GroupAdded(b: Batch, r: nat, name: Name, num: nat)
    requires b.InRange() && OncePointed(b) && num < 65535 && First(b, GroupNamed(name), 0) == |b.items| && r == First(b, IsRoot, 0)
    ensures Grown(RootedItems(Items(b), r), Items(AddGroup(b, name, num).0), r, name, GenID(Used(WithRoot(b).0), num))
  {
    Rooted(b, r);
    AddGroupIs(b, r, name, num);
    NewGroup(WithRoot(b).0, r, name, num);
  }

  lemma AddGroupIs(b: Batch, r: nat, name: Name, num: nat)
    requires b.InRange() && num < 65535 && First(b, GroupNamed(name), 0) == |b.items|
    requires r < |WithRoot(b).0.items| && WithRoot(b).0.items[r] == WithRoot(b).1
    ensures AddGroup(b, name, num).0 == WithNewGroup(WithRoot(b).0, r, name, num)
  {
    var (b1, root) := WithRoot(b);
    assert b1.items[r] == root;
  }

  function WithNewGroup(b: Batch, r: nat, name: Name, num: nat): (c: Batch)
    requires b.InRange() && r < |b.items| && num < 65535
    ensures c.InRange()
  {
    var id := GenID(Used(b), num);
    Insert(Modify(b, b.items[r], AppendOrderMember(b.heap[b.items[r]], id)), FeedbagItem(name, id, 0, CLASS_GROUP, []))
  }

  lemma NewGroup(b: Batch, r: nat, name: Name, num: nat)
    requires b.InRange() && OncePointed(b) && r < |b.items| && num < 65535
    ensures Grown(Items(b), Items(WithNewGroup(b, r, name, num)), r, name, GenID(Used(b), num))
  {
    GenIDFresh(b, num);
    GroupAppended(b, r, name, GenID(Used(b), num));
  }

  lemma Rooted(b: Batch, r: nat)
    requires b.InRange() && OncePointed(b) && r == First(b, IsRoot, 0)
    ensures var (c, p) := WithRoot(b);
      && OncePointed(c) && r < |c.items| && c.items[r] == p
      && Items(c) == if r < |b.items| then Items(b) else Items(b) + [FeedbagItem([], 0, 0, 1, [])]
  {
    if r == |b.items| {
      InsertInserts(b, FeedbagItem([], 0, 0, 1, []));
    }
  }

  lemma GroupAppended(b: Batch, r: nat, name: Name, id: nat)
    requires b.InRange() && OncePointed(b) && r < |b.items| && id < 65536
    ensures var c := Insert(Modify(b, b.items[r], AppendOrderMember(b.heap[b.items[r]], id)), FeedbagItem(name, id, 0, CLASS_GROUP, []));
      && |c.items| == |b.items| + 1
      && Items(c) == Items(b)[r := AppendOrderMember(Items(b)[r], id)] + [FeedbagItem(name, id, 0, 1, [])]
      && Reordered(Items(b)[r], Items(c)[r], Members(Items(b)[r]) + [id])
  {
    var root := AppendOrderMember(Items(b)[r], id);
    ItemsModified(b, r, root);
    InsertInserts(Modify(b, b.items[r], root), FeedbagItem(name, id, 0, CLASS_GROUP, []));
    AppendedIs(Items(b)[r], id);
  }

  lemma StillPointed(b: Batch, x: FeedbagItem, num: nat)
    requires b.InRange() && OncePointed(b) && num < 65535 && Upsert(b, x, num).2
    ensures var c := Upsert(b, x, num).0; OncePointed(c) && c.items == b.items + [|b.heap|] && Upsert(b, x, num).1 == |b.heap|
    ensures Upsert(b, x, num).0.heap[|b.heap|].itemID == GenID(Used(b), num)
  {
  }
}
