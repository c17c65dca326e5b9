/**
 The order attributes of a feedbag list: the root group names exactly the
 groups, and every group exactly its buddies, over every run of operations
 with group names that are not empty.
 */
module FeedbagOrder {
  import opened ScreenNames
  import opened FeedbagItems
  import opened FeedbagBatch
  import opened FeedbagReplay
  import opened FeedbagRuns

  /** The listed items by pointer: their order in the list plays no part here. */
  type Cells = map<Ptr, FeedbagItem>

  predicate IsGroup(x: FeedbagItem) {
    x.classID == CLASS_GROUP && x.groupID != 0
  }

  function Groups(m: Cells): set<nat> {
    set p | p in m && IsGroup(m[p]) :: m[p].groupID
  }

  function Buddies(m: Cells, gid: nat): set<nat> {
    set p | p in m && m[p].classID == CLASS_BUDDY && m[p].groupID == gid :: m[p].itemID
  }

  function MemberSet(x: FeedbagItem): set<nat> {
    set id | id in Members(x)
  }

  /** Only the root group has no name, and groups have no item ID. */
  predicate Named(m: Cells) {
    forall p <- m :: m[p].classID == CLASS_GROUP ==> m[p].itemID == 0 && (m[p].name == [] <==> m[p].groupID == 0)
  }

  predicate Unmatched(m: Cells) {
    forall p, q | p in m && q in m && p != q :: !Match(m[p], m[q]) && KeyOf(m[p]) != KeyOf(m[q])
  }

  predicate Rooted(m: Cells) {
    (exists p :: p in m && IsGroup(m[p])) ==> exists r :: r in m && IsRoot(m[r])
  }

  /** The order lists are exact. */
  predicate Exact(m: Cells) {
    forall p <- m ::
      && (IsRoot(m[p]) ==> MemberSet(m[p]) == Groups(m))
      && (IsGroup(m[p]) ==> MemberSet(m[p]) == Buddies(m, m[p].groupID))
  }

  predicate Ordered(m: Cells) {
    Named(m) && Unmatched(m) && Rooted(m) && Exact(m)
  }

  // ---------------------------------------------------------------- what can happen to the cells

  lemma AppendedSet(x: FeedbagItem, id: nat)
    requires id < 65536
    ensures MemberSet(AppendOrderMember(x, id)) == MemberSet(x) + {id}
  {
    AppendedMembers(x, id);
  }

  lemma RemovedSet(x: FeedbagItem, id: nat)
    ensures MemberSet(RemoveOrderMember(x, id)) == MemberSet(x) - {id}
  {
    RemovedMembers(x, id);
  }

  /** Nothing about groups or buddies changes. */
  lemma SameSets(m: Cells, n: Cells)
    requires forall p <- m :: (m[p].classID == CLASS_GROUP || m[p].classID == CLASS_BUDDY ==> p in n && n[p].classID == m[p].classID && KeyOf(n[p]) == KeyOf(m[p]))
    requires forall p <- n :: (n[p].classID == CLASS_GROUP || n[p].classID == CLASS_BUDDY ==> p in m && n[p].classID == m[p].classID && KeyOf(n[p]) == KeyOf(m[p]))
    ensures Groups(m) == Groups(n) && forall gid :: Buddies(m, gid) == Buddies(n, gid)
  {
  }

  lemma ReplaceOrdered(m: Cells, p: Ptr, y: FeedbagItem)
    requires Ordered(m) && p in m && m[p].classID == y.classID && y.classID != CLASS_GROUP
    requires KeyOf(y) == KeyOf(m[p]) && Match(m[p], y)
    ensures Ordered(m[p := y])
  {
    var n := m[p := y];
    SameSets(m, n);
    forall a, b | a in n && b in n && a != b ensures !Match(n[a], n[b]) && KeyOf(n[a]) != KeyOf(n[b]) {
      assert !Match(m[a], m[b]) && KeyOf(m[a]) != KeyOf(m[b]);
    }
    if r :| r in m && IsRoot(m[r]) {
      assert r in n && IsRoot(n[r]);
    }
  }

  /** `p` is new, and so is what it holds. */
  predicate New(m: Cells, p: Ptr, y: FeedbagItem) {
    p !in m && forall q <- m :: !Match(m[q], y) && KeyOf(m[q]) != KeyOf(y)
  }

  lemma InsertUnmatched(m: Cells, p: Ptr, y: FeedbagItem)
    requires Unmatched(m) && New(m, p, y)
    ensures Unmatched(m[p := y])
  {
  }

  lemma InsertOtherOrdered(m: Cells, p: Ptr, y: FeedbagItem)
    requires Ordered(m) && New(m, p, y) && y.classID != CLASS_GROUP && y.classID != CLASS_BUDDY
    ensures Ordered(m[p := y])
  {
    var n := m[p := y];
    SameSets(m, n);
    InsertUnmatched(m, p, y);
    if r :| r in m && IsRoot(m[r]) {
      assert r in n && IsRoot(n[r]);
    }
  }

  lemma RemoveOtherOrdered(m: Cells, p: Ptr)
    requires Ordered(m) && p in m && m[p].classID != CLASS_GROUP && m[p].classID != CLASS_BUDDY
    ensures Ordered(m - {p})
  {
    var n := m - {p};
    SameSets(m, n);
    if r :| r in m && IsRoot(m[r]) {
      assert r in n && IsRoot(n[r]);
    }
  }

  /** The order of a listed group changes. */
  lemma ReorderUnmatched(m: Cells, g: Ptr, y: FeedbagItem)
    requires Unmatched(m) && g in m && m[g].classID == CLASS_GROUP && y == m[g].(tlvs := y.tlvs)
    ensures Unmatched(m[g := y])
  {
    var n := m[g := y];
    forall a, b | a in n && b in n && a != b ensures !Match(n[a], n[b]) && KeyOf(n[a]) != KeyOf(n[b]) {
      assert !Match(m[a], m[b]) && KeyOf(m[a]) != KeyOf(m[b]);
    }
  }

  lemma InsertBuddySets(m: Cells, p: Ptr, y: FeedbagItem, g: Ptr, z: FeedbagItem)
    requires p !in m && y.classID == CLASS_BUDDY && g in m && IsGroup(m[g]) && z == m[g].(tlvs := z.tlvs)
    ensures var o := m[p := y][g := z];
      Groups(o) == Groups(m) && forall gid :: Buddies(o, gid) == Buddies(m, gid) + if gid == y.groupID then {y.itemID} else {}
  {
    var o := m[p := y][g := z];
    forall q <- m | IsGroup(m[q]) ensures m[q].groupID in Groups(o) {
      assert q in o && IsGroup(o[q]) && o[q].groupID == m[q].groupID;
    }
    forall gid ensures Buddies(o, gid) == Buddies(m, gid) + if gid == y.groupID then {y.itemID} else {} {
      forall q <- m | m[q].classID == CLASS_BUDDY && m[q].groupID == gid ensures m[q].itemID in Buddies(o, gid) {
        assert q in o && o[q] == m[q];
      }
      assert p in o && o[p] == y;
    }
  }

  lemma InsertBuddyOrdered(m: Cells, p: Ptr, y: FeedbagItem, g: Ptr)
    requires Ordered(m) && New(m, p, y) && y.classID == CLASS_BUDDY && y.itemID < 65536
    requires g in m && IsGroup(m[g]) && m[g].groupID == y.groupID
    ensures Ordered(m[p := y][g := AppendOrderMember(m[g], y.itemID)])
  {
    var z := AppendOrderMember(m[g], y.itemID);
    var o := m[p := y][g := z];
    InsertUnmatched(m, p, y);
    ReorderUnmatched(m[p := y], g, z);
    AppendedSet(m[g], y.itemID);
    InsertBuddySets(m, p, y, g, z);
    var r :| r in m && IsRoot(m[r]);
    assert r in o && IsRoot(o[r]);
    BuddyExact(m, o, p, g);
  }

  /** Only one group's buddies and order changed, both alike. */
  lemma BuddyExact(m: Cells, o: Cells, p: Ptr, g: Ptr)
    requires Exact(m) && Unmatched(m) && Named(m) && g in m && g in o && IsGroup(m[g]) && p != g
    requires o[g] == m[g].(tlvs := o[g].tlvs) && MemberSet(o[g]) == Buddies(o, m[g].groupID)
    requires forall q <- o | q != g && q != p :: q in m && o[q] == m[q]
    requires p in o ==> o[p].classID == CLASS_BUDDY
    requires Groups(o) == Groups(m) && forall gid | gid != m[g].groupID :: Buddies(o, gid) == Buddies(m, gid)
    ensures Exact(o) && Named(o)
  {
    forall q <- o | q != g && q != p
      ensures IsRoot(o[q]) ==> MemberSet(o[q]) == Groups(o)
      ensures IsGroup(o[q]) ==> MemberSet(o[q]) == Buddies(o, o[q].groupID)
    {
      assert KeyOf(m[q]) != KeyOf(m[g]);
    }
  }

  lemma RemoveBuddySets(m: Cells, p: Ptr, g: Ptr, z: FeedbagItem)
    requires p in m && m[p].classID == CLASS_BUDDY && g in m && IsGroup(m[g]) && z == m[g].(tlvs := z.tlvs) && Unmatched(m)
    ensures var o := (m - {p})[g := z];
      Groups(o) == Groups(m) && forall gid :: Buddies(o, gid) == Buddies(m, gid) - if gid == m[p].groupID then {m[p].itemID} else {}
  {
    var o := (m - {p})[g := z];
    forall q <- m | IsGroup(m[q]) ensures m[q].groupID in Groups(o) {
      assert q in o && IsGroup(o[q]) && o[q].groupID == m[q].groupID;
    }
    forall gid ensures Buddies(o, gid) == Buddies(m, gid) - if gid == m[p].groupID then {m[p].itemID} else {} {
      forall q <- m | m[q].classID == CLASS_BUDDY && m[q].groupID == gid && q != p ensures m[q].itemID in Buddies(o, gid) {
        assert q in o && o[q] == m[q];
      }
      forall q <- o | o[q].classID == CLASS_BUDDY && o[q].groupID == gid
        ensures o[q].itemID in Buddies(m, gid) && !(gid == m[p].groupID && o[q].itemID == m[p].itemID)
      {
        assert q in m && KeyOf(m[q]) != KeyOf(m[p]);
      }
    }
  }

  lemma StaysRooted(m: Cells, o: Cells, g: Ptr)
    requires Rooted(m) && g in m && IsGroup(m[g])
    requires forall q <- m | m[q].classID == CLASS_GROUP :: q in o && o[q] == m[q].(tlvs := o[q].tlvs)
    ensures Rooted(o)
  {
    var r :| r in m && IsRoot(m[r]);
    assert r in o && IsRoot(o[r]);
  }

  lemma RemoveBuddyOrdered(m: Cells, p: Ptr, g: Ptr)
    requires Ordered(m) && p in m && m[p].classID == CLASS_BUDDY
    requires g in m && IsGroup(m[g]) && m[g].groupID == m[p].groupID
    ensures Ordered((m - {p})[g := RemoveOrderMember(m[g], m[p].itemID)])
  {
    var z := RemoveOrderMember(m[g], m[p].itemID);
    var o := (m - {p})[g := z];
    ReorderUnmatched(m - {p}, g, z);
    RemovedSet(m[g], m[p].itemID);
    RemoveBuddySets(m, p, g, z);
    StaysRooted(m, o, g);
    BuddyExact(m, o, p, g);
  }

  lemma InsertRootOrdered(m: Cells, p: Ptr)
    requires Ordered(m) && New(m, p, EMPTY_ROOT) && forall q <- m :: !IsRoot(m[q])
    ensures Ordered(m[p := EMPTY_ROOT])
  {
    var n := m[p := EMPTY_ROOT];
    InsertUnmatched(m, p, EMPTY_ROOT);
    assert Groups(m) == {};
    assert Groups(n) == {};
    assert MemberSet(EMPTY_ROOT) == {};
    forall gid ensures Buddies(n, gid) == Buddies(m, gid) {
      forall q <- m | m[q].classID == CLASS_BUDDY && m[q].groupID == gid ensures m[q].itemID in Buddies(n, gid) {
        assert q in n && n[q] == m[q];
      }
    }
    assert p in n && IsRoot(n[p]);
  }

  lemma InsertGroupOrdered(m: Cells, p: Ptr, y: FeedbagItem, r: Ptr)
    requires Ordered(m) && New(m, p, y) && y == FeedbagItem(y.name, y.groupID, 0, CLASS_GROUP, []) && y.name != []
    requires r in m && IsRoot(m[r]) && 0 != y.groupID < 65536 && forall q <- m :: m[q].groupID != y.groupID
    ensures Ordered(m[r := AppendOrderMember(m[r], y.groupID)][p := y])
  {
    var root := AppendOrderMember(m[r], y.groupID);
    var n := m[r := root];
    var o := n[p := y];
    AppendedSet(m[r], y.groupID);
    ReorderUnmatched(m, r, root);
    InsertUnmatched(n, p, y);
    InsertGroupSets(m, o, p, r);
    assert MemberSet(y) == {};
    InsertGroupExact(m, o, p, r);
    assert r in o && IsRoot(o[r]);
  }

  lemma InsertGroupExact(m: Cells, o: Cells, p: Ptr, r: Ptr)
    requires Exact(m) && Unmatched(m) && p !in m && r in m && IsRoot(m[r]) && p in o && IsGroup(o[p]) && r in o && IsRoot(o[r])
    requires o.Keys == m.Keys + {p} && forall q <- m | q != r :: o[q] == m[q] && KeyOf(m[q]) != KeyOf(o[r])
    requires Groups(o) == Groups(m) + {o[p].groupID} && Buddies(o, o[p].groupID) == {}
    requires forall gid :: Buddies(o, gid) == Buddies(m, gid)
    requires MemberSet(o[r]) == Groups(o) && MemberSet(o[p]) == {}
    requires forall q <- o | q != r :: !IsRoot(o[q])
    ensures Exact(o)
  {
  }

  lemma InsertGroupSets(m: Cells, o: Cells, p: Ptr, r: Ptr)
    requires p !in m && r in m && IsRoot(m[r]) && p in o && IsGroup(o[p]) && r in o && IsRoot(o[r])
    requires o.Keys == m.Keys + {p} && forall q <- m | q != r :: o[q] == m[q] && m[q].groupID != o[p].groupID
    ensures Groups(o) == Groups(m) + {o[p].groupID} && Buddies(o, o[p].groupID) == {}
    ensures forall gid :: Buddies(o, gid) == Buddies(m, gid)
  {
    forall q <- m | IsGroup(m[q]) ensures m[q].groupID in Groups(o) {
      assert q in o && IsGroup(o[q]) && o[q].groupID == m[q].groupID;
    }
    forall gid ensures Buddies(o, gid) == Buddies(m, gid) {
      forall q <- m | m[q].classID == CLASS_BUDDY && m[q].groupID == gid ensures m[q].itemID in Buddies(o, gid) {
        assert q in o && o[q] == m[q];
      }
    }
  }

  lemma RemoveGroupSets(m: Cells, o: Cells, gid: nat)
    requires forall p :: p in o <==> p in m && m[p].groupID != gid
    requires forall p <- o :: o[p] == m[p].(tlvs := o[p].tlvs)
    ensures Groups(o) == Groups(m) - {gid} && forall g | g != gid :: Buddies(o, g) == Buddies(m, g)
  {
    forall q <- m | IsGroup(m[q]) && m[q].groupID != gid ensures m[q].groupID in Groups(o) {
      assert q in o && IsGroup(o[q]);
    }
    forall g | g != gid ensures Buddies(o, g) == Buddies(m, g) {
      forall q <- m | m[q].classID == CLASS_BUDDY && m[q].groupID == g ensures m[q].itemID in Buddies(o, g) {
        assert q in o && o[q].itemID == m[q].itemID;
      }
    }
  }

  /** All of a group is gone, and the root forgets it. */
  lemma RemoveGroupOrdered(m: Cells, o: Cells, gid: nat)
    requires Ordered(m) && gid != 0
    requires forall p :: p in o <==> p in m && m[p].groupID != gid
    requires forall p <- o :: o[p] == if IsRoot(m[p]) then RemoveOrderMember(m[p], gid) else m[p]
    ensures Ordered(o)
  {
    forall a, b | a in o && b in o && a != b ensures !Match(o[a], o[b]) && KeyOf(o[a]) != KeyOf(o[b]) {
      assert !Match(m[a], m[b]) && KeyOf(m[a]) != KeyOf(m[b]);
    }
    RemoveGroupSets(m, o, gid);
    if r :| r in m && IsRoot(m[r]) {
      assert r in o && IsRoot(o[r]);
    }
    forall q <- o | IsRoot(o[q]) ensures MemberSet(o[q]) == Groups(o) {
      RemovedSet(m[q], gid);
    }
  }

  // ---------------------------------------------------------------- the operations on the cells

  function CellsOf(b: Batch): Cells
    requires b.InRange()
  {
    map p | p in b.items && p < |b.heap| :: b.heap[p]
  }

  lemma CellsModify(b: Batch, i: nat, x: FeedbagItem)
    requires b.InRange() && i < |b.items|
    ensures CellsOf(Modify(b, b.items[i], x)) == CellsOf(b)[b.items[i] := x]
  {
  }

  lemma CellsInsert(b: Batch, x: FeedbagItem)
    requires b.InRange()
    ensures CellsOf(Insert(b, x)) == CellsOf(b)[|b.heap| := x] && |b.heap| !in CellsOf(b)
  {
    var c := Insert(b, x);
    assert forall i | 0 <= i < |b.items| :: c.items[i] == b.items[i];
    assert c.items[|b.items|] == |b.heap|;
  }

  lemma RemoveListed(b: Batch, i: nat)
    requires b.InRange() && i < |b.items| && Distinct(Items(b))
    ensures forall p :: p in RemoveAt(b, i).items <==> p in b.items && p != b.items[i]
  {
    var c := RemoveAt(b, i);
    ListedOnce(b);
    forall j | 0 <= j < |c.items| ensures c.items[j] in b.items && c.items[j] != b.items[i] {
      assert c.items[j] == b.items[Was(i, j)];
    }
    forall j | 0 <= j < |b.items| && j != i ensures b.items[j] in c.items {
      assert c.items[if j < i then j else j - 1] == b.items[j];
    }
  }

  lemma CellsRemove(b: Batch, i: nat)
    requires b.InRange() && i < |b.items| && Distinct(Items(b))
    ensures CellsOf(RemoveAt(b, i)) == CellsOf(b) - {b.items[i]}
  {
    RemoveListed(b, i);
  }

  lemma NewWhenUnlisted(b: Batch, y: FeedbagItem)
    requires b.InRange() && KeyOf(y) !in KeysOf(Items(b))
    requires forall i | 0 <= i < |b.items| :: !Match(b.heap[b.items[i]], y)
    ensures New(CellsOf(b), |b.heap|, y)
  {
    forall q <- CellsOf(b) ensures !Match(CellsOf(b)[q], y) && KeyOf(CellsOf(b)[q]) != KeyOf(y) {
      var i :| 0 <= i < |b.items| && b.items[i] == q;
      assert KeyOf(Items(b)[i]) in KeysOf(Items(b));
    }
  }

  lemma UpsertOtherOrdered(b: Batch, base: Rows, item: FeedbagItem, num: nat)
    requires Inv(b, base) && Ordered(CellsOf(b)) && item.classID != CLASS_BUDDY && item.classID != CLASS_GROUP
    requires num < 65535 && UpsertKeyed(b, item, num)
    ensures Ordered(CellsOf(Upsert(b, item, num).0))
  {
    var x := Normalized(item);
    var i := First(b, Matching(x), 0);
    if i < |b.items| {
      UpsertMatchedOrdered(b, base, item, num);
    } else {
      var y := x.(itemID := GenID(Used(b), num));
      NewWhenUnlisted(b, y);
      CellsInsert(b, y);
      InsertOtherOrdered(CellsOf(b), |b.heap|, y);
    }
  }

  /** The first match is overwritten, and keeps its ID. */
  lemma UpsertMatchedOrdered(b: Batch, base: Rows, item: FeedbagItem, num: nat)
    requires Inv(b, base) && Ordered(CellsOf(b)) && item.classID != CLASS_GROUP && num < 65535
    requires First(b, Matching(Normalized(item)), 0) < |b.items| && UpsertKeyed(b, item, num)
    ensures
      var p := b.items[First(b, Matching(Normalized(item)), 0)];
      var c := CellsOf(Upsert(b, item, num).0);
      Ordered(c) && c == CellsOf(b)[p := Normalized(item).(itemID := b.heap[p].itemID)]
  {
    var x := Normalized(item);
    var i := First(b, Matching(x), 0);
    var p := b.items[i];
    assert CellsOf(b)[p] == b.heap[p];
    if !IsEqual(b.heap[p], x) {
      CellsModify(b, i, x.(itemID := b.heap[p].itemID));
      ReplaceOrdered(CellsOf(b), p, x.(itemID := b.heap[p].itemID));
    }
  }

  lemma DeleteOtherOrdered(b: Batch, base: Rows, x: FeedbagItem)
    requires Inv(b, base) && Ordered(CellsOf(b)) && x.classID != CLASS_GROUP && x.classID != CLASS_BUDDY
    ensures Ordered(CellsOf(Delete(b, x).0))
  {
    var i := First(b, Matching(x), 0);
    if i < |b.items| {
      CellsRemove(b, i);
      RemoveOtherOrdered(CellsOf(b), b.items[i]);
    }
  }

  /** A new buddy is listed, and its group orders it last. */
  function WithBuddy(m: Cells, p: Ptr, y: FeedbagItem, g: Ptr): Cells
    requires g in m
  {
    m[p := y][g := AppendOrderMember(m[g], y.itemID)]
  }

  /** A buddy of a known group is overwritten or listed and ordered; nothing else changes. */
  lemma AddBuddyOrdered(b: Batch, base: Rows, group: Name, buddy: FeedbagItem, num: nat)
    requires Inv(b, base) && Ordered(CellsOf(b)) && buddy.classID == CLASS_BUDDY && group != []
    requires num < 65535 && AddBuddyKeyed(b, group, buddy, num)
    ensures Ordered(CellsOf(AddBuddy(b, group, buddy, num).0))
    ensures
      var m, c, i := CellsOf(b), CellsOf(AddBuddy(b, group, buddy, num).0), First(b, GroupNamed(group), 0);
      if i == |b.items| then c == m else
      var g := b.items[i];
      var x := Normalized(buddy.(groupID := b.heap[g].groupID));
      var j := First(b, Matching(x), 0);
      && g in m
      && if j < |b.items| then c == m[b.items[j] := x.(itemID := b.heap[b.items[j]].itemID)]
         else |b.heap| !in m && c == WithBuddy(m, |b.heap|, x.(itemID := GenID(Used(b), num)), g)
  {
    var i := First(b, GroupNamed(group), 0);
    if i < |b.items| {
      assert CellsOf(b)[b.items[i]] == b.heap[b.items[i]];
      var item := buddy.(groupID := b.heap[b.items[i]].groupID);
      if First(b, Matching(Normalized(item)), 0) < |b.items| {
        UpsertMatchedOrdered(b, base, item, num);
      } else {
        InsertBuddyAt(b, i, Normalized(item).(itemID := GenID(Used(b), num)));
      }
    }
  }

  lemma InsertBuddyAt(b: Batch, i: nat, y: FeedbagItem)
    requires b.InRange() && Ordered(CellsOf(b)) && i < |b.items| && IsGroup(b.heap[b.items[i]])
    requires y.classID == CLASS_BUDDY && y.groupID == b.heap[b.items[i]].groupID && y.itemID < 65536
    requires KeyOf(y) !in KeysOf(Items(b)) && forall j | 0 <= j < |b.items| :: !Match(b.heap[b.items[j]], y)
    ensures
      var g, m, c := b.items[i], CellsOf(b), Insert(b, y);
      var d := CellsOf(Modify(c, g, AppendOrderMember(c.heap[g], y.itemID)));
      && g in m && |b.heap| !in m && c.heap[|b.heap|] == y
      && d == WithBuddy(m, |b.heap|, y, g) && Ordered(d)
  {
    var g, c := b.items[i], Insert(b, y);
    NewWhenUnlisted(b, y);
    CellsInsert(b, y);
    assert c.items[i] == g && c.heap[g] == b.heap[g];
    CellsModify(c, i, AppendOrderMember(b.heap[g], y.itemID));
    assert CellsOf(b)[g] == b.heap[g];
    InsertBuddyOrdered(CellsOf(b), |b.heap|, y, g);
  }

  /** A buddy is gone, and its group no longer orders it. */
  function WithoutBuddy(m: Cells, p: Ptr, g: Ptr): Cells
    requires p in m && g in m
  {
    (m - {p})[g := RemoveOrderMember(m[g], m[p].itemID)]
  }

  /** Item `j` is deleted, and the group at `i` forgets it. */
  lemma ForgetBuddyOrdered(b: Batch, i: nat, j: nat)
    requires b.InRange() && Distinct(Items(b)) && Ordered(CellsOf(b)) && i < |b.items| && j < |b.items|
    requires IsGroup(b.heap[b.items[i]]) && b.heap[b.items[j]].classID == CLASS_BUDDY
    requires b.heap[b.items[i]].groupID == b.heap[b.items[j]].groupID
    ensures var g, p, m := b.items[i], b.items[j], CellsOf(b);
      var c := CellsOf(Modify(RemoveAt(b, j), g, RemoveOrderMember(b.heap[g], b.heap[p].itemID)));
      g in m && p in m && Ordered(c) && c == WithoutBuddy(m, p, g)
  {
    var g, p := b.items[i], b.items[j];
    var c := RemoveAt(b, j);
    CellsRemove(b, j);
    var k := if i < j then i else i - 1;
    StillAt(b.items, i, j);
    CellsModify(c, k, RemoveOrderMember(b.heap[g], b.heap[p].itemID));
    assert CellsOf(b)[g] == b.heap[g] && CellsOf(b)[p] == b.heap[p];
    RemoveBuddyOrdered(CellsOf(b), p, g);
  }

  /** The first buddy of the group with the name goes, if there is one; nothing else changes. */
  lemma DeleteBuddyOrdered(b: Batch, base: Rows, group: Name, buddy: Name)
    requires Inv(b, base) && Ordered(CellsOf(b)) && group != []
    ensures Ordered(CellsOf(DeleteBuddy(b, group, buddy).0))
    ensures
      var m, c, i := CellsOf(b), CellsOf(DeleteBuddy(b, group, buddy).0), First(b, GroupNamed(group), 0);
      if i == |b.items| then c == m else
      var g := b.items[i];
      var j := First(b, Matching(FeedbagItem(buddy, b.heap[g].groupID, 0, CLASS_BUDDY, [])), 0);
      if j == |b.items| then c == m else g in m && b.items[j] in m && c == WithoutBuddy(m, b.items[j], g)
  {
    var i := First(b, GroupNamed(group), 0);
    if i < |b.items| {
      var g := b.items[i];
      var j := First(b, Matching(FeedbagItem(buddy, b.heap[g].groupID, 0, CLASS_BUDDY, [])), 0);
      if j < |b.items| {
        assert CellsOf(b)[g] == b.heap[g];
        assert b.heap[b.items[j]].classID == CLASS_BUDDY;
        ForgetBuddyOrdered(b, i, j);
      }
    }
  }

  /** The root orders a new group, and the group is listed, empty. */
  function WithGroup(m: Cells, r: Ptr, p: Ptr, y: FeedbagItem): Cells
    requires r in m
  {
    m[r := AppendOrderMember(m[r], y.groupID)][p := y]
  }

  lemma AppendGroupOrdered(b: Batch, i: nat, y: FeedbagItem)
    requires b.InRange() && Ordered(CellsOf(b)) && i < |b.items| && IsRoot(b.heap[b.items[i]])
    requires y == FeedbagItem(y.name, y.groupID, 0, CLASS_GROUP, []) && y.name != [] && 0 != y.groupID < 65536
    requires forall j | 0 <= j < |b.items| :: !Match(b.heap[b.items[j]], y) && b.heap[b.items[j]].groupID != y.groupID
    ensures var c := CellsOf(Insert(Modify(b, b.items[i], AppendOrderMember(b.heap[b.items[i]], y.groupID)), y));
      Ordered(c) && b.items[i] in CellsOf(b) && |b.heap| !in CellsOf(b) && c == WithGroup(CellsOf(b), b.items[i], |b.heap|, y)
  {
    var r := b.items[i];
    var root := AppendOrderMember(b.heap[r], y.groupID);
    var c := Modify(b, r, root);
    var m := CellsOf(b);
    CellsModify(b, i, root);
    CellsInsert(c, y);
    assert m[r] == b.heap[r];
    forall q <- m ensures !Match(m[q], y) && m[q].groupID != y.groupID {
      var j :| 0 <= j < |b.items| && b.items[j] == q;
    }
    InsertGroupOrdered(m, |b.heap|, y, r);
  }

  /** In an ordered list the root's key is (0, 0), so a free key for a group is no group 0. */
  lemma GroupKeyNotRoot(b: Batch, i: nat, gid: nat)
    requires b.InRange() && Ordered(CellsOf(b)) && i < |b.items| && IsRoot(b.heap[b.items[i]]) && (gid, 0) !in KeysOf(Items(b))
    ensures gid != 0
  {
    assert CellsOf(b)[b.items[i]] == b.heap[b.items[i]];
    KeyIn(Items(b), i);
  }

  /** A known group stays; a new one is listed and ordered, under a new root if there was none. Nothing else changes. */
  lemma AddGroupOrdered(b: Batch, base: Rows, name: Name, num: nat)
    requires Inv(b, base) && Ordered(CellsOf(b)) && name != [] && num < 65535 && AddGroupKeyed(b, name, num)
    ensures Ordered(CellsOf(AddGroup(b, name, num).0))
    ensures
      var m, c := CellsOf(b), CellsOf(AddGroup(b, name, num).0);
      if First(b, GroupNamed(name), 0) < |b.items| then c == m else
      var (b1, r) := WithRoot(b);
      var m1 := CellsOf(b1);
      && (if r in m then m1 == m else r == |b.heap| && m1 == m[r := EMPTY_ROOT])
      && r in m1 && |b1.heap| !in m1
      && c == WithGroup(m1, r, |b1.heap|, FeedbagItem(name, GenID(Used(b1), num), 0, CLASS_GROUP, []))
  {
    if First(b, GroupNamed(name), 0) == |b.items| {
      WithRootKeeps(b, base);
      WithRootOrdered(b, base);
      var (b1, r) := WithRoot(b);
      var gid := GenID(Used(b1), num);
      GroupKeyNotRoot(b1, First(b, IsRoot, 0), gid);
      GenIDFresh(b1, num);
      NoGroupNamed(b, b1, name, gid);
      AppendGroupOrdered(b1, First(b, IsRoot, 0), FeedbagItem(name, gid, 0, CLASS_GROUP, []));
    }
  }

  lemma NoGroupNamed(b: Batch, b1: Batch, name: Name, gid: nat)
    requires b.InRange() && b1.InRange() && name != [] && First(b, GroupNamed(name), 0) == |b.items|
    requires Items(b1) == Items(b) || Items(b1) == Items(b) + [EMPTY_ROOT]
    requires forall j | 0 <= j < |b1.items| :: Items(b1)[j].groupID != gid
    ensures var y := FeedbagItem(name, gid, 0, CLASS_GROUP, []);
      forall j | 0 <= j < |b1.items| :: !Match(b1.heap[b1.items[j]], y) && b1.heap[b1.items[j]].groupID != gid
  {
    forall j | 0 <= j < |b1.items|
      ensures !Match(b1.heap[b1.items[j]], FeedbagItem(name, gid, 0, CLASS_GROUP, [])) && b1.heap[b1.items[j]].groupID != gid
    {
      assert Items(b1)[j] == b1.heap[b1.items[j]];
      if j < |b.items| {
        assert Items(b1)[j] == Items(b)[j];
        assert !GroupNamed(name)(b.heap[b.items[j]]);
      } else {
        assert Items(b1)[j] == EMPTY_ROOT;
      }
    }
  }

  lemma WithRootOrdered(b: Batch, base: Rows)
    requires Inv(b, base) && Ordered(CellsOf(b)) && RootKeyed(b)
    ensures var (c, r) := WithRoot(b);
      && Ordered(CellsOf(c)) && r in CellsOf(c)
      && (if r in CellsOf(b) then CellsOf(c) == CellsOf(b) else r == |b.heap| && CellsOf(c) == CellsOf(b)[r := EMPTY_ROOT])
  {
    if First(b, IsRoot, 0) == |b.items| {
      var m := CellsOf(b);
      forall q <- m ensures !IsRoot(m[q]) && KeyOf(m[q]) != (0, 0) && !Match(m[q], EMPTY_ROOT) {
        var j :| 0 <= j < |b.items| && b.items[j] == q;
        KeyIn(Items(b), j);
        assert Items(b)[j] == m[q];
        assert !IsRoot(b.heap[b.items[j]]);
      }
      CellsInsert(b, EMPTY_ROOT);
      InsertRootOrdered(m, |b.heap|);
    }
  }

  // ---------------------------------------------------------------- deleting a group

  predicate NoRepeats(ps: seq<Ptr>) {
    forall i, j | 0 <= i < j < |ps| :: ps[i] != ps[j]
  }

  lemma {:induction false} InGroupOnce(b: Batch, items: seq<Ptr>, gid: nat)
    requires forall i | 0 <= i < |items| :: items[i] < |b.heap|
    requires NoRepeats(items)
    ensures NoRepeats(InGroup(b, items, gid))
    decreases |items|
  {
    if items != [] {
      InGroupOnce(b, items[1..], gid);
      assert forall p :: p in InGroup(b, items[1..], gid) ==> p in items[1..];
    }
  }

  /** Deleting a listed item deletes that item: no other matches. */
  lemma DeleteOne(b: Batch, p: Ptr)
    requires b.InRange() && Distinct(Items(b)) && Unmatched(CellsOf(b)) && p in b.items
    ensures forall q :: q in Delete(b, b.heap[p]).0.items <==> q in b.items && q != p
  {
    var j :| 0 <= j < |b.items| && b.items[j] == p;
    var i := First(b, Matching(b.heap[p]), 0);
    assert Match(b.heap[b.items[j]], b.heap[p]);
    assert i <= j;
    assert CellsOf(b)[b.items[i]] == b.heap[b.items[i]] && CellsOf(b)[p] == b.heap[p];
    assert b.items[i] == p;
    RemoveListed(b, i);
  }

  lemma FewerUnmatched(b: Batch, c: Batch)
    requires b.InRange() && c.InRange() && c.heap == b.heap && Unmatched(CellsOf(b))
    requires forall p | p in c.items :: p in b.items
    ensures Unmatched(CellsOf(c))
  {
    var m, n := CellsOf(b), CellsOf(c);
    forall p, q | p in n && q in n && p != q ensures !Match(n[p], n[q]) && KeyOf(n[p]) != KeyOf(n[q]) {
      assert p in m && q in m && n[p] == m[p] && n[q] == m[q];
    }
  }

  lemma RestListed(items: seq<Ptr>, left: seq<Ptr>, ps: seq<Ptr>)
    requires ps != [] && NoRepeats(ps) && forall i | 0 <= i < |ps| :: ps[i] in items
    requires forall q :: q in left <==> q in items && q != ps[0]
    ensures NoRepeats(ps[1..]) && forall i | 0 <= i < |ps[1..]| :: ps[1..][i] in left
  {
    forall i | 0 <= i < |ps[1..]| ensures ps[1..][i] in left {
      assert ps[1..][i] == ps[i + 1];
    }
  }

  lemma AllGone(items: seq<Ptr>, left: seq<Ptr>, end: seq<Ptr>, ps: seq<Ptr>)
    requires ps != [] && forall q :: q in left <==> q in items && q != ps[0]
    requires forall q :: q in end <==> q in left && q !in ps[1..]
    ensures forall q :: q in end <==> q in items && q !in ps
  {
    assert ps == [ps[0]] + ps[1..];
  }

  lemma {:induction false} DeleteEachExact(b: Batch, base: Rows, ps: seq<Ptr>)
    requires Inv(b, base) && Unmatched(CellsOf(b)) && NoRepeats(ps) && forall i | 0 <= i < |ps| :: ps[i] in b.items
    ensures forall i | 0 <= i < |ps| :: ps[i] < |b.heap|
    ensures forall q :: q in DeleteEach(b, ps).items <==> q in b.items && q !in ps
    decreases |ps|
  {
    if ps != [] {
      var c := Delete(b, b.heap[ps[0]]).0;
      DeleteOne(b, ps[0]);
      DeleteKeeps(b, base, b.heap[ps[0]]);
      FewerUnmatched(b, c);
      RestListed(b.items, c.items, ps);
      DeleteEachExact(c, base, ps[1..]);
      AllGone(b.items, c.items, DeleteEach(c, ps[1..]).items, ps);
    }
  }

  /** What the loop over the roots leaves of an item. */
  function Forgotten(x: FeedbagItem, gid: nat): FeedbagItem {
    if IsRoot(x) then RemoveOrderMember(x, gid) else x
  }

  lemma ForgetOneExact(b: Batch, gid: nat, i: nat)
    requires b.InRange() && NoRepeats(b.items) && i < |b.items|
    ensures var c := ForgetOne(b, gid, i);
      forall k | 0 <= k < |b.items| :: c.heap[b.items[k]] == if k == i then Forgotten(b.heap[b.items[k]], gid) else b.heap[b.items[k]]
  {
  }

  lemma {:induction false} ForgetGroupExact(b: Batch, gid: nat, i: nat)
    requires b.InRange() && NoRepeats(b.items) && i <= |b.items|
    ensures var c := ForgetGroup(b, gid, i);
      forall k | 0 <= k < |b.items| :: c.heap[b.items[k]] == if k < i then b.heap[b.items[k]] else Forgotten(b.heap[b.items[k]], gid)
    decreases |b.items| - i
  {
    if i < |b.items| {
      ForgetOneExact(b, gid, i);
      ForgetGroupExact(ForgetOne(b, gid, i), gid, i + 1);
    }
  }

  lemma ListedNoRepeats(b: Batch)
    requires b.InRange() && Distinct(Items(b))
    ensures NoRepeats(b.items)
  {
    ListedOnce(b);
  }

  /** What the deletion of a group leaves: everything else, without the group in the root's order. */
  function WithoutGroup(m: Cells, gid: nat): Cells {
    map p | p in m && m[p].groupID != gid :: Forgotten(m[p], gid)
  }

  /** The group, all of its items and its place in the root's order go, and nothing else. */
  lemma DeleteGroupOrdered(b: Batch, base: Rows, name: Name)
    requires Inv(b, base) && Ordered(CellsOf(b)) && name != []
    ensures Ordered(CellsOf(DeleteGroup(b, name)))
    ensures
      var i := First(b, GroupNamed(name), 0);
      CellsOf(DeleteGroup(b, name)) == if i == |b.items| then CellsOf(b) else WithoutGroup(CellsOf(b), b.heap[b.items[i]].groupID)
  {
    var i := First(b, GroupNamed(name), 0);
    if i < |b.items| {
      assert CellsOf(b)[b.items[i]] == b.heap[b.items[i]];
      var gid := b.heap[b.items[i]].groupID;
      assert gid != 0;
      var ps := InGroup(b, b.items, gid);
      ListedNoRepeats(b);
      InGroupOnce(b, b.items, gid);
      DeleteEachExact(b, base, ps);
      DeleteEachKeeps(b, base, ps);
      var c := DeleteEach(b, ps);
      ListedNoRepeats(c);
      ForgetGroupExact(c, gid, 0);
      ForgottenOrdered(b, c, ForgetGroup(c, gid, 0), gid);
    }
  }

  lemma ForgottenOrdered(b: Batch, c: Batch, d: Batch, gid: nat)
    requires b.InRange() && c.InRange() && d.InRange() && Ordered(CellsOf(b)) && gid != 0
    requires c.heap == b.heap && d.items == c.items && |d.heap| == |c.heap|
    requires forall p :: p in c.items <==> p in b.items && b.heap[p].groupID != gid
    requires forall k | 0 <= k < |c.items| :: d.heap[c.items[k]] == Forgotten(c.heap[c.items[k]], gid)
    ensures Ordered(CellsOf(d)) && CellsOf(d) == WithoutGroup(CellsOf(b), gid)
  {
    var m, o := CellsOf(b), CellsOf(d);
    forall p | p in o ensures p in m && m[p].groupID != gid && o[p] == Forgotten(m[p], gid) {
      var k :| 0 <= k < |d.items| && d.items[k] == p;
    }
    RemoveGroupOrdered(m, o, gid);
  }

  // ---------------------------------------------------------------- runs

  /** Group names are not empty. */
  predicate NamesGroups(op: Op) {
    match op
    case OpAddGroup(name, _) => name != []
    case OpDeleteGroup(name) => name != []
    case OpAddBuddy(group, _, _, _, _) => group != []
    case OpDeleteBuddy(group, _) => group != []
    case _ => true
  }

  lemma ApplyOrdered(b: Batch, base: Rows, op: Op)
    requires Inv(b, base) && Ordered(CellsOf(b)) && op.Valid() && NamesGroups(op) && Keyed(b, op)
    ensures Ordered(CellsOf(Apply(b, op)))
  {
    match op
    case SetMode(mode, num) => UpsertOtherOrdered(b, base, ModeItem(mode), num);
    case PermitUser(user, num) => UpsertOtherOrdered(b, base, Entry(CLASS_PERMIT, user), num);
    case DenyUser(user, num) => UpsertOtherOrdered(b, base, Entry(CLASS_DENY, user), num);
    case DeletePermit(user) => DeleteOtherOrdered(b, base, Entry(CLASS_PERMIT, user));
    case DeleteDeny(user) => DeleteOtherOrdered(b, base, Entry(CLASS_DENY, user));
    case OpAddGroup(name, num) => AddGroupOrdered(b, base, name, num);
    case OpDeleteGroup(name) => DeleteGroupOrdered(b, base, name);
    case OpAddBuddy(group, user, alias, note, num) => AddBuddyOrdered(b, base, group, BuddyItem(user, alias, note), num);
    case OpDeleteBuddy(group, user) => DeleteBuddyOrdered(b, base, group, user);
  }

  /**
   Whatever is added and deleted: the root orders exactly the listed groups,
   every group exactly its listed buddies, and no two items match.
   */
  lemma {:induction false} OrdersStayExact(b: Batch, base: Rows, ops: seq<Op>)
    requires Inv(b, base) && Ordered(CellsOf(b)) && AllValid(ops) && AllKeyed(b, ops)
    requires forall i | 0 <= i < |ops| :: NamesGroups(ops[i])
    ensures Ordered(CellsOf(Run(b, ops)))
    decreases |ops|
  {
    if ops != [] {
      ApplyOrdered(b, base, ops[0]);
      ApplyKeeps(b, base, ops[0]);
      OrdersStayExact(Apply(b, ops[0]), base, ops[1..]);
    }
  }

  // ---------------------------------------------------------------- no order repeats an ID

  predicate NoDuplicates(ids: seq<nat>) {
    forall i, j | 0 <= i < j < |ids| :: ids[i] != ids[j]
  }

  predicate OnceEach(m: Cells) {
    forall p <- m :: m[p].classID == CLASS_GROUP ==> NoDuplicates(Members(m[p]))
  }

  lemma {:induction false} FilteredOnce(ids: seq<nat>, id: nat)
    requires NoDuplicates(ids)
    ensures NoDuplicates(Filtered(ids, id))
    decreases |ids|
  {
    if ids != [] {
      FilteredOnce(ids[1..], id);
      var rest := Filtered(ids[1..], id);
      forall k | 0 <= k < |rest| ensures rest[k] != ids[0] {
        assert rest[k] in ids[1..];
      }
    }
  }

  lemma ForgottenOnce(x: FeedbagItem, id: nat)
    requires NoDuplicates(Members(x))
    ensures NoDuplicates(Members(RemoveOrderMember(x, id)))
  {
    RemovedMembers(x, id);
    FilteredOnce(Members(x), id);
  }

  lemma AppendedOnce(x: FeedbagItem, id: nat)
    requires NoDuplicates(Members(x)) && id !in MemberSet(x) && id < 65536
    ensures NoDuplicates(Members(AppendOrderMember(x, id)))
  {
    AppendedMembers(x, id);
  }

  /** Items that are not groups come, go and change. */
  lemma OtherOnce(m: Cells, n: Cells)
    requires OnceEach(m) && forall p <- n | n[p].classID == CLASS_GROUP :: p in m && n[p] == m[p]
    ensures OnceEach(n)
  {
  }

  lemma WithBuddyOnce(m: Cells, p: Ptr, y: FeedbagItem, g: Ptr)
    requires Ordered(m) && OnceEach(m) && p !in m && y.classID == CLASS_BUDDY && y.itemID < 65536
    requires g in m && IsGroup(m[g]) && m[g].groupID == y.groupID && y.itemID !in Buddies(m, y.groupID)
    ensures OnceEach(WithBuddy(m, p, y, g))
  {
    AppendedOnce(m[g], y.itemID);
  }

  lemma WithoutBuddyOnce(m: Cells, p: Ptr, g: Ptr)
    requires OnceEach(m) && p in m && g in m && m[g].classID == CLASS_GROUP
    ensures OnceEach(WithoutBuddy(m, p, g))
  {
    ForgottenOnce(m[g], m[p].itemID);
  }

  lemma WithGroupOnce(m: Cells, r: Ptr, p: Ptr, y: FeedbagItem)
    requires Ordered(m) && OnceEach(m) && r in m && IsRoot(m[r]) && p !in m
    requires y.groupID < 65536 && y.groupID !in Groups(m) && Members(y) == []
    ensures OnceEach(WithGroup(m, r, p, y))
  {
    AppendedOnce(m[r], y.groupID);
  }

  lemma WithoutGroupOnce(m: Cells, gid: nat)
    requires OnceEach(m)
    ensures OnceEach(WithoutGroup(m, gid))
  {
    forall p <- m | m[p].classID == CLASS_GROUP ensures NoDuplicates(Members(Forgotten(m[p], gid))) {
      ForgottenOnce(m[p], gid);
    }
  }

  lemma UpsertOtherOnce(b: Batch, base: Rows, item: FeedbagItem, num: nat)
    requires Inv(b, base) && Ordered(CellsOf(b)) && OnceEach(CellsOf(b)) && item.classID != CLASS_GROUP
    requires num < 65535 && UpsertKeyed(b, item, num)
    ensures OnceEach(CellsOf(Upsert(b, item, num).0))
  {
    var x := Normalized(item);
    if First(b, Matching(x), 0) < |b.items| {
      UpsertMatchedOrdered(b, base, item, num);
    } else {
      CellsInsert(b, x.(itemID := GenID(Used(b), num)));
    }
    OtherOnce(CellsOf(b), CellsOf(Upsert(b, item, num).0));
  }

  lemma DeleteOtherOnce(b: Batch, base: Rows, x: FeedbagItem)
    requires Inv(b, base) && OnceEach(CellsOf(b))
    ensures OnceEach(CellsOf(Delete(b, x).0))
  {
    var i := First(b, Matching(x), 0);
    if i < |b.items| {
      CellsRemove(b, i);
    }
  }

  /** A free key of a group is no buddy's place in it. */
  lemma FreeInGroup(b: Batch, gid: nat, id: nat)
    requires b.InRange() && (gid, id) !in KeysOf(Items(b))
    ensures id !in Buddies(CellsOf(b), gid)
  {
    forall p <- CellsOf(b) ensures KeyOf(CellsOf(b)[p]) in KeysOf(Items(b)) {
      var j :| 0 <= j < |b.items| && b.items[j] == p;
      KeyIn(Items(b), j);
    }
  }

  lemma AddBuddyOnce(b: Batch, base: Rows, group: Name, buddy: FeedbagItem, num: nat)
    requires Inv(b, base) && Ordered(CellsOf(b)) && OnceEach(CellsOf(b)) && buddy.classID == CLASS_BUDDY && group != []
    requires num < 65535 && AddBuddyKeyed(b, group, buddy, num)
    ensures OnceEach(CellsOf(AddBuddy(b, group, buddy, num).0))
  {
    var m, i := CellsOf(b), First(b, GroupNamed(group), 0);
    AddBuddyOrdered(b, base, group, buddy, num);
    if i < |b.items| {
      var g := b.items[i];
      var x := Normalized(buddy.(groupID := b.heap[g].groupID));
      assert m[g] == b.heap[g];
      if First(b, Matching(x), 0) < |b.items| {
        UpsertOtherOnce(b, base, buddy.(groupID := b.heap[g].groupID), num);
      } else {
        NewBuddyOnce(b, g, x.(itemID := GenID(Used(b), num)));
      }
    }
  }

  lemma NewBuddyOnce(b: Batch, g: Ptr, y: FeedbagItem)
    requires b.InRange() && Ordered(CellsOf(b)) && OnceEach(CellsOf(b)) && |b.heap| !in CellsOf(b)
    requires g in CellsOf(b) && IsGroup(CellsOf(b)[g]) && CellsOf(b)[g].groupID == y.groupID
    requires y.classID == CLASS_BUDDY && y.itemID < 65536 && KeyOf(y) !in KeysOf(Items(b))
    ensures OnceEach(WithBuddy(CellsOf(b), |b.heap|, y, g))
  {
    FreeInGroup(b, y.groupID, y.itemID);
    WithBuddyOnce(CellsOf(b), |b.heap|, y, g);
  }

  lemma DeleteBuddyOnce(b: Batch, base: Rows, group: Name, buddy: Name)
    requires Inv(b, base) && Ordered(CellsOf(b)) && OnceEach(CellsOf(b)) && group != []
    ensures OnceEach(CellsOf(DeleteBuddy(b, group, buddy).0))
  {
    var i := First(b, GroupNamed(group), 0);
    DeleteBuddyOrdered(b, base, group, buddy);
    if i < |b.items| {
      var g := b.items[i];
      var j := First(b, Matching(FeedbagItem(buddy, b.heap[g].groupID, 0, CLASS_BUDDY, [])), 0);
      if j < |b.items| {
        assert CellsOf(b)[g] == b.heap[g];
        WithoutBuddyOnce(CellsOf(b), b.items[j], g);
      }
    }
  }

  lemma AddGroupOnce(b: Batch, base: Rows, name: Name, num: nat)
    requires Inv(b, base) && Ordered(CellsOf(b)) && OnceEach(CellsOf(b)) && name != [] && num < 65535
    requires AddGroupKeyed(b, name, num)
    ensures OnceEach(CellsOf(AddGroup(b, name, num).0))
  {
    AddGroupOrdered(b, base, name, num);
    if First(b, GroupNamed(name), 0) == |b.items| {
      WithRootOrdered(b, base);
      WithRootOnce(b, base);
      NewGroupOnce(WithRoot(b).0, WithRoot(b).1, name, num);
    }
  }

  lemma WithRootOnce(b: Batch, base: Rows)
    requires Inv(b, base) && Ordered(CellsOf(b)) && OnceEach(CellsOf(b)) && RootKeyed(b)
    ensures var (c, r) := WithRoot(b); OnceEach(CellsOf(c)) && r in CellsOf(c) && IsRoot(CellsOf(c)[r])
  {
    WithRootOrdered(b, base);
    assert Members(EMPTY_ROOT) == [];
  }

  lemma NewGroupOnce(b: Batch, r: Ptr, name: Name, num: nat)
    requires b.InRange() && Ordered(CellsOf(b)) && OnceEach(CellsOf(b)) && num < 65535
    requires r in CellsOf(b) && IsRoot(CellsOf(b)[r]) && |b.heap| !in CellsOf(b)
    ensures OnceEach(WithGroup(CellsOf(b), r, |b.heap|, FeedbagItem(name, GenID(Used(b), num), 0, CLASS_GROUP, [])))
  {
    var m, gid := CellsOf(b), GenID(Used(b), num);
    GenIDFresh(b, num);
    forall p <- m | IsGroup(m[p]) ensures m[p].groupID != gid {
      var j :| 0 <= j < |b.items| && b.items[j] == p;
      assert Items(b)[j] == m[p];
    }
    WithGroupOnce(m, r, |b.heap|, FeedbagItem(name, gid, 0, CLASS_GROUP, []));
  }

  lemma DeleteGroupOnce(b: Batch, base: Rows, name: Name)
    requires Inv(b, base) && Ordered(CellsOf(b)) && OnceEach(CellsOf(b)) && name != []
    ensures OnceEach(CellsOf(DeleteGroup(b, name)))
  {
    var i := First(b, GroupNamed(name), 0);
    DeleteGroupOrdered(b, base, name);
    if i < |b.items| {
      WithoutGroupOnce(CellsOf(b), b.heap[b.items[i]].groupID);
    }
  }

  lemma ApplyOnce(b: Batch, base: Rows, op: Op)
    requires Inv(b, base) && Ordered(CellsOf(b)) && OnceEach(CellsOf(b)) && op.Valid() && NamesGroups(op) && Keyed(b, op)
    ensures OnceEach(CellsOf(Apply(b, op)))
  {
    match op
    case SetMode(mode, num) => UpsertOtherOnce(b, base, ModeItem(mode), num);
    case PermitUser(user, num) => UpsertOtherOnce(b, base, Entry(CLASS_PERMIT, user), num);
    case DenyUser(user, num) => UpsertOtherOnce(b, base, Entry(CLASS_DENY, user), num);
    case DeletePermit(user) => DeleteOtherOnce(b, base, Entry(CLASS_PERMIT, user));
    case DeleteDeny(user) => DeleteOtherOnce(b, base, Entry(CLASS_DENY, user));
    case OpAddGroup(name, num) => AddGroupOnce(b, base, name, num);
    case OpDeleteGroup(name) => DeleteGroupOnce(b, base, name);
    case OpAddBuddy(group, user, alias, note, num) => AddBuddyOnce(b, base, group, BuddyItem(user, alias, note), num);
    case OpDeleteBuddy(group, user) => DeleteBuddyOnce(b, base, group, user);
  }

  /** Over the same runs no order comes to name anything twice. */
  lemma {:induction false} OrdersNameOnce(b: Batch, base: Rows, ops: seq<Op>)
    requires Inv(b, base) && Ordered(CellsOf(b)) && OnceEach(CellsOf(b)) && AllValid(ops) && AllKeyed(b, ops)
    requires forall i | 0 <= i < |ops| :: NamesGroups(ops[i])
    ensures OnceEach(CellsOf(Run(b, ops)))
    decreases |ops|
  {
    if ops != [] {
      ApplyOrdered(b, base, ops[0]);
      ApplyOnce(b, base, ops[0]);
      ApplyKeeps(b, base, ops[0]);
      OrdersNameOnce(Apply(b, ops[0]), base, ops[1..]);
    }
  }
}
