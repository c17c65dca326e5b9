/**
 What the operations of a feedbag list do (state/feedbag_list.go). Items are
 shared by pointer between the list and the pending updates and deletes; a
 pointer is an index into the heap of item structs.
 */
module FeedbagBatch {
  import opened Wrappers
  import opened Bytes
  import opened Counting
  import opened ScreenNames
  import opened Tlv
  import opened FeedbagItems

  type Ptr = nat

  datatype Batch = Batch(heap: seq<FeedbagItem>, items: seq<Ptr>, updates: seq<Ptr>, deletes: seq<Ptr>) {
    predicate InRange() {
      && (forall i | 0 <= i < |items| :: items[i] < |heap|)
      && (forall i | 0 <= i < |updates| :: updates[i] < |heap|)
      && (forall i | 0 <= i < |deletes| :: deletes[i] < |heap|)
    }
  }

  // ---------------------------------------------------------------- IDs

  function GroupIDs(b: Batch): (ids: seq<nat>)
    requires b.InRange()
    ensures |ids| == |b.items|
  {
    seq(|b.items|, i requires 0 <= i < |b.items| => b.heap[b.items[i]].groupID)
  }

  function ItemIDs(b: Batch): (ids: seq<nat>)
    requires b.InRange()
    ensures |ids| == |b.items|
  {
    seq(|b.items|, i requires 0 <= i < |b.items| => b.heap[b.items[i]].itemID)
  }

  /** Item and group IDs in use. */
  function Used(b: Batch): (s: set<nat>)
    requires b.InRange()
  {
    Elements(GroupIDs(b)) + Elements(ItemIDs(b))
  }

  lemma UsedIff(b: Batch, id: nat)
    requires b.InRange()
    ensures id in Used(b) <==> exists i | 0 <= i < |b.items| ::
      b.heap[b.items[i]].groupID == id || b.heap[b.items[i]].itemID == id
  {
    forall i | 0 <= i < |b.items| && (b.heap[b.items[i]].groupID == id || b.heap[b.items[i]].itemID == id)
      ensures id in Used(b)
    {
      assert GroupIDs(b)[i] == id || ItemIDs(b)[i] == id;
    }
  }

  function Elements(xs: seq<nat>): set<nat> {
    set i | 0 <= i < |xs| :: xs[i]
  }

  lemma UnionSize(a: set<nat>, b: set<nat>)
    ensures |a + b| <= |a| + |b|
  {
    assert a + b == a + (b - a);
    assert |a + (b - a)| == |a| + |b - a|;
    SubsetSize(b - a, b);
  }

  lemma {:induction false} ElementsSize(xs: seq<nat>)
    ensures |Elements(xs)| <= |xs|
  {
    if xs == [] {
      assert Elements(xs) == {};
    } else {
      ElementsSize(xs[1..]);
      assert Elements(xs) == Elements(xs[1..]) + {xs[0]};
      UnionSize(Elements(xs[1..]), {xs[0]});
    }
  }

  /** How far `id` is from where the search stops, going up and around. */
  function ToGo(id: nat, stop: nat): nat
    requires id < 65536 && stop < 65536
  {
    if id <= stop then stop - id else stop + 65536 - id
  }

  /** The search of `genID` from `id` on: uint16 arithmetic wraps, 0 is skipped, `stop` is not tried. */
  function Probe(used: set<nat>, id: nat, stop: nat): (r: nat)
    requires id < 65536 && stop < 65536
    ensures r < 65536 && (r != 0 ==> r !in used && r != stop)
    decreases ToGo(id, stop)
  {
    if id == stop then 0
    else if id != 0 && id !in used then id
    else Probe(used, if id == 65535 then 0 else id + 1, stop)
  }

  /** `genID` with the random number `num` it drew. */
  function GenID(used: set<nat>, num: nat): (r: nat)
    requires num < 65535
    ensures r < 65536 && (r != 0 ==> r !in used)
  {
    Probe(used, num, if num == 0 then 65535 else num - 1)
  }

  lemma {:induction false} ProbeFails(used: set<nat>, id: nat, stop: nat, k: nat)
    requires id < 65536 && stop < 65536 && Probe(used, id, stop) == 0
    requires k < 65536 && k != 0 && k != stop && ToGo(k, stop) <= ToGo(id, stop)
    ensures k in used
    decreases ToGo(id, stop)
  {
    if id != k {
      ProbeFails(used, if id == 65535 then 0 else id + 1, stop, k);
    }
  }

  lemma {:induction false} ProbeSucceeds(used: set<nat>, id: nat, stop: nat)
    requires id < 65536 && stop < 65536 && Probe(used, id, stop) != 0
    ensures var r := Probe(used, id, stop); 1 <= r <= 65535 && r != stop && r !in used
    decreases ToGo(id, stop)
  {
    if !(id != 0 && id !in used) {
      ProbeSucceeds(used, if id == 65535 then 0 else id + 1, stop);
    }
  }

  /** The search comes back empty-handed exactly when every ID but the one before the start is taken. */
  lemma GenIDFailsIff(used: set<nat>, num: nat)
    requires num < 65535
    ensures GenID(used, num) == 0 <==> forall k | 1 <= k <= 65535 && k != num - 1 && !(num == 0 && k == 65535) :: k in used
  {
    var stop := if num == 0 then 65535 else num - 1;
    if GenID(used, num) == 0 {
      forall k | 1 <= k <= 65535 && k != stop ensures k in used {
        ProbeFails(used, num, stop, k);
      }
    } else {
      ProbeSucceeds(used, num, stop);
    }
  }

  /** The search goes up from its start, around the end: everything it passes is 0 or taken. */
  lemma {:induction false} ProbeIsNext(used: set<nat>, id: nat, stop: nat, k: nat)
    requires id < 65536 && stop < 65536 && k < 65536 && Probe(used, id, stop) != 0
    requires ToGo(Probe(used, id, stop), stop) < ToGo(k, stop) <= ToGo(id, stop)
    ensures k == 0 || k in used
    decreases ToGo(id, stop)
  {
    if id != k {
      ProbeIsNext(used, if id == 65535 then 0 else id + 1, stop, k);
    }
  }

  /** So the drawn number itself is the ID if it is free, and otherwise the next free one. */
  lemma GenIDIsNext(used: set<nat>, num: nat, k: nat)
    requires num < 65535 && GenID(used, num) != 0
    ensures var id := GenID(used, num);
      && id !in used
      && (num <= k < id || (id < num && (num <= k < 65536 || 1 <= k < id)) ==> k == 0 || k in used)
  {
    var stop := if num == 0 then 65535 else num - 1;
    ProbeSucceeds(used, num, stop);
    if num <= k < GenID(used, num) || (GenID(used, num) < num && (num <= k < 65536 || 1 <= k < GenID(used, num))) {
      ProbeIsNext(used, num, stop, k);
    }
  }

  lemma TakenSize(used: set<nat>, n: nat, stop: nat)
    requires n > 0 && forall k | 1 <= k <= n && k != stop :: k in used
    ensures |used| >= n - 1
  {
    var others := UpTo(n) - {stop};
    SubsetSize(UpTo(n), others + {stop});
    UnionSize(others, {stop});
    SubsetSize(others, used);
  }

  /** By counting: a list of at most 32766 items leaves an ID to find. */
  lemma GenIDFinds(b: Batch, num: nat)
    requires b.InRange() && num < 65535 && |b.items| <= 32766
    ensures GenID(Used(b), num) != 0
  {
    ElementsSize(GroupIDs(b));
    ElementsSize(ItemIDs(b));
    UnionSize(Elements(GroupIDs(b)), Elements(ItemIDs(b)));
    if GenID(Used(b), num) == 0 {
      GenIDFailsIff(Used(b), num);
      TakenSize(Used(b), 65535, if num == 0 then 65535 else num - 1);
    }
  }

  // ---------------------------------------------------------------- changes to a batch

  /** `trackUpdate`. */
  function Track(b: Batch, p: Ptr): Batch {
    if p in b.updates then b else b.(updates := b.updates + [p])
  }

  /** Overwrites the struct behind a pointer and tracks it. */
  function Modify(b: Batch, p: Ptr, x: FeedbagItem): Batch
    requires p < |b.heap|
  {
    Track(b.(heap := b.heap[p := x]), p)
  }

  /** A new tracked item at the end of the list. */
  function Insert(b: Batch, x: FeedbagItem): Batch {
    Batch(b.heap + [x], b.items + [|b.heap|], b.updates + [|b.heap|], b.deletes)
  }

  /** The item at a position moves to the pending deletes. */
  function RemoveAt(b: Batch, i: nat): Batch
    requires i < |b.items|
  {
    b.(items := b.items[..i] + b.items[i + 1..], deletes := b.deletes + [b.items[i]])
  }

  // ---------------------------------------------------------------- searches

  /** The first position from `i` on whose item satisfies the test, or the length of the list. */
  function First(b: Batch, test: FeedbagItem -> bool, i: nat): (k: nat)
    requires b.InRange() && i <= |b.items|
    ensures i <= k <= |b.items|
    ensures k < |b.items| ==> test(b.heap[b.items[k]])
    ensures forall j | i <= j < k :: !test(b.heap[b.items[j]])
    decreases |b.items| - i
  {
    if i == |b.items| || test(b.heap[b.items[i]]) then i else First(b, test, i + 1)
  }

  function Matching(x: FeedbagItem): FeedbagItem -> bool {
    (y: FeedbagItem) => Match(y, x)
  }

  function GroupNamed(name: Name): FeedbagItem -> bool {
    (y: FeedbagItem) => y.classID == CLASS_GROUP && y.name == name
  }

  predicate IsRoot(y: FeedbagItem) {
    y.classID == CLASS_GROUP && y.groupID == 0
  }

  // ---------------------------------------------------------------- operations

  /** A screen name is normalized before an item is stored. */
  function Normalized(x: FeedbagItem): FeedbagItem {
    if HasScreenName(x.classID) then x.(name := Ident(x.name)) else x
  }

  /** `upsertItem`; the pointer is to the stored item, the flag says whether it is new. */
  function Upsert(b: Batch, item: FeedbagItem, num: nat): (r: (Batch, Ptr, bool))
    requires b.InRange() && num < 65535
    ensures r.0.InRange() && r.1 < |r.0.heap|
  {
    var x := Normalized(item);
    var i := First(b, Matching(x), 0);
    if i < |b.items| then
      var p := b.items[i];
      if IsEqual(b.heap[p], x) then (b, p, false)
      else (Modify(b, p, x.(itemID := b.heap[p].itemID)), p, false)
    else (Insert(b, x.(itemID := GenID(Used(b), num))), |b.heap|, true)
  }

  /** `deleteItem`; the pointer is to the deleted item. */
  function Delete(b: Batch, x: FeedbagItem): (r: (Batch, Option<Ptr>))
    requires b.InRange()
    ensures r.0.InRange() && r.0.heap == b.heap && (r.1.Some? ==> r.1.value < |b.heap|)
  {
    var i := First(b, Matching(x), 0);
    if i < |b.items| then (RemoveAt(b, i), Some(b.items[i])) else (b, None)
  }

  function DeleteEach(b: Batch, ps: seq<Ptr>): (r: Batch)
    requires b.InRange() && forall i | 0 <= i < |ps| :: ps[i] < |b.heap|
    ensures r.InRange() && r.heap == b.heap
    decreases |ps|
  {
    if ps == [] then b else DeleteEach(Delete(b, b.heap[ps[0]]).0, ps[1..])
  }

  /** The items of a group, in list order. */
  function InGroup(b: Batch, items: seq<Ptr>, gid: nat): (ps: seq<Ptr>)
    requires forall i | 0 <= i < |items| :: items[i] < |b.heap|
    ensures forall p :: p in ps <==> p in items && b.heap[p].groupID == gid
    ensures forall i | 0 <= i < |ps| :: ps[i] < |b.heap|
  {
    if items == [] then []
    else (if b.heap[items[0]].groupID == gid then [items[0]] else []) + InGroup(b, items[1..], gid)
  }

  /** Every root group from position `i` on forgets a member. */
  function ForgetGroup(b: Batch, gid: nat, i: nat): (r: Batch)
    requires b.InRange() && i <= |b.items|
    ensures r.InRange() && r.items == b.items && r.deletes == b.deletes && |r.heap| == |b.heap|
    decreases |b.items| - i
  {
    if i == |b.items| then b else ForgetGroup(ForgetOne(b, gid, i), gid, i + 1)
  }

  function ForgetOne(b: Batch, gid: nat, i: nat): (r: Batch)
    requires b.InRange() && i < |b.items|
    ensures r.InRange() && r.items == b.items && r.deletes == b.deletes && |r.heap| == |b.heap|
  {
    var p := b.items[i];
    if IsRoot(b.heap[p]) then Modify(b, p, RemoveOrderMember(b.heap[p], gid)) else b
  }

  /** The root group, made if there is none. */
  function WithRoot(b: Batch): (r: (Batch, Ptr))
    requires b.InRange()
    ensures r.0.InRange() && r.1 < |r.0.heap| && r.1 in r.0.items && IsRoot(r.0.heap[r.1])
  {
    var i := First(b, IsRoot, 0);
    if i < |b.items| then (b, b.items[i])
    else
      var b' := Insert(b, FeedbagItem([], 0, 0, CLASS_GROUP, []));
      assert b'.items[|b.items|] == |b.heap|;
      (b', |b.heap|)
  }

  function AddGroup(b: Batch, name: Name, num: nat): (r: (Batch, Ptr))
    requires b.InRange() && num < 65535
    ensures r.0.InRange() && r.1 < |r.0.heap|
  {
    var i := First(b, GroupNamed(name), 0);
    if i < |b.items| then (b, b.items[i]) else
    var (b1, root) := WithRoot(b);
    var gid := GenID(Used(b1), num);
    var b2 := Modify(b1, root, AppendOrderMember(b1.heap[root], gid));
    (Insert(b2, FeedbagItem(name, gid, 0, CLASS_GROUP, [])), |b2.heap|)
  }

  function DeleteGroup(b: Batch, name: Name): (r: Batch)
    requires b.InRange()
    ensures r.InRange()
  {
    var i := First(b, GroupNamed(name), 0);
    if i == |b.items| then b else
    var gid := b.heap[b.items[i]].groupID;
    var b' := DeleteEach(b, InGroup(b, b.items, gid));
    if gid != 0 then ForgetGroup(b', gid, 0) else b'
  }

  function BuddyItem(screenName: Name, alias: seq<byte>, note: seq<byte>): FeedbagItem {
    FeedbagItem(screenName, 0, 0, CLASS_BUDDY,
      (if alias != [] then [Item(ATTR_ALIAS, alias)] else []) + (if note != [] then [Item(ATTR_NOTE, note)] else []))
  }

  /** `None` is the error for an unknown group. */
  function AddBuddy(b: Batch, group: Name, buddy: FeedbagItem, num: nat): (r: (Batch, Option<bool>))
    requires b.InRange() && num < 65535
    ensures r.0.InRange()
  {
    var i := First(b, GroupNamed(group), 0);
    if i == |b.items| then (b, None) else
    var g := b.items[i];
    var (b', p, inserted) := Upsert(b, buddy.(groupID := b.heap[g].groupID), num);
    if inserted then (Modify(b', g, AppendOrderMember(b'.heap[g], b'.heap[p].itemID)), Some(true))
    else (b', Some(false))
  }

  function DeleteBuddy(b: Batch, group: Name, buddy: Name): (r: (Batch, bool))
    requires b.InRange()
    ensures r.0.InRange()
  {
    var i := First(b, GroupNamed(group), 0);
    if i == |b.items| then (b, false) else
    var g := b.items[i];
    var (b', d) := Delete(b, FeedbagItem(buddy, b.heap[g].groupID, 0, CLASS_BUDDY, []));
    if d.Some? then (Modify(b', g, RemoveOrderMember(b'.heap[g], b'.heap[d.value].itemID)), true) else (b', true)
  }

  datatype Op =
    | SetMode(mode: nat, num: nat)
    | PermitUser(user: Name, num: nat)
    | DenyUser(user: Name, num: nat)
    | DeletePermit(user: Name)
    | DeleteDeny(user: Name)
    | OpAddGroup(name: Name, num: nat)
    | OpDeleteGroup(name: Name)
    | OpAddBuddy(group: Name, user: Name, alias: seq<byte>, note: seq<byte>, num: nat)
    | OpDeleteBuddy(group: Name, user: Name)
  {
    predicate Valid() {
      (SetMode? ==> mode < 256)
      && (SetMode? || PermitUser? || DenyUser? || OpAddGroup? || OpAddBuddy? ==> num < 65535)
    }
  }

  function Entry(classID: nat, user: Name): FeedbagItem {
    FeedbagItem(user, 0, 0, classID, [])
  }

  function ModeItem(mode: nat): FeedbagItem
    requires mode < 256
  {
    FeedbagItem([], 0, 0, CLASS_PDINFO, [Item(ATTR_PD_MODE, [mode])])
  }

  function Apply(b: Batch, op: Op): (r: Batch)
    requires b.InRange() && op.Valid()
    ensures r.InRange()
  {
    match op
    case SetMode(mode, num) => Upsert(b, ModeItem(mode), num).0
    case PermitUser(user, num) => Upsert(b, Entry(CLASS_PERMIT, user), num).0
    case DenyUser(user, num) => Upsert(b, Entry(CLASS_DENY, user), num).0
    case DeletePermit(user) => Delete(b, Entry(CLASS_PERMIT, user)).0
    case DeleteDeny(user) => Delete(b, Entry(CLASS_DENY, user)).0
    case OpAddGroup(name, num) => AddGroup(b, name, num).0
    case OpDeleteGroup(name) => DeleteGroup(b, name)
    case OpAddBuddy(group, user, alias, note, num) => AddBuddy(b, group, BuddyItem(user, alias, note), num).0
    case OpDeleteBuddy(group, user) => DeleteBuddy(b, group, user).0
  }
}
