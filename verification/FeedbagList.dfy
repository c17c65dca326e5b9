/** `FeedbagList` (state/feedbag_list.go); `*wire.FeedbagItem` is an index into the heap of items. */
module FeedbagList {
  import opened Wrappers
  import opened Bytes
  import opened ScreenNames
  import opened Tlv
  import opened FeedbagItems
  import opened FeedbagBatch
  import opened FeedbagReplay

  class List {
    var heap: seq<FeedbagItem>
    var items: seq<Ptr>
    var pendingUpdates: seq<Ptr>
    var pendingDeletes: seq<Ptr>

    ghost function Now(): Batch
      reads this
    {
      Batch(heap, items, pendingUpdates, pendingDeletes)
    }

    ghost predicate Valid()
      reads this
    {
      Now().InRange()
    }

    /** `NewFeedbagList`. */
    constructor (xs: seq<FeedbagItem>)
      ensures Valid() && Now() == Fresh(xs)
    {
      heap := xs;
      items := seq(|xs|, i => i);
      pendingUpdates, pendingDeletes := [], [];
    }

    method GroupByName(name: Name) returns (i: nat)
      requires Valid()
      ensures i == First(Now(), GroupNamed(name), 0)
    {
      i := 0;
      while i < |items|
        invariant i <= |items| && First(Now(), GroupNamed(name), i) == First(Now(), GroupNamed(name), 0)
      {
        if heap[items[i]].classID == CLASS_GROUP && heap[items[i]].name == name {
          return;
        }
        i := i + 1;
      }
    }

    method TrackUpdate(p: Ptr)
      requires Valid() && p < |heap|
      modifies this
      ensures Valid() && Now() == Track(old(Now()), p)
    {
      if p in pendingUpdates {
        return;
      }
      pendingUpdates := pendingUpdates + [p];
    }

    method GenID(num: nat) returns (id: nat)
      requires Valid() && num < 65535
      ensures id == FeedbagBatch.GenID(Used(Now()), num)
    {
      var stop := if num == 0 then 65535 else num - 1;
      id := num;
      while id != stop
        invariant id < 65536 && Probe(Used(Now()), id, stop) == FeedbagBatch.GenID(Used(Now()), num)
        decreases ToGo(id, stop)
      {
        if id != 0 {
          var taken := false;
          var i := 0;
          while i < |items| && !taken
            invariant 0 <= i <= |items|
            invariant taken <==> exists j | 0 <= j < i :: heap[items[j]].groupID == id || heap[items[j]].itemID == id
          {
            taken := heap[items[i]].groupID == id || heap[items[i]].itemID == id;
            i := i + 1;
          }
          UsedIff(Now(), id);
          if !taken {
            return;
          }
        }
        id := if id == 65535 then 0 else id + 1;
      }
      id := 0;
    }

    method ItemsMatch(a: FeedbagItem, b: FeedbagItem) returns (r: bool)
      ensures r == Match(a, b)
    {
      if a.classID != b.classID {
        return false;
      }
      var nameMatch: bool;
      if HasScreenName(a.classID) {
        nameMatch := Ident(a.name) == Ident(b.name);
      } else {
        nameMatch := a.name == b.name;
      }
      if !nameMatch {
        return false;
      }
      if a.classID == CLASS_BUDDY {
        return a.groupID == b.groupID;
      }
      return true;
    }

    method DeleteItem(item: FeedbagItem) returns (deleted: Option<Ptr>)
      requires Valid()
      modifies this
      ensures Valid() && (Now(), deleted) == Delete(old(Now()), item)
    {
      var i := 0;
      while i < |items|
        invariant i <= |items| && Now() == old(Now())
        invariant First(Now(), Matching(item), i) == First(Now(), Matching(item), 0)
      {
        var existing := items[i];
        var matches := ItemsMatch(heap[existing], item);
        if matches {
          pendingDeletes := pendingDeletes + [existing];
          items := items[..i] + items[i + 1..];
          return Some(existing);
        }
        i := i + 1;
      }
      return None;
    }

    method UpsertItem(item: FeedbagItem, num: nat) returns (p: Ptr, inserted: bool)
      requires Valid() && num < 65535
      modifies this
      ensures Valid() && (Now(), p, inserted) == Upsert(old(Now()), item, num)
    {
      var x := item;
      if HasScreenName(item.classID) {
        x := item.(name := Ident(item.name));
      }
      var i := 0;
      while i < |items|
        invariant i <= |items| && Now() == old(Now())
        invariant First(Now(), Matching(x), i) == First(Now(), Matching(x), 0)
      {
        var existing := items[i];
        var matches := ItemsMatch(heap[existing], x);
        if matches {
          if !IsEqual(heap[existing], x) {
            heap := heap[existing := x.(itemID := heap[existing].itemID)];
            TrackUpdate(existing);
          }
          return existing, false;
        }
        i := i + 1;
      }
      var id := GenID(num);
      p, inserted := |heap|, true;
      heap := heap + [x.(itemID := id)];
      items := items + [p];
      pendingUpdates := pendingUpdates + [p];
    }

    /** The root group of the list, appended and tracked if there was none. */
    method RootGroup() returns (root: Ptr)
      requires Valid()
      modifies this
      ensures Valid() && (Now(), root) == WithRoot(old(Now()))
    {
      var i := 0;
      while i < |items|
        invariant i <= |items| && Now() == old(Now())
        invariant First(Now(), IsRoot, i) == First(Now(), IsRoot, 0)
      {
        if heap[items[i]].classID == CLASS_GROUP && heap[items[i]].groupID == 0 {
          return items[i];
        }
        i := i + 1;
      }
      root := |heap|;
      heap := heap + [FeedbagItem([], 0, 0, CLASS_GROUP, [])];
      items := items + [root];
      TrackUpdate(root);
    }

    method AddGroup(name: Name, num: nat) returns (group: Ptr)
      requires Valid() && num < 65535
      modifies this
      ensures Valid() && (Now(), group) == FeedbagBatch.AddGroup(old(Now()), name, num)
    {
      var i := GroupByName(name);
      if i < |items| {
        return items[i];
      }
      var root := RootGroup();
      ghost var rooted := Now();
      var gid := GenID(num);
      var x := FeedbagItem(name, gid, 0, CLASS_GROUP, []);
      group := |heap|;
      heap := heap + [x];
      items := items + [group];
      heap := heap[root := AppendOrderMember(heap[root], gid)];
      TrackUpdate(root);
      TrackUpdate(group);
      assert Now() == Insert(Modify(rooted, root, AppendOrderMember(rooted.heap[root], gid)), x) by {
        GroupAppended(rooted, root, AppendOrderMember(rooted.heap[root], gid), x);
      }
    }

    method DeleteGroup(name: Name)
      requires Valid()
      modifies this
      ensures Valid() && Now() == FeedbagBatch.DeleteGroup(old(Now()), name)
    {
      var g := GroupByName(name);
      if g == |items| {
        return;
      }
      var gid := heap[items[g]].groupID;
      var toDelete := ItemsOf(gid);
      assert items[g] in toDelete;
      DeleteAll(toDelete);
      if toDelete != [] && gid != 0 {
        ForgetInRoots(gid);
      }
    }

    /** The loop that collects the items of a group. */
    method ItemsOf(gid: nat) returns (ps: seq<Ptr>)
      requires Valid()
      ensures ps == InGroup(Now(), items, gid)
    {
      ps := [];
      for i := 0 to |items|
        invariant ps + InGroup(Now(), items[i..], gid) == InGroup(Now(), items, gid)
      {
        assert items[i..][1..] == items[i + 1..];
        if heap[items[i]].groupID == gid {
          ps := ps + [items[i]];
        }
      }
    }

    /** The loop over what is to be deleted: by content, not by pointer. */
    method DeleteAll(toDelete: seq<Ptr>)
      requires Valid() && forall i | 0 <= i < |toDelete| :: toDelete[i] < |heap|
      modifies this
      ensures Valid() && Now() == DeleteEach(old(Now()), toDelete)
    {
      var i := 0;
      while i < |toDelete|
        invariant i <= |toDelete| && Valid() && heap == old(heap)
        invariant DeleteEach(Now(), toDelete[i..]) == DeleteEach(old(Now()), toDelete)
      {
        assert toDelete[i..][0] == toDelete[i] && toDelete[i..][1..] == toDelete[i + 1..];
        var _ := DeleteItem(heap[toDelete[i]]);
        i := i + 1;
      }
    }

    /** The loop that takes a deleted group out of every root's order. */
    method ForgetInRoots(gid: nat)
      requires Valid()
      modifies this
      ensures Valid() && Now() == ForgetGroup(old(Now()), gid, 0)
    {
      var i := 0;
      while i < |items|
        invariant i <= |items| && Valid()
        invariant ForgetGroup(Now(), gid, i) == ForgetGroup(old(Now()), gid, 0)
      {
        var item := items[i];
        if heap[item].classID == CLASS_GROUP && heap[item].groupID == 0 {
          heap := heap[item := RemoveOrderMember(heap[item], gid)];
          TrackUpdate(item);
        }
        i := i + 1;
      }
    }

    /** `None` is the error for an unknown group. */
    method AddBuddy(groupName: Name, screenName: Name, alias: seq<byte>, note: seq<byte>, num: nat) returns (result: Option<bool>)
      requires Valid() && num < 65535
      modifies this
      ensures Valid() && (Now(), result) == FeedbagBatch.AddBuddy(old(Now()), groupName, BuddyItem(screenName, alias, note), num)
    {
      var i := GroupByName(groupName);
      if i == |items| {
        return None;
      }
      var group := items[i];
      var item := FeedbagItem(screenName, heap[group].groupID, 0, CLASS_BUDDY, []);
      if alias != [] {
        item := item.(tlvs := item.tlvs + [Item(ATTR_ALIAS, alias)]);
      }
      if note != [] {
        item := item.(tlvs := item.tlvs + [Item(ATTR_NOTE, note)]);
      }
      assert item == BuddyItem(screenName, alias, note).(groupID := heap[group].groupID);
      var p, inserted := UpsertItem(item, num);
      if inserted {
        heap := heap[group := AppendOrderMember(heap[group], heap[p].itemID)];
        TrackUpdate(group);
      }
      return Some(inserted);
    }

    /** The result is false for an unknown group. */
    method DeleteBuddy(groupName: Name, buddyName: Name) returns (ok: bool)
      requires Valid()
      modifies this
      ensures Valid() && (Now(), ok) == FeedbagBatch.DeleteBuddy(old(Now()), groupName, buddyName)
    {
      var i := GroupByName(groupName);
      if i == |items| {
        return false;
      }
      var group := items[i];
      var deleted := DeleteItem(FeedbagItem(buddyName, heap[group].groupID, 0, CLASS_BUDDY, []));
      if deleted.Some? {
        heap := heap[group := RemoveOrderMember(heap[group], heap[deleted.value].itemID)];
        TrackUpdate(group);
      }
      return true;
    }

    method SetMode(mode: nat, num: nat)
      requires Valid() && mode < 256 && num < 65535
      modifies this
      ensures Valid() && Now() == Apply(old(Now()), Op.SetMode(mode, num))
    {
      var _, _ := UpsertItem(ModeItem(mode), num);
    }

    method PermitUser(screenName: Name, num: nat)
      requires Valid() && num < 65535
      modifies this
      ensures Valid() && Now() == Apply(old(Now()), Op.PermitUser(screenName, num))
    {
      var _, _ := UpsertItem(Entry(CLASS_PERMIT, screenName), num);
    }

    method DenyUser(screenName: Name, num: nat)
      requires Valid() && num < 65535
      modifies this
      ensures Valid() && Now() == Apply(old(Now()), Op.DenyUser(screenName, num))
    {
      var _, _ := UpsertItem(Entry(CLASS_DENY, screenName), num);
    }

    method DeletePermit(screenName: Name)
      requires Valid()
      modifies this
      ensures Valid() && Now() == Apply(old(Now()), Op.DeletePermit(screenName))
    {
      var _ := DeleteItem(Entry(CLASS_PERMIT, screenName));
    }

    method DeleteDeny(screenName: Name)
      requires Valid()
      modifies this
      ensures Valid() && Now() == Apply(old(Now()), Op.DeleteDeny(screenName))
    {
      var _ := DeleteItem(Entry(CLASS_DENY, screenName));
    }

    /**
     Copies of the tracked items as they are now; the list of them is cleared. In
     the source a copy shares its attributes with the list, which a later order
     change overwrites: these are the values for a caller that uses them before.
     */
    method PendingUpdates() returns (result: seq<FeedbagItem>)
      requires Valid()
      modifies this
      ensures Valid() && result == Updates(old(Now())) && Now() == old(Now()).(updates := [])
    {
      result := [];
      for i := 0 to |pendingUpdates|
        invariant result == Updates(Now())[..i]
      {
        result := result + [heap[pendingUpdates[i]]];
      }
      pendingUpdates := [];
    }

    method PendingDeletes() returns (result: seq<FeedbagItem>)
      requires Valid()
      modifies this
      ensures Valid() && result == Deletes(old(Now())) && Now() == old(Now()).(deletes := [])
    {
      result := [];
      for i := 0 to |pendingDeletes|
        invariant result == Deletes(Now())[..i]
      {
        result := result + [heap[pendingDeletes[i]]];
      }
      pendingDeletes := [];
    }
  }

  /** Appending a group and then extending the root's order, or the other way around. */
  lemma GroupAppended(b: Batch, root: Ptr, y: FeedbagItem, x: FeedbagItem)
    requires b.InRange() && root < |b.heap|
    ensures var c := b.(heap := (b.heap + [x])[root := y], items := b.items + [|b.heap|]);
      Track(Track(c, root), |b.heap|) == Insert(Modify(b, root, y), x)
  {
    assert (b.heap + [x])[root := y] == b.heap[root := y] + [x];
    assert |b.heap| !in b.updates;
  }
}
