/** Feedbag items and their order attribute (wire/snacs.go). */
module FeedbagItems {
  import opened Wrappers
  import opened Bytes
  import opened ScreenNames
  import opened Tlv

  const CLASS_BUDDY: nat := 0
  const CLASS_GROUP: nat := 1
  const CLASS_PERMIT: nat := 2
  const CLASS_DENY: nat := 3
  const CLASS_PDINFO: nat := 4

  const ATTR_ORDER: nat := 0x00C8
  const ATTR_PD_MODE: nat := 0x00CA
  const ATTR_ALIAS: nat := 0x0131
  const ATTR_NOTE: nat := 0x013C

  datatype FeedbagItem = FeedbagItem(name: Name, groupID: nat, itemID: nat, classID: nat, tlvs: seq<Item>)

  type Key = (nat, nat)

  function KeyOf(x: FeedbagItem): Key { (x.groupID, x.itemID) }

  /** `IsEqual` compares everything but the item ID. */
  predicate IsEqual(x: FeedbagItem, y: FeedbagItem) {
    x.name == y.name && x.groupID == y.groupID && x.classID == y.classID && x.tlvs == y.tlvs
  }

  predicate HasScreenName(classID: nat) {
    classID == CLASS_BUDDY || classID == CLASS_PERMIT || classID == CLASS_DENY
  }

  /** `itemsMatch`: class and name, and for buddies the group. */
  predicate Match(a: FeedbagItem, b: FeedbagItem) {
    && a.classID == b.classID
    && (if HasScreenName(a.classID) then Ident(a.name) == Ident(b.name) else a.name == b.name)
    && (a.classID == CLASS_BUDDY ==> a.groupID == b.groupID)
  }

  // ---------------------------------------------------------------- the order attribute

  /** `Uint16SliceBE`: two bytes an ID; an odd byte at the end is ignored. */
  function Ids(bs: seq<byte>): (ids: seq<nat>)
    ensures forall i | 0 <= i < |ids| :: ids[i] < 65536
  {
    if |bs| < 2 then [] else
    TwoBytes();
    [GetBE(bs[..2])] + Ids(bs[2..])
  }

  function PutIds(ids: seq<nat>): seq<byte> {
    if ids == [] then [] else PutBE(ids[0], 2) + PutIds(ids[1..])
  }

  lemma {:induction false} IdsPutIds(ids: seq<nat>)
    requires forall i | 0 <= i < |ids| :: ids[i] < 65536
    ensures Ids(PutIds(ids)) == ids
    decreases |ids|
  {
    if ids != [] {
      TwoBytes();
      PutGet(ids[0], 2, BigEndian);
      IdsPutIds(ids[1..]);
      assert PutIds(ids)[..2] == PutBE(ids[0], 2) && PutIds(ids)[2..] == PutIds(ids[1..]);
    }
  }

  function Lookup(tlvs: seq<Item>, tag: nat): Option<seq<byte>> {
    if tlvs == [] then None else if tlvs[0].tag == tag then Some(tlvs[0].value) else Lookup(tlvs[1..], tag)
  }

  /** `TLVList.Replace`: every TLV with the tag gets the value. */
  function Replace(tlvs: seq<Item>, t: Item): seq<Item> {
    if tlvs == [] then []
    else [if tlvs[0].tag == t.tag then tlvs[0].(value := t.value) else tlvs[0]] + Replace(tlvs[1..], t)
  }

  lemma {:induction false} LookupReplaced(tlvs: seq<Item>, t: Item)
    requires Lookup(tlvs, t.tag).Some?
    ensures Lookup(Replace(tlvs, t), t.tag) == Some(t.value)
    decreases |tlvs|
  {
    if tlvs[0].tag != t.tag {
      LookupReplaced(tlvs[1..], t);
      assert Replace(tlvs, t)[1..] == Replace(tlvs[1..], t);
    }
  }

  lemma {:induction false} LookupAppended(tlvs: seq<Item>, t: Item)
    requires Lookup(tlvs, t.tag).None?
    ensures Lookup(tlvs + [t], t.tag) == Some(t.value)
    decreases |tlvs|
  {
    if tlvs != [] {
      LookupAppended(tlvs[1..], t);
      assert (tlvs + [t])[1..] == tlvs[1..] + [t];
    }
  }

  /** The IDs the item orders: none if it has no order attribute. */
  function Members(x: FeedbagItem): (ids: seq<nat>)
    ensures forall i | 0 <= i < |ids| :: ids[i] < 65536
  {
    var bs := Lookup(x.tlvs, ATTR_ORDER);
    if bs.Some? then Ids(bs.value) else []
  }

  function Filtered(ids: seq<nat>, id: nat): (r: seq<nat>)
    ensures forall x :: x in r <==> x in ids && x != id
    ensures (forall i | 0 <= i < |ids| :: ids[i] < 65536) ==> forall i | 0 <= i < |r| :: r[i] < 65536
  {
    if ids == [] then [] else (if ids[0] == id then [] else [ids[0]]) + Filtered(ids[1..], id)
  }

  function AppendOrderMember(x: FeedbagItem, id: nat): FeedbagItem {
    var order := Item(ATTR_ORDER, PutIds(Members(x) + [id]));
    if Lookup(x.tlvs, ATTR_ORDER).Some? then x.(tlvs := Replace(x.tlvs, order)) else x.(tlvs := x.tlvs + [order])
  }

  function RemoveOrderMember(x: FeedbagItem, id: nat): FeedbagItem {
    if Lookup(x.tlvs, ATTR_ORDER).None? then x
    else x.(tlvs := Replace(x.tlvs, Item(ATTR_ORDER, PutIds(Filtered(Members(x), id)))))
  }

  lemma AppendedMembers(x: FeedbagItem, id: nat)
    requires id < 65536
    ensures Members(AppendOrderMember(x, id)) == Members(x) + [id]
  {
    var ids := Members(x) + [id];
    IdsPutIds(ids);
    var order := Item(ATTR_ORDER, PutIds(ids));
    if Lookup(x.tlvs, ATTR_ORDER).Some? {
      LookupReplaced(x.tlvs, order);
    } else {
      LookupAppended(x.tlvs, order);
    }
  }

  lemma RemovedMembers(x: FeedbagItem, id: nat)
    ensures Members(RemoveOrderMember(x, id)) == Filtered(Members(x), id)
  {
    if Lookup(x.tlvs, ATTR_ORDER).Some? {
      IdsPutIds(Filtered(Members(x), id));
      LookupReplaced(x.tlvs, Item(ATTR_ORDER, PutIds(Filtered(Members(x), id))));
    }
  }
}
