/**
 Saving a feedbag list: the pending updates and deletes of any run of
 operations replay on the stored rows (state/user_store.go, FeedbagUpsert and
 FeedbagDelete) to exactly the current list.
 */
module FeedbagReplay {
  import opened ScreenNames
  import opened FeedbagItems
  import opened FeedbagBatch

  type Rows = map<Key, FeedbagItem>

  // ---------------------------------------------------------------- the table

  /** The last position of an item with the key, -1 if there is none. */
  function LastWith(xs: seq<FeedbagItem>, k: Key): (i: int)
    ensures -1 <= i < |xs| && (i >= 0 ==> KeyOf(xs[i]) == k)
    ensures forall j | i < j < |xs| :: KeyOf(xs[j]) != k
  {
    if xs == [] then -1
    else if KeyOf(xs[|xs| - 1]) == k then |xs| - 1
    else LastWith(xs[..|xs| - 1], k)
  }

  /** `FeedbagUpsert`: one row a key; screen names are normalized once more. */
  function Store(rows: Rows, xs: seq<FeedbagItem>): Rows {
    if xs == [] then rows else
    var x := xs[|xs| - 1];
    Store(rows, xs[..|xs| - 1])[KeyOf(x) := Normalized(x)]
  }

  /** `FeedbagDelete`. */
  function Erase(rows: Rows, xs: seq<FeedbagItem>): Rows {
    if xs == [] then rows else Erase(rows, xs[..|xs| - 1]) - {KeyOf(xs[|xs| - 1])}
  }

  function KeysOf(xs: seq<FeedbagItem>): set<Key> {
    set i | 0 <= i < |xs| :: KeyOf(xs[i])
  }

  /** A list of items as a table. */
  function AsRows(xs: seq<FeedbagItem>): Rows {
    map k | k in KeysOf(xs) :: xs[LastWith(xs, k)]
  }

  lemma {:induction false} StoreAt(rows: Rows, xs: seq<FeedbagItem>, k: Key)
    ensures
      var i := LastWith(xs, k);
      if i >= 0 then k in Store(rows, xs) && Store(rows, xs)[k] == Normalized(xs[i])
      else (k in Store(rows, xs) <==> k in rows) && (k in rows ==> Store(rows, xs)[k] == rows[k])
    decreases |xs|
  {
    if xs != [] {
      StoreAt(rows, xs[..|xs| - 1], k);
    }
  }

  lemma {:induction false} EraseAt(rows: Rows, xs: seq<FeedbagItem>, k: Key)
    ensures k in Erase(rows, xs) <==> k in rows && k !in KeysOf(xs)
    ensures k in Erase(rows, xs) ==> Erase(rows, xs)[k] == rows[k]
    decreases |xs|
  {
    if xs != [] {
      var front := xs[..|xs| - 1];
      EraseAt(rows, front, k);
      assert KeysOf(xs) == KeysOf(front) + {KeyOf(xs[|xs| - 1])} by {
        forall i | 0 <= i < |xs| ensures KeyOf(xs[i]) in KeysOf(front) + {KeyOf(xs[|xs| - 1])} {
          assert i < |front| ==> front[i] == xs[i];
        }
        forall i | 0 <= i < |front| ensures KeyOf(front[i]) in KeysOf(xs) {
          assert front[i] == xs[i];
        }
      }
    }
  }

  /** The table of one user, and the two statements that change it. */
  class FeedbagTable {
    var rows: Rows

    method FeedbagUpsert(items: seq<FeedbagItem>)
      modifies this
      ensures rows == Store(old(rows), items)
    {
      for i := 0 to |items|
        invariant rows == Store(old(rows), items[..i])
      {
        var item := items[i];
        if item.classID == CLASS_BUDDY || item.classID == CLASS_PERMIT || item.classID == CLASS_DENY {
          item := item.(name := Ident(item.name));
        }
        rows := rows[KeyOf(item) := item];
        assert items[..i + 1][..i] == items[..i];
      }
      assert items[..|items|] == items;
    }

    method FeedbagDelete(items: seq<FeedbagItem>)
      modifies this
      ensures rows == Erase(old(rows), items)
    {
      for i := 0 to |items|
        invariant rows == Erase(old(rows), items[..i])
      {
        rows := rows - {KeyOf(items[i])};
        assert items[..i + 1][..i] == items[..i];
      }
      assert items[..|items|] == items;
    }
  }

  // ---------------------------------------------------------------- what a batch holds

  function Items(b: Batch): (xs: seq<FeedbagItem>)
    requires b.InRange()
    ensures |xs| == |b.items|
  {
    seq(|b.items|, i requires 0 <= i < |b.items| => b.heap[b.items[i]])
  }

  function Updates(b: Batch): (xs: seq<FeedbagItem>)
    requires b.InRange()
    ensures |xs| == |b.updates|
  {
    seq(|b.updates|, i requires 0 <= i < |b.updates| => b.heap[b.updates[i]])
  }

  function Deletes(b: Batch): (xs: seq<FeedbagItem>)
    requires b.InRange()
    ensures |xs| == |b.deletes|
  {
    seq(|b.deletes|, i requires 0 <= i < |b.deletes| => b.heap[b.deletes[i]])
  }

  /** A list freshly made of stored items. */
  function Fresh(xs: seq<FeedbagItem>): (b: Batch)
    ensures b.InRange() && Items(b) == xs
  {
    Batch(xs, seq(|xs|, i => i), [], [])
  }

  predicate Distinct(xs: seq<FeedbagItem>) {
    forall i, j | 0 <= i < j < |xs| :: KeyOf(xs[i]) != KeyOf(xs[j])
  }

  /** Pointers: deleted items are out of the list, and only items that are or were in it are tracked. */
  predicate Shape(b: Batch) {
    && b.InRange()
    && (forall i, j | 0 <= i < |b.items| && 0 <= j < |b.deletes| :: b.items[i] != b.deletes[j])
    && (forall i | 0 <= i < |b.updates| :: b.updates[i] in b.items || b.updates[i] in b.deletes)
  }

  /** What is not tracked is as stored, and what is stored is still there or deleted. */
  predicate Covers(b: Batch, base: Rows)
    requires b.InRange()
  {
    && (forall i | 0 <= i < |b.items| :: b.items[i] in b.updates || (KeyOf(Items(b)[i]) in base && base[KeyOf(Items(b)[i])] == Items(b)[i]))
    && (forall k <- base :: k in KeysOf(Items(b)) || k in KeysOf(Deletes(b)))
  }

  /** Of two updates with one key the earlier is of a deleted item; a listed item with a deleted key is new. */
  predicate Reborn(b: Batch)
    requires b.InRange()
  {
    && (forall i, j | 0 <= i < j < |b.updates| && KeyOf(Updates(b)[i]) == KeyOf(Updates(b)[j]) :: b.updates[i] !in b.items)
    && (forall i | 0 <= i < |b.items| && KeyOf(Items(b)[i]) in KeysOf(Deletes(b)) :: b.items[i] in b.updates)
  }

  predicate UpdatesNormal(b: Batch)
    requires b.InRange()
  {
    forall i | 0 <= i < |b.updates| :: Normalized(Updates(b)[i]) == Updates(b)[i]
  }

  predicate Inv(b: Batch, base: Rows) {
    && Shape(b)
    && Distinct(Items(b))
    && Covers(b, base)
    && Reborn(b)
    && UpdatesNormal(b)
  }

  // ---------------------------------------------------------------- replaying

  lemma KeyIn(xs: seq<FeedbagItem>, i: int)
    requires 0 <= i < |xs|
    ensures KeyOf(xs[i]) in KeysOf(xs) && LastWith(xs, KeyOf(xs[i])) >= i
  {
  }

  /** A deleted update is known by its key: a listed one by itself. */
  lemma UpdateOf(b: Batch, i: nat)
    requires Shape(b) && Distinct(Items(b)) && i < |b.updates|
    ensures KeyOf(Updates(b)[i]) in KeysOf(Items(b)) || KeyOf(Updates(b)[i]) in KeysOf(Deletes(b))
    ensures KeyOf(Updates(b)[i]) !in KeysOf(Deletes(b)) ==> b.updates[i] in b.items
    ensures b.updates[i] !in b.items ==> KeyOf(Updates(b)[i]) in KeysOf(Deletes(b))
  {
    var p := b.updates[i];
    if p in b.items {
      var j :| 0 <= j < |b.items| && b.items[j] == p;
      KeyIn(Items(b), j);
      assert Items(b)[j] == Updates(b)[i];
    } else {
      var j :| 0 <= j < |b.deletes| && b.deletes[j] == p;
      KeyIn(Deletes(b), j);
      assert Deletes(b)[j] == Updates(b)[i];
    }
  }

  /** No update of another item has the key of a listed one and is listed. */
  lemma OwnKey(b: Batch, i: nat, u: nat)
    requires b.InRange() && Distinct(Items(b)) && i < |b.items| && u < |b.updates|
    requires KeyOf(Updates(b)[u]) == KeyOf(Items(b)[i]) && b.updates[u] in b.items
    ensures b.updates[u] == b.items[i]
  {
    var m :| 0 <= m < |b.items| && b.items[m] == b.updates[u];
    assert Items(b)[m] == Updates(b)[u];
  }

  /** The last update with a listed item's key, if it is of a listed item, is of this one; if this one is tracked, it is last. */
  lemma LastUpdateOf(b: Batch, i: nat)
    requires b.InRange() && Distinct(Items(b)) && Reborn(b) && i < |b.items|
    ensures var u := LastWith(Updates(b), KeyOf(Items(b)[i]));
      && (b.items[i] in b.updates ==> u >= 0 && b.updates[u] == b.items[i])
      && (u >= 0 && b.updates[u] in b.items ==> b.updates[u] == b.items[i])
  {
    var u := LastWith(Updates(b), KeyOf(Items(b)[i]));
    if b.items[i] in b.updates {
      var v :| 0 <= v < |b.updates| && b.updates[v] == b.items[i];
      assert Updates(b)[v] == Items(b)[i];
      KeyIn(Updates(b), v);
    } else if u >= 0 && b.updates[u] in b.items {
      OwnKey(b, i, u);
    }
  }

  /** The row a listed item ends up in after the upserts. */
  lemma StoredItem(b: Batch, base: Rows, i: nat)
    requires Inv(b, base) && i < |b.items|
    requires b.items[i] in b.updates || KeyOf(Items(b)[i]) !in KeysOf(Deletes(b))
    ensures var k := KeyOf(Items(b)[i]); k in Store(base, Updates(b)) && Store(base, Updates(b))[k] == Items(b)[i]
  {
    var k := KeyOf(Items(b)[i]);
    var u := LastWith(Updates(b), k);
    StoreAt(base, Updates(b), k);
    LastUpdateOf(b, i);
    if u >= 0 {
      UpdateOf(b, u);
    }
  }

  /** Nothing else is left after the upserts and the deletes. */
  lemma NothingElseUpserted(b: Batch, base: Rows, k: Key)
    requires Inv(b, base) && k !in KeysOf(Items(b)) && k !in KeysOf(Deletes(b))
    ensures k !in Store(base, Updates(b))
  {
    StoreAt(base, Updates(b), k);
    var u := LastWith(Updates(b), k);
    if u >= 0 {
      UpdateOf(b, u);
    }
  }

  lemma ReplayedRow(b: Batch, base: Rows, k: Key)
    requires Inv(b, base) && KeysOf(Items(b)) !! KeysOf(Deletes(b))
    ensures var saved, wanted := Erase(Store(base, Updates(b)), Deletes(b)), AsRows(Items(b));
      (k in saved <==> k in wanted) && (k in wanted ==> saved[k] == wanted[k])
  {
    EraseAt(Store(base, Updates(b)), Deletes(b), k);
    if k in KeysOf(Items(b)) {
      var i :| 0 <= i < |b.items| && KeyOf(Items(b)[i]) == k;
      KeyIn(Items(b), i);
      StoredItem(b, base, LastWith(Items(b), k));
    } else if k !in KeysOf(Deletes(b)) {
      NothingElseUpserted(b, base, k);
    }
  }

  /**
   Upserting the updates and then deleting the deletes leaves exactly the
   current list, if and only if no listed item has the key of a deleted one.
   */
  lemma UpsertsThenDeletes(b: Batch, base: Rows)
    requires Inv(b, base)
    ensures Erase(Store(base, Updates(b)), Deletes(b)) == AsRows(Items(b)) <==> KeysOf(Items(b)) !! KeysOf(Deletes(b))
  {
    if KeysOf(Items(b)) !! KeysOf(Deletes(b)) {
      forall k { ReplayedRow(b, base, k); }
    } else {
      var k :| k in KeysOf(Items(b)) && k in KeysOf(Deletes(b));
      EraseAt(Store(base, Updates(b)), Deletes(b), k);
      assert k in AsRows(Items(b));
    }
  }

  lemma ReplayedRowDeletesFirst(b: Batch, base: Rows, k: Key)
    requires Inv(b, base) && KeysOf(Updates(b)) <= KeysOf(Items(b))
    ensures var saved, wanted := Store(Erase(base, Deletes(b)), Updates(b)), AsRows(Items(b));
      (k in saved <==> k in wanted) && (k in wanted ==> saved[k] == wanted[k])
  {
    if k in KeysOf(Items(b)) {
      var i :| 0 <= i < |b.items| && KeyOf(Items(b)[i]) == k;
      KeyIn(Items(b), i);
      KeptItem(b, base, LastWith(Items(b), k));
    } else {
      StoreAt(Erase(base, Deletes(b)), Updates(b), k);
      EraseAt(base, Deletes(b), k);
      var u := LastWith(Updates(b), k);
      if u >= 0 {
        KeyIn(Updates(b), u);
      }
    }
  }

  /**
   The other order, which the TOC server uses (server/toc/cmd_client.go): right
   if and only if the key of every update is the key of a listed item.
   */
  lemma DeletesThenUpserts(b: Batch, base: Rows)
    requires Inv(b, base)
    ensures Store(Erase(base, Deletes(b)), Updates(b)) == AsRows(Items(b)) <==> KeysOf(Updates(b)) <= KeysOf(Items(b))
  {
    if KeysOf(Updates(b)) <= KeysOf(Items(b)) {
      forall k { ReplayedRowDeletesFirst(b, base, k); }
    } else {
      var k :| k in KeysOf(Updates(b)) && k !in KeysOf(Items(b));
      var i :| 0 <= i < |b.updates| && KeyOf(Updates(b)[i]) == k;
      StoreAt(Erase(base, Deletes(b)), Updates(b), k);
      KeyIn(Updates(b), i);
      assert k !in AsRows(Items(b));
    }
  }

  lemma KeptItem(b: Batch, base: Rows, i: nat)
    requires Inv(b, base) && i < |b.items|
    ensures var k := KeyOf(Items(b)[i]);
      var saved := Store(Erase(base, Deletes(b)), Updates(b));
      k in saved && saved[k] == Items(b)[i]
  {
    var k := KeyOf(Items(b)[i]);
    StoreAt(Erase(base, Deletes(b)), Updates(b), k);
    EraseAt(base, Deletes(b), k);
    StoreAt(base, Updates(b), k);
    StoredItem(b, base, i);
  }
}
