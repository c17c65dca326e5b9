/**
 The critical sections of the session manager as methods that change its maps in
 place; each is the step the interleaved system takes. Lock and slot objects live
 in growing tables, so an index is an object's identity.
 */
module SessionManager {
  import opened Wrappers
  import opened Registry

  class InMemorySessionManager {
    var userLocks: map<Name, LockId>
    var locks: seq<Lock>
    var store: map<Name, SlotId>
    var slots: seq<Slot>

    function View(): Shared
      reads this
    {
      Shared(userLocks, locks, store, slots)
    }

    constructor ()
      ensures View() == Shared(map[], [], map[], [])
    {
      userLocks, locks, store, slots := map[], [], map[], [];
    }

    /** `lockUser` up to the point where it blocks on the lock it returns. */
    method RegisterUser(user: Name) returns (lock: LockId)
      requires user in userLocks ==> userLocks[user] < |locks|
      modifies this
      ensures (View(), lock) == Registered(old(View()), user)
    {
      if user in userLocks {
        lock := userLocks[user];
      } else {
        lock := |locks|;
        locks := locks + [Lock(user, 0, None)];
        userLocks := userLocks[user := lock];
      }
      locks := locks[lock := locks[lock].(refCount := locks[lock].refCount + 1)];
      assert user !in old(userLocks) ==> locks == old(locks) + [Lock(user, 1, None)];
    }

    /** `unlockUser`, both halves: nothing interferes while it holds the table's mutex, except a waiter taking the lock. */
    method UnlockUser(user: Name)
      requires user in userLocks ==> userLocks[user] < |locks|
      modifies this
      ensures user !in old(userLocks) ==> View() == old(View())
      ensures user in old(userLocks) ==>
        View() == Dropped(Unlocked(old(View()), old(userLocks)[user]), user, old(userLocks)[user])
    {
      if user !in userLocks {
        return;
      }
      var lock := userLocks[user];
      locks := locks[lock := locks[lock].(holder := None)];
      locks := locks[lock := locks[lock].(refCount := locks[lock].refCount - 1)];
      if locks[lock].refCount == 0 {
        userLocks := userLocks - {user};
      }
    }

    /** `findRec` searches all slots for one whose session has the name; the store has at most one, under that key. */
    method FindRec(user: Name) returns (rec: Option<SlotId>)
      requires StoreOk(View())
      ensures rec == if user in store then Some(store[user]) else None
    {
      var keys := store.Keys;
      while keys != {}
        invariant keys <= store.Keys
        invariant user in store ==> user in keys
        decreases |keys|
      {
        var k :| k in keys;
        if slots[store[k]].user == user {
          return Some(store[k]);
        }
        keys := keys - {k};
      }
      rec := None;
    }

    /** The stored part of `newSession`: the new slot holds a session with its first instance. */
    method NewSession(user: Name, multi: bool) returns (slot: SlotId)
      modifies this
      ensures View() == Inserted(old(View()), user, multi) && slot == |old(slots)|
    {
      slot := |slots|;
      slots := slots + [Slot(user, multi, 0, 1)];
      store := store[user := slot];
    }

    method RemoveSession(slot: SlotId)
      requires slot < |slots|
      modifies this
      ensures View() == Removed(old(View()), slot)
    {
      var user := slots[slot].user;
      if user in store && store[user] == slot {
        store := store - {user};
        slots := slots[slot := slots[slot].(closes := slots[slot].closes + 1)];
      }
    }
  }
}
