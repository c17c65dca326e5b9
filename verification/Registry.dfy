/**
 The session registry of state/session_manager.go as an interleaved system: any
 number of threads run `AddSession` one atomic step at a time, while sessions are
 removed and instances closed at any moment.

 An atomic step is what happens inside one critical section of the source (the
 user-lock table's mutex, the store's mutex, a session's mutex) or one blocking
 operation that gets through (a lock acquired, a channel found closed).
 */
module Registry {
  import opened Wrappers

  type Name = string
  type Tid = nat
  type LockId = nat
  type SlotId = nat

  const MAX_CONCURRENT_SESSIONS: nat := 5

  /** A user lock object; `user` records the screen name it was created for. */
  datatype Lock = Lock(user: Name, refCount: int, holder: Option<Tid>)

  /** A slot and its session. `closes` counts how often the `removed` channel was closed. */
  datatype Slot = Slot(user: Name, multi: bool, closes: nat, instances: nat)

  /** Where a thread inside `AddSession` is. */
  datatype Point =
    | Blocked                  // in lockUser, registered and waiting for the lock
    | Find                     // about to look up the active slot
    | CloseOld(prior: SlotId)    // about to close the session it found
    | Await(prior: SlotId)       // waiting for the old slot's removed channel
    | CountInstances(slot: SlotId)
    | Join(slot: SlotId)       // about to add an instance to a session with room
    | Create                   // about to store a new slot
    | Leave                    // about to call unlockUser
    | Releasing                // inside unlockUser, the lock released but still counted

  datatype Thread = Idle | Busy(user: Name, multi: bool, lock: LockId, at: Point)

  /** What the threads share. Lock and slot objects are never reused; the maps say which are current. */
  datatype Shared = Shared(userLocks: map<Name, LockId>, locks: seq<Lock>, store: map<Name, SlotId>, slots: seq<Slot>)

  datatype State = State(sh: Shared, mutex: Option<Tid>, threads: map<Tid, Thread>)

  datatype Step =
    | Register(t: Tid, user: Name, multi: bool)  // lockUser up to lock.Lock()
    | Acquire(t: Tid)                            // lock.Lock() returns
    | Look(t: Tid)                               // findRec
    | Close(t: Tid)                              // CloseSession returns
    | Wake(t: Tid)                               // <-active.removed
    | GiveUp(t: Tid)                             // <-ctx.Done()
    | Count(t: Tid)                              // InstanceCount() compared with the maximum
    | Add(t: Tid)                                // AddInstance()
    | Insert(t: Tid)                             // newSession
    | Release(t: Tid)                            // unlockUser: lock.Unlock()
    | Drop(t: Tid)                               // unlockUser: refCount--, delete
    | Remove(slot: SlotId)                       // RemoveSession, by anybody, at any time
    | CloseInstance(slot: SlotId)                // an instance of the session goes away

  // ---------------------------------------------------------------- critical sections

  /** `lockUser`: finds or makes the user's lock object and counts the caller in. */
  function Registered(sh: Shared, user: Name): (r: (Shared, LockId))
    requires user in sh.userLocks ==> sh.userLocks[user] < |sh.locks|
  {
    if user in sh.userLocks then
      var l := sh.userLocks[user];
      (sh.(locks := sh.locks[l := sh.locks[l].(refCount := sh.locks[l].refCount + 1)]), l)
    else
      var l := |sh.locks|;
      (sh.(locks := sh.locks + [Lock(user, 1, None)], userLocks := sh.userLocks[user := l]), l)
  }

  /** `unlockUser`: the lock it finds under the name loses its holder. */
  function Unlocked(sh: Shared, l: LockId): Shared
    requires l < |sh.locks|
  {
    sh.(locks := sh.locks[l := sh.locks[l].(holder := None)])
  }

  /** `unlockUser`: counted out, and the table entry deleted with the last one. */
  function Dropped(sh: Shared, user: Name, l: LockId): Shared
    requires l < |sh.locks|
  {
    var sh' := sh.(locks := sh.locks[l := sh.locks[l].(refCount := sh.locks[l].refCount - 1)]);
    if sh'.locks[l].refCount == 0 then sh'.(userLocks := sh'.userLocks - {user}) else sh'
  }

  /** `newSession`: a fresh slot with one instance replaces whatever is stored under the name. */
  function Inserted(sh: Shared, user: Name, multi: bool): Shared {
    sh.(slots := sh.slots + [Slot(user, multi, 0, 1)], store := sh.store[user := |sh.slots|])
  }

  /** `RemoveSession`: only the slot that is stored for this very session is deleted and its channel closed. */
  function Removed(sh: Shared, s: SlotId): Shared
    requires s < |sh.slots|
  {
    var slot := sh.slots[s];
    if slot.user in sh.store && sh.store[slot.user] == s then
      sh.(store := sh.store - {slot.user}, slots := sh.slots[s := slot.(closes := slot.closes + 1)])
    else sh
  }

  function WithInstances(sh: Shared, s: SlotId, n: nat): Shared
    requires s < |sh.slots|
  {
    sh.(slots := sh.slots[s := sh.slots[s].(instances := n)])
  }

  // ---------------------------------------------------------------- steps

  predicate At(s: State, t: Tid) {
    t in s.threads && s.threads[t].Busy? && s.threads[t].lock < |s.sh.locks|
  }

  function Goto(s: State, t: Tid, p: Point): State
    requires At(s, t)
  {
    s.(threads := s.threads[t := s.threads[t].(at := p)])
  }

  predicate Enabled(s: State, step: Step) {
    match step
    case Register(t, user, _) =>
      t in s.threads && s.threads[t].Idle? && s.mutex.None?
      && (user in s.sh.userLocks ==> s.sh.userLocks[user] < |s.sh.locks|)
    case Acquire(t) => At(s, t) && s.threads[t].at.Blocked? && s.sh.locks[s.threads[t].lock].holder.None?
    case Look(t) => At(s, t) && s.threads[t].at.Find?
    case Close(t) => At(s, t) && s.threads[t].at.CloseOld?
    case Wake(t) => At(s, t) && s.threads[t].at.Await? && s.threads[t].at.prior < |s.sh.slots|
                    && s.sh.slots[s.threads[t].at.prior].closes > 0
    case GiveUp(t) => At(s, t) && s.threads[t].at.Await?
    case Count(t) => At(s, t) && s.threads[t].at.CountInstances? && s.threads[t].at.slot < |s.sh.slots|
    case Add(t) => At(s, t) && s.threads[t].at.Join? && s.threads[t].at.slot < |s.sh.slots|
    case Insert(t) => At(s, t) && s.threads[t].at.Create?
    case Release(t) => At(s, t) && s.threads[t].at.Leave? && s.mutex.None?
                       && (s.threads[t].user in s.sh.userLocks ==> s.sh.userLocks[s.threads[t].user] < |s.sh.locks|)
    case Drop(t) => At(s, t) && s.threads[t].at.Releasing? && s.mutex == Some(t)
    case Remove(slot) => slot < |s.sh.slots|
    case CloseInstance(slot) => slot < |s.sh.slots| && s.sh.slots[slot].instances > 0
  }

  /** What `AddSession` does with the slot it found. */
  function AfterLook(sh: Shared, user: Name, multi: bool): Point {
    if user !in sh.store then Create
    else
      var s := sh.store[user];
      if multi && s < |sh.slots| && sh.slots[s].multi then CountInstances(s) else CloseOld(s)
  }

  function Apply(s: State, step: Step): State
    requires Enabled(s, step)
  {
    match step
    case Register(t, user, multi) =>
      var (sh, l) := Registered(s.sh, user);
      s.(sh := sh, threads := s.threads[t := Busy(user, multi, l, Blocked)])
    case Acquire(t) =>
      var l := s.threads[t].lock;
      Goto(s.(sh := s.sh.(locks := s.sh.locks[l := s.sh.locks[l].(holder := Some(t))])), t, Find)
    case Look(t) => Goto(s, t, AfterLook(s.sh, s.threads[t].user, s.threads[t].multi))
    case Close(t) => Goto(s, t, if s.threads[t].multi then Create else Await(s.threads[t].at.prior))
    case Wake(t) => Goto(s, t, Create)
    case GiveUp(t) => Goto(s, t, Leave)
    case Count(t) =>
      var slot := s.threads[t].at.slot;
      Goto(s, t, if s.sh.slots[slot].instances >= MAX_CONCURRENT_SESSIONS then Leave else Join(slot))
    case Add(t) =>
      var slot := s.threads[t].at.slot;
      Goto(s.(sh := WithInstances(s.sh, slot, s.sh.slots[slot].instances + 1)), t, Leave)
    case Insert(t) => Goto(s.(sh := Inserted(s.sh, s.threads[t].user, s.threads[t].multi)), t, Leave)
    case Release(t) =>
      // an unknown name would return without unlocking anything
      if s.threads[t].user !in s.sh.userLocks then s.(threads := s.threads[t := Idle])
      else
        Goto(s.(sh := Unlocked(s.sh, s.sh.userLocks[s.threads[t].user]), mutex := Some(t)), t, Releasing)
    case Drop(t) =>
      s.(sh := Dropped(s.sh, s.threads[t].user, s.threads[t].lock), mutex := None, threads := s.threads[t := Idle])
    case Remove(slot) => s.(sh := Removed(s.sh, slot))
    case CloseInstance(slot) => s.(sh := WithInstances(s.sh, slot, s.sh.slots[slot].instances - 1))
  }

  predicate Initial(s: State) {
    s.sh == Shared(map[], [], map[], []) && s.mutex.None? && forall t <- s.threads :: s.threads[t].Idle?
  }

  /** The state after a sequence of steps, if each was possible when its turn came. */
  function Run(s: State, steps: seq<Step>): Option<State>
    decreases |steps|
  {
    if steps == [] then Some(s) else
    var prev := Run(s, steps[..|steps| - 1]);
    var step := steps[|steps| - 1];
    if prev.Some? && Enabled(prev.value, step) then Some(Apply(prev.value, step)) else None
  }

  // ---------------------------------------------------------------- invariant

  /** Threads counted by a lock: holder, waiters and the one that is just leaving. */
  function Users(threads: map<Tid, Thread>, l: LockId): set<Tid> {
    set t | t in threads && threads[t].Busy? && threads[t].lock == l
  }

  predicate Inside(th: Thread) {
    th.Busy? && !th.at.Blocked? && !th.at.Releasing?
  }

  /** The table maps each name to its own lock object, counted exactly; other lock objects are unused. */
  ghost predicate LocksOk(s: State) {
    && (forall n <- s.sh.userLocks ::
          && s.sh.userLocks[n] < |s.sh.locks|
          && s.sh.locks[s.sh.userLocks[n]].user == n
          && s.sh.locks[s.sh.userLocks[n]].refCount > 0)
    && (forall t <- s.threads :: s.threads[t].Busy? ==>
          s.threads[t].user in s.sh.userLocks && s.sh.userLocks[s.threads[t].user] == s.threads[t].lock)
    && (forall l | 0 <= l < |s.sh.locks| :: s.sh.locks[l].refCount == |Users(s.threads, l)|)
  }

  /** A thread is inside exactly when it holds its lock, and in unlockUser's second half when it holds the mutex. */
  ghost predicate HoldersOk(s: State) {
    && (forall t <- s.threads :: s.threads[t].Busy? ==> s.threads[t].lock < |s.sh.locks|)
    && (forall t <- s.threads :: Inside(s.threads[t]) ==> s.sh.locks[s.threads[t].lock].holder == Some(t))
    && (forall l | 0 <= l < |s.sh.locks| :: s.sh.locks[l].holder.Some? ==>
          var t := s.sh.locks[l].holder.value;
          t in s.threads && Inside(s.threads[t]) && s.threads[t].lock == l)
    && (forall t <- s.threads :: s.threads[t].Busy? && s.threads[t].at.Releasing? <==> s.mutex == Some(t))
    && (s.mutex.Some? ==> s.mutex.value in s.threads)
  }

  /** Slots are stored under their own name and only while their channel is open. */
  predicate StoreOk(sh: Shared) {
    && (forall n <- sh.store :: sh.store[n] < |sh.slots| && sh.slots[sh.store[n]].user == n && sh.slots[sh.store[n]].closes == 0)
    && (forall i | 0 <= i < |sh.slots| :: sh.slots[i].closes <= 1)
    && (forall i | 0 <= i < |sh.slots| ::
          sh.slots[i].instances <= if sh.slots[i].multi then MAX_CONCURRENT_SESSIONS else 1)
  }

  /** The slot a thread found is still stored, or its channel is closed and nothing else is stored. */
  predicate Pending(sh: Shared, user: Name, prior: SlotId) {
    && prior < |sh.slots| && sh.slots[prior].user == user
    && (if user in sh.store then sh.store[user] == prior else sh.slots[prior].closes == 1)
  }

  /** What a thread knows at each point; its lock keeps it true. */
  predicate PointOk(sh: Shared, th: Thread) {
    th.Busy? ==>
    match th.at
    case CloseOld(prior) => Pending(sh, th.user, prior) && (th.multi ==> !sh.slots[prior].multi)
    case Await(prior) => Pending(sh, th.user, prior) && !th.multi
    case CountInstances(slot) => Pending(sh, th.user, slot) && sh.slots[slot].multi
    case Join(slot) => Pending(sh, th.user, slot) && sh.slots[slot].multi && sh.slots[slot].instances < MAX_CONCURRENT_SESSIONS
    case Create => !th.multi ==> th.user !in sh.store
    case _ => true
  }

  ghost predicate PointsOk(s: State) {
    forall t <- s.threads :: PointOk(s.sh, s.threads[t])
  }

  ghost predicate Inv(s: State) {
    LocksOk(s) && HoldersOk(s) && StoreOk(s.sh) && PointsOk(s)
  }

  /** Two threads between lockUser and unlockUser for one name are the same thread. */
  lemma OneInside(s: State, t: Tid, t': Tid)
    requires LocksOk(s) && HoldersOk(s) && t in s.threads && t' in s.threads
    requires Inside(s.threads[t]) && Inside(s.threads[t']) && s.threads[t].user == s.threads[t'].user
    ensures t == t'
  {
  }

  // ---------------------------------------------------------------- every step keeps it

  /** A thread that only moves on inside AddSession stays counted by its lock. */
  lemma UsersGoto(s: State, t: Tid, p: Point)
    requires At(s, t)
    ensures forall l :: Users(Goto(s, t, p).threads, l) == Users(s.threads, l)
  {
  }

  /** Joining or leaving the users of one lock changes its count by one and no other's. */
  lemma UsersChange(threads: map<Tid, Thread>, t: Tid, th: Thread, l: LockId)
    requires t in threads && th.Busy? && th.lock == l && threads[t].Idle?
    ensures |Users(threads[t := th], l)| == |Users(threads, l)| + 1
    ensures forall l' | l' != l :: Users(threads[t := th], l') == Users(threads, l')
  {
    assert Users(threads[t := th], l) == Users(threads, l) + {t};
    assert t !in Users(threads, l);
    forall l' | l' != l ensures Users(threads[t := th], l') == Users(threads, l') {
    }
  }

  lemma UsersLeave(threads: map<Tid, Thread>, t: Tid)
    requires t in threads && threads[t].Busy?
    ensures var l := threads[t].lock;
            |Users(threads[t := Idle], l)| == |Users(threads, l)| - 1
            && forall l' | l' != l :: Users(threads[t := Idle], l') == Users(threads, l')
  {
    var l := threads[t].lock;
    assert Users(threads[t := Idle], l) == Users(threads, l) - {t};
    assert t in Users(threads, l);
    forall l' | l' != l ensures Users(threads[t := Idle], l') == Users(threads, l') {
    }
  }

  /** What a thread knows concerns the store and the slots only. */
  lemma PointsIgnoreLocks(s: State, s': State, t: Tid)
    requires PointsOk(s) && s'.sh.store == s.sh.store && s'.sh.slots == s.sh.slots
    requires s'.threads.Keys == s.threads.Keys && (t in s.threads ==> PointOk(s'.sh, s'.threads[t]))
    requires forall t' <- s.threads :: t' != t ==> s'.threads[t'] == s.threads[t']
    ensures PointsOk(s')
  {
    forall t' | t' in s'.threads ensures PointOk(s'.sh, s'.threads[t']) {
      if t' != t {
        assert PointOk(s.sh, s.threads[t']);
      }
    }
  }

  lemma RegisterLocks(s: State, step: Step)
    requires LocksOk(s) && Enabled(s, step) && step.Register?
    ensures LocksOk(Apply(s, step))
  {
    var (sh, l) := Registered(s.sh, step.user);
    var th := Busy(step.user, step.multi, l, Blocked);
    UsersChange(s.threads, step.t, th, l);
    if step.user !in s.sh.userLocks {
      assert Users(s.threads, l) == {} by {
        assert forall t <- s.threads :: s.threads[t].Busy? ==> s.threads[t].lock < |s.sh.locks|;
      }
    }
  }

  lemma RegisterHolders(s: State, step: Step)
    requires LocksOk(s) && HoldersOk(s) && Enabled(s, step) && step.Register?
    ensures HoldersOk(Apply(s, step))
  {
    var s' := Apply(s, step);
    assert forall l | 0 <= l < |s.sh.locks| :: s'.sh.locks[l].holder == s.sh.locks[l].holder;
    assert forall t <- s.threads :: t != step.t ==> s'.threads[t] == s.threads[t];
  }

  lemma RegisterKeeps(s: State, step: Step)
    requires Inv(s) && Enabled(s, step) && step.Register?
    ensures Inv(Apply(s, step))
  {
    RegisterLocks(s, step);
    RegisterHolders(s, step);
    PointsIgnoreLocks(s, Apply(s, step), step.t);
  }

  lemma AcquireLocks(s: State, step: Step)
    requires LocksOk(s) && Enabled(s, step) && step.Acquire?
    ensures LocksOk(Apply(s, step))
  {
    UsersGoto(s, step.t, Find);
    assert forall l :: Users(Apply(s, step).threads, l) == Users(s.threads, l);
  }

  lemma AcquireHolders(s: State, step: Step)
    requires HoldersOk(s) && Enabled(s, step) && step.Acquire?
    ensures HoldersOk(Apply(s, step))
  {
    var s' := Apply(s, step);
    assert forall t <- s.threads :: t != step.t ==> s'.threads[t] == s.threads[t];
  }

  lemma AcquireKeeps(s: State, step: Step)
    requires Inv(s) && Enabled(s, step) && step.Acquire?
    ensures Inv(Apply(s, step))
  {
    AcquireLocks(s, step);
    AcquireHolders(s, step);
    PointsIgnoreLocks(s, Apply(s, step), step.t);
  }

  /** unlockUser finds the very lock object its caller locked, held by that caller. */
  lemma ReleaseFindsOwnLock(s: State, step: Step)
    requires LocksOk(s) && HoldersOk(s) && Enabled(s, step) && step.Release?
    ensures s.threads[step.t].user in s.sh.userLocks
    ensures s.sh.userLocks[s.threads[step.t].user] == s.threads[step.t].lock
    ensures s.sh.locks[s.threads[step.t].lock].holder == Some(step.t)
  {
  }

  lemma ReleaseLocks(s: State, step: Step)
    requires LocksOk(s) && HoldersOk(s) && Enabled(s, step) && step.Release?
    ensures LocksOk(Apply(s, step))
  {
    ReleaseFindsOwnLock(s, step);
    UsersGoto(s, step.t, Releasing);
    assert forall l :: Users(Apply(s, step).threads, l) == Users(s.threads, l);
  }

  lemma ReleaseHolders(s: State, step: Step)
    requires LocksOk(s) && HoldersOk(s) && Enabled(s, step) && step.Release?
    ensures HoldersOk(Apply(s, step))
  {
    ReleaseFindsOwnLock(s, step);
    var s', l := Apply(s, step), s.threads[step.t].lock;
    assert forall t <- s.threads :: t != step.t ==> s'.threads[t] == s.threads[t];
    assert forall l' | 0 <= l' < |s.sh.locks| && l' != l :: s'.sh.locks[l'] == s.sh.locks[l'];
    assert forall t <- s.threads :: t != step.t && Inside(s.threads[t]) ==> s.threads[t].lock != l;
  }

  lemma ReleaseKeeps(s: State, step: Step)
    requires Inv(s) && Enabled(s, step) && step.Release?
    ensures Inv(Apply(s, step))
  {
    ReleaseFindsOwnLock(s, step);
    ReleaseLocks(s, step);
    ReleaseHolders(s, step);
    PointsIgnoreLocks(s, Apply(s, step), step.t);
  }

  lemma DropLocks(s: State, step: Step)
    requires LocksOk(s) && HoldersOk(s) && Enabled(s, step) && step.Drop?
    ensures LocksOk(Apply(s, step))
  {
    var t := step.t;
    var l, user := s.threads[t].lock, s.threads[t].user;
    UsersLeave(s.threads, t);
    var s' := Apply(s, step);
    assert s'.threads == s.threads[t := Idle];
    if s'.sh.locks[l].refCount == 0 {
      assert Users(s'.threads, l) == {};
      forall t' | t' in s'.threads && s'.threads[t'].Busy? ensures s'.threads[t'].user != user {
        assert t' !in Users(s'.threads, l);
      }
    }
  }

  lemma DropHolders(s: State, step: Step)
    requires HoldersOk(s) && Enabled(s, step) && step.Drop?
    ensures HoldersOk(Apply(s, step))
  {
    var s' := Apply(s, step);
    assert forall l | 0 <= l < |s.sh.locks| :: s'.sh.locks[l].holder == s.sh.locks[l].holder;
    assert forall t <- s.threads :: t != step.t ==> s'.threads[t] == s.threads[t];
    assert !Inside(s.threads[step.t]) && !Inside(s'.threads[step.t]);
  }

  lemma DropKeeps(s: State, step: Step)
    requires Inv(s) && Enabled(s, step) && step.Drop?
    ensures Inv(Apply(s, step))
  {
    DropLocks(s, step);
    DropHolders(s, step);
    PointsIgnoreLocks(s, Apply(s, step), step.t);
  }

  /** Steps of a lock holder that change nothing but its own point keep locks and holders. */
  lemma MoveKeeps(s: State, t: Tid, p: Point, sh: Shared)
    requires LocksOk(s) && HoldersOk(s) && At(s, t) && Inside(s.threads[t]) && !p.Blocked? && !p.Releasing?
    requires sh.userLocks == s.sh.userLocks && sh.locks == s.sh.locks
    ensures LocksOk(Goto(s.(sh := sh), t, p)) && HoldersOk(Goto(s.(sh := sh), t, p))
  {
    var s' := Goto(s.(sh := sh), t, p);
    UsersGoto(s, t, p);
    assert forall l :: Users(s'.threads, l) == Users(s.threads, l);
    assert s'.threads.Keys == s.threads.Keys;
  }

  /** The same for the whole invariant, given what the threads know about the new store. */
  lemma MoveKeepsInv(s: State, t: Tid, p: Point, sh: Shared)
    requires Inv(s) && At(s, t) && Inside(s.threads[t]) && !p.Blocked? && !p.Releasing?
    requires sh.userLocks == s.sh.userLocks && sh.locks == s.sh.locks && StoreOk(sh)
    requires PointOk(sh, s.threads[t].(at := p))
    requires forall t' <- s.threads :: t' != t ==> PointOk(sh, s.threads[t'])
    ensures Inv(Goto(s.(sh := sh), t, p))
  {
    MoveKeeps(s, t, p, sh);
  }

  /** What a thread knows after a step that only reads follows from what it knew before. */
  lemma ReaderPoint(s: State, step: Step)
    requires StoreOk(s.sh) && Enabled(s, step)
    requires step.Look? || step.Close? || step.Wake? || step.GiveUp? || step.Count?
    requires PointOk(s.sh, s.threads[step.t])
    ensures Inside(s.threads[step.t])
    ensures exists p :: Apply(s, step) == Goto(s, step.t, p) && !p.Blocked? && !p.Releasing? && PointOk(s.sh, s.threads[step.t].(at := p))
  {
    var p := Apply(s, step).threads[step.t].at;
    assert Apply(s, step) == Goto(s, step.t, p);
  }

  /** Looking, closing, waking, giving up and counting read the store only. */
  lemma ReadersKeep(s: State, step: Step)
    requires Inv(s) && Enabled(s, step)
    requires step.Look? || step.Close? || step.Wake? || step.GiveUp? || step.Count?
    ensures Inv(Apply(s, step))
  {
    ReaderPoint(s, step);
    var p :| Apply(s, step) == Goto(s, step.t, p) && !p.Blocked? && !p.Releasing? && PointOk(s.sh, s.threads[step.t].(at := p));
    MoveKeepsInv(s, step.t, p, s.sh);
    assert s.(sh := s.sh) == s;
  }

  /** No other thread inside for the same name knows anything a writer could spoil. */
  lemma OthersUnaffected(s: State, sh: Shared, t: Tid, t': Tid)
    requires Inv(s) && At(s, t) && Inside(s.threads[t]) && t' in s.threads && t' != t
    requires |s.sh.slots| <= |sh.slots|
    requires forall n :: n != s.threads[t].user ==> (n in sh.store <==> n in s.sh.store)
    requires forall n <- s.sh.store :: n != s.threads[t].user ==> sh.store[n] == s.sh.store[n]
    requires forall i | 0 <= i < |s.sh.slots| :: s.sh.slots[i].user != s.threads[t].user ==> sh.slots[i] == s.sh.slots[i]
    requires forall i | 0 <= i < |s.sh.slots| :: sh.slots[i].user == s.sh.slots[i].user
    ensures PointOk(sh, s.threads[t'])
  {
    assert PointOk(s.sh, s.threads[t']);
    if Inside(s.threads[t']) && s.threads[t'].user == s.threads[t].user {
      OneInside(s, t, t');
    }
  }

  lemma AddKeepsStore(s: State, step: Step)
    requires StoreOk(s.sh) && Enabled(s, step) && step.Add? && PointOk(s.sh, s.threads[step.t])
    ensures StoreOk(Apply(s, step).sh)
  {
  }

  /** Adding an instance keeps the cap: the lock keeps other adders away since the count, and closes only lower it. */
  lemma AddKeeps(s: State, step: Step)
    requires Inv(s) && Enabled(s, step) && step.Add?
    ensures Inv(Apply(s, step))
  {
    var sh, t := Apply(s, step).sh, step.t;
    assert PointOk(s.sh, s.threads[t]);
    AddKeepsStore(s, step);
    forall t' | t' in s.threads && t' != t ensures PointOk(sh, s.threads[t']) {
      OthersUnaffected(s, sh, t, t');
    }
    MoveKeepsInv(s, t, Leave, sh);
  }

  lemma InsertKeepsStore(sh: Shared, user: Name, multi: bool)
    requires StoreOk(sh)
    ensures StoreOk(Inserted(sh, user, multi))
  {
  }

  lemma InsertKeeps(s: State, step: Step)
    requires Inv(s) && Enabled(s, step) && step.Insert?
    ensures Inv(Apply(s, step))
  {
    var t := step.t;
    var sh := Inserted(s.sh, s.threads[t].user, s.threads[t].multi);
    InsertKeepsStore(s.sh, s.threads[t].user, s.threads[t].multi);
    forall t' | t' in s.threads && t' != t ensures PointOk(sh, s.threads[t']) {
      OthersUnaffected(s, sh, t, t');
    }
    MoveKeepsInv(s, t, Leave, sh);
  }

  lemma EnvironmentPoints(s: State, step: Step, th: Thread)
    requires StoreOk(s.sh) && Enabled(s, step) && (step.Remove? || step.CloseInstance?) && PointOk(s.sh, th)
    ensures StoreOk(Apply(s, step).sh) && PointOk(Apply(s, step).sh, th)
  {
    if step.Remove? {
      RemovalPoints(s.sh, step.slot, th);
    }
  }

  lemma RemovalPoints(sh: Shared, slot: SlotId, th: Thread)
    requires StoreOk(sh) && slot < |sh.slots| && PointOk(sh, th)
    ensures StoreOk(Removed(sh, slot)) && PointOk(Removed(sh, slot), th)
  {
  }

  lemma EnvironmentKeeps(s: State, step: Step)
    requires Inv(s) && Enabled(s, step) && (step.Remove? || step.CloseInstance?)
    ensures Inv(Apply(s, step))
  {
    var s' := Apply(s, step);
    assert s'.threads == s.threads && s'.mutex == s.mutex && s'.sh.locks == s.sh.locks && s'.sh.userLocks == s.sh.userLocks;
    EnvironmentPoints(s, step, Idle);
    forall t | t in s'.threads ensures PointOk(s'.sh, s'.threads[t]) {
      EnvironmentPoints(s, step, s.threads[t]);
    }
  }

  lemma StepKeepsInv(s: State, step: Step)
    requires Inv(s) && Enabled(s, step)
    ensures Inv(Apply(s, step))
  {
    match step
    case Register(_, _, _) => RegisterKeeps(s, step);
    case Acquire(_) => AcquireKeeps(s, step);
    case Release(_) => ReleaseKeeps(s, step);
    case Drop(_) => DropKeeps(s, step);
    case Add(_) => AddKeeps(s, step);
    case Insert(_) => InsertKeeps(s, step);
    case Remove(_) => EnvironmentKeeps(s, step);
    case CloseInstance(_) => EnvironmentKeeps(s, step);
    case _ => ReadersKeep(s, step);
  }

  /** The invariant holds after any run of any number of threads. */
  lemma {:induction false} RunKeepsInv(s: State, steps: seq<Step>)
    requires Initial(s) && Run(s, steps).Some?
    ensures Inv(Run(s, steps).value)
    decreases |steps|
  {
    if steps != [] {
      RunKeepsInv(s, steps[..|steps| - 1]);
      StepKeepsInv(Run(s, steps[..|steps| - 1]).value, steps[|steps| - 1]);
    }
  }

  // ---------------------------------------------------------------- what every run guarantees

  /** At most one thread per screen name is between lockUser and unlockUser, though lock objects come and go. */
  lemma MutualExclusion(s0: State, steps: seq<Step>, t: Tid, t': Tid)
    requires Initial(s0) && Run(s0, steps).Some?
    requires var ths := Run(s0, steps).value.threads;
             t in ths && t' in ths && Inside(ths[t]) && Inside(ths[t']) && ths[t].user == ths[t'].user
    ensures t == t'
  {
    RunKeepsInv(s0, steps);
    OneInside(Run(s0, steps).value, t, t');
  }

  /**
   A lock in the table is counted by exactly the threads inside lockUser,
   holding it, or inside unlockUser; one outside the table by none.
   */
  lemma RefCountsAreExact(s0: State, steps: seq<Step>, l: LockId)
    requires Initial(s0) && Run(s0, steps).Some? && l < |Run(s0, steps).value.sh.locks|
    ensures var s := Run(s0, steps).value;
            s.sh.locks[l].refCount == |Users(s.threads, l)|
            && (s.sh.locks[l].refCount > 0 <==> l in s.sh.userLocks.Values)
  {
    RunKeepsInv(s0, steps);
    var s := Run(s0, steps).value;
    if s.sh.locks[l].refCount > 0 {
      var t :| t in Users(s.threads, l);
      assert s.sh.userLocks[s.threads[t].user] == l;
    }
  }

  /** unlockUser always finds an entry, it is the lock its caller acquired, and the caller holds it. */
  lemma UnlockFindsOwnLock(s0: State, steps: seq<Step>, t: Tid)
    requires Initial(s0) && Run(s0, steps).Some? && Enabled(Run(s0, steps).value, Release(t))
    ensures var s := Run(s0, steps).value;
            var th := s.threads[t];
            th.user in s.sh.userLocks && s.sh.userLocks[th.user] == th.lock && s.sh.locks[th.lock].holder == Some(t)
  {
    RunKeepsInv(s0, steps);
    ReleaseFindsOwnLock(Run(s0, steps).value, Release(t));
  }

  /** No `removed` channel is ever closed twice, which would panic. */
  lemma ClosedAtMostOnce(s0: State, steps: seq<Step>, slot: SlotId)
    requires Initial(s0) && Run(s0, steps).Some? && slot < |Run(s0, steps).value.sh.slots|
    ensures Run(s0, steps).value.sh.slots[slot].closes <= 1
  {
    RunKeepsInv(s0, steps);
  }

  /** A thread waiting on a slot can either go on, or will be able to once that slot's session is removed. */
  lemma NoLostWakeup(s0: State, steps: seq<Step>, t: Tid)
    requires Initial(s0) && Run(s0, steps).Some? && Enabled(Run(s0, steps).value, GiveUp(t))
    ensures var s := Run(s0, steps).value;
            var slot := s.threads[t].at.prior;
            slot < |s.sh.slots|
            && (Enabled(s, Wake(t)) || (s.threads[t].user in s.sh.store && s.sh.store[s.threads[t].user] == slot))
            && Enabled(Apply(s, Remove(slot)), Wake(t))
  {
    RunKeepsInv(s0, steps);
    var s := Run(s0, steps).value;
    assert PointOk(s.sh, s.threads[t]);
  }

  /** A single-session AddSession never overwrites a stored slot. */
  lemma SingleNeverOverwrites(s0: State, steps: seq<Step>, t: Tid)
    requires Initial(s0) && Run(s0, steps).Some? && Enabled(Run(s0, steps).value, Insert(t))
    requires !Run(s0, steps).value.threads[t].multi
    ensures var s := Run(s0, steps).value; s.threads[t].user !in s.sh.store
  {
    RunKeepsInv(s0, steps);
    var s := Run(s0, steps).value;
    assert PointOk(s.sh, s.threads[t]);
  }

  /** Removing a session takes out its own slot and no other: a replaced session's late removal changes nothing. */
  lemma RemoveTakesOnlyItsOwn(s0: State, steps: seq<Step>, slot: SlotId)
    requires Initial(s0) && Run(s0, steps).Some? && Enabled(Run(s0, steps).value, Remove(slot))
    ensures var s := Run(s0, steps).value;
            var s' := Apply(s, Remove(slot));
            (slot !in s.sh.store.Values ==> s' == s)
            && slot !in s'.sh.store.Values
            && forall n :: (n in s'.sh.store <==> n in s.sh.store && s.sh.store[n] != slot)
                           && (n in s'.sh.store ==> s'.sh.store[n] == s.sh.store[n])
  {
    RunKeepsInv(s0, steps);
    var s := Run(s0, steps).value;
    StepKeepsInv(s, Remove(slot));
    var user := s.sh.slots[slot].user;
    if user in s.sh.store && s.sh.store[user] == slot {
      assert slot in s.sh.store.Values;
    }
  }

  /**
   A multi-session AddSession joins a session that is stored, exactly unless
   that session was removed since it was found: then it joins the removed one.
   Nothing keeps a removal from coming in between.
   */
  lemma JoinedIsStoredIff(s0: State, steps: seq<Step>, t: Tid)
    requires Initial(s0) && Run(s0, steps).Some? && Enabled(Run(s0, steps).value, Add(t))
    ensures var s := Run(s0, steps).value;
            var user, slot := s.threads[t].user, s.threads[t].at.slot;
            && (user in s.sh.store && s.sh.store[user] == slot <==> s.sh.slots[slot].closes == 0)
            && Run(s0, steps + [Remove(slot)] + [Add(t)]).Some?
            && var late := Run(s0, steps + [Remove(slot)] + [Add(t)]).value.sh;
               user !in late.store && slot < |late.slots| && late.slots[slot].closes == 1
                  && late.slots[slot].instances == s.sh.slots[slot].instances + 1
  {
    RunKeepsInv(s0, steps);
    var s := Run(s0, steps).value;
    assert PointOk(s.sh, s.threads[t]);
    var slot := s.threads[t].at.slot;
    RunSnoc(s0, steps, Remove(slot));
    RunSnoc(s0, steps + [Remove(slot)], Add(t));
  }

  lemma RunSnoc(s0: State, steps: seq<Step>, step: Step)
    requires Run(s0, steps).Some? && Enabled(Run(s0, steps).value, step)
    ensures Run(s0, steps + [step]) == Some(Apply(Run(s0, steps).value, step))
  {
    assert (steps + [step])[..|steps|] == steps;
  }

  /** A session has at most five instances, one if it was not made for several, although closes interleave with adds. */
  lemma InstancesAreCapped(s0: State, steps: seq<Step>, slot: SlotId)
    requires Initial(s0) && Run(s0, steps).Some? && slot < |Run(s0, steps).value.sh.slots|
    ensures var x := Run(s0, steps).value.sh.slots[slot];
            x.instances <= if x.multi then 5 else 1
  {
    RunKeepsInv(s0, steps);
  }

  /** The step a thread inside takes next, if it does not give up. */
  function NextOf(s: State, t: Tid): Step
    requires At(s, t)
  {
    match s.threads[t].at
    case Blocked => Acquire(t)
    case Find => Look(t)
    case CloseOld(_) => Close(t)
    case Await(_) => Wake(t)
    case CountInstances(_) => Count(t)
    case Join(_) => Add(t)
    case Create => Insert(t)
    case Leave => Release(t)
    case Releasing => Drop(t)
  }

  predicate CanMove(s: State, t: Tid) {
    At(s, t) && Enabled(s, NextOf(s, t))
  }

  /** The thread waits for the end of a session that is still stored. */
  predicate AwaitsOpen(s: State, t: Tid) {
    && At(s, t) && s.threads[t].at.Await?
    && var user, slot := s.threads[t].user, s.threads[t].at.prior;
    user in s.sh.store && s.sh.store[user] == slot < |s.sh.slots| && s.sh.slots[slot].closes == 0
  }

  /** It does so itself, or its lock is held by a thread that does. */
  predicate AwaitsRemoval(s: State, t: Tid) {
    || AwaitsOpen(s, t)
    || (At(s, t) && s.threads[t].at.Blocked?
        && var holder := s.sh.locks[s.threads[t].lock].holder; holder.Some? && AwaitsOpen(s, holder.value))
  }

  /**
   Never a deadlock: the threads inside AddSession are all unable to go on
   without giving up exactly if each of them awaits the removal of a stored
   session, itself or behind the holder of its lock.
   */
  lemma NoDeadlock(s0: State, steps: seq<Step>)
    requires Initial(s0) && Run(s0, steps).Some?
    ensures var s := Run(s0, steps).value;
            (forall t <- s.threads :: s.threads[t].Busy? ==> !CanMove(s, t))
            <==> (forall t <- s.threads :: s.threads[t].Busy? ==> AwaitsRemoval(s, t))
  {
    RunKeepsInv(s0, steps);
    var s := Run(s0, steps).value;
    if forall t <- s.threads :: s.threads[t].Busy? ==> !CanMove(s, t) {
      forall t <- s.threads | s.threads[t].Busy? ensures AwaitsRemoval(s, t) {
        StuckAwaits(s, t);
      }
    }
    forall t | AwaitsRemoval(s, t) ensures !CanMove(s, t) {
      AwaitingIsStuck(s, t);
    }
  }

  lemma AwaitingIsStuck(s: State, t: Tid)
    requires AwaitsRemoval(s, t)
    ensures !CanMove(s, t)
  {
  }

  lemma MutexOwnerMoves(s: State)
    requires HoldersOk(s) && s.mutex.Some?
    ensures s.mutex.value in s.threads && s.threads[s.mutex.value].Busy? && CanMove(s, s.mutex.value)
  {
  }

  lemma StuckAwaits(s: State, t: Tid)
    requires HoldersOk(s) && LocksOk(s) && PointsOk(s) && StoreOk(s.sh) && t in s.threads && s.threads[t].Busy?
    requires forall t' <- s.threads :: s.threads[t'].Busy? ==> !CanMove(s, t')
    ensures AwaitsRemoval(s, t)
  {
    if s.mutex.Some? {
      MutexOwnerMoves(s);
    } else if s.threads[t].at.Blocked? && s.sh.locks[s.threads[t].lock].holder.Some? {
      StuckInside(s, s.sh.locks[s.threads[t].lock].holder.value);
    } else {
      StuckInside(s, t);
    }
  }

  lemma StuckInside(s: State, t: Tid)
    requires HoldersOk(s) && LocksOk(s) && PointsOk(s) && StoreOk(s.sh)
    requires s.mutex.None? && t in s.threads && s.threads[t].Busy? && !CanMove(s, t)
    requires s.threads[t].at.Blocked? ==> s.sh.locks[s.threads[t].lock].holder.None?
    ensures AwaitsOpen(s, t)
  {
    assert PointOk(s.sh, s.threads[t]);
  }

  // ---------------------------------------------------------------- what AddSession comes to

  lemma {:induction false} RunConcat(s: State, steps: seq<Step>, more: seq<Step>)
    requires Run(s, steps).Some?
    ensures Run(s, steps + more) == Run(Run(s, steps).value, more)
    decreases |more|
  {
    if more == [] {
      assert steps + more == steps;
    } else {
      RunConcat(s, steps, more[..|more| - 1]);
      assert (steps + more)[..|steps + more| - 1] == steps + more[..|more| - 1];
    }
  }

  lemma RunCons(s: State, step: Step, more: seq<Step>)
    requires Enabled(s, step)
    ensures Run(s, [step] + more) == Run(Apply(s, step), more)
  {
    RunOne(s, step);
    RunConcat(s, [step], more);
  }

  lemma RunOne(s: State, step: Step)
    requires Enabled(s, step)
    ensures Run(s, [step]) == Some(Apply(s, step))
  {
    assert [step][..0] == [];
    assert Run(s, []) == Some(s);
  }

  /** Nobody keeps thread t from entering for the user. */
  predicate MayEnter(s: State, t: Tid, user: Name) {
    && s.mutex.None? && t in s.threads && s.threads[t].Idle?
    && (user in s.sh.userLocks ==> s.sh.userLocks[user] < |s.sh.locks| && s.sh.locks[s.sh.userLocks[user]].holder.None?)
  }

  /** Thread t is alone inside for the user, at the given point. */
  predicate IsInside(s: State, t: Tid, user: Name, multi: bool, p: Point) {
    && At(s, t) && s.threads[t].user == user && s.threads[t].multi == multi && s.threads[t].at == p && s.mutex.None?
    && user in s.sh.userLocks && s.sh.userLocks[user] == s.threads[t].lock
  }

  /** Of the threads only t has moved. */
  predicate Alone(s: State, s': State, t: Tid) {
    t in s.threads && t in s'.threads && s'.threads == s.threads[t := s'.threads[t]]
  }

  lemma Enters(s: State, t: Tid, user: Name, multi: bool) returns (s': State)
    requires MayEnter(s, t, user)
    ensures Run(s, [Register(t, user, multi), Acquire(t)]) == Some(s')
    ensures IsInside(s', t, user, multi, Find) && Alone(s, s', t) && s'.sh.store == s.sh.store && s'.sh.slots == s.sh.slots
  {
    var s1 := Apply(s, Register(t, user, multi));
    assert At(s1, t);
    s' := Apply(s1, Acquire(t));
    RunOne(s1, Acquire(t));
    RunCons(s, Register(t, user, multi), [Acquire(t)]);
    assert [Register(t, user, multi)] + [Acquire(t)] == [Register(t, user, multi), Acquire(t)];
  }

  /** The lock is given back, and nothing else changes. */
  lemma Leaves(s: State, t: Tid, user: Name, multi: bool) returns (s': State)
    requires IsInside(s, t, user, multi, Leave)
    ensures Run(s, [Release(t), Drop(t)]) == Some(s')
    ensures MayEnter(s', t, user) && Alone(s, s', t) && s'.sh.store == s.sh.store && s'.sh.slots == s.sh.slots
  {
    var s1 := Apply(s, Release(t));
    s' := Apply(s1, Drop(t));
    RunOne(s1, Drop(t));
    RunCons(s, Release(t), [Drop(t)]);
    assert [Release(t)] + [Drop(t)] == [Release(t), Drop(t)];
  }

  /** A fresh slot with one instance is stored. */
  predicate StoresFresh(sh: Shared, sh': Shared, user: Name, multi: bool) {
    sh'.slots == sh.slots + [Slot(user, multi, 0, 1)] && sh'.store == sh.store[user := |sh.slots|]
  }

  lemma Inserts(s: State, t: Tid, user: Name, multi: bool) returns (s': State)
    requires IsInside(s, t, user, multi, Create)
    ensures Run(s, [Insert(t)]) == Some(s')
    ensures IsInside(s', t, user, multi, Leave) && Alone(s, s', t) && StoresFresh(s.sh, s'.sh, user, multi)
  {
    s' := Apply(s, Insert(t));
    RunOne(s, Insert(t));
  }

  /** With no stored session the thread stores a fresh one. */
  lemma FirstSession(s: State, t: Tid, user: Name, multi: bool) returns (s': State)
    requires IsInside(s, t, user, multi, Find) && user !in s.sh.store
    ensures Run(s, [Look(t), Insert(t)]) == Some(s')
    ensures IsInside(s', t, user, multi, Leave) && Alone(s, s', t) && StoresFresh(s.sh, s'.sh, user, multi)
  {
    s' := Inserts(Apply(s, Look(t)), t, user, multi);
    RunCons(s, Look(t), [Insert(t)]);
    assert [Look(t)] + [Insert(t)] == [Look(t), Insert(t)];
  }

  /** A device finds room below five instances, and is turned away from five on. */
  lemma OneMoreDevice(s: State, t: Tid, user: Name) returns (s': State)
    requires IsInside(s, t, user, true, Find) && user in s.sh.store
    requires s.sh.store[user] < |s.sh.slots| && s.sh.slots[s.sh.store[user]].multi
    ensures var x := s.sh.store[user];
      var n := s.sh.slots[x].instances;
      && Run(s, if n < 5 then [Look(t), Count(t), Add(t)] else [Look(t), Count(t)]) == Some(s')
      && IsInside(s', t, user, true, Leave) && Alone(s, s', t) && s'.sh.store == s.sh.store
      && s'.sh.slots == s.sh.slots[x := s.sh.slots[x].(instances := if n < 5 then n + 1 else n)]
  {
    var s1 := Apply(s, Look(t));
    var s2 := Apply(s1, Count(t));
    var n := s.sh.slots[s.sh.store[user]].instances;
    if n < 5 {
      s' := Apply(s2, Add(t));
      RunOne(s2, Add(t));
      RunCons(s1, Count(t), [Add(t)]);
      RunCons(s, Look(t), [Count(t)] + [Add(t)]);
      assert [Look(t)] + ([Count(t)] + [Add(t)]) == [Look(t), Count(t), Add(t)];
    } else {
      s' := s2;
      RunOne(s1, Count(t));
      RunCons(s, Look(t), [Count(t)]);
      assert [Look(t)] + [Count(t)] == [Look(t), Count(t)];
    }
  }

  /** Sessions that cannot be shared: the old one is told to close. */
  lemma Replaces(s: State, t: Tid, user: Name, multi: bool) returns (s': State)
    requires IsInside(s, t, user, multi, Find) && user in s.sh.store
    requires s.sh.store[user] < |s.sh.slots| && !(multi && s.sh.slots[s.sh.store[user]].multi)
    ensures Run(s, [Look(t), Close(t)]) == Some(s') && s'.sh == s.sh && Alone(s, s', t)
    ensures IsInside(s', t, user, multi, if multi then Create else Await(s.sh.store[user]))
  {
    var s1 := Apply(s, Look(t));
    s' := Apply(s1, Close(t));
    RunOne(s1, Close(t));
    RunCons(s, Look(t), [Close(t)]);
    assert [Look(t)] + [Close(t)] == [Look(t), Close(t)];
  }

  /** A single session waits: it can go on exactly once the old slot's channel is closed, as its removal does. */
  lemma WokenByRemoval(s: State, t: Tid, user: Name, x: SlotId) returns (s': State)
    requires StoreOk(s.sh) && IsInside(s, t, user, false, Await(x)) && user in s.sh.store && s.sh.store[user] == x
    ensures !Enabled(s, Wake(t)) && x < |s.sh.slots|
    ensures Run(s, [Remove(x), Wake(t)]) == Some(s')
    ensures IsInside(s', t, user, false, Create) && Alone(s, s', t)
    ensures s'.sh.store == s.sh.store - {user} && s'.sh.slots == s.sh.slots[x := s.sh.slots[x].(closes := 1)]
  {
    var s1 := Apply(s, Remove(x));
    s' := Apply(s1, Wake(t));
    RunOne(s1, Wake(t));
    RunCons(s, Remove(x), [Wake(t)]);
    assert [Remove(x)] + [Wake(t)] == [Remove(x), Wake(t)];
  }

  /** What a thread does with the slot it may find. */
  function DecidingSteps(sh: Shared, t: Tid, user: Name, multi: bool): seq<Step>
    requires user in sh.store ==> sh.store[user] < |sh.slots|
  {
    if user !in sh.store then [Look(t), Insert(t)] else
    var x := sh.store[user];
    if multi && sh.slots[x].multi then if sh.slots[x].instances < 5 then [Look(t), Count(t), Add(t)] else [Look(t), Count(t)]
    else if multi then [Look(t), Close(t)] + [Insert(t)]
    else [Look(t), Close(t)] + ([Remove(x), Wake(t)] + [Insert(t)])
  }

  /** All of its steps, and the removal a single session waits for. */
  function AddSessionSteps(sh: Shared, t: Tid, user: Name, multi: bool): seq<Step>
    requires user in sh.store ==> sh.store[user] < |sh.slots|
  {
    [Register(t, user, multi), Acquire(t)] + (DecidingSteps(sh, t, user, multi) + [Release(t), Drop(t)])
  }

  /** What the slots and the store become. */
  predicate Outcome(sh: Shared, sh': Shared, user: Name, multi: bool) {
    if user !in sh.store then StoresFresh(sh, sh', user, multi) else
    var x := sh.store[user];
    && x < |sh.slots|
    && var prior := sh.slots[x];
       if multi && prior.multi then
         && sh'.store == sh.store
         && sh'.slots == sh.slots[x := prior.(instances := if prior.instances < 5 then prior.instances + 1 else prior.instances)]
       else if multi then StoresFresh(sh, sh', user, multi)
       else
         && sh'.store == sh.store[user := |sh.slots|]
         && sh'.slots == sh.slots[x := prior.(closes := 1)] + [Slot(user, false, 0, 1)]
  }

  lemma Decides(s: State, t: Tid, user: Name, multi: bool) returns (s': State)
    requires StoreOk(s.sh) && IsInside(s, t, user, multi, Find)
    ensures Run(s, DecidingSteps(s.sh, t, user, multi)) == Some(s')
    ensures IsInside(s', t, user, multi, Leave) && Alone(s, s', t) && Outcome(s.sh, s'.sh, user, multi)
  {
    if user !in s.sh.store {
      s' := FirstSession(s, t, user, multi);
    } else if multi && s.sh.slots[s.sh.store[user]].multi {
      s' := OneMoreDevice(s, t, user);
    } else {
      var s1 := Replaces(s, t, user, multi);
      if multi {
        s' := Inserts(s1, t, user, multi);
        RunConcat(s, [Look(t), Close(t)], [Insert(t)]);
      } else {
        var x := s.sh.store[user];
        var s2 := WokenByRemoval(s1, t, user, x);
        s' := Inserts(s2, t, user, multi);
        RunConcat(s1, [Remove(x), Wake(t)], [Insert(t)]);
        RunConcat(s, [Look(t), Close(t)], [Remove(x), Wake(t)] + [Insert(t)]);
      }
    }
  }

  /**
   What AddSession comes to from every reachable state in which nobody is in its
   way. With nothing stored, one fresh slot with one instance; for one more device
   of a shared session one more instance below five, and nothing from five on; in
   all other cases a fresh slot in place of the old one, which a single session
   has first seen removed. Then the thread is out and its lock free.
   */
  lemma AddSessionOutcome(s0: State, steps: seq<Step>, t: Tid, user: Name, multi: bool)
    requires Initial(s0) && Run(s0, steps).Some? && MayEnter(Run(s0, steps).value, t, user)
    ensures var s := Run(s0, steps).value;
      && (user in s.sh.store ==> s.sh.store[user] < |s.sh.slots|)
      && Run(s0, steps + AddSessionSteps(s.sh, t, user, multi)).Some?
      && var s' := Run(s0, steps + AddSessionSteps(s.sh, t, user, multi)).value;
         Outcome(s.sh, s'.sh, user, multi) && MayEnter(s', t, user) && Alone(s, s', t)
  {
    RunKeepsInv(s0, steps);
    var s := Run(s0, steps).value;
    var s' := ThroughAddSession(s, t, user, multi);
    RunConcat(s0, steps, AddSessionSteps(s.sh, t, user, multi));
  }

  lemma ThroughAddSession(s: State, t: Tid, user: Name, multi: bool) returns (s': State)
    requires StoreOk(s.sh) && MayEnter(s, t, user)
    ensures Run(s, AddSessionSteps(s.sh, t, user, multi)) == Some(s')
    ensures Outcome(s.sh, s'.sh, user, multi) && MayEnter(s', t, user) && Alone(s, s', t)
  {
    var enter, leave := [Register(t, user, multi), Acquire(t)], [Release(t), Drop(t)];
    var middle := DecidingSteps(s.sh, t, user, multi);
    var s1 := Enters(s, t, user, multi);
    var s2 := Decides(s1, t, user, multi);
    s' := Leaves(s2, t, user, multi);
    RunConcat(s1, middle, leave);
    RunConcat(s, enter, middle + leave);
  }

  /**
   In the middle of any run: a thread that counts the instances of a shared
   session adds one with its next step if and only if there are fewer than five.
   */
  lemma JoinsBelowFive(s0: State, steps: seq<Step>, t: Tid)
    requires Initial(s0) && Run(s0, steps).Some? && Enabled(Run(s0, steps).value, Count(t))
    ensures var s := Run(s0, steps).value;
      var x := s.threads[t].at.slot;
      var n := s.sh.slots[x].instances;
      && Run(s0, steps + [Count(t)]).Some? && Run(s0, steps + [Count(t)]).value.sh == s.sh
      && (Run(s0, steps + [Count(t)] + [Add(t)]).Some? <==> n < 5)
      && (if n < 5 then Run(s0, steps + [Count(t)] + [Add(t)]).value.sh == s.sh.(slots := s.sh.slots[x := s.sh.slots[x].(instances := n + 1)])
          else Run(s0, steps + [Count(t)]).value.threads[t].at.Leave?)
  {
    var s := Run(s0, steps).value;
    RunSnoc(s0, steps, Count(t));
    var s1 := Apply(s, Count(t));
    assert (steps + [Count(t)] + [Add(t)])[..|steps| + 1] == steps + [Count(t)];
    if Enabled(s1, Add(t)) {
      RunSnoc(s0, steps + [Count(t)], Add(t));
    }
  }
}
