/** What consent promises over every run of the handlers. */
module ConsentRuns {
  import opened ScreenNames
  import opened Tlv
  import opened FeedbagItems
  import opened FeedbagReplay
  import opened Consent

  // ---------------------------------------------------------------- what a removal does

  lemma {:induction false} DroppingKeepsBags(env: Env, s: State, me: Name, xs: seq<FeedbagItem>)
    ensures DroppedAll(env, s, me, xs).0.bags == s.bags
    decreases |xs|
  {
    if xs != [] {
      DroppingKeepsBags(env, s, me, xs[..|xs| - 1]);
    }
  }

  /** A grant goes exactly if a severing item names its two parties, in either order. */
  lemma {:induction false} DroppedGrants(env: Env, s: State, me: Name, xs: seq<FeedbagItem>, p: (Name, Name))
    ensures p in DroppedAll(env, s, me, xs).0.grants <==>
      p in s.grants && forall i | 0 <= i < |xs| && Severs(env, s, me, xs[i]) :: p != (me, Ident(xs[i].name)) && p != (Ident(xs[i].name), me)
    decreases |xs|
  {
    if xs != [] {
      var front := xs[..|xs| - 1];
      DroppedGrants(env, s, me, front, p);
      DroppingKeepsBags(env, s, me, front);
      assert forall i | 0 <= i < |front| :: front[i] == xs[i];
      assert Bag(DroppedAll(env, s, me, front).0, me) == Bag(s, me);
    }
  }

  /**
   Deleting items takes away exactly the grants, both ways, between the user
   and every AIM buddy that a deleted item names and the list no longer does:
   a move to another group keeps them.
   */
  lemma DeletionGrants(env: Env, s: State, me: Name, xs: seq<FeedbagItem>, p: (Name, Name))
    ensures p in Deleted(env, s, me, xs).0.grants <==>
      p in s.grants && forall i | 0 <= i < |xs| && Severs(env, Unlisted(s, me, xs), me, xs[i]) ::
        p != (me, Ident(xs[i].name)) && p != (Ident(xs[i].name), me)
  {
    DroppedGrants(env, Unlisted(s, me, xs), me, xs, p);
  }

  // ---------------------------------------------------------------- two AIM users

  /** Both are AIM users whose accounts require authorization. */
  predicate Strict(env: Env, a: Name, b: Name) {
    && !env.icq(a) && !env.icq(b)
    && a in env.users && b in env.users && env.users[a] && env.users[b]
  }

  predicate Pair(x: Name, y: Name, a: Name, b: Name) {
    (x == a && y == b) || (x == b && y == a)
  }

  predicate Severed(s: State, a: Name, b: Name) {
    (a, b) !in s.grants && (b, a) !in s.grants
  }

  predicate Connected(s: State, a: Name, b: Name) {
    (a, b) in s.grants && (b, a) in s.grants
  }

  /** A pre-authorization or an accepted request between the two. */
  predicate GrantEvent(e: Event, a: Name, b: Name) {
    (e.PreAuthorize? || (e.Respond? && e.accepted)) && Pair(e.me, e.other, a, b)
  }

  /** No message passes between the two. */
  predicate Silent(outs: seq<Out>, a: Name, b: Name) {
    forall i | 0 <= i < |outs| && outs[i].Passed? :: !Pair(outs[i].from, outs[i].to, a, b)
  }

  predicate NoMessages(outs: seq<Out>) {
    forall i | 0 <= i < |outs| :: !outs[i].Passed?
  }

  lemma {:induction false} AdmittedLocal(env: Env, s: State, me: Name, xs: seq<FeedbagItem>)
    ensures var (s1, _, _, outs) := AdmittedAll(env, s, me, xs);
      && (forall p | p !in s.grants && p in s1.grants :: env.icq(p.0))
      && s.grants <= s1.grants && s1.bags == s.bags && (!env.icq(me) ==> s1 == s)
      && NoMessages(outs) && forall i | 0 <= i < |outs| :: !outs[i].RemovalNotice?
    decreases |xs|
  {
    if xs != [] {
      AdmittedLocal(env, s, me, xs[..|xs| - 1]);
    }
  }

  lemma {:induction false} DroppedSends(env: Env, s: State, me: Name, xs: seq<FeedbagItem>)
    ensures NoMessages(DroppedAll(env, s, me, xs).1)
    decreases |xs|
  {
    if xs != [] {
      DroppedSends(env, s, me, xs[..|xs| - 1]);
    }
  }

  /** A message or an authorization concerns its two parties only. */
  predicate Local(s: State, s': State, outs: seq<Out>, x: Name, y: Name) {
    && s.grants <= s'.grants
    && (forall p | p in s'.grants && p !in s.grants :: Pair(p.0, p.1, x, y))
    && (forall i | 0 <= i < |outs| :: outs[i].Passed? && Pair(outs[i].from, outs[i].to, x, y))
  }

  lemma RelayedLocal(env: Env, s: State, uin: bool, from: Name, to: Name, kind: Kind, link: Link)
    ensures var (s', outs) := Relayed(env, s, uin, from, to, kind, link); Local(s, s', outs, from, to)
  {
  }

  lemma AuthorizedLocal(env: Env, s: State, granter: Name, requester: Name, link: Link, back: Link, first: Key)
    ensures var (s', outs) := Authorized(env, s, granter, requester, link, back, first); Local(s, s', outs, granter, requester)
  {
    var s1 := Record(env, s, granter, requester);
    RelayedLocal(env, s1, false, granter, requester, AuthOK, link);
    var cleared := Cleared(s1, granter, requester, first);
    if cleared.Some? {
      RelayedLocal(env, cleared.value, env.icq(requester), requester, granter, AuthOther, back);
    }
  }

  lemma RespondedLocal(env: Env, s: State, granter: Name, requester: Name, accepted: bool, link: Link, back: Link, first: Key)
    ensures var (s', outs) := Responded(env, s, granter, requester, accepted, link, back, first); Local(s, s', outs, granter, requester)
  {
    if accepted {
      AuthorizedLocal(env, s, granter, requester, link, back, first);
    } else {
      RelayedLocal(env, s, false, granter, requester, AuthDeny, link);
    }
  }

  lemma EventLocal(env: Env, s: State, e: Event)
    requires e.PreAuthorize? || e.Respond? || e.Send?
    ensures var (s', outs) := Step(env, s, e); Local(s, s', outs, e.me, e.other)
  {
    match e
    case PreAuthorize(me, other, link, back, first) => AuthorizedLocal(env, s, me, other, link, back, first);
    case Respond(me, other, accepted, link, back, first) => RespondedLocal(env, s, me, other, accepted, link, back, first);
    case Send(me, other, kind, link, back, first) =>
      RelayedLocal(env, s, env.icq(me), me, other, kind, link);
      RespondedLocal(env, s, me, other, kind == AuthOK, link, back, first);
  }

  /** What passes a gate that is shut: nothing. */
  lemma ShutGate(env: Env, s: State, e: Event)
    requires (e.Send? || (e.Respond? && !e.accepted)) && !GateOpen(env, s, e.me, e.other)
    ensures var (s', outs) := Step(env, s, e); s'.grants == s.grants && outs == []
  {
  }

  /** Two severed users stay severed, and no message passes, until one of them grants. */
  lemma StepStaysSevered(env: Env, s: State, e: Event, a: Name, b: Name)
    requires Strict(env, a, b) && Severed(s, a, b) && !GrantEvent(e, a, b)
    ensures var (s', outs) := Step(env, s, e); Severed(s', a, b) && Silent(outs, a, b)
  {
    match e
    case Upsert(me, xs) => AdmittedLocal(env, s, me, xs);
    case Delete(me, xs) =>
      DeletionGrants(env, s, me, xs, (a, b));
      DeletionGrants(env, s, me, xs, (b, a));
      DroppedSends(env, Unlisted(s, me, xs), me, xs);
    case PreAuthorize(_, _, _, _, _) => EventLocal(env, s, e);
    case _ =>
      EventLocal(env, s, e);
      if Pair(e.me, e.other, a, b) {
        ShutGate(env, s, e);
      }
  }

  predicate NoGrantEvent(es: seq<Event>, a: Name, b: Name) {
    forall i | 0 <= i < |es| :: !GrantEvent(es[i], a, b)
  }

  lemma {:induction false} SeveredIsSilent(env: Env, s: State, es: seq<Event>, a: Name, b: Name)
    requires Strict(env, a, b) && Severed(s, a, b) && NoGrantEvent(es, a, b)
    ensures var (s', outs) := Run(env, s, es); Severed(s', a, b) && Silent(outs, a, b)
    decreases |es|
  {
    if es != [] {
      var front := es[..|es| - 1];
      SeveredIsSilent(env, s, front, a, b);
      StepStaysSevered(env, Run(env, s, front).0, es[|es| - 1], a, b);
    }
  }

  /** The event takes the other user off the list of one of the two for good. */
  predicate Removes(env: Env, s: State, e: Event, a: Name, b: Name) {
    e.Delete? && exists i | 0 <= i < |e.items| ::
      Severs(env, Unlisted(s, e.me, e.items), e.me, e.items[i]) && Pair(e.me, Ident(e.items[i].name), a, b)
  }

  /**
   After a real removal by either side no message passes either way, in any
   run, until a pre-authorization or an accepted request between the two.
   */
  lemma RemovalSilences(env: Env, s: State, e: Event, es: seq<Event>, a: Name, b: Name)
    requires Strict(env, a, b) && Removes(env, s, e, a, b) && NoGrantEvent(es, a, b)
    ensures Silent(Run(env, Step(env, s, e).0, es).1, a, b)
  {
    DeletionGrants(env, s, e.me, e.items, (a, b));
    DeletionGrants(env, s, e.me, e.items, (b, a));
    SeveredIsSilent(env, Step(env, s, e).0, es, a, b);
  }

  // ---------------------------------------------------------------- connections

  /** An accept needs no request before it: even a party just removed opens both ways by accepting. */
  lemma AcceptConnects(env: Env, s: State, e: Event)
    requires e.Respond? && e.accepted && Strict(env, e.me, e.other)
    ensures Connected(Step(env, s, e).0, e.me, e.other)
  {
  }

  lemma StepStaysConnected(env: Env, s: State, e: Event, a: Name, b: Name)
    requires Connected(s, a, b) && !Removes(env, s, e, a, b)
    ensures Connected(Step(env, s, e).0, a, b)
  {
    match e
    case Upsert(me, xs) => AdmittedLocal(env, s, me, xs);
    case Delete(me, xs) =>
      DeletionGrants(env, s, me, xs, (a, b));
      DeletionGrants(env, s, me, xs, (b, a));
    case _ => EventLocal(env, s, e);
  }

  /** An accept opens messaging both ways, until a real removal: moving a buddy between groups does not close it. */
  lemma {:induction false} ConnectedUntilRemoved(env: Env, s: State, es: seq<Event>, a: Name, b: Name)
    requires Connected(s, a, b)
    requires forall k | 0 <= k < |es| :: !Removes(env, Run(env, s, es[..k]).0, es[k], a, b)
    ensures var s' := Run(env, s, es).0; Connected(s', a, b) && GateOpen(env, s', a, b) && GateOpen(env, s', b, a)
    decreases |es|
  {
    if es != [] {
      var front := es[..|es| - 1];
      assert forall k | 0 <= k < |front| :: front[..k] == es[..k];
      ConnectedUntilRemoved(env, s, front, a, b);
      StepStaysConnected(env, Run(env, s, front).0, es[|es| - 1], a, b);
    }
  }

  /** The event grants: its sender admits the other, and between AIM users may be admitted in turn. */
  predicate Accepts(e: Event) {
    e.PreAuthorize? || (e.Respond? && e.accepted) || (e.Send? && e.kind == AuthOK)
  }

  /**
   A message passes only to someone who, at that moment, lets the sender through:
   as things stood before the request, or because the request itself has just
   granted it.
   */
  lemma PassedWithConsent(env: Env, s: State, e: Event, i: nat)
    requires i < |Step(env, s, e).1| && Step(env, s, e).1[i].Passed?
    ensures !e.Upsert? && !e.Delete?
    ensures var out := Step(env, s, e).1[i];
      || GateOpen(env, s, out.from, out.to)
      || (Accepts(e) && out.from == e.other && out.to == e.me && GateOpen(env, Record(env, s, e.me, e.other), out.from, out.to))
  {
    match e
    case Upsert(me, xs) => AdmittedLocal(env, s, me, xs);
    case Delete(me, xs) => DroppedSends(env, Unlisted(s, me, xs), me, xs);
    case _ =>
  }

  // ---------------------------------------------------------------- where grants come from

  /** The event makes `owner` admit `other`, if both are registered. */
  predicate Gives(env: Env, s: State, e: Event, owner: Name, other: Name) {
    match e
    case Upsert(me, xs) =>
      && env.icq(me) && !env.icq(other) && owner == me
      && (forall i | 0 <= i < |xs| :: !DeniesSelf(me, xs[i]))
      && (exists i | 0 <= i < |xs| :: xs[i].classID == CLASS_BUDDY && Ident(xs[i].name) == other)
    case Delete(_, _) => false
    case PreAuthorize(me, to, _, _, _) => me != to && owner == me && other == to
    case Respond(me, to, accepted, _, _, _) => accepted && Both(env, me, to, true, owner, other)
    case Send(me, to, kind, link, _, _) =>
      && kind == AuthOK && !link.blocked && link.online && GateOpen(env, s, me, to)
      && Both(env, me, to, link.usesFeedbag, owner, other)
  }

  predicate Both(env: Env, me: Name, to: Name, mutual: bool, owner: Name, other: Name) {
    (owner == me && other == to) || (mutual && !env.icq(me) && !env.icq(to) && owner == to && other == me)
  }

  lemma {:induction false} AdmittedGrants(env: Env, s: State, me: Name, xs: seq<FeedbagItem>, p: (Name, Name))
    ensures p in AdmittedAll(env, s, me, xs).0.grants <==>
      || p in s.grants
      || (&& p.0 == me && me in env.users && p.1 in env.users && env.icq(me) && !env.icq(p.1)
          && exists i | 0 <= i < |xs| :: xs[i].classID == CLASS_BUDDY && Ident(xs[i].name) == p.1)
    decreases |xs|
  {
    if xs != [] {
      var front := xs[..|xs| - 1];
      AdmittedGrants(env, s, me, front, p);
      assert forall i | 0 <= i < |front| :: front[i] == xs[i];
    }
  }

  /** Every step but a deletion adds exactly the grants its event gives. */
  lemma GrantedIff(env: Env, s: State, e: Event, p: (Name, Name))
    requires !e.Delete?
    ensures p in Step(env, s, e).0.grants <==>
      p in s.grants || (p.0 in env.users && p.1 in env.users && Gives(env, s, e, p.0, p.1))
  {
    match e
    case Upsert(me, xs) => AdmittedGrants(env, s, me, xs, p);
    case PreAuthorize(me, other, link, back, first) => AuthorizedGrants(env, s, me, other, link, back, first);
    case Respond(me, other, accepted, link, back, first) => AuthorizedGrants(env, s, me, other, link, back, first);
    case Send(me, other, kind, link, back, first) => AuthorizedGrants(env, s, me, other, link, back, first);
  }

  lemma AuthorizedGrants(env: Env, s: State, granter: Name, requester: Name, link: Link, back: Link, first: Key)
    ensures Authorized(env, s, granter, requester, link, back, first).0.grants == Record(env, s, granter, requester).grants
  {
  }

  /** Over every run, a grant that was not there at the start was given by one of the events. */
  lemma {:induction false} GrantsComeFrom(env: Env, s: State, es: seq<Event>, p: (Name, Name)) returns (k: nat)
    requires p !in s.grants && p in Run(env, s, es).0.grants
    ensures k < |es| && p !in Run(env, s, es[..k]).0.grants && Gives(env, Run(env, s, es[..k]).0, es[k], p.0, p.1)
    decreases |es|
  {
    var n := |es| - 1;
    var s1 := Run(env, s, es[..n]).0;
    if p in s1.grants {
      k := GrantsComeFrom(env, s, es[..n], p);
      assert es[..n][..k] == es[..k];
    } else {
      k := n;
      if es[n].Delete? {
        DeletionGrants(env, s1, es[n].me, es[n].items, p);
      } else {
        GrantedIff(env, s1, es[n], p);
      }
    }
  }

  // ---------------------------------------------------------------- removal notices

  function Notices(outs: seq<Out>, a: Name, b: Name): nat {
    if outs == [] then 0 else
    var o := outs[|outs| - 1];
    Notices(outs[..|outs| - 1], a, b) + if o.RemovalNotice? && Pair(o.from, o.to, a, b) then 1 else 0
  }

  lemma {:induction false} NoticesSplit(outs: seq<Out>, more: seq<Out>, a: Name, b: Name)
    ensures Notices(outs + more, a, b) == Notices(outs, a, b) + Notices(more, a, b)
    decreases |more|
  {
    if more == [] {
      assert outs + more == outs;
    } else {
      NoticesSplit(outs, more[..|more| - 1], a, b);
      assert (outs + more)[..|outs + more| - 1] == outs + more[..|more| - 1];
    }
  }

  lemma {:induction false} NoNotices(outs: seq<Out>, a: Name, b: Name)
    requires forall i | 0 <= i < |outs| :: !outs[i].RemovalNotice?
    ensures Notices(outs, a, b) == 0
    decreases |outs|
  {
    if outs != [] {
      NoNotices(outs[..|outs| - 1], a, b);
    }
  }

  /** One if a grant between the two is left. */
  function Linked(s: State, a: Name, b: Name): nat {
    if Severed(s, a, b) then 0 else 1
  }

  lemma DropSpends(env: Env, s: State, me: Name, x: FeedbagItem, a: Name, b: Name)
    requires Strict(env, a, b)
    ensures var (s', outs) := Dropped(env, s, me, x); Notices(outs, a, b) + Linked(s', a, b) <= Linked(s, a, b)
  {
    var outs := Dropped(env, s, me, x).1;
    if outs != [] {
      assert outs[..0] == [];
    }
  }

  lemma {:induction false} DropsSpend(env: Env, s: State, me: Name, xs: seq<FeedbagItem>, a: Name, b: Name)
    requires Strict(env, a, b)
    ensures var (s', outs) := DroppedAll(env, s, me, xs); Notices(outs, a, b) + Linked(s', a, b) <= Linked(s, a, b)
    decreases |xs|
  {
    if xs != [] {
      var (s1, outs) := DroppedAll(env, s, me, xs[..|xs| - 1]);
      DropsSpend(env, s, me, xs[..|xs| - 1], a, b);
      DropSpends(env, s1, me, xs[|xs| - 1], a, b);
      NoticesSplit(outs, Dropped(env, s1, me, xs[|xs| - 1]).1, a, b);
    }
  }

  function GrantEvents(es: seq<Event>, a: Name, b: Name): nat {
    if es == [] then 0 else GrantEvents(es[..|es| - 1], a, b) + if GrantEvent(es[|es| - 1], a, b) then 1 else 0
  }

  lemma StepSpends(env: Env, s: State, e: Event, a: Name, b: Name)
    requires Strict(env, a, b)
    ensures var (s', outs) := Step(env, s, e);
      Notices(outs, a, b) + Linked(s', a, b) <= Linked(s, a, b) + if GrantEvent(e, a, b) then 1 else 0
  {
    if e.Delete? {
      DropsSpend(env, Unlisted(s, e.me, e.items), e.me, e.items, a, b);
    } else {
      if e.Upsert? {
        AdmittedLocal(env, s, e.me, e.items);
      } else {
        EventLocal(env, s, e);
      }
      NoNotices(Step(env, s, e).1, a, b);
      if Severed(s, a, b) && !GrantEvent(e, a, b) {
        StepStaysSevered(env, s, e, a, b);
      }
    }
  }

  /**
   Two clients that echo each other's removals cannot go on forever: there are
   never more notices between two users than grant events between them, plus
   one if a grant was there at the start.
   */
  lemma {:induction false} NoticesArePaidFor(env: Env, s: State, es: seq<Event>, a: Name, b: Name)
    requires Strict(env, a, b)
    ensures var (s', outs) := Run(env, s, es);
      Notices(outs, a, b) + Linked(s', a, b) <= Linked(s, a, b) + GrantEvents(es, a, b)
    decreases |es|
  {
    if es != [] {
      var front := es[..|es| - 1];
      var (s1, outs) := Run(env, s, front);
      NoticesArePaidFor(env, s, front, a, b);
      StepSpends(env, s1, es[|es| - 1], a, b);
      NoticesSplit(outs, Step(env, s1, es[|es| - 1]).1, a, b);
    }
  }

  /**
   A deletion sends a notice to a buddy exactly if one of its items severs the
   two and the buddy would have let a message through before.
   */
  lemma DeletionNotices(env: Env, s: State, me: Name, xs: seq<FeedbagItem>, buddy: Name)
    ensures RemovalNotice(me, buddy) in Deleted(env, s, me, xs).1 <==>
      && (exists i | 0 <= i < |xs| :: Severs(env, Unlisted(s, me, xs), me, xs[i]) && Ident(xs[i].name) == buddy)
      && !RequiresAuth(env, s, buddy, me)
  {
    DroppedNotices(env, Unlisted(s, me, xs), me, xs, buddy);
  }

  lemma {:induction false} DroppedNotices(env: Env, s: State, me: Name, xs: seq<FeedbagItem>, buddy: Name)
    ensures RemovalNotice(me, buddy) in DroppedAll(env, s, me, xs).1 <==>
      && (exists i | 0 <= i < |xs| :: Severs(env, s, me, xs[i]) && Ident(xs[i].name) == buddy)
      && !RequiresAuth(env, s, buddy, me)
    decreases |xs|
  {
    if xs != [] {
      var front := xs[..|xs| - 1];
      DroppedNotices(env, s, me, front, buddy);
      DroppingKeepsBags(env, s, me, front);
      DroppedGrants(env, s, me, front, (buddy, me));
      assert forall i | 0 <= i < |front| :: front[i] == xs[i];
      assert Bag(DroppedAll(env, s, me, front).0, me) == Bag(s, me);
    }
  }

  predicate Guarded(env: Env, owner: Name) {
    owner in env.users && env.users[owner]
  }

  /** To a buddy that requires no authorization, each of two deletions of one item sends a notice. */
  lemma NoticesRepeat(env: Env, s: State, me: Name, x: FeedbagItem)
    requires Severs(env, Unlisted(s, me, [x]), me, x) && !Guarded(env, Ident(x.name))
    ensures var (s1, outs1) := Deleted(env, s, me, [x]);
            var (s2, outs2) := Deleted(env, s1, me, [x]);
            outs1 == outs2 == [RemovalNotice(me, Ident(x.name))]
  {
    var s1 := Deleted(env, s, me, [x]).0;
    DroppingKeepsBags(env, Unlisted(s, me, [x]), me, [x]);
    OneErase(Bag(s, me), x);
    OneErase(Bag(s1, me), x);
    assert Bag(Unlisted(s1, me, [x]), me) == Bag(Unlisted(s, me, [x]), me);
    OneDrop(env, Unlisted(s, me, [x]), me, x);
    OneDrop(env, Unlisted(s1, me, [x]), me, x);
  }

  lemma OneErase(rows: Rows, x: FeedbagItem)
    ensures Erase(rows, [x]) == rows - {KeyOf(x)}
  {
    assert [x][..0] == [];
  }

  lemma OneDrop(env: Env, s: State, me: Name, x: FeedbagItem)
    ensures DroppedAll(env, s, me, [x]) == Dropped(env, s, me, x)
  {
    assert [x][..0] == [];
    var outs := Dropped(env, s, me, x).1;
    assert [] + outs == outs;
  }

  /** Notices between the two are bounded by the grants, in every run from every state. */
  ghost predicate NoticesBounded(env: Env, a: Name, b: Name) {
    forall s, es :: Notices(Run(env, s, es).1, a, b) <= Linked(s, a, b) + GrantEvents(es, a, b)
  }

  /** For two AIM users the bound holds exactly if both accounts are registered and require authorization. */
  lemma NoticesBoundedIff(env: Env, a: Name, b: Name)
    requires !env.icq(a) && !env.icq(b) && Ident(a) == a && Ident(b) == b
    ensures NoticesBounded(env, a, b) <==> Guarded(env, a) && Guarded(env, b)
  {
    if Guarded(env, a) && Guarded(env, b) {
      forall s, es ensures Notices(Run(env, s, es).1, a, b) <= Linked(s, a, b) + GrantEvents(es, a, b) {
        NoticesArePaidFor(env, s, es, a, b);
      }
    } else {
      var unguarded := if Guarded(env, a) then b else a;
      UnpaidNotice(env, if Guarded(env, a) then a else b, unguarded, a, b);
    }
  }

  /** One deletion from an empty list, without a grant anywhere. */
  lemma UnpaidNotice(env: Env, me: Name, buddy: Name, a: Name, b: Name)
    requires !env.icq(me) && !env.icq(buddy) && Ident(buddy) == buddy && !Guarded(env, buddy) && Pair(me, buddy, a, b)
    ensures !NoticesBounded(env, a, b)
  {
    var s := State(map[], {});
    var x := FeedbagItem(buddy, 1, 1, CLASS_BUDDY, []);
    var es := [Delete(me, [x])];
    OneErase(Bag(s, me), x);
    NoticesRepeat(env, s, me, x);
    assert es[..0] == [];
    assert Run(env, s, []) == (s, []) && GrantEvents([], a, b) == 0;
    assert Run(env, s, es).1 == [] + Deleted(env, s, me, [x]).1 == [RemovalNotice(me, buddy)];
    OneNotice(RemovalNotice(me, buddy), a, b);
    assert GrantEvents(es, a, b) == 0 && Linked(s, a, b) == 0;
  }

  lemma OneNotice(o: Out, a: Name, b: Name)
    requires o.RemovalNotice? && Pair(o.from, o.to, a, b)
    ensures Notices([o], a, b) == 1
  {
    assert [o][..0] == [];
  }

  // ---------------------------------------------------------------- adding

  lemma {:induction false} StillPending(tlvs: seq<Item>, t: Item)
    requires t.tag == ATTR_PENDING
    ensures Lookup(tlvs + [t], ATTR_PENDING).Some?
    decreases |tlvs|
  {
    if tlvs != [] {
      StillPending(tlvs[1..], t);
      assert (tlvs + [t])[1..] == tlvs[1..] + [t];
    }
  }

  /** An AIM user's list gets no buddy without the buddy's consent, except as pending. */
  lemma {:induction false} AddedWithConsent(env: Env, s: State, me: Name, xs: seq<FeedbagItem>)
    requires !env.icq(me)
    ensures var (s1, stored, held, _) := AdmittedAll(env, s, me, xs);
      && s1 == s
      && (forall i | 0 <= i < |stored| && stored[i].classID == CLASS_BUDDY ::
            Pending(stored[i]) || !RequiresAuth(env, s, Ident(stored[i].name), me))
      && (forall name <- held :: RequiresAuth(env, s, Ident(name), me))
    decreases |xs|
  {
    if xs != [] {
      var x := xs[|xs| - 1];
      AddedWithConsent(env, s, me, xs[..|xs| - 1]);
      StillPending(x.tlvs, Item(ATTR_PENDING, []));
    }
  }

  /** Taking the pending mark off leaves every other attribute as it was. */
  lemma {:induction false} UnpendKeeps(tlvs: seq<Item>, tag: nat)
    requires tag != ATTR_PENDING
    ensures Lookup(Unpend(tlvs), tag) == Lookup(tlvs, tag)
    decreases |tlvs|
  {
    if tlvs != [] {
      UnpendKeeps(tlvs[1..], tag);
      if tlvs[0].tag != ATTR_PENDING {
        assert Unpend(tlvs)[1..] == Unpend(tlvs[1..]);
      }
    }
  }

  /**
   Between AIM users an item is held back exactly if consent is missing and the
   client has not said it is pending; what is stored is pending exactly if
   consent is missing, and otherwise the item that was sent.
   */
  lemma AdmissionFollowsConsent(env: Env, s: State, me: Name, x: FeedbagItem, tag: nat)
    requires !env.icq(me) && !env.icq(Ident(x.name)) && x.classID == CLASS_BUDDY && tag != ATTR_PENDING
    ensures var (s', a, outs) := Admitted(env, s, me, x);
      var missing := RequiresAuth(env, s, Ident(x.name), me);
      && s' == s
      && (a.Hold? <==> missing && !Pending(x))
      && (a.Admit? ==> (Pending(a.item) <==> missing) && Lookup(a.item.tlvs, tag) == Lookup(x.tlvs, tag))
      && (a.Admit? ==> KeyOf(a.item) == KeyOf(x) && a.item.name == x.name && a.item.classID == x.classID)
      && outs == if a.Hold? then [AuthRequest(me, Ident(x.name))] else []
  {
    UnpendKeeps(x.tlvs, tag);
  }
}
