/** What the consent handlers do in each case, said of the accounts, the grants and the stored rows alone. */
module ConsentOutcomes {
  import opened Wrappers
  import opened ScreenNames
  import opened Tlv
  import opened FeedbagItems
  import opened FeedbagReplay
  import opened Consent
  import opened ConsentRuns

  /** `to` lets `from` through: one of them is an ICQ user, or `to` is no account, asks for no authorization, or has authorized `from`. */
  predicate LetsIn(env: Env, grants: set<(Name, Name)>, from: Name, to: Name) {
    || env.icq(from) || env.icq(to)
    || to !in env.users || !env.users[to] || (to, from) in grants
  }

  // ---------------------------------------------------------------- messages

  /**
   A message of any kind passes if and only if nobody blocks, the recipient lets
   the sender through, and it can be delivered or, for a recipient who is
   offline, stored.
   */
  lemma MessagePassesIff(env: Env, s: State, from: Name, to: Name, kind: Kind, link: Link, back: Link, first: Key, stored: bool)
    ensures Passed(from, to, kind, stored) in Step(env, s, Send(from, to, kind, link, back, first)).1 <==>
      && !link.blocked && LetsIn(env, s.grants, from, to)
      && ((link.online && !stored) || (!link.online && link.storable && stored))
  {
  }

  /** A plain message is all there is to its request: it passes alone or nothing does, and nobody's grants or lists change. */
  lemma PlainMessage(env: Env, s: State, from: Name, to: Name, link: Link, back: Link, first: Key)
    ensures var (s', outs) := Step(env, s, Send(from, to, Plain, link, back, first));
      && s' == s
      && outs == if !link.blocked && LetsIn(env, s.grants, from, to) && (link.online || link.storable)
                 then [Passed(from, to, Plain, !link.online)] else []
  {
  }

  /** Connected users hear each other until a real removal: every message that is not blocked is delivered. */
  lemma ConnectedUsersTalk(env: Env, s: State, es: seq<Event>, a: Name, b: Name, link: Link, back: Link, first: Key)
    requires Connected(s, a, b) && !link.blocked && link.online
    requires forall k | 0 <= k < |es| :: !Removes(env, Run(env, s, es[..k]).0, es[k], a, b)
    ensures var s' := Run(env, s, es).0;
      && Step(env, s', Send(a, b, Plain, link, back, first)).1 == [Passed(a, b, Plain, false)]
      && Step(env, s', Send(b, a, Plain, link, back, first)).1 == [Passed(b, a, Plain, false)]
  {
    ConnectedUntilRemoved(env, s, es, a, b);
  }

  /** A user's row that `clearPendingAuth` finds: of the granter, and pending. */
  predicate PendingRow(s: State, granter: Name, requester: Name, first: Key) {
    && requester in s.bags && first in s.bags[requester]
    && var row := s.bags[requester][first];
       row.classID == 0 && row.name == granter && Lookup(row.tlvs, 0x0066).Some?
  }

  /** A grant is recorded if both are registered. */
  predicate Holds(env: Env, s: State, owner: Name, other: Name, granter: Name, requester: Name) {
    (owner, other) in s.grants || (owner == granter && other == requester && owner in env.users && other in env.users)
  }

  /**
   An accept is told as a message exactly if the requester's client cannot be told
   otherwise: it is offline, or it keeps no feedbag and has no pending row of the
   granter. The message is from no ICQ session, so an AIM requester must let it in.
   */
  lemma AcceptPassesIff(env: Env, s: State, me: Name, other: Name, link: Link, back: Link, first: Key, stored: bool)
    ensures Passed(me, other, AuthOK, stored) in Step(env, s, Respond(me, other, true, link, back, first)).1 <==>
      && !link.blocked
      && (env.icq(other) || other !in env.users || !env.users[other] || Holds(env, s, other, me, me, other))
      && (if link.online then !stored && !link.usesFeedbag && !PendingRow(s, me, other, first) else stored && link.storable)
  {
  }

  /** A pre-authorization tells and unmarks exactly as an accept does; it is refused for oneself. */
  lemma PreAuthorizeLikeAccept(env: Env, s: State, me: Name, other: Name, link: Link, back: Link, first: Key)
    ensures var (s', outs) := Step(env, s, PreAuthorize(me, other, link, back, first));
      if other == me then s' == s && outs == []
      else
        var (t, more) := Step(env, s, Respond(me, other, true, link, back, first));
        outs == more && s'.bags == t.bags
        && s'.grants == s.grants + (if me in env.users && other in env.users then {(me, other)} else {})
        && t.grants == s'.grants + (if me in env.users && other in env.users && !env.icq(me) && !env.icq(other) then {(other, me)} else {})
  {
    AuthorizedGrants(env, s, me, other, link, back, first);
  }

  /** A rejection likewise, and it grants nothing. */
  lemma RejectPassesIff(env: Env, s: State, me: Name, other: Name, link: Link, back: Link, first: Key, stored: bool)
    ensures var (s', outs) := Step(env, s, Respond(me, other, false, link, back, first));
      && s' == s
      && (Passed(me, other, AuthDeny, stored) in outs <==>
            && !link.blocked && !(link.online && link.usesFeedbag)
            && (env.icq(other) || other !in env.users || !env.users[other] || (other, me) in s.grants)
            && (if link.online then !stored else stored && link.storable))
  {
  }

  /** The requester's pending row loses its mark, and nothing else about the lists changes. */
  lemma AcceptClearsPending(env: Env, s: State, me: Name, other: Name, link: Link, back: Link, first: Key)
    ensures var s' := Step(env, s, Respond(me, other, true, link, back, first)).0;
      if link.online && PendingRow(s, me, other, first) then
        var row := s.bags[other][first];
        s'.bags == s.bags[other := s.bags[other][(row.groupID, row.itemID) := Stored(row.(tlvs := Unpend(row.tlvs)))]]
      else s'.bags == s.bags
  {
    AuthorizedBags(env, s, me, other, link, back, first);
  }

  lemma AuthorizedBags(env: Env, s: State, granter: Name, requester: Name, link: Link, back: Link, first: Key)
    ensures Authorized(env, s, granter, requester, link, back, first).0.bags
         == if link.online && PendingRow(s, granter, requester, first) then
              var row := s.bags[requester][first];
              s.bags[requester := s.bags[requester][(row.groupID, row.itemID) := Stored(row.(tlvs := Unpend(row.tlvs)))]]
            else s.bags
  {
    if PendingRow(s, granter, requester, first) {
      var row := s.bags[requester][first];
      StoreOne(s.bags[requester], row.(tlvs := Unpend(row.tlvs)));
    }
  }

  /** A row as it is stored: buddies, permits and denies under their normalized names. */
  function Stored(x: FeedbagItem): FeedbagItem {
    if x.classID == 0 || x.classID == 2 || x.classID == 3 then x.(name := Ident(x.name)) else x
  }

  lemma StoreOne(rows: Rows, x: FeedbagItem)
    ensures Store(rows, [x]) == rows[(x.groupID, x.itemID) := Stored(x)]
  {
    assert [x][..0] == [];
  }

  // ---------------------------------------------------------------- adding

  /** Consent is missing. */
  predicate Missing(env: Env, grants: set<(Name, Name)>, me: Name, buddy: Name) {
    buddy in env.users && env.users[buddy] && (buddy, me) !in grants
  }

  predicate Marked(x: FeedbagItem) { Lookup(x.tlvs, 0x0066).Some? }

  /** The item that is stored: marked pending for a missing ICQ user's consent, and unmarked once there is consent. */
  function Kept(env: Env, me: Name, x: FeedbagItem, missing: bool): FeedbagItem {
    var b := Ident(x.name);
    if x.classID != 0 || (env.icq(me) && !env.icq(b)) then x
    else if !env.icq(me) && env.icq(b) then if missing then x.(tlvs := x.tlvs + [Item(0x0066, [])]) else x
    else if Marked(x) && !missing then x.(tlvs := Unpend(x.tlvs)) else x
  }

  /** In every case: what is stored, asked for and granted. */
  lemma OneItemAdmitted(env: Env, s: State, me: Name, x: FeedbagItem)
    ensures var (s', a, outs) := Admitted(env, s, me, x);
      var b := Ident(x.name);
      var missing := Missing(env, s.grants, me, b);
      && s'.bags == s.bags
      && s'.grants == (if x.classID == 0 && env.icq(me) && !env.icq(b) && me in env.users && b in env.users then s.grants + {(me, b)} else s.grants)
      && (a.Hold? <==> x.classID == 0 && env.icq(me) == env.icq(b) && missing && !Marked(x))
      && (a.Admit? ==> a.item == Kept(env, me, x, missing))
      && outs == if x.classID == 0 && !env.icq(me) && missing && (a.Hold? || env.icq(b)) then [AuthRequest(me, b)] else []
  {
  }

  /** What an upsert of one item leaves and answers. */
  lemma OneItemUpserted(env: Env, s: State, me: Name, x: FeedbagItem)
    ensures var (s', results, outs) := Upserted(env, s, me, [x]);
      var (s1, a, more) := Admitted(env, s, me, x);
      if x.classID == 3 && Ident(x.name) == me then s' == s && results == None && outs == []
      else if a.Hold? then s' == s1.(bags := s.bags[me := Bag(s, me)]) && results == Some([0x0E]) && outs == more
      else
        && s' == s1.(bags := s.bags[me := Bag(s, me)[(a.item.groupID, a.item.itemID) := Stored(a.item)]])
        && results == Some([0]) && outs == more
  {
    OneItemAdmitted(env, s, me, x);
    OneOf(env, s, me, x);
    var a := Admitted(env, s, me, x).1;
    if a.Admit? {
      StoreOne(Bag(s, me), a.item);
    }
    assert [x][0] == x;
    if DeniesSelf(me, x) {
      assert DeniesSelf(me, [x][0]);
    } else {
      var results := Upserted(env, s, me, [x]).1;
      assert results.Some? && results.value == [if a.Hold? then 0x0E else 0];
    }
  }

  lemma OneOf(env: Env, s: State, me: Name, x: FeedbagItem)
    ensures var (s1, a, outs) := Admitted(env, s, me, x);
      AdmittedAll(env, s, me, [x]) == (s1, if a.Admit? then [a.item] else [], if a.Hold? then {x.name} else {}, outs)
  {
    assert [x][..0] == [];
    var (s1, a, outs) := Admitted(env, s, me, x);
    assert AdmittedAll(env, s, me, []) == (s, [], {}, []);
    assert [] + outs == outs && {} + (if a.Hold? then {x.name} else {}) == (if a.Hold? then {x.name} else {});
    assert [] + (if a.Admit? then [a.item] else []) == (if a.Admit? then [a.item] else []);
  }

  /** Upserting many items leaves what upserting them one after the other leaves. */
  lemma UpsertsOneByOne(env: Env, s: State, me: Name, xs: seq<FeedbagItem>, x: FeedbagItem)
    requires (forall i | 0 <= i < |xs| :: !DeniesSelf(me, xs[i])) && !DeniesSelf(me, x)
    ensures var (s1, _, outs) := Upserted(env, s, me, xs);
      var (s2, _, more) := Upserted(env, s1, me, [x]);
      var (s3, _, all) := Upserted(env, s, me, xs + [x]);
      s3 == s2 && all == outs + more
  {
    var one, two := Upserted(env, s, me, xs), Upserted(env, s, me, xs + [x]);
    UpsertLeaves(env, s, me, xs);
    LongerLeaves(env, s, me, xs, x);
    var t := ThenOne(env, s, me, xs, x, one.0);
    assert two.2 == one.2 + t.2;
    SameState(t.0, two.0);
  }

  /** Item j is held back when its turn comes. */
  predicate HeldAt(env: Env, s: State, me: Name, xs: seq<FeedbagItem>, j: nat)
    requires j < |xs|
  {
    Admitted(env, AdmittedAll(env, s, me, xs[..j]).0, me, xs[j]).1.Hold?
  }

  lemma {:induction false} HeldNames(env: Env, s: State, me: Name, xs: seq<FeedbagItem>, name: Name)
    ensures name in AdmittedAll(env, s, me, xs).2 <==> exists j | 0 <= j < |xs| :: HeldAt(env, s, me, xs, j) && xs[j].name == name
    decreases |xs|
  {
    if xs != [] {
      var front := xs[..|xs| - 1];
      HeldNames(env, s, me, front, name);
      forall j | 0 <= j < |front| ensures HeldAt(env, s, me, front, j) == HeldAt(env, s, me, xs, j) {
        assert front[..j] == xs[..j];
      }
      assert HeldAt(env, s, me, xs, |front|) == Admitted(env, AdmittedAll(env, s, me, front).0, me, xs[|front|]).1.Hold?;
    }
  }

  /** Each item is answered 0x0E exactly if one of its name was held back, and 0 otherwise; denying oneself is the one error. */
  lemma UpsertAnswers(env: Env, s: State, me: Name, xs: seq<FeedbagItem>)
    ensures var results := Upserted(env, s, me, xs).1;
      && (results.None? <==> exists i | 0 <= i < |xs| :: xs[i].classID == 3 && Ident(xs[i].name) == me)
      && (results.Some? ==> |results.value| == |xs| && forall i | 0 <= i < |xs| ::
            results.value[i] == if exists j | 0 <= j < |xs| :: HeldAt(env, s, me, xs, j) && xs[j].name == xs[i].name then 0x0E else 0)
  {
    forall i | 0 <= i < |xs| ensures DeniesSelf(me, xs[i]) <==> xs[i].classID == 3 && Ident(xs[i].name) == me {}
    forall i | 0 <= i < |xs|
      ensures xs[i].name in AdmittedAll(env, s, me, xs).2 <==> exists j | 0 <= j < |xs| :: HeldAt(env, s, me, xs, j) && xs[j].name == xs[i].name
    {
      HeldNames(env, s, me, xs, xs[i].name);
    }
  }

  lemma ThenOne(env: Env, s: State, me: Name, xs: seq<FeedbagItem>, x: FeedbagItem, here: State)
    returns (t: (State, Option<seq<nat>>, seq<Out>))
    requires !DeniesSelf(me, x)
    requires var (s1, stored, _, _) := AdmittedAll(env, s, me, xs);
      here == s1.(bags := s.bags[me := Store(Bag(s, me), stored)])
    ensures t == Upserted(env, here, me, [x])
    ensures var (s2, _, more) := Admitted(env, AdmittedAll(env, s, me, xs).0, me, x);
      && t.0.bags == s.bags[me := Store(Bag(s, me), AdmittedAll(env, s, me, xs + [x]).1)]
      && t.0.grants == s2.grants && t.2 == more
  {
    t := Upserted(env, here, me, [x]);
    var (s1, stored, _, _) := AdmittedAll(env, s, me, xs);
    OneMoreLeaves(env, here, me, x);
    SameAdmission(env, s1, here, me, x);
    assert (xs + [x])[..|xs|] == xs && (xs + [x])[|xs|] == x;
    LastStored(env, s, me, xs, x, Bag(s, me));
    BagSet(here.bags, s.bags, me, Store(Bag(s, me), stored), t.0.bags[me]);
  }

  lemma BagSet(bags: map<Name, Rows>, before: map<Name, Rows>, me: Name, rows: Rows, rows': Rows)
    requires bags == before[me := rows]
    ensures bags[me := rows'] == before[me := rows']
  {
  }

  lemma SameState(s: State, t: State)
    requires s.bags == t.bags && s.grants == t.grants
    ensures s == t
  {
  }

  lemma LongerLeaves(env: Env, s: State, me: Name, xs: seq<FeedbagItem>, x: FeedbagItem)
    requires (forall i | 0 <= i < |xs| :: !DeniesSelf(me, xs[i])) && !DeniesSelf(me, x)
    ensures var (s', _, all) := Upserted(env, s, me, xs + [x]);
      var (s1, stored, _, outs) := AdmittedAll(env, s, me, xs);
      var (s2, _, more) := Admitted(env, s1, me, x);
      && s'.bags == s.bags[me := Store(Bag(s, me), AdmittedAll(env, s, me, xs + [x]).1)]
      && s'.grants == s2.grants && all == outs + more
  {
    var all := xs + [x];
    assert all[..|xs|] == xs && all[|xs|] == x;
    assert forall i | 0 <= i < |all| :: !DeniesSelf(me, all[i]);
    UpsertLeaves(env, s, me, all);
  }

  lemma OneMoreLeaves(env: Env, s: State, me: Name, x: FeedbagItem)
    requires !DeniesSelf(me, x)
    ensures var (s', _, outs) := Upserted(env, s, me, [x]);
      var (s1, a, more) := Admitted(env, s, me, x);
      && s'.bags == s.bags[me := Store(Bag(s, me), if a.Admit? then [a.item] else [])]
      && s'.grants == s1.grants && outs == more
  {
    assert [x][0] == x;
    UpsertLeaves(env, s, me, [x]);
    OneOf(env, s, me, x);
  }

  /** Admission looks at the grants, never at the lists. */
  lemma SameAdmission(env: Env, s: State, t: State, me: Name, x: FeedbagItem)
    requires s.grants == t.grants
    ensures var (s', a, outs) := Admitted(env, s, me, x); var (t', c, more) := Admitted(env, t, me, x);
      a == c && outs == more && s' == s.(grants := s'.grants) && t' == t.(grants := s'.grants)
  {
  }

  lemma UpsertLeaves(env: Env, s: State, me: Name, xs: seq<FeedbagItem>)
    requires forall i | 0 <= i < |xs| :: !DeniesSelf(me, xs[i])
    ensures var (s1, stored, _, outs) := AdmittedAll(env, s, me, xs);
      && s1.bags == s.bags
      && Upserted(env, s, me, xs).0 == s1.(bags := s.bags[me := Store(Bag(s, me), stored)])
      && Upserted(env, s, me, xs).2 == outs
  {
    AdmittedLocal(env, s, me, xs);
  }

  lemma LastStored(env: Env, s: State, me: Name, xs: seq<FeedbagItem>, x: FeedbagItem, rows: Rows)
    requires (xs + [x])[..|xs|] == xs && (xs + [x])[|xs|] == x
    ensures var (s1, stored, _, _) := AdmittedAll(env, s, me, xs);
      var a := Admitted(env, s1, me, x).1;
      Store(rows, AdmittedAll(env, s, me, xs + [x]).1) == Store(Store(rows, stored), if a.Admit? then [a.item] else [])
  {
    var (s1, stored, _, _) := AdmittedAll(env, s, me, xs);
    var a := Admitted(env, s1, me, x).1;
    if a.Admit? {
      StoreOne(Store(rows, stored), a.item);
      StoreSnoc(rows, stored, a.item);
    } else {
      assert stored + [] == stored;
    }
  }

  lemma StoreSnoc(rows: Rows, xs: seq<FeedbagItem>, x: FeedbagItem)
    ensures Store(rows, xs + [x]) == Store(rows, xs)[(x.groupID, x.itemID) := Stored(x)]
  {
    assert (xs + [x])[..|xs|] == xs;
  }

  // ---------------------------------------------------------------- removing

  /** A buddy row for the user is left after the keys are gone: the buddy was moved, or listed twice. */
  predicate StillThere(rows: Rows, xs: seq<FeedbagItem>, buddy: Name) {
    exists k <- rows ::
      && (forall i | 0 <= i < |xs| :: k != (xs[i].groupID, xs[i].itemID))
      && rows[k].classID == 0 && Ident(rows[k].name) == buddy
  }

  /** The item takes the buddy away for good: both are AIM users, and no row for the buddy is left. */
  predicate TakesAway(env: Env, rows: Rows, me: Name, xs: seq<FeedbagItem>, x: FeedbagItem) {
    x.classID == 0 && !env.icq(me) && !env.icq(Ident(x.name)) && !StillThere(rows, xs, Ident(x.name))
  }

  lemma LeftIff(rows: Rows, xs: seq<FeedbagItem>, buddy: Name)
    ensures StillListed(Erase(rows, xs), buddy) <==> StillThere(rows, xs, buddy)
  {
    var left := Erase(rows, xs);
    forall k ensures k in left <==> k in rows && forall i | 0 <= i < |xs| :: k != (xs[i].groupID, xs[i].itemID) {
      EraseAt(rows, xs, k);
    }
    forall k | k in left ensures left[k] == rows[k] {
      EraseAt(rows, xs, k);
    }
  }

  /**
   What a deletion leaves, in terms of the rows alone: the rows with other keys,
   and every grant but those between the user and a buddy that is gone for good.
   Moving a buddy to another group keeps both grants.
   */
  lemma DeletionOutcome(env: Env, s: State, me: Name, xs: seq<FeedbagItem>, p: (Name, Name), k: Key)
    ensures var s' := Deleted(env, s, me, xs).0;
      && (p in s'.grants <==> p in s.grants && forall i | 0 <= i < |xs| && TakesAway(env, Bag(s, me), me, xs, xs[i]) ::
            p != (me, Ident(xs[i].name)) && p != (Ident(xs[i].name), me))
      && (k in Bag(s', me) <==> k in Bag(s, me) && forall i | 0 <= i < |xs| :: k != (xs[i].groupID, xs[i].itemID))
      && (k in Bag(s', me) ==> Bag(s', me)[k] == Bag(s, me)[k])
      && (forall other | other != me :: Bag(s', other) == Bag(s, other))
  {
    DeletionGrants(env, s, me, xs, p);
    DroppingKeepsBags(env, Unlisted(s, me, xs), me, xs);
    EraseAt(Bag(s, me), xs, k);
    forall i | 0 <= i < |xs| ensures Severs(env, Unlisted(s, me, xs), me, xs[i]) <==> TakesAway(env, Bag(s, me), me, xs, xs[i]) {
      LeftIff(Bag(s, me), xs, Ident(xs[i].name));
    }
  }
}
