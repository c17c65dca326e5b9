/**
 Who may list and message whom: the authorization parts of foodgroup/feedbag.go
 and foodgroup/icbm.go over the grants of state/user_store.go. Each handler is
 one atomic step.
 */
module Consent {
  import opened Wrappers
  import opened ScreenNames
  import opened Tlv
  import opened FeedbagItems
  import opened FeedbagReplay

  const ATTR_PENDING: nat := 0x0066
  const AUTH_REQUIRED: nat := 0x000E

  /** Registered users, with their "authorization required" flag, and which names are ICQ numbers. */
  datatype Env = Env(users: map<Name, bool>, icq: Name -> bool)

  /** Stored buddy lists, and contactPreauth: pairs of an owner and whom it authorized. */
  datatype State = State(bags: map<Name, Rows>, grants: set<(Name, Name)>)

  datatype Kind = Plain | AuthOK | AuthDeny | AuthOther

  /** What a handler sends. A message passes when it is delivered, or stored for a recipient who is offline. */
  datatype Out =
    | AuthRequest(from: Name, to: Name)
    | RemovalNotice(from: Name, to: Name)
    | Passed(from: Name, to: Name, kind: Kind, stored: bool)

  function Bag(s: State, user: Name): Rows {
    if user in s.bags then s.bags[user] else map[]
  }

  // ---------------------------------------------------------------- grants

  predicate RequiresAuth(env: Env, s: State, owner: Name, requester: Name) {
    owner in env.users && env.users[owner] && (owner, requester) !in s.grants
  }

  /** The foreign keys: nothing is recorded unless both are registered. */
  function Record(env: Env, s: State, owner: Name, requester: Name): State {
    if owner in env.users && requester in env.users then s.(grants := s.grants + {(owner, requester)}) else s
  }

  function Revoke(s: State, owner: Name, requester: Name): State {
    s.(grants := s.grants - {(owner, requester)})
  }

  // ---------------------------------------------------------------- adding

  predicate Pending(x: FeedbagItem) {
    Lookup(x.tlvs, ATTR_PENDING).Some?
  }

  /** `slices.DeleteFunc` of the pending attribute. */
  function Unpend(tlvs: seq<Item>): (r: seq<Item>)
    ensures Lookup(r, ATTR_PENDING).None?
  {
    if tlvs == [] then []
    else if tlvs[0].tag == ATTR_PENDING then Unpend(tlvs[1..])
    else
      var r := [tlvs[0]] + Unpend(tlvs[1..]);
      assert r[1..] == Unpend(tlvs[1..]);
      r
  }

  datatype Admission = Admit(item: FeedbagItem) | Hold

  /** What one item of an upsert becomes, the grant it brings about, and the request it sends. */
  function Admitted(env: Env, s: State, me: Name, x: FeedbagItem): (State, Admission, seq<Out>) {
    if x.classID != CLASS_BUDDY then (s, Admit(x), []) else
    var sn := Ident(x.name);
    var blocked := RequiresAuth(env, s, sn, me);
    if env.icq(me) && !env.icq(sn) then (Record(env, s, me, sn), Admit(x), [])
    else if env.icq(me) == env.icq(sn) then
      if blocked && !Pending(x) then (s, Hold, if env.icq(me) then [] else [AuthRequest(me, sn)])
      else if Pending(x) && !blocked then (s, Admit(x.(tlvs := Unpend(x.tlvs))), [])
      else (s, Admit(x), [])
    else if blocked then (s, Admit(x.(tlvs := x.tlvs + [Item(ATTR_PENDING, [])])), [AuthRequest(me, sn)])
    else (s, Admit(x), [])
  }

  /** The loop over the items: what is to be stored, and which names are answered "authorization required". */
  function AdmittedAll(env: Env, s: State, me: Name, xs: seq<FeedbagItem>): (State, seq<FeedbagItem>, set<Name>, seq<Out>) {
    if xs == [] then (s, [], {}, []) else
    var x := xs[|xs| - 1];
    var (s1, stored, held, outs) := AdmittedAll(env, s, me, xs[..|xs| - 1]);
    var (s2, a, more) := Admitted(env, s1, me, x);
    (s2, stored + (if a.Admit? then [a.item] else []), held + (if a.Hold? then {x.name} else {}), outs + more)
  }

  predicate DeniesSelf(me: Name, x: FeedbagItem) {
    x.classID == CLASS_DENY && Ident(x.name) == me
  }

  /** `UpsertItem`; the result codes are missing if the request is refused outright. */
  function Upserted(env: Env, s: State, me: Name, xs: seq<FeedbagItem>): (State, Option<seq<nat>>, seq<Out>) {
    if exists i | 0 <= i < |xs| :: DeniesSelf(me, xs[i]) then (s, None, []) else
    var (s1, stored, held, outs) := AdmittedAll(env, s, me, xs);
    (s1.(bags := s1.bags[me := Store(Bag(s1, me), stored)]),
     Some(seq(|xs|, i requires 0 <= i < |xs| => if xs[i].name in held then AUTH_REQUIRED else 0)),
     outs)
  }

  // ---------------------------------------------------------------- removing

  /** `buddyStillListed`. */
  predicate StillListed(rows: Rows, buddy: Name) {
    exists k <- rows :: rows[k].classID == CLASS_BUDDY && Ident(rows[k].name) == buddy
  }

  /** A deleted item takes the connection down, if the deletion was no move within the list. */
  predicate Severs(env: Env, s: State, me: Name, x: FeedbagItem) {
    x.classID == CLASS_BUDDY && !env.icq(me) && !env.icq(Ident(x.name)) && !StillListed(Bag(s, me), Ident(x.name))
  }

  /** What follows from one deleted item, after all of them are gone from the list. */
  function Dropped(env: Env, s: State, me: Name, x: FeedbagItem): (State, seq<Out>) {
    if !Severs(env, s, me, x) then (s, []) else
    var buddy := Ident(x.name);
    (Revoke(Revoke(s, me, buddy), buddy, me), if RequiresAuth(env, s, buddy, me) then [] else [RemovalNotice(me, buddy)])
  }

  function DroppedAll(env: Env, s: State, me: Name, xs: seq<FeedbagItem>): (State, seq<Out>) {
    if xs == [] then (s, []) else
    var (s1, outs) := DroppedAll(env, s, me, xs[..|xs| - 1]);
    var (s2, more) := Dropped(env, s1, me, xs[|xs| - 1]);
    (s2, outs + more)
  }

  function Unlisted(s: State, me: Name, xs: seq<FeedbagItem>): State {
    s.(bags := s.bags[me := Erase(Bag(s, me), xs)])
  }

  /** `DeleteItem`. */
  function Deleted(env: Env, s: State, me: Name, xs: seq<FeedbagItem>): (State, seq<Out>) {
    DroppedAll(env, Unlisted(s, me, xs), me, xs)
  }

  // ---------------------------------------------------------------- messages

  /** How things stand with a recipient: blocks in either direction, and its session. */
  datatype Link = Link(blocked: bool, online: bool, usesFeedbag: bool, storable: bool)

  /**
   The consent gate of `ChannelMsgToHost`. It asks the sending session for its
   UIN, and the sessions made for answers to a request have none.
   */
  predicate GateOpenFor(env: Env, s: State, uin: bool, from: Name, to: Name) {
    uin || env.icq(to) || !RequiresAuth(env, s, to, from)
  }

  predicate GateOpen(env: Env, s: State, from: Name, to: Name) {
    GateOpenFor(env, s, env.icq(from), from, to)
  }

  /** A message that is relayed as one, or stored for later, sent by a session with or without a UIN. */
  function Relayed(env: Env, s: State, uin: bool, from: Name, to: Name, kind: Kind, link: Link): (State, seq<Out>) {
    if link.blocked || !GateOpenFor(env, s, uin, from, to) then (s, [])
    else if !link.online then (s, if link.storable then [Passed(from, to, kind, true)] else [])
    else (if kind == AuthOK && !link.usesFeedbag then Record(env, s, from, to) else s, [Passed(from, to, kind, false)])
  }

  /** `clearPendingAuth`: the row of the granter that the unordered SELECT lists first loses its pending mark. */
  function Cleared(s: State, granter: Name, requester: Name, first: Key): Option<State> {
    var rows := Bag(s, requester);
    if first in rows && rows[first].classID == CLASS_BUDDY && rows[first].name == granter && Pending(rows[first])
    then Some(s.(bags := s.bags[requester := Store(rows, [rows[first].(tlvs := Unpend(rows[first].tlvs))])]))
    else None
  }

  /** `authorizeContact`; `back` is how things stand with the granter. */
  function Authorized(env: Env, s: State, granter: Name, requester: Name, link: Link, back: Link, first: Key): (State, seq<Out>) {
    var s1 := Record(env, s, granter, requester);
    if !link.online then Relayed(env, s1, false, granter, requester, AuthOK, link) else
    var cleared := Cleared(s1, granter, requester, first);
    if cleared.Some? then
      if back.online && back.usesFeedbag then (cleared.value, [])
      else Relayed(env, cleared.value, env.icq(requester), requester, granter, AuthOther, back)
    else if link.usesFeedbag then (s1, [])
    else Relayed(env, s1, false, granter, requester, AuthOK, link)
  }

  /** `RespondAuthorizeToHost`: between AIM users an accept grants both ways. */
  function Responded(env: Env, s: State, granter: Name, requester: Name, accepted: bool, link: Link, back: Link, first: Key): (State, seq<Out>) {
    if accepted then
      var (s1, outs) := Authorized(env, s, granter, requester, link, back, first);
      (if env.icq(granter) || env.icq(requester) then s1 else Record(env, s1, requester, granter), outs)
    else if link.online && link.usesFeedbag then (s, [])
    else Relayed(env, s, false, granter, requester, AuthDeny, link)
  }

  /** `ChannelMsgToHost`: to a feedbag session, authorization events on channel 4 are not relayed but acted upon. */
  function Sent(env: Env, s: State, from: Name, to: Name, kind: Kind, link: Link, back: Link, first: Key): (State, seq<Out>) {
    if kind == Plain || link.blocked || !GateOpen(env, s, from, to) || !link.online || !link.usesFeedbag then
      Relayed(env, s, env.icq(from), from, to, kind, link)
    else if kind == AuthOther then (s, [Passed(from, to, kind, false)])
    else
      var (s1, outs) := Responded(env, s, from, to, kind == AuthOK, link, back, first);
      (s1, [Passed(from, to, kind, false)] + outs)
  }

  // ---------------------------------------------------------------- runs

  datatype Event =
    | Upsert(me: Name, items: seq<FeedbagItem>)
    | Delete(me: Name, items: seq<FeedbagItem>)
    | PreAuthorize(me: Name, other: Name, link: Link, back: Link, first: Key)
    | Respond(me: Name, other: Name, accepted: bool, link: Link, back: Link, first: Key)
    | Send(me: Name, other: Name, kind: Kind, link: Link, back: Link, first: Key)

  function Step(env: Env, s: State, e: Event): (State, seq<Out>) {
    match e
    case Upsert(me, xs) => var (s1, _, outs) := Upserted(env, s, me, xs); (s1, outs)
    case Delete(me, xs) => Deleted(env, s, me, xs)
    case PreAuthorize(me, other, link, back, first) =>
      if other == me then (s, []) else Authorized(env, s, me, other, link, back, first)
    case Respond(me, other, accepted, link, back, first) => Responded(env, s, me, other, accepted, link, back, first)
    case Send(me, other, kind, link, back, first) => Sent(env, s, me, other, kind, link, back, first)
  }

  function Run(env: Env, s: State, es: seq<Event>): (State, seq<Out>) {
    if es == [] then (s, []) else
    var (s1, outs) := Run(env, s, es[..|es| - 1]);
    var (s2, more) := Step(env, s1, es[|es| - 1]);
    (s2, outs + more)
  }
}
