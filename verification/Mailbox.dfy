/**
 The store of offline messages (state/user_store.go) around the consent
 handlers, and the ways in and out of it that ask for no consent: the web API
 (server/webapi/handlers/messaging.go) and the retrieval of what is stored
 (foodgroup/icbm.go, foodgroup/icq.go).
 */
module Mailbox {
  import opened ScreenNames
  import opened FeedbagItems
  import opened Consent
  import opened ConsentRuns
  import opened ConsentOutcomes

  const OFFLINE_INBOX_LIMIT: nat := 10

  datatype Letter = Letter(from: Name, to: Name, kind: Kind)

  /** Consent, and the stored messages of everybody. */
  datatype World = World(state: State, inbox: seq<Letter>)

  // ---------------------------------------------------------------- the table

  function Count(inbox: seq<Letter>, from: Name, to: Name): nat {
    if inbox == [] then 0 else
    var x := inbox[|inbox| - 1];
    Count(inbox[..|inbox| - 1], from, to) + if x.from == from && x.to == to then 1 else 0
  }

  /** A recipient's messages, and those of the others. */
  function Addressed(inbox: seq<Letter>, me: Name, mine: bool): seq<Letter> {
    if inbox == [] then [] else
    var x := inbox[|inbox| - 1];
    Addressed(inbox[..|inbox| - 1], me, mine) + if (x.to == me) == mine then [x] else []
  }

  /** The messages among what a handler sends that are stored. */
  function Posted(outs: seq<Out>): seq<Letter> {
    if outs == [] then [] else
    var x := outs[|outs| - 1];
    Posted(outs[..|outs| - 1]) + if x.Passed? && x.stored then [Letter(x.from, x.to, x.kind)] else []
  }

  /** A message can be stored only while there is room for it. */
  function Fit(inbox: seq<Letter>, link: Link, from: Name, to: Name): Link {
    link.(storable := link.storable && Count(inbox, from, to) < OFFLINE_INBOX_LIMIT)
  }

  /** The event as the inbox lets it happen. */
  function Fitted(inbox: seq<Letter>, e: Event): Event {
    match e
    case PreAuthorize(me, other, link, back, first) =>
      PreAuthorize(me, other, Fit(inbox, link, me, other), Fit(inbox, back, other, me), first)
    case Respond(me, other, accepted, link, back, first) =>
      Respond(me, other, accepted, Fit(inbox, link, me, other), Fit(inbox, back, other, me), first)
    case Send(me, other, kind, link, back, first) =>
      Send(me, other, kind, Fit(inbox, link, me, other), Fit(inbox, back, other, me), first)
    case _ => e
  }

  // ---------------------------------------------------------------- moves

  datatype Move =
    | Handle(e: Event)
    | SendWeb(me: Name, other: Name, link: Link)                         // SendIM of the web API
    | Retrieve(me: Name)                                                 // OfflineRetrieve
    | Collect(k: nat, usesFeedbag: bool, back: Link, first: Key)         // one turn of the loop of OfflineMsgReq
    | Discard(me: Name)                                                  // DeleteMsgReq

  /** What a move leaves, what it sends, which stored messages it hands out, and which leave the store. */
  datatype Result = Result(w: World, outs: seq<Out>, read: seq<Letter>, gone: seq<Letter>)

  /** `SendIM`: the block check, and no other. */
  function WebOuts(inbox: seq<Letter>, me: Name, other: Name, link: Link): seq<Out> {
    if link.blocked then []
    else if link.online then [Passed(me, other, Plain, false)]
    else if Fit(inbox, link, me, other).storable then [Passed(me, other, Plain, true)]
    else []
  }

  /** A stored authorization event of an ICQ user is acted upon if the recipient's session uses the feedbag. */
  predicate ActedUpon(env: Env, x: Letter, usesFeedbag: bool) {
    env.icq(x.from) && (x.kind == AuthOK || x.kind == AuthDeny) && usesFeedbag
  }

  const HERE: Link := Link(false, true, true, false)

  function Collected(env: Env, w: World, x: Letter, usesFeedbag: bool, back: Link, first: Key): Result {
    if !ActedUpon(env, x, usesFeedbag) then Result(w, [], [x], []) else
    var (s, outs) := Responded(env, w.state, x.from, x.to, x.kind == AuthOK, HERE, Fit(w.inbox, back, x.to, x.from), first);
    Result(World(s, w.inbox + Posted(outs)), outs, [x], [])
  }

  function Moved(env: Env, w: World, m: Move): Result {
    match m
    case Handle(e) =>
      var (s, outs) := Step(env, w.state, Fitted(w.inbox, e));
      Result(World(s, w.inbox + Posted(outs)), outs, [], [])
    case SendWeb(me, other, link) =>
      var outs := WebOuts(w.inbox, me, other, link);
      Result(w.(inbox := w.inbox + Posted(outs)), outs, [], [])
    case Retrieve(me) =>
      var mine := Addressed(w.inbox, me, true);
      Result(w.(inbox := Addressed(w.inbox, me, false)), [], mine, mine)
    case Collect(k, usesFeedbag, back, first) =>
      if k < |w.inbox| then Collected(env, w, w.inbox[k], usesFeedbag, back, first) else Result(w, [], [], [])
    case Discard(me) =>
      Result(w.(inbox := Addressed(w.inbox, me, false)), [], [], Addressed(w.inbox, me, true))
  }

  function Moves(env: Env, w: World, ms: seq<Move>): Result {
    if ms == [] then Result(w, [], [], []) else
    var r := Moves(env, w, ms[..|ms| - 1]);
    var r' := Moved(env, r.w, ms[|ms| - 1]);
    Result(r'.w, r.outs + r'.outs, r.read + r'.read, r.gone + r'.gone)
  }

  // ---------------------------------------------------------------- nothing is lost or doubled

  lemma {:induction false} AddressedIs(inbox: seq<Letter>, me: Name, mine: bool, x: Letter)
    ensures x in Addressed(inbox, me, mine) <==> x in inbox && (x.to == me) == mine
    decreases |inbox|
  {
    if inbox != [] {
      AddressedIs(inbox[..|inbox| - 1], me, mine, x);
      assert inbox == inbox[..|inbox| - 1] + [inbox[|inbox| - 1]];
    }
  }

  lemma {:induction false} AddressedParts(inbox: seq<Letter>, me: Name)
    ensures multiset(inbox) == multiset(Addressed(inbox, me, true)) + multiset(Addressed(inbox, me, false))
    decreases |inbox|
  {
    if inbox != [] {
      var front, x := inbox[..|inbox| - 1], inbox[|inbox| - 1];
      AddressedParts(front, me);
      assert inbox == front + [x];
    }
  }

  lemma {:induction false} PostedSplit(outs: seq<Out>, more: seq<Out>)
    ensures Posted(outs + more) == Posted(outs) + Posted(more)
    decreases |more|
  {
    if more == [] {
      assert outs + more == outs;
    } else {
      PostedSplit(outs, more[..|more| - 1]);
      assert (outs + more)[..|outs + more| - 1] == outs + more[..|more| - 1];
    }
  }

  lemma MoveConserves(env: Env, w: World, m: Move)
    ensures var r := Moved(env, w, m);
      multiset(r.w.inbox) + multiset(r.gone) == multiset(w.inbox) + multiset(Posted(r.outs))
  {
    if m.Retrieve? || m.Discard? {
      AddressedParts(w.inbox, m.me);
    }
  }

  /**
   Over every run, each stored message is still there or has left the store
   exactly once: by retrieval, which hands it out, or by being discarded.
   */
  lemma {:induction false} MailConserved(env: Env, w: World, ms: seq<Move>)
    ensures var r := Moves(env, w, ms);
      multiset(r.w.inbox) + multiset(r.gone) == multiset(w.inbox) + multiset(Posted(r.outs))
    decreases |ms|
  {
    if ms != [] {
      var r := Moves(env, w, ms[..|ms| - 1]);
      MailConserved(env, w, ms[..|ms| - 1]);
      MoveConserves(env, r.w, ms[|ms| - 1]);
      var r' := Moved(env, r.w, ms[|ms| - 1]);
      PostedSplit(r.outs, r'.outs);
      Balance(multiset(w.inbox), multiset(r.w.inbox), multiset(r'.w.inbox), r.gone, r'.gone, Posted(r.outs), Posted(r'.outs));
    }
  }

  lemma Balance(m0: multiset<Letter>, m1: multiset<Letter>, m2: multiset<Letter>,
                gone: seq<Letter>, gone': seq<Letter>, posted: seq<Letter>, posted': seq<Letter>)
    requires m1 + multiset(gone) == m0 + multiset(posted) && m2 + multiset(gone') == m1 + multiset(posted')
    ensures m2 + multiset(gone + gone') == m0 + multiset(posted + posted')
  {
    forall x ensures (m2 + multiset(gone + gone'))[x] == (m0 + multiset(posted + posted'))[x] {
      assert (m1 + multiset(gone))[x] == (m0 + multiset(posted))[x];
      assert (m2 + multiset(gone'))[x] == (m1 + multiset(posted'))[x];
    }
  }

  /** Retrieval hands out everything stored for the user and leaves what is stored for others; discarding leaves the same. */
  lemma RetrievalOutcome(env: Env, w: World, me: Name, x: Letter)
    ensures var r := Moved(env, w, Retrieve(me));
      && r.w.state == w.state && r.outs == [] && r.gone == r.read
      && multiset(r.read)[x] == (if x.to == me then multiset(w.inbox)[x] else 0)
      && multiset(r.w.inbox)[x] == (if x.to == me then 0 else multiset(w.inbox)[x])
      && Moved(env, w, Discard(me)) == r.(read := [])
  {
    AddressedCount(w.inbox, me, true, x);
    AddressedCount(w.inbox, me, false, x);
  }

  lemma {:induction false} AddressedCount(inbox: seq<Letter>, me: Name, mine: bool, x: Letter)
    ensures multiset(Addressed(inbox, me, mine))[x] == if (x.to == me) == mine then multiset(inbox)[x] else 0
    decreases |inbox|
  {
    if inbox != [] {
      var front, y := inbox[..|inbox| - 1], inbox[|inbox| - 1];
      AddressedCount(front, me, mine, x);
      OneMore(front, y, x);
      OneMore(Addressed(front, me, mine), y, x);
      assert inbox == front + [y];
      assert Addressed(front, me, mine) + [] == Addressed(front, me, mine);
    }
  }

  lemma OneMore(xs: seq<Letter>, y: Letter, x: Letter)
    ensures multiset(xs + [y])[x] == multiset(xs)[x] + if y == x then 1 else 0
  {
  }

  /** A message of the web API passes exactly unless it is blocked, or its recipient is offline and it cannot be stored. */
  lemma WebPassesIff(env: Env, w: World, me: Name, other: Name, link: Link)
    ensures var r := Moved(env, w, SendWeb(me, other, link));
      && r.w.state == w.state && r.read == r.gone == []
      && r.outs == (if link.blocked then []
                    else if link.online then [Passed(me, other, Plain, false)]
                    else if link.storable && Count(w.inbox, me, other) < 10 then [Passed(me, other, Plain, true)]
                    else [])
      && r.w.inbox == w.inbox + if !link.blocked && !link.online && link.storable && Count(w.inbox, me, other) < 10
                                then [Letter(me, other, Plain)] else []
  {
    PostedOne(Passed(me, other, Plain, true));
    PostedOne(Passed(me, other, Plain, false));
  }

  /** A plain message to someone offline is stored exactly if it is let through, the recipient takes it and there is room for it. */
  lemma OfflineMessageStoredIff(env: Env, w: World, from: Name, to: Name, link: Link, back: Link, first: Key)
    requires !link.online
    ensures Moved(env, w, Handle(Send(from, to, Plain, link, back, first))).w
         == w.(inbox := w.inbox + if !link.blocked && LetsIn(env, w.state.grants, from, to) && link.storable && Count(w.inbox, from, to) < 10
                                  then [Letter(from, to, Plain)] else [])
  {
    PostedOne(Passed(from, to, Plain, true));
    PlainMessage(env, w.state, from, to, Fit(w.inbox, link, from, to), Fit(w.inbox, back, to, from), first);
  }

  /**
   Asking for stored messages the ICQ way hands each out and leaves it stored. A
   stored accept of an ICQ user is a grant, if the client keeps a feedbag and both
   are registered; no other message grants anything.
   */
  lemma CollectOutcome(env: Env, w: World, k: nat, usesFeedbag: bool, back: Link, first: Key, p: (Name, Name))
    requires k < |w.inbox|
    ensures var x, r := w.inbox[k], Moved(env, w, Collect(k, usesFeedbag, back, first));
      && r.read == [x] && r.gone == [] && w.inbox <= r.w.inbox
      && (p in r.w.state.grants <==>
            || p in w.state.grants
            || (env.icq(x.from) && x.kind == AuthOK && usesFeedbag && p == (x.from, x.to) && x.from in env.users && x.to in env.users))
      && (!env.icq(x.from) || x.kind == Plain || !usesFeedbag ==> r.w == w && r.outs == [])
  {
    MoveGrantedIff(env, w, Collect(k, usesFeedbag, back, first), p);
  }

  predicate LeavesMailOf(m: Move, me: Name) {
    !(m.Retrieve? && m.me == me) && !(m.Discard? && m.me == me)
  }

  lemma StaysThrough(env: Env, w: World, m: Move, x: Letter)
    requires x in w.inbox && LeavesMailOf(m, x.to)
    ensures x in Moved(env, w, m).w.inbox
  {
    if m.Retrieve? || m.Discard? {
      AddressedIs(w.inbox, m.me, false, x);
    }
  }

  /** Nothing that was stored is forgotten: whatever happens in between, the recipient's retrieval hands it out. */
  lemma {:induction false} StoredIsRetrieved(env: Env, w: World, ms: seq<Move>, x: Letter)
    requires x in w.inbox && forall i | 0 <= i < |ms| :: LeavesMailOf(ms[i], x.to)
    ensures var w' := Moves(env, w, ms).w; x in w'.inbox && x in Moved(env, w', Retrieve(x.to)).read
    decreases |ms|
  {
    if ms != [] {
      StoredIsRetrieved(env, w, ms[..|ms| - 1], x);
      StaysThrough(env, Moves(env, w, ms[..|ms| - 1]).w, ms[|ms| - 1], x);
    }
    AddressedIs(Moves(env, w, ms).w.inbox, x.to, true, x);
  }

  /** What a handler stores is in the inbox: a permitted message to someone offline, if there is room. */
  lemma HandledIsStored(env: Env, w: World, e: Event, x: Letter)
    requires Passed(x.from, x.to, x.kind, true) in Step(env, w.state, Fitted(w.inbox, e)).1
    ensures x in Moved(env, w, Handle(e)).w.inbox
  {
    PostedFrom(Step(env, w.state, Fitted(w.inbox, e)).1, x);
  }

  // ---------------------------------------------------------------- the inbox limit

  ghost predicate Bounded(inbox: seq<Letter>) {
    forall from, to :: Count(inbox, from, to) <= OFFLINE_INBOX_LIMIT
  }

  lemma {:induction false} CountAddressed(inbox: seq<Letter>, me: Name, mine: bool, from: Name, to: Name)
    ensures Count(Addressed(inbox, me, mine), from, to) == if (to == me) == mine then Count(inbox, from, to) else 0
    decreases |inbox|
  {
    if inbox != [] {
      var front, x := inbox[..|inbox| - 1], inbox[|inbox| - 1];
      CountAddressed(front, me, mine, from, to);
      if (x.to == me) == mine {
        assert Addressed(inbox, me, mine) == Addressed(front, me, mine) + [x];
        CountSnoc(Addressed(front, me, mine), x, from, to);
      } else {
        assert Addressed(inbox, me, mine) == Addressed(front, me, mine) + [];
        assert Addressed(front, me, mine) + [] == Addressed(front, me, mine);
      }
    }
  }

  lemma CountSnoc(inbox: seq<Letter>, x: Letter, from: Name, to: Name)
    ensures Count(inbox + [x], from, to) == Count(inbox, from, to) + if x.from == from && x.to == to then 1 else 0
  {
    assert (inbox + [x])[..|inbox|] == inbox;
  }

  /** At most one message of a step is stored, and only if there is room for it. */
  predicate FitsIn(inbox: seq<Letter>, posted: seq<Letter>) {
    posted == [] || (|posted| == 1 && Count(inbox, posted[0].from, posted[0].to) < OFFLINE_INBOX_LIMIT)
  }

  lemma PostedOne(o: Out)
    ensures Posted([o]) == if o.Passed? && o.stored then [Letter(o.from, o.to, o.kind)] else []
  {
    assert [o][..0] == [];
  }

  lemma PostedRelay(env: Env, s: State, uin: bool, inbox: seq<Letter>, from: Name, to: Name, kind: Kind, link: Link)
    ensures FitsIn(inbox, Posted(Relayed(env, s, uin, from, to, kind, Fit(inbox, link, from, to)).1))
  {
    PostedOne(Passed(from, to, kind, true));
    PostedOne(Passed(from, to, kind, false));
  }

  lemma PostedAuthorize(env: Env, s: State, inbox: seq<Letter>, granter: Name, requester: Name, link: Link, back: Link, first: Key)
    ensures FitsIn(inbox, Posted(Authorized(env, s, granter, requester, Fit(inbox, link, granter, requester), Fit(inbox, back, requester, granter), first).1))
  {
    var s1 := Record(env, s, granter, requester);
    PostedRelay(env, s1, false, inbox, granter, requester, AuthOK, link);
    var cleared := Cleared(s1, granter, requester, first);
    if cleared.Some? {
      PostedRelay(env, cleared.value, env.icq(requester), inbox, requester, granter, AuthOther, back);
    }
  }

  lemma PostedRespond(env: Env, s: State, inbox: seq<Letter>, granter: Name, requester: Name, accepted: bool, link: Link, back: Link, first: Key)
    ensures FitsIn(inbox, Posted(Responded(env, s, granter, requester, accepted, Fit(inbox, link, granter, requester), Fit(inbox, back, requester, granter), first).1))
  {
    PostedAuthorize(env, s, inbox, granter, requester, link, back, first);
    PostedRelay(env, s, false, inbox, granter, requester, AuthDeny, link);
  }

  lemma {:induction false} NonePosted(outs: seq<Out>)
    requires NoMessages(outs)
    ensures Posted(outs) == []
    decreases |outs|
  {
    if outs != [] {
      NonePosted(outs[..|outs| - 1]);
    }
  }

  lemma PostedSend(env: Env, s: State, inbox: seq<Letter>, from: Name, to: Name, kind: Kind, link: Link, back: Link, first: Key)
    ensures FitsIn(inbox, Posted(Sent(env, s, from, to, kind, Fit(inbox, link, from, to), Fit(inbox, back, to, from), first).1))
  {
    PostedRelay(env, s, env.icq(from), inbox, from, to, kind, link);
    PostedRespond(env, s, inbox, from, to, kind == AuthOK, link, back, first);
    PostedOne(Passed(from, to, kind, false));
    var outs := Responded(env, s, from, to, kind == AuthOK, Fit(inbox, link, from, to), Fit(inbox, back, to, from), first).1;
    PostedSplit([Passed(from, to, kind, false)], outs);
    assert [] + Posted(outs) == Posted(outs);
  }

  lemma PostedStep(env: Env, s: State, inbox: seq<Letter>, e: Event)
    ensures FitsIn(inbox, Posted(Step(env, s, Fitted(inbox, e)).1))
  {
    match e
    case Upsert(me, xs) =>
      AdmittedLocal(env, s, me, xs);
      NonePosted(Step(env, s, e).1);
    case Delete(me, xs) =>
      DroppedSends(env, Unlisted(s, me, xs), me, xs);
      NonePosted(Step(env, s, e).1);
    case PreAuthorize(me, other, link, back, first) => PostedAuthorize(env, s, inbox, me, other, link, back, first);
    case Respond(me, other, accepted, link, back, first) => PostedRespond(env, s, inbox, me, other, accepted, link, back, first);
    case Send(me, other, kind, link, back, first) => PostedSend(env, s, inbox, me, other, kind, link, back, first);
  }

  lemma FitsInBounded(inbox: seq<Letter>, posted: seq<Letter>)
    requires Bounded(inbox) && FitsIn(inbox, posted)
    ensures Bounded(inbox + posted)
  {
    if posted == [] {
      assert inbox + posted == inbox;
    } else {
      assert posted == [posted[0]];
      forall from, to ensures Count(inbox + posted, from, to) <= OFFLINE_INBOX_LIMIT {
        CountSnoc(inbox, posted[0], from, to);
      }
    }
  }

  lemma AddressedBounded(inbox: seq<Letter>, me: Name)
    requires Bounded(inbox)
    ensures Bounded(Addressed(inbox, me, false))
  {
    forall from, to ensures Count(Addressed(inbox, me, false), from, to) <= OFFLINE_INBOX_LIMIT {
      CountAddressed(inbox, me, false, from, to);
    }
  }

  lemma MoveStaysBounded(env: Env, w: World, m: Move)
    requires Bounded(w.inbox)
    ensures Bounded(Moved(env, w, m).w.inbox)
  {
    match m
    case Handle(e) =>
      PostedStep(env, w.state, w.inbox, e);
      FitsInBounded(w.inbox, Posted(Step(env, w.state, Fitted(w.inbox, e)).1));
    case SendWeb(me, other, link) =>
      PostedOne(Passed(me, other, Plain, true));
      PostedOne(Passed(me, other, Plain, false));
      FitsInBounded(w.inbox, Posted(WebOuts(w.inbox, me, other, link)));
    case Retrieve(me) => AddressedBounded(w.inbox, me);
    case Discard(me) => AddressedBounded(w.inbox, me);
    case Collect(k, usesFeedbag, back, first) =>
      if k < |w.inbox| && ActedUpon(env, w.inbox[k], usesFeedbag) {
        var x := w.inbox[k];
        assert Fit(w.inbox, HERE, x.from, x.to) == HERE;
        PostedRespond(env, w.state, w.inbox, x.from, x.to, x.kind == AuthOK, HERE, back, first);
        FitsInBounded(w.inbox, Posted(Collected(env, w, x, usesFeedbag, back, first).outs));
      }
  }

  /** Over every run nobody has more than ten stored messages from one sender. */
  lemma {:induction false} InboxBounded(env: Env, w: World, ms: seq<Move>)
    requires Bounded(w.inbox)
    ensures Bounded(Moves(env, w, ms).w.inbox)
    decreases |ms|
  {
    if ms != [] {
      InboxBounded(env, w, ms[..|ms| - 1]);
      MoveStaysBounded(env, Moves(env, w, ms[..|ms| - 1]).w, ms[|ms| - 1]);
    }
  }

  // ---------------------------------------------------------------- consent, and where it is not asked for

  lemma {:induction false} PostedFrom(outs: seq<Out>, x: Letter)
    ensures x in Posted(outs) <==> Passed(x.from, x.to, x.kind, true) in outs
    decreases |outs|
  {
    if outs != [] {
      var front, o := outs[..|outs| - 1], outs[|outs| - 1];
      PostedFrom(front, x);
      assert outs == front + [o];
    }
  }

  /** The web message gets through, now or into the store. */
  predicate WebPasses(w: World, m: Move) {
    m.SendWeb? && WebOuts(w.inbox, m.me, m.other, m.link) != []
  }

  /** When the message is sent its recipient lets the sender through, as things stood or by the move itself. */
  predicate LetThrough(env: Env, s: State, m: Move, from: Name, to: Name) {
    || GateOpen(env, s, from, to)
    || (m.Handle? && Accepts(m.e) && from == m.e.other && to == m.e.me
        && GateOpen(env, Record(env, s, m.e.me, m.e.other), from, to))
  }

  /** Every message but one of the web API passes with consent; one of the web API passes exactly unless blocked or without room. */
  lemma SentWithConsent(env: Env, w: World, m: Move, o: Out)
    requires o in Moved(env, w, m).outs && o.Passed?
    ensures if m.SendWeb? then WebPasses(w, m) && o.from == m.me && o.to == m.other && o.kind == Plain
            else LetThrough(env, w.state, m, o.from, o.to)
  {
    var outs := Moved(env, w, m).outs;
    var i :| 0 <= i < |outs| && outs[i] == o;
    match m
    case Handle(e) => PassedWithConsent(env, w.state, Fitted(w.inbox, e), i);
    case Collect(k, usesFeedbag, back, first) =>
      CollectLocal(env, w, w.inbox[k], usesFeedbag, back, first);
    case _ =>
  }

  /** What comes of a stored answer of an ICQ user concerns the two, and no two AIM users. */
  lemma CollectLocal(env: Env, w: World, x: Letter, usesFeedbag: bool, back: Link, first: Key)
    ensures var r := Collected(env, w, x, usesFeedbag, back, first);
      && Local(w.state, r.w.state, r.outs, x.from, x.to)
      && (r.outs != [] || r.w.state != w.state ==> env.icq(x.from))
  {
    RespondedLocal(env, w.state, x.from, x.to, x.kind == AuthOK, HERE, Fit(w.inbox, back, x.to, x.from), first);
  }

  /** Where a message in the store came from: it was there, the web API put it there, or it passed with consent. */
  lemma {:induction false} StoredWithConsent(env: Env, w: World, ms: seq<Move>, x: Letter) returns (k: nat)
    requires x in Moves(env, w, ms).w.inbox && x !in w.inbox
    ensures k < |ms|
    ensures var before := Moves(env, w, ms[..k]).w;
      && Passed(x.from, x.to, x.kind, true) in Moved(env, before, ms[k]).outs
      && (ms[k].SendWeb? || LetThrough(env, before.state, ms[k], x.from, x.to))
    decreases |ms|
  {
    var n := |ms| - 1;
    var before := Moves(env, w, ms[..n]).w;
    if x in before.inbox {
      k := StoredWithConsent(env, w, ms[..n], x);
      assert ms[..n][..k] == ms[..k];
    } else {
      k := n;
      StoredByMove(env, before, ms[n], x);
      SentWithConsent(env, before, ms[n], Passed(x.from, x.to, x.kind, true));
    }
  }

  lemma StoredByMove(env: Env, w: World, m: Move, x: Letter)
    requires x in Moved(env, w, m).w.inbox && x !in w.inbox
    ensures Passed(x.from, x.to, x.kind, true) in Moved(env, w, m).outs
  {
    PostedFrom(Moved(env, w, m).outs, x);
    if m.Retrieve? || m.Discard? {
      AddressedIs(w.inbox, m.me, false, x);
    }
  }

  // ---------------------------------------------------------------- after a removal

  predicate NoGrantMove(ms: seq<Move>, a: Name, b: Name) {
    forall i | 0 <= i < |ms| && ms[i].Handle? :: !GrantEvent(ms[i].e, a, b)
  }

  /** A web message between the two gets through. */
  predicate TalksByWeb(w: World, m: Move, a: Name, b: Name) {
    WebPasses(w, m) && Pair(m.me, m.other, a, b)
  }

  /** Some move of the run is one. */
  predicate TalkedByWeb(env: Env, w: World, ms: seq<Move>, a: Name, b: Name) {
    ms != [] &&
    var front := ms[..|ms| - 1];
    TalkedByWeb(env, w, front, a, b) || TalksByWeb(Moves(env, w, front).w, ms[|ms| - 1], a, b)
  }

  /** Two severed users stay severed, and nothing but a web message passes between them. */
  lemma MoveStaysSevered(env: Env, w: World, m: Move, a: Name, b: Name)
    requires Strict(env, a, b) && Severed(w.state, a, b) && NoGrantMove([m], a, b)
    ensures var r := Moved(env, w, m);
      Severed(r.w.state, a, b) && (Silent(r.outs, a, b) <==> !TalksByWeb(w, m, a, b))
  {
    match m
    case Handle(e) =>
      assert [m][0] == m;
      StepStaysSevered(env, w.state, Fitted(w.inbox, e), a, b);
    case SendWeb(_, _, _) =>
    case Collect(k, usesFeedbag, back, first) =>
      if k < |w.inbox| {
        CollectLocal(env, w, w.inbox[k], usesFeedbag, back, first);
      }
    case _ =>
  }

  lemma SilentSplit(outs: seq<Out>, more: seq<Out>, a: Name, b: Name)
    ensures Silent(outs + more, a, b) <==> Silent(outs, a, b) && Silent(more, a, b)
  {
    var all := outs + more;
    assert forall i | 0 <= i < |outs| :: all[i] == outs[i];
    assert forall i | 0 <= i < |more| :: all[|outs| + i] == more[i];
  }

  /**
   Two severed AIM users whose accounts require authorization: over every run
   without a grant between them they stay severed, and a message is sent between
   them, delivered or stored, exactly if one of the web API gets through.
   */
  lemma {:induction false} SeveredTalkOnlyByWeb(env: Env, w: World, ms: seq<Move>, a: Name, b: Name)
    requires Strict(env, a, b) && Severed(w.state, a, b) && NoGrantMove(ms, a, b)
    ensures var r := Moves(env, w, ms);
      Severed(r.w.state, a, b) && (Silent(r.outs, a, b) <==> !TalkedByWeb(env, w, ms, a, b))
    decreases |ms|
  {
    if ms != [] {
      var front, m := ms[..|ms| - 1], ms[|ms| - 1];
      SeveredTalkOnlyByWeb(env, w, front, a, b);
      var r := Moves(env, w, front);
      MoveStaysSevered(env, r.w, m, a, b);
      SilentSplit(r.outs, Moved(env, r.w, m).outs, a, b);
    }
  }

  predicate OnlyOld(letters: seq<Letter>, stored: seq<Letter>, a: Name, b: Name) {
    forall x <- letters :: Pair(x.from, x.to, a, b) ==> x in stored
  }

  lemma MoveReadsOld(env: Env, w: World, m: Move, before: seq<Letter>, a: Name, b: Name)
    requires OnlyOld(w.inbox, before, a, b) && Silent(Moved(env, w, m).outs, a, b)
    ensures var r := Moved(env, w, m); OnlyOld(r.w.inbox, before, a, b) && OnlyOld(r.read, before, a, b)
  {
    var r := Moved(env, w, m);
    forall x | x in r.w.inbox && Pair(x.from, x.to, a, b) ensures x in before {
      if x !in w.inbox {
        StoredByMove(env, w, m, x);
      }
    }
    forall x | x in r.read && Pair(x.from, x.to, a, b) ensures x in before {
      if m.Retrieve? {
        AddressedIs(w.inbox, m.me, true, x);
      }
    }
  }

  /**
   Without web messages, what is handed out between the two after that was
   stored before: nothing new gets into the store.
   */
  lemma {:induction false} SeveredReadOnlyOld(env: Env, w: World, ms: seq<Move>, a: Name, b: Name)
    requires Strict(env, a, b) && Severed(w.state, a, b) && NoGrantMove(ms, a, b) && !TalkedByWeb(env, w, ms, a, b)
    ensures var r := Moves(env, w, ms); OnlyOld(r.w.inbox, w.inbox, a, b) && OnlyOld(r.read, w.inbox, a, b)
    decreases |ms|
  {
    if ms != [] {
      var front, m := ms[..|ms| - 1], ms[|ms| - 1];
      SeveredTalkOnlyByWeb(env, w, front, a, b);
      SeveredReadOnlyOld(env, w, front, a, b);
      var r := Moves(env, w, front);
      MoveStaysSevered(env, r.w, m, a, b);
      MoveReadsOld(env, r.w, m, w.inbox, a, b);
    }
  }

  /**
   After a real removal by either side, whatever else happens until one of the
   two pre-authorizes or accepts the other: nothing is sent between them but by
   the web API, and without that only what was stored before is handed out.
   */
  lemma RemovalSilencesMail(env: Env, w: World, e: Event, ms: seq<Move>, a: Name, b: Name)
    requires Strict(env, a, b) && Removes(env, w.state, e, a, b) && NoGrantMove(ms, a, b)
    ensures var w' := Moved(env, w, Handle(e)).w;
      var r := Moves(env, w', ms);
      && (Silent(r.outs, a, b) <==> !TalkedByWeb(env, w', ms, a, b))
      && (!TalkedByWeb(env, w', ms, a, b) ==> OnlyOld(r.read, w.inbox, a, b))
  {
    DeletionGrants(env, w.state, e.me, e.items, (a, b));
    DeletionGrants(env, w.state, e.me, e.items, (b, a));
    var w' := Moved(env, w, Handle(e)).w;
    DroppedSends(env, Unlisted(w.state, e.me, e.items), e.me, e.items);
    NonePosted(Step(env, w.state, e).1);
    assert w'.inbox == w.inbox;
    SeveredTalkOnlyByWeb(env, w', ms, a, b);
    if !TalkedByWeb(env, w', ms, a, b) {
      SeveredReadOnlyOld(env, w', ms, a, b);
    }
  }

  /** Between two severed users the same message is refused to an OSCAR client and delivered for a web client. */
  lemma WebAsksNoConsent(env: Env, w: World, a: Name, b: Name, link: Link, first: Key)
    requires Strict(env, a, b) && Severed(w.state, a, b) && !link.blocked && link.online
    ensures Moved(env, w, Handle(Send(a, b, Plain, link, link, first))).outs == []
    ensures Moved(env, w, SendWeb(a, b, link)).outs == [Passed(a, b, Plain, false)]
  {
  }

  // ---------------------------------------------------------------- where grants come from

  /** The move makes `owner` admit `other`, if both are registered. */
  predicate MoveGives(env: Env, w: World, m: Move, owner: Name, other: Name) {
    match m
    case Handle(e) => Gives(env, w.state, Fitted(w.inbox, e), owner, other)
    case Collect(k, usesFeedbag, _, _) =>
      k < |w.inbox| && ActedUpon(env, w.inbox[k], usesFeedbag) && w.inbox[k] == Letter(owner, other, AuthOK)
    case _ => false
  }

  lemma MoveGrantedIff(env: Env, w: World, m: Move, p: (Name, Name))
    requires !(m.Handle? && m.e.Delete?)
    ensures p in Moved(env, w, m).w.state.grants <==>
      p in w.state.grants || (p.0 in env.users && p.1 in env.users && MoveGives(env, w, m, p.0, p.1))
  {
    match m
    case Handle(e) => GrantedIff(env, w.state, Fitted(w.inbox, e), p);
    case Collect(k, usesFeedbag, back, first) =>
      if k < |w.inbox| {
        var x := w.inbox[k];
        AuthorizedGrants(env, w.state, x.from, x.to, HERE, Fit(w.inbox, back, x.to, x.from), first);
      }
    case _ =>
  }

  /**
   Over every run with its mail, a grant that was not there at the start was
   given by one of the moves: by a handler, or by a stored accept of an ICQ user.
   */
  lemma {:induction false} MailGrantsComeFrom(env: Env, w: World, ms: seq<Move>, p: (Name, Name)) returns (k: nat)
    requires p !in w.state.grants && p in Moves(env, w, ms).w.state.grants
    ensures k < |ms| && p !in Moves(env, w, ms[..k]).w.state.grants
    ensures MoveGives(env, Moves(env, w, ms[..k]).w, ms[k], p.0, p.1)
    ensures !env.icq(p.0) ==> ms[k].Handle?
    decreases |ms|
  {
    var n := |ms| - 1;
    var w1 := Moves(env, w, ms[..n]).w;
    if p in w1.state.grants {
      k := MailGrantsComeFrom(env, w, ms[..n], p);
      assert ms[..n][..k] == ms[..k];
    } else {
      k := n;
      if ms[n].Handle? && ms[n].e.Delete? {
        DeletionGrants(env, w1.state, ms[n].e.me, ms[n].e.items, p);
      } else {
        MoveGrantedIff(env, w1, ms[n], p);
      }
    }
  }
}
