/** The store of offline messages and the handlers that use it besides the consent handlers. */
module MailboxService {
  import opened ScreenNames
  import opened FeedbagItems
  import opened Consent
  import opened ConsentService
  import opened Mailbox

  class Mail {
    const consent: Service
    var inbox: seq<Letter>

    ghost function Now(): World
      reads this, consent
    {
      World(consent.Now(), inbox)
    }

    constructor (consent: Service, inbox: seq<Letter>)
      ensures this.consent == consent && this.inbox == inbox
    {
      this.consent, this.inbox := consent, inbox;
    }

    /** The counting query of `SaveMessage`. */
    method HasRoom(from: Name, to: Name) returns (room: bool)
      ensures room == (Count(inbox, from, to) < OFFLINE_INBOX_LIMIT)
    {
      var n := 0;
      for i := 0 to |inbox|
        invariant n == Count(inbox[..i], from, to)
      {
        assert inbox[..i + 1][..i] == inbox[..i];
        if inbox[i].from == from && inbox[i].to == to {
          n := n + 1;
        }
      }
      assert inbox[..|inbox|] == inbox;
      room := n < OFFLINE_INBOX_LIMIT;
    }

    /** `false` is the error for a full inbox. */
    method SaveMessage(x: Letter) returns (saved: bool)
      modifies this
      ensures saved == (Count(old(inbox), x.from, x.to) < OFFLINE_INBOX_LIMIT)
      ensures inbox == if saved then old(inbox) + [x] else old(inbox)
    {
      saved := HasRoom(x.from, x.to);
      if saved {
        inbox := inbox + [x];
      }
    }

    method RetrieveMessages(me: Name) returns (mine: seq<Letter>)
      ensures mine == Addressed(inbox, me, true)
    {
      mine := [];
      for i := 0 to |inbox|
        invariant mine == Addressed(inbox[..i], me, true)
      {
        assert inbox[..i + 1][..i] == inbox[..i];
        if inbox[i].to == me {
          mine := mine + [inbox[i]];
        }
      }
      assert inbox[..|inbox|] == inbox;
    }

    method DeleteMessages(me: Name)
      modifies this
      ensures inbox == Addressed(old(inbox), me, false)
    {
      var left: seq<Letter> := [];
      for i := 0 to |inbox|
        invariant inbox == old(inbox) && left == Addressed(inbox[..i], me, false)
      {
        assert inbox[..i + 1][..i] == inbox[..i];
        if inbox[i].to != me {
          left := left + [inbox[i]];
        }
      }
      assert inbox[..|inbox|] == inbox;
      inbox := left;
    }

    /** Blocks and no consent decide; an offline recipient's message is saved. */
    method SendIM(me: Name, other: Name, link: Link) returns (outs: seq<Out>)
      modifies this
      ensures var r := Moved(consent.env, old(Now()), SendWeb(me, other, link)); Now() == r.w && outs == r.outs
    {
      PostedOne(Passed(me, other, Plain, false));
      PostedOne(Passed(me, other, Plain, true));
      if link.blocked {
        return [];
      }
      if link.online {
        return [Passed(me, other, Plain, false)];
      }
      outs := [];
      if link.storable {
        var saved := SaveMessage(Letter(me, other, Plain));
        if saved {
          outs := [Passed(me, other, Plain, true)];
        }
      }
    }

    /** `OfflineRetrieve`: the messages are delivered, then deleted. */
    method OfflineRetrieve(me: Name) returns (read: seq<Letter>)
      modifies this
      ensures var r := Moved(consent.env, old(Now()), Retrieve(me)); Now() == r.w && read == r.read == r.gone
    {
      read := RetrieveMessages(me);
      if |read| > 0 {
        DeleteMessages(me);
      } else {
        NoneAddressed(inbox, me);
      }
    }

    /** What a handler stored. */
    method Post(outs: seq<Out>)
      modifies this
      ensures inbox == old(inbox) + Posted(outs)
    {
      for i := 0 to |outs|
        invariant inbox == old(inbox) + Posted(outs[..i])
      {
        assert outs[..i + 1][..i] == outs[..i];
        if outs[i].Passed? && outs[i].stored {
          inbox := inbox + [Letter(outs[i].from, outs[i].to, outs[i].kind)];
        }
      }
      assert outs[..|outs|] == outs;
    }

    /** One turn of the loop of `OfflineMsgReq`: the message stays stored. */
    method CollectOne(k: nat, usesFeedbag: bool, back: Link, first: Key) returns (outs: seq<Out>)
      requires k < |inbox|
      modifies this, consent
      ensures var r := Moved(consent.env, old(Now()), Collect(k, usesFeedbag, back, first)); Now() == r.w && outs == r.outs
    {
      var x := inbox[k];
      outs := [];
      if consent.env.icq(x.from) && (x.kind == AuthOK || x.kind == AuthDeny) && usesFeedbag {
        var room := HasRoom(x.to, x.from);
        outs := consent.RespondAuthorizeToHost(x.from, x.to, x.kind == AuthOK, HERE, back.(storable := back.storable && room), first);
        Post(outs);
      }
    }

    method DeleteMsgReq(me: Name)
      modifies this
      ensures Now() == Moved(consent.env, old(Now()), Discard(me)).w
    {
      DeleteMessages(me);
    }
  }

  lemma {:induction false} NoneAddressed(inbox: seq<Letter>, me: Name)
    requires Addressed(inbox, me, true) == []
    ensures Addressed(inbox, me, false) == inbox
    decreases |inbox|
  {
    if inbox != [] {
      var front, x := inbox[..|inbox| - 1], inbox[|inbox| - 1];
      assert Addressed(front, me, true) == [] && x.to != me;
      NoneAddressed(front, me);
      assert inbox == front + [x];
    }
  }
}
