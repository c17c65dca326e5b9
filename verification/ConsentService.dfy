/** The handlers themselves, over stored buddy lists and grants. */
module ConsentService {
  import opened Wrappers
  import opened ScreenNames
  import opened Tlv
  import opened FeedbagItems
  import opened FeedbagReplay
  import opened Consent

  class Service {
    const env: Env
    var bags: map<Name, Rows>
    var grants: set<(Name, Name)>

    ghost function Now(): State
      reads this
    {
      State(bags, grants)
    }

    constructor (env: Env, bags: map<Name, Rows>, grants: set<(Name, Name)>)
      ensures this.env == env && Now() == State(bags, grants)
    {
      this.env, this.bags, this.grants := env, bags, grants;
    }

    method RequiresAuthorization(owner: Name, requester: Name) returns (r: bool)
      ensures r == RequiresAuth(env, Now(), owner, requester)
    {
      if owner !in env.users || !env.users[owner] {
        return false;
      }
      return (owner, requester) !in grants;
    }

    method RecordPreAuth(owner: Name, requester: Name)
      modifies this
      ensures Now() == Record(env, old(Now()), owner, requester)
    {
      if owner in env.users && requester in env.users {
        grants := grants + {(owner, requester)};
      }
    }

    method RevokePreAuth(owner: Name, authorized: Name)
      modifies this
      ensures Now() == Revoke(old(Now()), owner, authorized)
    {
      grants := grants - {(owner, authorized)};
    }

    method Feedbag(user: Name) returns (rows: Rows)
      ensures rows == Bag(Now(), user)
    {
      rows := if user in bags then bags[user] else map[];
    }

    method BuddyStillListed(owner: Name, buddy: Name) returns (listed: bool)
      ensures listed == StillListed(Bag(Now(), owner), buddy)
    {
      var rows := Feedbag(owner);
      var left := rows.Keys;
      while left != {}
        invariant left <= rows.Keys
        invariant forall k <- rows.Keys - left :: !(rows[k].classID == CLASS_BUDDY && Ident(rows[k].name) == buddy)
      {
        var k :| k in left;
        if rows[k].classID == CLASS_BUDDY && Ident(rows[k].name) == buddy {
          return true;
        }
        left := left - {k};
      }
      return false;
    }

    /** One turn of the loop of `UpsertItem`. */
    method AdmitItem(me: Name, x: FeedbagItem) returns (a: Admission, outs: seq<Out>)
      modifies this
      ensures (Now(), a, outs) == Admitted(env, old(Now()), me, x)
    {
      a, outs := Admit(x), [];
      if x.classID == CLASS_BUDDY {
        var sn := Ident(x.name);
        if env.icq(me) && !env.icq(sn) {
          RecordPreAuth(me, sn);
          return;
        }
        var blocked := RequiresAuthorization(sn, me);
        if !env.icq(me) && env.icq(sn) {
          if blocked {
            a, outs := Admit(x.(tlvs := x.tlvs + [Item(ATTR_PENDING, [])])), [AuthRequest(me, sn)];
          }
        } else if blocked && !Pending(x) {
          a, outs := Hold, if env.icq(me) then [] else [AuthRequest(me, sn)];
        } else if Pending(x) && !blocked {
          a := Admit(x.(tlvs := Unpend(x.tlvs)));
        }
      }
    }

    /** `None` is the error for a user who denies itself. */
    method UpsertItem(me: Name, items: seq<FeedbagItem>) returns (results: Option<seq<nat>>, outs: seq<Out>)
      modifies this
      ensures (Now(), results, outs) == Upserted(env, old(Now()), me, items)
    {
      for i := 0 to |items|
        invariant forall j | 0 <= j < i :: !DeniesSelf(me, items[j])
      {
        if items[i].classID == CLASS_DENY && Ident(items[i].name) == me {
          return None, [];
        }
      }
      var toUpsert: seq<FeedbagItem> := [];
      var authRequired: set<Name> := {};
      outs := [];
      for i := 0 to |items|
        invariant (Now(), toUpsert, authRequired, outs) == AdmittedAll(env, old(Now()), me, items[..i])
      {
        assert items[..i + 1][..i] == items[..i];
        assert items[..i + 1][i] == items[i];
        assert toUpsert + [] == toUpsert && authRequired + {} == authRequired;
        var a, more := AdmitItem(me, items[i]);
        outs := outs + more;
        if a.Admit? {
          toUpsert := toUpsert + [a.item];
        } else {
          authRequired := authRequired + {items[i].name};
        }
      }
      assert items[..|items|] == items;
      var rows := Feedbag(me);
      bags := bags[me := Store(rows, toUpsert)];
      results := Some(seq(|items|, i requires 0 <= i < |items| => if items[i].name in authRequired then AUTH_REQUIRED else 0));
    }

    /** One turn of the loop of `DeleteItem`. */
    method DropItem(me: Name, x: FeedbagItem) returns (outs: seq<Out>)
      modifies this
      ensures (Now(), outs) == Dropped(env, old(Now()), me, x)
    {
      outs := [];
      if x.classID == CLASS_BUDDY {
        var buddy := Ident(x.name);
        if !env.icq(me) && !env.icq(buddy) {
          var moved := BuddyStillListed(me, buddy);
          if moved {
            return;
          }
          var stillAuthd := RequiresAuthorization(buddy, me);
          RevokePreAuth(me, buddy);
          RevokePreAuth(buddy, me);
          if !stillAuthd {
            outs := [RemovalNotice(me, buddy)];
          }
        }
      }
    }

    method DeleteItem(me: Name, items: seq<FeedbagItem>) returns (outs: seq<Out>)
      modifies this
      ensures (Now(), outs) == Deleted(env, old(Now()), me, items)
    {
      var rows := Feedbag(me);
      bags := bags[me := Erase(rows, items)];
      outs := [];
      for i := 0 to |items|
        invariant (Now(), outs) == DroppedAll(env, Unlisted(old(Now()), me, items), me, items[..i])
      {
        assert items[..i + 1][..i] == items[..i];
        var more := DropItem(me, items[i]);
        outs := outs + more;
      }
      assert items[..|items|] == items;
    }

    /** `ChannelMsgToHost`, from a session with or without a UIN, for a message that is not an event for a feedbag session. */
    method Relay(uin: bool, from: Name, to: Name, kind: Kind, link: Link) returns (outs: seq<Out>)
      modifies this
      ensures (Now(), outs) == Relayed(env, old(Now()), uin, from, to, kind, link)
    {
      if link.blocked {
        return [];
      }
      if !uin && !env.icq(to) {
        var needsAuth := RequiresAuthorization(to, from);
        if needsAuth {
          return [];
        }
      }
      if !link.online {
        return if link.storable then [Passed(from, to, kind, true)] else [];
      }
      if kind == AuthOK && !link.usesFeedbag {
        RecordPreAuth(from, to);
      }
      return [Passed(from, to, kind, false)];
    }

    method ClearPendingAuth(granter: Name, requester: Name, first: Key) returns (cleared: bool)
      modifies this
      ensures var c := Cleared(old(Now()), granter, requester, first);
        cleared == c.Some? && Now() == if cleared then c.value else old(Now())
    {
      var rows := Feedbag(requester);
      if first !in rows || rows[first].classID != CLASS_BUDDY || rows[first].name != granter || !Pending(rows[first]) {
        return false;
      }
      bags := bags[requester := Store(rows, [rows[first].(tlvs := Unpend(rows[first].tlvs))])];
      return true;
    }

    method AuthorizeContact(granter: Name, requester: Name, link: Link, back: Link, first: Key) returns (outs: seq<Out>)
      modifies this
      ensures (Now(), outs) == Authorized(env, old(Now()), granter, requester, link, back, first)
    {
      RecordPreAuth(granter, requester);
      if !link.online {
        outs := Relay(false, granter, requester, AuthOK, link);
        return;
      }
      var cleared := ClearPendingAuth(granter, requester, first);
      if cleared {
        outs := [];
        if !(back.online && back.usesFeedbag) {
          outs := Relay(env.icq(requester), requester, granter, AuthOther, back);
        }
      } else if link.usesFeedbag {
        outs := [];
      } else {
        outs := Relay(false, granter, requester, AuthOK, link);
      }
    }

    method PreAuthorizeBuddy(me: Name, other: Name, link: Link, back: Link, first: Key) returns (outs: seq<Out>)
      modifies this
      ensures (Now(), outs) == Step(env, old(Now()), PreAuthorize(me, other, link, back, first))
    {
      outs := [];
      if other != me {
        outs := AuthorizeContact(me, other, link, back, first);
      }
    }

    method RespondAuthorizeToHost(me: Name, other: Name, accepted: bool, link: Link, back: Link, first: Key) returns (outs: seq<Out>)
      modifies this
      ensures (Now(), outs) == Responded(env, old(Now()), me, other, accepted, link, back, first)
    {
      if accepted {
        outs := AuthorizeContact(me, other, link, back, first);
        if !env.icq(me) && !env.icq(other) {
          RecordPreAuth(other, me);
        }
      } else if link.online && link.usesFeedbag {
        outs := [];
      } else {
        outs := Relay(false, me, other, AuthDeny, link);
      }
    }

    method ChannelMsgToHost(from: Name, to: Name, kind: Kind, link: Link, back: Link, first: Key) returns (outs: seq<Out>)
      modifies this
      ensures (Now(), outs) == Sent(env, old(Now()), from, to, kind, link, back, first)
    {
      var needsAuth := RequiresAuthorization(to, from);
      var open := env.icq(from) || env.icq(to) || !needsAuth;
      if kind == Plain || link.blocked || !open || !link.online || !link.usesFeedbag {
        outs := Relay(env.icq(from), from, to, kind, link);
      } else if kind == AuthOther {
        outs := [Passed(from, to, kind, false)];
      } else {
        outs := RespondAuthorizeToHost(from, to, kind == AuthOK, link, back, first);
        outs := [Passed(from, to, kind, false)] + outs;
      }
    }
  }
}
