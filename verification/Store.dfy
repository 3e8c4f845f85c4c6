/** The durable store. Each method runs the statements of one store operation on the tables in place, and is proved
    against the transition of Tables, Canonical or Membership that the runs of the other modules use. */
module StoreClass {
  import opened Tables
  import opened Canonical
  import opened Membership

  /** A claimed row as PendingOutbox returns it. */
  datatype Entry = Entry(id: nat, row: Row)

  class Store {
    var canon: map<nat, Canon>
    var outbox: map<nat, Row>
    var lastId: nat
    var members: map<(int, int), Member>
    /** Deleted reposts: the action that suppressed the message, the message, and when. */
    var suppressed: seq<(nat, int, int)>

    ghost function Current(): Tables
      reads this
    {
      Tables(canon, outbox, lastId)
    }

    ghost predicate Valid()
      reads this
    {
      Consistent(Current())
    }

    constructor ()
      ensures Valid() && Current() == EMPTY && members == map[]
    {
      canon, outbox, lastId, members, suppressed := map[], map[], 0, map[], [];
    }

    // Canonical actions

    /** The lookup that suppresses reposts. */
    method FindCanonical(k: Key, now: int) returns (found: Option<nat>)
      requires Valid() && Hex(k.fingerprint)
      ensures found == Find(Current(), k, now)
    {
      if a: nat :| a in canon && canon[a].key == k && canon[a].active && canon[a].createdAt >= now - WINDOW_SECONDS {
        found := Some(a);
        assert Matches(Current(), a, k, now);
        HolderIsActive(Current(), a, k);
        HolderIsActive(Current(), Find(Current(), k, now).value, k);
      } else {
        found := None;
        assert forall a: nat :: !Matches(Current(), a, k, now);
      }
    }

    /** INSERT ... ON CONFLICT DO NOTHING, with the outbox row that follows it in the transaction. */
    method InsertAction(k: Key, p: Payload, source: int, now: int) returns (inserted: bool)
      modifies `canon, `outbox, `lastId
      ensures inserted <==> old(Holder(Current(), k)).None?
      ensures Current() == if inserted then Inserted(old(Current()), k, p, source, now) else old(Current())
    {
      ghost var t := Current();
      if a: nat :| a in canon && canon[a].key == k {
        inserted := false;
        assert Holds(t, a, k);
      } else {
        assert forall a: nat :: !Holds(t, a, k);
        inserted, lastId := true, lastId + 1;
        canon := canon[lastId := Canon(k, p, Pending, 0, true, now)];
        outbox := outbox[lastId := Row(k.chat, k.thread, source, p, Planned, 0, now, 0, 0, None)];
      }
    }

    /** Retires the row that holds the key when its window has passed, and inserts again. */
    method RecreateExpired(k: Key, p: Payload, source: int, now: int) returns (inserted: bool)
      requires Valid() && Hex(k.fingerprint) && Holder(Current(), k).Some?
      modifies `canon, `outbox, `lastId
      ensures inserted <==> old(Wins(Current(), k, now))
      ensures Current() == old(Created(Current(), k, p, source, now))
    {
      ghost var t := Current();
      var a: nat :| a in canon && canon[a].key == k;
      HolderIsActive(t, a, k);
      if canon[a].createdAt >= now - WINDOW_SECONDS {
        return false;
      }
      ExpiredFreesKey(t, a, k);
      var c := canon[a];
      var retired := c.key.fingerprint + (":expired:" + Decimal(a));
      canon := canon[a := c.(active := false, key := c.key.(fingerprint := retired))];
      assert Current() == Expired(t, a);
      inserted := InsertAction(k, p, source, now);
    }

    /** Stores a visible action plan. A loser gets the row that beat it, looked up again at `reread`, by which time its
        window may have passed. */
    method CreateCanonical(k: Key, p: Payload, source: int, now: int, reread: int)
      returns (action: Option<nat>, created: bool)
      requires Valid() && Hex(k.fingerprint)
      modifies `canon, `outbox, `lastId
      ensures Valid() && Current() == old(Created(Current(), k, p, source, now))
      ensures created <==> old(Wins(Current(), k, now))
      ensures created ==> action == Some(lastId) && Find(Current(), k, now) == action
      ensures !created ==> action == old(Find(Current(), k, reread))
    {
      ghost var t := Current();
      CreationAgreesWithLookup(t, k, p, source, now);
      CreatedConsistent(t, k, p, source, now);
      created := InsertAction(k, p, source, now);
      if !created {
        created := RecreateExpired(k, p, source, now);
        if !created {
          action := FindCanonical(k, reread);
          return;
        }
      }
      action := Some(lastId);
    }

    /** The audit references the canonical actions: an id without a row is rejected. */
    method RecordSuppressed(a: nat, message: int, now: int) returns (ok: bool)
      modifies `suppressed
      ensures ok <==> a in canon
      ensures suppressed == old(suppressed) + if ok then [(a, message, now)] else []
    {
      ok := a in canon;
      if ok {
        suppressed := suppressed + [(a, message, now)];
      }
    }

    // The outbox

    /** Replaces the payload a retry will use. */
    method ReplaceOutboxPayload(a: nat, p: Payload, now: int)
      requires Valid()
      modifies `outbox
      ensures Valid() && Current() == Written(old(Current()), a, ReplacePayload(p), now)
    {
      hide Consistent;
      WrittenConsistent(Current(), a, ReplacePayload(p), now);
      WrittenRowOnly(Current(), a, ReplacePayload(p), now);
      if a in outbox {
        outbox := outbox[a := outbox[a].(payload := p)];
      }
    }

    /** A copied media response still needs its source deleted. */
    method MarkOutboxCopied(a: nat, id: int, now: int)
      requires Valid()
      modifies `outbox
      ensures Valid() && Current() == Written(old(Current()), a, MarkCopied(id), now)
    {
      hide Consistent;
      WrittenConsistent(Current(), a, MarkCopied(id), now);
      WrittenRowOnly(Current(), a, MarkCopied(id), now);
      if a in outbox {
        outbox := outbox[a := outbox[a].(phase := DeleteRequested, response := id, nextAt := now)];
      }
    }

    /** Deletion starts; the row is due again after `backoff`, read by an earlier statement. */
    method UpdateOutbox(a: nat, backoff: int, now: int)
      requires Valid()
      modifies `outbox
      ensures Valid() && Current() == Written(old(Current()), a, MarkDeleteRequested(backoff), now)
    {
      hide Consistent;
      WrittenConsistent(Current(), a, MarkDeleteRequested(backoff), now);
      WrittenRowOnly(Current(), a, MarkDeleteRequested(backoff), now);
      if a in outbox {
        outbox := outbox[a := outbox[a].(phase := DeleteRequested, attempts := outbox[a].attempts + 1,
                                         nextAt := now + backoff)];
      }
    }

    /** The source is deleted and the response remains to be sent. */
    method MarkSendPending(a: nat, now: int)
      requires Valid()
      modifies `outbox
      ensures Valid() && Current() == Written(old(Current()), a, Write.MarkSendPending, now)
    {
      hide Consistent;
      WrittenConsistent(Current(), a, Write.MarkSendPending, now);
      WrittenRowOnly(Current(), a, Write.MarkSendPending, now);
      if a in outbox {
        outbox := outbox[a := outbox[a].(phase := SendPending, nextAt := now)];
      }
    }

    /** Makes an unfinished action eligible for another worker. */
    method ReleaseOutboxLease(a: nat, now: int)
      requires Valid()
      modifies `outbox
      ensures Valid() && Current() == Written(old(Current()), a, ReleaseLease, now)
    {
      hide Consistent;
      WrittenConsistent(Current(), a, ReleaseLease, now);
      WrittenRowOnly(Current(), a, ReleaseLease, now);
      if a in outbox {
        outbox := outbox[a := outbox[a].(leaseUntil := 0, token := None)];
      }
    }

    /** The error write behind both ways to retry. */
    method UpdateDelayed(a: nat, p: Phase, delay: int, now: int)
      requires Valid()
      modifies `outbox
      ensures Valid() && Current() == Written(old(Current()), a, MarkError(p, delay), now)
    {
      hide Consistent;
      WrittenConsistent(Current(), a, MarkError(p, delay), now);
      WrittenRowOnly(Current(), a, MarkError(p, delay), now);
      if a in outbox {
        outbox := outbox[a := outbox[a].(phase := p, attempts := outbox[a].attempts + 1, nextAt := now + delay,
                                         leaseUntil := 0, token := None)];
      }
    }

    /** Records a response and closes the canonical action, in one transaction. */
    method MarkOutboxComplete(a: nat, id: int, now: int)
      requires Valid()
      modifies `canon, `outbox
      ensures Valid() && Current() == Written(old(Current()), a, MarkComplete(id), now)
    {
      hide Consistent;
      WrittenConsistent(Current(), a, MarkComplete(id), now);
      if a in outbox {
        outbox := outbox[a := outbox[a].(phase := Complete, response := id, leaseUntil := 0)];
      }
      if a in canon {
        canon := canon[a := canon[a].(state := Sent, response := id)];
      }
    }

    /** Gives an action up, in one transaction. */
    method MarkOutboxDead(a: nat, now: int)
      requires Valid()
      modifies `canon, `outbox
      ensures Valid() && Current() == Written(old(Current()), a, MarkDead, now)
    {
      hide Consistent;
      WrittenConsistent(Current(), a, MarkDead, now);
      if a in outbox {
        outbox := outbox[a := outbox[a].(phase := Dead, attempts := outbox[a].attempts + 1, nextAt := now,
                                         leaseUntil := 0)];
      }
      if a in canon {
        canon := canon[a := canon[a].(state := DeadLetter)];
      }
    }

    /** The attempts of a row as a delay; a missing row is an error. */
    method OutboxBackoff(a: nat) returns (delay: Option<int>)
      ensures delay == if a in outbox then Some(Backoff(outbox[a].attempts)) else None
      ensures delay.Some? ==> 1 <= delay.value <= 1024
    {
      if a !in outbox {
        return None;
      }
      var shift := if outbox[a].attempts < 10 then outbox[a].attempts else 10;
      var d, i := 1, 0;
      while i < shift
        invariant i <= shift && d == Backoff(i)
      {
        d, i := 2 * d, i + 1;
      }
      delay := Some(d);
    }

    /** Leaves an action retryable: after the requested delay, or after the backoff of its attempts. */
    method MarkOutboxError(a: nat, p: Phase, requested: int, now: int) returns (ok: bool)
      requires Valid()
      modifies `outbox
      ensures Valid() && (ok <==> requested > 0 || a in old(outbox))
      ensures Current() == if !ok then old(Current()) else
                var delay := if requested > 0 then requested else Backoff(old(outbox)[a].attempts);
                Written(old(Current()), a, MarkError(p, delay), now)
    {
      var delay := requested;
      if delay <= 0 {
        var backoff := OutboxBackoff(a);
        if backoff.None? {
          return false;
        }
        delay := backoff.value;
      }
      UpdateDelayed(a, p, delay, now);
      ok := true;
    }

    /** SELECT ... WHERE lease_token = ? AND unfinished ORDER BY id. */
    method SelectClaimed(token: nat) returns (entries: seq<Entry>)
      requires forall a | a in outbox :: a <= lastId
      ensures forall i, j | 0 <= i < j < |entries| :: entries[i].id < entries[j].id
      ensures forall e | e in entries :: e.id in Selected(Current(), token) && e.row == outbox[e.id]
      ensures forall a | a in Selected(Current(), token) :: Entry(a, outbox[a]) in entries
    {
      entries := [];
      for a := 0 to lastId + 1
        invariant forall i, j | 0 <= i < j < |entries| :: entries[i].id < entries[j].id
        invariant forall e | e in entries :: e.id < a && e.id in Selected(Current(), token) && e.row == outbox[e.id]
        invariant forall b | b in Selected(Current(), token) && b < a :: Entry(b, outbox[b]) in entries
      {
        if a in outbox && outbox[a].token == Some(token) && !Finished(outbox[a].phase) {
          entries := entries + [Entry(a, outbox[a])];
        }
      }
    }

    /** Claims every claimable row under a token and returns what the token now selects, by ascending id. */
    method PendingOutbox(token: nat, now: int) returns (entries: seq<Entry>)
      requires Valid()
      modifies `outbox
      ensures Valid() && Current() == Claimed(old(Current()), token, now)
      ensures forall i, j | 0 <= i < j < |entries| :: entries[i].id < entries[j].id
      ensures forall e | e in entries :: e.id in Selected(Current(), token) && e.row == outbox[e.id]
      ensures forall a | a in Selected(Current(), token) :: Entry(a, outbox[a]) in entries
    {
      ClaimedConsistent(Current(), token, now);
      IdsBounded(Current());
      hide Consistent;
      outbox := map a | a in outbox ::
        if Claimable(outbox[a], now) then outbox[a].(leaseUntil := now + LEASE_SECONDS, token := Some(token))
        else outbox[a];
      assert Current() == Claimed(old(Current()), token, now);
      entries := SelectClaimed(token);
    }

    // Members

    function Membership(chat: int, user: int): (m: Option<Member>)
      reads this
    {
      if (chat, user) in members then Some(members[(chat, user)]) else None
    }

    /** The upsert for an observed status. */
    method RecordMembership(chat: int, user: int, s: Status, at: int)
      modifies `members
      ensures Membership(chat, user) == MemberAfter(old(Membership(chat, user)), Seen(s, at))
      ensures forall k | k != (chat, user) :: k in members <==> k in old(members)
      ensures forall k | k != (chat, user) && k in members :: members[k] == old(members)[k]
    {
      var k := (chat, user);
      if s == Creator || s == Administrator || s == Regular || s == Restricted {
        if k !in members {
          members := members[k := Member(at, s, false)];
        } else {
          var m := members[k];
          var returned := m.status == Left || m.status == Kicked;
          members := members[k := Member(if returned then at else m.joinedAt, s, !returned && m.grandfathered)];
        }
      } else {
        members := members[k := if k in members then members[k].(status := s) else Member(0, s, false)];
      }
    }

    /** Records a member first observed without a join event; an existing row stays. */
    method Grandfather(chat: int, user: int)
      modifies `members
      ensures Membership(chat, user) == MemberAfter(old(Membership(chat, user)), FirstMessage)
      ensures forall k | k != (chat, user) :: k in members <==> k in old(members)
      ensures forall k | k != (chat, user) && k in members :: members[k] == old(members)[k]
    {
      if (chat, user) !in members {
        members := members[(chat, user) := Member(0, Regular, true)];
      }
    }
  }
}
