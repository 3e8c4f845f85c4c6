/** The updates that reach the members table: status changes, join messages and ordinary messages. Every row is
    proved to be the replay of the events of its member, so what Membership says of a history holds of the stored
    row. */
module Updates {
  import opened Tables
  import opened Membership
  import opened StoreClass

  /** A member as a status update names it. */
  datatype StatusUpdate = StatusUpdate(user: int, status: Status)

  /** The join events a list of new members holds for one of them. */
  function Joins(users: seq<int>, user: int, date: int): seq<MemberEvent> {
    if users == [] then []
    else Joins(users[..|users| - 1], user, date) + if users[|users| - 1] == user then [Seen(Regular, date)] else []
  }

  class Intake {
    const store: Store
    /** The events so far, by chat and user. */
    ghost var history: map<(int, int), seq<MemberEvent>>

    constructor (store: Store)
      requires store.members == map[]
      ensures Valid() && this.store == store && history == map[]
    {
      this.store, history := store, map[];
    }

    ghost function Events(chat: int, user: int): seq<MemberEvent>
      reads this
    {
      if (chat, user) in history then history[(chat, user)] else []
    }

    ghost predicate Valid()
      reads this, store
    {
      forall chat, user :: store.Membership(chat, user) == Replay(Events(chat, user))
    }

    /** The event happened to this member and to no other. */
    twostate predicate Happened(chat: int, user: int, e: MemberEvent)
      reads this
    {
      && Events(chat, user) == old(Events(chat, user)) + [e]
      && forall c, u | (c, u) != (chat, user) :: Events(c, u) == old(Events(c, u))
    }

    lemma ReplayNext(h: seq<MemberEvent>, e: MemberEvent)
      ensures Replay(h + [e]) == MemberAfter(Replay(h), e)
    {
      assert (h + [e])[..|h|] == h;
    }

    /** Enters an event that the store has recorded. */
    ghost method Note(chat: int, user: int, e: MemberEvent)
      requires store.Membership(chat, user) == MemberAfter(Replay(Events(chat, user)), e)
      requires forall c, u | (c, u) != (chat, user) :: store.Membership(c, u) == Replay(Events(c, u))
      modifies `history
      ensures Valid() && Happened(chat, user, e)
    {
      hide MemberAfter, Replay;
      ReplayNext(Events(chat, user), e);
      history := history[(chat, user) := Events(chat, user) + [e]];
    }

    method Record(chat: int, user: int, s: Status, date: int)
      requires Valid()
      modifies `history, store`members
      ensures Valid() && Happened(chat, user, Seen(s, date))
      ensures store.Membership(chat, user) == MemberAfter(old(store.Membership(chat, user)), Seen(s, date))
      ensures forall c, u | (c, u) != (chat, user) :: store.Membership(c, u) == old(store.Membership(c, u))
    {
      store.RecordMembership(chat, user, s, date);
      Note(chat, user, Seen(s, date));
    }

    /** A status update of an approved chat is recorded with its own date. */
    method HandleMembership(approved: bool, chat: int, update: Option<StatusUpdate>, date: int)
      requires Valid()
      modifies `history, store`members
      ensures Valid()
      ensures if approved && update.Some? then Happened(chat, update.value.user, Seen(update.value.status, date))
              else history == old(history) && store.members == old(store.members)
    {
      if !approved || update.None? {
        return;
      }
      Record(chat, update.value.user, update.value.status, date);
    }

    predicate Absent(m: Option<Member>) {
      m.None? || m.value.status == Left || m.value.status == Kicked
    }

    /** What a join message makes of the row of a user: listed and absent before, the user is a new member since its
        date; listed and present, the user keeps join time and grandfathering; and nobody else's row changes. */
    predicate RowAfterJoins(listed: bool, before: Option<Member>, after: Option<Member>, date: int) {
      if !listed then after == before
      else if Absent(before) then after == Some(Member(date, Regular, false))
      else after == Some(Member(before.value.joinedAt, Regular, before.value.grandfathered))
    }

    lemma NobodyJoins(date: int)
      ensures forall m :: RowAfterJoins(false, m, m, date)
    {}

    lemma OneMoreJoins(listed: bool, before: Option<Member>, now: Option<Member>, date: int)
      requires RowAfterJoins(listed, before, now, date)
      ensures RowAfterJoins(true, before, MemberAfter(now, Seen(Regular, date)), date)
    {}

    /** A join message records every user it lists. */
    method HandleNewMembers(chat: int, users: seq<int>, date: int)
      requires Valid()
      modifies `history, store`members
      ensures Valid()
      ensures forall c, u ::
                RowAfterJoins(c == chat && u in users, old(store.Membership(c, u)), store.Membership(c, u), date)
      ensures forall c, u :: Events(c, u) == old(Events(c, u)) + if c == chat then Joins(users, u, date) else []
    {
      hide Valid, Events, RowAfterJoins, MemberAfter;
      NobodyJoins(date);
      for i := 0 to |users|
        invariant Valid()
        invariant forall c, u ::
                    RowAfterJoins(c == chat
                      && u in users[..i], old(store.Membership(c, u)), store.Membership(c, u), date)
        invariant forall c, u ::
                    Events(c, u) == old(Events(c, u)) + if c == chat then Joins(users[..i], u, date) else []
      {
        assert users[..i + 1] == users[..i] + [users[i]] && users[..i + 1][..i] == users[..i];
        label Before:
        Record(chat, users[i], Regular, date);
        forall c, u
          ensures RowAfterJoins(c == chat && u in users[..i + 1], old(store.Membership(c, u)), store.Membership(c, u),
                                date)
        {
          OneMoreJoins(c == chat && u in users[..i], old(store.Membership(c, u)), old@Before(store.Membership(c, u)),
              date);
        }
      }
      assert users[..|users|] == users;
    }

    /** A listed user who was absent is sandboxed for exactly the window from the date of the message on. */
    lemma JoinStartsWindow(before: Option<Member>, after: Option<Member>, date: int, now: int, window: int)
      requires RowAfterJoins(true, before, after, date) && Absent(before) && date > 0
      ensures after.Some? && (InSandbox(JoinTime(after.value), now, window) <==> date <= now < date + window)
    {}

    /** An ordinary message grandfathers a sender without a row. */
    method HandleMessage(chat: int, sender: int) returns (member: Member)
      requires Valid()
      modifies `history, store`members
      ensures Valid() && Happened(chat, sender, FirstMessage) && store.Membership(chat, sender) == Some(member)
    {
      var m := store.Membership(chat, sender);
      if m.None? {
        store.Grandfather(chat, sender);
        m := store.Membership(chat, sender);
      }
      Note(chat, sender, FirstMessage);
      member := m.value;
    }

    /** What the stored row tells of a member who is present: when the current period began, if it is known. */
    lemma StoredJoinTime(chat: int, user: int) returns (l: nat, k: nat)
      requires Valid() && store.Membership(chat, user).Some? && !Away(store.Membership(chat, user).value.status)
      ensures var h, m := Events(chat, user), store.Membership(chat, user).value;
              && Opened(h, l, k)
              && m.joinedAt == (if h[k].Seen? then h[k].at else 0)
              && (m.grandfathered <==> h[k].FirstMessage?)
    {
      l, k := RowRemembersOpening(Events(chat, user));
    }
  }
}
