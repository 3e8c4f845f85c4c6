/** Membership periods. A member's row is rewritten by every observed event; what it must remember is when the
    current period began. */
module Membership {
  import opened Tables

  datatype Status = Creator | Administrator | Regular | Restricted | Left | Kicked

  predicate Away(s: Status) {
    s == Left || s == Kicked
  }

  /** One row of memberships; joinedAt is 0 when unknown. */
  datatype Member = Member(joinedAt: int, status: Status, grandfathered: bool)

  /** Seen is a status update or a join message at a time; FirstMessage is a message of a user, who is
      grandfathered if no row exists. */
  datatype MemberEvent = Seen(status: Status, at: int) | FirstMessage

  /** The upserts of RecordMembership and Grandfather. */
  function MemberAfter(m: Option<Member>, e: MemberEvent): Option<Member> {
    match e
    case Seen(s, at) =>
      if m.None? then Some(Member(if Away(s) then 0 else at, s, false))
      else if Away(s) then Some(m.value.(status := s))
      else if Away(m.value.status) then Some(Member(at, s, false))
      else Some(m.value.(status := s))
    case FirstMessage =>
      if m.None? then Some(Member(0, Regular, true)) else m
  }

  function Replay(h: seq<MemberEvent>): Option<Member> {
    if h == [] then None else MemberAfter(Replay(h[..|h| - 1]), h[|h| - 1])
  }

  /** What a reader of the row learns of the join time. */
  function JoinTime(m: Member): Option<int> {
    if m.joinedAt > 0 then Some(m.joinedAt) else None
  }

  // The history behind a row

  predicate Arrives(e: MemberEvent) {
    e.Seen? && !Away(e.status)
  }

  predicate Leaves(e: MemberEvent) {
    e.Seen? && Away(e.status)
  }

  /** Event k opened the period the member is in: it is the first arrival since event l, which is the first event of
      all or follows the last departure; a first message opens a period only when nothing came before it. */
  predicate Opened(h: seq<MemberEvent>, l: nat, k: nat) {
    && l <= k < |h|
    && (l == 0 || Leaves(h[l - 1]))
    && (forall i | l <= i < |h| :: !Leaves(h[i]))
    && (forall i | l <= i < k :: !Arrives(h[i])) && (l < k ==> l != 0)
    && (Arrives(h[k]) || k == 0)
  }

  lemma OpenedUnique(h: seq<MemberEvent>, l: nat, k: nat, l': nat, k': nat)
    requires Opened(h, l, k) && Opened(h, l', k')
    ensures l == l' && k == k'
  {
    assert 0 < l' ==> Leaves(h[l' - 1]);
    assert 0 < l ==> Leaves(h[l - 1]);
  }

  lemma OpenedExtends(h: seq<MemberEvent>, e: MemberEvent, l: nat, k: nat)
    requires Opened(h, l, k) && !Leaves(e)
    ensures Opened(h + [e], l, k)
  {
    var longer := h + [e];
    assert forall i | 0 <= i < |h| :: longer[i] == h[i];
  }

  /** Whatever the events were: the row says the member is present exactly when some event opened the current period,
      and then it holds the time of that very event, or no time when the period was opened by a first message. */
  lemma {:induction false} RowRemembersOpening(h: seq<MemberEvent>) returns (l: nat, k: nat)
    ensures var m := Replay(h);
            if m.Some? && !Away(m.value.status) then
              && Opened(h, l, k)
              && m.value.grandfathered == h[k].FirstMessage?
              && m.value.joinedAt == (if h[k].Seen? then h[k].at else 0)
            else forall i: nat, j: nat :: !Opened(h, i, j)
  {
    l, k := 0, 0;
    if h != [] {
      var init, e := h[..|h| - 1], h[|h| - 1];
      l, k := RowRemembersOpening(init);
      var m := Replay(init);
      AwayEnds(init);
      assert forall i | 0 <= i < |init| :: h[i] == init[i];
      if m.Some? && !Away(m.value.status) {
        if !Leaves(e) {
          OpenedExtends(init, e, l, k);
          assert init + [e] == h;
        }
      } else if Arrives(e) {
        l, k := LastDeparture(init), |init|;
        assert Opened(h, l, k);
      } else if h == [e] && e.FirstMessage? {
        l, k := 0, 0;
        assert Opened(h, 0, 0);
      } else {
        forall i: nat, j: nat ensures !Opened(h, i, j) {
          assert Opened(h, i, j) && j < |init| ==> Opened(init, i, j);
        }
      }
    }
  }

  /** One past the last departure. */
  function LastDeparture(h: seq<MemberEvent>): (l: nat)
    ensures l <= |h| && (l == 0 || Leaves(h[l - 1])) && forall i | l <= i < |h| :: !Leaves(h[i])
  {
    if h == [] then 0
    else if Leaves(h[|h| - 1]) then |h|
    else LastDeparture(h[..|h| - 1])
  }

  /** A row of somebody away stems from a departure after which nobody arrived. */
  lemma {:induction false} AwayEnds(h: seq<MemberEvent>)
    ensures Replay(h).None? <==> h == []
    ensures Replay(h).Some? && Away(Replay(h).value.status) ==>
              LastDeparture(h) > 0 && forall i | LastDeparture(h) <= i < |h| :: !Arrives(h[i])
  {
    if h != [] {
      AwayEnds(h[..|h| - 1]);
    }
  }

  // The sandbox

  /** The time test of NewcomerPlan. */
  predicate InSandbox(joined: Option<int>, now: int, window: int) {
    joined.Some? && joined.value <= now && now - joined.value < window
  }

  /** Within a period the join time never moves. */
  lemma {:induction false} JoinTimeFixed(h: seq<MemberEvent>, more: seq<MemberEvent>)
    requires Replay(h).Some? && !Away(Replay(h).value.status)
    requires forall e | e in more :: !Leaves(e)
    ensures var m := Replay(h + more);
            m.Some? && !Away(m.value.status) && m.value.joinedAt == Replay(h).value.joinedAt
            && m.value.grandfathered == Replay(h).value.grandfathered
  {
    if more == [] {
      assert h + more == h;
    } else {
      var init, e := more[..|more| - 1], more[|more| - 1];
      JoinTimeFixed(h, init);
      assert (h + more)[..|h + more| - 1] == h + init && e in more;
    }
  }

  /** Once a member has served the window, no later message of the same period is sandboxed. */
  lemma SandboxNeverReturns(h: seq<MemberEvent>, more: seq<MemberEvent>, now: int, later: int, window: int)
    requires Replay(h).Some? && !Away(Replay(h).value.status)
    requires forall e | e in more :: !Leaves(e)
    requires now <= later && !(JoinTime(Replay(h).value).Some? && now - JoinTime(Replay(h).value).value < window)
    ensures Replay(h + more).Some? && !InSandbox(JoinTime(Replay(h + more).value), later, window)
  {
    JoinTimeFixed(h, more);
  }

  /** A member who rejoins at a known time is sandboxed for exactly the window from then on. */
  lemma RejoinStartsWindow(h: seq<MemberEvent>, s: Status, at: int, now: int, window: int)
    requires !Away(s) && at > 0 && (Replay(h).Some? ==> Away(Replay(h).value.status))
    ensures Replay(h + [Seen(s, at)]).Some?
    ensures InSandbox(JoinTime(Replay(h + [Seen(s, at)]).value), now, window) <==> at <= now < at + window
  {
    assert (h + [Seen(s, at)])[..|h|] == h;
  }
}
