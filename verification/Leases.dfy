/** Claims on the outbox over any run of store operations. */
module Leases {
  import opened Tables
  import opened Canonical

  /** Lease tokens are random: no two claims of a run share one. */
  predicate FreshTokens(ops: seq<StoreOp>) {
    forall i, j | 0 <= i < j < |ops| && ops[i].ClaimDue? && ops[j].ClaimDue? :: ops[i].token != ops[j].token
  }

  /** Operation i is a claim that returns row n. */
  ghost predicate Returns(ops: seq<StoreOp>, i: nat, n: nat) {
    i < |ops| && ops[i].ClaimDue? && n in Selected(After(ops[..i + 1]), ops[i].token)
  }

  /** The update clears the lease of row n. */
  predicate Clears(op: StoreOp, n: nat) {
    op.Update? && op.id == n && (op.write.MarkError? || op.write.MarkDead? || op.write.MarkComplete?
      || op.write.ReleaseLease?)
  }

  lemma {:induction false} TokensComeFromClaims(ops: seq<StoreOp>, n: nat)
    requires n in After(ops).outbox && After(ops).outbox[n].token.Some?
    ensures exists i | 0 <= i < |ops| :: ops[i].ClaimDue? && After(ops).outbox[n].token == Some(ops[i].token)
  {
    var init, op := ops[..|ops| - 1], ops[|ops| - 1];
    var t := After(init);
    if n in t.outbox && t.outbox[n].token == After(ops).outbox[n].token {
      TokensComeFromClaims(init, n);
      var i :| 0 <= i < |init| && init[i].ClaimDue? && t.outbox[n].token == Some(init[i].token);
      assert ops[i] == init[i];
    } else {
      assert op.ClaimDue?;
    }
  }

  /** A claim returns exactly the unfinished rows that are due and unleased at its time, each now leased for a
      minute. */
  lemma ClaimReturnsClaimable(ops: seq<StoreOp>, i: nat, n: nat)
    requires FreshTokens(ops) && i < |ops| && ops[i].ClaimDue?
    ensures var t, u := After(ops[..i]), After(ops[..i + 1]);
            && (Returns(ops, i, n) <==> n in t.outbox && Claimable(t.outbox[n], ops[i].now))
            && (Returns(ops, i, n) ==>
                  u.outbox[n]
                  == t.outbox[n].(leaseUntil := ops[i].now + 60, token := Some(ops[i].token)))
            && (!Returns(ops, i, n) && n in t.outbox ==> n in u.outbox && u.outbox[n] == t.outbox[n])
  {
    var pre := ops[..i];
    assert ops[..i + 1][..i] == pre;
    if n in After(pre).outbox && After(pre).outbox[n].token.Some? {
      TokensComeFromClaims(pre, n);
    }
  }

  /** One operation that does not clear it never shortens a lease. */
  lemma LeaseNeverShortened(t: Tables, op: StoreOp, n: nat)
    requires Consistent(t) && (op.NewAction? ==> Hex(op.key.fingerprint))
    requires n in t.outbox && !Clears(op, n)
    ensures n in Apply(t, op).outbox && t.outbox[n].leaseUntil <= Apply(t, op).outbox[n].leaseUntil
  {
    hide Consistent, Hex;
    IdsBounded(t);
    if op.NewAction? {
      if Wins(t, op.key, op.now) {
        WinnerHolds(t, op.key, op.payload, op.source, op.now);
      }
    }
  }

  lemma {:induction false} LeasedSince(ops: seq<StoreOp>, i: nat, j: nat, n: nat)
    requires FreshTokens(ops) && Digests(ops) && Returns(ops, i, n) && i < j <= |ops|
    requires forall m | i < m < j :: !Clears(ops[m], n)
    ensures n in After(ops[..j]).outbox && After(ops[..j]).outbox[n].leaseUntil >= ops[i].now + LEASE_SECONDS
  {
    hide Consistent, Apply;
    ClaimReturnsClaimable(ops, i, n);
    if i + 1 < j {
      LeasedSince(ops, i, j - 1, n);
      var pre := ops[..j - 1];
      assert ops[..j][..j - 1] == pre && Digests(pre);
      RunsAreConsistent(pre);
      LeaseNeverShortened(After(pre), ops[j - 1], n);
    }
  }

  /** Two claims that both return a row are at least a minute apart, unless its lease was cleared in between. */
  lemma ClaimsAreApart(ops: seq<StoreOp>, i: nat, j: nat, n: nat)
    requires FreshTokens(ops) && Digests(ops) && i < j && Returns(ops, i, n) && Returns(ops, j, n)
    ensures ops[i].now + 60 <= ops[j].now || exists m | i < m < j :: Clears(ops[m], n)
  {
    if !(exists m | i < m < j :: Clears(ops[m], n)) {
      LeasedSince(ops, i, j, n);
      ClaimReturnsClaimable(ops, j, n);
    }
  }
}
