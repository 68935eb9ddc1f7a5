/** The email_verification_tokens table as a sequence of rows, and the
    queries and bulk updates EmailVerificationService runs on it: the
    invalidate-then-create issue step, the lookup by token, redemption and
    the count behind the resend throttle. The table's invariant is that a
    user has at most one unused token, hence at most one valid one. */
module Ledger {
  import opened Common
  import opened Users

  /** `filter(user=u, is_used=False).update(is_used=True)`. */
  function Invalidate(ts: seq<Token>, u: UserId): (r: seq<Token>)
    ensures |r| == |ts|
    ensures forall i :: 0 <= i < |ts| ==>
              r[i] == (if ts[i].user == u then ts[i].(used := true) else ts[i])
  {
    seq(|ts|, i requires 0 <= i < |ts| =>
      if ts[i].user == u && !ts[i].used then ts[i].(used := true) else ts[i])
  }

  /** The table after send_verification_email's two statements: every
      unused token of `u` marked used, then one new token appended. */
  function Issue(ts: seq<Token>, u: UserId, id: TokenId, now: Time): seq<Token>
  {
    Invalidate(ts, u) + [NewToken(id, u, now)]
  }

  /** At most one unused token per user. */
  ghost predicate AtMostOneUnused(ts: seq<Token>)
  {
    forall i, j :: 0 <= i < j < |ts| && ts[i].user == ts[j].user && !ts[i].used ==> ts[j].used
  }

  /** Token values are unique and below the next one to hand out. */
  ghost predicate IdsFresh(ts: seq<Token>, next: TokenId)
  {
    && (forall i :: 0 <= i < |ts| ==> ts[i].id < next)
    && (forall i, j :: 0 <= i < j < |ts| ==> ts[i].id != ts[j].id)
  }

  ghost function ValidTokensOf(ts: seq<Token>, u: UserId, now: Time): set<nat>
  {
    set i | 0 <= i < |ts| && ts[i].user == u && IsValid(ts[i], now)
  }

  /** The table's invariant: under AtMostOneUnused no user holds two valid
      tokens at any moment. */
  lemma AtMostOneValid(ts: seq<Token>, u: UserId, now: Time)
    requires AtMostOneUnused(ts)
    ensures |ValidTokensOf(ts, u, now)| <= 1
  {
    var v := ValidTokensOf(ts, u, now);
    if v != {} {
      var i :| i in v;
      assert v == {i} by {
        forall j | j in v ensures j == i {
        }
      }
    }
  }

  /** Issuing keeps the invariant, leaves exactly one unused token of `u` (the
      new one, valid for 24 hours) and changes no other user's rows. */
  lemma IssueKeepsInvariant(ts: seq<Token>, u: UserId, id: TokenId, now: Time)
    requires AtMostOneUnused(ts)
    ensures AtMostOneUnused(Issue(ts, u, id, now))
    ensures var r := Issue(ts, u, id, now);
      && |r| == |ts| + 1
      && r[|ts|] == Token(id, u, now, now + DAY, false)
      && (forall i :: 0 <= i < |ts| && r[i].user == u ==> r[i].used)
      && (forall i :: 0 <= i < |ts| && ts[i].user != u ==> r[i] == ts[i])
  {
    var r := Issue(ts, u, id, now);
    forall i, j | 0 <= i < j < |r| && r[i].user == r[j].user && !r[i].used
      ensures r[j].used
    {
      if j < |ts| {
        assert !ts[i].used;
      }
    }
  }

  /** Issuing keeps the token values fresh when the new one is `next`. */
  lemma IssueKeepsIdsFresh(ts: seq<Token>, u: UserId, next: TokenId, now: Time)
    requires IdsFresh(ts, next)
    ensures IdsFresh(Issue(ts, u, next, now), next + 1)
  {
  }

  /** `objects.get(token=id)` as an index: the first row holding the value. */
  function Find(ts: seq<Token>, id: TokenId): (r: Option<nat>)
    ensures r.None? ==> forall j :: 0 <= j < |ts| ==> ts[j].id != id
    ensures r.Some? ==> r.value < |ts| && ts[r.value].id == id
                         && forall j :: 0 <= j < r.value ==> ts[j].id != id
  {
    if |ts| == 0 then None
    else if ts[0].id == id then Some(0)
    else match Find(ts[1..], id)
      case None => None
      case Some(k) => Some(k + 1)
  }

  /** What verify_email_token finds for a token value: no row, an expired
      one, a used one, or one it may redeem. Expiry is checked first. */
  datatype Redemption = NotFound | Expired(index: nat) | AlreadyUsed(index: nat) | Redeemable(index: nat)

  function Classify(ts: seq<Token>, id: TokenId, now: Time): (c: Redemption)
    ensures c.NotFound? <==> forall j :: 0 <= j < |ts| ==> ts[j].id != id
    ensures !c.NotFound? ==> c.index < |ts| && ts[c.index].id == id
                              && forall j :: 0 <= j < c.index ==> ts[j].id != id
    ensures c.Expired? ==> IsExpired(ts[c.index], now)
    ensures c.AlreadyUsed? ==> ts[c.index].used && !IsExpired(ts[c.index], now)
    ensures c.Redeemable? ==> IsValid(ts[c.index], now)
  {
    match Find(ts, id)
    case None => NotFound
    case Some(k) =>
      if IsValid(ts[k], now) then Redeemable(k)
      else if IsExpired(ts[k], now) then Expired(k)
      else AlreadyUsed(k)
  }

  /** `token.is_used = True; token.save()`: the expiry is already set, so the
      save keeps it. */
  function Redeem(ts: seq<Token>, k: nat, now: Time): (r: seq<Token>)
    requires k < |ts|
    ensures |r| == |ts| && r[k].used && r[k].expiresAt == ts[k].expiresAt
    ensures r[k] == ts[k].(used := true)
    ensures forall i :: 0 <= i < |ts| && i != k ==> r[i] == ts[i]
  {
    ts[k := ts[k].(used := true, expiresAt := ExpiryOnSave(Some(ts[k].expiresAt), now))]
  }

  lemma RedeemKeepsInvariant(ts: seq<Token>, k: nat, now: Time, next: TokenId)
    requires k < |ts| && AtMostOneUnused(ts) && IdsFresh(ts, next)
    ensures AtMostOneUnused(Redeem(ts, k, now)) && IdsFresh(Redeem(ts, k, now), next)
    ensures forall i :: 0 <= i < |ts| && i != k ==> Redeem(ts, k, now)[i] == ts[i]
  {
  }

  /** A token redeems once: any later attempt with the same value finds the
      same row, now used, and fails as already used, or as expired once its
      24 hours are over. */
  lemma {:induction false} SecondRedemptionFails(ts: seq<Token>, id: TokenId, now: Time, later: Time)
    requires Classify(ts, id, now).Redeemable?
    ensures var k := Classify(ts, id, now).index;
      Classify(Redeem(ts, k, now), id, later) ==
        if IsExpired(ts[k], later) then Expired(k) else AlreadyUsed(k)
  {
    var k := Classify(ts, id, now).index;
    var r := Redeem(ts, k, now);
    var c := Classify(r, id, later);
    assert forall j :: 0 <= j < |ts| ==> r[j].id == ts[j].id;
    assert !c.NotFound?;
    assert c.index == k;
  }

  /** The throttle's query: tokens of `u` created at or after `since`, used
      or not. */
  function RecentCount(ts: seq<Token>, u: UserId, since: Time): (n: nat)
    ensures n <= |ts|
  {
    if |ts| == 0 then 0
    else RecentCount(ts[..|ts| - 1], u, since)
         + (if ts[|ts| - 1].user == u && ts[|ts| - 1].createdAt >= since then 1 else 0)
  }

  ghost function RecentIndices(ts: seq<Token>, u: UserId, since: Time): set<nat>
  {
    set i | 0 <= i < |ts| && ts[i].user == u && ts[i].createdAt >= since
  }

  /** The count is the number of matching rows. */
  lemma {:induction false} RecentCountIsCardinality(ts: seq<Token>, u: UserId, since: Time)
    ensures RecentCount(ts, u, since) == |RecentIndices(ts, u, since)|
  {
    if |ts| > 0 {
      var init := ts[..|ts| - 1];
      RecentCountIsCardinality(init, u, since);
      var last := |ts| - 1;
      assert forall i :: 0 <= i < last ==> init[i] == ts[i];
      assert last !in RecentIndices(init, u, since);
      if ts[last].user == u && ts[last].createdAt >= since {
        assert RecentIndices(ts, u, since) == RecentIndices(init, u, since) + {last};
      } else {
        assert RecentIndices(ts, u, since) == RecentIndices(init, u, since);
      }
    }
  }

  /** Marking rows used does not change the count. */
  lemma {:induction false} RecentCountInvalidate(ts: seq<Token>, v: UserId, u: UserId, since: Time)
    ensures RecentCount(Invalidate(ts, v), u, since) == RecentCount(ts, u, since)
  {
    if |ts| > 0 {
      var init := ts[..|ts| - 1];
      assert Invalidate(ts, v)[..|ts| - 1] == Invalidate(init, v);
      RecentCountInvalidate(init, v, u, since);
    }
  }

  /** Issuing a token for `u` at `now` adds one to u's count of any window
      that contains `now` and leaves other users' counts unchanged. */
  lemma IssueCount(ts: seq<Token>, u: UserId, v: UserId, id: TokenId, now: Time, since: Time)
    ensures RecentCount(Issue(ts, u, id, now), v, since)
            == RecentCount(ts, v, since) + (if v == u && now >= since then 1 else 0)
  {
    var r := Issue(ts, u, id, now);
    assert r[..|r| - 1] == Invalidate(ts, u);
    RecentCountInvalidate(ts, u, v, since);
  }

  /** A later window start counts no more tokens. */
  lemma {:induction false} RecentCountAntitone(ts: seq<Token>, u: UserId, s1: Time, s2: Time)
    requires s1 <= s2
    ensures RecentCount(ts, u, s2) <= RecentCount(ts, u, s1)
  {
    if |ts| > 0 {
      RecentCountAntitone(ts[..|ts| - 1], u, s1, s2);
    }
  }

  /** Once every token of `u` is older than the window, the count is zero. */
  lemma {:induction false} RecentCountZero(ts: seq<Token>, u: UserId, since: Time)
    requires forall i :: 0 <= i < |ts| && ts[i].user == u ==> ts[i].createdAt < since
    ensures RecentCount(ts, u, since) == 0
  {
    if |ts| > 0 {
      RecentCountZero(ts[..|ts| - 1], u, since);
    }
  }
}
