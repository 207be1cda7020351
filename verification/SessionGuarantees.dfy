/**
 What holds in every run of the statement-level session store, however requests
 interleave: a refresh token is spent at most once, the theft alarm never rings
 for a token the service issued, the weekly sweep finds nothing to do, and a
 revoked session's rotation chain never refreshes again.
 */
module SessionGuarantees {
  import opened Wrappers
  import opened TokenConfig
  import opened RefreshTokenTable
  import opened SessionInterleaving

  // ---- a token is spent at most once ----------------------------------------------

  // However many refreshes and logouts present the same token, at most one succeeds.
  lemma TokenSpentAtMostOnce(es: seq<Event>, jwt: RefreshJwt)
    requires Run(INIT, es)
    ensures TimesSpent(After(INIT, es), jwt) <= 1
    ensures TimesSpent(After(INIT, es), jwt) == 1 ==> jwt.tokenId !in After(INIT, es).table
  {
    InitInv();
    RunKeepsInv(INIT, es);
  }

  // ---- tokens and rows agree ---------------------------------------------------------

  // A stored row belongs to exactly one signed token, which expires no later than the row.
  lemma StoredRowHasOneToken(es: seq<Event>, id: TokenId)
    requires Run(INIT, es) && id in After(INIT, es).table
    ensures var s, row := After(INIT, es), After(INIT, es).table[id];
            && (forall j :: j in s.signed && j.tokenId == id <==> row.token == Bcrypt(j))
            && row.token.of.userId == row.userId
            && row.token.of.exp * 1000 <= row.expiresAt
  {
    InitInv();
    RunKeepsInv(INIT, es);
    assert RowAgrees(After(INIT, es), id);
  }

  // A request that presents an issued token never reaches the branch that revokes
  // all sessions of the user, even when it races with other requests.
  lemma TheftAlarmNeverRings(es: seq<Event>, r: RequestId)
    requires Run(INIT, es) && r in After(INIT, es).inFlight
    ensures !After(INIT, es).inFlight[r].RevokeAll?
  {
    InitInv();
    RunKeepsInv(INIT, es);
  }

  // For a stored row with a foreign hash the alarm does ring: the next two statements
  // of the request delete every row of the row's user and no other.
  lemma ForeignRowRevokesAll(s: Sys, r: RequestId, find: Event, revoke: Event)
    requires r in s.inFlight && s.inFlight[r].FindToken? && find.Proceed? && find.r == r && revoke.Proceed? && revoke.r == r
    requires var id := s.inFlight[r].presented.tokenId;
             id in s.table && s.table[id].expiresAt >= s.now && s.table[id].token != Bcrypt(s.inFlight[r].presented)
    ensures var u, s' := s.table[s.inFlight[r].presented.tokenId].userId, Step(Step(s, find), revoke);
            && s'.table == s.table - (set id | id in s.table && s.table[id].userId == u)
            && s'.inFlight == s.inFlight - {r} && s'.refreshed == s.refreshed
  {
    var u := s.table[s.inFlight[r].presented.tokenId].userId;
    assert DeleteOfUser(s.table, u) == s.table - (set id | id in s.table && s.table[id].userId == u);
    assert s.inFlight[r := RevokeAll(s.inFlight[r].presented, u)] - {r} == s.inFlight - {r};
  }

  // A stored row that has expired since its token was checked is deleted, alone.
  lemma ExpiredRowIsDeleted(s: Sys, r: RequestId, find: Event, delete: Event)
    requires r in s.inFlight && s.inFlight[r].FindToken? && find.Proceed? && find.r == r && delete.Proceed? && delete.r == r
    requires var id := s.inFlight[r].presented.tokenId; id in s.table && s.table[id].expiresAt < s.now
    ensures var s' := Step(Step(s, find), delete);
            && s'.table == s.table - {s.inFlight[r].presented.tokenId}
            && s'.inFlight == s.inFlight - {r} && s'.refreshed == s.refreshed
  {
    assert s.inFlight[r := DeleteExpiredToken(s.inFlight[r].presented)] - {r} == s.inFlight - {r};
  }

  // ---- what the statements that do more than delete do -----------------------------------

  lemma SigningEffect(s: Sys, e: Event)
    requires e.Proceed? && Signs(s, e)
    ensures var s', minted := Step(s, e), Refresh(s.inFlight[e.r].user, e.random, s.now / 1000 + 604_800);
            && s'.table == s.table && s'.signed == s.signed + {minted} && s'.lineage == s.lineage
            && e.r in s'.inFlight && HasMinted(s'.inFlight[e.r]) && s'.inFlight[e.r].minted == minted
            && s'.inFlight - {e.r} == s.inFlight - {e.r}
  {
    LoudStepIs(s, e);
  }

  // A sign-in stores a never-used row for 7 days; a refresh first marks its row as used now
  // from its device, then moves it to the new token for another 7 days; a logout deletes
  // its row.  No other row changes.
  lemma StoringEffect(s: Sys, e: Event)
    requires e.Proceed? && (Creates(s, e) || Touches(s, e) || Rotates(s, e) || LogsOut(s, e))
    ensures var p, t' := s.inFlight[e.r], Step(s, e).table;
            match p
            case CreateRow(_, d, minted) =>
              t' == s.table[minted.tokenId := Row(minted.userId, Bcrypt(minted), d, s.now + 604_800_000, s.now, None)]
            case TouchToken(jwt, _, d) =>
              t' == s.table[jwt.tokenId := s.table[jwt.tokenId].(lastUsedAt := Some(s.now), device := d)]
            case RotateRow(jwt, _, d, minted) =>
              var row := s.table[jwt.tokenId];
              t' == (s.table - {jwt.tokenId})[minted.tokenId :=
                       Row(row.userId, Bcrypt(minted), d, s.now + 604_800_000, row.createdAt, Some(s.now))]
            case DeleteToken(jwt) => t' == s.table - {jwt.tokenId}
            case _ => false
  {
    LoudStepIs(s, e);
  }

  // A refresh or logout that finds its row gone ends there and changes nothing.
  lemma MissingRowEndsRequest(s: Sys, e: Event)
    requires e.Proceed? && e.r in s.inFlight
    requires s.inFlight[e.r].FindToken? || s.inFlight[e.r].TouchToken? || s.inFlight[e.r].RotateRow? || s.inFlight[e.r].DeleteToken?
    requires s.inFlight[e.r].presented.tokenId !in s.table
    ensures Step(s, e) == s.(inFlight := s.inFlight - {e.r})
  {
  }

  // A request that dies leaves everything but itself; a failed device clean-up leaves the
  // rows and lets the sign-in go on to the limit step.
  lemma FailuresChangeNoRow(s: Sys, r: RequestId)
    requires r in s.inFlight
    ensures Step(s, Abort(r)) == s.(inFlight := s.inFlight - {r})
    ensures s.inFlight[r].FindDevice? || s.inFlight[r].DeleteDevice? ==>
              Step(s, DeviceCleanupFails(r)) ==
              s.(inFlight := s.inFlight[r := FindActive(s.inFlight[r].user, s.inFlight[r].device)])
  {
  }

  // A refresh is recorded as successful by its rotation and by nothing else; likewise logouts.
  lemma SuccessIff(s: Sys, e: Event)
    requires Inv(s) && Enabled(s, e)
    ensures Step(s, e).refreshed == if Rotates(s, e) then s.refreshed + [s.inFlight[e.r].presented] else s.refreshed
    ensures Step(s, e).loggedOut == if LogsOut(s, e) then s.loggedOut + [s.inFlight[e.r].presented] else s.loggedOut
  {
    if Quiet(s, e) {
      QuietOnlyDeletes(s, e);
    } else {
      LoudStepIs(s, e);
    }
  }

  // ---- the weekly sweep -----------------------------------------------------------------

  lemma UnusedSweepDeletesNothing(es: seq<Event>)
    requires Run(INIT, es)
    ensures Step(After(INIT, es), SweepUnused) == After(INIT, es)
  {
    InitInv();
    RunKeepsInv(INIT, es);
    var s := After(INIT, es);
    forall id | id in s.table
      ensures id in DeleteUnused(s.table, s.now, REFRESH_TOKEN_DAYS)
    {
      assert RowAgrees(s, id);
    }
    assert DeleteUnused(s.table, s.now, REFRESH_TOKEN_DAYS) == s.table;
  }

  // ---- revocation ends a rotation chain ---------------------------------------------------

  // The chain was started and no row of it is left.
  ghost predicate Ended(s: Sys, chain: nat) {
    chain < s.lineages && forall id :: id in s.table ==> LineageOf(s, s.table[id].token.of) != chain
  }

  // Tokens keep their chain, and the record of successes only grows, by tokens of other chains.
  ghost predicate NoneOfChainRefreshed(s: Sys, s': Sys, chain: nat) {
    && (forall j :: j in s.lineage ==> j in s'.lineage && s'.lineage[j] == s.lineage[j])
    && |s.refreshed| <= |s'.refreshed|
    && s'.refreshed[..|s.refreshed|] == s.refreshed
    && forall i :: |s.refreshed| <= i < |s'.refreshed| ==> LineageOf(s', s'.refreshed[i]) != chain
  }

  lemma OnlyDeletesKeepsEnded(s: Sys, s': Sys, chain: nat)
    requires OnlyDeletes(s, s') && Ended(s, chain)
    ensures Ended(s', chain) && NoneOfChainRefreshed(s, s', chain)
  {
  }

  lemma CreateKeepsEnded(s: Sys, r: RequestId, chain: nat)
    requires RowsAgree(s) && SignedOnce(s) && MintedPending(s) && r in s.inFlight && s.inFlight[r].CreateRow? && Ended(s, chain)
    ensures var s' := CreateStatement(s, r, s.inFlight[r].minted, s.inFlight[r].device);
            Ended(s', chain) && NoneOfChainRefreshed(s, s', chain)
  {
    MintedIsNew(s, r);
    assert forall id :: id in s.table ==> RowAgrees(s, id);
  }

  lemma RotateKeepsEnded(s: Sys, r: RequestId, chain: nat)
    requires RowsAgree(s) && SignedOnce(s) && MintedPending(s) && PresentedDelivered(s) && Ended(s, chain)
    requires r in s.inFlight && s.inFlight[r].RotateRow? && s.inFlight[r].presented.tokenId in s.table
    ensures var s' := RotateStatement(s, r, s.inFlight[r].presented, s.inFlight[r].minted, s.inFlight[r].device);
            Ended(s', chain) && NoneOfChainRefreshed(s, s', chain)
  {
    MintedIsNew(s, r);
    assert forall id :: id in s.table ==> RowAgrees(s, id);
    assert s.table[s.inFlight[r].presented.tokenId].token.of == s.inFlight[r].presented;
  }

  lemma SignKeepsEnded(s: Sys, r: RequestId, next: Phase, chain: nat)
    requires Ended(s, chain) && HasMinted(next)
    ensures Ended(SignStatement(s, r, next), chain) && NoneOfChainRefreshed(s, SignStatement(s, r, next), chain)
  {
  }

  lemma TouchKeepsEnded(s: Sys, r: RequestId, jwt: RefreshJwt, u: UserId, d: Device, chain: nat)
    requires Ended(s, chain) && jwt.tokenId in s.table
    ensures var s' := TouchStatement(s, r, jwt, u, d); Ended(s', chain) && NoneOfChainRefreshed(s, s', chain)
  {
  }

  lemma LogoutKeepsEnded(s: Sys, r: RequestId, jwt: RefreshJwt, chain: nat)
    requires Ended(s, chain)
    ensures Ended(LogoutStatement(s, r, jwt), chain) && NoneOfChainRefreshed(s, LogoutStatement(s, r, jwt), chain)
  {
  }

  lemma StepKeepsEnded(s: Sys, e: Event, chain: nat)
    requires Inv(s) && Enabled(s, e) && Ended(s, chain)
    ensures Ended(Step(s, e), chain) && NoneOfChainRefreshed(s, Step(s, e), chain)
  {
    if Quiet(s, e) {
      QuietOnlyDeletes(s, e);
      OnlyDeletesKeepsEnded(s, Step(s, e), chain);
    } else {
      LoudStepIs(s, e);
      if Creates(s, e) {
        CreateKeepsEnded(s, e.r, chain);
      } else if Rotates(s, e) {
        RotateKeepsEnded(s, e.r, chain);
      } else if Signs(s, e) {
        SignKeepsEnded(s, e.r, NextPhase(s, e), chain);
      } else if Touches(s, e) {
        var p := s.inFlight[e.r];
        TouchKeepsEnded(s, e.r, p.presented, p.user, p.device, chain);
      } else {
        LogoutKeepsEnded(s, e.r, s.inFlight[e.r].presented, chain);
      }
    }
  }

  lemma {:induction false} RunKeepsEnded(s: Sys, es: seq<Event>, chain: nat)
    requires Inv(s) && Run(s, es) && Ended(s, chain)
    ensures Ended(After(s, es), chain) && NoneOfChainRefreshed(s, After(s, es), chain)
    decreases |es|
  {
    if es != [] {
      var m := Step(s, es[0]);
      StepKeepsInv(s, es[0]);
      StepKeepsEnded(s, es[0], chain);
      RunKeepsEnded(m, es[1..], chain);
      NoneOfChainTransitive(s, m, After(m, es[1..]), chain);
    }
  }

  lemma NoneOfChainTransitive(a: Sys, b: Sys, c: Sys, chain: nat)
    requires NoneOfChainRefreshed(a, b, chain) && NoneOfChainRefreshed(b, c, chain)
    requires forall j :: j in b.refreshed ==> j in b.lineage
    ensures NoneOfChainRefreshed(a, c, chain)
  {
    assert forall i :: 0 <= i < |b.refreshed| ==> c.refreshed[i] == c.refreshed[..|b.refreshed|][i] == b.refreshed[i];
  }

  // The statement that ends chains: a logout that found its row, or a deletion of
  // all rows of a user (logout-all, and soft and hard deletion).
  ghost predicate Revokes(s: Sys, e: Event, chain: nat) {
    || (LogsOut(s, e) && chain == LineageOf(s, s.inFlight[e.r].presented))
    || (e.RevokeUser? && exists id :: id in s.table && s.table[id].userId == e.user
                                      && chain == LineageOf(s, s.table[id].token.of))
  }

  lemma LogoutEnds(s: Sys, r: RequestId)
    requires RowsAgree(s) && SignedOnce(s) && PresentedDelivered(s) && Lineages(s)
    requires r in s.inFlight && s.inFlight[r].DeleteToken? && s.inFlight[r].presented.tokenId in s.table
    ensures Ended(LogoutStatement(s, r, s.inFlight[r].presented), LineageOf(s, s.inFlight[r].presented))
  {
    assert RowAgrees(s, s.inFlight[r].presented.tokenId);
  }

  lemma RevokedUserEnds(s: Sys, u: UserId, id: TokenId)
    requires RowsAgree(s) && Lineages(s) && id in s.table && s.table[id].userId == u
    ensures Ended(s.(table := DeleteOfUser(s.table, u)), LineageOf(s, s.table[id].token.of))
  {
    assert RowAgrees(s, id);
  }

  lemma RevocationEnds(s: Sys, e: Event, chain: nat)
    requires Inv(s) && Enabled(s, e) && Revokes(s, e, chain)
    ensures Ended(Step(s, e), chain)
  {
    if LogsOut(s, e) {
      LoudStepIs(s, e);
      LogoutEnds(s, e.r);
    } else {
      var id :| id in s.table && s.table[id].userId == e.user && chain == LineageOf(s, s.table[id].token.of);
      RevokedUserEnds(s, e.user, id);
    }
  }

  // After the revoking statement no token of the chain, known or still in flight,
  // refreshes in any continuation.
  lemma RevocationEndsLineage(before: seq<Event>, e: Event, after: seq<Event>, chain: nat)
    requires Run(INIT, before)
    requires Enabled(After(INIT, before), e) && Revokes(After(INIT, before), e, chain)
    requires Run(Step(After(INIT, before), e), after)
    ensures NoneOfChainRefreshed(
              Step(After(INIT, before), e), After(Step(After(INIT, before), e), after), chain)
  {
    var s := After(INIT, before);
    InitInv();
    RunKeepsInv(INIT, before);
    RevocationEnds(s, e, chain);
    StepKeepsInv(s, e);
    RunKeepsEnded(Step(s, e), after, chain);
  }
}
