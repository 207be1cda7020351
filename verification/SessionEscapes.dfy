/**
 Which refreshes matter to the session limit.  Among all steps but the storing of a
 row by a sign-in, exactly a rotation of a chosen or expired row spoils what a sign-in
 relies on when it is about to delete; runs without such rotations, and runs in which
 refreshes and sign-ins do not overlap at all, keep the bound.
 */
module SessionEscapes {
  import opened Wrappers
  import opened TokenConfig
  import opened RefreshTokenTable
  import opened SessionInterleaving
  import opened SessionBound

  // ---- what a waiting sign-in relies on --------------------------------------------------

  // Rows a sign-in is about to delete were once stored.
  ghost predicate HeldWereStored(s: Sys) {
    forall r, id :: r in s.inFlight && s.inFlight[r].DeleteOldest? && id in s.inFlight[r].ids ==> WasStored(s, id)
  }

  ghost predicate WasStored(s: Sys, id: TokenId) {
    exists j :: j in s.lineage && j.tokenId == id
  }

  lemma ChosenWereStored(s: Sys, e: Event)
    requires RowsAgree(s) && Enabled(s, e) && e.Proceed? && s.inFlight[e.r].FindActive?
    ensures forall id :: id in Elements(TokensToRemove(e.answer)) ==> WasStored(s, id)
  {
    forall id | id in Elements(TokensToRemove(e.answer))
      ensures WasStored(s, id)
    {
      var i :| 0 <= i < |TokensToRemove(e.answer)| && TokensToRemove(e.answer)[i] == id;
      assert e.answer[i] in Elements(e.answer);
      assert RowAgrees(s, id);
      assert s.table[id].token.of in s.lineage;
    }
  }

  // A request that takes hold of rows is one whose limit step looks.
  lemma HoldersQuery(s: Sys, e: Event, r: RequestId)
    requires Enabled(s, e) && r in Step(s, e).inFlight && Step(s, e).inFlight[r].DeleteOldest?
    ensures || (r in s.inFlight && s.inFlight[r] == Step(s, e).inFlight[r])
            || (e.Proceed? && e.r == r && s.inFlight[r].FindActive?
                && Step(s, e).inFlight[r].ids == Elements(TokensToRemove(e.answer)))
  {
    if e.Proceed? && !OfSignIn(s.inFlight[e.r]) {
      RefreshMovesCalmly(s, e, Step(s, e).inFlight[r].user);
      if r != e.r {
        SameElsewhere(s, Step(s, e), e.r, r);
      }
    }
  }

  lemma LineageGrows(s: Sys, e: Event)
    requires Inv(s) && Enabled(s, e)
    ensures forall j :: j in s.lineage ==> j in Step(s, e).lineage
  {
    if Quiet(s, e) {
      QuietOnlyDeletes(s, e);
    } else {
      LoudStepIs(s, e);
    }
  }

  lemma StepKeepsHeld(s: Sys, e: Event)
    requires Inv(s) && HeldWereStored(s) && Enabled(s, e)
    ensures HeldWereStored(Step(s, e))
  {
    var s' := Step(s, e);
    LineageGrows(s, e);
    forall r, id | r in s'.inFlight && s'.inFlight[r].DeleteOldest? && id in s'.inFlight[r].ids
      ensures WasStored(s', id)
    {
      HoldersQuery(s, e, r);
      if r in s.inFlight && s.inFlight[r] == s'.inFlight[r] {
        assert WasStored(s, id);
      } else {
        ChosenWereStored(s, e);
      }
      var j :| j in s.lineage && j.tokenId == id;
      assert j in s'.lineage;
    }
  }

  lemma {:induction false} RunKeepsHeld(s: Sys, es: seq<Event>)
    requires Inv(s) && HeldWereStored(s) && Run(s, es)
    ensures Inv(After(s, es)) && HeldWereStored(After(s, es))
    decreases |es|
  {
    if es != [] {
      StepKeepsInv(s, es[0]);
      StepKeepsHeld(s, es[0]);
      RunKeepsHeld(Step(s, es[0]), es[1..]);
    }
  }

  // ---- which steps spoil it ----------------------------------------------------------------

  // The unexpired rows that will be left when the holder of `ids` has deleted them.
  function Remainder(s: Sys, u: UserId, ids: set<TokenId>): set<TokenId> {
    Live(s.table, u, s.now) - ids
  }

  predicate StoresFor(s: Sys, e: Event, u: UserId) {
    Creates(s, e) && s.inFlight[e.r].user == u
  }

  lemma OtherStepsShrinkRemainder(s: Sys, e: Event, u: UserId, ids: set<TokenId>)
    requires Inv(s) && Enabled(s, e) && !RotatesFor(s, e, u) && !StoresFor(s, e, u)
    ensures Remainder(Step(s, e), u, ids) <= Remainder(s, u, ids)
  {
    OtherRowsGo(s, e, u);
    TimeGoesOn(s, e);
  }

  lemma LiveAfterCreate(t: Table, jwt: RefreshJwt, d: Device, now: nat)
    requires jwt.tokenId !in t
    ensures Live(Create(t, jwt, d, now), jwt.userId, now) == Live(t, jwt.userId, now) + {jwt.tokenId}
  {
  }

  lemma StoringGrowsRemainder(s: Sys, e: Event, u: UserId, ids: set<TokenId>)
    requires Inv(s) && StoresFor(s, e, u) && s.inFlight[e.r].minted.tokenId !in ids
    ensures |Remainder(Step(s, e), u, ids)| == |Remainder(s, u, ids)| + 1
  {
    LoudStepIs(s, e);
    MintedIsNew(s, e.r);
    var p := s.inFlight[e.r];
    LiveAfterCreate(s.table, p.minted, p.device, s.now);
    OneJoins(Live(s.table, u, s.now), ids, p.minted.tokenId);
  }

  lemma OneJoins(live: set<TokenId>, ids: set<TokenId>, entering: TokenId)
    requires entering !in live && entering !in ids
    ensures |(live + {entering}) - ids| == |live - ids| + 1
  {
    assert (live + {entering}) - ids == (live - ids) + {entering};
  }

  lemma LiveAfterRotate(t: Table, leaving: TokenId, jwt: RefreshJwt, d: Device, now: nat)
    requires leaving in t && jwt.tokenId !in t && t[leaving].userId == jwt.userId
    ensures Live(Rotate(t, leaving, jwt, d, now), jwt.userId, now) == (Live(t, jwt.userId, now) - {leaving}) + {jwt.tokenId}
  {
  }

  lemma OneReplaces(live: set<TokenId>, ids: set<TokenId>, leaving: TokenId, entering: TokenId)
    requires entering !in live && entering !in ids
    ensures |((live - {leaving}) + {entering}) - ids| == |live - ids| + (if leaving in ids || leaving !in live then 1 else 0)
  {
    OneJoins(live - {leaving}, ids, entering);
    assert (live - {leaving}) - ids == (live - ids) - {leaving};
  }

  lemma RotationOnRemainder(s: Sys, e: Event, u: UserId, ids: set<TokenId>)
    requires Inv(s) && RotatesFor(s, e, u) && s.inFlight[e.r].minted.tokenId !in ids
    ensures var id := s.inFlight[e.r].presented.tokenId;
            |Remainder(Step(s, e), u, ids)| ==
            |Remainder(s, u, ids)| + (if id in ids || id !in Live(s.table, u, s.now) then 1 else 0)
  {
    LoudStepIs(s, e);
    MintedIsNew(s, e.r);
    PresentedIsStored(s, e.r);
    var p := s.inFlight[e.r];
    LiveAfterRotate(s.table, p.presented.tokenId, p.minted, p.device, s.now);
    OneReplaces(Live(s.table, u, s.now), ids, p.presented.tokenId, p.minted.tokenId);
  }

  // For a sign-in that holds `ids`, the rows left after its deletion grow in number iff
  // another sign-in stores its row, or a rotation moves a row in `ids` or an expired one.
  lemma RemainderGrowsIff(es: seq<Event>, e: Event, holder: RequestId, u: UserId)
    requires Run(INIT, es) && Enabled(After(INIT, es), e) && holder in Waiting(After(INIT, es), u)
    ensures var s := After(INIT, es);
            var ids := s.inFlight[holder].ids;
            |Remainder(Step(s, e), u, ids)| > |Remainder(s, u, ids)| <==>
            || StoresFor(s, e, u)
            || (RotatesFor(s, e, u)
                && var id := s.inFlight[e.r].presented.tokenId; id in ids || id !in Live(s.table, u, s.now))
  {
    var s := After(INIT, es);
    InitInv();
    RunKeepsHeld(INIT, es);
    var ids := s.inFlight[holder].ids;
    if StoresFor(s, e, u) || RotatesFor(s, e, u) {
      MintedIsNotHeld(s, e.r, holder);
      if StoresFor(s, e, u) {
        StoringGrowsRemainder(s, e, u, ids);
      } else {
        RotationOnRemainder(s, e, u, ids);
      }
    } else {
      OtherStepsShrinkRemainder(s, e, u, ids);
      SubsetSize(Remainder(Step(s, e), u, ids), Remainder(s, u, ids));
    }
  }

  lemma MintedIsNotHeld(s: Sys, r: RequestId, holder: RequestId)
    requires Inv(s) && HeldWereStored(s) && r in s.inFlight && HasMinted(s.inFlight[r])
    requires holder in s.inFlight && s.inFlight[holder].DeleteOldest?
    ensures s.inFlight[r].minted.tokenId !in s.inFlight[holder].ids
  {
    MintedIsNew(s, r);
    assert !WasStored(s, s.inFlight[r].minted.tokenId);
  }

  // ---- runs without escapes ------------------------------------------------------------------

  // A rotation of the user that moves an unexpired row nobody has chosen.
  predicate Harmless(s: Sys, e: Event, u: UserId) {
    RotatesFor(s, e, u) ==>
      var id := s.inFlight[e.r].presented.tokenId;
      id in Live(s.table, u, s.now) && id !in VictimsOf(s, Waiting(s, u))
  }

  predicate AllHarmless(s: Sys, es: seq<Event>, u: UserId)
    decreases |es|
  {
    es == [] || (Harmless(s, es[0], u) && AllHarmless(Step(s, es[0]), es[1..], u))
  }

  lemma {:induction false} HarmlessDoNotEscape(s: Sys, es: seq<Event>, u: UserId, looked: nat)
    requires AllHarmless(s, es, u) && looked <= s.now
    ensures Escapes(s, es, u, looked) == 0
    decreases |es|
  {
    if es != [] {
      TimeGoesOn(s, es[0]);
      HarmlessDoNotEscape(Step(s, es[0]), es[1..], u, LastLook(s, es[0], u, looked));
    }
  }

  // Any number of refreshes may overlap the sign-ins as long as each moves an unexpired
  // row that no sign-in has chosen.
  lemma BoundWithHarmlessRefreshes(es: seq<Event>, u: UserId, k: nat)
    requires Crowded(INIT, es, u, k) && AllHarmless(INIT, es, u)
    ensures |Live(After(INIT, es).table, u, After(INIT, es).now)| <= MAX_REFRESH_TOKENS_PER_USER - 1 + k
  {
    HarmlessDoNotEscape(INIT, es, u, 0);
    ConcurrentSessionBound(es, u, k);
  }

  // ---- runs in which refreshes and sign-ins of the user do not overlap ---------------------------

  ghost predicate Disciplined(s: Sys, u: UserId, k: nat) {
    && |SignInsOf(s, u)| <= k
    && (SignInsOf(s, u) != {} ==> RefreshesOf(s, u) == {})
  }

  // Every state of the run is disciplined.
  ghost predicate DisciplinedRun(s: Sys, es: seq<Event>, u: UserId, k: nat)
    decreases |es|
  {
    && Disciplined(s, u, k)
    && (es == [] || (Enabled(s, es[0]) && DisciplinedRun(Step(s, es[0]), es[1..], u, k)))
  }

  lemma {:induction false} DisciplinedIsCrowded(s: Sys, es: seq<Event>, u: UserId, k: nat)
    requires DisciplinedRun(s, es, u, k)
    ensures Crowded(s, es, u, k)
    decreases |es|
  {
    if es != [] {
      DisciplinedIsCrowded(Step(s, es[0]), es[1..], u, k);
    }
  }

  // A row a refresh of the user is after had not expired when the limit step last looked.
  ghost predicate TargetsSeen(s: Sys, u: UserId, looked: nat) {
    forall r :: r in RefreshesOf(s, u) ==> TargetSeen(s, r, looked)
  }

  predicate TargetSeen(s: Sys, r: RequestId, looked: nat)
    requires r in s.inFlight && OfRefresh(s.inFlight[r])
  {
    var id := s.inFlight[r].presented.tokenId;
    id in s.table ==> s.table[id].expiresAt > looked
  }

  // The target of a starting refresh is live: its token has not expired, so neither has its row.
  lemma FreshTargetIsLive(s: Sys, jwt: Jwt)
    requires RowsAgree(s) && SignedOnce(s) && Verifies(s, jwt) && jwt.tokenId in s.table
    ensures s.table[jwt.tokenId].expiresAt > s.now
  {
    assert RowAgrees(s, jwt.tokenId);
    assert s.table[jwt.tokenId].token.of == jwt;
  }

  // Where the refreshes in flight after a step come from.
  lemma RefreshComesFrom(s: Sys, e: Event, r: RequestId, u: UserId)
    requires Enabled(s, e) && r in RefreshesOf(Step(s, e), u)
    ensures || (r in RefreshesOf(s, u) && s.inFlight[r].presented == Step(s, e).inFlight[r].presented)
            || (e.StartRefresh? && Verifies(s, e.jwt) && e.jwt == Step(s, e).inFlight[r].presented)
    ensures e.Proceed? && OfSignIn(s.inFlight[e.r]) ==> r in RefreshesOf(s, u)
  {
    if e.Proceed? {
      if OfSignIn(s.inFlight[e.r]) {
        SignInStaysSignIn(s, e);
      } else {
        RefreshStaysItself(s, e);
      }
      if r != e.r {
        SameElsewhere(s, Step(s, e), e.r, r);
      }
    }
  }

  lemma SignInStaysSignIn(s: Sys, e: Event)
    requires Enabled(s, e) && e.Proceed? && OfSignIn(s.inFlight[e.r])
    ensures Step(s, e).inFlight - {e.r} == s.inFlight - {e.r}
    ensures e.r in Step(s, e).inFlight ==> OfSignIn(Step(s, e).inFlight[e.r])
  {
  }

  lemma RefreshStaysItself(s: Sys, e: Event)
    requires Enabled(s, e) && e.Proceed? && !OfSignIn(s.inFlight[e.r])
    ensures Step(s, e).inFlight - {e.r} == s.inFlight - {e.r}
    ensures e.r in Step(s, e).inFlight ==>
              OfRefresh(s.inFlight[e.r]) && s.inFlight[e.r].presented == Step(s, e).inFlight[e.r].presented
  {
  }

  lemma NoRefreshDuringSignIn(s: Sys, e: Event, u: UserId, k: nat)
    requires Enabled(s, e) && Disciplined(s, u, k)
    requires e.Proceed? && OfSignIn(s.inFlight[e.r]) && s.inFlight[e.r].user == u
    ensures RefreshesOf(Step(s, e), u) == {}
  {
    assert e.r in SignInsOf(s, u);
    forall r | r in RefreshesOf(Step(s, e), u)
      ensures false
    {
      RefreshComesFrom(s, e, r, u);
    }
  }

  // After a step that neither stores nor rotates a row of the user.
  lemma OtherTargetSeen(s: Sys, e: Event, r: RequestId, u: UserId, looked: nat)
    requires Inv(s) && Inv(Step(s, e)) && Enabled(s, e) && TargetsSeen(s, u, looked) && looked <= s.now
    requires !RotatesFor(s, e, u) && !StoresFor(s, e, u) && r in RefreshesOf(Step(s, e), u)
    ensures TargetSeen(Step(s, e), r, looked)
  {
    var s' := Step(s, e);
    OtherRowsGo(s, e, u);
    RefreshComesFrom(s, e, r, u);
    if s'.inFlight[r].presented.tokenId in s'.table {
      PresentedIsStored(s', r);
      if !(r in RefreshesOf(s, u) && s.inFlight[r].presented == s'.inFlight[r].presented) {
        FreshTargetIsLive(s, e.jwt);
      }
    }
  }

  lemma RotationTargetSeen(s: Sys, e: Event, r: RequestId, u: UserId, looked: nat)
    requires Inv(s) && Enabled(s, e) && TargetsSeen(s, u, looked)
    requires RotatesFor(s, e, u) && r in RefreshesOf(Step(s, e), u)
    ensures TargetSeen(Step(s, e), r, looked)
  {
    LoudStepIs(s, e);
    MintedIsNew(s, e.r);
    SameElsewhere(s, Step(s, e), e.r, r);
    assert r in RefreshesOf(s, u) && TargetSeen(s, r, looked) && s.inFlight[r].presented in s.lineage;
  }

  lemma StepKeepsTargetsSeen(s: Sys, e: Event, u: UserId, k: nat, looked: nat)
    requires Inv(s) && Enabled(s, e) && Disciplined(s, u, k) && TargetsSeen(s, u, looked) && looked <= s.now
    ensures TargetsSeen(Step(s, e), u, LastLook(s, e, u, looked))
  {
    StepKeepsInv(s, e);
    forall r | r in RefreshesOf(Step(s, e), u)
      ensures TargetSeen(Step(s, e), r, LastLook(s, e, u, looked))
    {
      if Queries(s, e, u) || StoresFor(s, e, u) {
        NoRefreshDuringSignIn(s, e, u, k);
      } else if RotatesFor(s, e, u) {
        RotationTargetSeen(s, e, r, u, looked);
      } else {
        OtherTargetSeen(s, e, r, u, looked);
      }
    }
  }

  lemma DisciplinedStepDoesNotEscape(s: Sys, e: Event, u: UserId, k: nat, looked: nat)
    requires Inv(s) && Enabled(s, e) && Disciplined(s, u, k) && TargetsSeen(s, u, looked)
    ensures !EscapesLimit(s, e, u, looked)
  {
    if RotatesFor(s, e, u) {
      assert e.r in RefreshesOf(s, u) && TargetSeen(s, e.r, looked);
      assert Waiting(s, u) <= SignInsOf(s, u);
      assert VictimsOf(s, Waiting(s, u)) == {};
    }
  }

  lemma {:induction false} DisciplinedDoNotEscape(s: Sys, es: seq<Event>, u: UserId, k: nat, looked: nat)
    requires Inv(s) && TargetsSeen(s, u, looked) && looked <= s.now && DisciplinedRun(s, es, u, k)
    ensures Escapes(s, es, u, looked) == 0
    decreases |es|
  {
    if es != [] {
      DisciplinedStepDoesNotEscape(s, es[0], u, k, looked);
      StepKeepsTargetsSeen(s, es[0], u, k, looked);
      StepKeepsInv(s, es[0]);
      TimeGoesOn(s, es[0]);
      DisciplinedDoNotEscape(Step(s, es[0]), es[1..], u, k, LastLook(s, es[0], u, looked));
    }
  }

  // If no refresh of the user overlaps the sign-ins, no rotation escapes: the bound
  // holds, and with one sign-in at a time it is the configured limit itself.
  lemma BoundWithoutOverlap(es: seq<Event>, u: UserId, k: nat)
    requires DisciplinedRun(INIT, es, u, k)
    ensures |Live(After(INIT, es).table, u, After(INIT, es).now)| <= MAX_REFRESH_TOKENS_PER_USER - 1 + k
  {
    InitInv();
    DisciplinedDoNotEscape(INIT, es, u, k, 0);
    DisciplinedIsCrowded(INIT, es, u, k);
    ConcurrentSessionBound(es, u, k);
  }
}
