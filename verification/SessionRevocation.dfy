/**
 Deleting all sessions of a user while requests are in flight: the user stays without
 sessions, as long as no sign-in of theirs starts, exactly if none was under way.  A
 refresh under way does not matter, a sign-in past its account check does.
 */
module SessionRevocation {
  import opened Wrappers
  import opened TokenConfig
  import opened RefreshTokenTable
  import opened SessionInterleaving
  import opened SessionBound
  import opened SessionEscapes

  predicate HasNoRows(s: Sys, u: UserId) {
    forall id :: id in s.table ==> s.table[id].userId != u
  }

  predicate NobodySignsIn(es: seq<Event>, u: UserId) {
    forall i :: 0 <= i < |es| ==> !StartsSignIn(es[i], u)
  }

  predicate StartsSignIn(e: Event, u: UserId) {
    e.StartSignIn? && e.user == u
  }

  // Whatever happens, but for a new sign-in of the user.
  ghost predicate StaysWithoutRows(s: Sys, u: UserId) {
    forall es :: Run(s, es) && NobodySignsIn(es, u) ==> HasNoRows(After(s, es), u)
  }

  // ---- no sign-in under way ------------------------------------------------------------------

  lemma StepStaysWithoutRows(s: Sys, e: Event, u: UserId)
    requires Inv(s) && Enabled(s, e) && HasNoRows(s, u) && SignInsOf(s, u) == {} && !StartsSignIn(e, u)
    ensures HasNoRows(Step(s, e), u) && SignInsOf(Step(s, e), u) == {}
  {
    StoringIsSignIn(s, e, u);
    RotationHasRow(s, e, u);
    OtherRowsGo(s, e, u);
    forall r | r in SignInsOf(Step(s, e), u)
      ensures false
    {
      SignInComesFrom(s, e, r, u);
    }
  }

  lemma StoringIsSignIn(s: Sys, e: Event, u: UserId)
    ensures StoresFor(s, e, u) ==> SignInsOf(s, u) != {}
  {
    if StoresFor(s, e, u) {
      assert e.r in SignInsOf(s, u);
    }
  }

  lemma RotationHasRow(s: Sys, e: Event, u: UserId)
    requires Inv(s)
    ensures RotatesFor(s, e, u) ==> !HasNoRows(s, u)
  {
    if RotatesFor(s, e, u) {
      PresentedIsStored(s, e.r);
    }
  }

  lemma SignInComesFrom(s: Sys, e: Event, r: RequestId, u: UserId)
    requires Enabled(s, e) && !StartsSignIn(e, u) && r in SignInsOf(Step(s, e), u)
    ensures r in SignInsOf(s, u)
  {
    if e.Proceed? && !OfSignIn(s.inFlight[e.r]) {
      RefreshStaysItself(s, e);
      if r != e.r {
        SameElsewhere(s, Step(s, e), e.r, r);
      }
    }
  }

  lemma {:induction false} RunStaysWithoutRows(s: Sys, es: seq<Event>, u: UserId)
    requires Inv(s) && Run(s, es) && HasNoRows(s, u) && SignInsOf(s, u) == {} && NobodySignsIn(es, u)
    ensures HasNoRows(After(s, es), u)
    decreases |es|
  {
    if es != [] {
      assert !StartsSignIn(es[0], u) && NobodySignsIn(es[1..], u);
      StepKeepsInv(s, es[0]);
      StepStaysWithoutRows(s, es[0], u);
      RunStaysWithoutRows(Step(s, es[0]), es[1..], u);
    }
  }

  // ---- a sign-in under way --------------------------------------------------------------------

  lemma {:induction false} LargerThanAll(signed: set<RefreshJwt>) returns (id: TokenId)
    ensures Unused(signed, id) && forall j :: j in signed ==> j.tokenId < id
    decreases |signed|
  {
    if signed == {} {
      id := 0;
    } else {
      var j :| j in signed;
      id := LargerThanAll(signed - {j});
      if j.tokenId >= id {
        id := j.tokenId + 1;
      }
    }
  }

  // How many statements a sign-in is from its row.
  function StatementsLeft(p: Phase): nat {
    match p
    case FindDevice(_, _) => 6
    case DeleteDevice(_, _, _) => 5
    case FindActive(_, _) => 4
    case DeleteOldest(_, _, _) => 3
    case SignNew(_, _) => 2
    case CreateRow(_, _, _) => 1
    case _ => 0
  }

  // The sign-in can always take its next statement, and gets closer to its row.
  lemma NextStatement(s: Sys, r: RequestId) returns (e: Event)
    requires r in s.inFlight && OfSignIn(s.inFlight[r]) && !s.inFlight[r].CreateRow?
    ensures e.Proceed? && Enabled(s, e)
    ensures r in Step(s, e).inFlight && OfSignIn(Step(s, e).inFlight[r])
    ensures Step(s, e).inFlight[r].user == s.inFlight[r].user
    ensures StatementsLeft(Step(s, e).inFlight[r]) < StatementsLeft(s.inFlight[r])
  {
    var answer := ActiveQueryHasAnswer(s.table, s.inFlight[r].user, s.now, NullsLast);
    var random := LargerThanAll(s.signed);
    e := Proceed(r, NullsLast, answer, random);
  }

  lemma LastStatement(s: Sys, r: RequestId, u: UserId) returns (e: Event)
    requires Inv(s) && r in SignInsOf(s, u) && s.inFlight[r].CreateRow?
    ensures e.Proceed? && Enabled(s, e) && !HasNoRows(Step(s, e), u)
  {
    e := Proceed(r, NullsLast, [], 0);
    LoudStepIs(s, e);
    assert s.inFlight[r].minted.tokenId in Step(s, e).table;
  }

  lemma FirstThen(s: Sys, e: Event, es: seq<Event>, u: UserId)
    requires Enabled(s, e) && !StartsSignIn(e, u) && Run(Step(s, e), es) && NobodySignsIn(es, u)
    ensures Run(s, [e] + es) && NobodySignsIn([e] + es, u) && After(s, [e] + es) == After(Step(s, e), es)
  {
    assert ([e] + es)[1..] == es;
  }

  lemma {:induction false} SignInGetsItsRow(s: Sys, r: RequestId, u: UserId) returns (es: seq<Event>)
    requires Inv(s) && r in SignInsOf(s, u)
    ensures Run(s, es) && NobodySignsIn(es, u) && !HasNoRows(After(s, es), u)
    decreases StatementsLeft(s.inFlight[r])
  {
    if s.inFlight[r].CreateRow? {
      var e := LastStatement(s, r, u);
      FirstThen(s, e, [], u);
      es := [e] + [];
    } else {
      var e := NextStatement(s, r);
      StepKeepsInv(s, e);
      var rest := SignInGetsItsRow(Step(s, e), r, u);
      FirstThen(s, e, rest, u);
      es := [e] + rest;
    }
  }

  // ---- both -------------------------------------------------------------------------------------

  lemma RevocationIsFinalIff(before: seq<Event>, u: UserId)
    requires Run(INIT, before)
    ensures var s := After(INIT, before);
            StaysWithoutRows(Step(s, RevokeUser(u)), u) <==> SignInsOf(s, u) == {}
  {
    var s := After(INIT, before);
    InitInv();
    RunKeepsInv(INIT, before);
    StepKeepsInv(s, RevokeUser(u));
    var revoked := Step(s, RevokeUser(u));
    assert SignInsOf(revoked, u) == SignInsOf(s, u) && HasNoRows(revoked, u);
    if r :| r in SignInsOf(s, u) {
      var es := SignInGetsItsRow(revoked, r, u);
    } else {
      forall es | Run(revoked, es) && NobodySignsIn(es, u)
        ensures HasNoRows(After(revoked, es), u)
      {
        RunStaysWithoutRows(revoked, es, u);
      }
    }
  }
}
