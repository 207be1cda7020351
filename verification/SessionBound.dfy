/**
 How many unexpired sessions a user can have when requests interleave: with at most
 K sign-ins of the user in flight at any moment, never more than
 MAX_REFRESH_TOKENS_PER_USER - 1 + K, plus one for each rotation that escapes the
 limit step.  A rotation escapes iff it moves a row that a sign-in has already chosen
 to delete, or one that had expired when the limit step last looked.  Every other
 refresh may overlap the sign-ins freely.
 */
module SessionBound {
  import opened Wrappers
  import opened TokenConfig
  import opened RefreshTokenTable
  import opened SessionInterleaving

  const ROOM: nat := MAX_REFRESH_TOKENS_PER_USER - 1

  function SignInsOf(s: Sys, u: UserId): set<RequestId> {
    set r | r in s.inFlight && OfSignIn(s.inFlight[r]) && s.inFlight[r].user == u
  }

  function RefreshesOf(s: Sys, u: UserId): set<RequestId> {
    set r | r in s.inFlight && OfRefresh(s.inFlight[r]) && s.inFlight[r].presented.userId == u
  }

  // At most k sign-ins of the user in flight, in every state of the run.
  ghost predicate Crowded(s: Sys, es: seq<Event>, u: UserId, k: nat)
    decreases |es|
  {
    && |SignInsOf(s, u)| <= k
    && (es == [] || (Enabled(s, es[0]) && Crowded(Step(s, es[0]), es[1..], u, k)))
  }

  // ---- rotations that escape ------------------------------------------------------------

  // Sign-ins that hold a list of rows they are about to delete.
  function Waiting(s: Sys, u: UserId): set<RequestId> {
    set r | r in s.inFlight && s.inFlight[r].DeleteOldest? && s.inFlight[r].user == u
  }

  function VictimsOf(s: Sys, w: set<RequestId>): set<TokenId> {
    set r, id | r in w && r in s.inFlight && s.inFlight[r].DeleteOldest? && id in s.inFlight[r].ids :: id
  }

  predicate Queries(s: Sys, e: Event, u: UserId) {
    e.Proceed? && e.r in s.inFlight && s.inFlight[e.r].FindActive? && s.inFlight[e.r].user == u
  }

  // When a limit step of the user last looked.
  function LastLook(s: Sys, e: Event, u: UserId, looked: nat): nat {
    if Queries(s, e, u) then s.now else looked
  }

  predicate RotatesFor(s: Sys, e: Event, u: UserId) {
    Rotates(s, e) && s.inFlight[e.r].user == u
  }

  predicate EscapesLimit(s: Sys, e: Event, u: UserId, looked: nat) {
    && RotatesFor(s, e, u)
    && var id := s.inFlight[e.r].presented.tokenId;
       id in VictimsOf(s, Waiting(s, u)) || s.table[id].expiresAt <= looked
  }

  // What a step adds to the bound.
  function Raise(s: Sys, e: Event, u: UserId, looked: nat): nat {
    if EscapesLimit(s, e, u, looked) then 1 else 0
  }

  function LookedAfter(s: Sys, es: seq<Event>, u: UserId, looked: nat): nat
    decreases |es|
  {
    if es == [] then looked else LookedAfter(Step(s, es[0]), es[1..], u, LastLook(s, es[0], u, looked))
  }

  // How many rotations of the run escape.
  function Escapes(s: Sys, es: seq<Event>, u: UserId, looked: nat): nat
    decreases |es|
  {
    if es == [] then 0
    else Raise(s, es[0], u, looked)
         + Escapes(Step(s, es[0]), es[1..], u, LastLook(s, es[0], u, looked))
  }

  // ---- the invariant ----------------------------------------------------------------------

  // Sign-ins past the limit step that have not stored their row yet.
  function Cleared(s: Sys, u: UserId): set<RequestId> {
    set r | r in s.inFlight && PastLimit(s.inFlight[r]) && s.inFlight[r].user == u
  }

  predicate PastLimit(p: Phase) {
    p.SignNew? || p.CreateRow?
  }

  // Rows that had not expired when the limit step last looked.
  function Occupied(s: Sys, u: UserId, looked: nat): set<TokenId> {
    Live(s.table, u, looked)
  }

  // Whichever of the waiting sign-ins delete next, there is room for the rest.
  ghost predicate Bounded(s: Sys, u: UserId, looked: nat, limit: nat) {
    forall w: set<RequestId> {:trigger BoundAt(s, u, looked, limit, w)} ::
      w <= Waiting(s, u) ==> BoundAt(s, u, looked, limit, w)
  }

  predicate BoundAt(s: Sys, u: UserId, looked: nat, limit: nat, w: set<RequestId>) {
    |Occupied(s, u, looked) - VictimsOf(s, w)| + |Cleared(s, u)| + |w| <= limit
  }

  // ---- steps after which nothing of the user has grown -----------------------------------------

  // Rows go; those that stay keep their owner and their expiry.
  ghost predicate RowsGo(s: Sys, s': Sys, u: UserId) {
    forall id :: id in s'.table && s'.table[id].userId == u ==>
      && id in s.table
      && s.table[id].userId == u
      && s'.table[id].expiresAt == s.table[id].expiresAt
  }

  // Every request but r stays as it is; r neither takes hold of rows nor passes the limit step.
  ghost predicate MovesCalmly(s: Sys, s': Sys, r: RequestId, u: UserId) {
    && s'.inFlight - {r} == s.inFlight - {r}
    && (r in s'.inFlight ==>
          && (s'.inFlight[r].DeleteOldest? ==> s'.inFlight[r].user != u)
          && (PastLimit(s'.inFlight[r]) && s'.inFlight[r].user == u ==> r in Cleared(s, u)))
  }

  lemma SameElsewhere(s: Sys, s': Sys, r: RequestId, q: RequestId)
    requires s'.inFlight - {r} == s.inFlight - {r} && q != r
    ensures q in s'.inFlight <==> q in s.inFlight
    ensures q in s.inFlight ==> s'.inFlight[q] == s.inFlight[q]
  {
    assert q in s'.inFlight <==> q in (s'.inFlight - {r});
    assert q in s.inFlight <==> q in (s.inFlight - {r});
  }

  lemma VictimsElsewhere(s: Sys, s': Sys, r: RequestId, w: set<RequestId>)
    requires r !in w && s'.inFlight - {r} == s.inFlight - {r}
    ensures VictimsOf(s', w) == VictimsOf(s, w)
  {
    forall q | q in w
      ensures q in s'.inFlight <==> q in s.inFlight
      ensures q in s.inFlight ==> s'.inFlight[q] == s.inFlight[q]
    {
      SameElsewhere(s, s', r, q);
    }
  }

  // Nobody new holds rows or has passed the limit step.
  ghost predicate Calm(s: Sys, s': Sys, u: UserId) {
    && Cleared(s', u) <= Cleared(s, u)
    && Waiting(s', u) <= Waiting(s, u)
    && forall q :: q in Waiting(s', u) ==> s'.inFlight[q] == s.inFlight[q]
  }

  lemma CalmMove(s: Sys, s': Sys, r: RequestId, u: UserId)
    requires MovesCalmly(s, s', r, u)
    ensures Calm(s, s', u)
  {
    forall q | q in s'.inFlight && q != r
      ensures q in s.inFlight && s'.inFlight[q] == s.inFlight[q]
    {
      SameElsewhere(s, s', r, q);
    }
  }

  lemma CalmKeepsBounded(s: Sys, s': Sys, u: UserId, looked: nat, limit: nat)
    requires Bounded(s, u, looked, limit) && RowsGo(s, s', u) && Calm(s, s', u)
    ensures Bounded(s', u, looked, limit)
  {
    forall w: set<RequestId> | w <= Waiting(s', u)
      ensures BoundAt(s', u, looked, limit, w)
    {
      assert forall q :: q in w ==> q in Waiting(s', u);
      assert VictimsOf(s', w) == VictimsOf(s, w);
      assert BoundAt(s, u, looked, limit, w);
      SubsetSize(Occupied(s', u, looked) - VictimsOf(s', w), Occupied(s, u, looked) - VictimsOf(s, w));
      SubsetSize(Cleared(s', u), Cleared(s, u));
    }
  }

  // The steps treated one by one below.
  predicate OwnStep(s: Sys, e: Event, u: UserId) {
    || RotatesFor(s, e, u)
    || (Creates(s, e) && s.inFlight[e.r].user == u)
    || Queries(s, e, u)
    || (e.Proceed? && e.r in s.inFlight && s.inFlight[e.r].DeleteOldest? && s.inFlight[e.r].user == u)
  }

  lemma OtherRowsGo(s: Sys, e: Event, u: UserId)
    requires RowsAgree(s) && SignedOnce(s) && MintedPending(s) && PresentedDelivered(s) && Enabled(s, e)
    requires !RotatesFor(s, e, u) && !(Creates(s, e) && s.inFlight[e.r].user == u)
    ensures RowsGo(s, Step(s, e), u)
  {
    if Quiet(s, e) {
      QuietOnlyDeletes(s, e);
    } else {
      LoudStepIs(s, e);
      if Rotates(s, e) {
        assert RowAgrees(s, s.inFlight[e.r].presented.tokenId);
        PresentedIsStored(s, e.r);
      }
    }
  }

  // A row that a request is about to rotate is that of the token it presents.
  lemma PresentedIsStored(s: Sys, r: RequestId)
    requires RowsAgree(s) && SignedOnce(s) && PresentedDelivered(s)
    requires r in s.inFlight && HasPresented(s.inFlight[r]) && s.inFlight[r].presented.tokenId in s.table
    ensures var p := s.inFlight[r]; s.table[p.presented.tokenId].token.of == p.presented
    ensures var p := s.inFlight[r]; s.table[p.presented.tokenId].userId == p.presented.userId
  {
    assert RowAgrees(s, s.inFlight[r].presented.tokenId);
  }

  lemma OutsideIsCalm(s: Sys, e: Event, u: UserId)
    requires Enabled(s, e) && !e.Proceed?
    ensures Calm(s, Step(s, e), u)
  {
  }

  lemma SignInMovesCalmly(s: Sys, e: Event, u: UserId)
    requires Enabled(s, e) && e.Proceed? && OfSignIn(s.inFlight[e.r]) && !OwnStep(s, e, u)
    ensures MovesCalmly(s, Step(s, e), e.r, u)
  {
  }

  lemma RefreshMovesCalmly(s: Sys, e: Event, u: UserId)
    requires Enabled(s, e) && e.Proceed? && !OfSignIn(s.inFlight[e.r])
    ensures MovesCalmly(s, Step(s, e), e.r, u)
  {
  }

  lemma OtherStepKeepsBounded(s: Sys, e: Event, u: UserId, looked: nat, limit: nat)
    requires Inv(s) && Enabled(s, e) && Bounded(s, u, looked, limit) && !OwnStep(s, e, u)
    ensures Bounded(Step(s, e), u, looked, limit)
  {
    OtherRowsGo(s, e, u);
    if !e.Proceed? {
      OutsideIsCalm(s, e, u);
    } else {
      if OfSignIn(s.inFlight[e.r]) {
        SignInMovesCalmly(s, e, u);
      } else {
        RefreshMovesCalmly(s, e, u);
      }
      CalmMove(s, Step(s, e), e.r, u);
    }
    CalmKeepsBounded(s, Step(s, e), u, looked, limit);
  }

  // ---- the limit step looks -------------------------------------------------------------------

  predicate IsSignInOf(s: Sys, r: RequestId, u: UserId) {
    r in s.inFlight && OfSignIn(s.inFlight[r]) && s.inFlight[r].user == u
  }

  // The other sign-ins leave one of them a place.
  lemma PlaceForOne(s: Sys, r: RequestId, u: UserId, k: nat, a: set<RequestId>, b: set<RequestId>)
    requires |SignInsOf(s, u)| <= k && IsSignInOf(s, r, u)
    requires a <= Waiting(s, u) && b <= Cleared(s, u) && r !in a + b
    ensures |a| + |b| + 1 <= k
  {
    assert a !! b;
    assert |a + b + {r}| == |a| + |b| + 1;
    SubsetSize(a + b + {r}, SignInsOf(s, u));
  }

  // What changes for the bound when one sign-in moves on.
  lemma SignInMoves(s: Sys, s': Sys, r: RequestId, next: Phase, u: UserId)
    requires IsSignInOf(s, r, u) && OfSignIn(next) && next.user == u
    requires s'.inFlight == s.inFlight[r := next]
    ensures Cleared(s', u) == Cleared(s, u) - {r} + (if PastLimit(next) then {r} else {})
    ensures Waiting(s', u) == Waiting(s, u) - {r} + (if next.DeleteOldest? then {r} else {})
    ensures s'.inFlight - {r} == s.inFlight - {r}
  {
  }

  lemma VictimsWith(s: Sys, r: RequestId, w: set<RequestId>)
    requires r in s.inFlight && s.inFlight[r].DeleteOldest?
    ensures VictimsOf(s, w + {r}) == VictimsOf(s, w) + s.inFlight[r].ids
  {
  }

  lemma OlderLook(t: Table, u: UserId, looked: nat, now: nat)
    requires looked <= now
    ensures Live(t, u, now) <= Live(t, u, looked)
  {
  }

  // Too few rows to remove any: the request passes the limit step.
  lemma EnoughRoomKeepsBounded(s: Sys, s': Sys, r: RequestId, d: Device, u: UserId, k: nat, limit: nat)
    requires |SignInsOf(s, u)| <= k && ROOM + k <= limit && IsSignInOf(s, r, u) && s.inFlight[r].FindActive?
    requires |Live(s.table, u, s.now)| <= ROOM
    requires s'.inFlight == s.inFlight[r := SignNew(u, d)] && s'.table == s.table
    ensures Bounded(s', u, s.now, limit)
  {
    SignInMoves(s, s', r, SignNew(u, d), u);
    forall w: set<RequestId> | w <= Waiting(s', u)
      ensures BoundAt(s', u, s.now, limit, w)
    {
      PlaceForOne(s, r, u, k, w, Cleared(s, u));
      SubsetSize(Occupied(s', u, s.now) - VictimsOf(s', w), Live(s.table, u, s.now));
    }
  }

  // What taking hold of rows changes.
  lemma HoldingMoves(s: Sys, s': Sys, r: RequestId, d: Device, ids: set<TokenId>, u: UserId)
    requires IsSignInOf(s, r, u) && s.inFlight[r].FindActive?
    requires s'.inFlight == s.inFlight[r := DeleteOldest(u, d, ids)]
    ensures r !in Cleared(s, u) && r !in Waiting(s, u)
    ensures Waiting(s', u) == Waiting(s, u) + {r} && Cleared(s', u) == Cleared(s, u)
    ensures s'.inFlight - {r} == s.inFlight - {r}
    ensures r in s'.inFlight && s'.inFlight[r].DeleteOldest? && s'.inFlight[r].ids == ids
  {
    SignInMoves(s, s', r, DeleteOldest(u, d, ids), u);
  }

  // The request takes hold of rows without which at most ROOM are left.
  lemma HoldingKeepsBounded(s: Sys, s': Sys, r: RequestId, ids: set<TokenId>, u: UserId, k: nat, looked: nat, limit: nat)
    requires Bounded(s, u, looked, limit) && |SignInsOf(s, u)| <= k && ROOM + k <= limit
    requires IsSignInOf(s, r, u) && r !in Cleared(s, u) && r !in Waiting(s, u) && Waiting(s', u) == Waiting(s, u) + {r}
    requires |Live(s.table, u, s.now) - ids| <= ROOM && Live(s.table, u, s.now) <= Live(s.table, u, looked)
    requires s'.inFlight - {r} == s.inFlight - {r} && s'.table == s.table && Cleared(s', u) == Cleared(s, u)
    requires r in s'.inFlight && s'.inFlight[r].DeleteOldest? && s'.inFlight[r].ids == ids
    ensures Bounded(s', u, s.now, limit)
  {
    forall w: set<RequestId> | w <= Waiting(s', u)
      ensures BoundAt(s', u, s.now, limit, w)
    {
      HoldingBoundAt(s, s', r, ids, u, k, looked, limit, w);
    }
  }

  lemma HoldingBoundAt(
    s: Sys, s': Sys, r: RequestId, ids: set<TokenId>, u: UserId, k: nat, looked: nat, limit: nat, w: set<RequestId>)
    requires Bounded(s, u, looked, limit) && |SignInsOf(s, u)| <= k && ROOM + k <= limit
    requires IsSignInOf(s, r, u) && r !in Cleared(s, u) && r !in Waiting(s, u) && w <= Waiting(s, u) + {r}
    requires |Live(s.table, u, s.now) - ids| <= ROOM && Live(s.table, u, s.now) <= Live(s.table, u, looked)
    requires s'.inFlight - {r} == s.inFlight - {r} && s'.table == s.table && Cleared(s', u) == Cleared(s, u)
    requires r in s'.inFlight && s'.inFlight[r].DeleteOldest? && s'.inFlight[r].ids == ids
    ensures BoundAt(s', u, s.now, limit, w)
  {
    if r in w {
      HolderIsBounded(s, s', r, ids, u, k, limit, w - {r}, w);
    } else {
      BystandersStayBounded(s, s', r, u, looked, limit, w);
    }
  }

  lemma BystandersStayBounded(s: Sys, s': Sys, r: RequestId, u: UserId, looked: nat, limit: nat, w: set<RequestId>)
    requires Bounded(s, u, looked, limit) && w <= Waiting(s, u) && r !in w
    requires s'.inFlight - {r} == s.inFlight - {r} && Cleared(s', u) == Cleared(s, u)
    requires Live(s'.table, u, s.now) <= Live(s.table, u, looked)
    ensures BoundAt(s', u, s.now, limit, w)
  {
    VictimsElsewhere(s, s', r, w);
    assert BoundAt(s, u, looked, limit, w);
    SubsetSize(Occupied(s', u, s.now) - VictimsOf(s', w), Occupied(s, u, looked) - VictimsOf(s, w));
  }

  lemma HolderIsBounded(
    s: Sys, s': Sys, r: RequestId, ids: set<TokenId>, u: UserId, k: nat, limit: nat,
    others: set<RequestId>, w: set<RequestId>)
    requires |SignInsOf(s, u)| <= k && ROOM + k <= limit && IsSignInOf(s, r, u)
    requires others <= Waiting(s, u) && r !in others && r !in Cleared(s, u) && w == others + {r}
    requires |Live(s.table, u, s.now) - ids| <= ROOM
    requires s'.table == s.table && Cleared(s', u) == Cleared(s, u)
    requires r in s'.inFlight && s'.inFlight[r].DeleteOldest? && s'.inFlight[r].ids == ids
    ensures BoundAt(s', u, s.now, limit, w)
  {
    PlaceForOne(s, r, u, k, others, Cleared(s, u));
    VictimsWith(s', r, others);
    SubsetSize(Occupied(s', u, s.now) - VictimsOf(s', others + {r}), Live(s.table, u, s.now) - ids);
  }

  lemma QueryKeepsBounded(s: Sys, e: Event, s': Sys, u: UserId, k: nat, looked: nat, limit: nat)
    requires Bounded(s, u, looked, limit) && looked <= s.now
    requires |SignInsOf(s, u)| <= k && ROOM + k <= limit && Enabled(s, e) && Queries(s, e, u)
    requires var d, remove := s.inFlight[e.r].device, TokensToRemove(e.answer);
             s' == Goto(s, e.r, if remove == [] then SignNew(u, d) else DeleteOldest(u, d, Elements(remove)))
    ensures Bounded(s', u, s.now, limit)
  {
    LimitLeavesRoom(s.table, u, s.now, e.nulls, e.answer);
    var remove := TokensToRemove(e.answer);
    if remove == [] {
      assert Live(s.table, u, s.now) - Elements(remove) == Live(s.table, u, s.now);
      EnoughRoomKeepsBounded(s, s', e.r, s.inFlight[e.r].device, u, k, limit);
    } else {
      HoldingMoves(s, s', e.r, s.inFlight[e.r].device, Elements(remove), u);
      OlderLook(s.table, u, looked, s.now);
      HoldingKeepsBounded(s, s', e.r, Elements(remove), u, k, looked, limit);
    }
  }

  // ---- the limit step deletes --------------------------------------------------------------------

  // The request trades its victims for a claim to one row.
  lemma DeleteOldestKeepsBounded(s: Sys, r: RequestId, u: UserId, looked: nat, limit: nat)
    requires Bounded(s, u, looked, limit) && IsSignInOf(s, r, u) && s.inFlight[r].DeleteOldest?
    ensures var p := s.inFlight[r];
            Bounded(Goto(s, r, SignNew(u, p.device)).(table := s.table - p.ids), u, looked, limit)
  {
    var p := s.inFlight[r];
    var s' := Goto(s, r, SignNew(u, p.device)).(table := s.table - p.ids);
    SignInMoves(s, s', r, SignNew(u, p.device), u);
    assert Occupied(s', u, looked) == Occupied(s, u, looked) - p.ids;
    forall w: set<RequestId> | w <= Waiting(s', u)
      ensures BoundAt(s', u, looked, limit, w)
    {
      DeletingBoundAt(s, s', r, u, looked, limit, w);
    }
  }

  lemma DeletingBoundAt(s: Sys, s': Sys, r: RequestId, u: UserId, looked: nat, limit: nat, w: set<RequestId>)
    requires Bounded(s, u, looked, limit) && r in Waiting(s, u) && w <= Waiting(s, u) - {r}
    requires Occupied(s', u, looked) == Occupied(s, u, looked) - s.inFlight[r].ids
    requires s'.inFlight - {r} == s.inFlight - {r} && Cleared(s', u) == Cleared(s, u) + {r}
    ensures BoundAt(s', u, looked, limit, w)
  {
    var more := w + {r};
    assert BoundAt(s, u, looked, limit, more);
    VictimsElsewhere(s, s', r, w);
    VictimsBecomeRoom(s, s', r, u, looked, limit, w, more);
  }

  lemma VictimsBecomeRoom(
    s: Sys, s': Sys, r: RequestId, u: UserId, looked: nat, limit: nat, w: set<RequestId>, more: set<RequestId>)
    requires r in s.inFlight && s.inFlight[r].DeleteOldest? && r !in w && more == w + {r}
    requires BoundAt(s, u, looked, limit, more)
    requires Occupied(s', u, looked) == Occupied(s, u, looked) - s.inFlight[r].ids
    requires VictimsOf(s', w) == VictimsOf(s, w) && Cleared(s', u) == Cleared(s, u) + {r}
    ensures BoundAt(s', u, looked, limit, w)
  {
    VictimsWith(s, r, w);
    Trade(Occupied(s, u, looked), VictimsOf(s, w), s.inFlight[r].ids, Cleared(s, u), w, r);
  }

  lemma Trade(
    rows: set<TokenId>, victims: set<TokenId>, ids: set<TokenId>,
    cleared: set<RequestId>, w: set<RequestId>, r: RequestId)
    requires r !in w
    ensures |(rows - ids) - victims| + |cleared + {r}| + |w| <= |rows - (victims + ids)| + |cleared| + |w + {r}|
  {
    assert (rows - ids) - victims == rows - (victims + ids);
    OneMore(cleared + {r}, cleared, r);
    assert |w + {r}| == |w| + 1;
  }

  // ---- a row is stored ---------------------------------------------------------------------------------

  lemma OneMore(after: set<TokenId>, before: set<TokenId>, id: TokenId)
    requires after <= before + {id}
    ensures |after| <= |before| + 1
  {
    SubsetSize(after, before + {id});
  }

  // The claim becomes a row.
  lemma CreateRowKeepsBounded(s: Sys, r: RequestId, u: UserId, looked: nat, limit: nat)
    requires Bounded(s, u, looked, limit) && IsSignInOf(s, r, u) && s.inFlight[r].CreateRow?
    ensures Bounded(CreateStatement(s, r, s.inFlight[r].minted, s.inFlight[r].device), u, looked, limit)
  {
    var p := s.inFlight[r];
    var s' := CreateStatement(s, r, p.minted, p.device);
    CreateRowMoves(s, r, u, looked);
    forall w: set<RequestId> | w <= Waiting(s', u)
      ensures BoundAt(s', u, looked, limit, w)
    {
      VictimsElsewhere(s, s', r, w);
      assert BoundAt(s, u, looked, limit, w);
      OneMore(Occupied(s', u, looked) - VictimsOf(s', w), Occupied(s, u, looked) - VictimsOf(s, w), p.minted.tokenId);
    }
  }

  lemma CreateRowMoves(s: Sys, r: RequestId, u: UserId, looked: nat)
    requires IsSignInOf(s, r, u) && s.inFlight[r].CreateRow?
    ensures var s' := CreateStatement(s, r, s.inFlight[r].minted, s.inFlight[r].device);
            && Waiting(s', u) == Waiting(s, u) && r !in Waiting(s, u)
            && r in Cleared(s, u) && Cleared(s', u) == Cleared(s, u) - {r}
            && Occupied(s', u, looked) <= Occupied(s, u, looked) + {s.inFlight[r].minted.tokenId}
  {
  }

  // ---- a row is renamed -----------------------------------------------------------------------------------

  lemma Renaming(after: set<TokenId>, before: set<TokenId>, leaving: TokenId, entering: TokenId)
    requires after <= (before - {leaving}) + {entering}
    ensures |after| <= |before| + (if leaving in before then 0 else 1)
  {
    OneMore(after, before - {leaving}, entering);
  }

  lemma RotateRenames(s: Sys, s': Sys, r: RequestId, u: UserId, looked: nat)
    requires r in s.inFlight && s.inFlight[r].RotateRow? && s.inFlight[r].presented.tokenId in s.table
    requires s' == RotateStatement(s, r, s.inFlight[r].presented, s.inFlight[r].minted, s.inFlight[r].device)
    ensures var p := s.inFlight[r];
            Occupied(s', u, looked) <= (Occupied(s, u, looked) - {p.presented.tokenId}) + {p.minted.tokenId}
    ensures Waiting(s', u) == Waiting(s, u) && Cleared(s', u) == Cleared(s, u)
    ensures s'.inFlight - {r} == s.inFlight - {r} && r !in Waiting(s, u)
  {
  }

  // It leaves the count alone unless the rotation escapes, and then adds one.
  lemma RotateKeepsBounded(s: Sys, e: Event, u: UserId, looked: nat, limit: nat, raised: nat)
    requires RowsAgree(s) && SignedOnce(s) && PresentedDelivered(s)
    requires Bounded(s, u, looked, limit) && RotatesFor(s, e, u) && raised == limit + Raise(s, e, u, looked)
    ensures Bounded(Step(s, e), u, looked, raised)
  {
    LoudStepIs(s, e);
    var s', p := Step(s, e), s.inFlight[e.r];
    RotateRenames(s, s', e.r, u, looked);
    PresentedIsStored(s, e.r);
    forall w: set<RequestId> | w <= Waiting(s', u)
      ensures BoundAt(s', u, looked, raised, w)
    {
      VictimsElsewhere(s, s', e.r, w);
      FewerVictims(s, w, Waiting(s, u));
      assert BoundAt(s, u, looked, limit, w);
      Renaming(Occupied(s', u, looked) - VictimsOf(s', w), Occupied(s, u, looked) - VictimsOf(s, w),
               p.presented.tokenId, p.minted.tokenId);
    }
  }

  lemma FewerVictims(s: Sys, w: set<RequestId>, all: set<RequestId>)
    requires w <= all
    ensures VictimsOf(s, w) <= VictimsOf(s, all)
  {
  }

  // ---- every step, every run ------------------------------------------------------------------------------

  lemma QueryIs(s: Sys, e: Event, u: UserId)
    requires Queries(s, e, u)
    ensures var d, remove := s.inFlight[e.r].device, TokensToRemove(e.answer);
            Step(s, e) == Goto(s, e.r, if remove == [] then SignNew(u, d) else DeleteOldest(u, d, Elements(remove)))
  {
  }

  lemma DeleteOldestIs(s: Sys, e: Event)
    requires e.Proceed? && e.r in s.inFlight && s.inFlight[e.r].DeleteOldest?
    ensures var p := s.inFlight[e.r];
            Step(s, e) == Goto(s, e.r, SignNew(p.user, p.device)).(table := s.table - p.ids)
  {
  }

  // The user's own steps other than a rotation.
  lemma OwnStepKeepsBounded(s: Sys, e: Event, u: UserId, k: nat, looked: nat, limit: nat)
    requires Enabled(s, e) && OwnStep(s, e, u) && !RotatesFor(s, e, u)
    requires |SignInsOf(s, u)| <= k && ROOM + k <= limit && Bounded(s, u, looked, limit) && looked <= s.now
    ensures Bounded(Step(s, e), u, LastLook(s, e, u, looked), limit)
  {
    if Creates(s, e) {
      LoudStepIs(s, e);
      CreateRowKeepsBounded(s, e.r, u, looked, limit);
    } else if Queries(s, e, u) {
      QueryIs(s, e, u);
      QueryKeepsBounded(s, e, Step(s, e), u, k, looked, limit);
    } else {
      DeleteOldestIs(s, e);
      DeleteOldestKeepsBounded(s, e.r, u, looked, limit);
    }
  }

  lemma StepKeepsBounded(s: Sys, e: Event, u: UserId, k: nat, looked: nat, limit: nat, raised: nat)
    requires Inv(s) && Enabled(s, e) && |SignInsOf(s, u)| <= k && ROOM + k <= limit
    requires Bounded(s, u, looked, limit) && looked <= s.now && raised == limit + Raise(s, e, u, looked)
    ensures Bounded(Step(s, e), u, LastLook(s, e, u, looked), raised)
  {
    if RotatesFor(s, e, u) {
      RotateKeepsBounded(s, e, u, looked, limit, raised);
    } else if OwnStep(s, e, u) {
      OwnStepKeepsBounded(s, e, u, k, looked, limit);
    } else {
      OtherStepKeepsBounded(s, e, u, looked, limit);
    }
  }

  lemma TimeGoesOn(s: Sys, e: Event)
    ensures s.now <= Step(s, e).now
  {
  }

  ghost predicate BoundedAfter(s: Sys, es: seq<Event>, u: UserId, looked: nat, limit: nat) {
    BoundedBy(After(s, es), u, LookedAfter(s, es, u, looked), limit + Escapes(s, es, u, looked))
  }

  ghost predicate BoundedBy(s: Sys, u: UserId, looked: nat, limit: nat) {
    looked <= s.now && Bounded(s, u, looked, limit)
  }

  // The first step of a run and the rest of it.
  lemma FirstStep(s: Sys, es: seq<Event>, u: UserId, k: nat, looked: nat)
    requires es != [] && Crowded(s, es, u, k)
    ensures var m, look := Step(s, es[0]), LastLook(s, es[0], u, looked);
            && Enabled(s, es[0]) && |SignInsOf(s, u)| <= k && Crowded(m, es[1..], u, k)
            && After(s, es) == After(m, es[1..])
            && LookedAfter(s, es, u, looked) == LookedAfter(m, es[1..], u, look)
            && Escapes(s, es, u, looked) ==
               Raise(s, es[0], u, looked) + Escapes(m, es[1..], u, look)
  {
  }

  lemma NoStep(s: Sys, u: UserId, looked: nat, limit: nat)
    requires Bounded(s, u, looked, limit) && looked <= s.now
    ensures BoundedAfter(s, [], u, looked, limit)
  {
    assert limit + Escapes(s, [], u, looked) == limit;
  }

  lemma OneStepMore(s: Sys, es: seq<Event>, u: UserId, k: nat, looked: nat, limit: nat, raised: nat)
    requires es != [] && Crowded(s, es, u, k)
    requires raised == limit + Raise(s, es[0], u, looked)
    requires BoundedAfter(Step(s, es[0]), es[1..], u, LastLook(s, es[0], u, looked), raised)
    ensures BoundedAfter(s, es, u, looked, limit)
  {
    FirstStep(s, es, u, k, looked);
    assert limit + Escapes(s, es, u, looked) == raised + Escapes(Step(s, es[0]), es[1..], u, LastLook(s, es[0], u, looked));
  }

  ghost predicate Good(s: Sys, u: UserId, looked: nat, limit: nat) {
    Inv(s) && Bounded(s, u, looked, limit) && looked <= s.now
  }

  lemma StepKeepsGood(s: Sys, e: Event, u: UserId, k: nat, looked: nat, limit: nat)
    returns (m: Sys, look: nat, raised: nat)
    requires Good(s, u, looked, limit) && Enabled(s, e) && |SignInsOf(s, u)| <= k && ROOM + k <= limit
    ensures m == Step(s, e) && look == LastLook(s, e, u, looked) && raised == limit + Raise(s, e, u, looked)
    ensures Good(m, u, look, raised)
  {
    StepKeepsInv(s, e);
    m, look, raised := Step(s, e), LastLook(s, e, u, looked), limit + Raise(s, e, u, looked);
    StepKeepsBounded(s, e, u, k, looked, limit, raised);
    TimeGoesOn(s, e);
  }

  // After the first step the rest of the run can be taken by itself.
  lemma PeelStep(s: Sys, es: seq<Event>, u: UserId, k: nat, looked: nat, limit: nat)
    returns (m: Sys, look: nat, raised: nat)
    requires es != [] && Good(s, u, looked, limit) && ROOM + k <= limit && Crowded(s, es, u, k)
    ensures Good(m, u, look, raised) && limit <= raised && Crowded(m, es[1..], u, k)
    ensures BoundedAfter(m, es[1..], u, look, raised) ==> BoundedAfter(s, es, u, looked, limit)
  {
    FirstStep(s, es, u, k, looked);
    m, look, raised := StepKeepsGood(s, es[0], u, k, looked, limit);
    if BoundedAfter(m, es[1..], u, look, raised) {
      OneStepMore(s, es, u, k, looked, limit, raised);
    }
  }

  lemma {:induction false} RunKeepsBounded(s: Sys, es: seq<Event>, u: UserId, k: nat, looked: nat, limit: nat)
    requires Good(s, u, looked, limit) && ROOM + k <= limit && Crowded(s, es, u, k)
    ensures BoundedAfter(s, es, u, looked, limit)
    decreases |es|
  {
    if es == [] {
      NoStep(s, u, looked, limit);
    } else {
      var m, look, raised := PeelStep(s, es, u, k, looked, limit);
      RunKeepsBounded(m, es[1..], u, k, look, raised);
    }
  }

  lemma InitBounded(u: UserId, limit: nat)
    ensures Bounded(INIT, u, 0, limit)
  {
    forall w: set<RequestId> | w <= Waiting(INIT, u)
      ensures BoundAt(INIT, u, 0, limit, w)
    {
      assert w == {} && Cleared(INIT, u) == {} && Occupied(INIT, u, 0) - VictimsOf(INIT, w) == {};
    }
  }

  lemma LiveIsBounded(s: Sys, u: UserId, looked: nat, limit: nat)
    requires Bounded(s, u, looked, limit) && looked <= s.now
    ensures |Live(s.table, u, s.now)| <= limit
  {
    assert BoundAt(s, u, looked, limit, {});
    assert Occupied(s, u, looked) - VictimsOf(s, {}) == Occupied(s, u, looked);
    OlderLook(s.table, u, looked, s.now);
    SubsetSize(Live(s.table, u, s.now), Occupied(s, u, looked));
  }

  lemma LiveAfterIsBounded(s: Sys, es: seq<Event>, u: UserId, looked: nat, limit: nat)
    requires BoundedAfter(s, es, u, looked, limit)
    ensures |Live(After(s, es).table, u, After(s, es).now)| <= limit + Escapes(s, es, u, looked)
  {
    LiveIsBounded(After(s, es), u, LookedAfter(s, es, u, looked), limit + Escapes(s, es, u, looked));
  }

  // The bound, in every run, whatever refreshes, logouts and sweeps overlap the sign-ins.
  lemma ConcurrentSessionBound(es: seq<Event>, u: UserId, k: nat)
    requires Crowded(INIT, es, u, k)
    ensures |Live(After(INIT, es).table, u, After(INIT, es).now)|
            <= MAX_REFRESH_TOKENS_PER_USER - 1 + k + Escapes(INIT, es, u, 0)
  {
    var limit := ROOM + k;
    InitInv();
    InitBounded(u, limit);
    RunKeepsBounded(INIT, es, u, k, 0, limit);
    LiveAfterIsBounded(INIT, es, u, 0, limit);
  }
}
