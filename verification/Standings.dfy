/**
 Who stands where after a membership call: for every user and company, whether there is a
 membership, with which role, and whether the user may enter; and who is invited.
 */
module Standings {
  import opened Results
  import opened Sums
  import opened Memberships
  import opened MembershipLaws
  import opened AccessCache
  import opened SyncLaws

  // --- standings -----------------------------------------------------------------------

  datatype Standing = NoMember | Stands(role: Option<Id>, activated: bool, banned: bool)

  function StandingOf(rows: Rows, u: Id, c: Id): Standing {
    var found := FindUser(rows, u, c);
    if found.None? then NoMember
    else Stands(rows[found.value].role, rows[found.value].activated, rows[found.value].banned)
  }

  predicate MayEnter(rows: Rows, u: Id, c: Id) {
    var st := StandingOf(rows, u, c);
    st.Stands? && st.activated && !st.banned
  }

  /** Nobody's standing anywhere has changed, except that of user u in company c. */
  ghost predicate OnlyMoves(rows: Rows, rows': Rows, u: Id, c: Id) {
    forall v: Id, d: Id :: v != u || d != c ==> StandingOf(rows', v, d) == StandingOf(rows, v, d)
  }

  ghost predicate NobodyMoves(rows: Rows, rows': Rows) {
    forall v: Id, d: Id :: StandingOf(rows', v, d) == StandingOf(rows, v, d)
  }

  lemma WrittenElsewhere(rows: Rows, k: nat, r: Member, u: Id, c: Id)
    requires k < |rows| && !UserRow(rows[k], u, c) && !UserRow(r, u, c)
    ensures StandingOf(rows[k := r], u, c) == StandingOf(rows, u, c)
  {
    var rows' := rows[k := r];
    var a, b := FindUser(rows, u, c), FindUser(rows', u, c);
    if a.Some? {
      assert UserRow(rows'[a.value], u, c);
    }
    if b.Some? {
      assert UserRow(rows[b.value], u, c);
    }
  }

  lemma AppendedElsewhere(rows: Rows, r: Member, u: Id, c: Id)
    requires !UserRow(r, u, c)
    ensures StandingOf(rows + [r], u, c) == StandingOf(rows, u, c)
  {
    var rows' := rows + [r];
    var a, b := FindUser(rows, u, c), FindUser(rows', u, c);
    if a.Some? {
      assert UserRow(rows'[a.value], u, c);
    }
    if b.Some? {
      assert UserRow(rows[b.value], u, c);
    }
  }

  /** While the indexes hold, the row found for a user is the only one. */
  lemma RowOfUser(rows: Rows, i: nat, u: Id, c: Id)
    requires Unique(rows) && i < |rows| && UserRow(rows[i], u, c)
    ensures FindUser(rows, u, c) == Some(i)
  {
    var found := FindUser(rows, u, c);
    assert found.Some?;
    assert found.value <= i;
    assert found.value < i ==> Conflicts(rows[found.value], rows[i]);
  }

  lemma StandingOfRow(rows: Rows, i: nat)
    requires Unique(rows) && i < |rows| && !rows[i].deleted && rows[i].user.Some?
    ensures StandingOf(rows, rows[i].user.value, rows[i].company) == Stands(rows[i].role, rows[i].activated, rows[i].banned)
  {
    RowOfUser(rows, i, rows[i].user.value, rows[i].company);
  }

  lemma NoRowNoStanding(rows: Rows, u: Id, c: Id)
    requires forall i :: 0 <= i < |rows| ==> !UserRow(rows[i], u, c)
    ensures StandingOf(rows, u, c) == NoMember
  {
  }

  // --- the row of a call ------------------------------------------------------------------

  /** Everything about a row that its role, ban and deletion leave alone. */
  predicate SamePerson(r: Member, r': Member) {
    r'.user == r.user && r'.company == r.company && r'.email == r.email && r'.activated == r.activated
    && r'.invited == r.invited && r'.hasToken == r.hasToken
  }

  lemma EditMovesOne(rows: Rows, id: nat, r: Member)
    requires Inv(rows) && id < |rows| && !rows[id].deleted && SamePerson(rows[id], r)
    ensures rows[id].user.Some? ==> OnlyMoves(rows, rows[id := r], rows[id].user.value, rows[id].company)
    ensures rows[id].user.None? ==> NobodyMoves(rows, rows[id := r])
    ensures rows[id].user.Some? ==>
              StandingOf(rows[id := r], rows[id].user.value, rows[id].company) ==
              if r.deleted then NoMember else Stands(r.role, rows[id].activated, r.banned)
  {
    var m := rows[id];
    assert RowOk(m);
    SameIdentityKeepsInv(rows, id, r);
    forall v: Id, d: Id | m.user != Some(v) || m.company != d
      ensures StandingOf(rows[id := r], v, d) == StandingOf(rows, v, d)
    {
      WrittenElsewhere(rows, id, r, v, d);
    }
    if m.user.Some? {
      if r.deleted {
        var rows' := rows[id := r];
        forall i | 0 <= i < |rows'|
          ensures !UserRow(rows'[i], m.user.value, m.company)
        {
          assert i != id ==> !Conflicts(rows[i], m) && !Conflicts(m, rows[i]);
        }
        NoRowNoStanding(rows', m.user.value, m.company);
      } else {
        StandingOfRow(rows[id := r], id);
      }
    }
  }

  /** Of a row whose user is known: where that user stands. */
  function StandingIn(rows: Rows, id: nat): Standing
    requires id < |rows|
  {
    if rows[id].user.Some? then StandingOf(rows, rows[id].user.value, rows[id].company) else NoMember
  }

  predicate OthersAsBefore(rows: Rows, rows': Rows, id: nat) {
    |rows'| == |rows| && forall i :: 0 <= i < |rows| && i != id ==> rows'[i] == rows[i]
  }

  ghost predicate MovesOnlyRow(rows: Rows, rows': Rows, id: nat)
    requires id < |rows|
  {
    if rows[id].user.Some? then OnlyMoves(rows, rows', rows[id].user.value, rows[id].company) else NobodyMoves(rows, rows')
  }

  /** A role change gives the member the new role and leaves the right to enter, and everyone else, as they were. */
  lemma RoleChangeMovesTheRole(s: State, c: Id, id: nat, role: Id, x: Context)
    requires Inv(s.rows) && DoUpdateRole(s, c, id, role, x).refusal.None?
    ensures var rows' := DoUpdateRole(s, c, id, role, x).state.rows;
            && InCompany(s.rows, c, id) && OthersAsBefore(s.rows, rows', id)
            && SamePerson(s.rows[id], rows'[id]) && rows'[id].role == Some(role)
            && rows'[id].banned == s.rows[id].banned && !rows'[id].deleted
            && MovesOnlyRow(s.rows, rows', id)
            && (s.rows[id].user.Some? ==> StandingIn(rows', id) == StandingIn(s.rows, id).(role := Some(role)))
  {
    EditMovesOne(s.rows, id, s.rows[id].(role := Some(role)));
    if s.rows[id].user.Some? {
      StandingOfRow(s.rows, id);
    }
  }

  /** After a removal the member has no standing in the company; everyone else is as before. */
  lemma RemovalEndsTheStanding(s: State, c: Id, id: nat, x: Context)
    requires Inv(s.rows) && DoRemove(s, c, id, x).refusal.None?
    ensures var rows' := DoRemove(s, c, id, x).state.rows;
            && InCompany(s.rows, c, id) && OthersAsBefore(s.rows, rows', id) && !InCompany(rows', c, id)
            && MovesOnlyRow(s.rows, rows', id) && StandingIn(rows', id) == NoMember
  {
    EditMovesOne(s.rows, id, s.rows[id].(deleted := true));
  }

  /** Switching a member on or off decides whether an activated member may enter, and changes nothing else. */
  lemma SwitchingDecidesEntry(s: State, a: Actor, c: Id, id: nat, active: bool, x: Context)
    requires Inv(s.rows) && DoSetActive(s, a, c, id, active, x).refusal.None?
    ensures var rows' := DoSetActive(s, a, c, id, active, x).state.rows;
            && InCompany(s.rows, c, id) && OthersAsBefore(s.rows, rows', id)
            && SamePerson(s.rows[id], rows'[id]) && rows'[id].role == s.rows[id].role
            && rows'[id].banned == !active && !rows'[id].deleted
            && MovesOnlyRow(s.rows, rows', id)
            && (s.rows[id].user.Some? ==> (MayEnter(rows', s.rows[id].user.value, c) <==> active))
  {
    EditMovesOne(s.rows, id, s.rows[id].(banned := !active));
    assert RowOk(s.rows[id]);
  }

  /**
   Accepting an invitation gives the user the invited role; the user may enter exactly when
   the invitation was not switched off.
   */
  lemma AcceptingGivesTheInvitedRole(s: State, u: Id, invite: nat)
    requires Inv(s.rows) && DoAccept(s, u, invite).refusal.None?
    ensures var rows' := DoAccept(s, u, invite).state.rows;
            && invite < |s.rows| && OthersAsBefore(s.rows, rows', invite)
            && var r := s.rows[invite];
               && rows'[invite].user == Some(u) && rows'[invite].activated && !rows'[invite].hasToken
               && rows'[invite].company == r.company && rows'[invite].email == r.email && rows'[invite].invited == r.invited
               && StandingOf(s.rows, u, r.company) == NoMember
               && StandingOf(rows', u, r.company) == Stands(r.role, true, r.banned)
               && (MayEnter(rows', u, r.company) <==> !r.banned)
               && OnlyMoves(s.rows, rows', u, r.company)
  {
    var r := s.rows[invite];
    var r' := r.(user := Some(u), activated := true, hasToken := false);
    AcceptKeepsInv(s, u, invite);
    StandingOfRow(s.rows[invite := r'], invite);
    forall i | 0 <= i < |s.rows|
      ensures !UserRow(s.rows[i], u, r.company)
    {
      assert i != invite ==> !Conflicts(s.rows[i], r');
    }
    NoRowNoStanding(s.rows, u, r.company);
    forall v: Id, d: Id | v != u || d != r.company
      ensures StandingOf(s.rows[invite := r'], v, d) == StandingOf(s.rows, v, d)
    {
      WrittenElsewhere(s.rows, invite, r', v, d);
    }
  }

  // --- a sync -------------------------------------------------------------------------------

  /** What the sync of m leaves of the standing of user v in company d, read off the rows before it. */
  function SyncedStanding(rows: Rows, m: Member, want: map<Id, Id>, visible: set<Id>, v: Id, d: Id): Standing {
    var before, found := StandingOf(rows, v, d), LastByEmail(rows, m.email, d);
    if d in want && found.None? then
      if m.user == Some(v) then Stands(Some(want[d]), true, m.banned) else before
    else if d in want && rows[found.value].user == Some(v) then
      Stands(Some(want[d]), rows[found.value].activated, rows[found.value].banned)
    else if d !in want && d in visible && found.Some? && rows[found.value].user == Some(v) then NoMember
    else before
  }

  lemma AgreeingStanding(rows: Rows, rows': Rows, v: Id, d: Id)
    requires AgreeOn(rows, rows', d)
    ensures StandingOf(rows', v, d) == StandingOf(rows, v, d)
  {
    var a, b := FindUser(rows, v, d), FindUser(rows', v, d);
    if a.Some? {
      assert UserRow(rows'[a.value], v, d);
    }
    if b.Some? {
      assert UserRow(rows[b.value], v, d);
    }
  }

  lemma AgreeingButElsewhere(rows: Rows, rows': Rows, k: nat, v: Id, d: Id)
    requires AgreeOnBut(rows, rows', d, k) && k < |rows'|
    requires !UserRow(rows'[k], v, d) && (k < |rows| ==> !UserRow(rows[k], v, d))
    ensures StandingOf(rows', v, d) == StandingOf(rows, v, d)
  {
    var a, b := FindUser(rows, v, d), FindUser(rows', v, d);
    if a.Some? {
      assert UserRow(rows'[a.value], v, d);
    }
    if b.Some? {
      assert UserRow(rows[b.value], v, d);
    }
  }

  lemma HappenedStanding(rows: Rows, rows': Rows, m: Member, ch: Change, k: nat, v: Id)
    requires Inv(rows) && Inv(rows') && Loaded(rows, ch) && !m.deleted
    requires Happened(rows, rows', m, ch, k)
    ensures ch.Add? ==>
              StandingOf(rows', v, ch.company) ==
              if m.user == Some(v) then Stands(Some(ch.role), true, m.banned) else StandingOf(rows, v, ch.company)
    ensures ch.Reassign? ==>
              StandingOf(rows', v, ch.row.company) ==
              if ch.row.user == Some(v) then Stands(Some(ch.role), ch.row.activated, ch.row.banned)
              else StandingOf(rows, v, ch.row.company)
    ensures ch.Drop? ==>
              StandingOf(rows', v, ch.row.company) ==
              if ch.row.user == Some(v) then NoMember else StandingOf(rows, v, ch.row.company)
  {
    var d, r := CompanyOf(ch), rows'[k];
    if UserRow(r, v, d) {
      StandingOfRow(rows', k);
    } else if k < |rows| && UserRow(rows[k], v, d) {
      forall i | 0 <= i < |rows'|
        ensures !UserRow(rows'[i], v, d)
      {
        assert i != k && i < |rows| ==> !Conflicts(rows[i], rows[k]) && !Conflicts(rows[k], rows[i]);
      }
      NoRowNoStanding(rows', v, d);
    } else {
      AgreeingButElsewhere(rows, rows', k, v, d);
    }
  }

  /**
   After an accepted sync every user stands in every company as `SyncedStanding` says: in an
   added company a known user is activated and switched on or off as the synced row was, in
   a kept one only the role is new, in a dropped one the membership is over.
   */
  lemma SyncMovesStandings(
    s: State, a: Actor, c: Id, id: nat, grants: seq<Grant>, x: Context, o1: Order, o2: Order, v: Id, d: Id)
    requires Inv(s.rows) && SyncPlan(s.rows, a, c, id, grants, x, o1, o2).Ok?
    requires VisitsAll(s.rows, s.rows[id].email, Want(grants, x).value, x.visible, o1, o2)
    ensures StandingOf(DoSync(s, a, c, id, grants, x, o1, o2).state.rows, v, d) ==
            SyncedStanding(s.rows, s.rows[id], Want(grants, x).value, x.visible, v, d)
  {
    var rows', m, want := DoSync(s, a, c, id, grants, x, o1, o2).state.rows, s.rows[id], Want(grants, x).value;
    var expected := Expected(s.rows, m.email, want, x.visible, d);
    SyncByCompany(s, a, c, id, grants, x, o1, o2, d);
    SyncKeepsInv(s, a, c, id, grants, x, o1, o2);
    if expected.Some? {
      ExpectedCompany(s.rows, m.email, want, x.visible, d);
      var k :| Happened(s.rows, rows', m, expected.value, k);
      HappenedStanding(s.rows, rows', m, expected.value, k, v);
    } else {
      AgreeingStanding(s.rows, rows', v, d);
      KeptRoleStanding(s.rows, m, want, x.visible, v, d);
    }
  }

  lemma KeptRoleStanding(rows: Rows, m: Member, want: map<Id, Id>, visible: set<Id>, v: Id, d: Id)
    requires Inv(rows) && Expected(rows, m.email, want, visible, d).None?
    ensures SyncedStanding(rows, m, want, visible, v, d) == StandingOf(rows, v, d)
  {
    var found := LastByEmail(rows, m.email, d);
    if d in want && rows[found.value].user == Some(v) {
      StandingOfRow(rows, found.value);
    }
  }

  /**
   A sync lets no deactivated person in: in every added company a known user may enter exactly
   when the synced row was not banned.
   */
  lemma AddedMayEnterExactlyWhen(
    s: State, a: Actor, c: Id, id: nat, grants: seq<Grant>, x: Context, o1: Order, o2: Order, d: Id)
    requires Inv(s.rows) && SyncPlan(s.rows, a, c, id, grants, x, o1, o2).Ok?
    requires VisitsAll(s.rows, s.rows[id].email, Want(grants, x).value, x.visible, o1, o2)
    requires s.rows[id].user.Some? && d in Want(grants, x).value && NoRowOf(s.rows, s.rows[id].email, d)
    ensures var rows', u := DoSync(s, a, c, id, grants, x, o1, o2).state.rows, s.rows[id].user.value;
            && StandingOf(rows', u, d) == Stands(Some(Want(grants, x).value[d]), true, s.rows[id].banned)
            && (MayEnter(rows', u, d) <==> !s.rows[id].banned)
  {
    SyncMovesStandings(s, a, c, id, grants, x, o1, o2, s.rows[id].user.value, d);
  }

  /** Waiting to be accepted, in this role; switched on or off. */
  predicate Pending(r: Member, email: string, c: Id, role: Id, banned: bool) {
    && !r.deleted && r.email == email && r.company == c && r.role == Some(role) && r.banned == banned
    && r.user.None? && !r.activated && r.invited && r.hasToken
  }

  ghost predicate IsPending(rows: Rows, email: string, c: Id, role: Id, banned: bool) {
    exists k :: 0 <= k < |rows| && Pending(rows[k], email, c, role, banned)
  }

  lemma AddedRowIsPending(rows: Rows, m: Member, d: Id, role: Id)
    requires m.user.None? && NoRowOf(rows, m.email, d)
    ensures Pending(Target(rows, m, Add(d, role)), m.email, d, role, m.banned)
  {
    var n := Added(m, d, role);
    forall i | 0 <= i < |rows|
      ensures !SameKey(rows[i], n)
    {
      assert !EmailRow(rows[i], m.email, d);
    }
  }

  /** A person without a user is invited to every added company, switched on or off as the synced row was. */
  lemma AddedIsInvited(
    s: State, a: Actor, c: Id, id: nat, grants: seq<Grant>, x: Context, o1: Order, o2: Order, d: Id)
    requires Inv(s.rows) && SyncPlan(s.rows, a, c, id, grants, x, o1, o2).Ok?
    requires VisitsAll(s.rows, s.rows[id].email, Want(grants, x).value, x.visible, o1, o2)
    requires s.rows[id].user.None? && d in Want(grants, x).value && NoRowOf(s.rows, s.rows[id].email, d)
    ensures IsPending(DoSync(s, a, c, id, grants, x, o1, o2).state.rows, s.rows[id].email, d, Want(grants, x).value[d], s.rows[id].banned)
  {
    var rows', m, want := DoSync(s, a, c, id, grants, x, o1, o2).state.rows, s.rows[id], Want(grants, x).value;
    SyncByCompany(s, a, c, id, grants, x, o1, o2, d);
    assert Expected(s.rows, m.email, want, x.visible, d) == Some(Add(d, want[d]));
    var k :| Happened(s.rows, rows', m, Add(d, want[d]), k);
    AddedRowIsPending(s.rows, m, d, want[d]);
  }

  // --- the answers of a lookup -----------------------------------------------------------

  predicate LetsIn(e: Entry) {
    e.hasAccess && e.activated && !e.banned
  }

  /** What is looked up for somebody of this standing; nothing when the role cannot be resolved. */
  function AnswerFor(st: Standing, allowFallback: bool, roleKnown: bool): Option<Entry> {
    match st
    case NoMember => Some(Entry(false, false, false, None, false))
    case Stands(role, activated, banned) =>
      if role.Some? && roleKnown then Some(Entry(true, activated, banned, role, false))
      else if allowFallback then Some(Entry(true, activated, banned, None, true))
      else None
  }

  /** A lookup that is not cached tells the user's standing and caches what it tells; it changes nothing else. */
  lemma LookupTellsTheStanding(s: State, u: Id, c: Id, allowFallback: bool, roleKnown: bool)
    requires (u, c) !in s.cache
    ensures var s' := Step(s, Resolve(u, c, allowFallback, roleKnown)).state;
            var told := AnswerFor(StandingOf(s.rows, u, c), allowFallback, roleKnown);
            && s'.rows == s.rows
            && s'.cache == if told.None? then s.cache else s.cache[(u, c) := told.value]
  {
  }

  /** A cached lookup changes nothing, and an expiry forgets that one answer. */
  lemma CachedLookupAndExpiry(s: State, u: Id, c: Id, allowFallback: bool, roleKnown: bool)
    ensures (u, c) in s.cache ==> Step(s, Resolve(u, c, allowFallback, roleKnown)).state == s
    ensures var s' := Step(s, Expire(u, c)).state;
            && s'.rows == s.rows && (u, c) !in s'.cache
            && forall k :: k in s.cache && k != (u, c) ==> k in s'.cache && s'.cache[k] == s.cache[k]
  {
  }

  /** After every run, a cached answer lets a user in exactly when the rows do, and names the user's own role. */
  lemma CachedAnswerLetsInExactlyWhen(commands: seq<Command>, u: Id, c: Id)
    requires (u, c) in Run(commands).cache
    ensures var e, rows := Run(commands).cache[(u, c)], Run(commands).rows;
            && (LetsIn(e) <==> MayEnter(rows, u, c))
            && (e.hasAccess && !e.fallback ==> StandingOf(rows, u, c).Stands? && e.role == StandingOf(rows, u, c).role)
  {
    CacheNeverLies(commands);
  }

  // --- invitations ---------------------------------------------------------------------------

  /** No more than the limit, unless there is none. */
  predicate Within(seats: nat, limit: int) {
    limit < 0 || seats <= limit
  }

  /** The seats taken in a company: live rows that are not an owner's. */
  function Seats(rows: Rows, c: Id, owner: Option<Id>): set<nat> {
    set i: nat | i < |rows| && !rows[i].deleted && rows[i].company == c && (owner.None? || rows[i].role != owner)
  }

  lemma OneMoreRow(rows: Rows, c: Id, owner: Option<Id>)
    requires rows != []
    ensures var n := |rows| - 1;
            var taken := !rows[n].deleted && rows[n].company == c && (owner.None? || rows[n].role != owner);
            && Seats(rows, c, owner) == (if taken then Seats(rows[..n], c, owner) + {n} else Seats(rows[..n], c, owner))
            && n !in Seats(rows[..n], c, owner)
  {
  }

  lemma {:induction false} SlotsAreSeats(rows: Rows, c: Id, owner: Option<Id>)
    ensures CountSlots(rows, c, owner) == |Seats(rows, c, owner)|
  {
    if rows != [] {
      SlotsAreSeats(rows[..|rows| - 1], c, owner);
      OneMoreRow(rows, c, owner);
    } else {
      assert Seats(rows, c, owner) == {};
    }
  }

  /** An invitation is accepted exactly when nobody with the email is there, the role is no owner's, and a seat is free. */
  lemma InviteAcceptedExactlyWhen(s: State, a: Actor, c: Id, email: string, role: Id, x: Context)
    requires Inv(s.rows)
    ensures DoInvite(s, a, c, email, role, x).refusal.None?
       <==> && email != "" && email != a.email && role in RolesIn(x, c) && OwnerIn(x, c) != Some(role)
            && NoRowOf(s.rows, email, c)
            && (LimitIn(x, c) < 0 || |Seats(s.rows, c, OwnerIn(x, c))| < LimitIn(x, c))
  {
    SlotsAreSeats(s.rows, c, OwnerIn(x, c));
    if email != "" {
      SomebodyThereExactlyWhen(s.rows, email, c);
      if NoRowOf(s.rows, email, c) {
        AddSucceeds(s.rows, Invited(email, c, role, false));
      }
    }
  }

  lemma SomebodyThereExactlyWhen(rows: Rows, email: string, c: Id)
    requires Inv(rows)
    ensures HasActiveEmail(rows, email, c) || HasPendingEmail(rows, email, c) <==> !NoRowOf(rows, email, c)
  {
    if !HasActiveEmail(rows, email, c) && !HasPendingEmail(rows, email, c) {
      NobodyThere(rows, email, c);
    }
  }

  /** An accepted invitation adds one pending row, moves nobody's standing, and keeps the company within its seats. */
  lemma InvitingAddsOnePending(s: State, a: Actor, c: Id, email: string, role: Id, x: Context)
    requires Inv(s.rows) && DoInvite(s, a, c, email, role, x).refusal.None?
    ensures var rows', n := DoInvite(s, a, c, email, role, x).state.rows, |s.rows|;
            && |rows'| == n + 1 && rows'[..n] == s.rows && Pending(rows'[n], email, c, role, false)
            && NobodyMoves(s.rows, rows')
            && Within(|Seats(rows', c, OwnerIn(x, c))|, LimitIn(x, c))
  {
    var r := Invited(email, c, role, false);
    InviteAcceptedExactlyWhen(s, a, c, email, role, x);
    AddSucceeds(s.rows, r);
    forall v: Id, d: Id
      ensures StandingOf(s.rows + [r], v, d) == StandingOf(s.rows, v, d)
    {
      AppendedElsewhere(s.rows, r, v, d);
    }
    SlotsAreSeats(s.rows, c, OwnerIn(x, c));
    SlotsAreSeats(s.rows + [r], c, OwnerIn(x, c));
    assert (s.rows + [r])[..|s.rows|] == s.rows;
  }

  lemma UpsertedUser(rows: Rows, m: Member)
    requires Inv(rows) && RowOk(m) && !m.deleted && m.user.Some? && Upsert(rows, m).Ok?
    ensures Inv(Upsert(rows, m).value)
    ensures var found := Lookup(rows, m);
            Upsert(rows, m).value == if found.None? then rows + [m] else rows[found.value := Patch(rows[found.value], m)]
  {
    UpsertKeepsInv(rows, m);
    var found := Lookup(rows, m);
    if found.Some? {
      var p := Patch(rows[found.value], m);
      PatchedRowOk(rows[found.value], m);
      WriteKeepsInv(rows, found.value, p);
      NothingToDedupe(rows[found.value := p], found.value, m);
    }
  }

  /** The creator of a company is in at once, in the owner role when it is known; nobody else moves. */
  lemma CreatorIsIn(s: State, a: Actor, c: Id, owner: Option<Id>)
    requires Inv(s.rows) && DoLinkCreator(s, a, c, owner).refusal.None?
    ensures var rows' := DoLinkCreator(s, a, c, owner).state.rows;
            && MayEnter(rows', a.user, c)
            && (owner.Some? ==> StandingOf(rows', a.user, c) == Stands(owner, true, false))
            && OnlyMoves(s.rows, rows', a.user, c)
  {
    var m := Member(Some(a.user), c, owner, true, false, a.email, false, false, false);
    var found := Lookup(s.rows, m);
    UpsertedUser(s.rows, m);
    var rows' := DoLinkCreator(s, a, c, owner).state.rows;
    StandingOfRow(rows', if found.Some? then found.value else |s.rows|);
    forall v: Id, d: Id | v != a.user || d != c
      ensures StandingOf(rows', v, d) == StandingOf(s.rows, v, d)
    {
      if found.Some? {
        WrittenElsewhere(s.rows, found.value, Patch(s.rows[found.value], m), v, d);
      } else {
        AppendedElsewhere(s.rows, m, v, d);
      }
    }
  }

  // --- several companies at once -----------------------------------------------------------

  /** The first grant that names the company. */
  predicate FirstGrant(grants: seq<Grant>, g: nat, d: Id) {
    g < |grants| && grants[g].company == d && forall h :: 0 <= h < g ==> grants[h].company != d
  }

  ghost predicate PlansRole(plan: seq<Member>, d: Id, role: Option<Id>) {
    exists k :: 0 <= k < |plan| && plan[k].company == d && plan[k].role == role
  }

  lemma {:induction false} FirstGrantIsPlanned(rows: Rows, email: string, grants: seq<Grant>, x: Context, g: nat, d: Id)
    requires InvitePlan(rows, email, grants, x).Ok? && FirstGrant(grants, g, d)
    ensures grants[g].role.Some? && PlansRole(InvitePlan(rows, email, grants, x).value, d, grants[g].role)
  {
    var n := |grants| - 1;
    var plan, earlier := InvitePlan(rows, email, grants, x).value, InvitePlan(rows, email, grants[..n], x);
    if g < n {
      FirstGrantIsPlanned(rows, email, grants[..n], x, g, d);
      var k :| 0 <= k < |earlier.value| && earlier.value[k].company == d && earlier.value[k].role == grants[g].role;
      assert plan[k] == earlier.value[k];
    } else {
      assert !Mentions(grants[..n], d);
      assert plan[|plan| - 1].company == d && plan[|plan| - 1].role == grants[g].role;
    }
  }

  lemma {:induction false} PlannedSeatsAreFree(rows: Rows, email: string, grants: seq<Grant>, x: Context, k: nat)
    requires InvitePlan(rows, email, grants, x).Ok? && k < |InvitePlan(rows, email, grants, x).value|
    ensures var d := InvitePlan(rows, email, grants, x).value[k].company;
            !Reached(CountSlots(rows, d, OwnerIn(x, d)), LimitIn(x, d))
  {
    var n := |grants| - 1;
    var earlier := InvitePlan(rows, email, grants[..n], x).value;
    if k < |earlier| {
      PlannedSeatsAreFree(rows, email, grants[..n], x, k);
    }
  }

  lemma {:induction false} AppendedPending(rows: Rows, members: seq<Member>, v: Id, d: Id)
    requires forall k :: 0 <= k < |members| ==> members[k].user.None?
    ensures StandingOf(rows + members, v, d) == StandingOf(rows, v, d)
  {
    if members == [] {
      assert rows + members == rows;
    } else {
      var n := |members| - 1;
      AppendedPending(rows, members[..n], v, d);
      AppendedElsewhere(rows + members[..n], members[n], v, d);
      assert rows + members[..n] + [members[n]] == rows + members;
    }
  }

  /** One more row in a company takes at most one more seat. */
  lemma OneMoreSeat(rows: Rows, rows': Rows, d: Id, k: nat, owner: Option<Id>)
    requires AgreeOnBut(rows, rows', d, k)
    ensures |Seats(rows', d, owner)| <= |Seats(rows, d, owner)| + 1
  {
    var before, after := Seats(rows, d, owner), Seats(rows', d, owner);
    assert after <= before + {k};
    SubsetSize(after, before + {k});
  }

  lemma AllPendingMovesNobody(rows: Rows, members: seq<Member>)
    requires forall k :: 0 <= k < |members| ==> members[k].user.None?
    ensures NobodyMoves(rows, rows + members)
  {
    forall v: Id, c: Id
      ensures StandingOf(rows + members, v, c) == StandingOf(rows, v, c)
    {
      AppendedPending(rows, members, v, c);
    }
  }

  lemma PlannedRowIsPending(rows: Rows, email: string, active: bool, grants: seq<Grant>, x: Context, k: nat)
    requires InvitePlan(rows, email, grants, x).Ok? && k < |InvitePlan(rows, email, grants, x).value|
    ensures var m := WithBan(InvitePlan(rows, email, grants, x).value, !active)[k];
            m.role.Some? && Pending(m, email, m.company, m.role.value, !active)
  {
    PlannedInvites(rows, email, grants, x);
  }

  lemma PlannedStaysWithin(rows: Rows, email: string, active: bool, grants: seq<Grant>, x: Context, k: nat)
    requires InvitePlan(rows, email, grants, x).Ok? && k < |InvitePlan(rows, email, grants, x).value|
    ensures var plan := InvitePlan(rows, email, grants, x).value;
            var d := plan[k].company;
            Within(|Seats(rows + WithBan(plan, !active), d, OwnerIn(x, d))|, LimitIn(x, d))
  {
    var plan := InvitePlan(rows, email, grants, x).value;
    var d := plan[k].company;
    PlannedInvites(rows, email, grants, x);
    PlannedSeatsAreFree(rows, email, grants, x, k);
    SlotsAreSeats(rows, d, OwnerIn(x, d));
    OneMoreSeat(rows, rows + WithBan(plan, !active), d, |rows| + k, OwnerIn(x, d));
  }

  /**
   An accepted invitation to several companies leaves one pending row per named company, in
   the role of its first grant, switched on or off as asked; nobody's standing moves, and
   every one of these companies stays within its seats.
   */
  lemma InvitingManyAddsPending(s: State, a: Actor, email: string, named: bool, active: bool, grants: seq<Grant>, x: Context,
                                g: nat, d: Id)
    requires Inv(s.rows) && DoInviteMulti(s, a, email, named, active, grants, x).refusal.None? && FirstGrant(grants, g, d)
    ensures var rows' := DoInviteMulti(s, a, email, named, active, grants, x).state.rows;
            && |s.rows| <= |rows'| && rows'[..|s.rows|] == s.rows && NobodyMoves(s.rows, rows')
            && grants[g].role.Some? && IsPending(rows', email, d, grants[g].role.value, !active)
            && Within(|Seats(rows', d, OwnerIn(x, d))|, LimitIn(x, d))
  {
    var members := WithBan(InvitePlan(s.rows, email, grants, x).value, !active);
    InvitesNeverStopHalfway(s, a, email, active, grants, x);
    assert (s.rows + members)[..|s.rows|] == s.rows;
    PlannedInvites(s.rows, email, grants, x);
    AllPendingMovesNobody(s.rows, members);
    FirstGrantIsPlanned(s.rows, email, grants, x, g, d);
    var plan := InvitePlan(s.rows, email, grants, x).value;
    var k :| 0 <= k < |plan| && plan[k].company == d && plan[k].role == grants[g].role;
    PlannedRowIsPending(s.rows, email, active, grants, x, k);
    assert (s.rows + members)[|s.rows| + k] == members[k];
    PlannedStaysWithin(s.rows, email, active, grants, x, k);
  }

  /** A sync too keeps every company it adds within its seats. */
  lemma AddedKeepsSeats(
    s: State, a: Actor, c: Id, id: nat, grants: seq<Grant>, x: Context, o1: Order, o2: Order, d: Id)
    requires Inv(s.rows) && SyncPlan(s.rows, a, c, id, grants, x, o1, o2).Ok?
    requires VisitsAll(s.rows, s.rows[id].email, Want(grants, x).value, x.visible, o1, o2)
    requires d in Want(grants, x).value && NoRowOf(s.rows, s.rows[id].email, d)
    ensures Within(|Seats(DoSync(s, a, c, id, grants, x, o1, o2).state.rows, d, OwnerIn(x, d))|, LimitIn(x, d))
  {
    var rows', m, want := DoSync(s, a, c, id, grants, x, o1, o2).state.rows, s.rows[id], Want(grants, x).value;
    SyncByCompany(s, a, c, id, grants, x, o1, o2, d);
    assert Expected(s.rows, m.email, want, x.visible, d) == Some(Add(d, want[d]));
    var k :| Happened(s.rows, rows', m, Add(d, want[d]), k);
    VisitedVerdict(s.rows, m.email, want, x, o1, o2);
    assert WantPasses(s.rows, m.email, want, d, x);
    SlotsAreSeats(s.rows, d, OwnerIn(x, d));
    OneMoreSeat(s.rows, rows', d, k, OwnerIn(x, d));
  }
}
