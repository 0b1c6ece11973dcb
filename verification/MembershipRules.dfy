/**
 Which membership calls are accepted, in terms of the rows and of what the caller knows and
 may do, and what a refusal says.
 */
module MembershipRules {
  import opened Results
  import opened Sums
  import opened Memberships
  import opened MembershipLaws
  import opened SyncLaws
  import opened Standings

  // --- which calls are accepted --------------------------------------------------------------

  /** The activated owners of a company, switched on or off. */
  function OwnerRows(rows: Rows, c: Id, o: Id): set<nat> {
    set i: nat | i < |rows| && !rows[i].deleted && rows[i].company == c && rows[i].role == Some(o) && rows[i].activated
  }

  lemma OneMoreOwner(rows: Rows, c: Id, o: Id)
    requires rows != []
    ensures var n := |rows| - 1;
            var counted := !rows[n].deleted && rows[n].company == c && rows[n].role == Some(o) && rows[n].activated;
            && OwnerRows(rows, c, o) == (if counted then OwnerRows(rows[..n], c, o) + {n} else OwnerRows(rows[..n], c, o))
            && n !in OwnerRows(rows[..n], c, o)
  {
  }

  lemma {:induction false} OwnersAreCounted(rows: Rows, c: Id, o: Id)
    ensures CountOwners(rows, c, o) == |OwnerRows(rows, c, o)|
  {
    if rows != [] {
      OwnersAreCounted(rows[..|rows| - 1], c, o);
      OneMoreOwner(rows, c, o);
    } else {
      assert OwnerRows(rows, c, o) == {};
    }
  }

  /** Taking this role away would leave the company without an activated owner, as far as the owner role is known. */
  predicate IsLastOwner(rows: Rows, c: Id, role: Option<Id>, x: Context) {
    c in x.owners && role == Some(x.owners[c]) && |OwnerRows(rows, c, x.owners[c])| <= 1
  }

  lemma GuardIsLastOwner(rows: Rows, c: Id, current: Option<Id>, next: Option<Id>, x: Context)
    ensures GuardBlocks(rows, c, OwnerIn(x, c), current, next) <==>
            IsLastOwner(rows, c, current, x) && next != Some(x.owners[c])
  {
    if c in x.owners {
      OwnersAreCounted(rows, c, x.owners[c]);
    }
  }

  predicate IsMember(rows: Rows, c: Id, id: nat) {
    id < |rows| && !rows[id].deleted && rows[id].company == c
  }

  predicate Own(a: Actor, r: Member) {
    r.email == a.email || r.user == Some(a.user)
  }

  predicate KnownRole(x: Context, c: Id, role: Option<Id>) {
    role.Some? && c in x.roles && role.value in x.roles[c]
  }

  predicate SeatFree(rows: Rows, c: Id, x: Context) {
    c !in x.limits || x.limits[c] < 0 || |Seats(rows, c, OwnerIn(x, c))| < x.limits[c]
  }

  lemma SeatFreeExactlyWhen(rows: Rows, c: Id, x: Context)
    ensures SeatFree(rows, c, x) <==> !Reached(CountSlots(rows, c, OwnerIn(x, c)), LimitIn(x, c))
  {
    SlotsAreSeats(rows, c, OwnerIn(x, c));
  }

  /** A role change needs a role of the company, a member, and not to take away the last owner. */
  lemma RoleChangeAcceptedExactlyWhen(s: State, c: Id, id: nat, role: Id, x: Context)
    ensures DoUpdateRole(s, c, id, role, x).refusal.None?
       <==> && KnownRole(x, c, Some(role)) && IsMember(s.rows, c, id)
            && !(IsLastOwner(s.rows, c, s.rows[id].role, x) && role != x.owners[c])
  {
    if IsMember(s.rows, c, id) {
      GuardIsLastOwner(s.rows, c, s.rows[id].role, Some(role), x);
    }
  }

  lemma RemovalAcceptedExactlyWhen(s: State, c: Id, id: nat, x: Context)
    ensures DoRemove(s, c, id, x).refusal.None?
       <==> IsMember(s.rows, c, id) && !IsLastOwner(s.rows, c, s.rows[id].role, x)
  {
    if IsMember(s.rows, c, id) {
      GuardIsLastOwner(s.rows, c, s.rows[id].role, None, x);
    }
  }

  lemma SwitchingAcceptedExactlyWhen(s: State, a: Actor, c: Id, id: nat, active: bool, x: Context)
    ensures DoSetActive(s, a, c, id, active, x).refusal.None?
       <==> && IsMember(s.rows, c, id) && !Own(a, s.rows[id])
            && (active || !IsLastOwner(s.rows, c, s.rows[id].role, x))
  {
    if IsMember(s.rows, c, id) {
      GuardIsLastOwner(s.rows, c, s.rows[id].role, None, x);
    }
  }

  /** An invitation is accepted exactly while its token is open and the user is not in the company yet. */
  lemma AcceptingAcceptedExactlyWhen(s: State, u: Id, invite: nat)
    requires Inv(s.rows)
    ensures DoAccept(s, u, invite).refusal.None?
       <==> && invite < |s.rows| && !s.rows[invite].deleted && s.rows[invite].hasToken && s.rows[invite].user.None?
            && StandingOf(s.rows, u, s.rows[invite].company) == NoMember
  {
    if invite < |s.rows| && !s.rows[invite].deleted && s.rows[invite].user.None? {
      var r := s.rows[invite].(user := Some(u), activated := true, hasToken := false);
      assert RowOk(s.rows[invite]);
      forall j | 0 <= j < |s.rows| && j != invite
        ensures Conflicts(s.rows[j], r) <==> UserRow(s.rows[j], u, r.company)
      {
        assert !Conflicts(s.rows[j], s.rows[invite]) && !Conflicts(s.rows[invite], s.rows[j]);
      }
    }
  }

  /** A creator is linked unless somebody else holds the creator's email in the company. */
  lemma LinkingAcceptedExactlyWhen(s: State, a: Actor, c: Id, owner: Option<Id>)
    requires Inv(s.rows)
    ensures DoLinkCreator(s, a, c, owner).refusal.None?
       <==> a.email == "" || forall i :: 0 <= i < |s.rows| && EmailRow(s.rows[i], a.email, c) ==> s.rows[i].user == Some(a.user)
  {
    var m := Member(Some(a.user), c, owner, true, false, a.email, false, false, false);
    var found := Lookup(s.rows, m);
    var i := if found.Some? then found.value else |s.rows|;
    var r := if found.Some? then Patch(s.rows[i], m) else m;
    forall j | 0 <= j < |s.rows| && j != i
      ensures Conflicts(s.rows[j], r) <==> a.email != "" && EmailRow(s.rows[j], a.email, c)
    {
      if found.Some? {
        assert !Conflicts(s.rows[j], s.rows[i]) && !Conflicts(s.rows[i], s.rows[j]);
      } else {
        assert !SameKey(s.rows[j], m);
      }
    }
  }

  /** What a company needs to be named first in an invitation to several. */
  predicate MayInvite(rows: Rows, email: string, g: Grant, x: Context) {
    g.company in x.canInvite && KnownRole(x, g.company, g.role) && NoRowOf(rows, email, g.company) && SeatFree(rows, g.company, x)
  }

  lemma MayInviteExactlyWhen(rows: Rows, email: string, g: Grant, x: Context)
    requires Inv(rows)
    ensures MayInvite(rows, email, g, x)
       <==> && g.company in x.canInvite && g.role.Some? && g.role.value in RolesIn(x, g.company)
            && SeatFault(rows, email, g.company, x).None?
  {
    SomebodyThereExactlyWhen(rows, email, g.company);
    SeatFreeExactlyWhen(rows, g.company, x);
  }

  /** If grant g is the first one for its company, it may be invited. */
  predicate FitsAt(rows: Rows, email: string, grants: seq<Grant>, x: Context, g: nat)
    requires g < |grants|
  {
    FirstGrant(grants, g, grants[g].company) ==> MayInvite(rows, email, grants[g], x)
  }

  predicate FirstGrantsFit(rows: Rows, email: string, grants: seq<Grant>, x: Context) {
    forall g: nat :: g < |grants| ==> FitsAt(rows, email, grants, x, g)
  }

  lemma OneMoreGrant(rows: Rows, email: string, grants: seq<Grant>, x: Context)
    requires grants != []
    ensures FirstGrantsFit(rows, email, grants, x)
       <==> && FirstGrantsFit(rows, email, grants[..|grants| - 1], x)
            && (Mentions(grants[..|grants| - 1], grants[|grants| - 1].company)
                || MayInvite(rows, email, grants[|grants| - 1], x))
  {
    var n := |grants| - 1;
    var before := grants[..n];
    forall g: nat | g < n
      ensures FitsAt(rows, email, before, x, g) <==> FitsAt(rows, email, grants, x, g)
    {
      assert FirstGrant(before, g, grants[g].company) <==> FirstGrant(grants, g, grants[g].company);
    }
    assert FitsAt(rows, email, grants, x, n) <==> Mentions(before, grants[n].company) || MayInvite(rows, email, grants[n], x);
  }

  lemma {:induction false} InvitePlanExactlyWhen(rows: Rows, email: string, grants: seq<Grant>, x: Context)
    requires Inv(rows)
    ensures InvitePlan(rows, email, grants, x).Ok? <==> FirstGrantsFit(rows, email, grants, x)
  {
    if grants != [] {
      var n := |grants| - 1;
      InvitePlanExactlyWhen(rows, email, grants[..n], x);
      MayInviteExactlyWhen(rows, email, grants[n], x);
      OneMoreGrant(rows, email, grants, x);
    }
  }

  lemma InvitingManyAcceptedExactlyWhen(
    s: State, a: Actor, email: string, named: bool, active: bool, grants: seq<Grant>, x: Context)
    requires Inv(s.rows)
    ensures DoInviteMulti(s, a, email, named, active, grants, x).refusal.None?
       <==> && email != "" && named && email != a.email && grants != []
            && FirstGrantsFit(s.rows, email, grants, x)
  {
    InvitePlanExactlyWhen(s.rows, email, grants, x);
    if email != "" && email != a.email && grants != [] && InvitePlan(s.rows, email, grants, x).Ok? {
      InvitesNeverStopHalfway(s, a, email, active, grants, x);
    }
  }

  /** The grants can be read: every company visible, every role named. */
  predicate Readable(grants: seq<Grant>, x: Context) {
    forall g :: 0 <= g < |grants| ==> grants[g].company in x.visible && grants[g].role.Some?
  }

  /** The last grant that names the company. */
  predicate LastGrant(grants: seq<Grant>, g: nat, d: Id) {
    g < |grants| && grants[g].company == d && forall h :: g < h < |grants| ==> grants[h].company != d
  }

  lemma {:induction false} WantExactlyWhen(grants: seq<Grant>, x: Context)
    ensures Want(grants, x).Ok? <==> Readable(grants, x)
    ensures Want(grants, x).Ok? ==> forall d :: d in Want(grants, x).value <==> Mentions(grants, d)
  {
    if grants != [] {
      var n := |grants| - 1;
      WantExactlyWhen(grants[..n], x);
      assert forall d :: Mentions(grants, d) <==> Mentions(grants[..n], d) || grants[n].company == d;
    }
  }

  /** Each wanted company has the role of the last grant that names it. */
  lemma {:induction false} WantsTheLastGrant(grants: seq<Grant>, x: Context, g: nat, d: Id)
    requires Want(grants, x).Ok? && LastGrant(grants, g, d)
    ensures d in Want(grants, x).value && grants[g].role == Some(Want(grants, x).value[d])
  {
    var n := |grants| - 1;
    if g < n {
      WantsTheLastGrant(grants[..n], x, g, d);
    }
  }

  /** What a sync needs in one company, by the last row of the email there: to add it, to change the role, or to drop it. */
  predicate MaySync(rows: Rows, email: string, want: map<Id, Id>, d: Id, x: Context) {
    var found := LastByEmail(rows, email, d);
    if d in want then
      && KnownRole(x, d, Some(want[d]))
      && (found.None? ==> d in x.canInvite && SeatFree(rows, d, x))
      && (found.Some? && rows[found.value].role != Some(want[d]) ==>
            d in x.canUpdate && !(IsLastOwner(rows, d, rows[found.value].role, x) && want[d] != x.owners[d]))
    else
      d in x.visible && found.Some? ==> d in x.canDelete && !IsLastOwner(rows, d, rows[found.value].role, x)
  }

  lemma MaySyncExactlyWhen(rows: Rows, email: string, want: map<Id, Id>, d: Id, x: Context)
    ensures d in want ==> (MaySync(rows, email, want, d, x) <==> WantPasses(rows, email, want, d, x))
    ensures d !in want ==> (MaySync(rows, email, want, d, x) <==> DropChange(rows, email, want, d, x).Ok?)
  {
    SeatFreeExactlyWhen(rows, d, x);
    var found := LastByEmail(rows, email, d);
    if found.Some? {
      GuardIsLastOwner(rows, d, rows[found.value].role, if d in want then Some(want[d]) else None, x);
    }
  }

  /** A sync is accepted exactly when somebody else is synced, the grants can be read, and every company allows its change. */
  lemma SyncAcceptedExactlyWhen(
    s: State, a: Actor, c: Id, id: nat, grants: seq<Grant>, x: Context, o1: Order, o2: Order)
    requires InCompany(s.rows, c, id) && Want(grants, x).Ok? ==>
               VisitsAll(s.rows, s.rows[id].email, Want(grants, x).value, x.visible, o1, o2)
    ensures SyncPlan(s.rows, a, c, id, grants, x, o1, o2).Ok?
       <==> && IsMember(s.rows, c, id) && !Own(a, s.rows[id]) && grants != [] && Readable(grants, x) && Want(grants, x).Ok?
            && forall d :: MaySync(s.rows, s.rows[id].email, Want(grants, x).value, d, x)
  {
    WantExactlyWhen(grants, x);
    if IsMember(s.rows, c, id) && Readable(grants, x) {
      var email, want := s.rows[id].email, Want(grants, x).value;
      VisitedVerdict(s.rows, email, want, x, o1, o2);
      forall d: Id
        ensures d in want ==> (MaySync(s.rows, email, want, d, x) <==> WantPasses(s.rows, email, want, d, x))
        ensures d !in want ==> (MaySync(s.rows, email, want, d, x) <==> DropChange(s.rows, email, want, d, x).Ok?)
      {
        MaySyncExactlyWhen(s.rows, email, want, d, x);
      }
    }
  }

  // --- what a refusal says ------------------------------------------------------------------

  /** What the refusal says is so. */
  ghost predicate IsSo(s: State, c: Command, why: Refusal) {
    match c
    case LinkCreator(a, d, _) =>
      why == UniqueViolation && exists i :: 0 <= i < |s.rows| && EmailRow(s.rows[i], a.email, d) && s.rows[i].user != Some(a.user)
    case Invite(a, d, email, role, x) => InviteIsSo(s.rows, a, d, email, role, x, why)
    case Accept(u, invite) =>
      if why == InviteInvalid
      then !(invite < |s.rows| && !s.rows[invite].deleted && s.rows[invite].hasToken && s.rows[invite].user.None?)
      else why == UniqueViolation && invite < |s.rows| && StandingOf(s.rows, u, s.rows[invite].company) != NoMember
    case UpdateRole(d, id, role, x) =>
      if why == InvalidRole then !KnownRole(x, d, Some(role)) else RowIsSo(s.rows, d, id, x, why)
    case Remove(d, id, x) => RowIsSo(s.rows, d, id, x, why)
    case SetActive(a, d, id, active, x) =>
      if why == SelfChange then IsMember(s.rows, d, id) && Own(a, s.rows[id])
      else RowIsSo(s.rows, d, id, x, why) && (why == LastOwner ==> !active)
    case InviteMulti(a, email, named, _, grants, x) => InvitingManyIsSo(s.rows, a, email, named, grants, x, why)
    case Sync(a, d, id, grants, x, _, _) => SyncIsSo(s.rows, a, d, id, grants, x, why)
    case _ => false
  }

  predicate GrantIsSo(rows: Rows, email: string, g: Grant, x: Context, why: Refusal) {
    match why
    case NoMembership => g.company !in x.canInvite
    case RoleRequired => g.role.None?
    case InvalidRole => !KnownRole(x, g.company, g.role)
    case DuplicateInvite => !NoRowOf(rows, email, g.company)
    case InviteQuota => !SeatFree(rows, g.company, x)
    case _ => false
  }

  predicate InvitingManyIsSo(rows: Rows, a: Actor, email: string, named: bool, grants: seq<Grant>, x: Context, why: Refusal) {
    match why
    case EmailRequired => email == ""
    case NameRequired => !named
    case SelfChange => email == a.email
    case NoCompanies => grants == []
    case _ => exists g :: 0 <= g < |grants| && GrantIsSo(rows, email, grants[g], x, why)
  }

  lemma {:induction false} InvitePlanIsSo(rows: Rows, email: string, grants: seq<Grant>, x: Context)
    requires Inv(rows) && InvitePlan(rows, email, grants, x).Err?
    ensures InvitePlan(rows, email, grants, x).error !in {EmailRequired, NameRequired, SelfChange, NoCompanies}
    ensures exists g :: 0 <= g < |grants| && GrantIsSo(rows, email, grants[g], x, InvitePlan(rows, email, grants, x).error)
  {
    var n := |grants| - 1;
    if InvitePlan(rows, email, grants[..n], x).Err? {
      InvitePlanIsSo(rows, email, grants[..n], x);
      var g :| 0 <= g < n && GrantIsSo(rows, email, grants[..n][g], x, InvitePlan(rows, email, grants, x).error);
      assert GrantIsSo(rows, email, grants[g], x, InvitePlan(rows, email, grants, x).error);
    } else {
      SomebodyThereExactlyWhen(rows, email, grants[n].company);
      SeatFreeExactlyWhen(rows, grants[n].company, x);
      assert GrantIsSo(rows, email, grants[n], x, InvitePlan(rows, email, grants, x).error);
    }
  }

  /** What stands in the way of a sync in one company. */
  predicate CompanyIsSo(rows: Rows, email: string, want: map<Id, Id>, d: Id, x: Context, why: Refusal) {
    var found := LastByEmail(rows, email, d);
    match why
    case InvalidRole => d in want && !KnownRole(x, d, Some(want[d]))
    case InviteQuota => d in want && found.None? && !SeatFree(rows, d, x)
    case NoMembership =>
      || (d in want && found.None? && d !in x.canInvite)
      || (d in want && found.Some? && rows[found.value].role != Some(want[d]) && d !in x.canUpdate)
      || (d !in want && found.Some? && d in x.visible && d !in x.canDelete)
    case LastOwner =>
      && found.Some? && IsLastOwner(rows, d, rows[found.value].role, x)
      && (if d in want then want[d] != x.owners[d] else d in x.visible)
    case _ => false
  }

  ghost predicate SomeCompanyIsSo(rows: Rows, email: string, want: map<Id, Id>, x: Context, why: Refusal) {
    exists d :: CompanyIsSo(rows, email, want, d, x, why)
  }

  predicate OutOfSight(grants: seq<Grant>, x: Context) {
    exists g :: 0 <= g < |grants| && grants[g].company !in x.visible
  }

  predicate WithoutRole(grants: seq<Grant>) {
    exists g :: 0 <= g < |grants| && grants[g].role.None?
  }

  ghost predicate PlanIsSo(rows: Rows, c: Id, id: nat, grants: seq<Grant>, x: Context, why: Refusal) {
    IsMember(rows, c, id) && Want(grants, x).Ok? && SomeCompanyIsSo(rows, rows[id].email, Want(grants, x).value, x, why)
  }

  ghost predicate SyncIsSo(rows: Rows, a: Actor, c: Id, id: nat, grants: seq<Grant>, x: Context, why: Refusal) {
    match why
    case MemberNotFound => !IsMember(rows, c, id)
    case SelfChange => IsMember(rows, c, id) && Own(a, rows[id])
    case NoCompanies => grants == []
    case RoleRequired => WithoutRole(grants)
    case NoMembership => OutOfSight(grants, x) || PlanIsSo(rows, c, id, grants, x, why)
    case _ => PlanIsSo(rows, c, id, grants, x, why)
  }

  lemma {:induction false} WantIsSo(grants: seq<Grant>, x: Context)
    requires Want(grants, x).Err?
    ensures match Want(grants, x).error
            case NoMembership => OutOfSight(grants, x)
            case RoleRequired => WithoutRole(grants)
            case _ => false
  {
    var n := |grants| - 1;
    if Want(grants[..n], x).Err? {
      WantIsSo(grants[..n], x);
      assert forall g :: 0 <= g < n ==> grants[..n][g] == grants[g];
    }
  }

  lemma WantChangeIsSo(rows: Rows, email: string, want: map<Id, Id>, d: Id, x: Context)
    requires d in want && WantChange(rows, email, want, d, x).Err?
    ensures CompanyIsSo(rows, email, want, d, x, WantChange(rows, email, want, d, x).error)
  {
    SeatFreeExactlyWhen(rows, d, x);
    var found := LastByEmail(rows, email, d);
    if found.Some? {
      GuardIsLastOwner(rows, d, rows[found.value].role, Some(want[d]), x);
    }
  }

  lemma DropChangeIsSo(rows: Rows, email: string, want: map<Id, Id>, d: Id, x: Context)
    requires DropChange(rows, email, want, d, x).Err?
    ensures CompanyIsSo(rows, email, want, d, x, DropChange(rows, email, want, d, x).error)
  {
    var found := LastByEmail(rows, email, d);
    GuardIsLastOwner(rows, d, rows[found.value].role, None, x);
  }

  lemma SyncPlanIsSo(rows: Rows, a: Actor, c: Id, id: nat, grants: seq<Grant>, x: Context, o1: Order, o2: Order)
    requires SyncPlan(rows, a, c, id, grants, x, o1, o2).Err?
    ensures SyncIsSo(rows, a, c, id, grants, x, SyncPlan(rows, a, c, id, grants, x, o1, o2).error)
  {
    if IsMember(rows, c, id) && !Own(a, rows[id]) && grants != [] {
      if Want(grants, x).Err? {
        WantIsSo(grants, x);
      } else {
        var email, want := rows[id].email, Want(grants, x).value;
        WantsPassExactlyWhen(rows, email, want, o1, x);
        DropsPassExactlyWhen(rows, email, want, o2, x);
        if PlanWants(rows, email, want, o1, x).Err? {
          var d :| d in o1 && d in want && WantChange(rows, email, want, d, x) == Err(PlanWants(rows, email, want, o1, x).error);
          WantChangeIsSo(rows, email, want, d, x);
        } else {
          var d :| d in o2 && DropChange(rows, email, want, d, x) == Err(PlanDrops(rows, email, want, o2, x).error);
          DropChangeIsSo(rows, email, want, d, x);
        }
      }
    }
  }

  predicate RowIsSo(rows: Rows, d: Id, id: nat, x: Context, why: Refusal) {
    match why
    case MemberNotFound => !IsMember(rows, d, id)
    case LastOwner => IsMember(rows, d, id) && IsLastOwner(rows, d, rows[id].role, x)
    case _ => false
  }

  predicate InviteIsSo(rows: Rows, a: Actor, d: Id, email: string, role: Id, x: Context, why: Refusal) {
    match why
    case EmailRequired => email == ""
    case SelfChange => email == a.email
    case InvalidRole => !KnownRole(x, d, Some(role))
    case InviteAsOwner => d in x.owners && role == x.owners[d]
    case DuplicateInvite => !NoRowOf(rows, email, d)
    case InviteQuota => !SeatFree(rows, d, x)
    case _ => false
  }

  lemma InvitationRefusalIsSo(s: State, c: Command)
    requires Inv(s.rows) && Step(s, c).refusal.Some? && (c.Invite? || c.InviteMulti?)
    ensures IsSo(s, c, Step(s, c).refusal.value)
  {
    match c
    case Invite(a, d, email, role, x) =>
      InviteAcceptedExactlyWhen(s, a, d, email, role, x);
      SeatFreeExactlyWhen(s.rows, d, x);
      if email != "" {
        SomebodyThereExactlyWhen(s.rows, email, d);
      }
    case InviteMulti(a, email, named, active, grants, x) =>
      if email != "" && named && email != a.email && grants != [] {
        if InvitePlan(s.rows, email, grants, x).Ok? {
          InvitesNeverStopHalfway(s, a, email, active, grants, x);
        } else {
          InvitePlanIsSo(s.rows, email, grants, x);
        }
      }
  }

  /** Every refusal tells the caller something that is so. */
  lemma RefusalsAreSo(s: State, c: Command)
    requires Inv(s.rows) && Step(s, c).refusal.Some?
    ensures IsSo(s, c, Step(s, c).refusal.value)
  {
    match c
    case LinkCreator(a, d, owner) => LinkingAcceptedExactlyWhen(s, a, d, owner);
    case Invite(_, _, _, _, _) => InvitationRefusalIsSo(s, c);
    case InviteMulti(_, _, _, _, _, _) => InvitationRefusalIsSo(s, c);
    case Accept(u, invite) =>
      AcceptingAcceptedExactlyWhen(s, u, invite);
      if invite < |s.rows| {
        assert RowOk(s.rows[invite]);
      }
    case Sync(a, d, id, grants, x, o1, o2) =>
      SyncNeverStopsHalfway(s, a, d, id, grants, x, o1, o2);
      SyncPlanIsSo(s.rows, a, d, id, grants, x, o1, o2);
    case UpdateRole(d, id, role, x) => RowRefusalIsSo(s.rows, d, id, Some(role), x);
    case Remove(d, id, x) => RowRefusalIsSo(s.rows, d, id, None, x);
    case SetActive(_, d, id, _, x) => RowRefusalIsSo(s.rows, d, id, None, x);
    case _ =>
  }

  lemma RowRefusalIsSo(rows: Rows, d: Id, id: nat, next: Option<Id>, x: Context)
    ensures IsMember(rows, d, id) && GuardBlocks(rows, d, OwnerIn(x, d), rows[id].role, next) ==>
              IsLastOwner(rows, d, rows[id].role, x)
  {
    if IsMember(rows, d, id) {
      GuardIsLastOwner(rows, d, rows[id].role, next, x);
    }
  }
}
