/** The membership service: rows and cache updated in place, call by call. */
module MembershipStore {
  import opened Results
  import opened Sums
  import opened Memberships
  import opened MembershipLaws
  import opened AccessCache
  import opened SyncLaws
  import opened Standings

  // --- the loops of a sync ------------------------------------------------------------

  lemma LastOfPrefix(rows: Rows, i: nat, email: string, c: Id)
    requires i < |rows|
    ensures LastByEmail(rows[..i + 1], email, c) ==
            if EmailRow(rows[i], email, c) then Some(i) else LastByEmail(rows[..i], email, c)
  {
    assert rows[..i + 1][..i] == rows[..i];
  }

  lemma IndexOneMore(rows: Rows, i: nat, email: string, visible: set<Id>)
    requires i < |rows|
    ensures Existing(rows[..i + 1], email, visible) ==
            if !rows[i].deleted && rows[i].email == email && rows[i].company in visible
            then Existing(rows[..i], email, visible)[rows[i].company := i]
            else Existing(rows[..i], email, visible)
  {
    forall c
      ensures LastByEmail(rows[..i + 1], email, c) ==
              if EmailRow(rows[i], email, c) then Some(i) else LastByEmail(rows[..i], email, c)
    {
      LastOfPrefix(rows, i, email, c);
    }
  }

  /** Rows in creation order into a map by company: a later row replaces an earlier one. */
  method IndexByCompany(rows: Rows, email: string, visible: set<Id>) returns (existing: map<Id, nat>)
    ensures existing == Existing(rows, email, visible)
  {
    existing := map[];
    for i := 0 to |rows|
      invariant existing == Existing(rows[..i], email, visible)
    {
      IndexOneMore(rows, i, email, visible);
      if !rows[i].deleted && rows[i].email == email && rows[i].company in visible {
        existing := existing[rows[i].company := i];
      }
    }
    assert rows[..|rows|] == rows;
  }

  lemma {:induction false} WantRefusalStays(grants: seq<Grant>, x: Context, n: nat)
    requires n <= |grants| && Want(grants[..n], x).Err?
    ensures Want(grants, x) == Want(grants[..n], x)
    decreases |grants|
  {
    if n == |grants| {
      assert grants[..n] == grants;
    } else {
      assert grants[..|grants| - 1][..n] == grants[..n];
      WantRefusalStays(grants[..|grants| - 1], x, n);
    }
  }

  method CollectWant(grants: seq<Grant>, x: Context) returns (r: Result<map<Id, Id>, Refusal>)
    ensures r == Want(grants, x)
  {
    var want: map<Id, Id> := map[];
    for i := 0 to |grants|
      invariant Want(grants[..i], x) == Ok(want)
    {
      assert grants[..i + 1][..i] == grants[..i];
      if grants[i].company !in x.visible {
        WantRefusalStays(grants, x, i + 1);
        return Err(NoMembership);
      }
      if grants[i].role.None? {
        WantRefusalStays(grants, x, i + 1);
        return Err(RoleRequired);
      }
      want := want[grants[i].company := grants[i].role.value];
    }
    assert grants[..|grants|] == grants;
    r := Ok(want);
  }

  method CheckWant(rows: Rows, email: string, want: map<Id, Id>, existing: map<Id, nat>, c: Id, x: Context)
    returns (r: Result<seq<Change>, Refusal>)
    requires existing == Existing(rows, email, x.visible) && c in want && c in x.visible
    ensures r == WantChange(rows, email, want, c, x)
  {
    var role := want[c];
    if role !in RolesIn(x, c) {
      return Err(InvalidRole);
    }
    if c !in existing {
      if c !in x.canInvite { return Err(NoMembership); }
      if Reached(CountSlots(rows, c, OwnerIn(x, c)), LimitIn(x, c)) { return Err(InviteQuota); }
      return Ok([Add(c, role)]);
    }
    var row := rows[existing[c]];
    if row.role != Some(role) {
      if c !in x.canUpdate { return Err(NoMembership); }
      if GuardBlocks(rows, c, OwnerIn(x, c), row.role, Some(role)) { return Err(LastOwner); }
      return Ok([Reassign(existing[c], row, role)]);
    }
    r := Ok([]);
  }

  /** The map loop has been to the companies of order and still has todo to go. */
  ghost predicate Visiting(all: set<Id>, todo: set<Id>, order: Order) {
    && (forall c :: c in all <==> c in todo || c in order)
    && (forall c :: c in order ==> c !in todo)
  }

  lemma VisitOne(all: set<Id>, todo: set<Id>, order: Order, c: Id)
    requires Visiting(all, todo, order) && c in todo
    ensures c in all && Distinct(order + [c]) && Visiting(all, todo - {c}, order + [c])
  {
  }

  lemma WantsPush(rows: Rows, email: string, want: map<Id, Id>, order: seq<Id>, c: Id, x: Context)
    requires PlanWants(rows, email, want, order, x).Ok? && c in want
    ensures var next := WantChange(rows, email, want, c, x);
            PlanWants(rows, email, want, order + [c], x) ==
            if next.Err? then next else Ok(PlanWants(rows, email, want, order, x).value + next.value)
  {
    assert (order + [c])[..|order|] == order;
  }

  lemma DropsPush(rows: Rows, email: string, want: map<Id, Id>, order: seq<Id>, c: Id, x: Context)
    requires PlanDrops(rows, email, want, order, x).Ok?
    ensures var next := DropChange(rows, email, want, c, x);
            PlanDrops(rows, email, want, order + [c], x) ==
            if next.Err? then next else Ok(PlanDrops(rows, email, want, order, x).value + next.value)
  {
    assert (order + [c])[..|order|] == order;
  }

  /** The first map loop, in whatever order it runs. */
  method PlanWantLoop(rows: Rows, email: string, want: map<Id, Id>, existing: map<Id, nat>, x: Context)
    returns (r: Result<seq<Change>, Refusal>, ghost order: Order)
    requires existing == Existing(rows, email, x.visible) && want.Keys <= x.visible
    ensures r == PlanWants(rows, email, want, order, x)
    ensures r.Ok? <==> forall c :: c in want ==> WantPasses(rows, email, want, c, x)
    ensures r.Err? ==> exists c :: c in want && WantChange(rows, email, want, c, x) == Err(r.error)
    ensures r.Ok? ==> forall c :: c in want ==> c in order
  {
    var todo, changes := want.Keys, [];
    order := [];
    while todo != {}
      invariant Visiting(want.Keys, todo, order)
      invariant PlanWants(rows, email, want, order, x) == Ok(changes)
      decreases |todo|
    {
      var c :| c in todo;
      VisitOne(want.Keys, todo, order, c);
      todo := todo - {c};
      WantsPush(rows, email, want, order, c, x);
      order := order + [c];
      var next := CheckWant(rows, email, want, existing, c, x);
      if next.Err? {
        r := next;
        assert !WantPasses(rows, email, want, c, x);
        return;
      }
      changes := changes + next.value;
    }
    WantsPassExactlyWhen(rows, email, want, order, x);
    r := Ok(changes);
  }

  method CheckDrop(rows: Rows, email: string, want: map<Id, Id>, existing: map<Id, nat>, c: Id, x: Context)
    returns (r: Result<seq<Change>, Refusal>)
    requires existing == Existing(rows, email, x.visible) && c in existing
    ensures r == DropChange(rows, email, want, c, x)
  {
    if c in want {
      return Ok([]);
    }
    var row := rows[existing[c]];
    if c !in x.canDelete { return Err(NoMembership); }
    if GuardBlocks(rows, c, OwnerIn(x, c), row.role, None) { return Err(LastOwner); }
    r := Ok([Drop(existing[c], row)]);
  }

  lemma EveryDropPasses(rows: Rows, email: string, want: map<Id, Id>, order: seq<Id>, visited: set<Id>, x: Context)
    requires PlanDrops(rows, email, want, order, x).Ok? && forall c :: c in visited ==> c in order
    ensures forall c :: c in visited ==> DropChange(rows, email, want, c, x).Ok?
  {
    DropsPassExactlyWhen(rows, email, want, order, x);
  }

  /** The second map loop: companies on record that are no longer wanted. */
  method PlanDropLoop(rows: Rows, email: string, want: map<Id, Id>, existing: map<Id, nat>, x: Context)
    returns (r: Result<seq<Change>, Refusal>, ghost order: Order)
    requires existing == Existing(rows, email, x.visible)
    ensures r == PlanDrops(rows, email, want, order, x)
    ensures r.Ok? <==> forall c :: c in existing ==> DropChange(rows, email, want, c, x).Ok?
    ensures r.Err? ==> exists c :: c in existing && DropChange(rows, email, want, c, x) == Err(r.error)
    ensures r.Ok? ==> forall c :: c in existing ==> c in order
  {
    var todo, changes := existing.Keys, [];
    order := [];
    while todo != {}
      invariant Visiting(existing.Keys, todo, order)
      invariant PlanDrops(rows, email, want, order, x) == Ok(changes)
      decreases |todo|
    {
      var c :| c in todo;
      VisitOne(existing.Keys, todo, order, c);
      todo := todo - {c};
      DropsPush(rows, email, want, order, c, x);
      order := order + [c];
      var next := CheckDrop(rows, email, want, existing, c, x);
      if next.Err? {
        r := next;
        return;
      }
      changes := changes + next.value;
    }
    EveryDropPasses(rows, email, want, order, existing.Keys, x);
    r := Ok(changes);
  }

  class Store {
    var rows: Rows
    var cache: Cache

    ghost function Now(): State
      reads this
    {
      State(rows, cache)
    }

    constructor ()
      ensures Now() == NO_MEMBERS
    {
      rows, cache := [], map[];
    }

    /**
     Drops what is cached for the user in the company, and nothing else. If every other
     entry agrees with the rows, the whole cache does afterwards.
     */
    method InvalidateMember(user: Option<Id>, c: Id)
      modifies this`cache
      ensures cache == Dropped(old(cache), user, c)
      ensures forall k :: k in cache <==> k in old(cache) && !(Some(k.0) == user && k.1 == c)
      ensures forall k :: k in cache ==> cache[k] == old(cache)[k]
      ensures (forall k :: k in old(cache) && !(Some(k.0) == user && k.1 == c) ==> Agrees(old(cache)[k], rows, k.0, k.1))
              ==> Coherent(Now())
    {
      if user.Some? {
        cache := cache - {(user.value, c)};
      }
    }

    /**
     Drops what is cached for the user in any company, and nothing else. If every entry of
     other users agrees with the rows, the whole cache does afterwards.
     */
    method PurgeUserAccess(u: Id)
      modifies this`cache
      ensures cache == Purged(old(cache), u)
      ensures forall k :: k in cache <==> k in old(cache) && k.0 != u
      ensures forall k :: k in cache ==> cache[k] == old(cache)[k]
      ensures (forall k :: k in old(cache) && k.0 != u ==> Agrees(old(cache)[k], rows, k.0, k.1)) ==> Coherent(Now())
    {
      cache := map k | k in cache && k.0 != u :: cache[k];
    }

    /** A hit is answered from the cache; a miss is computed and, unless unresolved, cached. */
    method ResolveAccess(u: Id, c: Id, allowFallback: bool, roleKnown: bool) returns (r: Option<Entry>)
      modifies this`cache
      ensures Now() == DoResolve(old(Now()), u, c, allowFallback, roleKnown)
      ensures r.Some? <==> (u, c) in cache
      ensures r.Some? ==> r.value == cache[(u, c)]
      ensures old(Coherent(Now())) && r.Some? ==> Agrees(r.value, rows, u, c)
    {
      if Coherent(Now()) {
        ResolveCoherent(Now(), u, c, allowFallback, roleKnown);
      }
      if (u, c) in cache {
        return Some(cache[(u, c)]);
      }
      var found := FindUser(rows, u, c);
      if found.None? {
        r := Some(Entry(false, false, false, None, false));
      } else {
        var m := rows[found.value];
        if m.role.Some? && roleKnown {
          r := Some(Entry(true, m.activated, m.banned, m.role, false));
        } else if allowFallback {
          r := Some(Entry(true, m.activated, m.banned, None, true));
        } else {
          return None;
        }
      }
      cache := cache[(u, c) := r.value];
    }

    /** The repository's insert-or-patch, in one transaction. */
    method UpsertRow(m: Member) returns (refusal: Option<Refusal>)
      modifies this`rows
      ensures Upsert(old(rows), m).Ok? ==> refusal.None? && rows == Upsert(old(rows), m).value
      ensures Upsert(old(rows), m).Err? ==> refusal == Some(Upsert(old(rows), m).error) && rows == old(rows)
    {
      var found := Lookup(rows, m);
      if found.None? {
        if Violates(rows, |rows|, m) { return Some(UniqueViolation); }
        rows := rows + [m];
      } else {
        var patched := Patch(rows[found.value], m);
        if Violates(rows, found.value, patched) { return Some(UniqueViolation); }
        rows := rows[found.value := patched];
        rows := Deduped(rows, found.value, m);
      }
      refusal := None;
    }

    method LinkCompanyCreator(a: Actor, c: Id, owner: Option<Id>) returns (refusal: Option<Refusal>)
      modifies this
      ensures Outcome(Now(), refusal) == DoLinkCreator(old(Now()), a, c, owner)
    {
      refusal := UpsertRow(Member(Some(a.user), c, owner, true, false, a.email, false, false, false));
      if refusal.None? {
        PurgeUserAccess(a.user);
      }
    }

    method InviteOne(a: Actor, c: Id, email: string, role: Id, x: Context) returns (refusal: Option<Refusal>)
      modifies this
      ensures Outcome(Now(), refusal) == DoInvite(old(Now()), a, c, email, role, x)
    {
      if email == "" { return Some(EmailRequired); }
      if email == a.email { return Some(SelfChange); }
      if role !in RolesIn(x, c) { return Some(InvalidRole); }
      if OwnerIn(x, c) == Some(role) { return Some(InviteAsOwner); }
      if HasActiveEmail(rows, email, c) { return Some(DuplicateInvite); }
      if HasPendingEmail(rows, email, c) { return Some(DuplicateInvite); }
      if Reached(CountSlots(rows, c, OwnerIn(x, c)), LimitIn(x, c)) { return Some(InviteQuota); }
      refusal := UpsertRow(Invited(email, c, role, false));
    }

    /** The checks of InviteMulti, company by company; a repeated company is skipped. */
    method PlanInvites(email: string, grants: seq<Grant>, x: Context) returns (r: Result<seq<Member>, Refusal>)
      ensures r == InvitePlan(rows, email, grants, x)
    {
      var plans, seen := [], {};
      for i := 0 to |grants|
        invariant InvitePlan(rows, email, grants[..i], x) == Ok(plans)
        invariant forall c :: c in seen <==> Mentions(grants[..i], c)
      {
        var g := grants[i];
        assert grants[..i + 1][..i] == grants[..i];
        MentionsOneMore(grants, i);
        if g.company !in seen {
          seen := seen + {g.company};
          var fault := InviteFault(rows, email, g, x);
          if fault.Some? {
            InviteRefusalStays(rows, email, grants, x, i + 1);
            return Err(fault.value);
          }
          plans := plans + [Invited(email, g.company, g.role.value, false)];
        }
      }
      assert grants[..|grants|] == grants;
      r := Ok(plans);
    }

    method InviteMulti(a: Actor, email: string, named: bool, active: bool, grants: seq<Grant>, x: Context)
      returns (refusal: Option<Refusal>)
      modifies this
      ensures Outcome(Now(), refusal) == DoInviteMulti(old(Now()), a, email, named, active, grants, x)
    {
      if email == "" { return Some(EmailRequired); }
      if !named { return Some(NameRequired); }
      if email == a.email { return Some(SelfChange); }
      if |grants| == 0 { return Some(NoCompanies); }
      var plan := PlanInvites(email, grants, x);
      if plan.Err? {
        return Some(plan.error);
      }
      refusal := WriteInvites(WithBan(plan.value, !active));
    }

    /** One upsert per planned company; a failure would leave the earlier ones in place. */
    method WriteInvites(members: seq<Member>) returns (refusal: Option<Refusal>)
      modifies this`rows
      ensures (rows, refusal) == UpsertAll(old(rows), members)
    {
      ghost var start := rows;
      for i := 0 to |members|
        invariant UpsertAll(start, members[..i]) == (rows, None)
      {
        assert members[..i + 1][..i] == members[..i];
        refusal := UpsertRow(members[i]);
        if refusal.Some? {
          UpsertRefusalStays(start, members, i + 1);
          return;
        }
      }
      assert members[..|members|] == members;
      refusal := None;
    }

    method AcceptInvite(u: Id, invite: nat) returns (refusal: Option<Refusal>)
      modifies this
      ensures Outcome(Now(), refusal) == DoAccept(old(Now()), u, invite)
    {
      if !Live(rows, invite) || !rows[invite].hasToken { return Some(InviteInvalid); }
      var m := rows[invite];
      if m.activated || m.user.Some? { return Some(InviteInvalid); }
      m := m.(user := Some(u), activated := true, hasToken := false);
      if Violates(rows, invite, m) { return Some(UniqueViolation); }
      rows := rows[invite := m];
      PurgeUserAccess(u);
      refusal := None;
    }

    method UpdateMemberRole(c: Id, id: nat, role: Id, x: Context) returns (refusal: Option<Refusal>)
      modifies this
      ensures Outcome(Now(), refusal) == DoUpdateRole(old(Now()), c, id, role, x)
    {
      if role !in RolesIn(x, c) { return Some(InvalidRole); }
      if !InCompany(rows, c, id) { return Some(MemberNotFound); }
      var m := rows[id];
      if GuardBlocks(rows, c, OwnerIn(x, c), m.role, Some(role)) { return Some(LastOwner); }
      rows := rows[id := m.(role := Some(role))];
      InvalidateMember(m.user, c);
      refusal := None;
    }

    method RemoveMember(c: Id, id: nat, x: Context) returns (refusal: Option<Refusal>)
      modifies this
      ensures Outcome(Now(), refusal) == DoRemove(old(Now()), c, id, x)
    {
      if !InCompany(rows, c, id) { return Some(MemberNotFound); }
      var m := rows[id];
      if GuardBlocks(rows, c, OwnerIn(x, c), m.role, None) { return Some(LastOwner); }
      rows := rows[id := m.(deleted := true)];
      InvalidateMember(m.user, c);
      refusal := None;
    }

    method SetMemberActive(a: Actor, c: Id, id: nat, active: bool, x: Context) returns (refusal: Option<Refusal>)
      modifies this
      ensures Outcome(Now(), refusal) == DoSetActive(old(Now()), a, c, id, active, x)
    {
      if !InCompany(rows, c, id) { return Some(MemberNotFound); }
      var m := rows[id];
      if IsSelf(a, m) { return Some(SelfChange); }
      if !active {
        if GuardBlocks(rows, c, OwnerIn(x, c), m.role, None) { return Some(LastOwner); }
      }
      rows := rows[id := m.(banned := !active)];
      InvalidateMember(m.user, c);
      refusal := None;
    }

    /** The write loop of a sync. */
    method WriteChanges(m: Member, changes: seq<Change>) returns (refusal: Option<Refusal>)
      requires PlanOk(rows, changes)
      modifies this
      ensures Outcome(Now(), refusal) == ApplyChanges(old(Now()), m, changes)
    {
      ghost var start := Now();
      for i := 0 to |changes|
        invariant ApplyChanges(start, m, changes[..i]) == Outcome(Now(), None)
      {
        ApplySnoc(start, m, changes, i);
        StillLoaded(start, m, changes, i);
        match changes[i] {
          case Reassign(id, row, role) =>
            rows := rows[id := row.(role := Some(role))];
            InvalidateMember(row.user, row.company);
          case Drop(id, row) =>
            rows := rows[id := rows[id].(deleted := true)];
            InvalidateMember(row.user, row.company);
          case Add(c, role) =>
            refusal := UpsertRow(Added(m, c, role));
            if refusal.Some? {
              ChangeRefusalStays(start, m, changes, i + 1);
              return;
            }
            if m.user.Some? {
              PurgeUserAccess(m.user.value);
            }
        }
      }
      assert changes[..|changes|] == changes;
      refusal := None;
    }

    /**
     Plan, validate, write, and look the member up again. The two orders are the ones the
     map loops happened to take. An error leaves the state as it was, unless the sync has
     removed the row it was called for.
     */
    method SyncAssignments(a: Actor, c: Id, id: nat, grants: seq<Grant>, x: Context)
      returns (report: Option<Refusal>, ghost wantOrder: Order, ghost dropOrder: Order)
      modifies this
      ensures var written := DoSync(old(Now()), a, c, id, grants, x, wantOrder, dropOrder);
              Now() == written.state && report == SyncReport(written, c, id)
      ensures old(SyncPlan(rows, a, c, id, grants, x, wantOrder, dropOrder)).Ok? ==>
                VisitsAll(old(rows), old(rows)[id].email, Want(grants, x).value, x.visible, wantOrder, dropOrder)
      ensures old(Inv(rows)) ==>
                && Inv(rows)
                && (report.Some? && Now() != old(Now())
                    <==> old(SyncPlan(rows, a, c, id, grants, x, wantOrder, dropOrder)).Ok?
                         && DropsItself(old(rows), c, id, Want(grants, x).value, x.visible))
      ensures old(Inv(rows)) && old(SyncPlan(rows, a, c, id, grants, x, wantOrder, dropOrder)).Ok? ==>
                forall v: Id, d: Id ::
                  StandingOf(rows, v, d) == SyncedStanding(old(rows), old(rows)[id], Want(grants, x).value, x.visible, v, d)
      ensures old(Coherent(Now())) ==> Coherent(Now())
    {
      wantOrder, dropOrder := [], [];
      if !InCompany(rows, c, id) { return Some(MemberNotFound), wantOrder, dropOrder; }
      var m := rows[id];
      if IsSelf(a, m) { return Some(SelfChange), wantOrder, dropOrder; }
      if |grants| == 0 { return Some(NoCompanies), wantOrder, dropOrder; }
      var existing := IndexByCompany(rows, m.email, x.visible);
      var want := CollectWant(grants, x);
      if want.Err? { return Some(want.error), wantOrder, dropOrder; }
      WantIsVisible(grants, x);
      var wants, drops;
      wants, wantOrder := PlanWantLoop(rows, m.email, want.value, existing, x);
      if wants.Err? { return Some(wants.error), wantOrder, dropOrder; }
      drops, dropOrder := PlanDropLoop(rows, m.email, want.value, existing, x);
      if drops.Err? { return Some(drops.error), wantOrder, dropOrder; }
      PlanIsOk(rows, a, c, id, grants, x, wantOrder, dropOrder);
      if Inv(rows) {
        ErrorAfterWritingExactlyWhen(Now(), a, c, id, grants, x, wantOrder, dropOrder);
        SyncKeepsInv(Now(), a, c, id, grants, x, wantOrder, dropOrder);
        forall v: Id, d: Id
          ensures StandingOf(DoSync(Now(), a, c, id, grants, x, wantOrder, dropOrder).state.rows, v, d) ==
                  SyncedStanding(rows, m, want.value, x.visible, v, d)
        {
          SyncMovesStandings(Now(), a, c, id, grants, x, wantOrder, dropOrder, v, d);
        }
      }
      if Coherent(Now()) {
        SyncCoherent(Now(), a, c, id, grants, x, wantOrder, dropOrder);
      }
      report := WriteChanges(m, wants.value + drops.value);
      if report.None? && !InCompany(rows, c, id) {
        report := Some(MemberNotFound);
      }
    }
  }

  function InviteFault(rows: Rows, email: string, g: Grant, x: Context): Option<Refusal> {
    if g.company !in x.canInvite then Some(NoMembership)
    else if g.role.None? then Some(RoleRequired)
    else if g.role.value !in RolesIn(x, g.company) then Some(InvalidRole)
    else SeatFault(rows, email, g.company, x)
  }

  lemma MentionsOneMore(grants: seq<Grant>, i: nat)
    requires i < |grants|
    ensures forall c :: Mentions(grants[..i + 1], c) <==> Mentions(grants[..i], c) || grants[i].company == c
  {
    forall c
      ensures Mentions(grants[..i + 1], c) <==> Mentions(grants[..i], c) || grants[i].company == c
    {
      assert grants[..i + 1] == grants[..i] + [grants[i]];
      if Mentions(grants[..i], c) {
        var k :| 0 <= k < i && grants[..i][k].company == c;
        assert grants[..i + 1][k].company == c;
      }
      if grants[i].company == c {
        assert grants[..i + 1][i].company == c;
      }
    }
  }

  lemma {:induction false} InviteRefusalStays(rows: Rows, email: string, grants: seq<Grant>, x: Context, n: nat)
    requires n <= |grants| && InvitePlan(rows, email, grants[..n], x).Err?
    ensures InvitePlan(rows, email, grants, x) == InvitePlan(rows, email, grants[..n], x)
    decreases |grants|
  {
    if n == |grants| {
      assert grants[..n] == grants;
    } else {
      assert grants[..|grants| - 1][..n] == grants[..n];
      InviteRefusalStays(rows, email, grants[..|grants| - 1], x, n);
    }
  }

  lemma {:induction false} UpsertRefusalStays(rows: Rows, members: seq<Member>, n: nat)
    requires n <= |members| && UpsertAll(rows, members[..n]).1.Some?
    ensures UpsertAll(rows, members) == UpsertAll(rows, members[..n])
    decreases |members|
  {
    if n == |members| {
      assert members[..n] == members;
    } else {
      assert members[..|members| - 1][..n] == members[..n];
      UpsertRefusalStays(rows, members[..|members| - 1], n);
    }
  }

  lemma {:induction false} ChangeRefusalStays(s: State, m: Member, changes: seq<Change>, n: nat)
    requires n <= |changes| && ApplyChanges(s, m, changes[..n]).refusal.Some?
    ensures ApplyChanges(s, m, changes) == ApplyChanges(s, m, changes[..n])
    decreases |changes|
  {
    if n == |changes| {
      assert changes[..n] == changes;
    } else {
      assert changes[..|changes| - 1][..n] == changes[..n];
      ChangeRefusalStays(s, m, changes[..|changes| - 1], n);
    }
  }
}
