/**
 What every run of membership calls keeps: the unique indexes and the shape of a row, and
 an access cache that agrees with the rows.
 */
module MembershipLaws {
  import opened Results
  import opened Sums
  import opened Memberships

  // --- the shape of a row ------------------------------------------------------------

  /** A live row names its person, and only an invitation without a user is not activated. */
  predicate RowOk(r: Member) {
    !r.deleted ==> (r.user.Some? || r.email != "") && r.activated == r.user.Some? && (r.activated || r.invited)
  }

  /** The two partial unique indexes. */
  predicate Unique(rows: Rows) {
    forall i, j :: 0 <= i < j < |rows| ==> !Conflicts(rows[i], rows[j])
  }

  predicate Inv(rows: Rows) {
    Unique(rows) && forall i :: 0 <= i < |rows| ==> RowOk(rows[i])
  }

  lemma AppendKeepsInv(rows: Rows, m: Member)
    requires Inv(rows) && RowOk(m) && !Violates(rows, |rows|, m)
    ensures Inv(rows + [m])
  {
  }

  lemma WriteKeepsInv(rows: Rows, i: nat, r: Member)
    requires Inv(rows) && i < |rows| && RowOk(r) && !Violates(rows, i, r)
    ensures Inv(rows[i := r])
  {
  }

  /** Changing neither the identity nor the flags of a row, or deleting it, breaks nothing. */
  lemma SameIdentityKeepsInv(rows: Rows, i: nat, r: Member)
    requires Inv(rows) && i < |rows| && RowOk(r)
    requires r.user == rows[i].user && r.email == rows[i].email && r.company == rows[i].company
    requires rows[i].deleted ==> r.deleted
    ensures Inv(rows[i := r])
  {
    forall j | 0 <= j < |rows| && j != i
      ensures !Conflicts(rows[j], r)
    {
      assert !Conflicts(rows[j], rows[i]);
    }
    WriteKeepsInv(rows, i, r);
  }

  lemma DedupeKeepsInv(rows: Rows, kept: nat, m: Member)
    requires Inv(rows)
    ensures Inv(Deduped(rows, kept, m))
  {
    var d := Deduped(rows, kept, m);
    forall i, j | 0 <= i < j < |d|
      ensures !Conflicts(d[i], d[j])
    {
      assert !Conflicts(rows[i], rows[j]);
    }
  }

  lemma PatchedRowOk(r: Member, m: Member)
    requires RowOk(r) && RowOk(m) && !m.deleted && SameKey(r, m)
    ensures RowOk(Patch(r, m))
  {
  }

  lemma UpsertKeepsInv(rows: Rows, m: Member)
    requires Inv(rows) && RowOk(m) && !m.deleted && Upsert(rows, m).Ok?
    ensures Inv(Upsert(rows, m).value)
  {
    var found := Lookup(rows, m);
    if found.None? {
      AppendKeepsInv(rows, m);
    } else {
      var p := Patch(rows[found.value], m);
      PatchedRowOk(rows[found.value], m);
      WriteKeepsInv(rows, found.value, p);
      DedupeKeepsInv(rows[found.value := p], found.value, m);
    }
  }

  /** While the indexes hold there is nothing left to deduplicate. */
  lemma NothingToDedupe(rows: Rows, kept: nat, m: Member)
    requires Unique(rows) && kept < |rows| && SameKey(rows[kept], m) && (m.user.Some? || m.email != "")
    ensures Deduped(rows, kept, m) == rows
  {
    forall j | 0 <= j < |rows| && j != kept
      ensures !SameKey(rows[j], m)
    {
      assert !Conflicts(rows[j], rows[kept]) && !Conflicts(rows[kept], rows[j]);
    }
  }

  lemma {:induction false} UpsertAllKeepsInv(rows: Rows, members: seq<Member>)
    requires Inv(rows) && forall k :: 0 <= k < |members| ==> RowOk(members[k]) && !members[k].deleted
    ensures Inv(UpsertAll(rows, members).0)
  {
    if members != [] {
      var n := |members| - 1;
      UpsertAllKeepsInv(rows, members[..n]);
      var before := UpsertAll(rows, members[..n]).0;
      if Upsert(before, members[n]).Ok? {
        UpsertKeepsInv(before, members[n]);
      }
    }
  }

  lemma {:induction false} PlannedInvites(rows: Rows, email: string, grants: seq<Grant>, x: Context)
    requires InvitePlan(rows, email, grants, x).Ok?
    ensures var plan := InvitePlan(rows, email, grants, x).value;
            forall k :: 0 <= k < |plan| ==>
              && plan[k].role.Some? && plan[k] == Invited(email, plan[k].company, plan[k].role.value, false)
              && !HasActiveEmail(rows, email, plan[k].company) && !HasPendingEmail(rows, email, plan[k].company)
              && Mentions(grants, plan[k].company)
    ensures var plan := InvitePlan(rows, email, grants, x).value;
            forall j, k :: 0 <= j < k < |plan| ==> plan[j].company != plan[k].company
  {
    if grants != [] {
      var n := |grants| - 1;
      PlannedInvites(rows, email, grants[..n], x);
      assert forall c :: Mentions(grants[..n], c) ==> Mentions(grants, c);
      assert Mentions(grants, grants[n].company);
    }
  }

  // --- plans of a sync ------------------------------------------------------------------

  /** Different companies, and every row still as it was loaded. */
  ghost predicate PlanOk(rows: Rows, changes: seq<Change>) {
    && (forall j, k :: 0 <= j < k < |changes| ==> CompanyOf(changes[j]) != CompanyOf(changes[k]))
    && (forall k :: 0 <= k < |changes| ==> Loaded(rows, changes[k]))
  }

  predicate Loaded(rows: Rows, ch: Change) {
    !ch.Add? ==> ch.id < |rows| && rows[ch.id] == ch.row && !ch.row.deleted
  }

  /** The one change a company calls for, if any. */
  function Expected(rows: Rows, email: string, want: map<Id, Id>, visible: set<Id>, c: Id): Option<Change> {
    var found := LastByEmail(rows, email, c);
    if c in want then
      if found.None? then Some(Add(c, want[c]))
      else if rows[found.value].role == Some(want[c]) then None
      else Some(Reassign(found.value, rows[found.value], want[c]))
    else if c in visible && found.Some? then Some(Drop(found.value, rows[found.value]))
    else None
  }

  /** Every change is the one its company calls for, and no company has two. */
  ghost predicate Sound(
    rows: Rows, email: string, want: map<Id, Id>, visible: set<Id>, order: seq<Id>, inWant: bool, changes: seq<Change>)
  {
    && (forall k :: 0 <= k < |changes| ==> CompanyOf(changes[k]) in order && (CompanyOf(changes[k]) in want) == inWant)
    && (forall k :: 0 <= k < |changes| ==> Expected(rows, email, want, visible, CompanyOf(changes[k])) == Some(changes[k]))
    && (forall j, k :: 0 <= j < k < |changes| ==> CompanyOf(changes[j]) != CompanyOf(changes[k]))
  }

  /** Every company of the order that calls for a change gets it. */
  ghost predicate Complete(
    rows: Rows, email: string, want: map<Id, Id>, visible: set<Id>, order: seq<Id>, inWant: bool, changes: seq<Change>)
  {
    forall c :: c in order && (c in want) == inWant && Expected(rows, email, want, visible, c).Some? ==>
                  Expected(rows, email, want, visible, c).value in changes
  }

  ghost predicate Covers(
    rows: Rows, email: string, want: map<Id, Id>, visible: set<Id>, order: seq<Id>, inWant: bool, changes: seq<Change>)
  {
    && Sound(rows, email, want, visible, order, inWant, changes)
    && Complete(rows, email, want, visible, order, inWant, changes)
  }

  lemma CoversPush(
    rows: Rows, email: string, want: map<Id, Id>, visible: set<Id>, order: seq<Id>, inWant: bool, changes: seq<Change>,
    next: seq<Change>)
    requires order != [] && Distinct(order)
    requires Covers(rows, email, want, visible, order[..|order| - 1], inWant, changes)
    requires var c := order[|order| - 1];
             var e := Expected(rows, email, want, visible, c);
             next == if (c in want) == inWant && e.Some? then [e.value] else []
    ensures Covers(rows, email, want, visible, order, inWant, changes + next)
  {
    SoundPush(rows, email, want, visible, order, inWant, changes, next);
    var n, all := |order| - 1, changes + next;
    forall d | d in order && (d in want) == inWant && Expected(rows, email, want, visible, d).Some?
      ensures Expected(rows, email, want, visible, d).value in all
    {
      if d in order[..n] {
        assert Expected(rows, email, want, visible, d).value in changes;
      } else {
        assert order == order[..n] + [order[n]];
        assert all[|changes|] == Expected(rows, email, want, visible, d).value;
      }
    }
  }

  lemma SoundPush(
    rows: Rows, email: string, want: map<Id, Id>, visible: set<Id>, order: seq<Id>, inWant: bool, changes: seq<Change>,
    next: seq<Change>)
    requires order != [] && Distinct(order)
    requires Sound(rows, email, want, visible, order[..|order| - 1], inWant, changes)
    requires var c := order[|order| - 1];
             var e := Expected(rows, email, want, visible, c);
             next == if (c in want) == inWant && e.Some? then [e.value] else []
    ensures Sound(rows, email, want, visible, order, inWant, changes + next)
  {
    var n := |order| - 1;
    if next == [] {
      assert changes + next == changes;
    } else {
      ExpectedCompany(rows, email, want, visible, order[n]);
    }
  }

  lemma ExpectedCompany(rows: Rows, email: string, want: map<Id, Id>, visible: set<Id>, c: Id)
    requires Expected(rows, email, want, visible, c).Some?
    ensures CompanyOf(Expected(rows, email, want, visible, c).value) == c
    ensures Loaded(rows, Expected(rows, email, want, visible, c).value)
  {
  }

  lemma {:induction false} WantsCover(rows: Rows, email: string, want: map<Id, Id>, order: seq<Id>, x: Context)
    requires Distinct(order) && PlanWants(rows, email, want, order, x).Ok?
    ensures Covers(rows, email, want, x.visible, order, true, PlanWants(rows, email, want, order, x).value)
  {
    if order != [] {
      var n := |order| - 1;
      WantsCover(rows, email, want, order[..n], x);
      var earlier := PlanWants(rows, email, want, order[..n], x).value;
      var next := if order[n] in want then WantChange(rows, email, want, order[n], x).value else [];
      CoversPush(rows, email, want, x.visible, order, true, earlier, next);
      assert earlier + [] == earlier;
    }
  }

  lemma {:induction false} DropsCover(rows: Rows, email: string, want: map<Id, Id>, order: seq<Id>, x: Context)
    requires Distinct(order) && PlanDrops(rows, email, want, order, x).Ok?
    ensures Covers(rows, email, want, x.visible, order, false, PlanDrops(rows, email, want, order, x).value)
  {
    if order != [] {
      var n := |order| - 1;
      DropsCover(rows, email, want, order[..n], x);
      CoversPush(rows, email, want, x.visible, order, false, PlanDrops(rows, email, want, order[..n], x).value,
                 DropChange(rows, email, want, order[n], x).value);
    }
  }

  lemma JoinedPlanOk(
    rows: Rows, email: string, want: map<Id, Id>, visible: set<Id>, o1: seq<Id>, o2: seq<Id>, wants: seq<Change>, drops: seq<Change>)
    requires Covers(rows, email, want, visible, o1, true, wants) && Covers(rows, email, want, visible, o2, false, drops)
    ensures PlanOk(rows, wants + drops)
  {
    var all := wants + drops;
    forall k | 0 <= k < |all|
      ensures Loaded(rows, all[k])
    {
      ExpectedCompany(rows, email, want, visible, CompanyOf(all[k]));
    }
  }

  lemma PlanIsOk(rows: Rows, a: Actor, c: Id, id: nat, grants: seq<Grant>, x: Context, o1: seq<Id>, o2: seq<Id>)
    requires Distinct(o1) && Distinct(o2) && SyncPlan(rows, a, c, id, grants, x, o1, o2).Ok?
    ensures PlanOk(rows, SyncPlan(rows, a, c, id, grants, x, o1, o2).value)
  {
    var email, want := rows[id].email, Want(grants, x).value;
    WantsCover(rows, email, want, o1, x);
    DropsCover(rows, email, want, o2, x);
    JoinedPlanOk(rows, email, want, x.visible, o1, o2,
                 PlanWants(rows, email, want, o1, x).value, PlanDrops(rows, email, want, o2, x).value);
  }

  // --- a change stays within its company -------------------------------------------------

  /** Company c has the same rows in both tables. */
  predicate AgreeOn(rows: Rows, rows': Rows, c: Id) {
    && |rows| <= |rows'|
    && forall j :: 0 <= j < |rows'| && (rows'[j].company == c || (j < |rows| && rows[j].company == c)) ==>
                     j < |rows| && rows'[j] == rows[j]
  }

  lemma AgreeOnTrans(a: Rows, b: Rows, d: Rows, c: Id)
    requires AgreeOn(a, b, c) && AgreeOn(b, d, c)
    ensures AgreeOn(a, d, c)
  {
  }

  lemma UpsertStaysInCompany(rows: Rows, m: Member, c: Id)
    requires Upsert(rows, m).Ok? && c != m.company
    ensures AgreeOn(rows, Upsert(rows, m).value, c)
  {
  }

  lemma ChangeStaysInCompany(s: State, m: Member, ch: Change, c: Id)
    requires Loaded(s.rows, ch) && c != CompanyOf(ch)
    ensures AgreeOn(s.rows, ApplyChange(s, m, ch).state.rows, c)
  {
    if ch.Add? && Upsert(s.rows, Added(m, ch.company, ch.role)).Ok? {
      UpsertStaysInCompany(s.rows, Added(m, ch.company, ch.role), c);
    }
  }

  predicate Touched(changes: seq<Change>, c: Id) {
    exists k :: 0 <= k < |changes| && CompanyOf(changes[k]) == c
  }

  lemma TouchedByFewer(changes: seq<Change>, n: nat, c: Id)
    requires 0 < n <= |changes| && !Touched(changes[..n], c)
    ensures !Touched(changes[..n - 1], c) && CompanyOf(changes[n - 1]) != c
  {
    assert changes[..n][n - 1] == changes[n - 1];
    assert forall k :: 0 <= k < n - 1 ==> changes[..n - 1][k] == changes[..n][k];
  }

  lemma ApplySnoc(s: State, m: Member, changes: seq<Change>, n: nat)
    requires n < |changes|
    ensures var before := ApplyChanges(s, m, changes[..n]);
            ApplyChanges(s, m, changes[..n + 1]) ==
            if before.refusal.Some? then before else ApplyChange(before.state, m, changes[n])
  {
    assert changes[..n + 1][..n] == changes[..n];
  }

  /** After the first changes of a plan, every company they did not name is as before. */
  lemma {:induction false} OtherCompaniesAgree(s: State, m: Member, changes: seq<Change>, n: nat, c: Id)
    requires PlanOk(s.rows, changes) && n <= |changes| && !Touched(changes[..n], c)
    ensures AgreeOn(s.rows, ApplyChanges(s, m, changes[..n]).state.rows, c)
    decreases n, 0
  {
    if n > 0 {
      TouchedByFewer(changes, n, c);
      OtherCompaniesAgree(s, m, changes, n - 1, c);
      StillLoaded(s, m, changes, n - 1);
      ApplySnoc(s, m, changes, n - 1);
      var before := ApplyChanges(s, m, changes[..n - 1]);
      if before.refusal.None? {
        ChangeStaysInCompany(before.state, m, changes[n - 1], c);
        AgreeOnTrans(s.rows, before.state.rows, ApplyChanges(s, m, changes[..n]).state.rows, c);
      }
    }
  }

  /** When change n is applied, its row is still the one that was loaded. */
  lemma {:induction false} StillLoaded(s: State, m: Member, changes: seq<Change>, n: nat)
    requires PlanOk(s.rows, changes) && n < |changes|
    ensures !Touched(changes[..n], CompanyOf(changes[n]))
    ensures AgreeOn(s.rows, ApplyChanges(s, m, changes[..n]).state.rows, CompanyOf(changes[n]))
    ensures Loaded(ApplyChanges(s, m, changes[..n]).state.rows, changes[n])
    decreases n, 1
  {
    assert Loaded(s.rows, changes[n]);
    OtherCompaniesAgree(s, m, changes, n, CompanyOf(changes[n]));
  }

  // --- every run keeps the rows in shape ---------------------------------------------------

  lemma ChangeKeepsInv(s: State, m: Member, ch: Change)
    requires Inv(s.rows) && RowOk(m) && !m.deleted && Loaded(s.rows, ch)
    ensures Inv(ApplyChange(s, m, ch).state.rows)
  {
    match ch
    case Reassign(id, row, role) => SameIdentityKeepsInv(s.rows, id, row.(role := Some(role)));
    case Drop(id, row) => SameIdentityKeepsInv(s.rows, id, s.rows[id].(deleted := true));
    case Add(c, role) =>
      if Upsert(s.rows, Added(m, c, role)).Ok? {
        UpsertKeepsInv(s.rows, Added(m, c, role));
      }
  }

  lemma {:induction false} ChangesKeepInv(s: State, m: Member, changes: seq<Change>, n: nat)
    requires Inv(s.rows) && RowOk(m) && !m.deleted && PlanOk(s.rows, changes) && n <= |changes|
    ensures Inv(ApplyChanges(s, m, changes[..n]).state.rows)
  {
    if n > 0 {
      assert changes[..n][..n - 1] == changes[..n - 1];
      ChangesKeepInv(s, m, changes, n - 1);
      StillLoaded(s, m, changes, n - 1);
      var before := ApplyChanges(s, m, changes[..n - 1]);
      if before.refusal.None? {
        ChangeKeepsInv(before.state, m, changes[n - 1]);
      }
    }
  }

  lemma SyncKeepsInv(s: State, a: Actor, c: Id, id: nat, grants: seq<Grant>, x: Context, o1: Order, o2: Order)
    requires Inv(s.rows)
    ensures Inv(DoSync(s, a, c, id, grants, x, o1, o2).state.rows)
  {
    var plan := SyncPlan(s.rows, a, c, id, grants, x, o1, o2);
    if plan.Ok? {
      PlanIsOk(s.rows, a, c, id, grants, x, o1, o2);
      ChangesKeepInv(s, s.rows[id], plan.value, |plan.value|);
      assert plan.value[..|plan.value|] == plan.value;
    }
  }

  lemma AcceptKeepsInv(s: State, u: Id, invite: nat)
    requires Inv(s.rows)
    ensures Inv(DoAccept(s, u, invite).state.rows)
  {
    if DoAccept(s, u, invite).refusal.None? {
      WriteKeepsInv(s.rows, invite, s.rows[invite].(user := Some(u), activated := true, hasToken := false));
    }
  }

  lemma InvitesKeepInv(s: State, c: Command)
    requires Inv(s.rows) && (c.Invite? || c.InviteMulti? || c.LinkCreator?)
    ensures Inv(Step(s, c).state.rows)
  {
    match c
    case LinkCreator(a, company, owner) =>
      var m := Member(Some(a.user), company, owner, true, false, a.email, false, false, false);
      if Upsert(s.rows, m).Ok? {
        UpsertKeepsInv(s.rows, m);
      }
    case Invite(_, company, email, role, _) =>
      if email != "" && Upsert(s.rows, Invited(email, company, role, false)).Ok? {
        UpsertKeepsInv(s.rows, Invited(email, company, role, false));
      }
    case InviteMulti(_, email, _, active, grants, x) =>
      if email != "" && InvitePlan(s.rows, email, grants, x).Ok? {
        PlannedInvites(s.rows, email, grants, x);
        UpsertAllKeepsInv(s.rows, WithBan(InvitePlan(s.rows, email, grants, x).value, !active));
      }
  }

  lemma RowEditKeepsInv(s: State, c: Command)
    requires Inv(s.rows) && (c.UpdateRole? || c.Remove? || c.SetActive?)
    ensures Inv(Step(s, c).state.rows)
  {
    if Step(s, c).refusal.None? {
      SameIdentityKeepsInv(s.rows, c.id, Step(s, c).state.rows[c.id]);
    }
  }

  lemma StepKeepsInv(s: State, c: Command)
    requires Inv(s.rows)
    ensures Inv(Step(s, c).state.rows)
  {
    match c
    case Accept(user, invite) => AcceptKeepsInv(s, user, invite);
    case Sync(actor, company, id, grants, x, wants, drops) => SyncKeepsInv(s, actor, company, id, grants, x, wants, drops);
    case LinkCreator(_, _, _) => InvitesKeepInv(s, c);
    case Invite(_, _, _, _, _) => InvitesKeepInv(s, c);
    case InviteMulti(_, _, _, _, _, _) => InvitesKeepInv(s, c);
    case UpdateRole(_, _, _, _) => RowEditKeepsInv(s, c);
    case Remove(_, _, _) => RowEditKeepsInv(s, c);
    case SetActive(_, _, _, _, _) => RowEditKeepsInv(s, c);
    case _ =>
  }

  lemma {:induction false} RunKeepsInv(commands: seq<Command>)
    ensures Inv(Run(commands).rows)
  {
    if commands != [] {
      var n := |commands| - 1;
      RunKeepsInv(commands[..n]);
      StepKeepsInv(Run(commands[..n]), commands[n]);
    }
  }
}
