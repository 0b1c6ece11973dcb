/**
 The last-owner guard. As long as the owner role resolves to the same id and a person
 uses one email, every company keeps an activated owner through every run.
 */
module OwnerLaws {
  import opened Results
  import opened Sums
  import opened Memberships
  import opened MembershipLaws
  import opened SyncLaws

  predicate HasOwner(rows: Rows, c: Id, o: Id) {
    exists i :: 0 <= i < |rows| && IsOwner(rows[i], c, o)
  }

  // --- counting owners --------------------------------------------------------------------

  lemma {:induction false} CountedOwnerExists(rows: Rows, c: Id, o: Id)
    requires CountOwners(rows, c, o) >= 1
    ensures HasOwner(rows, c, o)
  {
    var n := |rows| - 1;
    if !IsOwner(rows[n], c, o) {
      CountedOwnerExists(rows[..n], c, o);
      var i :| 0 <= i < n && IsOwner(rows[..n][i], c, o);
      assert IsOwner(rows[i], c, o);
    }
  }

  /** With two counted owners, any one of them can go. */
  lemma {:induction false} AnotherOwner(rows: Rows, c: Id, o: Id, i: nat) returns (j: nat)
    requires CountOwners(rows, c, o) >= 2
    ensures j < |rows| && j != i && IsOwner(rows[j], c, o)
  {
    var n := |rows| - 1;
    if IsOwner(rows[n], c, o) && n != i {
      j := n;
    } else if IsOwner(rows[n], c, o) {
      CountedOwnerExists(rows[..n], c, o);
      j :| 0 <= j < n && IsOwner(rows[..n][j], c, o);
    } else {
      j := AnotherOwner(rows[..n], c, o, i);
    }
  }

  lemma AgreementKeepsOwner(rows: Rows, rows': Rows, c: Id, o: Id)
    requires AgreeOn(rows, rows', c) && HasOwner(rows, c, o)
    ensures HasOwner(rows', c, o)
  {
    var i :| 0 <= i < |rows| && IsOwner(rows[i], c, o);
    assert IsOwner(rows'[i], c, o);
  }

  /** Rewriting one row is safe when the guard let it pass, or when it does not unmake an owner. */
  lemma GuardedWrite(rows: Rows, now: Rows, c: Id, o: Id, i: nat, r: Member)
    requires AgreeOn(rows, now, c) && HasOwner(rows, c, o) && i < |rows|
    requires IsOwner(rows[i], c, o) && !IsOwner(r, c, o) ==> CountOwners(rows, c, o) >= 2
    ensures HasOwner(now[i := r], c, o)
  {
    var j :| 0 <= j < |rows| && IsOwner(rows[j], c, o);
    if j == i && !IsOwner(r, c, o) {
      j := AnotherOwner(rows, c, o, i);
    }
    assert IsOwner(now[i := r][j], c, o);
  }

  // --- inserting never unmakes an owner ----------------------------------------------------

  /** A row written without a user can only meet invitations, which are not activated. */
  lemma InviteKeepsOwner(rows: Rows, m: Member, c: Id, o: Id)
    requires Inv(rows) && m.user.None? && Upsert(rows, m).Ok? && HasOwner(rows, c, o)
    ensures HasOwner(Upsert(rows, m).value, c, o)
  {
    var j :| 0 <= j < |rows| && IsOwner(rows[j], c, o);
    assert RowOk(rows[j]) && !SameKey(rows[j], m);
    assert IsOwner(Upsert(rows, m).value[j], c, o);
  }

  lemma {:induction false} InvitesKeepOwner(rows: Rows, members: seq<Member>, c: Id, o: Id)
    requires Inv(rows) && HasOwner(rows, c, o)
    requires forall k :: 0 <= k < |members| ==> RowOk(members[k]) && !members[k].deleted && members[k].user.None?
    ensures HasOwner(UpsertAll(rows, members).0, c, o)
  {
    if members != [] {
      var n := |members| - 1;
      InvitesKeepOwner(rows, members[..n], c, o);
      UpsertAllKeepsInv(rows, members[..n]);
      var before := UpsertAll(rows, members[..n]).0;
      if Upsert(before, members[n]).Ok? {
        InviteKeepsOwner(before, members[n], c, o);
      }
    }
  }

  /** The creator's own row becomes an owner row, whatever it was before. */
  lemma CreatorOwns(s: State, a: Actor, c: Id, o: Id)
    requires DoLinkCreator(s, a, c, Some(o)).refusal.None?
    ensures HasOwner(DoLinkCreator(s, a, c, Some(o)).state.rows, c, o)
  {
    var m := Member(Some(a.user), c, Some(o), true, false, a.email, false, false, false);
    var found, rows' := Lookup(s.rows, m), Upsert(s.rows, m).value;
    var i := if found.Some? then found.value else |s.rows|;
    assert IsOwner(rows'[i], c, o);
  }

  lemma LinkKeepsOwner(s: State, a: Actor, company: Id, o: Id, c: Id)
    requires HasOwner(s.rows, c, o)
    ensures HasOwner(DoLinkCreator(s, a, company, Some(o)).state.rows, c, o)
  {
    var m := Member(Some(a.user), company, Some(o), true, false, a.email, false, false, false);
    if Upsert(s.rows, m).Ok? {
      if c == company {
        CreatorOwns(s, a, c, o);
      } else {
        UpsertStaysInCompany(s.rows, m, c);
        AgreementKeepsOwner(s.rows, Upsert(s.rows, m).value, c, o);
      }
    }
  }

  // --- a person and an email -----------------------------------------------------------------

  /** Every row of a user carries that user's email. */
  ghost predicate SameEmail(rows: Rows, emailOf: Id -> string) {
    forall i :: 0 <= i < |rows| ==> EmailFits(rows[i], emailOf)
  }

  ghost predicate EmailFits(r: Member, emailOf: Id -> string) {
    !r.deleted && r.user.Some? ==> r.email == emailOf(r.user.value)
  }

  /** What is assumed of the surroundings: one owner role, and one email per person. */
  ghost predicate Honest(s: State, c: Command, o: Id, emailOf: Id -> string) {
    match c
    case LinkCreator(a, _, owner) => owner == Some(o) && a.email == emailOf(a.user)
    case Accept(u, invite) => Live(s.rows, invite) ==> s.rows[invite].email == emailOf(u)
    case UpdateRole(company, _, _, x) => OwnerIn(x, company) == Some(o)
    case Remove(company, _, x) => OwnerIn(x, company) == Some(o)
    case Sync(_, _, _, _, x, _, _) => forall company :: company in x.visible ==> OwnerIn(x, company) == Some(o)
    case _ => true
  }

  ghost predicate HonestRun(commands: seq<Command>, o: Id, emailOf: Id -> string) {
    commands == [] ||
    var n := |commands| - 1;
    HonestRun(commands[..n], o, emailOf) && Honest(Run(commands[..n]), commands[n], o, emailOf)
  }

  lemma UpsertKeepsEmails(rows: Rows, m: Member, emailOf: Id -> string)
    requires SameEmail(rows, emailOf) && EmailFits(m, emailOf) && !m.deleted && Upsert(rows, m).Ok?
    ensures SameEmail(Upsert(rows, m).value, emailOf)
  {
    var found, rows' := Lookup(rows, m), Upsert(rows, m).value;
    if found.Some? {
      assert EmailFits(rows[found.value], emailOf);
    }
  }

  lemma {:induction false} UpsertAllKeepsEmails(rows: Rows, members: seq<Member>, emailOf: Id -> string)
    requires SameEmail(rows, emailOf) && forall k :: 0 <= k < |members| ==> members[k].user.None? && !members[k].deleted
    ensures SameEmail(UpsertAll(rows, members).0, emailOf)
  {
    if members != [] {
      var n := |members| - 1;
      UpsertAllKeepsEmails(rows, members[..n], emailOf);
      var before := UpsertAll(rows, members[..n]).0;
      if Upsert(before, members[n]).Ok? {
        UpsertKeepsEmails(before, members[n], emailOf);
      }
    }
  }

  lemma {:induction false} ChangesKeepEmails(s: State, m: Member, changes: seq<Change>, n: nat, emailOf: Id -> string)
    requires SameEmail(s.rows, emailOf) && EmailFits(m, emailOf) && !m.deleted
    requires PlanOk(s.rows, changes) && n <= |changes|
    ensures SameEmail(ApplyChanges(s, m, changes[..n]).state.rows, emailOf)
  {
    if n > 0 {
      assert changes[..n][..n - 1] == changes[..n - 1];
      ChangesKeepEmails(s, m, changes, n - 1, emailOf);
      StillLoaded(s, m, changes, n - 1);
      var before, ch := ApplyChanges(s, m, changes[..n - 1]), changes[n - 1];
      if before.refusal.None? {
        ChangeKeepsEmails(before.state, m, ch, emailOf);
      }
    }
  }

  lemma ChangeKeepsEmails(s: State, m: Member, ch: Change, emailOf: Id -> string)
    requires SameEmail(s.rows, emailOf) && EmailFits(m, emailOf) && !m.deleted && Loaded(s.rows, ch)
    ensures SameEmail(ApplyChange(s, m, ch).state.rows, emailOf)
  {
    if ch.Add? {
      if Upsert(s.rows, Added(m, ch.company, ch.role)).Ok? {
        UpsertKeepsEmails(s.rows, Added(m, ch.company, ch.role), emailOf);
      }
    } else {
      assert EmailFits(s.rows[ch.id], emailOf);
    }
  }

  lemma SyncKeepsEmails(s: State, c: Command, emailOf: Id -> string)
    requires SameEmail(s.rows, emailOf) && c.Sync?
    ensures SameEmail(Step(s, c).state.rows, emailOf)
  {
    var plan := SyncPlan(s.rows, c.actor, c.company, c.id, c.grants, c.context, c.wantOrder, c.dropOrder);
    if plan.Ok? {
      PlanIsOk(s.rows, c.actor, c.company, c.id, c.grants, c.context, c.wantOrder, c.dropOrder);
      ChangesKeepEmails(s, s.rows[c.id], plan.value, |plan.value|, emailOf);
      assert plan.value[..|plan.value|] == plan.value;
    }
  }

  lemma StepKeepsEmails(s: State, c: Command, o: Id, emailOf: Id -> string)
    requires SameEmail(s.rows, emailOf) && Honest(s, c, o, emailOf)
    ensures SameEmail(Step(s, c).state.rows, emailOf)
  {
    match c
    case LinkCreator(a, company, owner) =>
      var m := Member(Some(a.user), company, owner, true, false, a.email, false, false, false);
      if Upsert(s.rows, m).Ok? {
        UpsertKeepsEmails(s.rows, m, emailOf);
      }
    case Invite(_, company, email, role, _) =>
      if Upsert(s.rows, Invited(email, company, role, false)).Ok? {
        UpsertKeepsEmails(s.rows, Invited(email, company, role, false), emailOf);
      }
    case InviteMulti(_, email, _, active, grants, x) =>
      if InvitePlan(s.rows, email, grants, x).Ok? {
        PlannedInvites(s.rows, email, grants, x);
        UpsertAllKeepsEmails(s.rows, WithBan(InvitePlan(s.rows, email, grants, x).value, !active), emailOf);
      }
    case Sync(_, _, _, _, _, _, _) => SyncKeepsEmails(s, c, emailOf);
    case Accept(u, invite) =>
    case _ => RowCallKeepsEmails(s, c, emailOf);
  }

  lemma RowCallKeepsEmails(s: State, c: Command, emailOf: Id -> string)
    requires SameEmail(s.rows, emailOf)
    requires c.UpdateRole? || c.Remove? || c.SetActive? || c.Resolve? || c.Expire?
    ensures SameEmail(Step(s, c).state.rows, emailOf)
  {
    if (c.UpdateRole? || c.Remove? || c.SetActive?) && Step(s, c).refusal.None? {
      assert EmailFits(s.rows[c.id], emailOf);
    }
  }

  // --- the guard over a whole sync ----------------------------------------------------------

  /** What the validation loop established about a planned change. */
  predicate Guarded(rows: Rows, email: string, x: Context, ch: Change) {
    match ch
    case Add(c, _) => LastByEmail(rows, email, c).None?
    case Reassign(_, row, role) => !GuardBlocks(rows, row.company, OwnerIn(x, row.company), row.role, Some(role))
    case Drop(_, row) => !GuardBlocks(rows, row.company, OwnerIn(x, row.company), row.role, None)
  }

  ghost predicate AllGuarded(rows: Rows, email: string, x: Context, changes: seq<Change>) {
    forall k :: 0 <= k < |changes| ==> Guarded(rows, email, x, changes[k])
  }

  lemma {:induction false} WantsGuarded(rows: Rows, email: string, want: map<Id, Id>, order: seq<Id>, x: Context)
    requires PlanWants(rows, email, want, order, x).Ok?
    ensures AllGuarded(rows, email, x, PlanWants(rows, email, want, order, x).value)
  {
    if order != [] {
      WantsGuarded(rows, email, want, order[..|order| - 1], x);
    }
  }

  lemma {:induction false} DropsGuarded(rows: Rows, email: string, want: map<Id, Id>, order: seq<Id>, x: Context)
    requires PlanDrops(rows, email, want, order, x).Ok?
    ensures AllGuarded(rows, email, x, PlanDrops(rows, email, want, order, x).value)
  {
    if order != [] {
      DropsGuarded(rows, email, want, order[..|order| - 1], x);
    }
  }

  lemma SyncIsGuarded(rows: Rows, a: Actor, c: Id, id: nat, grants: seq<Grant>, x: Context, o1: Order, o2: Order)
    requires SyncPlan(rows, a, c, id, grants, x, o1, o2).Ok?
    ensures AllGuarded(rows, rows[id].email, x, SyncPlan(rows, a, c, id, grants, x, o1, o2).value)
  {
    WantsGuarded(rows, rows[id].email, Want(grants, x).value, o1, x);
    DropsGuarded(rows, rows[id].email, Want(grants, x).value, o2, x);
  }

  /** Adding the company does not overwrite the user's own row as the last activated owner. */
  predicate AddIsSafe(rows: Rows, m: Member, c: Id, role: Id, o: Id) {
    m.user.None? ||
    var found := FindUser(rows, m.user.value, c);
    found.None? || role == o || !IsOwner(rows[found.value], c, o) || CountOwners(rows, c, o) >= 2
  }

  lemma AddKeepsOwner(rows: Rows, now: Rows, m: Member, c: Id, role: Id, o: Id)
    requires Inv(now) && RowOk(m) && !m.deleted && NoRowOf(rows, m.email, c) && AgreeOn(rows, now, c)
    requires AddIsSafe(rows, m, c, role, o) && HasOwner(rows, c, o)
    ensures Upsert(now, Added(m, c, role)).Ok? && HasOwner(Upsert(now, Added(m, c, role)).value, c, o)
  {
    var n := Added(m, c, role);
    assert NoRowOf(now, m.email, c);
    AddRewritesOwnRow(now, m, c, role);
    var found := Lookup(now, n);
    if found.None? {
      var j :| 0 <= j < |rows| && IsOwner(rows[j], c, o);
      assert IsOwner((now + [n])[j], c, o);
    } else {
      SameLookup(rows, now, n);
      GuardedWrite(rows, now, c, o, found.value, Patch(now[found.value], n));
    }
  }

  /** One planned change keeps the owner of its own company. */
  lemma GuardedChangeKeepsOwner(s: State, now: State, m: Member, x: Context, ch: Change, o: Id)
    requires Inv(now.rows) && Loaded(s.rows, ch) && Loaded(now.rows, ch) && AgreeOn(s.rows, now.rows, CompanyOf(ch))
    requires RowOk(m) && !m.deleted
    requires Guarded(s.rows, m.email, x, ch) && OwnerIn(x, CompanyOf(ch)) == Some(o)
    requires ch.Add? ==> AddIsSafe(s.rows, m, ch.company, ch.role, o)
    requires HasOwner(s.rows, CompanyOf(ch), o)
    ensures HasOwner(ApplyChange(now, m, ch).state.rows, CompanyOf(ch), o)
  {
    var c := CompanyOf(ch);
    match ch
    case Reassign(id, row, role) => GuardedWrite(s.rows, now.rows, c, o, id, row.(role := Some(role)));
    case Drop(id, row) => GuardedWrite(s.rows, now.rows, c, o, id, row.(deleted := true));
    case Add(_, role) => AddKeepsOwner(s.rows, now.rows, m, c, role, o);
  }

  ghost predicate SafeAdds(rows: Rows, m: Member, changes: seq<Change>, c: Id, o: Id) {
    forall k :: 0 <= k < |changes| && changes[k].Add? && changes[k].company == c ==> AddIsSafe(rows, m, c, changes[k].role, o)
  }

  lemma OneChangeKeepsOwner(s: State, now: State, m: Member, x: Context, ch: Change, c: Id, o: Id)
    requires Inv(now.rows) && Loaded(s.rows, ch) && Loaded(now.rows, ch) && AgreeOn(s.rows, now.rows, CompanyOf(ch))
    requires RowOk(m) && !m.deleted && Guarded(s.rows, m.email, x, ch) && OwnerIn(x, CompanyOf(ch)) == Some(o)
    requires ch.Add? && ch.company == c ==> AddIsSafe(s.rows, m, c, ch.role, o)
    requires HasOwner(s.rows, c, o) && HasOwner(now.rows, c, o)
    ensures HasOwner(ApplyChange(now, m, ch).state.rows, c, o)
  {
    if CompanyOf(ch) == c {
      GuardedChangeKeepsOwner(s, now, m, x, ch, o);
    } else {
      ChangeStaysInCompany(now, m, ch, c);
      AgreementKeepsOwner(now.rows, ApplyChange(now, m, ch).state.rows, c, o);
    }
  }

  /** What validation established about every planned change, as far as company c goes. */
  ghost predicate SafePlan(rows: Rows, m: Member, x: Context, changes: seq<Change>, c: Id, o: Id) {
    forall k :: 0 <= k < |changes| ==>
      && Guarded(rows, m.email, x, changes[k]) && OwnerIn(x, CompanyOf(changes[k])) == Some(o)
      && (changes[k].Add? && changes[k].company == c ==> AddIsSafe(rows, m, c, changes[k].role, o))
  }

  lemma NextChangeKeepsOwner(s: State, m: Member, x: Context, changes: seq<Change>, n: nat, c: Id, o: Id)
    requires Inv(s.rows) && RowOk(m) && !m.deleted && PlanOk(s.rows, changes) && n < |changes|
    requires SafePlan(s.rows, m, x, changes, c, o) && HasOwner(s.rows, c, o)
    requires HasOwner(ApplyChanges(s, m, changes[..n]).state.rows, c, o)
    ensures HasOwner(ApplyChange(ApplyChanges(s, m, changes[..n]).state, m, changes[n]).state.rows, c, o)
  {
    StillLoaded(s, m, changes, n);
    ChangesKeepInv(s, m, changes, n);
    OneChangeKeepsOwner(s, ApplyChanges(s, m, changes[..n]).state, m, x, changes[n], c, o);
  }

  lemma {:induction false} SafeChangesKeepOwner(s: State, m: Member, x: Context, changes: seq<Change>, n: nat, c: Id, o: Id)
    requires Inv(s.rows) && RowOk(m) && !m.deleted && PlanOk(s.rows, changes) && n <= |changes|
    requires SafePlan(s.rows, m, x, changes, c, o) && HasOwner(s.rows, c, o)
    ensures HasOwner(ApplyChanges(s, m, changes[..n]).state.rows, c, o)
  {
    if n == 0 {
      assert ApplyChanges(s, m, changes[..0]).state == s;
    } else {
      SafeChangesKeepOwner(s, m, x, changes, n - 1, c, o);
      NextChangeKeepsOwner(s, m, x, changes, n - 1, c, o);
      ApplySnoc(s, m, changes, n - 1);
    }
  }

  lemma ChangesKeepOwner(s: State, m: Member, x: Context, changes: seq<Change>, c: Id, o: Id)
    requires Inv(s.rows) && RowOk(m) && !m.deleted && PlanOk(s.rows, changes)
    requires AllGuarded(s.rows, m.email, x, changes) && AllVisible(changes, x.visible) && SafeAdds(s.rows, m, changes, c, o)
    requires forall company :: company in x.visible ==> OwnerIn(x, company) == Some(o)
    requires HasOwner(s.rows, c, o)
    ensures HasOwner(ApplyChanges(s, m, changes).state.rows, c, o)
  {
    PlanIsSafe(s.rows, m, x, changes, c, o);
    SafeChangesKeepOwner(s, m, x, changes, |changes|, c, o);
    assert changes[..|changes|] == changes;
  }

  lemma PlanIsSafe(rows: Rows, m: Member, x: Context, changes: seq<Change>, c: Id, o: Id)
    requires AllGuarded(rows, m.email, x, changes) && AllVisible(changes, x.visible) && SafeAdds(rows, m, changes, c, o)
    requires forall company :: company in x.visible ==> OwnerIn(x, company) == Some(o)
    ensures SafePlan(rows, m, x, changes, c, o)
  {
    forall k | 0 <= k < |changes|
      ensures Guarded(rows, m.email, x, changes[k]) && OwnerIn(x, CompanyOf(changes[k])) == Some(o)
    {
      assert CompanyOf(changes[k]) in x.visible;
    }
  }

  /** A person's rows in the visible companies all carry the email that the sync searches by. */
  predicate OneEmail(rows: Rows, m: Member, visible: set<Id>) {
    m.user.Some? ==>
      forall i :: 0 <= i < |rows| && !rows[i].deleted && rows[i].user == m.user && rows[i].company in visible ==>
                    rows[i].email == m.email
  }

  /** Under one email, an added company is also one without a row of the user. */
  lemma AddedIsNew(rows: Rows, m: Member, visible: set<Id>, c: Id, role: Id)
    requires OneEmail(rows, m, visible) && c in visible && NoRowOf(rows, m.email, c)
    ensures Lookup(rows, Added(m, c, role)).None?
  {
    forall i | 0 <= i < |rows|
      ensures !SameKey(rows[i], Added(m, c, role))
    {
      assert !EmailRow(rows[i], m.email, c);
    }
  }

  lemma OneEmailIsSafe(rows: Rows, m: Member, visible: set<Id>, changes: seq<Change>, x: Context, c: Id, o: Id)
    requires OneEmail(rows, m, visible) && AllVisible(changes, visible) && AllGuarded(rows, m.email, x, changes)
    ensures SafeAdds(rows, m, changes, c, o)
  {
    forall k | 0 <= k < |changes| && changes[k].Add? && changes[k].company == c
      ensures AddIsSafe(rows, m, c, changes[k].role, o)
    {
      assert Guarded(rows, m.email, x, changes[k]) && CompanyOf(changes[k]) in visible;
      AddedIsNew(rows, m, visible, c, changes[k].role);
    }
  }

  // --- exactly when a sync loses the owner -----------------------------------------------------

  lemma {:induction false} OnlyOwner(rows: Rows, c: Id, o: Id, i: nat, j: nat)
    requires CountOwners(rows, c, o) <= 1 && i < |rows| && j < |rows| && i != j && IsOwner(rows[i], c, o)
    ensures !IsOwner(rows[j], c, o)
  {
    var n := |rows| - 1;
    if i < n && j < n {
      OnlyOwner(rows[..n], c, o, i, j);
    } else {
      var k := if i < n then i else j;
      OwnerIsCounted(rows[..n], c, o, k);
    }
  }

  lemma {:induction false} OwnerIsCounted(rows: Rows, c: Id, o: Id, i: nat)
    requires i < |rows|
    ensures IsOwner(rows[i], c, o) ==> CountOwners(rows, c, o) >= 1
  {
    if i < |rows| - 1 {
      OwnerIsCounted(rows[..|rows| - 1], c, o, i);
    }
  }

  lemma UnsafeAddLosesOwner(rows: Rows, now: Rows, m: Member, c: Id, role: Id, o: Id)
    requires Inv(now) && RowOk(m) && !m.deleted && NoRowOf(rows, m.email, c) && AgreeOn(rows, now, c)
    requires !AddIsSafe(rows, m, c, role, o)
    ensures Upsert(now, Added(m, c, role)).Ok? && !HasOwner(Upsert(now, Added(m, c, role)).value, c, o)
  {
    var n := Added(m, c, role);
    assert NoRowOf(now, m.email, c);
    AddRewritesOwnRow(now, m, c, role);
    SameLookup(rows, now, n);
    var i := Lookup(now, n).value;
    var rows' := Upsert(now, n).value;
    forall j | 0 <= j < |rows'|
      ensures !IsOwner(rows'[j], c, o)
    {
      if j < |rows| && j != i {
        OnlyOwner(rows, c, o, i, j);
      }
    }
  }

  lemma {:induction false} OwnerStaysLost(s: State, m: Member, changes: seq<Change>, k: nat, n: nat, c: Id, o: Id)
    requires Inv(s.rows) && RowOk(m) && !m.deleted && PlanOk(s.rows, changes) && k < n <= |changes|
    requires changes[k].Add? && changes[k].company == c && NoRowOf(s.rows, m.email, c)
    requires !AddIsSafe(s.rows, m, c, changes[k].role, o)
    requires ApplyChanges(s, m, changes[..n - 1]).refusal.None?
    ensures !HasOwner(ApplyChanges(s, m, changes[..n]).state.rows, c, o)
    decreases n
  {
    assert changes[..n][..n - 1] == changes[..n - 1];
    var before, ch := ApplyChanges(s, m, changes[..n - 1]), changes[n - 1];
    StillLoaded(s, m, changes, n - 1);
    assert ApplyChanges(s, m, changes[..n]) == ApplyChange(before.state, m, ch);
    if k == n - 1 {
      ChangesKeepInv(s, m, changes, n - 1);
      UnsafeAddLosesOwner(s.rows, before.state.rows, m, c, ch.role, o);
    } else {
      assert changes[..n - 1][..n - 2] == changes[..n - 2];
      OwnerStaysLost(s, m, changes, k, n - 1, c, o);
      ChangeStaysInCompany(before.state, m, ch, c);
      StaysLost(before.state.rows, ApplyChange(before.state, m, ch).state.rows, c, o);
    }
  }

  lemma StaysLost(rows: Rows, rows': Rows, c: Id, o: Id)
    requires AgreeOn(rows, rows', c) && !HasOwner(rows, c, o)
    ensures !HasOwner(rows', c, o)
  {
    forall j | 0 <= j < |rows'|
      ensures !IsOwner(rows'[j], c, o)
    {
      assert j < |rows| ==> !IsOwner(rows[j], c, o);
    }
  }

  /** The missing guard: the company is to be added under an email it does not know, over the user's own last owner row. */
  predicate Overwrites(rows: Rows, m: Member, want: map<Id, Id>, c: Id, o: Id) {
    c in want && LastByEmail(rows, m.email, c).None? && !AddIsSafe(rows, m, c, want[c], o)
  }

  /** An accepted sync costs a company its last activated owner exactly when it overwrites that owner's row. */
  lemma SyncLosesOwnerExactlyWhen(
    s: State, a: Actor, c: Id, id: nat, grants: seq<Grant>, x: Context, o1: Order, o2: Order, company: Id, o: Id)
    requires Inv(s.rows) && SyncPlan(s.rows, a, c, id, grants, x, o1, o2).Ok? && HasOwner(s.rows, company, o)
    requires forall place :: place in x.visible ==> OwnerIn(x, place) == Some(o)
    requires VisitsAll(s.rows, s.rows[id].email, Want(grants, x).value, x.visible, o1, o2)
    ensures !HasOwner(DoSync(s, a, c, id, grants, x, o1, o2).state.rows, company, o)
       <==> Overwrites(s.rows, s.rows[id], Want(grants, x).value, company, o)
  {
    var m, want, changes := s.rows[id], Want(grants, x).value, SyncPlan(s.rows, a, c, id, grants, x, o1, o2).value;
    var n := |changes|;
    PlanIsPlanned(s.rows, a, c, id, grants, x, o1, o2);
    assert changes[..n] == changes;
    if Overwrites(s.rows, m, want, company, o) {
      PlanContains(s.rows, a, c, id, grants, x, o1, o2, company);
      var k :| 0 <= k < n && changes[k] == Add(company, want[company]);
      WritesSucceed(s, m, want, x.visible, changes, n - 1);
      OwnerStaysLost(s, m, changes, k, n, company, o);
    } else {
      WantIsVisible(grants, x);
      SyncIsGuarded(s.rows, a, c, id, grants, x, o1, o2);
      PlanIsVisible(s.rows, m.email, want, x.visible, changes);
      OtherwiseSafe(s.rows, m, want, x.visible, changes, company, o);
      ChangesKeepOwner(s, m, x, changes, company, o);
    }
  }

  lemma OtherwiseSafe(rows: Rows, m: Member, want: map<Id, Id>, visible: set<Id>, changes: seq<Change>, c: Id, o: Id)
    requires PlannedFor(rows, m.email, want, visible, changes) && !Overwrites(rows, m, want, c, o)
    ensures SafeAdds(rows, m, changes, c, o)
  {
    forall k | 0 <= k < |changes| && changes[k].Add? && changes[k].company == c
      ensures AddIsSafe(rows, m, c, changes[k].role, o)
    {
      assert Expected(rows, m.email, want, visible, CompanyOf(changes[k])) == Some(changes[k]);
    }
  }

  lemma SyncKeepsOwner(s: State, c: Command, company: Id, o: Id, emailOf: Id -> string)
    requires Inv(s.rows) && SameEmail(s.rows, emailOf) && c.Sync? && Honest(s, c, o, emailOf) && HasOwner(s.rows, company, o)
    ensures HasOwner(Step(s, c).state.rows, company, o)
  {
    var x := c.context;
    var plan := SyncPlan(s.rows, c.actor, c.company, c.id, c.grants, x, c.wantOrder, c.dropOrder);
    if plan.Ok? {
      var m := s.rows[c.id];
      PlanIsPlanned(s.rows, c.actor, c.company, c.id, c.grants, x, c.wantOrder, c.dropOrder);
      SyncIsGuarded(s.rows, c.actor, c.company, c.id, c.grants, x, c.wantOrder, c.dropOrder);
      WantIsVisible(c.grants, x);
      PlanIsVisible(s.rows, m.email, Want(c.grants, x).value, x.visible, plan.value);
      UserHasOneEmail(s.rows, m, x.visible, emailOf, c.id);
      OneEmailIsSafe(s.rows, m, x.visible, plan.value, x, company, o);
      ChangesKeepOwner(s, m, x, plan.value, company, o);
    }
  }

  lemma UserHasOneEmail(rows: Rows, m: Member, visible: set<Id>, emailOf: Id -> string, id: nat)
    requires SameEmail(rows, emailOf) && Live(rows, id) && rows[id] == m
    ensures OneEmail(rows, m, visible)
  {
    forall i | 0 <= i < |rows| && !rows[i].deleted && m.user.Some? && rows[i].user == m.user
      ensures rows[i].email == m.email
    {
      assert EmailFits(rows[i], emailOf) && EmailFits(rows[id], emailOf);
    }
  }

  // --- every call, every run ---------------------------------------------------------------

  lemma RowCallKeepsOwner(s: State, c: Command, company: Id, o: Id, emailOf: Id -> string)
    requires Honest(s, c, o, emailOf) && HasOwner(s.rows, company, o)
    requires c.UpdateRole? || c.Remove? || c.SetActive?
    ensures HasOwner(Step(s, c).state.rows, company, o)
  {
    if Step(s, c).refusal.None? {
      GuardedWrite(s.rows, s.rows, company, o, c.id, Step(s, c).state.rows[c.id]);
    }
  }

  lemma AcceptKeepsOwner(s: State, u: Id, invite: nat, c: Id, o: Id)
    requires HasOwner(s.rows, c, o)
    ensures HasOwner(DoAccept(s, u, invite).state.rows, c, o)
  {
    if DoAccept(s, u, invite).refusal.None? {
      GuardedWrite(s.rows, s.rows, c, o, invite, DoAccept(s, u, invite).state.rows[invite]);
    }
  }

  lemma InviteCallKeepsOwner(s: State, c: Command, company: Id, o: Id)
    requires Inv(s.rows) && HasOwner(s.rows, company, o) && (c.Invite? || c.InviteMulti?)
    ensures HasOwner(Step(s, c).state.rows, company, o)
  {
    match c
    case Invite(_, place, email, role, _) =>
      if Upsert(s.rows, Invited(email, place, role, false)).Ok? {
        InviteKeepsOwner(s.rows, Invited(email, place, role, false), company, o);
      }
    case InviteMulti(_, email, _, active, grants, x) =>
      if email != "" && InvitePlan(s.rows, email, grants, x).Ok? {
        PlannedInvites(s.rows, email, grants, x);
        InvitesKeepOwner(s.rows, WithBan(InvitePlan(s.rows, email, grants, x).value, !active), company, o);
      }
  }

  lemma StepKeepsOwner(s: State, c: Command, company: Id, o: Id, emailOf: Id -> string)
    requires Inv(s.rows) && SameEmail(s.rows, emailOf) && Honest(s, c, o, emailOf) && HasOwner(s.rows, company, o)
    ensures HasOwner(Step(s, c).state.rows, company, o)
  {
    match c
    case LinkCreator(a, place, _) => LinkKeepsOwner(s, a, place, o, company);
    case Accept(u, invite) => AcceptKeepsOwner(s, u, invite, company, o);
    case Sync(_, _, _, _, _, _, _) => SyncKeepsOwner(s, c, company, o, emailOf);
    case Invite(_, _, _, _, _) => InviteCallKeepsOwner(s, c, company, o);
    case InviteMulti(_, _, _, _, _, _) => InviteCallKeepsOwner(s, c, company, o);
    case Resolve(_, _, _, _) =>
    case Expire(_, _) =>
    case _ => RowCallKeepsOwner(s, c, company, o, emailOf);
  }

  lemma {:induction false} HonestRunKeepsEmails(commands: seq<Command>, o: Id, emailOf: Id -> string)
    requires HonestRun(commands, o, emailOf)
    ensures SameEmail(Run(commands).rows, emailOf)
  {
    if commands != [] {
      var n := |commands| - 1;
      HonestRunKeepsEmails(commands[..n], o, emailOf);
      StepKeepsEmails(Run(commands[..n]), commands[n], o, emailOf);
    }
  }

  lemma {:induction false} OwnersRemain(commands: seq<Command>, n: nat, c: Id, o: Id, emailOf: Id -> string)
    requires n <= |commands| && HonestRun(commands, o, emailOf) && HasOwner(Run(commands[..n]).rows, c, o)
    ensures HasOwner(Run(commands).rows, c, o)
    decreases |commands|
  {
    if n == |commands| {
      assert commands[..n] == commands;
    } else {
      var last := |commands| - 1;
      assert commands[..last][..n] == commands[..n];
      OwnersRemain(commands[..last], n, c, o, emailOf);
      RunKeepsInv(commands[..last]);
      HonestRunKeepsEmails(commands[..last], o, emailOf);
      StepKeepsOwner(Run(commands[..last]), commands[last], c, o, emailOf);
    }
  }

  lemma {:induction false} HonestPrefix(commands: seq<Command>, n: nat, o: Id, emailOf: Id -> string)
    requires n <= |commands| && HonestRun(commands, o, emailOf)
    ensures HonestRun(commands[..n], o, emailOf)
    decreases |commands|
  {
    if n == |commands| {
      assert commands[..n] == commands;
    } else {
      assert commands[..|commands| - 1][..n] == commands[..n];
      HonestPrefix(commands[..|commands| - 1], n, o, emailOf);
    }
  }

  /** Right after its creator is linked, the company has an owner. */
  lemma LinkedAt(commands: seq<Command>, n: nat, o: Id)
    requires n < |commands| && commands[n].LinkCreator? && commands[n].owner == Some(o)
    requires Step(Run(commands[..n]), commands[n]).refusal.None?
    ensures HasOwner(Run(commands[..n + 1]).rows, commands[n].company, o)
  {
    assert commands[..n + 1][..n] == commands[..n];
    CreatorOwns(Run(commands[..n]), commands[n].actor, commands[n].company, o);
  }

  lemma HonestLink(commands: seq<Command>, n: nat, o: Id, emailOf: Id -> string)
    requires n < |commands| && HonestRun(commands, o, emailOf) && commands[n].LinkCreator?
    ensures commands[n].owner == Some(o)
  {
    HonestPrefix(commands, n + 1, o, emailOf);
    assert commands[..n + 1][..n] == commands[..n] && commands[..n + 1][n] == commands[n];
  }

  /** Once its creator is linked, a company has an activated owner row at the end of every run. */
  lemma EveryCompanyKeepsAnOwner(commands: seq<Command>, n: nat, o: Id, emailOf: Id -> string)
    requires n < |commands| && HonestRun(commands, o, emailOf) && commands[n].LinkCreator?
    requires Step(Run(commands[..n]), commands[n]).refusal.None?
    ensures HasOwner(Run(commands).rows, commands[n].company, o)
  {
    HonestLink(commands, n, o, emailOf);
    LinkedAt(commands, n, o);
    OwnersRemain(commands, n + 1, commands[n].company, o, emailOf);
  }
}
