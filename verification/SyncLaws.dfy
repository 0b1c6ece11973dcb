/**
 SyncAssignments: what is validated first is enough for every write to succeed, and the
 writes leave the person in exactly the requested companies.
 */
module SyncLaws {
  import opened Results
  import opened Sums
  import opened Memberships
  import opened MembershipLaws

  predicate NoRowOf(rows: Rows, email: string, c: Id) {
    forall i :: 0 <= i < |rows| ==> !EmailRow(rows[i], email, c)
  }

  // --- validated writes succeed ---------------------------------------------------------

  /** Adding a company in which the email has no row cannot break an index. */
  lemma AddSucceeds(rows: Rows, m: Member)
    requires Inv(rows) && RowOk(m) && !m.deleted && NoRowOf(rows, m.email, m.company)
    ensures Upsert(rows, m).Ok?
    ensures Lookup(rows, m).None? ==> Upsert(rows, m).value == rows + [m]
  {
    var found := Lookup(rows, m);
    var i := if found.Some? then found.value else |rows|;
    var r := if found.Some? then Patch(rows[i], m) else m;
    forall j | 0 <= j < |rows| && j != i
      ensures !Conflicts(rows[j], r)
    {
      assert !EmailRow(rows[j], m.email, m.company);
      if found.Some? {
        assert !Conflicts(rows[j], rows[i]);
      } else {
        assert !SameKey(rows[j], m);
      }
    }
  }

  /** An added company really was one without a row of the email. */
  lemma PlannedAdds(rows: Rows, email: string, want: map<Id, Id>, visible: set<Id>, ch: Change)
    requires Expected(rows, email, want, visible, CompanyOf(ch)) == Some(ch)
    ensures ch.Add? ==> NoRowOf(rows, email, ch.company)
  {
  }

  ghost predicate PlannedFor(rows: Rows, email: string, want: map<Id, Id>, visible: set<Id>, changes: seq<Change>) {
    && PlanOk(rows, changes)
    && (forall k :: 0 <= k < |changes| ==> Expected(rows, email, want, visible, CompanyOf(changes[k])) == Some(changes[k]))
  }

  lemma PlanIsPlanned(rows: Rows, a: Actor, c: Id, id: nat, grants: seq<Grant>, x: Context, o1: seq<Id>, o2: seq<Id>)
    requires Distinct(o1) && Distinct(o2) && SyncPlan(rows, a, c, id, grants, x, o1, o2).Ok?
    ensures PlannedFor(rows, rows[id].email, Want(grants, x).value, x.visible, SyncPlan(rows, a, c, id, grants, x, o1, o2).value)
  {
    PlanIsOk(rows, a, c, id, grants, x, o1, o2);
    var email, want := rows[id].email, Want(grants, x).value;
    WantsCover(rows, email, want, o1, x);
    DropsCover(rows, email, want, o2, x);
  }

  lemma {:induction false} WritesSucceed(s: State, m: Member, want: map<Id, Id>, visible: set<Id>, changes: seq<Change>, n: nat)
    requires Inv(s.rows) && RowOk(m) && !m.deleted && n <= |changes|
    requires PlannedFor(s.rows, m.email, want, visible, changes)
    ensures ApplyChanges(s, m, changes[..n]).refusal.None?
  {
    if n > 0 {
      assert changes[..n][..n - 1] == changes[..n - 1];
      var ch := changes[n - 1];
      WritesSucceed(s, m, want, visible, changes, n - 1);
      ChangesKeepInv(s, m, changes, n - 1);
      StillLoaded(s, m, changes, n - 1);
      PlannedAdds(s.rows, m.email, want, visible, ch);
      if ch.Add? {
        var before := ApplyChanges(s, m, changes[..n - 1]).state.rows;
        assert NoRowOf(before, m.email, ch.company);
        AddSucceeds(before, Added(m, ch.company, ch.role));
      }
    }
  }

  /**
   All or nothing: once the plan is accepted, no write fails; a sync whose plan is refused
   reports that refusal and changes nothing.
   */
  lemma SyncNeverStopsHalfway(s: State, a: Actor, c: Id, id: nat, grants: seq<Grant>, x: Context, o1: Order, o2: Order)
    requires Inv(s.rows)
    ensures var plan, written := SyncPlan(s.rows, a, c, id, grants, x, o1, o2), DoSync(s, a, c, id, grants, x, o1, o2);
            && (written.refusal.None? <==> plan.Ok?)
            && (plan.Err? ==> SyncReport(written, c, id) == Some(plan.error) && written.state == s)
  {
    var plan := SyncPlan(s.rows, a, c, id, grants, x, o1, o2);
    if plan.Ok? {
      PlanIsPlanned(s.rows, a, c, id, grants, x, o1, o2);
      WritesSucceed(s, s.rows[id], Want(grants, x).value, x.visible, plan.value, |plan.value|);
      assert plan.value[..|plan.value|] == plan.value;
    }
  }

  // --- the random order of the map loops ---------------------------------------------------

  predicate WantPasses(rows: Rows, email: string, want: map<Id, Id>, c: Id, x: Context) {
    c in want ==> WantChange(rows, email, want, c, x).Ok?
  }

  lemma {:induction false} WantsPassExactlyWhen(rows: Rows, email: string, want: map<Id, Id>, order: seq<Id>, x: Context)
    ensures var plan := PlanWants(rows, email, want, order, x);
            && (plan.Ok? <==> forall c :: c in order ==> WantPasses(rows, email, want, c, x))
            && (plan.Err? ==> exists c :: c in order && c in want && WantChange(rows, email, want, c, x) == Err(plan.error))
  {
    if order != [] {
      var n := |order| - 1;
      WantsPassExactlyWhen(rows, email, want, order[..n], x);
      assert order == order[..n] + [order[n]];
      assert order[n] in order && forall c :: c in order[..n] ==> c in order;
    }
  }

  lemma {:induction false} DropsPassExactlyWhen(rows: Rows, email: string, want: map<Id, Id>, order: seq<Id>, x: Context)
    ensures var plan := PlanDrops(rows, email, want, order, x);
            && (plan.Ok? <==> forall c :: c in order ==> DropChange(rows, email, want, c, x).Ok?)
            && (plan.Err? ==> exists c :: c in order && DropChange(rows, email, want, c, x) == Err(plan.error))
  {
    if order != [] {
      var n := |order| - 1;
      DropsPassExactlyWhen(rows, email, want, order[..n], x);
      assert order == order[..n] + [order[n]];
      assert order[n] in order && forall c :: c in order[..n] ==> c in order;
    }
  }

  /** In whatever order the map loops run, a sync is accepted or refused alike. */
  lemma VerdictIgnoresOrder(
    rows: Rows, a: Actor, c: Id, id: nat, grants: seq<Grant>, x: Context, o1: Order, o2: Order, p1: Order, p2: Order)
    requires InCompany(rows, c, id) && Want(grants, x).Ok?
    requires VisitsAll(rows, rows[id].email, Want(grants, x).value, x.visible, o1, o2)
    requires VisitsAll(rows, rows[id].email, Want(grants, x).value, x.visible, p1, p2)
    ensures SyncPlan(rows, a, c, id, grants, x, o1, o2).Ok? <==> SyncPlan(rows, a, c, id, grants, x, p1, p2).Ok?
  {
    var email, want := rows[id].email, Want(grants, x).value;
    VisitedVerdict(rows, email, want, x, o1, o2);
    VisitedVerdict(rows, email, want, x, p1, p2);
  }

  /** Both loops pass exactly when every wanted and every dropped company does. */
  lemma VisitedVerdict(rows: Rows, email: string, want: map<Id, Id>, x: Context, o1: seq<Id>, o2: seq<Id>)
    requires VisitsAll(rows, email, want, x.visible, o1, o2)
    ensures PlanWants(rows, email, want, o1, x).Ok? <==> forall c :: c in want ==> WantPasses(rows, email, want, c, x)
    ensures PlanDrops(rows, email, want, o2, x).Ok?
       <==> forall c :: c in Existing(rows, email, x.visible) ==> DropChange(rows, email, want, c, x).Ok?
  {
    WantsPassExactlyWhen(rows, email, want, o1, x);
    DropsPassExactlyWhen(rows, email, want, o2, x);
    assert forall c :: c !in want ==> WantPasses(rows, email, want, c, x);
    assert forall c :: c !in Existing(rows, email, x.visible) ==> DropChange(rows, email, want, c, x).Ok?;
  }

  /** The orders name every company that a map loop would visit. */
  predicate VisitsAll(rows: Rows, email: string, want: map<Id, Id>, visible: set<Id>, o1: seq<Id>, o2: seq<Id>) {
    && (forall c :: c in want ==> c in o1)
    && (forall c :: c in Existing(rows, email, visible) ==> c in o2)
  }

  // --- inviting to several companies --------------------------------------------------------

  lemma NobodyThere(rows: Rows, email: string, c: Id)
    requires Inv(rows) && !HasActiveEmail(rows, email, c) && !HasPendingEmail(rows, email, c)
    ensures NoRowOf(rows, email, c)
  {
    forall i | 0 <= i < |rows|
      ensures !EmailRow(rows[i], email, c)
    {
      assert RowOk(rows[i]);
    }
  }

  ghost predicate InvitesReady(rows: Rows, email: string, members: seq<Member>) {
    && (forall k :: 0 <= k < |members| ==>
          && members[k].email == email && members[k].user.None? && RowOk(members[k]) && !members[k].deleted
          && NoRowOf(rows, email, members[k].company))
    && (forall j, k :: 0 <= j < k < |members| ==> members[j].company != members[k].company)
  }

  /** Each invitation is a new row, in the order of the plan. */
  lemma {:induction false} InvitesAppend(rows: Rows, email: string, members: seq<Member>, n: nat)
    requires Inv(rows) && email != "" && InvitesReady(rows, email, members) && n <= |members|
    ensures UpsertAll(rows, members[..n]) == (rows + members[..n], None)
    ensures Inv(rows + members[..n])
  {
    if n == 0 {
      assert rows + members[..0] == rows;
    } else {
      var m, before := members[n - 1], rows + members[..n - 1];
      assert members[..n][..n - 1] == members[..n - 1];
      InvitesAppend(rows, email, members, n - 1);
      forall i | 0 <= i < |before|
        ensures !EmailRow(before[i], email, m.company)
      {
        if i < |rows| {
          assert !EmailRow(rows[i], email, m.company);
        } else {
          assert before[i] == members[i - |rows|];
        }
      }
      AddSucceeds(before, m);
      UpsertKeepsInv(before, m);
      assert before + [m] == rows + members[..n];
    }
  }

  /** An accepted multi-company invitation adds exactly one pending row per planned company. */
  lemma InvitesNeverStopHalfway(s: State, a: Actor, email: string, active: bool, grants: seq<Grant>, x: Context)
    requires Inv(s.rows) && email != "" && email != a.email && grants != [] && InvitePlan(s.rows, email, grants, x).Ok?
    ensures DoInviteMulti(s, a, email, true, active, grants, x) ==
            Outcome(s.(rows := s.rows + WithBan(InvitePlan(s.rows, email, grants, x).value, !active)), None)
  {
    PlannedInvites(s.rows, email, grants, x);
    var members := WithBan(InvitePlan(s.rows, email, grants, x).value, !active);
    forall k | 0 <= k < |members|
      ensures NoRowOf(s.rows, email, members[k].company)
    {
      NobodyThere(s.rows, email, members[k].company);
    }
    InvitesAppend(s.rows, email, members, |members|);
    assert members[..|members|] == members;
  }

  // --- the result of a sync -----------------------------------------------------------------

  /** Company c has the same rows in both tables, except at position k. */
  predicate AgreeOnBut(rows: Rows, rows': Rows, c: Id, k: nat) {
    && |rows| <= |rows'|
    && forall j :: 0 <= j < |rows'| && j != k && (rows'[j].company == c || (j < |rows| && rows[j].company == c)) ==>
                     j < |rows| && rows'[j] == rows[j]
  }

  /** What a change makes of its row; an addition rewrites the user's own row in the company when there is one. */
  function Target(rows: Rows, m: Member, ch: Change): Member {
    match ch
    case Add(c, role) =>
      var n := Added(m, c, role);
      if Lookup(rows, n).None? then n else Patch(rows[Lookup(rows, n).value], n)
    case Reassign(_, row, role) => row.(role := Some(role))
    case Drop(_, row) => row.(deleted := true)
  }

  /** The position of the row that is written, or None for a new row. */
  function Spot(rows: Rows, m: Member, ch: Change): Option<nat> {
    if ch.Add? then Lookup(rows, Added(m, ch.company, ch.role)) else Some(ch.id)
  }

  /** The change, and nothing else, happened in its company. */
  predicate Happened(rows: Rows, rows': Rows, m: Member, ch: Change, k: nat) {
    && k < |rows'| && AgreeOnBut(rows, rows', CompanyOf(ch), k) && rows'[k] == Target(rows, m, ch)
    && (if Spot(rows, m, ch).Some? then k == Spot(rows, m, ch).value && k < |rows| else |rows| <= k)
  }

  ghost predicate CompanyIs(rows: Rows, rows': Rows, m: Member, c: Id, expected: Option<Change>) {
    match expected
    case None => AgreeOn(rows, rows', c)
    case Some(ch) => exists k :: Happened(rows, rows', m, ch, k)
  }

  /** What an added company does to the table: at most the user's own row there is rewritten. */
  lemma AddRewritesOwnRow(rows: Rows, m: Member, c: Id, role: Id)
    requires Inv(rows) && RowOk(m) && !m.deleted && NoRowOf(rows, m.email, c)
    ensures var n := Added(m, c, role);
            Upsert(rows, n) == Ok(if Lookup(rows, n).None? then rows + [n]
                                  else rows[Lookup(rows, n).value := Patch(rows[Lookup(rows, n).value], n)])
  {
    var n := Added(m, c, role);
    AddSucceeds(rows, n);
    var found := Lookup(rows, n);
    if found.Some? {
      var p := Patch(rows[found.value], n);
      PatchedRowOk(rows[found.value], n);
      WriteKeepsInv(rows, found.value, p);
      NothingToDedupe(rows[found.value := p], found.value, n);
    }
  }

  /** Where a change lands in the table it is applied to. */
  function Landing(rows: Rows, m: Member, ch: Change): nat {
    if Spot(rows, m, ch).Some? then Spot(rows, m, ch).value else |rows|
  }

  lemma ChangeHappens(s: State, m: Member, ch: Change)
    requires Inv(s.rows) && RowOk(m) && !m.deleted && Loaded(s.rows, ch)
    requires ch.Add? ==> NoRowOf(s.rows, m.email, ch.company)
    ensures ApplyChange(s, m, ch).refusal.None?
    ensures Happened(s.rows, ApplyChange(s, m, ch).state.rows, m, ch, Landing(s.rows, m, ch))
  {
    if ch.Add? {
      AddRewritesOwnRow(s.rows, m, ch.company, ch.role);
    }
  }

  /** The row found for an upsert depends on the rows of its company alone. */
  lemma SameLookup(rows: Rows, now: Rows, m: Member)
    requires AgreeOn(rows, now, m.company)
    ensures Lookup(now, m) == Lookup(rows, m)
    ensures Lookup(now, m).Some? ==> now[Lookup(now, m).value] == rows[Lookup(now, m).value]
  {
    forall j | 0 <= j < |now|
      ensures SameKey(now[j], m) ==> j < |rows| && now[j] == rows[j]
    {
    }
    forall j | 0 <= j < |rows|
      ensures SameKey(rows[j], m) ==> now[j] == rows[j]
    {
    }
  }

  lemma HappenedStays(rows: Rows, a: Rows, b: Rows, m: Member, ch: Change, k: nat)
    requires Happened(rows, a, m, ch, k) && AgreeOn(a, b, CompanyOf(ch)) && Target(rows, m, ch).company == CompanyOf(ch)
    ensures Happened(rows, b, m, ch, k)
  {
  }

  lemma HappenedFrom(rows: Rows, a: Rows, b: Rows, m: Member, ch: Change, k: nat)
    requires AgreeOn(rows, a, CompanyOf(ch)) && Loaded(rows, ch) && Happened(a, b, m, ch, k)
    ensures Happened(rows, b, m, ch, k)
  {
    if ch.Add? {
      SameLookup(rows, a, Added(m, ch.company, ch.role));
    }
  }

  lemma TargetCompany(rows: Rows, m: Member, ch: Change)
    requires Loaded(rows, ch)
    ensures Target(rows, m, ch).company == CompanyOf(ch)
  {
  }

  predicate AllVisible(changes: seq<Change>, visible: set<Id>) {
    forall k :: 0 <= k < |changes| ==> CompanyOf(changes[k]) in visible
  }

  /** After n changes: the companies of the first n are changed as planned. */
  lemma {:induction false} FirstChangesHappened(
    s: State, m: Member, want: map<Id, Id>, visible: set<Id>, changes: seq<Change>, n: nat, i: nat)
    requires Inv(s.rows) && RowOk(m) && !m.deleted && i < n <= |changes|
    requires PlannedFor(s.rows, m.email, want, visible, changes)
    ensures exists k :: Happened(s.rows, ApplyChanges(s, m, changes[..n]).state.rows, m, changes[i], k)
  {
    assert changes[..n][..n - 1] == changes[..n - 1];
    var ch := changes[n - 1];
    var before := ApplyChanges(s, m, changes[..n - 1]);
    WritesSucceed(s, m, want, visible, changes, n - 1);
    StillLoaded(s, m, changes, n - 1);
    if i < n - 1 {
      FirstChangesHappened(s, m, want, visible, changes, n - 1, i);
      var k :| Happened(s.rows, before.state.rows, m, changes[i], k);
      ChangeStaysInCompany(before.state, m, ch, CompanyOf(changes[i]));
      TargetCompany(s.rows, m, changes[i]);
      HappenedStays(s.rows, before.state.rows, ApplyChanges(s, m, changes[..n]).state.rows, m, changes[i], k);
    } else {
      ChangesKeepInv(s, m, changes, n - 1);
      LastChangeHappened(s, m, want, visible, ch, before.state);
      assert ApplyChanges(s, m, changes[..n]) == ApplyChange(before.state, m, ch);
    }
  }

  lemma LastChangeHappened(s: State, m: Member, want: map<Id, Id>, visible: set<Id>, ch: Change, before: State)
    requires Inv(before.rows) && RowOk(m) && !m.deleted && Loaded(s.rows, ch) && Loaded(before.rows, ch)
    requires Expected(s.rows, m.email, want, visible, CompanyOf(ch)) == Some(ch)
    requires AgreeOn(s.rows, before.rows, CompanyOf(ch))
    ensures exists k :: Happened(s.rows, ApplyChange(before, m, ch).state.rows, m, ch, k)
  {
    if ch.Add? {
      PlannedAdds(s.rows, m.email, want, visible, ch);
      assert NoRowOf(before.rows, m.email, ch.company);
    }
    ChangeHappens(before, m, ch);
    HappenedFrom(s.rows, before.rows, ApplyChange(before, m, ch).state.rows, m, ch, Landing(before.rows, m, ch));
  }

  lemma {:induction false} WantIsVisible(grants: seq<Grant>, x: Context)
    requires Want(grants, x).Ok?
    ensures Want(grants, x).value.Keys <= x.visible
  {
    if grants != [] {
      WantIsVisible(grants[..|grants| - 1], x);
    }
  }

  /** Company by company: either its one change happened, or it has exactly its old rows. */
  lemma SyncByCompany(
    s: State, a: Actor, c: Id, id: nat, grants: seq<Grant>, x: Context, o1: Order, o2: Order, company: Id)
    requires Inv(s.rows) && SyncPlan(s.rows, a, c, id, grants, x, o1, o2).Ok?
    requires VisitsAll(s.rows, s.rows[id].email, Want(grants, x).value, x.visible, o1, o2)
    ensures CompanyIs(s.rows, DoSync(s, a, c, id, grants, x, o1, o2).state.rows, s.rows[id], company,
                      Expected(s.rows, s.rows[id].email, Want(grants, x).value, x.visible, company))
  {
    var m, want, changes := s.rows[id], Want(grants, x).value, SyncPlan(s.rows, a, c, id, grants, x, o1, o2).value;
    PlanIsPlanned(s.rows, a, c, id, grants, x, o1, o2);
    assert changes[..|changes|] == changes;
    var expected := Expected(s.rows, m.email, want, x.visible, company);
    if expected.Some? {
      PlanContains(s.rows, a, c, id, grants, x, o1, o2, company);
      var i :| 0 <= i < |changes| && changes[i] == expected.value;
      FirstChangesHappened(s, m, want, x.visible, changes, |changes|, i);
    } else {
      assert !Touched(changes, company);
      OtherCompaniesAgree(s, m, changes, |changes|, company);
    }
  }

  // --- the closing lookup -------------------------------------------------------------------

  /** The row the sync was called for is the one that stands for the email in a company it leaves. */
  predicate DropsItself(rows: Rows, c: Id, id: nat, want: map<Id, Id>, visible: set<Id>)
    requires id < |rows|
  {
    c in visible && c !in want && LastByEmail(rows, rows[id].email, c) == Some(id)
  }

  lemma StaysExactlyWhen(rows: Rows, rows': Rows, c: Id, id: nat, want: map<Id, Id>, visible: set<Id>)
    requires InCompany(rows, c, id)
    requires CompanyIs(rows, rows', rows[id], c, Expected(rows, rows[id].email, want, visible, c))
    ensures InCompany(rows', c, id) <==> !DropsItself(rows, c, id, want, visible)
  {
    var expected := Expected(rows, rows[id].email, want, visible, c);
    if expected.Some? {
      ExpectedCompany(rows, rows[id].email, want, visible, c);
      var k :| Happened(rows, rows', rows[id], expected.value, k);
    }
  }

  /**
   A sync can report an error although every change was written: exactly when its plan is
   accepted and removes the very row it was called for. Any other error comes from the plan
   and leaves everything as it was.
   */
  lemma ErrorAfterWritingExactlyWhen(
    s: State, a: Actor, c: Id, id: nat, grants: seq<Grant>, x: Context, o1: Order, o2: Order)
    requires Inv(s.rows)
    requires InCompany(s.rows, c, id) && Want(grants, x).Ok? ==>
               VisitsAll(s.rows, s.rows[id].email, Want(grants, x).value, x.visible, o1, o2)
    ensures var plan, written := SyncPlan(s.rows, a, c, id, grants, x, o1, o2), DoSync(s, a, c, id, grants, x, o1, o2);
            var report := SyncReport(written, c, id);
            && (report.Some? && written.state != s
                <==> plan.Ok? && DropsItself(s.rows, c, id, Want(grants, x).value, x.visible))
            && (report.Some? && written.state != s ==> written.refusal.None? && report == Some(MemberNotFound))
            && (report.None? ==> plan.Ok?)
  {
    SyncNeverStopsHalfway(s, a, c, id, grants, x, o1, o2);
    if SyncPlan(s.rows, a, c, id, grants, x, o1, o2).Ok? {
      SyncByCompany(s, a, c, id, grants, x, o1, o2, c);
      StaysExactlyWhen(s.rows, DoSync(s, a, c, id, grants, x, o1, o2).state.rows, c, id, Want(grants, x).value, x.visible);
    }
  }

  lemma PlanIsVisible(rows: Rows, email: string, want: map<Id, Id>, visible: set<Id>, changes: seq<Change>)
    requires want.Keys <= visible && PlannedFor(rows, email, want, visible, changes)
    ensures AllVisible(changes, visible)
  {
    forall k | 0 <= k < |changes|
      ensures CompanyOf(changes[k]) in visible
    {
      assert Expected(rows, email, want, visible, CompanyOf(changes[k])).Some?;
    }
  }

  lemma PlanContains(
    rows: Rows, a: Actor, c: Id, id: nat, grants: seq<Grant>, x: Context, o1: Order, o2: Order, company: Id)
    requires SyncPlan(rows, a, c, id, grants, x, o1, o2).Ok?
    requires VisitsAll(rows, rows[id].email, Want(grants, x).value, x.visible, o1, o2)
    requires Expected(rows, rows[id].email, Want(grants, x).value, x.visible, company).Some?
    ensures Expected(rows, rows[id].email, Want(grants, x).value, x.visible, company).value
            in SyncPlan(rows, a, c, id, grants, x, o1, o2).value
  {
    var email, want := rows[id].email, Want(grants, x).value;
    WantsCover(rows, email, want, o1, x);
    DropsCover(rows, email, want, o2, x);
    if company !in want {
      assert company in Existing(rows, email, x.visible);
    }
  }

  // --- in the words of the caller ---------------------------------------------------------

  /** The email has one live row in the company, and it carries the role. */
  predicate IsMemberWith(rows: Rows, email: string, c: Id, role: Id) {
    exists i :: 0 <= i < |rows| && EmailRow(rows[i], email, c) && rows[i].role == Some(role) && OnlyRow(rows, email, c, i)
  }

  predicate OnlyRow(rows: Rows, email: string, c: Id, i: nat) {
    forall j :: 0 <= j < |rows| && EmailRow(rows[j], email, c) ==> j == i
  }

  lemma OneRowPerEmail(rows: Rows, email: string, c: Id, i: nat)
    requires Unique(rows) && email != "" && i < |rows| && EmailRow(rows[i], email, c)
    ensures OnlyRow(rows, email, c, i)
  {
    forall j | 0 <= j < |rows| && EmailRow(rows[j], email, c)
      ensures j == i
    {
      assert j < i ==> Conflicts(rows[j], rows[i]);
      assert i < j ==> Conflicts(rows[i], rows[j]);
    }
  }

  /** For a person with an email: exactly when the company it was called in is visible and not requested. */
  lemma OwnCompanyNotRequested(rows: Rows, c: Id, id: nat, want: map<Id, Id>, visible: set<Id>)
    requires Inv(rows) && InCompany(rows, c, id) && rows[id].email != ""
    ensures DropsItself(rows, c, id, want, visible) <==> c in visible && c !in want
  {
    OneRowPerEmail(rows, rows[id].email, c, id);
  }

  lemma WantedCompany(rows: Rows, rows': Rows, m: Member, want: map<Id, Id>, visible: set<Id>, c: Id)
    requires Inv(rows) && Inv(rows') && m.email != "" && !m.deleted && c in want
    requires CompanyIs(rows, rows', m, c, Expected(rows, m.email, want, visible, c))
    ensures IsMemberWith(rows', m.email, c, want[c])
  {
    var expected := Expected(rows, m.email, want, visible, c);
    var i: nat;
    if expected.Some? {
      i :| Happened(rows, rows', m, expected.value, i);
    } else {
      i := LastByEmail(rows, m.email, c).value;
      assert rows'[i] == rows[i];
    }
    OneRowPerEmail(rows', m.email, c, i);
  }

  lemma UnwantedCompany(rows: Rows, rows': Rows, m: Member, want: map<Id, Id>, visible: set<Id>, c: Id)
    requires Inv(rows) && m.email != "" && c !in want && c in visible
    requires CompanyIs(rows, rows', m, c, Expected(rows, m.email, want, visible, c))
    ensures NoRowOf(rows', m.email, c)
  {
    var expected := Expected(rows, m.email, want, visible, c);
    if expected.Some? {
      var k :| Happened(rows, rows', m, expected.value, k);
      OneRowPerEmail(rows, m.email, c, k);
    }
  }

  /** Neither under the email of the synced person nor under their user. */
  predicate Unrelated(r: Member, m: Member) {
    r.email != m.email && (m.user.None? || r.user != m.user)
  }

  lemma OtherPeopleKept(rows: Rows, rows': Rows, m: Member, want: map<Id, Id>, visible: set<Id>, j: nat)
    requires j < |rows| && Unrelated(rows[j], m)
    requires CompanyIs(rows, rows', m, rows[j].company, Expected(rows, m.email, want, visible, rows[j].company))
    ensures j < |rows'| && rows'[j] == rows[j]
  {
    var expected := Expected(rows, m.email, want, visible, rows[j].company);
    if expected.Some? {
      ExpectedCompany(rows, m.email, want, visible, rows[j].company);
      var k :| Happened(rows, rows', m, expected.value, k);
      assert expected.value.Add? || expected.value.row.email == m.email;
      assert Spot(rows, m, expected.value) != Some(j);
    }
  }

  /**
   An accepted sync leaves the person, identified by a non-blank email, in exactly the
   requested companies with the requested roles, as far as the caller sees; companies the
   caller does not see and the rows of unrelated people are untouched.
   */
  lemma SyncIsExact(s: State, a: Actor, c: Id, id: nat, grants: seq<Grant>, x: Context, o1: Order, o2: Order)
    requires Inv(s.rows) && SyncPlan(s.rows, a, c, id, grants, x, o1, o2).Ok?
    requires s.rows[id].email != ""
    requires VisitsAll(s.rows, s.rows[id].email, Want(grants, x).value, x.visible, o1, o2)
    ensures var rows', want, email := DoSync(s, a, c, id, grants, x, o1, o2).state.rows, Want(grants, x).value, s.rows[id].email;
            && DoSync(s, a, c, id, grants, x, o1, o2).refusal.None?
            && (forall company :: company in want ==> IsMemberWith(rows', email, company, want[company]))
            && (forall company :: company in x.visible && company !in want ==> NoRowOf(rows', email, company))
            && (forall company :: company !in x.visible ==> AgreeOn(s.rows, rows', company))
            && (forall j :: 0 <= j < |s.rows| && Unrelated(s.rows[j], s.rows[id]) ==> j < |rows'| && rows'[j] == s.rows[j])
  {
    var rows', want, m := DoSync(s, a, c, id, grants, x, o1, o2).state.rows, Want(grants, x).value, s.rows[id];
    SyncNeverStopsHalfway(s, a, c, id, grants, x, o1, o2);
    SyncKeepsInv(s, a, c, id, grants, x, o1, o2);
    WantIsVisible(grants, x);
    forall company
      ensures company in want ==> IsMemberWith(rows', m.email, company, want[company])
      ensures company in x.visible && company !in want ==> NoRowOf(rows', m.email, company)
      ensures company !in x.visible ==> AgreeOn(s.rows, rows', company)
    {
      SyncByCompany(s, a, c, id, grants, x, o1, o2, company);
      if company in want {
        WantedCompany(s.rows, rows', m, want, x.visible, company);
      } else if company in x.visible {
        UnwantedCompany(s.rows, rows', m, want, x.visible, company);
      }
    }
    forall j | 0 <= j < |s.rows| && Unrelated(s.rows[j], m)
      ensures j < |rows'| && rows'[j] == s.rows[j]
    {
      SyncByCompany(s, a, c, id, grants, x, o1, o2, s.rows[j].company);
      OtherPeopleKept(s.rows, rows', m, want, x.visible, j);
    }
  }

  // --- other people ---------------------------------------------------------------------------

  /** A live row of a known user other than the synced one. */
  predicate SomeoneElse(r: Member, m: Member) {
    !r.deleted && r.user.Some? && m.user.Some? && r.user != m.user
  }

  /** In company c the email leads to somebody else's row, whose role is not the wanted one or which is not wanted at all. */
  predicate HitsSomeoneElse(rows: Rows, m: Member, want: map<Id, Id>, visible: set<Id>, c: Id) {
    var expected := Expected(rows, m.email, want, visible, c);
    expected.Some? && !expected.value.Add? && SomeoneElse(expected.value.row, m)
  }

  lemma HitRowChanges(rows: Rows, rows': Rows, m: Member, want: map<Id, Id>, visible: set<Id>, c: Id) returns (j: nat)
    requires CompanyIs(rows, rows', m, c, Expected(rows, m.email, want, visible, c))
    requires HitsSomeoneElse(rows, m, want, visible, c)
    ensures j < |rows| && SomeoneElse(rows[j], m) && j < |rows'| && rows'[j] != rows[j]
  {
    var ch := Expected(rows, m.email, want, visible, c).value;
    var k :| Happened(rows, rows', m, ch, k);
    j := ch.id;
  }

  lemma UnhitRowStays(rows: Rows, rows': Rows, m: Member, want: map<Id, Id>, visible: set<Id>, j: nat)
    requires j < |rows| && SomeoneElse(rows[j], m) && !HitsSomeoneElse(rows, m, want, visible, rows[j].company)
    requires CompanyIs(rows, rows', m, rows[j].company, Expected(rows, m.email, want, visible, rows[j].company))
    ensures j < |rows'| && rows'[j] == rows[j]
  {
    var expected := Expected(rows, m.email, want, visible, rows[j].company);
    if expected.Some? {
      ExpectedCompany(rows, m.email, want, visible, rows[j].company);
      var k :| Happened(rows, rows', m, expected.value, k);
      assert Spot(rows, m, expected.value) != Some(j);
    }
  }

  predicate OthersUntouched(rows: Rows, rows': Rows, m: Member) {
    forall j :: 0 <= j < |rows| && SomeoneElse(rows[j], m) ==> j < |rows'| && rows'[j] == rows[j]
  }

  ghost predicate SomeoneElseHit(rows: Rows, m: Member, want: map<Id, Id>, visible: set<Id>) {
    exists c :: HitsSomeoneElse(rows, m, want, visible, c)
  }

  /** An accepted sync leaves everybody else's rows as they are exactly when no company it changes leads to one of them. */
  lemma OthersUntouchedExactlyWhen(s: State, a: Actor, c: Id, id: nat, grants: seq<Grant>, x: Context, o1: Order, o2: Order)
    requires Inv(s.rows) && SyncPlan(s.rows, a, c, id, grants, x, o1, o2).Ok?
    requires VisitsAll(s.rows, s.rows[id].email, Want(grants, x).value, x.visible, o1, o2)
    ensures OthersUntouched(s.rows, DoSync(s, a, c, id, grants, x, o1, o2).state.rows, s.rows[id])
            <==> !SomeoneElseHit(s.rows, s.rows[id], Want(grants, x).value, x.visible)
  {
    var rows', want, m := DoSync(s, a, c, id, grants, x, o1, o2).state.rows, Want(grants, x).value, s.rows[id];
    if SomeoneElseHit(s.rows, m, want, x.visible) {
      var company :| HitsSomeoneElse(s.rows, m, want, x.visible, company);
      SyncByCompany(s, a, c, id, grants, x, o1, o2, company);
      var j := HitRowChanges(s.rows, rows', m, want, x.visible, company);
    } else {
      forall j | 0 <= j < |s.rows| && SomeoneElse(s.rows[j], m)
        ensures j < |rows'| && rows'[j] == s.rows[j]
      {
        SyncByCompany(s, a, c, id, grants, x, o1, o2, s.rows[j].company);
        UnhitRowStays(s.rows, rows', m, want, x.visible, j);
      }
    }
  }
}
