/**
 Runs in which every call is accepted and made by a member who may make it, and which show
 where the last-owner guard and the search by email end.
 */
module MembershipEdgeCases {
  import opened Results
  import opened Sums
  import opened Memberships
  import opened SyncLaws
  import opened OwnerLaws
  import opened UsableOwners

  // --- who may call what ------------------------------------------------------------------

  predicate Enters(r: Member, u: Id) {
    !r.deleted && r.user == Some(u) && r.activated && !r.banned
  }

  /** ListActiveByUser: the companies of the user's activated rows that are not banned. */
  function UsableBy(rows: Rows, u: Id): set<Id> {
    set i | 0 <= i < |rows| && Enters(rows[i], u) :: rows[i].company
  }

  /** A caller sees, and has permissions in, companies of his own only. */
  predicate OwnCompanies(rows: Rows, u: Id, x: Context) {
    var own := UsableBy(rows, u);
    x.visible <= own && x.canInvite <= own && x.canUpdate <= own && x.canDelete <= own
  }

  /** The permission each route asks for in the company it is called in. */
  predicate Entitled(rows: Rows, u: Id, c: Command) {
    match c
    case LinkCreator(a, _, _) => a.user == u
    case Invite(a, company, _, _, x) => a.user == u && OwnCompanies(rows, u, x) && company in x.canInvite
    case InviteMulti(a, _, _, _, _, x) => a.user == u && OwnCompanies(rows, u, x)
    case Accept(user, _) => user == u
    case UpdateRole(company, _, _, x) => OwnCompanies(rows, u, x) && company in x.canUpdate
    case Remove(company, _, x) => OwnCompanies(rows, u, x) && company in x.canDelete
    case SetActive(a, company, _, _, x) => a.user == u && OwnCompanies(rows, u, x) && company in x.canUpdate
    case Sync(a, company, _, _, x, _, _) => a.user == u && OwnCompanies(rows, u, x) && company in x.canUpdate
    case _ => true
  }

  datatype Call = Call(caller: Id, command: Command)

  function CommandsOf(calls: seq<Call>): seq<Command> {
    seq(|calls|, k requires 0 <= k < |calls| => calls[k].command)
  }

  function After(calls: seq<Call>): State {
    Run(CommandsOf(calls))
  }

  /** Every call of the run is one its caller may make, and reports no error. */
  predicate Proper(calls: seq<Call>) {
    calls == [] ||
    var n := |calls| - 1;
    var s := After(calls[..n]);
    Proper(calls[..n]) && Entitled(s.rows, calls[n].caller, calls[n].command) && Report(s, calls[n].command).None?
  }

  /** n proper calls that leave these rows and nothing cached. */
  predicate Reaches(calls: seq<Call>, n: nat, rows: Rows) {
    |calls| == n && Proper(calls) && After(calls) == State(rows, map[])
  }

  lemma CommandsOneMore(calls: seq<Call>, call: Call)
    ensures CommandsOf(calls + [call]) == CommandsOf(calls) + [call.command]
  {
  }

  lemma RunOneMore(commands: seq<Command>, c: Command)
    ensures Run(commands + [c]) == Step(Run(commands), c).state
  {
    assert (commands + [c])[..|commands|] == commands;
  }

  lemma AfterOneMore(calls: seq<Call>, call: Call)
    ensures After(calls + [call]) == Step(After(calls), call.command).state
  {
    CommandsOneMore(calls, call);
    RunOneMore(CommandsOf(calls), call.command);
  }

  lemma ProperOneMore(calls: seq<Call>, call: Call)
    requires Proper(calls) && Entitled(After(calls).rows, call.caller, call.command)
    requires Report(After(calls), call.command).None?
    ensures Proper(calls + [call])
  {
    assert (calls + [call])[..|calls|] == calls;
  }

  lemma Then(calls: seq<Call>, n: nat, rows: Rows, u: Id, c: Command, rows': Rows) returns (more: seq<Call>)
    requires Reaches(calls, n, rows) && Entitled(rows, u, c) && Step(State(rows, map[]), c) == Done(rows', map[])
    requires c.Sync? ==> InCompany(rows', c.company, c.id)
    ensures more == calls + [Call(u, c)] && Reaches(more, n + 1, rows')
  {
    AfterOneMore(calls, Call(u, c));
    ProperOneMore(calls, Call(u, c));
    more := calls + [Call(u, c)];
  }

  // --- the single calls, on a table with an empty cache ----------------------------------------

  function OwnerRow(u: Id, c: Id, email: string): Member {
    Member(Some(u), c, Some(7), true, false, email, false, false, false)
  }

  function JoinedRow(u: Id, c: Id, email: string): Member {
    Member(Some(u), c, Some(8), true, false, email, true, false, false)
  }

  /** Role 7 owns the company, role 8 does not; there is no user limit. */
  function Inside(companies: set<Id>): Context {
    Context(map c | c in companies :: {7, 8}, map c | c in companies :: 7, map[], companies, companies, companies, companies)
  }

  lemma EmptyCache(u: Id, c: Id)
    ensures Purged(map[], u) == map[] && Dropped(map[], Some(u), c) == map[]
  {
  }

  lemma Founding(rows: Rows, u: Id, email: string, c: Id)
    requires forall i :: 0 <= i < |rows| ==> rows[i].company != c
    ensures DoLinkCreator(State(rows, map[]), Actor(u, email), c, Some(7)) == Done(rows + [OwnerRow(u, c, email)], map[])
  {
    EmptyCache(u, c);
    assert Lookup(rows, OwnerRow(u, c, email)).None?;
  }

  /** A user creates a company nobody is in. */
  lemma Founds(calls: seq<Call>, n: nat, rows: Rows, u: Id, email: string, c: Id) returns (more: seq<Call>)
    requires Reaches(calls, n, rows) && forall i :: 0 <= i < |rows| ==> rows[i].company != c
    ensures Reaches(more, n + 1, rows + [OwnerRow(u, c, email)])
  {
    Founding(rows, u, email, c);
    more := Then(calls, n, rows, u, LinkCreator(Actor(u, email), c, Some(7)), rows + [OwnerRow(u, c, email)]);
  }

  lemma Invites(rows: Rows, a: Actor, c: Id, email: string)
    requires email != "" && email != a.email && NoRowOf(rows, email, c)
    ensures DoInvite(State(rows, map[]), a, c, email, 8, Inside({c})) == Done(rows + [Invited(email, c, 8, false)], map[])
  {
    assert c in Inside({c}).roles && c in Inside({c}).owners;
    assert !HasActiveEmail(rows, email, c) && !HasPendingEmail(rows, email, c);
    assert Lookup(rows, Invited(email, c, 8, false)).None?;
  }

  lemma Accepts(rows: Rows, u: Id, c: Id, email: string)
    requires NoRowOf(rows, email, c) && forall i :: 0 <= i < |rows| ==> !UserRow(rows[i], u, c)
    ensures DoAccept(State(rows + [Invited(email, c, 8, false)], map[]), u, |rows|) == Done(rows + [JoinedRow(u, c, email)], map[])
  {
    var pending := rows + [Invited(email, c, 8, false)];
    EmptyCache(u, c);
    assert !Violates(pending, |rows|, JoinedRow(u, c, email));
    assert pending[|rows| := JoinedRow(u, c, email)] == rows + [JoinedRow(u, c, email)];
  }

  /** A new member joins by invitation of a member of the company. */
  lemma Joins(calls: seq<Call>, n: nat, rows: Rows, host: Id, hostEmail: string, u: Id, c: Id, email: string)
    returns (more: seq<Call>)
    requires Reaches(calls, n, rows) && c in UsableBy(rows, host)
    requires email != "" && email != hostEmail && NoRowOf(rows, email, c) && forall i :: 0 <= i < |rows| ==> !UserRow(rows[i], u, c)
    ensures Reaches(more, n + 2, rows + [JoinedRow(u, c, email)])
  {
    var pending := rows + [Invited(email, c, 8, false)];
    Invites(rows, Actor(host, hostEmail), c, email);
    more := Then(calls, n, rows, host, Invite(Actor(host, hostEmail), c, email, 8, Inside({c})), pending);
    Accepts(rows, u, c, email);
    more := Then(more, n + 1, pending, u, Accept(u, |rows|), rows + [JoinedRow(u, c, email)]);
  }

  lemma {:induction false} TwoCounted(rows: Rows, c: Id, o: Id, i: nat, j: nat)
    requires i < j < |rows| && IsOwner(rows[i], c, o) && IsOwner(rows[j], c, o)
    ensures CountOwners(rows, c, o) >= 2
  {
    if j == |rows| - 1 {
      OwnerIsCounted(rows[..j], c, o, i);
    } else {
      TwoCounted(rows[..|rows| - 1], c, o, i, j);
    }
  }

  lemma EntersThrough(rows: Rows, u: Id, i: nat)
    requires i < |rows| && Enters(rows[i], u)
    ensures rows[i].company in UsableBy(rows, u)
  {
  }

  // --- banned owners ----------------------------------------------------------------------

  /** A founder, a second owner, and an admin who is no owner. */
  function Team(founder: Member, partner: Member): Rows {
    [founder, partner, JoinedRow(3, 1, "c")]
  }

  lemma TeamForms() returns (calls: seq<Call>)
    ensures Reaches(calls, 5, Team(OwnerRow(1, 1, "a"), JoinedRow(2, 1, "b")))
  {
    calls := PartnerJoins();
    calls := TeammateJoins(calls);
  }

  lemma FounderAlone() returns (calls: seq<Call>)
    ensures Reaches(calls, 1, [OwnerRow(1, 1, "a")])
  {
    calls := Founds([], 0, [], 1, "a", 1);
    assert [] + [OwnerRow(1, 1, "a")] == [OwnerRow(1, 1, "a")];
  }

  lemma PartnerJoins() returns (calls: seq<Call>)
    ensures Reaches(calls, 3, [OwnerRow(1, 1, "a"), JoinedRow(2, 1, "b")])
  {
    var one := [OwnerRow(1, 1, "a")];
    calls := FounderAlone();
    EntersThrough(one, 1, 0);
    calls := Joins(calls, 1, one, 1, "a", 2, 1, "b");
    assert one + [JoinedRow(2, 1, "b")] == [OwnerRow(1, 1, "a"), JoinedRow(2, 1, "b")];
  }

  lemma TeammateJoins(calls: seq<Call>) returns (more: seq<Call>)
    requires Reaches(calls, 3, [OwnerRow(1, 1, "a"), JoinedRow(2, 1, "b")])
    ensures Reaches(more, 5, Team(OwnerRow(1, 1, "a"), JoinedRow(2, 1, "b")))
  {
    var two := [OwnerRow(1, 1, "a"), JoinedRow(2, 1, "b")];
    EntersThrough(two, 1, 0);
    more := Joins(calls, 3, two, 1, "a", 3, 1, "c");
    assert two + [JoinedRow(3, 1, "c")] == Team(OwnerRow(1, 1, "a"), JoinedRow(2, 1, "b"));
  }

  lemma AdminMay(rows: Rows, founder: Member, partner: Member)
    requires rows == Team(founder, partner)
    ensures OwnCompanies(rows, 3, Inside({1}))
  {
    EntersThrough(rows, 3, 2);
  }

  /** The admin makes the partner an owner too. */
  lemma PartnerIsPromoted(founder: Member, partner: Member)
    requires partner == JoinedRow(2, 1, "b")
    ensures DoUpdateRole(State(Team(founder, partner), map[]), 1, 1, 7, Inside({1}))
            == Done(Team(founder, partner.(role := Some(7))), map[])
  {
    EmptyCache(2, 1);
    assert 1 in Inside({1}).roles && 1 in Inside({1}).owners;
    assert Team(founder, partner)[1 := partner.(role := Some(7))] == Team(founder, partner.(role := Some(7)));
  }

  lemma OwnersAreBanned(founder: Member, partner: Member)
    requires founder == OwnerRow(1, 1, "a") && partner == JoinedRow(2, 1, "b").(role := Some(7))
    ensures var a, gone := Actor(3, "c"), founder.(banned := true);
            && DoSetActive(State(Team(founder, partner), map[]), a, 1, 0, false, Inside({1})) == Done(Team(gone, partner), map[])
            && DoSetActive(State(Team(gone, partner), map[]), a, 1, 1, false, Inside({1}))
               == Done(Team(gone, partner.(banned := true)), map[])
  {
    var gone := founder.(banned := true);
    EmptyCache(1, 1);
    EmptyCache(2, 1);
    TwoCounted(Team(founder, partner), 1, 7, 0, 1);
    TwoCounted(Team(gone, partner), 1, 7, 0, 1);
    assert Team(founder, partner)[0 := gone] == Team(gone, partner);
    assert Team(gone, partner)[1 := partner.(banned := true)] == Team(gone, partner.(banned := true));
  }

  lemma TeamIsBanned(calls: seq<Call>, founder: Member, member: Member) returns (more: seq<Call>)
    requires founder == OwnerRow(1, 1, "a") && member == JoinedRow(2, 1, "b") && Reaches(calls, 5, Team(founder, member))
    ensures Reaches(more, 8, Team(founder.(banned := true), member.(role := Some(7), banned := true)))
  {
    var partner, gone, x := member.(role := Some(7)), founder.(banned := true), Inside({1});
    PartnerIsPromoted(founder, member);
    AdminMay(Team(founder, member), founder, member);
    more := Then(calls, 5, Team(founder, member), 3, UpdateRole(1, 1, 7, x), Team(founder, partner));
    OwnersAreBanned(founder, partner);
    AdminMay(Team(founder, partner), founder, partner);
    more := Then(more, 6, Team(founder, partner), 3, SetActive(Actor(3, "c"), 1, 0, false, x), Team(gone, partner));
    AdminMay(Team(gone, partner), gone, partner);
    more := Then(more, 7, Team(gone, partner), 3, SetActive(Actor(3, "c"), 1, 1, false, x), Team(gone, partner.(banned := true)));
  }

  /**
   Eight accepted calls by members entitled to them, after which the company still has
   counted owners but every one of them is banned.
   */
  lemma EveryOwnerCanBeBanned() returns (calls: seq<Call>)
    ensures |calls| == 8 && Proper(calls)
    ensures HasOwner(After(calls).rows, 1, 7) && !HasUsableOwner(After(calls).rows, 1, 7)
  {
    var founder, member := OwnerRow(1, 1, "a"), JoinedRow(2, 1, "b");
    calls := TeamForms();
    calls := TeamIsBanned(calls, founder, member);
    NobodyLeft(Team(founder.(banned := true), member.(role := Some(7), banned := true)));
  }

  lemma NobodyLeft(rows: Rows)
    requires |rows| == 3 && rows[0].banned && rows[1].banned && IsOwner(rows[0], 1, 7) && rows[2].role == Some(8)
    ensures HasOwner(rows, 1, 7) && !HasUsableOwner(rows, 1, 7)
  {
  }

  // --- two companies with one admin -----------------------------------------------------------

  /** The first users of companies 1 and 2, and user 30 in both. */
  function Pair(first: Member, second: Member, third: Member, fourth: Member): Rows {
    [first, second, third, fourth]
  }

  function Houses(first: Id, email1: string, second: Id, email2: string): Rows {
    Pair(OwnerRow(first, 1, email1), OwnerRow(second, 2, email2), JoinedRow(30, 1, "c"), JoinedRow(30, 2, "c"))
  }

  /** User 30 joins company c, invited by the member of row i. */
  lemma AdminJoins(calls: seq<Call>, n: nat, rows: Rows, host: Id, hostEmail: string, c: Id, i: nat) returns (more: seq<Call>)
    requires Reaches(calls, n, rows) && i < |rows| && Enters(rows[i], host) && rows[i].company == c && hostEmail != "c"
    requires NoRowOf(rows, "c", c) && forall j :: 0 <= j < |rows| ==> !UserRow(rows[j], 30, c)
    ensures Reaches(more, n + 2, rows + [JoinedRow(30, c, "c")])
  {
    EntersThrough(rows, host, i);
    more := Joins(calls, n, rows, host, hostEmail, 30, c, "c");
  }

  function TwoFounders(first: Id, email1: string, second: Id, email2: string): Rows {
    [OwnerRow(first, 1, email1), OwnerRow(second, 2, email2)]
  }

  lemma HousesForm(first: Id, email1: string, second: Id, email2: string) returns (calls: seq<Call>)
    requires first != 30 && second != 30 && email1 != "c" && email2 != "c"
    ensures Reaches(calls, 6, Houses(first, email1, second, email2))
  {
    calls := BothFound(first, email1, second, email2);
    calls := AdminJoinsFirst(calls, first, email1, second, email2);
    calls := AdminJoinsSecond(calls, first, email1, second, email2);
  }

  lemma BothFound(first: Id, email1: string, second: Id, email2: string) returns (calls: seq<Call>)
    ensures Reaches(calls, 2, TwoFounders(first, email1, second, email2))
  {
    var one := [OwnerRow(first, 1, email1)];
    assert [] + one == one;
    calls := Founds([], 0, [], first, email1, 1);
    calls := Founds(calls, 1, one, second, email2, 2);
    assert one + [OwnerRow(second, 2, email2)] == TwoFounders(first, email1, second, email2);
  }

  lemma AdminJoinsFirst(calls: seq<Call>, first: Id, email1: string, second: Id, email2: string) returns (more: seq<Call>)
    requires first != 30 && email1 != "c" && Reaches(calls, 2, TwoFounders(first, email1, second, email2))
    ensures Reaches(more, 4, TwoFounders(first, email1, second, email2) + [JoinedRow(30, 1, "c")])
  {
    var rows := TwoFounders(first, email1, second, email2);
    more := AdminJoins(calls, 2, rows, first, email1, 1, 0);
  }

  lemma AdminJoinsSecond(calls: seq<Call>, first: Id, email1: string, second: Id, email2: string) returns (more: seq<Call>)
    requires second != 30 && email2 != "c"
    requires Reaches(calls, 4, TwoFounders(first, email1, second, email2) + [JoinedRow(30, 1, "c")])
    ensures Reaches(more, 6, Houses(first, email1, second, email2))
  {
    var rows := TwoFounders(first, email1, second, email2) + [JoinedRow(30, 1, "c")];
    more := AdminJoins(calls, 4, rows, second, email2, 2, 1);
    assert rows + [JoinedRow(30, 2, "c")] == Houses(first, email1, second, email2);
  }

  lemma AdminSeesBoth(rows: Rows)
    requires |rows| == 4 && Enters(rows[2], 30) && Enters(rows[3], 30) && rows[2].company == 1 && rows[3].company == 2
    ensures OwnCompanies(rows, 30, Inside({1, 2}))
  {
    EntersThrough(rows, 30, 2);
    EntersThrough(rows, 30, 3);
  }

  lemma PlanOfOne(rows: Rows, email: string, want: map<Id, Id>, c: Id, x: Context)
    ensures c in want ==> PlanWants(rows, email, want, [c], x) == WantChange(rows, email, want, c, x)
    ensures PlanDrops(rows, email, want, [c], x) == DropChange(rows, email, want, c, x)
  {
    assert [c][..0] == [];
    assert PlanWants(rows, email, want, [c][..0], x) == Ok([]);
    assert PlanDrops(rows, email, want, [c][..0], x) == Ok([]);
    assert c in want && WantChange(rows, email, want, c, x).Ok? ==>
             [] + WantChange(rows, email, want, c, x).value == WantChange(rows, email, want, c, x).value;
    assert DropChange(rows, email, want, c, x).Ok? ==>
             [] + DropChange(rows, email, want, c, x).value == DropChange(rows, email, want, c, x).value;
  }

  lemma PlanOfTwo(rows: Rows, email: string, want: map<Id, Id>, c: Id, d: Id, x: Context)
    requires c in want ==> WantChange(rows, email, want, c, x) == Ok([])
    requires DropChange(rows, email, want, c, x) == Ok([])
    ensures c in want && d in want ==> PlanWants(rows, email, want, [c, d], x) == WantChange(rows, email, want, d, x)
    ensures PlanDrops(rows, email, want, [c, d], x) == DropChange(rows, email, want, d, x)
  {
    PlanOfOne(rows, email, want, c, x);
    assert [c, d][..1] == [c];
    assert d in want && WantChange(rows, email, want, d, x).Ok? ==>
             [] + WantChange(rows, email, want, d, x).value == WantChange(rows, email, want, d, x).value;
    assert DropChange(rows, email, want, d, x).Ok? ==>
             [] + DropChange(rows, email, want, d, x).value == DropChange(rows, email, want, d, x).value;
  }

  lemma OneChange(s: State, m: Member, ch: Change)
    ensures ApplyChanges(s, m, [ch]) == ApplyChange(s, m, ch)
  {
    assert [ch][..0] == [];
    assert ApplyChanges(s, m, [ch][..0]) == Outcome(s, None);
  }

  // --- one person, two emails --------------------------------------------------------------

  lemma WantedRoles(grants: seq<Grant>)
    requires grants == [Grant(2, Some(7)), Grant(1, Some(8))]
    ensures Want(grants, Inside({1, 2})) == Ok(map[2 := 7, 1 := 8])
  {
    assert grants[..1] == [Grant(2, Some(7))] && grants[..1][..0] == [];
    assert Want(grants[..1][..0], Inside({1, 2})) == Ok(map[]);
    assert Want(grants[..1], Inside({1, 2})) == Ok(map[2 := 7]);
  }

  /** The sync looks for email b in company 1 and finds nobody there, so it plans an addition. */
  lemma AdditionIsPlanned(rows: Rows, want: map<Id, Id>)
    requires rows == Houses(1, "a", 1, "b") && want == map[2 := 7, 1 := 8]
    ensures PlanWants(rows, "b", want, [2, 1], Inside({1, 2})) == Ok([Add(1, 8)])
    ensures PlanDrops(rows, "b", want, [2], Inside({1, 2})) == Ok([])
  {
    var x := Inside({1, 2});
    assert 1 in x.roles && 2 in x.roles && LimitIn(x, 1) == -1;
    assert LastByEmail(rows, "b", 1).None?;
    assert EmailRow(rows[1], "b", 2);
    assert LastByEmail(rows, "b", 2) == Some(1);
    PlanOfTwo(rows, "b", want, 2, 1, x);
    PlanOfOne(rows, "b", want, 2, x);
  }

  /** But the upsert finds the person by user id: the founder's owner row is overwritten. */
  lemma AdditionOverwrites(rows: Rows)
    requires rows == Houses(1, "a", 1, "b")
    ensures Upsert(rows, Added(rows[1], 1, 8)) == Ok(rows[0 := rows[0].(role := Some(8), email := "b", invited := true)])
  {
    var m := Added(rows[1], 1, 8);
    var p := rows[0].(role := Some(8), email := "b", invited := true);
    assert UserRow(rows[0], 1, 1);
    assert Lookup(rows, m) == Some(0) && Patch(rows[0], m) == p;
    assert !Violates(rows, 0, p);
    assert Deduped(rows[0 := p], 0, m) == rows[0 := p];
  }

  /** The sync of the founder's second membership: company 2 as before, company 1 without ownership. */
  function Demotion(): Command {
    Sync(Actor(30, "c"), 2, 1, [Grant(2, Some(7)), Grant(1, Some(8))], Inside({1, 2}), [2, 1], [2])
  }

  lemma DemotionIsAccepted(rows: Rows)
    requires rows == Houses(1, "a", 1, "b")
    ensures Step(State(rows, map[]), Demotion()) == Done(rows[0 := rows[0].(role := Some(8), email := "b", invited := true)], map[])
  {
    var want := map[2 := 7, 1 := 8];
    WantedRoles([Grant(2, Some(7)), Grant(1, Some(8))]);
    AdditionIsPlanned(rows, want);
    AdditionOverwrites(rows);
    OneChange(State(rows, map[]), rows[1], Add(1, 8));
    EmptyCache(1, 1);
    assert [Add(1, 8)] + [] == [Add(1, 8)];
  }

  lemma OnlyTheFounderOwned(rows: Rows, lost: Rows)
    requires |rows| == 4 && IsOwner(rows[0], 1, 7) && rows[1].company == 2 && rows[2].role == rows[3].role == Some(8)
    requires lost == rows[0 := rows[0].(role := Some(8), email := "b", invited := true)]
    ensures HasOwner(rows, 1, 7) && !HasOwner(lost, 1, 7)
  {
  }

  /**
   A founder who created a second company under another email: when the admin of both syncs
   that second membership, the only owner of the first company is demoted, with no guard in
   the way. All calls are accepted and made by members entitled to them.
   */
  lemma TwoEmailsCanLoseTheOwner() returns (calls: seq<Call>, sync: Call)
    ensures |calls| == 6 && sync.command.Sync? && Proper(calls + [sync])
    ensures HasOwner(After(calls).rows, 1, 7) && !HasOwner(After(calls + [sync]).rows, 1, 7)
  {
    var rows := Houses(1, "a", 1, "b");
    var lost := rows[0 := rows[0].(role := Some(8), email := "b", invited := true)];
    calls := HousesForm(1, "a", 1, "b");
    sync := Call(30, Demotion());
    AdminSeesBoth(rows);
    DemotionIsAccepted(rows);
    var all := Then(calls, 6, rows, 30, Demotion(), lost);
    OnlyTheFounderOwned(rows, lost);
  }

  // --- two people without an email -------------------------------------------------------------

  lemma BlankPlan(rows: Rows, want: map<Id, Id>)
    requires |rows| == 4 && want == map[1 := 7]
    requires rows[0] == OwnerRow(10, 1, "") && rows[1] == OwnerRow(20, 2, "")
    requires rows[2].email == rows[3].email == "c" && IsOwner(rows[3], 2, 7)
    ensures PlanWants(rows, "", want, [1], Inside({1, 2})) == Ok([])
    ensures PlanDrops(rows, "", want, [1, 2], Inside({1, 2})) == Ok([Drop(1, rows[1])])
  {
    var x := Inside({1, 2});
    assert 1 in x.roles && 2 in x.owners;
    assert EmailRow(rows[0], "", 1) && EmailRow(rows[1], "", 2);
    assert LastByEmail(rows, "", 1) == Some(0) && LastByEmail(rows, "", 2) == Some(1);
    TwoCounted(rows, 2, 7, 1, 3);
    PlanOfOne(rows, "", want, 1, x);
    PlanOfTwo(rows, "", want, 1, 2, x);
  }

  lemma AdminIsPromoted(rows: Rows)
    requires rows == Houses(10, "", 20, "")
    ensures DoUpdateRole(State(rows, map[]), 2, 3, 7, Inside({2})) == Done(rows[3 := rows[3].(role := Some(7))], map[])
    ensures OwnCompanies(rows, 20, Inside({2}))
  {
    EmptyCache(30, 2);
    assert 2 in Inside({2}).roles && 2 in Inside({2}).owners;
    EntersThrough(rows, 20, 1);
  }

  /** The sync that keeps the first founder in company 1 and names no other company. */
  function Cleanup(): Command {
    Sync(Actor(30, "c"), 1, 0, [Grant(1, Some(7))], Inside({1, 2}), [1], [1, 2])
  }

  lemma CleanupIsAccepted(rows: Rows)
    requires |rows| == 4 && rows[0] == OwnerRow(10, 1, "") && rows[1] == OwnerRow(20, 2, "")
    requires rows[2].email == rows[3].email == "c" && IsOwner(rows[3], 2, 7)
    ensures Step(State(rows, map[]), Cleanup()) == Done(rows[1 := rows[1].(deleted := true)], map[])
  {
    var grants, want := [Grant(1, Some(7))], map[1 := 7];
    assert grants[..0] == [];
    assert Want(grants, Inside({1, 2})) == Ok(want);
    BlankPlan(rows, want);
    OneChange(State(rows, map[]), rows[0], Drop(1, rows[1]));
    EmptyCache(20, 2);
    assert [] + [Drop(1, rows[1])] == [Drop(1, rows[1])];
  }

  lemma AdminOwnsToo() returns (calls: seq<Call>)
    ensures var rows := Houses(10, "", 20, ""); Reaches(calls, 7, rows[3 := rows[3].(role := Some(7))])
  {
    var rows := Houses(10, "", 20, "");
    calls := HousesForm(10, "", 20, "");
    AdminIsPromoted(rows);
    calls := Then(calls, 6, rows, 20, UpdateRole(2, 3, 7, Inside({2})), rows[3 := rows[3].(role := Some(7))]);
  }

  /**
   Two founders without an email look like one person: when the admin of both companies
   keeps the first in company 1, the second is removed from company 2, where the first
   never was. All calls are accepted and made by members entitled to them.
   */
  lemma BlankEmailsHitOtherPeople() returns (calls: seq<Call>, sync: Call)
    ensures |calls| == 7 && Proper(calls + [sync])
    ensures sync.command.Sync? && sync.command.id == 0 && |After(calls).rows| == 4
    ensures var rows := After(calls).rows;
            && rows[0] == OwnerRow(10, 1, "") && rows[1] == OwnerRow(20, 2, "") && SomeoneElse(rows[1], rows[0])
            && After(calls + [sync]).rows == rows[1 := rows[1].(deleted := true)]
  {
    var rows := Houses(10, "", 20, "");
    var now := rows[3 := rows[3].(role := Some(7))];
    calls := AdminOwnsToo();
    sync := Call(30, Cleanup());
    AdminSeesBoth(now);
    CleanupIsAccepted(now);
    var all := Then(calls, 7, now, 30, Cleanup(), now[1 := now[1].(deleted := true)]);
  }

  // --- an error after the writes -----------------------------------------------------------------

  function Member5(): Rows {
    [JoinedRow(5, 1, "d"), JoinedRow(5, 2, "d")]
  }

  /** Two companies with their admin, and user 5 a member of both. */
  function Shared(): Rows {
    Houses(1, "a", 2, "b") + Member5()
  }

  /** What it takes for user 5 to be let into a company by one of its members. */
  predicate CanJoin(rows: Rows, host: Id, c: Id) {
    c in UsableBy(rows, host) && NoRowOf(rows, "d", c) && forall i :: 0 <= i < |rows| ==> !UserRow(rows[i], 5, c)
  }

  lemma Member5CanJoin()
    ensures var rows := Houses(1, "a", 2, "b");
            CanJoin(rows, 1, 1) && CanJoin(rows + [JoinedRow(5, 1, "d")], 2, 2)
  {
    EntersThrough(Houses(1, "a", 2, "b"), 1, 0);
    EntersThrough(Houses(1, "a", 2, "b") + [JoinedRow(5, 1, "d")], 2, 1);
  }

  lemma Member5Joins(calls: seq<Call>, n: nat, rows: Rows, host: Id, hostEmail: string, c: Id) returns (more: seq<Call>)
    requires Reaches(calls, n, rows) && CanJoin(rows, host, c) && hostEmail != "d"
    ensures Reaches(more, n + 2, rows + [JoinedRow(5, c, "d")])
  {
    more := Joins(calls, n, rows, host, hostEmail, 5, c, "d");
  }

  lemma SharedForms() returns (calls: seq<Call>)
    ensures Reaches(calls, 10, Shared())
  {
    var rows := Houses(1, "a", 2, "b");
    calls := HousesForm(1, "a", 2, "b");
    Member5CanJoin();
    calls := Member5Joins(calls, 6, rows, 1, "a", 1);
    calls := Member5Joins(calls, 8, rows + [JoinedRow(5, 1, "d")], 2, "b", 2);
    assert rows + [JoinedRow(5, 1, "d")] + [JoinedRow(5, 2, "d")] == Shared();
  }

  /** Called in company 1, the sync asks for company 2 alone. */
  function Transfer(): Command {
    Sync(Actor(30, "c"), 1, 4, [Grant(2, Some(8))], Inside({1, 2}), [2], [2, 1])
  }

  lemma TransferPlan(rows: Rows, want: map<Id, Id>)
    requires |rows| == 6 && rows[4] == JoinedRow(5, 1, "d") && rows[5] == JoinedRow(5, 2, "d")
    requires (forall i :: 0 <= i < 4 ==> rows[i].email != "d") && want == map[2 := 8]
    ensures PlanWants(rows, "d", want, [2], Inside({1, 2})) == Ok([])
    ensures PlanDrops(rows, "d", want, [2, 1], Inside({1, 2})) == Ok([Drop(4, rows[4])])
  {
    var x := Inside({1, 2});
    assert 2 in x.roles && 1 in x.owners;
    assert EmailRow(rows[4], "d", 1) && EmailRow(rows[5], "d", 2);
    assert LastByEmail(rows, "d", 1) == Some(4) && LastByEmail(rows, "d", 2) == Some(5);
    PlanOfOne(rows, "d", want, 2, x);
    PlanOfTwo(rows, "d", want, 2, 1, x);
  }

  lemma TransferWrites(rows: Rows)
    requires |rows| == 6 && rows[4] == JoinedRow(5, 1, "d") && rows[5] == JoinedRow(5, 2, "d")
    requires forall i :: 0 <= i < 4 ==> rows[i].email != "d"
    ensures Step(State(rows, map[]), Transfer()) == Done(rows[4 := rows[4].(deleted := true)], map[])
    ensures Report(State(rows, map[]), Transfer()) == Some(MemberNotFound)
  {
    var grants, want := [Grant(2, Some(8))], map[2 := 8];
    assert grants[..0] == [];
    assert Want(grants, Inside({1, 2})) == Ok(want);
    TransferPlan(rows, want);
    OneChange(State(rows, map[]), rows[4], Drop(4, rows[4]));
    EmptyCache(5, 1);
    assert [] + [Drop(4, rows[4])] == [Drop(4, rows[4])];
  }

  lemma AdminSeesShared()
    ensures OwnCompanies(Shared(), 30, Inside({1, 2}))
  {
    EntersThrough(Shared(), 30, 2);
    EntersThrough(Shared(), 30, 3);
  }

  /**
   A member of two companies is synced from the first one to the second alone by an admin
   of both: the member leaves the first company as asked, and the call reports that there
   is no such member.
   */
  lemma TransferReportsAnError() returns (calls: seq<Call>, sync: Call)
    ensures |calls| == 10 && Proper(calls) && sync.command.Sync? && Entitled(After(calls).rows, sync.caller, sync.command)
    ensures var s := After(calls);
            && sync.command.id < |s.rows| && s.rows[sync.command.id] == JoinedRow(5, 1, "d")
            && Report(s, sync.command) == Some(MemberNotFound) && Step(s, sync.command).refusal.None?
            && Step(s, sync.command).state.rows == s.rows[sync.command.id := JoinedRow(5, 1, "d").(deleted := true)]
  {
    calls := SharedForms();
    sync := Call(30, Transfer());
    AdminSeesShared();
    TransferWrites(Shared());
  }
}
