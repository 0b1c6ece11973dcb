/**
 Who may enter which company: the membership rows, the per-user access cache in front of
 them, and the calls that change both. Row ids are positions in creation order; emails are
 kept trimmed and lower-case, and an empty email is allowed for a row with a user.
 */
module Memberships {
  import opened Results
  import opened Sums

  datatype Member = Member(
    user: Option<Id>, company: Id, role: Option<Id>, activated: bool, banned: bool,
    email: string, invited: bool, hasToken: bool, deleted: bool)

  type Rows = seq<Member>

  /** A cached answer of ResolveAccess; a fallback answer carries no role id. */
  datatype Entry = Entry(hasAccess: bool, activated: bool, banned: bool, role: Option<Id>, fallback: bool)

  type Cache = map<(Id, Id), Entry>

  datatype State = State(rows: Rows, cache: Cache)

  const NO_MEMBERS: State := State([], map[])

  datatype Refusal =
    | UniqueViolation
    | EmailRequired
    | NameRequired
    | SelfChange
    | InvalidRole
    | InviteAsOwner
    | DuplicateInvite
    | InviteQuota
    | InviteInvalid
    | MemberNotFound
    | LastOwner
    | NoCompanies
    | NoMembership
    | RoleRequired

  /** What a call wrote and why it stopped, if it did; only a call that writes several rows can have done both. */
  datatype Outcome = Outcome(state: State, refusal: Option<Refusal>)

  datatype Actor = Actor(user: Id, email: string)

  datatype Grant = Grant(company: Id, role: Option<Id>)

  /** No company twice: the random order of a Go map loop. */
  type Order = s: seq<Id> | Distinct(s)

  predicate Distinct(s: seq<Id>) {
    forall i, j :: 0 <= i < j < |s| ==> s[i] != s[j]
  }

  /**
   What a call learns from its surroundings: the role ids and the owner role the role
   service lists per company, the user limits, and the companies where the caller holds
   each permission.
   */
  datatype Context = Context(
    roles: map<Id, set<Id>>, owners: map<Id, Id>, limits: map<Id, int>,
    visible: set<Id>, canInvite: set<Id>, canUpdate: set<Id>, canDelete: set<Id>)

  function RolesIn(x: Context, c: Id): set<Id> {
    if c in x.roles then x.roles[c] else {}
  }

  function OwnerIn(x: Context, c: Id): Option<Id> {
    if c in x.owners then Some(x.owners[c]) else None
  }

  /** No entry means unlimited, as a negative limit does. */
  function LimitIn(x: Context, c: Id): int {
    if c in x.limits then x.limits[c] else -1
  }

  datatype Command =
    | LinkCreator(actor: Actor, company: Id, owner: Option<Id>)
    | Invite(actor: Actor, company: Id, email: string, role: Id, context: Context)
    | InviteMulti(actor: Actor, email: string, named: bool, active: bool, grants: seq<Grant>, context: Context)
    | Accept(user: Id, invite: nat)
    | UpdateRole(company: Id, id: nat, role: Id, context: Context)
    | Remove(company: Id, id: nat, context: Context)
    | SetActive(actor: Actor, company: Id, id: nat, active: bool, context: Context)
    | Sync(actor: Actor, company: Id, id: nat, grants: seq<Grant>, context: Context, wantOrder: Order, dropOrder: Order)
    | Resolve(user: Id, company: Id, allowFallback: bool, roleKnown: bool)
    | Expire(user: Id, company: Id)

  // --- finding rows ----------------------------------------------------------------

  predicate Live(rows: Rows, i: nat) {
    i < |rows| && !rows[i].deleted
  }

  predicate UserRow(r: Member, u: Id, c: Id) {
    !r.deleted && r.user == Some(u) && r.company == c
  }

  predicate EmailRow(r: Member, email: string, c: Id) {
    !r.deleted && r.email == email && r.company == c
  }

  predicate PendingRow(r: Member, email: string, c: Id) {
    EmailRow(r, email, c) && r.user.None?
  }

  function FindUser(rows: Rows, u: Id, c: Id): (found: Option<nat>)
    ensures found.Some? ==> found.value < |rows| && UserRow(rows[found.value], u, c)
    ensures forall i :: 0 <= i < (if found.Some? then found.value else |rows|) ==> !UserRow(rows[i], u, c)
  {
    if rows == [] then None
    else
      var n := |rows| - 1;
      var earlier := FindUser(rows[..n], u, c);
      if earlier.Some? then earlier else if UserRow(rows[n], u, c) then Some(n) else None
  }

  function FindPending(rows: Rows, email: string, c: Id): (found: Option<nat>)
    ensures found.Some? ==> found.value < |rows| && PendingRow(rows[found.value], email, c)
    ensures forall i :: 0 <= i < (if found.Some? then found.value else |rows|) ==> !PendingRow(rows[i], email, c)
  {
    if rows == [] then None
    else
      var n := |rows| - 1;
      var earlier := FindPending(rows[..n], email, c);
      if earlier.Some? then earlier else if PendingRow(rows[n], email, c) then Some(n) else None
  }

  /** The last live row of an email in a company: what the map of existing rows ends up holding. */
  function LastByEmail(rows: Rows, email: string, c: Id): (found: Option<nat>)
    ensures found.Some? ==> found.value < |rows| && EmailRow(rows[found.value], email, c)
    ensures forall i :: (if found.Some? then found.value + 1 else 0) <= i < |rows| ==> !EmailRow(rows[i], email, c)
  {
    if rows == [] then None
    else
      var n := |rows| - 1;
      if EmailRow(rows[n], email, c) then Some(n) else LastByEmail(rows[..n], email, c)
  }

  predicate InCompany(rows: Rows, c: Id, id: nat) {
    Live(rows, id) && rows[id].company == c
  }

  // --- the unique indexes and upsert ---------------------------------------------------

  predicate Conflicts(a: Member, b: Member) {
    && !a.deleted && !b.deleted && a.company == b.company
    && ((a.user.Some? && a.user == b.user) || (a.email != "" && a.email == b.email))
  }

  /** Writing row r at position i would break a unique index. */
  predicate Violates(rows: Rows, i: nat, r: Member) {
    exists j :: 0 <= j < |rows| && j != i && Conflicts(rows[j], r)
  }

  predicate SameKey(r: Member, m: Member) {
    if m.user.Some? then UserRow(r, m.user.value, m.company) else PendingRow(r, m.email, m.company)
  }

  function Lookup(rows: Rows, m: Member): (found: Option<nat>)
    ensures found.Some? ==> found.value < |rows| && SameKey(rows[found.value], m)
    ensures found.None? ==> forall i :: 0 <= i < |rows| ==> !SameKey(rows[i], m)
  {
    if m.user.Some? then FindUser(rows, m.user.value, m.company) else FindPending(rows, m.email, m.company)
  }

  /** upsertPatch: blank fields leave the row as it is; the two flags are always written. */
  function Patch(r: Member, m: Member): Member {
    r.(user := if m.user.Some? then m.user else r.user,
       role := if m.role.Some? then m.role else r.role,
       activated := m.activated, banned := m.banned,
       email := if m.email != "" then m.email else r.email,
       invited := m.invited || r.invited,
       hasToken := m.hasToken || (!m.activated && r.hasToken))
  }

  function Deduped(rows: Rows, kept: nat, m: Member): (d: Rows)
    ensures |d| == |rows|
  {
    seq(|rows|, j requires 0 <= j < |rows| =>
      if j != kept && SameKey(rows[j], m) then rows[j].(deleted := true) else rows[j])
  }

  function Upsert(rows: Rows, m: Member): Result<Rows, Refusal> {
    var found := Lookup(rows, m);
    if found.None? then
      if Violates(rows, |rows|, m) then Err(UniqueViolation) else Ok(rows + [m])
    else
      var i := found.value;
      var p := Patch(rows[i], m);
      if Violates(rows, i, p) then Err(UniqueViolation) else Ok(Deduped(rows[i := p], i, m))
  }

  // --- counting ------------------------------------------------------------------------

  predicate IsOwner(r: Member, c: Id, o: Id) {
    !r.deleted && r.company == c && r.role == Some(o) && r.activated
  }

  /** CountActiveByRole: activated rows, banned or not. */
  function CountOwners(rows: Rows, c: Id, o: Id): nat {
    if rows == [] then 0
    else CountOwners(rows[..|rows| - 1], c, o) + if IsOwner(rows[|rows| - 1], c, o) then 1 else 0
  }

  /** CountConsumedInviteSlots: every live row that is not an owner's. */
  function CountSlots(rows: Rows, c: Id, owner: Option<Id>): nat {
    if rows == [] then 0
    else
      var r := rows[|rows| - 1];
      CountSlots(rows[..|rows| - 1], c, owner) +
      if !r.deleted && r.company == c && (owner.None? || r.role != owner) then 1 else 0
  }

  predicate Reached(used: nat, limit: int) {
    limit >= 0 && used >= limit
  }

  /** guardLastOwner. */
  predicate GuardBlocks(rows: Rows, c: Id, owner: Option<Id>, current: Option<Id>, next: Option<Id>) {
    owner.Some? && current == owner && next != owner && CountOwners(rows, c, owner.value) <= 1
  }

  // --- the cache -------------------------------------------------------------------------

  function Purged(cache: Cache, u: Id): Cache {
    map k | k in cache && k.0 != u :: cache[k]
  }

  function Dropped(cache: Cache, user: Option<Id>, c: Id): Cache {
    if user.None? then cache else cache - {(user.value, c)}
  }

  /** What ResolveAccess computes on a miss; None when the role could not be resolved. */
  function Answer(rows: Rows, u: Id, c: Id, allowFallback: bool, roleKnown: bool): Option<Entry> {
    var found := FindUser(rows, u, c);
    if found.None? then Some(Entry(false, false, false, None, false))
    else
      var r := rows[found.value];
      if r.role.Some? && roleKnown then Some(Entry(true, r.activated, r.banned, r.role, false))
      else if allowFallback then Some(Entry(true, r.activated, r.banned, None, true))
      else None
  }

  // --- the calls --------------------------------------------------------------------------

  function Refuse(s: State, why: Refusal): Outcome {
    Outcome(s, Some(why))
  }

  function Done(rows: Rows, cache: Cache): Outcome {
    Outcome(State(rows, cache), None)
  }

  function DoLinkCreator(s: State, a: Actor, c: Id, owner: Option<Id>): Outcome {
    match Upsert(s.rows, Member(Some(a.user), c, owner, true, false, a.email, false, false, false))
    case Err(why) => Refuse(s, why)
    case Ok(rows) => Done(rows, Purged(s.cache, a.user))
  }

  predicate HasActiveEmail(rows: Rows, email: string, c: Id) {
    exists i :: 0 <= i < |rows| && EmailRow(rows[i], email, c) && rows[i].activated
  }

  predicate HasPendingEmail(rows: Rows, email: string, c: Id) {
    exists i :: 0 <= i < |rows| && EmailRow(rows[i], email, c) && !rows[i].activated && rows[i].invited
  }

  function Invited(email: string, c: Id, role: Id, banned: bool): Member {
    Member(None, c, Some(role), false, banned, email, true, true, false)
  }

  /** The checks an invitation to one company has to pass once its role is known. */
  function SeatFault(rows: Rows, email: string, c: Id, x: Context): Option<Refusal> {
    if HasActiveEmail(rows, email, c) || HasPendingEmail(rows, email, c) then Some(DuplicateInvite)
    else if Reached(CountSlots(rows, c, OwnerIn(x, c)), LimitIn(x, c)) then Some(InviteQuota)
    else None
  }

  function DoInvite(s: State, a: Actor, c: Id, email: string, role: Id, x: Context): Outcome {
    if email == "" then Refuse(s, EmailRequired)
    else if email == a.email then Refuse(s, SelfChange)
    else if role !in RolesIn(x, c) then Refuse(s, InvalidRole)
    else if OwnerIn(x, c) == Some(role) then Refuse(s, InviteAsOwner)
    else if SeatFault(s.rows, email, c, x).Some? then Refuse(s, SeatFault(s.rows, email, c, x).value)
    else
      match Upsert(s.rows, Invited(email, c, role, false))
      case Err(why) => Refuse(s, why)
      case Ok(rows) => Done(rows, s.cache)
  }

  /** The plan of InviteMulti: every company once, the first grant counting. */
  function InvitePlan(rows: Rows, email: string, grants: seq<Grant>, x: Context): Result<seq<Member>, Refusal> {
    if grants == [] then Ok([])
    else
      var n := |grants| - 1;
      var g := grants[n];
      var earlier := InvitePlan(rows, email, grants[..n], x);
      if earlier.Err? || Mentions(grants[..n], g.company) then earlier
      else if g.company !in x.canInvite then Err(NoMembership)
      else if g.role.None? then Err(RoleRequired)
      else if g.role.value !in RolesIn(x, g.company) then Err(InvalidRole)
      else if SeatFault(rows, email, g.company, x).Some? then Err(SeatFault(rows, email, g.company, x).value)
      else Ok(earlier.value + [Invited(email, g.company, g.role.value, false)])
  }

  predicate Mentions(grants: seq<Grant>, c: Id) {
    exists k :: 0 <= k < |grants| && grants[k].company == c
  }

  /** One upsert after another; the first failure ends it and what was written stays. */
  function UpsertAll(rows: Rows, members: seq<Member>): (Rows, Option<Refusal>) {
    if members == [] then (rows, None)
    else
      var n := |members| - 1;
      var (before, refusal) := UpsertAll(rows, members[..n]);
      if refusal.Some? then (before, refusal)
      else
        match Upsert(before, members[n])
        case Err(why) => (before, Some(why))
        case Ok(after) => (after, None)
  }

  function WithBan(members: seq<Member>, banned: bool): seq<Member> {
    seq(|members|, k requires 0 <= k < |members| => members[k].(banned := banned))
  }

  function DoInviteMulti(s: State, a: Actor, email: string, named: bool, active: bool, grants: seq<Grant>, x: Context): Outcome {
    if email == "" then Refuse(s, EmailRequired)
    else if !named then Refuse(s, NameRequired)
    else if email == a.email then Refuse(s, SelfChange)
    else if grants == [] then Refuse(s, NoCompanies)
    else
      match InvitePlan(s.rows, email, grants, x)
      case Err(why) => Refuse(s, why)
      case Ok(plan) =>
        var (rows, refusal) := UpsertAll(s.rows, WithBan(plan, !active));
        Outcome(State(rows, s.cache), refusal)
  }

  /** `invite` is the row the token belongs to. */
  function DoAccept(s: State, u: Id, invite: nat): Outcome {
    if !Live(s.rows, invite) || !s.rows[invite].hasToken || s.rows[invite].activated || s.rows[invite].user.Some?
    then Refuse(s, InviteInvalid)
    else
      var r := s.rows[invite].(user := Some(u), activated := true, hasToken := false);
      if Violates(s.rows, invite, r) then Refuse(s, UniqueViolation)
      else Done(s.rows[invite := r], Purged(s.cache, u))
  }

  function DoUpdateRole(s: State, c: Id, id: nat, role: Id, x: Context): Outcome {
    if role !in RolesIn(x, c) then Refuse(s, InvalidRole)
    else if !InCompany(s.rows, c, id) then Refuse(s, MemberNotFound)
    else if GuardBlocks(s.rows, c, OwnerIn(x, c), s.rows[id].role, Some(role)) then Refuse(s, LastOwner)
    else Done(s.rows[id := s.rows[id].(role := Some(role))], Dropped(s.cache, s.rows[id].user, c))
  }

  function DoRemove(s: State, c: Id, id: nat, x: Context): Outcome {
    if !InCompany(s.rows, c, id) then Refuse(s, MemberNotFound)
    else if GuardBlocks(s.rows, c, OwnerIn(x, c), s.rows[id].role, None) then Refuse(s, LastOwner)
    else Done(s.rows[id := s.rows[id].(deleted := true)], Dropped(s.cache, s.rows[id].user, c))
  }

  predicate IsSelf(a: Actor, m: Member) {
    m.email == a.email || m.user == Some(a.user)
  }

  function DoSetActive(s: State, a: Actor, c: Id, id: nat, active: bool, x: Context): Outcome {
    if !InCompany(s.rows, c, id) then Refuse(s, MemberNotFound)
    else if IsSelf(a, s.rows[id]) then Refuse(s, SelfChange)
    else if !active && GuardBlocks(s.rows, c, OwnerIn(x, c), s.rows[id].role, None) then Refuse(s, LastOwner)
    else Done(s.rows[id := s.rows[id].(banned := !active)], Dropped(s.cache, s.rows[id].user, c))
  }

  function DoResolve(s: State, u: Id, c: Id, allowFallback: bool, roleKnown: bool): State {
    if (u, c) in s.cache then s
    else
      var answer := Answer(s.rows, u, c, allowFallback, roleKnown);
      if answer.None? then s else s.(cache := s.cache[(u, c) := answer.value])
  }

  // --- syncing a person's companies ---------------------------------------------------------

  /** A planned change carries the row as it was loaded. */
  datatype Change =
    | Add(company: Id, role: Id)
    | Reassign(id: nat, row: Member, role: Id)
    | Drop(id: nat, row: Member)

  function CompanyOf(ch: Change): Id {
    if ch.Add? then ch.company else ch.row.company
  }

  /** The requested role per company; a later grant for the same company wins. */
  function Want(grants: seq<Grant>, x: Context): Result<map<Id, Id>, Refusal> {
    if grants == [] then Ok(map[])
    else
      var n := |grants| - 1;
      var earlier := Want(grants[..n], x);
      if earlier.Err? then earlier
      else if grants[n].company !in x.visible then Err(NoMembership)
      else if grants[n].role.None? then Err(RoleRequired)
      else Ok(earlier.value[grants[n].company := grants[n].role.value])
  }

  /** The person's row per visible company, found by email. */
  function Existing(rows: Rows, email: string, visible: set<Id>): map<Id, nat> {
    map c | c in visible && LastByEmail(rows, email, c).Some? :: LastByEmail(rows, email, c).value
  }

  function WantChange(rows: Rows, email: string, want: map<Id, Id>, c: Id, x: Context): Result<seq<Change>, Refusal>
    requires c in want
  {
    var role, found := want[c], LastByEmail(rows, email, c);
    if role !in RolesIn(x, c) then Err(InvalidRole)
    else if found.None? then
      if c !in x.canInvite then Err(NoMembership)
      else if Reached(CountSlots(rows, c, OwnerIn(x, c)), LimitIn(x, c)) then Err(InviteQuota)
      else Ok([Add(c, role)])
    else
      var row := rows[found.value];
      if row.role == Some(role) then Ok([])
      else if c !in x.canUpdate then Err(NoMembership)
      else if GuardBlocks(rows, c, OwnerIn(x, c), row.role, Some(role)) then Err(LastOwner)
      else Ok([Reassign(found.value, row, role)])
  }

  function DropChange(rows: Rows, email: string, want: map<Id, Id>, c: Id, x: Context): Result<seq<Change>, Refusal> {
    var found := LastByEmail(rows, email, c);
    if c in want || c !in x.visible || found.None? then Ok([])
    else
      var row := rows[found.value];
      if c !in x.canDelete then Err(NoMembership)
      else if GuardBlocks(rows, c, OwnerIn(x, c), row.role, None) then Err(LastOwner)
      else Ok([Drop(found.value, row)])
  }

  function PlanWants(rows: Rows, email: string, want: map<Id, Id>, order: seq<Id>, x: Context): Result<seq<Change>, Refusal> {
    if order == [] then Ok([])
    else
      var n := |order| - 1;
      var earlier := PlanWants(rows, email, want, order[..n], x);
      if earlier.Err? || order[n] !in want then earlier
      else
        var next := WantChange(rows, email, want, order[n], x);
        if next.Err? then next else Ok(earlier.value + next.value)
  }

  function PlanDrops(rows: Rows, email: string, want: map<Id, Id>, order: seq<Id>, x: Context): Result<seq<Change>, Refusal> {
    if order == [] then Ok([])
    else
      var n := |order| - 1;
      var earlier := PlanDrops(rows, email, want, order[..n], x);
      if earlier.Err? then earlier
      else
        var next := DropChange(rows, email, want, order[n], x);
        if next.Err? then next else Ok(earlier.value + next.value)
  }

  /** The row an added company gets: a known person is in at once, anyone else is invited. */
  function Added(m: Member, c: Id, role: Id): Member {
    Member(m.user, c, Some(role), m.user.Some?, m.banned, m.email, true, m.user.None?, false)
  }

  function ApplyChange(s: State, m: Member, ch: Change): Outcome {
    match ch
    case Reassign(id, row, role) =>
      if id < |s.rows| then Done(s.rows[id := row.(role := Some(role))], Dropped(s.cache, row.user, row.company))
      else Done(s.rows, s.cache)
    case Drop(id, row) =>
      if id < |s.rows| then Done(s.rows[id := s.rows[id].(deleted := true)], Dropped(s.cache, row.user, row.company))
      else Done(s.rows, s.cache)
    case Add(c, role) =>
      match Upsert(s.rows, Added(m, c, role))
      case Err(why) => Refuse(s, why)
      case Ok(rows) => Done(rows, if m.user.Some? then Purged(s.cache, m.user.value) else s.cache)
  }

  function ApplyChanges(s: State, m: Member, changes: seq<Change>): Outcome {
    if changes == [] then Outcome(s, None)
    else
      var n := |changes| - 1;
      var before := ApplyChanges(s, m, changes[..n]);
      if before.refusal.Some? then before else ApplyChange(before.state, m, changes[n])
  }

  /** Everything is validated before anything is written. */
  function SyncPlan(
    rows: Rows, a: Actor, c: Id, id: nat, grants: seq<Grant>, x: Context, wantOrder: seq<Id>, dropOrder: seq<Id>)
    : Result<seq<Change>, Refusal>
  {
    if !InCompany(rows, c, id) then Err(MemberNotFound)
    else if IsSelf(a, rows[id]) then Err(SelfChange)
    else if grants == [] then Err(NoCompanies)
    else
      var want := Want(grants, x);
      if want.Err? then Err(want.error)
      else
        var wants := PlanWants(rows, rows[id].email, want.value, wantOrder, x);
        var drops := PlanDrops(rows, rows[id].email, want.value, dropOrder, x);
        if wants.Err? then wants else if drops.Err? then drops else Ok(wants.value + drops.value)
  }

  function DoSync(
    s: State, a: Actor, c: Id, id: nat, grants: seq<Grant>, x: Context, wantOrder: seq<Id>, dropOrder: seq<Id>): Outcome
  {
    match SyncPlan(s.rows, a, c, id, grants, x, wantOrder, dropOrder)
    case Err(why) => Refuse(s, why)
    case Ok(changes) => if id < |s.rows| then ApplyChanges(s, s.rows[id], changes) else Outcome(s, None)
  }

  /** The error a sync ends with: having written, it looks the member up again in the company it was called in. */
  function SyncReport(written: Outcome, c: Id, id: nat): Option<Refusal> {
    if written.refusal.Some? then written.refusal
    else if InCompany(written.state.rows, c, id) then None
    else Some(MemberNotFound)
  }

  // --- runs --------------------------------------------------------------------------------

  function Step(s: State, c: Command): Outcome {
    match c
    case LinkCreator(actor, company, owner) => DoLinkCreator(s, actor, company, owner)
    case Invite(actor, company, email, role, x) => DoInvite(s, actor, company, email, role, x)
    case InviteMulti(actor, email, named, active, grants, x) => DoInviteMulti(s, actor, email, named, active, grants, x)
    case Accept(user, invite) => DoAccept(s, user, invite)
    case UpdateRole(company, id, role, x) => DoUpdateRole(s, company, id, role, x)
    case Remove(company, id, x) => DoRemove(s, company, id, x)
    case SetActive(actor, company, id, active, x) => DoSetActive(s, actor, company, id, active, x)
    case Sync(actor, company, id, grants, x, wants, drops) => DoSync(s, actor, company, id, grants, x, wants, drops)
    case Resolve(user, company, allowFallback, roleKnown) =>
      Outcome(DoResolve(s, user, company, allowFallback, roleKnown), None)
    case Expire(user, company) => Done(s.rows, s.cache - {(user, company)})
  }

  /** The error the caller gets. Only a sync can report one although nothing stopped it. */
  function Report(s: State, c: Command): Option<Refusal> {
    if c.Sync? then SyncReport(Step(s, c), c.company, c.id) else Step(s, c).refusal
  }

  function Run(commands: seq<Command>): State {
    if commands == [] then NO_MEMBERS
    else Step(Run(commands[..|commands| - 1]), commands[|commands| - 1]).state
  }
}
