/**
 Owners who can enter. The last-owner guard counts activated owner rows, banned or not, so
 it does not protect the last owner who is not banned; this says, call by call and for
 whole runs, when one is left. A call is accepted when nothing stopped its writes.
 */
module UsableOwners {
  import opened Results
  import opened Sums
  import opened Memberships
  import opened MembershipLaws
  import opened SyncLaws
  import opened OwnerLaws

  predicate IsUsableOwner(r: Member, c: Id, o: Id) {
    IsOwner(r, c, o) && !r.banned
  }

  predicate HasUsableOwner(rows: Rows, c: Id, o: Id) {
    exists i :: 0 <= i < |rows| && IsUsableOwner(rows[i], c, o)
  }

  predicate HasOtherUsableOwner(rows: Rows, c: Id, o: Id, k: nat) {
    exists i :: 0 <= i < |rows| && i != k && IsUsableOwner(rows[i], c, o)
  }

  /** What an accepted call does to the activated rows of one company: at most one row is written. */
  datatype Touch = Nothing | Wrote(at: nat, row: Member)

  function UpsertTouch(rows: Rows, m: Member, c: Id): Touch {
    if m.company != c then Nothing
    else if Lookup(rows, m).None? then Wrote(|rows|, m)
    else Wrote(Lookup(rows, m).value, Patch(rows[Lookup(rows, m).value], m))
  }

  function RowTouch(rows: Rows, id: nat, c: Id, r: Member): Touch {
    if id < |rows| && rows[id].company == c then Wrote(id, r) else Nothing
  }

  function SyncTouch(rows: Rows, id: nat, grants: seq<Grant>, x: Context, c: Id): Touch {
    if id >= |rows| || Want(grants, x).Err? then Nothing
    else
      match Expected(rows, rows[id].email, Want(grants, x).value, x.visible, c)
      case None => Nothing
      case Some(ch) => Wrote(Landing(rows, rows[id], ch), Target(rows, rows[id], ch))
  }

  /** Invitations only add rows that are not activated. */
  function TouchOf(rows: Rows, c: Command, place: Id): Touch {
    match c
    case LinkCreator(a, company, owner) =>
      UpsertTouch(rows, Member(Some(a.user), company, owner, true, false, a.email, false, false, false), place)
    case Accept(u, id) =>
      if id < |rows| then RowTouch(rows, id, place, rows[id].(user := Some(u), activated := true, hasToken := false)) else Nothing
    case UpdateRole(_, id, role, _) =>
      if id < |rows| then RowTouch(rows, id, place, rows[id].(role := Some(role))) else Nothing
    case Remove(_, id, _) => if id < |rows| then RowTouch(rows, id, place, rows[id].(deleted := true)) else Nothing
    case SetActive(_, _, id, active, _) =>
      if id < |rows| then RowTouch(rows, id, place, rows[id].(banned := !active)) else Nothing
    case Sync(_, _, id, grants, x, _, _) => SyncTouch(rows, id, grants, x, place)
    case _ => Nothing
  }

  /** Somebody else is a usable owner, or the row as written is one. */
  predicate UsableAfter(rows: Rows, t: Touch, c: Id, o: Id) {
    match t
    case Nothing => HasUsableOwner(rows, c, o)
    case Wrote(k, r) => HasOtherUsableOwner(rows, c, o, k) || IsUsableOwner(r, c, o)
  }

  /** The map loops of a sync visit every company they have to. */
  predicate Complete(rows: Rows, c: Command) {
    c.Sync? && c.id < |rows| && Want(c.grants, c.context).Ok? ==>
      VisitsAll(rows, rows[c.id].email, Want(c.grants, c.context).value, c.context.visible, c.wantOrder, c.dropOrder)
  }

  // --- call by call ---------------------------------------------------------------------

  lemma WriteDecides(rows: Rows, rows': Rows, c: Id, o: Id, k: nat)
    requires k < |rows'| && AgreeOnBut(rows, rows', c, k)
    ensures HasUsableOwner(rows', c, o) <==> HasOtherUsableOwner(rows, c, o, k) || IsUsableOwner(rows'[k], c, o)
  {
    if i: nat :| i < |rows'| && IsUsableOwner(rows'[i], c, o) && i != k {
      assert IsUsableOwner(rows[i], c, o);
    }
    if i: nat :| i < |rows| && i != k && IsUsableOwner(rows[i], c, o) {
      assert IsUsableOwner(rows'[i], c, o);
    }
  }

  lemma AgreementDecides(rows: Rows, rows': Rows, c: Id, o: Id)
    requires AgreeOn(rows, rows', c)
    ensures HasUsableOwner(rows', c, o) <==> HasUsableOwner(rows, c, o)
  {
    if i: nat :| i < |rows'| && IsUsableOwner(rows'[i], c, o) {
      assert IsUsableOwner(rows[i], c, o);
    }
    if i: nat :| i < |rows| && IsUsableOwner(rows[i], c, o) {
      assert IsUsableOwner(rows'[i], c, o);
    }
  }

  lemma PendingRowsDecideNothing(rows: Rows, members: seq<Member>, c: Id, o: Id)
    requires forall k :: 0 <= k < |members| ==> !members[k].activated
    ensures HasUsableOwner(rows + members, c, o) <==> HasUsableOwner(rows, c, o)
  {
    if i: nat :| i < |rows + members| && IsUsableOwner((rows + members)[i], c, o) {
      assert i < |rows| && IsUsableOwner(rows[i], c, o);
    }
    if i: nat :| i < |rows| && IsUsableOwner(rows[i], c, o) {
      assert IsUsableOwner((rows + members)[i], c, o);
    }
  }

  lemma BeyondTheEnd(rows: Rows, c: Id, o: Id, k: nat)
    requires |rows| <= k
    ensures HasOtherUsableOwner(rows, c, o, k) <==> HasOtherUsableOwner(rows, c, o, |rows|)
  {
    if i: nat :| i < |rows| && i != k && IsUsableOwner(rows[i], c, o) {
      assert i != |rows|;
    }
    if i: nat :| i < |rows| && i != |rows| && IsUsableOwner(rows[i], c, o) {
      assert i != k;
    }
  }

  /** An accepted upsert writes one row and nothing else. */
  lemma UpsertWritesOneRow(rows: Rows, m: Member)
    requires Inv(rows) && RowOk(m) && !m.deleted && Upsert(rows, m).Ok?
    ensures var found := Lookup(rows, m);
            Upsert(rows, m).value == if found.None? then rows + [m] else rows[found.value := Patch(rows[found.value], m)]
  {
    var found := Lookup(rows, m);
    if found.Some? {
      var p := Patch(rows[found.value], m);
      PatchedRowOk(rows[found.value], m);
      WriteKeepsInv(rows, found.value, p);
      NothingToDedupe(rows[found.value := p], found.value, m);
    }
  }

  lemma LinkDecides(s: State, c: Command, place: Id, o: Id)
    requires Inv(s.rows) && c.LinkCreator? && Step(s, c).refusal.None?
    ensures HasUsableOwner(Step(s, c).state.rows, place, o) <==> UsableAfter(s.rows, TouchOf(s.rows, c, place), place, o)
  {
    var m := Member(Some(c.actor.user), c.company, c.owner, true, false, c.actor.email, false, false, false);
    UpsertWritesOneRow(s.rows, m);
    if c.company == place {
      var found := Lookup(s.rows, m);
      WriteDecides(s.rows, Step(s, c).state.rows, place, o, if found.Some? then found.value else |s.rows|);
    } else {
      UpsertStaysInCompany(s.rows, m, place);
      AgreementDecides(s.rows, Step(s, c).state.rows, place, o);
    }
  }

  lemma RowCallDecides(s: State, c: Command, place: Id, o: Id)
    requires (c.UpdateRole? || c.Remove? || c.SetActive?) && Step(s, c).refusal.None?
    ensures HasUsableOwner(Step(s, c).state.rows, place, o) <==> UsableAfter(s.rows, TouchOf(s.rows, c, place), place, o)
  {
    if s.rows[c.id].company == place {
      WriteDecides(s.rows, Step(s, c).state.rows, place, o, c.id);
    } else {
      AgreementDecides(s.rows, Step(s, c).state.rows, place, o);
    }
  }

  lemma AcceptDecides(s: State, c: Command, place: Id, o: Id)
    requires c.Accept? && Step(s, c).refusal.None?
    ensures HasUsableOwner(Step(s, c).state.rows, place, o) <==> UsableAfter(s.rows, TouchOf(s.rows, c, place), place, o)
  {
    if s.rows[c.invite].company == place {
      WriteDecides(s.rows, Step(s, c).state.rows, place, o, c.invite);
    } else {
      AgreementDecides(s.rows, Step(s, c).state.rows, place, o);
    }
  }

  lemma InviteDecides(s: State, c: Command, place: Id, o: Id)
    requires Inv(s.rows) && c.Invite? && Step(s, c).refusal.None?
    ensures HasUsableOwner(Step(s, c).state.rows, place, o) <==> HasUsableOwner(s.rows, place, o)
  {
    var m := Invited(c.email, c.company, c.role, false);
    NobodyThere(s.rows, c.email, c.company);
    AddSucceeds(s.rows, m);
    forall i | 0 <= i < |s.rows|
      ensures !SameKey(s.rows[i], m)
    {
      assert !EmailRow(s.rows[i], c.email, c.company);
    }
    PendingRowsDecideNothing(s.rows, [m], place, o);
  }

  lemma InvitesDecide(s: State, c: Command, place: Id, o: Id)
    requires Inv(s.rows) && c.InviteMulti? && Step(s, c).refusal.None?
    ensures HasUsableOwner(Step(s, c).state.rows, place, o) <==> HasUsableOwner(s.rows, place, o)
  {
    InvitesNeverStopHalfway(s, c.actor, c.email, c.active, c.grants, c.context);
    PlannedInvites(s.rows, c.email, c.grants, c.context);
    PendingRowsDecideNothing(s.rows, WithBan(InvitePlan(s.rows, c.email, c.grants, c.context).value, !c.active), place, o);
  }

  lemma SyncDecides(s: State, c: Command, place: Id, o: Id)
    requires Inv(s.rows) && c.Sync? && Step(s, c).refusal.None? && Complete(s.rows, c)
    ensures HasUsableOwner(Step(s, c).state.rows, place, o) <==> UsableAfter(s.rows, TouchOf(s.rows, c, place), place, o)
  {
    var rows', m := Step(s, c).state.rows, s.rows[c.id];
    SyncByCompany(s, c.actor, c.company, c.id, c.grants, c.context, c.wantOrder, c.dropOrder, place);
    var expected := Expected(s.rows, m.email, Want(c.grants, c.context).value, c.context.visible, place);
    if expected.None? {
      AgreementDecides(s.rows, rows', place, o);
    } else {
      ExpectedCompany(s.rows, m.email, Want(c.grants, c.context).value, c.context.visible, place);
      var k :| Happened(s.rows, rows', m, expected.value, k);
      WriteDecides(s.rows, rows', place, o, k);
      if Spot(s.rows, m, expected.value).None? {
        BeyondTheEnd(s.rows, place, o, k);
      }
    }
  }

  /**
   After any accepted call a company has a usable owner exactly when one of its other rows
   is one, or the row that the call wrote is one as written.
   */
  lemma CallKeepsUsableOwnerExactlyWhen(s: State, c: Command, place: Id, o: Id)
    requires Inv(s.rows) && Step(s, c).refusal.None? && Complete(s.rows, c)
    ensures HasUsableOwner(Step(s, c).state.rows, place, o) <==> UsableAfter(s.rows, TouchOf(s.rows, c, place), place, o)
  {
    match c
    case LinkCreator(_, _, _) => LinkDecides(s, c, place, o);
    case Invite(_, _, _, _, _) => InviteDecides(s, c, place, o);
    case InviteMulti(_, _, _, _, _, _) => InvitesDecide(s, c, place, o);
    case Accept(_, _) => AcceptDecides(s, c, place, o);
    case Sync(_, _, _, _, _, _, _) => SyncDecides(s, c, place, o);
    case Resolve(_, _, _, _) =>
    case Expire(_, _) =>
    case _ => RowCallDecides(s, c, place, o);
  }

  /** Deactivating or removing a member leaves a usable owner exactly when another row is one. */
  lemma DeactivatingKeepsUsableOwnerExactlyWhen(s: State, a: Actor, c: Id, id: nat, x: Context, o: Id)
    requires DoSetActive(s, a, c, id, false, x).refusal.None?
    ensures HasUsableOwner(DoSetActive(s, a, c, id, false, x).state.rows, c, o) <==> HasOtherUsableOwner(s.rows, c, o, id)
  {
    RowCallDecides(s, SetActive(a, c, id, false, x), c, o);
  }

  lemma RemovingKeepsUsableOwnerExactlyWhen(s: State, c: Id, id: nat, x: Context, o: Id)
    requires DoRemove(s, c, id, x).refusal.None?
    ensures HasUsableOwner(DoRemove(s, c, id, x).state.rows, c, o) <==> HasOtherUsableOwner(s.rows, c, o, id)
  {
    RowCallDecides(s, Remove(c, id, x), c, o);
  }

  /** A role change also does when it makes an activated member who is not banned an owner. */
  lemma RoleChangeKeepsUsableOwnerExactlyWhen(s: State, c: Id, id: nat, role: Id, x: Context, o: Id)
    requires DoUpdateRole(s, c, id, role, x).refusal.None?
    ensures HasUsableOwner(DoUpdateRole(s, c, id, role, x).state.rows, c, o)
            <==> HasOtherUsableOwner(s.rows, c, o, id) || (role == o && s.rows[id].activated && !s.rows[id].banned)
  {
    RowCallDecides(s, UpdateRole(c, id, role, x), c, o);
  }

  // --- losing the last one -----------------------------------------------------------------

  /** The call unmakes a usable owner, and the company has no other. */
  predicate TakesLastUsableOwner(rows: Rows, c: Command, place: Id, o: Id) {
    var t := TouchOf(rows, c, place);
    && t.Wrote? && t.at < |rows| && IsUsableOwner(rows[t.at], place, o) && !IsUsableOwner(t.row, place, o)
    && !HasOtherUsableOwner(rows, place, o, t.at)
  }

  lemma LosesUsableOwnerExactlyWhen(s: State, c: Command, place: Id, o: Id)
    requires Inv(s.rows) && Step(s, c).refusal.None? && Complete(s.rows, c) && HasUsableOwner(s.rows, place, o)
    ensures HasUsableOwner(Step(s, c).state.rows, place, o) <==> !TakesLastUsableOwner(s.rows, c, place, o)
  {
    CallKeepsUsableOwnerExactlyWhen(s, c, place, o);
    var i: nat :| i < |s.rows| && IsUsableOwner(s.rows[i], place, o);
    var t := TouchOf(s.rows, c, place);
    if t.Wrote? && i != t.at {
      assert HasOtherUsableOwner(s.rows, place, o, t.at);
    }
  }

  lemma RefusedChangesNothing(s: State, c: Command)
    requires Inv(s.rows) && Step(s, c).refusal.Some?
    ensures Step(s, c).state == s
  {
    match c
    case InviteMulti(a, email, named, active, grants, x) =>
      if email != "" && named && email != a.email && grants != [] && InvitePlan(s.rows, email, grants, x).Ok? {
        InvitesNeverStopHalfway(s, a, email, active, grants, x);
      }
    case Sync(a, company, id, grants, x, wants, drops) => SyncNeverStopsHalfway(s, a, company, id, grants, x, wants, drops);
    case _ =>
  }

  /** After the first k calls of the run. */
  predicate UsableAt(commands: seq<Command>, k: nat, place: Id, o: Id)
    requires k <= |commands|
  {
    HasUsableOwner(Run(commands[..k]).rows, place, o)
  }

  ghost predicate UsableThroughout(commands: seq<Command>, n: nat, place: Id, o: Id) {
    forall k :: n <= k <= |commands| ==> UsableAt(commands, k, place, o)
  }

  /** The k-th call of the run is refused, or leaves a usable owner. */
  ghost predicate SparesOwner(commands: seq<Command>, k: nat, place: Id, o: Id)
    requires k < |commands|
  {
    var s := Run(commands[..k]);
    Step(s, commands[k]).refusal.None? ==> !TakesLastUsableOwner(s.rows, commands[k], place, o)
  }

  ghost predicate CompleteRun(commands: seq<Command>) {
    forall k :: 0 <= k < |commands| ==> Complete(Run(commands[..k]).rows, commands[k])
  }

  lemma NextKeepsUsableOwnerExactlyWhen(commands: seq<Command>, k: nat, place: Id, o: Id)
    requires CompleteRun(commands) && k < |commands| && UsableAt(commands, k, place, o)
    ensures UsableAt(commands, k + 1, place, o) <==> SparesOwner(commands, k, place, o)
  {
    var s := Run(commands[..k]);
    assert commands[..k + 1][..k] == commands[..k];
    RunKeepsInv(commands[..k]);
    if Step(s, commands[k]).refusal.None? {
      LosesUsableOwnerExactlyWhen(s, commands[k], place, o);
    } else {
      RefusedChangesNothing(s, commands[k]);
    }
  }

  ghost predicate SparedBetween(commands: seq<Command>, n: nat, k: nat, place: Id, o: Id)
    requires k <= |commands|
  {
    forall j :: n <= j < k ==> SparesOwner(commands, j, place, o)
  }

  lemma SparedBefore(commands: seq<Command>, n: nat, k: nat, place: Id, o: Id)
    requires n < k <= |commands| && SparedBetween(commands, n, k, place, o)
    ensures SparedBetween(commands, n, k - 1, place, o)
  {
  }

  lemma SparedStep(commands: seq<Command>, n: nat, k: nat, place: Id, o: Id)
    requires CompleteRun(commands) && n < k <= |commands| && SparedBetween(commands, n, k, place, o)
    requires UsableAt(commands, k - 1, place, o)
    ensures UsableAt(commands, k, place, o)
  {
    assert SparesOwner(commands, k - 1, place, o);
    NextKeepsUsableOwnerExactlyWhen(commands, k - 1, place, o);
  }

  lemma {:induction false} SparedSoFar(commands: seq<Command>, n: nat, k: nat, place: Id, o: Id)
    requires CompleteRun(commands) && n <= k <= |commands| && UsableAt(commands, n, place, o)
    requires SparedBetween(commands, n, k, place, o)
    ensures UsableAt(commands, k, place, o)
    decreases k
  {
    if n < k {
      SparedBefore(commands, n, k, place, o);
      SparedSoFar(commands, n, k - 1, place, o);
      SparedStep(commands, n, k, place, o);
    }
  }

  /** Once a company has a usable owner, it has one after every call of a run exactly when no accepted call takes the last one. */
  lemma UsableOwnerRemainsExactlyWhen(commands: seq<Command>, n: nat, place: Id, o: Id)
    requires CompleteRun(commands) && n <= |commands| && UsableAt(commands, n, place, o)
    ensures UsableThroughout(commands, n, place, o) <==> SparedBetween(commands, n, |commands|, place, o)
  {
    if UsableThroughout(commands, n, place, o) {
      forall k | n <= k < |commands|
        ensures SparesOwner(commands, k, place, o)
      {
        assert UsableAt(commands, k + 1, place, o);
        NextKeepsUsableOwnerExactlyWhen(commands, k, place, o);
      }
    }
    if SparedBetween(commands, n, |commands|, place, o) {
      forall k | n <= k <= |commands|
        ensures UsableAt(commands, k, place, o)
      {
        SparedUpTo(commands, n, k, place, o);
        SparedSoFar(commands, n, k, place, o);
      }
    }
  }

  lemma SparedUpTo(commands: seq<Command>, n: nat, k: nat, place: Id, o: Id)
    requires n <= k <= |commands| && SparedBetween(commands, n, |commands|, place, o)
    ensures SparedBetween(commands, n, k, place, o)
  {
  }

  // --- what the guard misses ------------------------------------------------------------------

  /** The role service names o as the owner role of the company. */
  predicate KnowsOwner(c: Command, place: Id, o: Id) {
    match c
    case LinkCreator(_, _, owner) => owner == Some(o)
    case UpdateRole(_, _, _, x) => OwnerIn(x, place) == Some(o)
    case Remove(_, _, x) => OwnerIn(x, place) == Some(o)
    case SetActive(_, _, _, _, x) => OwnerIn(x, place) == Some(o)
    case Sync(_, _, _, _, x, _, _) => OwnerIn(x, place) == Some(o)
    case _ => true
  }

  predicate HasBannedOwner(rows: Rows, c: Id, o: Id) {
    exists i :: 0 <= i < |rows| && IsOwner(rows[i], c, o) && rows[i].banned
  }

  /** The sync adds the company over the user's own row there, which no guard looks at. */
  predicate AddsOverOwnRow(rows: Rows, c: Command, place: Id) {
    c.Sync? && c.id < |rows| && Want(c.grants, c.context).Ok? &&
    var expected := Expected(rows, rows[c.id].email, Want(c.grants, c.context).value, c.context.visible, place);
    expected.Some? && expected.value.Add? && Spot(rows, rows[c.id], expected.value).Some?
  }

  lemma CountedOwnerIsBanned(rows: Rows, c: Id, o: Id, k: nat)
    requires CountOwners(rows, c, o) >= 2 && !HasOtherUsableOwner(rows, c, o, k)
    ensures HasBannedOwner(rows, c, o)
  {
    var j := AnotherOwner(rows, c, o, k);
    assert !IsUsableOwner(rows[j], c, o);
  }

  lemma SyncPassedTheGuard(s: State, c: Command, place: Id, o: Id)
    requires c.Sync? && Step(s, c).refusal.None? && Complete(s.rows, c) && OwnerIn(c.context, place) == Some(o)
    requires TakesLastUsableOwner(s.rows, c, place, o) && !AddsOverOwnRow(s.rows, c, place)
    ensures CountOwners(s.rows, place, o) >= 2
  {
    var x, m := c.context, s.rows[c.id];
    SyncIsGuarded(s.rows, c.actor, c.company, c.id, c.grants, x, c.wantOrder, c.dropOrder);
    PlanContains(s.rows, c.actor, c.company, c.id, c.grants, x, c.wantOrder, c.dropOrder, place);
    ExpectedCompany(s.rows, m.email, Want(c.grants, x).value, x.visible, place);
    assert Guarded(s.rows, m.email, x, Expected(s.rows, m.email, Want(c.grants, x).value, x.visible, place).value);
  }

  /**
   The guard lets the last usable owner of a company go in two ways only: it counted a
   banned owner beside him, or a sync added the company over his own row.
   */
  lemma WhatTheGuardMisses(s: State, c: Command, place: Id, o: Id)
    requires Inv(s.rows) && Step(s, c).refusal.None? && Complete(s.rows, c) && KnowsOwner(c, place, o)
    requires TakesLastUsableOwner(s.rows, c, place, o)
    ensures HasBannedOwner(s.rows, place, o) || AddsOverOwnRow(s.rows, c, place)
  {
    var k := TouchOf(s.rows, c, place).at;
    if !AddsOverOwnRow(s.rows, c, place) {
      if c.Sync? {
        SyncPassedTheGuard(s, c, place, o);
      }
      CountedOwnerIsBanned(s.rows, place, o, k);
    }
  }
}
