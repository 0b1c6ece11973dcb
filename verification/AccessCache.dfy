/**
 The access cache: after any run of membership calls, lookups and expiries, every entry
 still present says what the membership rows say.
 */
module AccessCache {
  import opened Results
  import opened Sums
  import opened Memberships
  import opened MembershipLaws

  /** The entry agrees with the live row, or with its absence. */
  predicate Agrees(e: Entry, rows: Rows, u: Id, c: Id) {
    var found := FindUser(rows, u, c);
    && e.hasAccess == found.Some?
    && (found.Some? ==>
          && e.activated == rows[found.value].activated && e.banned == rows[found.value].banned
          && (!e.fallback ==> e.role == rows[found.value].role))
  }

  predicate Coherent(s: State) {
    forall k :: k in s.cache ==> Agrees(s.cache[k], s.rows, k.0, k.1)
  }

  // --- rows that decide one user's access -------------------------------------------------

  /** Both tables have the same rows of the user in the company. */
  predicate SameUserRows(rows: Rows, rows': Rows, u: Id, c: Id) {
    && |rows| <= |rows'|
    && forall j :: 0 <= j < |rows'| && (UserRow(rows'[j], u, c) || (j < |rows| && UserRow(rows[j], u, c))) ==>
                     j < |rows| && rows'[j] == rows[j]
  }

  lemma SameAccess(rows: Rows, rows': Rows, u: Id, c: Id)
    requires SameUserRows(rows, rows', u, c)
    ensures FindUser(rows', u, c) == FindUser(rows, u, c)
    ensures FindUser(rows, u, c).Some? ==> rows'[FindUser(rows, u, c).value] == rows[FindUser(rows, u, c).value]
  {
    var a, b := FindUser(rows, u, c), FindUser(rows', u, c);
    if a.Some? {
      assert UserRow(rows[a.value], u, c);
      assert rows'[a.value] == rows[a.value];
    }
    if b.Some? {
      assert UserRow(rows'[b.value], u, c);
      assert b.value < |rows| && rows'[b.value] == rows[b.value];
    }
  }

  lemma RefreshedCoherence(s: State, s': State)
    requires Coherent(s)
    requires forall k :: k in s'.cache ==> k in s.cache && s'.cache[k] == s.cache[k]
    requires forall k :: k in s'.cache ==> SameUserRows(s.rows, s'.rows, k.0, k.1)
    ensures Coherent(s')
  {
    forall k | k in s'.cache
      ensures Agrees(s'.cache[k], s'.rows, k.0, k.1)
    {
      SameAccess(s.rows, s'.rows, k.0, k.1);
    }
  }

  lemma UpsertOtherUsers(rows: Rows, m: Member, u: Id, c: Id)
    requires Upsert(rows, m).Ok? && m.user != Some(u)
    ensures SameUserRows(rows, Upsert(rows, m).value, u, c)
  {
  }

  lemma {:induction false} UpsertAllOtherUsers(rows: Rows, members: seq<Member>, u: Id, c: Id)
    requires forall k :: 0 <= k < |members| ==> members[k].user != Some(u)
    ensures SameUserRows(rows, UpsertAll(rows, members).0, u, c)
  {
    if members != [] {
      var n := |members| - 1;
      UpsertAllOtherUsers(rows, members[..n], u, c);
      var before := UpsertAll(rows, members[..n]).0;
      if Upsert(before, members[n]).Ok? {
        UpsertOtherUsers(before, members[n], u, c);
      }
    }
  }

  // --- the calls ----------------------------------------------------------------------------

  /** Rewriting one row of a user is safe once the user's entry for that company is dropped. */
  lemma RowEditCoherent(s: State, i: nat, r: Member)
    requires Coherent(s) && i < |s.rows|
    requires r.user == s.rows[i].user && r.company == s.rows[i].company
    ensures Coherent(State(s.rows[i := r], Dropped(s.cache, s.rows[i].user, s.rows[i].company)))
  {
    RefreshedCoherence(s, State(s.rows[i := r], Dropped(s.cache, s.rows[i].user, s.rows[i].company)));
  }

  lemma UpsertCoherent(s: State, m: Member)
    requires Coherent(s) && Upsert(s.rows, m).Ok?
    ensures Coherent(State(Upsert(s.rows, m).value, if m.user.Some? then Purged(s.cache, m.user.value) else s.cache))
  {
    var s' := State(Upsert(s.rows, m).value, if m.user.Some? then Purged(s.cache, m.user.value) else s.cache);
    forall k | k in s'.cache
      ensures SameUserRows(s.rows, s'.rows, k.0, k.1)
    {
      UpsertOtherUsers(s.rows, m, k.0, k.1);
    }
    RefreshedCoherence(s, s');
  }

  lemma ChangeCoherent(s: State, m: Member, ch: Change)
    requires Coherent(s) && Loaded(s.rows, ch)
    ensures Coherent(ApplyChange(s, m, ch).state)
  {
    match ch
    case Reassign(id, row, role) => RowEditCoherent(s, id, row.(role := Some(role)));
    case Drop(id, row) => RowEditCoherent(s, id, row.(deleted := true));
    case Add(c, role) =>
      if Upsert(s.rows, Added(m, c, role)).Ok? {
        UpsertCoherent(s, Added(m, c, role));
      }
  }

  lemma {:induction false} ChangesCoherent(s: State, m: Member, changes: seq<Change>, n: nat)
    requires Coherent(s) && PlanOk(s.rows, changes) && n <= |changes|
    ensures Coherent(ApplyChanges(s, m, changes[..n]).state)
  {
    if n > 0 {
      assert changes[..n][..n - 1] == changes[..n - 1];
      ChangesCoherent(s, m, changes, n - 1);
      StillLoaded(s, m, changes, n - 1);
      var before := ApplyChanges(s, m, changes[..n - 1]);
      if before.refusal.None? {
        ChangeCoherent(before.state, m, changes[n - 1]);
      }
    }
  }

  lemma InviteCoherent(s: State, c: Command)
    requires Coherent(s) && (c.Invite? || c.InviteMulti?)
    ensures Coherent(Step(s, c).state)
  {
    match c
    case Invite(_, company, email, role, _) =>
      if Upsert(s.rows, Invited(email, company, role, false)).Ok? {
        UpsertCoherent(s, Invited(email, company, role, false));
      }
    case InviteMulti(_, email, _, active, grants, x) =>
      var plan := InvitePlan(s.rows, email, grants, x);
      if plan.Ok? {
        PlannedInvites(s.rows, email, grants, x);
        var members := WithBan(plan.value, !active);
        var s' := State(UpsertAll(s.rows, members).0, s.cache);
        forall k | k in s.cache
          ensures SameUserRows(s.rows, s'.rows, k.0, k.1)
        {
          UpsertAllOtherUsers(s.rows, members, k.0, k.1);
        }
        RefreshedCoherence(s, s');
      }
  }

  lemma AcceptCoherent(s: State, u: Id, invite: nat)
    requires Coherent(s)
    ensures Coherent(DoAccept(s, u, invite).state)
  {
    if DoAccept(s, u, invite).refusal.None? {
      RefreshedCoherence(s, DoAccept(s, u, invite).state);
    }
  }

  lemma RowCallCoherent(s: State, c: Command)
    requires Coherent(s) && (c.UpdateRole? || c.Remove? || c.SetActive?)
    ensures Coherent(Step(s, c).state)
  {
    if Step(s, c).refusal.None? {
      RowEditCoherent(s, c.id, Step(s, c).state.rows[c.id]);
    }
  }

  lemma SyncCoherent(s: State, a: Actor, c: Id, id: nat, grants: seq<Grant>, x: Context, o1: Order, o2: Order)
    requires Coherent(s)
    ensures Coherent(DoSync(s, a, c, id, grants, x, o1, o2).state)
  {
    var plan := SyncPlan(s.rows, a, c, id, grants, x, o1, o2);
    if plan.Ok? {
      PlanIsOk(s.rows, a, c, id, grants, x, o1, o2);
      ChangesCoherent(s, s.rows[id], plan.value, |plan.value|);
      assert plan.value[..|plan.value|] == plan.value;
    }
  }

  lemma ResolveCoherent(s: State, u: Id, c: Id, allowFallback: bool, roleKnown: bool)
    requires Coherent(s)
    ensures Coherent(DoResolve(s, u, c, allowFallback, roleKnown))
  {
  }

  lemma StepKeepsCoherence(s: State, c: Command)
    requires Coherent(s)
    ensures Coherent(Step(s, c).state)
  {
    match c
    case LinkCreator(a, company, owner) =>
      var m := Member(Some(a.user), company, owner, true, false, a.email, false, false, false);
      if Upsert(s.rows, m).Ok? {
        UpsertCoherent(s, m);
      }
    case Accept(user, invite) => AcceptCoherent(s, user, invite);
    case Sync(actor, company, id, grants, x, wants, drops) => SyncCoherent(s, actor, company, id, grants, x, wants, drops);
    case Resolve(user, company, allowFallback, roleKnown) => ResolveCoherent(s, user, company, allowFallback, roleKnown);
    case Invite(_, _, _, _, _) => InviteCoherent(s, c);
    case InviteMulti(_, _, _, _, _, _) => InviteCoherent(s, c);
    case Expire(_, _) =>
    case _ => RowCallCoherent(s, c);
  }

  /** After every run, each cached answer, "no access" included, is what the rows say. */
  lemma {:induction false} CacheNeverLies(commands: seq<Command>)
    ensures Coherent(Run(commands))
  {
    if commands != [] {
      var n := |commands| - 1;
      CacheNeverLies(commands[..n]);
      StepKeepsCoherence(Run(commands[..n]), commands[n]);
    }
  }

  /** So a cached lookup and a fresh one agree, up to whether the role service was reachable. */
  lemma CachedIsFresh(commands: seq<Command>, u: Id, c: Id, allowFallback: bool, roleKnown: bool)
    requires (u, c) in Run(commands).cache
    ensures var cached, computed := Run(commands).cache[(u, c)], Answer(Run(commands).rows, u, c, allowFallback, roleKnown);
            computed.Some? ==>
              && cached.hasAccess == computed.value.hasAccess
              && (cached.hasAccess ==> cached.activated == computed.value.activated && cached.banned == computed.value.banned)
              && (cached.hasAccess && !cached.fallback && !computed.value.fallback ==> cached.role == computed.value.role)
  {
    CacheNeverLies(commands);
  }
}
