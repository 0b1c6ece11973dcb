/**
 Lookups that overlap other calls. A lookup that misses reads the membership row first and
 stores its answer later; a call that changes the row in between drops nothing, because
 nothing is stored yet. A call's own row write and invalidation are one event.
 */
module CacheRaces {
  import opened Results
  import opened Sums
  import opened Memberships
  import opened AccessCache
  import opened MembershipEdgeCases

  /** An answer that has been computed and not stored yet. */
  datatype Lookup = Lookup(user: Id, company: Id, entry: Entry)

  datatype Scene = Scene(state: State, pending: map<nat, Lookup>)

  /** `t` names a lookup that missed; a hit and an unresolved answer store nothing. */
  datatype Event =
    | Called(command: Command)
    | Looked(t: nat, user: Id, company: Id, allowFallback: bool, roleKnown: bool)
    | Filled(t: nat)

  function Happen(s: Scene, e: Event): Scene {
    match e
    case Called(c) => s.(state := Step(s.state, c).state)
    case Looked(t, u, c, allowFallback, roleKnown) =>
      var answer := Answer(s.state.rows, u, c, allowFallback, roleKnown);
      if t in s.pending || (u, c) in s.state.cache || answer.None? then s
      else s.(pending := s.pending[t := Lookup(u, c, answer.value)])
    case Filled(t) =>
      if t !in s.pending then s
      else
        var l := s.pending[t];
        Scene(s.state.(cache := s.state.cache[(l.user, l.company) := l.entry]), s.pending - {t})
  }

  function Play(events: seq<Event>): Scene {
    if events == [] then Scene(NO_MEMBERS, map[])
    else Happen(Play(events[..|events| - 1]), events[|events| - 1])
  }

  lemma PlayNext(events: seq<Event>, n: nat)
    requires n < |events|
    ensures Play(events[..n + 1]) == Happen(Play(events[..n]), events[n])
  {
    assert events[..n + 1][..n] == events[..n];
  }

  lemma PlayOneMore(events: seq<Event>, e: Event)
    ensures Play(events + [e]) == Happen(Play(events), e)
  {
    assert (events + [e])[..|events|] == events;
  }

  // --- exactly when the cache lies -----------------------------------------------------------

  /** The answer is still what the rows say when it is stored. */
  predicate StillTrue(s: Scene, t: nat) {
    t in s.pending ==> Agrees(s.pending[t].entry, s.state.rows, s.pending[t].user, s.pending[t].company)
  }

  lemma FillKeepsCoherenceExactlyWhen(s: Scene, t: nat)
    requires Coherent(s.state)
    ensures Coherent(Happen(s, Filled(t)).state) <==> StillTrue(s, t)
  {
    if t in s.pending {
      var l, s' := s.pending[t], Happen(s, Filled(t)).state;
      assert s'.cache[(l.user, l.company)] == l.entry;
    }
  }

  predicate TrueFill(events: seq<Event>, n: nat)
    requires n < |events|
  {
    events[n].Filled? ==> StillTrue(Play(events[..n]), events[n].t)
  }

  predicate CoherentAt(events: seq<Event>, n: nat)
    requires n <= |events|
  {
    Coherent(Play(events[..n]).state)
  }

  lemma EventKeepsCoherenceExactlyWhen(events: seq<Event>, n: nat)
    requires n < |events| && CoherentAt(events, n)
    ensures CoherentAt(events, n + 1) <==> TrueFill(events, n)
  {
    PlayNext(events, n);
    match events[n]
    case Called(c) => StepKeepsCoherence(Play(events[..n]).state, c);
    case Filled(t) => FillKeepsCoherenceExactlyWhen(Play(events[..n]), t);
    case Looked(_, _, _, _, _) =>
  }

  predicate AllTrueFills(events: seq<Event>, n: nat)
    requires n <= |events|
  {
    forall k :: 0 <= k < n ==> TrueFill(events, k)
  }

  lemma {:induction false} TrueFillsKeepCoherence(events: seq<Event>, n: nat)
    requires n <= |events| && AllTrueFills(events, n)
    ensures CoherentAt(events, n)
  {
    if n > 0 {
      assert AllTrueFills(events, n - 1) && TrueFill(events, n - 1);
      TrueFillsKeepCoherence(events, n - 1);
      EventKeepsCoherenceExactlyWhen(events, n - 1);
    }
  }

  /**
   Whatever overlaps, every cached answer is what the rows say after every event exactly
   when every answer that is stored is still true at that moment.
   */
  lemma CacheNeverLiesExactlyWhen(events: seq<Event>)
    ensures (forall n :: 0 <= n <= |events| ==> CoherentAt(events, n)) <==> AllTrueFills(events, |events|)
  {
    if forall n :: 0 <= n <= |events| ==> CoherentAt(events, n) {
      forall n | 0 <= n < |events|
        ensures TrueFill(events, n)
      {
        assert CoherentAt(events, n) && CoherentAt(events, n + 1);
        EventKeepsCoherenceExactlyWhen(events, n);
      }
    }
    if AllTrueFills(events, |events|) {
      forall n | 0 <= n <= |events|
        ensures CoherentAt(events, n)
      {
        assert AllTrueFills(events, n);
        TrueFillsKeepCoherence(events, n);
      }
    }
  }

  // --- lookups that are not overtaken ----------------------------------------------------------

  lemma AnswerAgrees(rows: Rows, u: Id, c: Id, allowFallback: bool, roleKnown: bool)
    ensures var answer := Answer(rows, u, c, allowFallback, roleKnown);
            answer.Some? ==> Agrees(answer.value, rows, u, c)
  {
  }

  /** Event m leaves the user's rows in the company as they are. */
  predicate Spares(events: seq<Event>, m: nat, u: Id, c: Id)
    requires m < |events|
  {
    SameUserRows(Play(events[..m]).state.rows, Play(events[..m + 1]).state.rows, u, c)
  }

  /** Every answer waiting after n events has seen no change of its user's rows. */
  predicate Unovertaken(events: seq<Event>, n: nat)
    requires n <= |events|
  {
    forall m, t :: 0 <= m < n && t in Play(events[..m]).pending ==>
      var l := Play(events[..m]).pending[t];
      Spares(events, m, l.user, l.company)
  }

  predicate PendingTrue(s: Scene) {
    forall t :: t in s.pending ==> StillTrue(s, t)
  }

  lemma AgreesStays(e: Entry, rows: Rows, rows': Rows, u: Id, c: Id)
    requires Agrees(e, rows, u, c) && SameUserRows(rows, rows', u, c)
    ensures Agrees(e, rows', u, c)
  {
    SameAccess(rows, rows', u, c);
  }

  lemma PendingStaysTrue(events: seq<Event>, n: nat)
    requires n < |events| && PendingTrue(Play(events[..n]))
    requires forall t :: t in Play(events[..n]).pending ==>
               Spares(events, n, Play(events[..n]).pending[t].user, Play(events[..n]).pending[t].company)
    ensures PendingTrue(Play(events[..n + 1]))
  {
    var s, s' := Play(events[..n]), Play(events[..n + 1]);
    PlayNext(events, n);
    forall t | t in s'.pending
      ensures StillTrue(s', t)
    {
      if t in s.pending {
        var l := s.pending[t];
        assert StillTrue(s, t) && Spares(events, n, l.user, l.company);
        AgreesStays(l.entry, s.state.rows, s'.state.rows, l.user, l.company);
      } else {
        var e := events[n];
        AnswerAgrees(s.state.rows, e.user, e.company, e.allowFallback, e.roleKnown);
      }
    }
  }

  lemma {:induction false} UnovertakenStaysTrue(events: seq<Event>, n: nat)
    requires n <= |events| && Unovertaken(events, n)
    ensures PendingTrue(Play(events[..n]))
  {
    if n > 0 {
      assert Unovertaken(events, n - 1);
      UnovertakenStaysTrue(events, n - 1);
      PendingStaysTrue(events, n - 1);
    }
  }

  /** When no row of a user changes while a lookup of that user is under way, no cached answer ever lies. */
  lemma UnovertakenLookupsAreSafe(events: seq<Event>)
    requires Unovertaken(events, |events|)
    ensures forall n :: 0 <= n <= |events| ==> CoherentAt(events, n)
  {
    forall n | 0 <= n < |events|
      ensures TrueFill(events, n)
    {
      assert Unovertaken(events, n);
      UnovertakenStaysTrue(events, n);
    }
    CacheNeverLiesExactlyWhen(events);
  }

  // --- a lookup that is overtaken -----------------------------------------------------------------

  function CalledAll(commands: seq<Command>): seq<Event> {
    seq(|commands|, k requires 0 <= k < |commands| => Called(commands[k]))
  }

  lemma {:induction false} PlayCalls(commands: seq<Command>)
    ensures Play(CalledAll(commands)) == Scene(Run(commands), map[])
  {
    if commands != [] {
      var n := |commands| - 1;
      PlayCalls(commands[..n]);
      assert CalledAll(commands)[..n] == CalledAll(commands[..n]);
    }
  }

  lemma PartnerIsBanned(founder: Member, partner: Member)
    requires founder == OwnerRow(1, 1, "a") && partner == JoinedRow(2, 1, "b")
    ensures DoSetActive(State(Team(founder, partner), map[]), Actor(3, "c"), 1, 1, false, Inside({1}))
            == Done(Team(founder, partner.(banned := true)), map[])
  {
    EmptyCache(2, 1);
    assert 1 in Inside({1}).owners;
    assert Team(founder, partner)[1 := partner.(banned := true)] == Team(founder, partner.(banned := true));
  }

  lemma PartnerAnswer(founder: Member, partner: Member)
    requires founder == OwnerRow(1, 1, "a") && partner == JoinedRow(2, 1, "b")
    ensures Answer(Team(founder, partner), 2, 1, false, true) == Some(Entry(true, true, false, Some(8), false))
  {
    assert UserRow(Team(founder, partner)[1], 2, 1);
    assert FindUser(Team(founder, partner), 2, 1) == Some(1);
  }

  /** Six calls, with a lookup of user 2 answered before the last one and stored after it. */
  predicate LookedUpBeforeLast(calls: seq<Call>, events: seq<Event>) {
    && |calls| == 6
    && events == CalledAll(CommandsOf(calls[..5])) + [Looked(0, 2, 1, false, true)]
                 + [Called(calls[5].command)] + [Filled(0)]
  }

  /** User 2 is banned by the row and let in by the cache. */
  predicate LetsBannedIn(s: State) {
    && |s.rows| == 3 && UserRow(s.rows[1], 2, 1) && s.rows[1].banned
    && (2, 1) in s.cache && s.cache[(2, 1)].hasAccess && !s.cache[(2, 1)].banned
  }

  /**
   A member looked up just before being deactivated: the answer is stored after the
   deactivation, and from then on the cache lets the deactivated member in.
   */
  lemma OvertakenLookupLetsIn() returns (calls: seq<Call>, events: seq<Event>)
    ensures Proper(calls) && LookedUpBeforeLast(calls, events) && LetsBannedIn(Play(events).state)
  {
    var founder, partner := OwnerRow(1, 1, "a"), JoinedRow(2, 1, "b");
    var team := TeamForms();
    var ban := SetActive(Actor(3, "c"), 1, 1, false, Inside({1}));
    AdminMay(Team(founder, partner), founder, partner);
    PartnerIsBanned(founder, partner);
    calls := Then(team, 5, Team(founder, partner), 3, ban, Team(founder, partner.(banned := true)));
    assert calls[..5] == team;
    var before := CalledAll(CommandsOf(team));
    PlayCalls(CommandsOf(team));
    PartnerAnswer(founder, partner);
    PlayOneMore(before, Looked(0, 2, 1, false, true));
    PlayOneMore(before + [Looked(0, 2, 1, false, true)], Called(ban));
    events := before + [Looked(0, 2, 1, false, true)] + [Called(ban)] + [Filled(0)];
    PlayOneMore(before + [Looked(0, 2, 1, false, true)] + [Called(ban)], Filled(0));
  }
}
