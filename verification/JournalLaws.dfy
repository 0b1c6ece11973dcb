/**
 What the journal calls do to the reports: which dates, accounts and amounts an entry
 carries, when it counts, and what each account call leaves in the chart.
 */
module JournalLaws {
  import opened Results
  import opened Money
  import opened Books
  import opened Reports

  // --- what an entry carries ------------------------------------------------------------

  /** The stored amount is the cent nearest to the submitted one. */
  predicate Nearest(c: Cents, v: real) {
    -0.5 <= c as real - v * 100.0 <= 0.5
  }

  predicate LineCarries(l: Line, given: LineInput) {
    given.account == Some(l.account) && Nearest(l.debit, given.debit) && Nearest(l.credit, given.credit)
  }

  /** The entry has the submitted date and, line by line, the submitted accounts and the nearest cents. */
  predicate Carries(e: Entry, date: Date, lines: seq<LineInput>) {
    && e.date == date && |e.lines| == |lines|
    && forall k :: 0 <= k < |lines| ==> LineCarries(e.lines[k], lines[k])
  }

  predicate IsDraft(e: Entry) {
    !e.posted && !e.deleted
  }

  /** All entries but one are as before. */
  predicate OthersAsBefore(entries: seq<Entry>, entries': seq<Entry>, id: nat) {
    forall i :: 0 <= i < |entries| && i != id ==> i < |entries'| && entries'[i] == entries[i]
  }

  lemma NewEntryCarries(date: Date, lines: seq<LineInput>)
    requires HaveAccounts(lines)
    ensures Carries(NewEntry(date, lines), date, lines) && IsDraft(NewEntry(date, lines))
  {
    var e := NewEntry(date, lines);
    forall k | 0 <= k < |lines|
      ensures LineCarries(e.lines[k], lines[k])
    {
      RoundIsNearest(lines[k].debit * 100.0);
      RoundIsNearest(lines[k].credit * 100.0);
    }
  }

  /** An accepted entry is a new draft that carries what was submitted; nothing else changes. */
  lemma CreateCarries(b: Book, date: Date, lines: seq<LineInput>)
    requires Step(b, CreateEntry(date, lines)).Ok?
    ensures var b' := Step(b, CreateEntry(date, lines)).value;
            && b'.accounts == b.accounts && |b'.entries| == |b.entries| + 1
            && OthersAsBefore(b.entries, b'.entries, |b.entries|)
            && Carries(b'.entries[|b.entries|], date, lines) && IsDraft(b'.entries[|b.entries|])
  {
    ValidLinesHaveAccounts(lines);
    NewEntryCarries(date, lines);
  }

  /** An accepted edit leaves the entry a draft that carries what was submitted; nothing else changes. */
  lemma EditCarries(b: Book, id: nat, date: Date, lines: seq<LineInput>)
    requires Step(b, EditEntry(id, date, lines)).Ok?
    ensures var b' := Step(b, EditEntry(id, date, lines)).value;
            && b'.accounts == b.accounts && id < |b'.entries| == |b.entries|
            && OthersAsBefore(b.entries, b'.entries, id)
            && Carries(b'.entries[id], date, lines) && IsDraft(b'.entries[id])
  {
    ValidLinesHaveAccounts(lines);
    NewEntryCarries(date, lines);
  }

  // --- until it is edited again -----------------------------------------------------------

  function RunFrom(b: Book, commands: seq<Command>): Book {
    if commands == [] then b
    else
      var before := RunFrom(b, commands[..|commands| - 1]);
      After(before, Step(before, commands[|commands| - 1]))
  }

  predicate Edits(c: Command, id: nat) {
    c.EditEntry? && c.id == id
  }

  predicate NoEdit(commands: seq<Command>, id: nat) {
    forall k :: 0 <= k < |commands| ==> !Edits(commands[k], id)
  }

  lemma OnlyAnEditChangesIt(b: Book, c: Command, id: nat)
    requires id < |b.entries| && !Edits(c, id)
    ensures var b' := After(b, Step(b, c));
            id < |b'.entries| && b'.entries[id].date == b.entries[id].date && b'.entries[id].lines == b.entries[id].lines
  {
  }

  lemma {:induction false} StaysAsSubmitted(b: Book, commands: seq<Command>, id: nat)
    requires id < |b.entries| && NoEdit(commands, id)
    ensures var b' := RunFrom(b, commands);
            id < |b'.entries| && b'.entries[id].date == b.entries[id].date && b'.entries[id].lines == b.entries[id].lines
  {
    if commands != [] {
      var n := |commands| - 1;
      StaysAsSubmitted(b, commands[..n], id);
      OnlyAnEditChangesIt(RunFrom(b, commands[..n]), commands[n], id);
    }
  }

  /**
   Whatever calls follow an accepted edit, other than another edit of the entry: it still
   carries what was submitted, and while it is posted and live it counts in exactly the
   windows that contain the submitted date.
   */
  lemma EditedEntryCounts(b: Book, id: nat, date: Date, lines: seq<LineInput>, later: seq<Command>, w: Window)
    requires Step(b, EditEntry(id, date, lines)).Ok? && NoEdit(later, id)
    ensures var b' := RunFrom(Step(b, EditEntry(id, date, lines)).value, later);
            && id < |b'.entries| && Carries(b'.entries[id], date, lines)
            && (Counts(b'.entries[id], w) <==>
                b'.entries[id].posted && !b'.entries[id].deleted
                && (w.from.None? || w.from.value <= date) && date <= w.to)
  {
    EditCarries(b, id, date, lines);
    StaysAsSubmitted(Step(b, EditEntry(id, date, lines)).value, later, id);
  }

  /** The same for a new entry. */
  lemma CreatedEntryCounts(b: Book, date: Date, lines: seq<LineInput>, later: seq<Command>, w: Window)
    requires Step(b, CreateEntry(date, lines)).Ok? && NoEdit(later, |b.entries|)
    ensures var b', id := RunFrom(Step(b, CreateEntry(date, lines)).value, later), |b.entries|;
            && id < |b'.entries| && Carries(b'.entries[id], date, lines)
            && (Counts(b'.entries[id], w) <==>
                b'.entries[id].posted && !b'.entries[id].deleted
                && (w.from.None? || w.from.value <= date) && date <= w.to)
  {
    CreateCarries(b, date, lines);
    StaysAsSubmitted(Step(b, CreateEntry(date, lines)).value, later, |b.entries|);
  }

  // --- what moves the reports ----------------------------------------------------------------

  predicate Within(date: Date, w: Window) {
    (w.from.None? || w.from.value <= date) && date <= w.to
  }

  function Contribution(e: Entry, a: nat, side: Side, w: Window): Cents {
    if Counts(e, w) then OnAccount(e.lines, a, side) else 0
  }

  lemma {:induction false} ActivityAfterWrite(entries: seq<Entry>, id: nat, e: Entry, a: nat, side: Side, w: Window)
    requires id < |entries|
    ensures Activity(entries[id := e], a, side, w) ==
            Activity(entries, a, side, w) - Contribution(entries[id], a, side, w) + Contribution(e, a, side, w)
  {
    var n := |entries| - 1;
    if id < n {
      ActivityAfterWrite(entries[..n], id, e, a, side, w);
      assert entries[id := e][..n] == entries[..n][id := e];
    } else {
      assert entries[id := e][..n] == entries[..n];
    }
  }

  /** Posting adds the entry's lines to the windows that contain its date, and to nothing else. */
  lemma PostingAddsItsLines(b: Book, id: nat, a: nat, side: Side, w: Window)
    requires Step(b, PostEntry(id)).Ok?
    ensures var b' := Step(b, PostEntry(id)).value;
            && b'.entries[id].posted
            && Activity(b'.entries, a, side, w) ==
               Activity(b.entries, a, side, w) + if Within(b.entries[id].date, w) then OnAccount(b.entries[id].lines, a, side) else 0
  {
    ActivityAfterWrite(b.entries, id, b.entries[id].(posted := true), a, side, w);
  }

  /** Going back to draft takes them out again. */
  lemma UnpostingTakesThemOut(b: Book, id: nat, a: nat, side: Side, w: Window)
    requires Step(b, BackToDraft(id)).Ok?
    ensures var b' := Step(b, BackToDraft(id)).value;
            && !b'.entries[id].posted
            && Activity(b'.entries, a, side, w) ==
               Activity(b.entries, a, side, w) - if Within(b.entries[id].date, w) then OnAccount(b.entries[id].lines, a, side) else 0
  {
    ActivityAfterWrite(b.entries, id, b.entries[id].(posted := false), a, side, w);
  }

  /** No other call moves a figure: drafts do not count, and posted entries are frozen. */
  lemma OnlyPostingMovesFigures(b: Book, c: Command, a: nat, side: Side, w: Window)
    requires !c.PostEntry? && !c.BackToDraft?
    ensures Activity(After(b, Step(b, c)).entries, a, side, w) == Activity(b.entries, a, side, w)
  {
    if Step(b, c).Ok? {
      match c
      case CreateEntry(date, lines) =>
        CreateCarries(b, date, lines);
        var entries := Step(b, c).value.entries;
        assert entries[..|b.entries|] == b.entries;
      case EditEntry(id, date, lines) =>
        EditCarries(b, id, date, lines);
        ActivityAfterWrite(b.entries, id, Step(b, c).value.entries[id], a, side, w);
      case DeleteEntry(id) =>
        ActivityAfterWrite(b.entries, id, b.entries[id].(deleted := true), a, side, w);
      case _ =>
    }
  }

  // --- deletion is final ----------------------------------------------------------------------

  predicate EntryGone(b: Book, id: nat) {
    id < |b.entries| && b.entries[id].deleted
  }

  lemma {:induction false} EntryStaysGone(b: Book, commands: seq<Command>, id: nat)
    requires EntryGone(b, id)
    ensures EntryGone(RunFrom(b, commands), id)
  {
    if commands != [] {
      EntryStaysGone(b, commands[..|commands| - 1], id);
    }
  }

  /** A deleted entry stays deleted whatever is called: it counts nowhere, and no call on it is accepted. */
  lemma DeletedEntryIsGone(b: Book, id: nat, later: seq<Command>, w: Window)
    requires Step(b, DeleteEntry(id)).Ok?
    ensures var b' := RunFrom(Step(b, DeleteEntry(id)).value, later);
            && EntryGone(b', id) && !Counts(b'.entries[id], w)
            && Step(b', PostEntry(id)).Err? && Step(b', BackToDraft(id)).Err? && Step(b', DeleteEntry(id)).Err?
            && (forall date, lines :: Step(b', EditEntry(id, date, lines)).Err?)
  {
    EntryStaysGone(Step(b, DeleteEntry(id)).value, later, id);
  }

  predicate AccountGone(b: Book, a: nat) {
    a < |b.accounts| && b.accounts[a].deleted
  }

  lemma {:induction false} AccountStaysGone(b: Book, commands: seq<Command>, a: nat)
    requires AccountGone(b, a)
    ensures AccountGone(RunFrom(b, commands), a)
  {
    if commands != [] {
      AccountStaysGone(b, commands[..|commands| - 1], a);
    }
  }

  predicate Names(lines: seq<LineInput>, a: nat) {
    exists k :: 0 <= k < |lines| && lines[k].account == Some(a)
  }

  /** An account that is deleted or switched off can't be put on an entry. */
  lemma UnusableAccountIsRefused(b: Book, a: nat, date: Date, lines: seq<LineInput>, id: nat)
    requires a < |b.accounts| && (b.accounts[a].deleted || !b.accounts[a].isActive) && Names(lines, a)
    ensures Step(b, CreateEntry(date, lines)).Err? && Step(b, EditEntry(id, date, lines)).Err?
  {
    var k :| 0 <= k < |lines| && lines[k].account == Some(a);
    assert lines[k] in lines && !Usable(b.accounts, a);
  }

  /** A deleted account stays deleted and never gets another line. */
  lemma DeletedAccountIsGone(b: Book, a: nat, uses: nat, later: seq<Command>, date: Date, lines: seq<LineInput>, id: nat)
    requires Step(b, DeleteAccount(a, uses)).Ok?
    ensures var b' := RunFrom(Step(b, DeleteAccount(a, uses)).value, later);
            && AccountGone(b', a)
            && (Names(lines, a) ==> Step(b', CreateEntry(date, lines)).Err? && Step(b', EditEntry(id, date, lines)).Err?)
  {
    AccountStaysGone(Step(b, DeleteAccount(a, uses)).value, later, a);
    if Names(lines, a) {
      UnusableAccountIsRefused(RunFrom(Step(b, DeleteAccount(a, uses)).value, later), a, date, lines, id);
    }
  }

  // --- the chart of accounts -----------------------------------------------------------------

  /** A live account's parent is live too, and an account named as parent exists. */
  predicate ParentsLive(b: Book) {
    forall i :: 0 <= i < |b.accounts| && !b.accounts[i].deleted && b.accounts[i].parent.Some? ==>
      LiveAccount(b, b.accounts[i].parent.value)
  }

  lemma StepKeepsParentsLive(b: Book, c: Command)
    requires ParentsLive(b)
    ensures ParentsLive(After(b, Step(b, c)))
  {
  }

  /** After any run, no live account has a deleted or missing parent. */
  lemma {:induction false} ParentsAreAlwaysLive(commands: seq<Command>)
    ensures ParentsLive(Run(commands))
  {
    if commands != [] {
      var n := |commands| - 1;
      ParentsAreAlwaysLive(commands[..n]);
      StepKeepsParentsLive(Run(commands[..n]), commands[n]);
    }
  }

  /** A seeded account stays live and keeps its group, whatever is called. */
  lemma SystemAccountsStay(b: Book, c: Command, a: nat)
    requires LiveAccount(b, a) && b.accounts[a].isSystem
    ensures var b' := After(b, Step(b, c));
            LiveAccount(b', a) && b'.accounts[a].isSystem && b'.accounts[a].group == b.accounts[a].group
  {
  }

  /** An accepted edit of an account takes effect in the submitted fields, and in no other field or account. */
  lemma AccountEditTakesEffect(
    b: Book, a: nat, group: Option<Group>, parent: Option<Option<nat>>, isActive: Option<bool>)
    requires Step(b, EditAccount(a, group, parent, isActive)).Ok?
    ensures var b' := Step(b, EditAccount(a, group, parent, isActive)).value;
            && LiveAccount(b, a) && LiveAccount(b', a) && b'.entries == b.entries && |b'.accounts| == |b.accounts|
            && (forall i :: 0 <= i < |b.accounts| && i != a ==> b'.accounts[i] == b.accounts[i])
            && (group == Some(b'.accounts[a].group) || (group.None? && b'.accounts[a].group == b.accounts[a].group))
            && (parent == Some(b'.accounts[a].parent) || (parent.None? && b'.accounts[a].parent == b.accounts[a].parent))
            && (isActive == Some(b'.accounts[a].isActive) || (isActive.None? && b'.accounts[a].isActive == b.accounts[a].isActive))
            && b'.accounts[a].isSystem == b.accounts[a].isSystem
  {
  }

  /** A new account is live, carries what was submitted and is not a system account. */
  lemma NewAccountCarries(b: Book, group: Group, parent: Option<nat>, isActive: bool)
    requires Step(b, CreateAccount(group, parent, isActive)).Ok?
    ensures var b', a := Step(b, CreateAccount(group, parent, isActive)).value, |b.accounts|;
            && |b'.accounts| == a + 1 && b'.accounts[..a] == b.accounts && b'.entries == b.entries
            && LiveAccount(b', a) && !b'.accounts[a].isSystem
            && b'.accounts[a].group == group && b'.accounts[a].parent == parent && b'.accounts[a].isActive == isActive
  {
  }

  predicate NoLiveAccount(b: Book) {
    forall a :: a in b.accounts ==> a.deleted
  }

  /** Account n + i is live, active and built in, of the template row's group and below its parent row's account. */
  predicate FollowsSeed(b: Book, n: nat, seed: Seed, i: nat) {
    && LiveAccount(b, n + i) && b.accounts[n + i].isSystem && b.accounts[n + i].isActive
    && b.accounts[n + i].group == seed.group
    && b.accounts[n + i].parent ==
       if seed.parent.Some? && seed.parent.value < i then Some(n + seed.parent.value) else None
  }

  /** Seeding an empty chart gives one live, active system account per template row, below the account of its parent row. */
  lemma SeedingFollowsTheTemplate(b: Book, seeds: seq<Seed>)
    ensures var b', n := Step(b, SeedAccounts(seeds)).value, |b.accounts|;
            if NoLiveAccount(b) then
              && |b'.accounts| == n + |seeds| && b'.accounts[..n] == b.accounts && b'.entries == b.entries
              && forall i: nat :: i < |seeds| ==> FollowsSeed(b', n, seeds[i], i)
            else b' == b
  {
    if NoLiveAccount(b) {
      forall i: nat | i < |seeds|
        ensures FollowsSeed(DoSeedAccounts(b, seeds), |b.accounts|, seeds[i], i)
      {
        SeededAccount(b, seeds, i);
      }
    }
  }

  lemma SeededAccount(b: Book, seeds: seq<Seed>, i: nat)
    requires NoLiveAccount(b) && i < |seeds|
    ensures FollowsSeed(DoSeedAccounts(b, seeds), |b.accounts|, seeds[i], i)
  {
    var accounts := DoSeedAccounts(b, seeds).accounts;
    assert accounts[..|b.accounts|] == b.accounts;
    assert accounts[|b.accounts| + i] == accounts[|b.accounts|..][i];
  }

  // --- which calls are accepted ----------------------------------------------------------------

  /** One side of the line is positive, the other is not, and it names a live, active account. */
  predicate LineFits(b: Book, l: LineInput) {
    && l.account.Some? && l.account.value < |b.accounts|
    && !b.accounts[l.account.value].deleted && b.accounts[l.account.value].isActive
    && ((0.0 < l.debit && l.credit <= 0.0) || (0.0 < l.credit && l.debit <= 0.0))
  }

  /** At least two fitting lines without negative amounts, a positive total, and sides no further apart than the epsilon. */
  predicate LinesFit(b: Book, lines: seq<LineInput>) {
    && 2 <= |lines| && (forall k :: 0 <= k < |lines| ==> LineFits(b, lines[k]))
    && 0.0 < SumGiven(lines, Debit)
    && -0.0001 <= SumGiven(lines, Debit) - SumGiven(lines, Credit) <= 0.0001
  }

  predicate NoneNegative(lines: seq<LineInput>) {
    forall k :: 0 <= k < |lines| ==> 0.0 <= lines[k].debit && 0.0 <= lines[k].credit
  }

  /** What a live account is still used by: a live child, a line of a live entry, or something outside the books. */
  predicate StillUsed(b: Book, a: nat, otherUses: nat) {
    || (exists i :: 0 <= i < |b.accounts| && !b.accounts[i].deleted && b.accounts[i].parent == Some(a))
    || (exists e, k :: 0 <= e < |b.entries| && !b.entries[e].deleted && 0 <= k < |b.entries[e].lines|
                       && b.entries[e].lines[k].account == a)
    || 0 < otherUses
  }

  /** What each call needs. */
  predicate Admissible(b: Book, c: Command) {
    match c
    case CreateAccount(_, parent, _) => parent.Some? ==> LiveAccount(b, parent.value)
    case EditAccount(a, group, parent, _) =>
      && LiveAccount(b, a)
      && (b.accounts[a].isSystem && group.Some? ==> group.value == b.accounts[a].group)
      && (parent.Some? && parent.value.Some? ==> parent.value.value != a && LiveAccount(b, parent.value.value))
    case DeleteAccount(a, otherUses) => LiveAccount(b, a) && !b.accounts[a].isSystem && !StillUsed(b, a, otherUses)
    case SeedAccounts(_) => true
    case CreateEntry(_, lines) => NoneNegative(lines) && LinesFit(b, lines)
    case EditEntry(id, _, lines) =>
      NoneNegative(lines) && LinesFit(b, lines) && id < |b.entries| && IsDraft(b.entries[id])
    case DeleteEntry(id) => id < |b.entries| && IsDraft(b.entries[id])
    case PostEntry(id) =>
      && id < |b.entries| && IsDraft(b.entries[id])
      && LinesFit(b, AsInputs(b.entries[id].lines))
    case BackToDraft(id) => id < |b.entries| && b.entries[id].posted && !b.entries[id].deleted
  }

  lemma {:induction false} NoFaultInAnyLine(lines: seq<LineInput>)
    ensures FirstLineFault(lines).None? <==> forall k :: 0 <= k < |lines| ==> LineFault(lines[k], k).None?
  {
    if lines != [] {
      NoFaultInAnyLine(lines[..|lines| - 1]);
    }
  }

  lemma EntryFaultExactlyWhen(b: Book, lines: seq<LineInput>)
    ensures EntryFault(b.accounts, lines).None? <==> LinesFit(b, lines)
  {
    NoFaultInAnyLine(lines);
    if EntryFault(b.accounts, lines).None? {
      forall k | 0 <= k < |lines|
        ensures LineFits(b, lines[k])
      {
        assert LineFault(lines[k], k).None? && lines[k] in lines;
        assert Usable(b.accounts, lines[k].account.value);
      }
    }
    if LinesFit(b, lines) {
      forall l | l in lines && l.account.Some?
        ensures Usable(b.accounts, l.account.value)
      {
        var k :| 0 <= k < |lines| && lines[k] == l;
        assert LineFits(b, lines[k]);
      }
      forall k | 0 <= k < |lines|
        ensures LineFault(lines[k], k).None?
      {
        assert LineFits(b, lines[k]);
      }
    }
  }

  lemma NoneNegativeExactlyWhen(lines: seq<LineInput>)
    ensures NoneNegative(lines) <==> !AnyNegative(lines)
  {
    if NoneNegative(lines) {
      forall l | l in lines
        ensures 0.0 <= l.debit && 0.0 <= l.credit
      {
        var k :| 0 <= k < |lines| && lines[k] == l;
      }
    }
    if !AnyNegative(lines) {
      forall k | 0 <= k < |lines|
        ensures 0.0 <= lines[k].debit && 0.0 <= lines[k].credit
      {
        assert lines[k] in lines;
      }
    }
  }

  lemma StillUsedExactlyWhen(b: Book, a: nat, otherUses: nat)
    ensures StillUsed(b, a, otherUses) <==> HasChild(b.accounts, a) || UsedByJournal(b.entries, a) || otherUses > 0
  {
    if HasChild(b.accounts, a) {
      var x :| x in b.accounts && !x.deleted && x.parent == Some(a);
      var i :| 0 <= i < |b.accounts| && b.accounts[i] == x;
    }
    if UsedByJournal(b.entries, a) {
      var e :| e in b.entries && !e.deleted && exists l :: l in e.lines && l.account == a;
      var i :| 0 <= i < |b.entries| && b.entries[i] == e;
      var l :| l in e.lines && l.account == a;
      var k :| 0 <= k < |e.lines| && e.lines[k] == l;
      assert b.entries[i].lines[k].account == a;
    }
    if i :| 0 <= i < |b.accounts| && !b.accounts[i].deleted && b.accounts[i].parent == Some(a) {
      assert b.accounts[i] in b.accounts;
    }
    if e, k :| 0 <= e < |b.entries| && !b.entries[e].deleted && 0 <= k < |b.entries[e].lines|
               && b.entries[e].lines[k].account == a {
      assert b.entries[e] in b.entries && b.entries[e].lines[k] in b.entries[e].lines;
    }
  }

  /** A call on the books is accepted exactly when its needs are met; a posted entry is never a deleted one. */
  lemma AcceptedExactlyWhen(b: Book, c: Command)
    requires Inv(b)
    ensures Step(b, c).Ok? <==> Admissible(b, c)
  {
    match c
    case DeleteAccount(a, otherUses) => StillUsedExactlyWhen(b, a, otherUses);
    case CreateEntry(_, lines) =>
      NoneNegativeExactlyWhen(lines);
      EntryFaultExactlyWhen(b, lines);
    case EditEntry(_, _, lines) =>
      NoneNegativeExactlyWhen(lines);
      EntryFaultExactlyWhen(b, lines);
    case PostEntry(id) =>
      if id < |b.entries| {
        EntryFaultExactlyWhen(b, AsInputs(b.entries[id].lines));
      }
    case _ =>
  }

  /** A refusal that names a line names the first one with a fault, and says which fault it has. */
  lemma {:induction false} FaultNamesTheFirstLine(lines: seq<LineInput>)
    requires FirstLineFault(lines).Some?
    ensures var why := FirstLineFault(lines).value;
            && (why.NoAccount? || why.BothSides? || why.NeitherSide?)
            && why.line < |lines|
            && (forall k :: 0 <= k < why.line ==> LineFault(lines[k], k).None?)
            && var l := lines[why.line];
               && (why.NoAccount? <==> l.account.None?)
               && (why.BothSides? ==> 0.0 < l.debit && 0.0 < l.credit)
               && (why.NeitherSide? ==> l.debit <= 0.0 && l.credit <= 0.0)
  {
    var n := |lines| - 1;
    if FirstLineFault(lines[..n]).Some? {
      FaultNamesTheFirstLine(lines[..n]);
    } else {
      NoFaultInAnyLine(lines[..n]);
    }
  }

  // --- what a refusal says -----------------------------------------------------------------

  function LinesOf(b: Book, c: Command): seq<LineInput> {
    match c
    case CreateEntry(_, lines) => lines
    case EditEntry(_, _, lines) => lines
    case PostEntry(id) => if id < |b.entries| then AsInputs(b.entries[id].lines) else []
    case _ => []
  }

  predicate OnEntry(c: Command) {
    c.EditEntry? || c.DeleteEntry? || c.PostEntry? || c.BackToDraft?
  }

  predicate OnAccountRow(c: Command) {
    c.EditAccount? || c.DeleteAccount?
  }

  predicate NamesNoLiveParent(b: Book, parent: Option<nat>) {
    parent.Some? && !LiveAccount(b, parent.value)
  }

  /** What the refusal says is so. */
  predicate IsSo(b: Book, c: Command, why: Refusal) {
    var lines := LinesOf(b, c);
    match why
    case NotFound => (OnAccountRow(c) && !LiveAccount(b, c.id)) || (OnEntry(c) && !LiveEntry(b, c.id))
    case NegativeAmount => exists k :: 0 <= k < |lines| && (lines[k].debit < 0.0 || lines[k].credit < 0.0)
    case TooFewLines => |lines| < 2
    case NoAccount(i) => i < |lines| && lines[i].account.None?
    case BothSides(i) => i < |lines| && 0.0 < lines[i].debit && 0.0 < lines[i].credit
    case NeitherSide(i) => i < |lines| && lines[i].debit <= 0.0 && lines[i].credit <= 0.0
    case ZeroTotal => SumGiven(lines, Debit) <= 0.0
    case Unbalanced(debit, credit) =>
      debit == SumGiven(lines, Debit) && credit == SumGiven(lines, Credit) && !(-0.0001 <= debit - credit <= 0.0001)
    case AccountInactive => exists k :: 0 <= k < |lines| && lines[k].account.Some? && !Usable(b.accounts, lines[k].account.value)
    case PostedImmutable => (c.EditEntry? || c.DeleteEntry?) && LiveEntry(b, c.id) && b.entries[c.id].posted
    case NotDraft => c.PostEntry? && LiveEntry(b, c.id) && b.entries[c.id].posted
    case NotPosted => c.BackToDraft? && LiveEntry(b, c.id) && !b.entries[c.id].posted
    case SystemLocked =>
      OnAccountRow(c) && LiveAccount(b, c.id) && b.accounts[c.id].isSystem
      && (c.EditAccount? ==> c.newGroup.Some? && c.newGroup.value != b.accounts[c.id].group)
    case OwnParent => c.EditAccount? && c.newParent == Some(Some(c.id))
    case NoParent =>
      || (c.CreateAccount? && NamesNoLiveParent(b, c.parent))
      || (c.EditAccount? && c.newParent.Some? && NamesNoLiveParent(b, c.newParent.value))
    case HasChildren => c.DeleteAccount? && HasChild(b.accounts, c.id)
    case InUse => c.DeleteAccount? && (UsedByJournal(b.entries, c.id) || 0 < c.otherUses)
  }

  lemma EntryFaultIsSo(b: Book, c: Command)
    requires EntryFault(b.accounts, LinesOf(b, c)).Some?
    ensures IsSo(b, c, EntryFault(b.accounts, LinesOf(b, c)).value)
  {
    var lines := LinesOf(b, c);
    if LinesFault(lines).Some? {
      if FirstLineFault(lines).Some? {
        FaultNamesTheFirstLine(lines);
      }
    } else {
      var l :| l in lines && l.account.Some? && !Usable(b.accounts, l.account.value);
      var k :| 0 <= k < |lines| && lines[k] == l;
    }
  }

  /** Every refusal tells the caller something that is so. */
  lemma RefusalsAreSo(b: Book, c: Command)
    requires Step(b, c).Err?
    ensures IsSo(b, c, Step(b, c).error)
  {
    if (c.CreateEntry? || c.EditEntry?) && AnyNegative(c.lines) {
      var l :| l in c.lines && (l.debit < 0.0 || l.credit < 0.0);
      var k :| 0 <= k < |c.lines| && c.lines[k] == l;
    } else if EntryFault(b.accounts, LinesOf(b, c)).Some? {
      EntryFaultIsSo(b, c);
    }
  }
}
