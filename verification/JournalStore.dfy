/**
 The journal service and the account repository over rows updated in place, each call
 proved to do what Books says.
 */
module JournalStore {
  import opened Results
  import opened Money
  import opened Books
  import opened JournalLaws

  function Why(outcome: Result<Book, Refusal>): Option<Refusal> {
    if outcome.Ok? then None else Some(outcome.error)
  }

  lemma {:induction false} PrefixFault(lines: seq<LineInput>, n: nat)
    requires n <= |lines| && FirstLineFault(lines[..n]).Some?
    ensures FirstLineFault(lines) == FirstLineFault(lines[..n])
    decreases |lines|
  {
    if n == |lines| {
      assert lines[..n] == lines;
    } else {
      assert lines[..|lines| - 1][..n] == lines[..n];
      PrefixFault(lines[..|lines| - 1], n);
    }
  }

  /** One pass over the lines, checking each and adding up both sides. */
  method ValidateLines(lines: seq<LineInput>) returns (fault: Option<Refusal>)
    ensures fault == LinesFault(lines)
  {
    if |lines| < 2 {
      return Some(TooFewLines);
    }
    var totalDebit, totalCredit := 0.0, 0.0;
    var i := 0;
    while i < |lines|
      invariant 0 <= i <= |lines|
      invariant FirstLineFault(lines[..i]).None?
      invariant totalDebit == SumGiven(lines[..i], Debit) && totalCredit == SumGiven(lines[..i], Credit)
    {
      var l := lines[i];
      assert lines[..i + 1][..i] == lines[..i];
      var hasDebit, hasCredit := l.debit > 0.0, l.credit > 0.0;
      if l.account.None? || (hasDebit && hasCredit) || (!hasDebit && !hasCredit) {
        PrefixFault(lines, i + 1);
        return Some(if l.account.None? then NoAccount(i) else if hasDebit then BothSides(i) else NeitherSide(i));
      }
      totalDebit := totalDebit + l.debit;
      totalCredit := totalCredit + l.credit;
      i := i + 1;
    }
    assert lines[..i] == lines;
    if totalDebit <= 0.0 {
      return Some(ZeroTotal);
    }
    if Abs(totalDebit - totalCredit) > BALANCE_EPSILON {
      return Some(Unbalanced(totalDebit, totalCredit));
    }
    fault := None;
  }

  /** Collects the distinct account ids and compares their number with the active ones. */
  method CheckAccountsActive(accounts: seq<Account>, lines: seq<LineInput>) returns (ok: bool)
    ensures ok <==> AllUsable(accounts, lines)
  {
    var ids: set<nat> := {};
    var i := 0;
    while i < |lines|
      invariant 0 <= i <= |lines|
      invariant ids == set l | l in lines[..i] && l.account.Some? :: l.account.value
    {
      assert lines[..i + 1] == lines[..i] + [lines[i]];
      if lines[i].account.Some? && lines[i].account.value !in ids {
        ids := ids + {lines[i].account.value};
      }
      i := i + 1;
    }
    assert lines[..i] == lines;
    var active := set id | id in ids && Usable(accounts, id);
    ok := |active| == |ids|;
    SameSizeSameSet(active, ids);
    if ok {
      forall l | l in lines && l.account.Some?
        ensures Usable(accounts, l.account.value)
      {
        assert l.account.value in active;
      }
    } else {
      var id :| id in ids && id !in active;
    }
  }

  lemma SameSizeSameSet(a: set<nat>, b: set<nat>)
    requires a <= b
    ensures |a| == |b| <==> a == b
  {
    if a != b {
      var x :| x in b && x !in a;
      NoLarger(a, b - {x});
    }
  }

  lemma {:induction false} NoLarger(a: set<nat>, b: set<nat>)
    requires a <= b
    ensures |a| <= |b|
  {
    if a != {} {
      var x :| x in a;
      NoLarger(a - {x}, b - {x});
    }
  }

  class Store {
    var accounts: seq<Account>
    var entries: seq<Entry>

    ghost function Value(): Book
      reads this
    {
      Book(accounts, entries)
    }

    constructor ()
      ensures Value() == NO_BOOK
    {
      accounts, entries := [], [];
    }

    // --- journal.service.go and journal.repository.go -----------------------------

    /** buildJournalLines: the rows to store and the two running totals. */
    method BuildLines(lines: seq<LineInput>) returns (rows: seq<Line>, totalDebit: real, totalCredit: real)
      requires HaveAccounts(lines)
      ensures rows == StoredLines(lines)
      ensures totalDebit == SumGiven(lines, Debit) && totalCredit == SumGiven(lines, Credit)
    {
      rows, totalDebit, totalCredit := [], 0.0, 0.0;
      var i := 0;
      while i < |lines|
        invariant 0 <= i <= |lines|
        invariant rows == StoredLines(lines)[..i]
        invariant totalDebit == SumGiven(lines[..i], Debit) && totalCredit == SumGiven(lines[..i], Credit)
      {
        assert lines[..i + 1][..i] == lines[..i];
        rows := rows + [StoredLine(lines[i])];
        totalDebit := totalDebit + lines[i].debit;
        totalCredit := totalCredit + lines[i].credit;
        i := i + 1;
      }
      assert lines[..i] == lines;
    }

    method CheckEntry(lines: seq<LineInput>) returns (fault: Option<Refusal>)
      ensures fault == EntryFault(accounts, lines)
      ensures fault.None? ==> HaveAccounts(lines)
    {
      fault := ValidateLines(lines);
      if fault.None? {
        ValidLinesHaveAccounts(lines);
        var ok := CheckAccountsActive(accounts, lines);
        if !ok {
          fault := Some(AccountInactive);
        }
      }
    }

    method CreateEntry(date: Date, lines: seq<LineInput>) returns (why: Option<Refusal>)
      modifies this
      ensures Value() == After(old(Value()), DoCreateEntry(old(Value()), date, lines))
      ensures why == Why(DoCreateEntry(old(Value()), date, lines))
      ensures why.None? ==> |entries| == |old(entries)| + 1 && Carries(entries[|old(entries)|], date, lines)
    {
      if AnyNegative(lines) {
        return Some(NegativeAmount);
      }
      why := CheckEntry(lines);
      if why.Some? {
        return;
      }
      var rows, totalDebit, totalCredit := BuildLines(lines);
      CreateCarries(Value(), date, lines);
      entries := entries + [Entry(date, false, rows, ToCents(totalDebit), ToCents(totalCredit), false)];
    }

    method EditEntry(id: nat, date: Date, lines: seq<LineInput>) returns (why: Option<Refusal>)
      modifies this
      ensures Value() == After(old(Value()), DoEditEntry(old(Value()), id, date, lines))
      ensures why == Why(DoEditEntry(old(Value()), id, date, lines))
      ensures why.None? ==> id < |entries| && Carries(entries[id], date, lines)
    {
      if AnyNegative(lines) {
        return Some(NegativeAmount);
      }
      if !(id < |entries| && !entries[id].deleted) {
        return Some(NotFound);
      }
      if entries[id].posted {
        return Some(PostedImmutable);
      }
      why := CheckEntry(lines);
      if why.Some? {
        return;
      }
      var rows, totalDebit, totalCredit := BuildLines(lines);
      EditCarries(Value(), id, date, lines);
      entries := entries[id := Entry(date, false, rows, ToCents(totalDebit), ToCents(totalCredit), false)];
    }

    method DeleteEntry(id: nat) returns (why: Option<Refusal>)
      modifies this
      ensures Value() == After(old(Value()), DoDeleteEntry(old(Value()), id))
      ensures why == Why(DoDeleteEntry(old(Value()), id))
    {
      if !(id < |entries| && !entries[id].deleted) {
        return Some(NotFound);
      }
      if entries[id].posted {
        return Some(PostedImmutable);
      }
      entries := entries[id := entries[id].(deleted := true)];
      why := None;
    }

    method PostEntry(id: nat) returns (why: Option<Refusal>)
      modifies this
      ensures Value() == After(old(Value()), DoPostEntry(old(Value()), id))
      ensures why == Why(DoPostEntry(old(Value()), id))
    {
      if !(id < |entries| && !entries[id].deleted) {
        return Some(NotFound);
      }
      if entries[id].posted {
        return Some(NotDraft);
      }
      var lines := AsInputs(entries[id].lines);
      why := CheckEntry(lines);
      if why.Some? {
        return;
      }
      entries := entries[id := entries[id].(posted := true)];
    }

    method BackToDraft(id: nat) returns (why: Option<Refusal>)
      modifies this
      ensures Value() == After(old(Value()), DoBackToDraft(old(Value()), id))
      ensures why == Why(DoBackToDraft(old(Value()), id))
    {
      if !(id < |entries| && !entries[id].deleted) {
        return Some(NotFound);
      }
      if !entries[id].posted {
        return Some(NotPosted);
      }
      entries := entries[id := entries[id].(posted := false)];
      why := None;
    }

    // --- account.repository.go ------------------------------------------------------

    method CreateAccount(group: Group, parent: Option<nat>, isActive: bool) returns (why: Option<Refusal>)
      modifies this
      ensures Value() == After(old(Value()), DoCreateAccount(old(Value()), group, parent, isActive))
      ensures why == Why(DoCreateAccount(old(Value()), group, parent, isActive))
    {
      if !ParentOk(Book(accounts, entries), parent) {
        return Some(NoParent);
      }
      accounts := accounts + [Account(group, parent, false, isActive, false)];
      why := None;
    }

    method EditAccount(id: nat, group: Option<Group>, parent: Option<Option<nat>>, isActive: Option<bool>)
      returns (why: Option<Refusal>)
      modifies this
      ensures Value() == After(old(Value()), DoEditAccount(old(Value()), id, group, parent, isActive))
      ensures why == Why(DoEditAccount(old(Value()), id, group, parent, isActive))
    {
      if !(id < |accounts| && !accounts[id].deleted) {
        return Some(NotFound);
      }
      var row := accounts[id];
      if group.Some? && group.value != row.group {
        if row.isSystem {
          return Some(SystemLocked);
        }
        row := row.(group := group.value);
      }
      if parent.Some? {
        if parent.value == Some(id) {
          return Some(OwnParent);
        }
        if !ParentOk(Book(accounts, entries), parent.value) {
          return Some(NoParent);
        }
        row := row.(parent := parent.value);
      }
      if isActive.Some? {
        row := row.(isActive := isActive.value);
      }
      accounts := accounts[id := row];
      why := None;
    }

    method DeleteAccount(id: nat, otherUses: nat) returns (why: Option<Refusal>)
      modifies this
      ensures Value() == After(old(Value()), DoDeleteAccount(old(Value()), id, otherUses))
      ensures why == Why(DoDeleteAccount(old(Value()), id, otherUses))
    {
      if !(id < |accounts| && !accounts[id].deleted) {
        return Some(NotFound);
      }
      if accounts[id].isSystem {
        return Some(SystemLocked);
      }
      if HasChild(accounts, id) {
        return Some(HasChildren);
      }
      var references := CountJournalReferences(id);
      if references + otherUses > 0 {
        return Some(InUse);
      }
      accounts := accounts[id := accounts[id].(deleted := true)];
      why := None;
    }

    /** SeedDefaults: one row per template account, only while there is no live account. */
    method SeedAccounts(seeds: seq<Seed>)
      modifies this
      ensures Value() == DoSeedAccounts(old(Value()), seeds)
    {
      if exists a :: a in accounts && !a.deleted {
        return;
      }
      var base := |accounts|;
      ghost var seeded := DoSeedAccounts(Value(), seeds).accounts;
      for i := 0 to |seeds|
        invariant entries == old(entries)
        invariant accounts == seeded[..base + i]
      {
        var parent := if seeds[i].parent.Some? && seeds[i].parent.value < i then Some(base + seeds[i].parent.value) else None;
        accounts := accounts + [Account(seeds[i].group, parent, true, true, false)];
      }
    }

    /** The reference query: lines on the account, joined to entries that are not deleted. */
    method CountJournalReferences(id: nat) returns (n: nat)
      ensures n > 0 <==> UsedByJournal(entries, id)
    {
      n := 0;
      for i := 0 to |entries|
        invariant n > 0 <==> UsedByJournal(entries[..i], id)
      {
        var e := entries[i];
        assert entries[..i + 1] == entries[..i] + [e];
        var found := 0;
        for j := 0 to |e.lines|
          invariant found > 0 <==> exists l :: l in e.lines[..j] && l.account == id
        {
          assert e.lines[..j + 1] == e.lines[..j] + [e.lines[j]];
          if e.lines[j].account == id {
            found := found + 1;
          }
        }
        assert e.lines[..|e.lines|] == e.lines;
        if !e.deleted {
          n := n + found;
        }
      }
      assert entries[..|entries|] == entries;
    }
  }
}
