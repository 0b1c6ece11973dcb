/**
 The contact persons of business partners, and syncContacts: one submitted list replaces
 a partner's active contacts, statement by statement, under a unique index.
 */
module Contacts {
  import opened Results
  import opened Text
  import opened Sums

  datatype Details = Details(name: string, position: string, phone: string, email: string)

  datatype Contact = Contact(partner: Id, details: Details, deleted: bool)

  type Table = map<Id, Contact>

  /** A row of the submitted list; without an id it is a new contact. */
  datatype Input = Input(id: Option<Id>, name: string, position: string, phone: string, email: string)

  datatype Perms = Perms(create: bool, update: bool, delete: bool)

  datatype Action = Add | Change | Remove

  datatype Refusal =
    | NoLongerExists
    | SentTwice
    | Forbidden(action: Action)
    | NameRequired
    | Duplicate

  function LowerChar(c: char): char {
    if 'A' <= c <= 'Z' then (c as int - 'A' as int + 'a' as int) as char else c
  }

  function Lower(s: string): string {
    seq(|s|, i requires 0 <= i < |s| => LowerChar(s[i]))
  }

  /** apply: what a submitted row becomes. */
  function Applied(input: Input): Details {
    Details(Trim(input.name), Trim(input.position), Trim(input.phone), Trim(input.email))
  }

  /** The columns of the unique index, next to the partner. */
  function Key(d: Details): (string, string, string) {
    (Lower(d.name), Lower(d.email), d.phone)
  }

  predicate ActiveOf(t: Table, partner: Id, id: Id) {
    id in t && t[id].partner == partner && !t[id].deleted
  }

  /** Another active contact of the partner carries the same key. */
  predicate Clashes(t: Table, partner: Id, id: Id, d: Details) {
    exists o :: o in t && o != id && ActiveOf(t, partner, o) && Key(t[o].details) == Key(d)
  }

  /** What the unique index keeps true. */
  predicate NoDuplicates(t: Table) {
    forall a, b :: a in t && b in t && a != b && !t[a].deleted && !t[b].deleted && t[a].partner == t[b].partner ==>
                     Key(t[a].details) != Key(t[b].details)
  }

  // --- the sync -------------------------------------------------------------------------

  /** The first row that names an unknown contact or repeats one. */
  function ListFault(t: Table, partner: Id, inputs: seq<Input>): Option<Refusal> {
    if inputs == [] then None
    else
      var n := |inputs| - 1;
      var earlier := ListFault(t, partner, inputs[..n]);
      if earlier.Some? || inputs[n].id.None? then earlier
      else if !ActiveOf(t, partner, inputs[n].id.value) then Some(NoLongerExists)
      else if Keeps(inputs[..n], inputs[n].id.value) then Some(SentTwice)
      else None
  }

  predicate Keeps(inputs: seq<Input>, id: Id) {
    exists k :: 0 <= k < |inputs| && inputs[k].id == Some(id)
  }

  /** Every id in the list is on record. */
  predicate Known(t: Table, inputs: seq<Input>) {
    forall k :: 0 <= k < |inputs| && inputs[k].id.Some? ==> inputs[k].id.value in t
  }

  /** Active contacts that the list leaves out are soft-deleted. */
  function Swept(t: Table, partner: Id, inputs: seq<Input>): Table {
    map id | id in t :: if ActiveOf(t, partner, id) && !Keeps(inputs, id) then t[id].(deleted := true) else t[id]
  }

  predicate NeedsDelete(t: Table, partner: Id, inputs: seq<Input>) {
    exists id :: id in t && ActiveOf(t, partner, id) && !Keeps(inputs, id)
  }

  /** One row of the list; t0 is what was loaded at the start. */
  function RowStep(t0: Table, t: Table, partner: Id, input: Input, newId: Id, perms: Perms): Result<Table, Refusal>
    requires input.id.Some? ==> input.id.value in t0
  {
    var d := Applied(input);
    if input.id.Some? then
      var id := input.id.value;
      if d.name == "" then Err(NameRequired)
      else if d == t0[id].details then Ok(t)
      else if !perms.update then Err(Forbidden(Change))
      else if Clashes(t, partner, id, d) then Err(Duplicate)
      else Ok(t[id := t0[id].(details := d)])
    else
      if !perms.create then Err(Forbidden(Add))
      else if d.name == "" then Err(NameRequired)
      else if Clashes(t, partner, newId, d) then Err(Duplicate)
      else Ok(t[newId := Contact(partner, d, false)])
  }

  function RowSteps(t0: Table, t: Table, partner: Id, inputs: seq<Input>, newIds: seq<Id>, perms: Perms): Result<Table, Refusal>
    requires Known(t0, inputs) && |newIds| == |inputs|
  {
    if inputs == [] then Ok(t)
    else
      var n := |inputs| - 1;
      var earlier := RowSteps(t0, t, partner, inputs[..n], newIds[..n], perms);
      if earlier.Err? then earlier else RowStep(t0, earlier.value, partner, inputs[n], newIds[n], perms)
  }

  lemma {:induction false} FaultlessIdsAreActive(t: Table, partner: Id, inputs: seq<Input>)
    requires ListFault(t, partner, inputs).None?
    ensures forall k :: 0 <= k < |inputs| && inputs[k].id.Some? ==> ActiveOf(t, partner, inputs[k].id.value)
    ensures forall j, k :: 0 <= j < k < |inputs| && inputs[k].id.Some? ==> inputs[j].id != inputs[k].id
  {
    if inputs != [] {
      var n := |inputs| - 1;
      FaultlessIdsAreActive(t, partner, inputs[..n]);
      forall j | 0 <= j < n && inputs[n].id.Some?
        ensures inputs[j].id != inputs[n].id
      {
        assert inputs[..n][j] == inputs[j];
      }
      assert forall k :: 0 <= k < n ==> inputs[..n][k] == inputs[k];
    }
  }

  /** syncContacts inside its transaction: the new table, or the reason everything is rolled back. */
  function Sync(t: Table, partner: Id, inputs: seq<Input>, newIds: seq<Id>, perms: Perms): Result<Table, Refusal>
    requires |newIds| == |inputs|
  {
    if ListFault(t, partner, inputs).Some? then Err(ListFault(t, partner, inputs).value)
    else if NeedsDelete(t, partner, inputs) && !perms.delete then Err(Forbidden(Remove))
    else
      FaultlessIdsAreActive(t, partner, inputs);
      RowSteps(t, Swept(t, partner, inputs), partner, inputs, newIds, perms)
  }

  function After(t: Table, outcome: Result<Table, Refusal>): Table {
    if outcome.Ok? then outcome.value else t
  }

  /** Generated ids: new, and all different. */
  predicate FreshIds(t: Table, newIds: seq<Id>) {
    && (forall k :: 0 <= k < |newIds| ==> newIds[k] !in t)
    && (forall j, k :: 0 <= j < k < |newIds| ==> newIds[j] != newIds[k])
  }

  // --- the table after k rows -------------------------------------------------------------

  /** The row id that list position k ends up in. */
  function Slot(inputs: seq<Input>, newIds: seq<Id>, k: nat): Id
    requires k < |inputs| == |newIds|
  {
    if inputs[k].id.Some? then inputs[k].id.value else newIds[k]
  }

  ghost predicate SlotsDiffer(inputs: seq<Input>, newIds: seq<Id>)
    requires |inputs| == |newIds|
  {
    forall j, k :: 0 <= j < k < |inputs| ==> Slot(inputs, newIds, j) != Slot(inputs, newIds, k)
  }

  /** Everything the theorems assume about a list that passed the first loop. */
  ghost predicate Plan(t0: Table, partner: Id, inputs: seq<Input>, newIds: seq<Id>) {
    && |inputs| == |newIds| && FreshIds(t0, newIds) && Known(t0, inputs)
    && ListFault(t0, partner, inputs).None? && SlotsDiffer(inputs, newIds)
  }

  lemma PlanFromCheck(t0: Table, partner: Id, inputs: seq<Input>, newIds: seq<Id>)
    requires |inputs| == |newIds| && FreshIds(t0, newIds) && ListFault(t0, partner, inputs).None?
    ensures Plan(t0, partner, inputs, newIds)
  {
    FaultlessIdsAreActive(t0, partner, inputs);
    forall j, k | 0 <= j < k < |inputs|
      ensures Slot(inputs, newIds, j) != Slot(inputs, newIds, k)
    {
      assert inputs[k].id.Some? ==> ActiveOf(t0, partner, inputs[k].id.value);
      assert inputs[j].id.Some? ==> ActiveOf(t0, partner, inputs[j].id.value);
    }
  }

  /** The first n list positions are written. */
  ghost predicate SlotsHold(t: Table, partner: Id, inputs: seq<Input>, newIds: seq<Id>, n: nat)
    requires n <= |inputs| == |newIds|
  {
    forall k :: 0 <= k < n ==> Holds(t, Slot(inputs, newIds, k), partner, Applied(inputs[k]))
  }

  /** Every other row is as the sweep left it, and there are no others. */
  ghost predicate RestIsSwept(t: Table, t0: Table, partner: Id, inputs: seq<Input>, newIds: seq<Id>, n: nat)
    requires n <= |inputs| == |newIds|
  {
    && (forall id :: id in t <==> id in t0 || InNewSlot(inputs, newIds, n, id))
    && (forall id :: id in t0 && !InSlot(inputs, newIds, n, id) ==> t[id] == Swept(t0, partner, inputs)[id])
  }

  ghost predicate StateAt(t: Table, t0: Table, partner: Id, inputs: seq<Input>, newIds: seq<Id>, n: nat)
    requires n <= |inputs| == |newIds|
  {
    SlotsHold(t, partner, inputs, newIds, n) && RestIsSwept(t, t0, partner, inputs, newIds, n)
  }

  predicate Holds(t: Table, id: Id, partner: Id, d: Details) {
    id in t && t[id] == Contact(partner, d, false)
  }

  predicate InSlot(inputs: seq<Input>, newIds: seq<Id>, n: nat, id: Id)
    requires n <= |inputs| == |newIds|
  {
    exists k :: 0 <= k < n && Slot(inputs, newIds, k) == id
  }

  predicate InNewSlot(inputs: seq<Input>, newIds: seq<Id>, n: nat, id: Id)
    requires n <= |inputs| == |newIds|
  {
    exists k :: 0 <= k < n && inputs[k].id.None? && newIds[k] == id
  }

  /** Row n of the list may be written: the name and the permission are there. */
  predicate Allowed(t0: Table, input: Input, perms: Perms)
    requires input.id.Some? ==> input.id.value in t0
  {
    && Applied(input).name != ""
    && (input.id.None? ==> perms.create)
    && (Writes(t0, input) && input.id.Some? ==> perms.update)
  }

  /** A new contact, or one whose details change. */
  predicate Writes(t0: Table, input: Input)
    requires input.id.Some? ==> input.id.value in t0
  {
    input.id.Some? ==> Applied(input) != t0[input.id.value].details
  }

  /** When row k is written, row j still (or already) carries the key that row k takes. */
  predicate Collides(t0: Table, inputs: seq<Input>, k: nat, j: nat)
    requires Known(t0, inputs) && k < |inputs| && j < |inputs|
  {
    || (j < k && Key(Applied(inputs[j])) == Key(Applied(inputs[k])))
    || (k < j && inputs[j].id.Some? && Key(t0[inputs[j].id.value].details) == Key(Applied(inputs[k])))
  }

  predicate Free(t0: Table, inputs: seq<Input>, k: nat)
    requires Known(t0, inputs) && k < |inputs|
  {
    forall j :: 0 <= j < |inputs| ==> !Collides(t0, inputs, k, j)
  }

  lemma SlotIsNotEarlier(inputs: seq<Input>, newIds: seq<Id>, n: nat)
    requires n < |inputs| == |newIds| && SlotsDiffer(inputs, newIds)
    ensures !InSlot(inputs, newIds, n, Slot(inputs, newIds, n))
  {
  }

  /** Who is active when row n is about to be written. */
  lemma ActiveAt(t: Table, t0: Table, partner: Id, inputs: seq<Input>, newIds: seq<Id>, n: nat, o: Id)
    requires Plan(t0, partner, inputs, newIds) && n <= |inputs| && StateAt(t, t0, partner, inputs, newIds, n)
    ensures ActiveOf(t, partner, o) <==>
            InSlot(inputs, newIds, n, o) || (Keeps(inputs, o) && !InSlot(inputs, newIds, n, o))
    ensures Keeps(inputs, o) && !InSlot(inputs, newIds, n, o) ==> o in t0 && t[o] == t0[o] && ActiveOf(t0, partner, o)
  {
    FaultlessIdsAreActive(t0, partner, inputs);
    if InSlot(inputs, newIds, n, o) {
      var k :| 0 <= k < n && Slot(inputs, newIds, k) == o;
      assert Holds(t, o, partner, Applied(inputs[k]));
    } else if Keeps(inputs, o) {
      var k :| 0 <= k < |inputs| && inputs[k].id == Some(o);
      assert ActiveOf(t0, partner, o);
    }
  }

  /** The index refuses row n exactly when it collides with another list position. */
  lemma ClashIsCollision(t: Table, t0: Table, partner: Id, inputs: seq<Input>, newIds: seq<Id>, n: nat)
    requires Plan(t0, partner, inputs, newIds) && n < |inputs| && StateAt(t, t0, partner, inputs, newIds, n)
    ensures Clashes(t, partner, Slot(inputs, newIds, n), Applied(inputs[n])) <==> !Free(t0, inputs, n)
  {
    if Clashes(t, partner, Slot(inputs, newIds, n), Applied(inputs[n])) {
      ClashCollides(t, t0, partner, inputs, newIds, n);
    }
    if j: nat :| j < |inputs| && Collides(t0, inputs, n, j) {
      CollisionClashes(t, t0, partner, inputs, newIds, n, j);
    }
  }

  lemma ClashCollides(t: Table, t0: Table, partner: Id, inputs: seq<Input>, newIds: seq<Id>, n: nat)
    requires Plan(t0, partner, inputs, newIds) && n < |inputs| && StateAt(t, t0, partner, inputs, newIds, n)
    requires Clashes(t, partner, Slot(inputs, newIds, n), Applied(inputs[n]))
    ensures !Free(t0, inputs, n)
  {
    var d, s := Applied(inputs[n]), Slot(inputs, newIds, n);
    var o :| o in t && o != s && ActiveOf(t, partner, o) && Key(t[o].details) == Key(d);
    ActiveAt(t, t0, partner, inputs, newIds, n, o);
    if InSlot(inputs, newIds, n, o) {
      var j :| 0 <= j < n && Slot(inputs, newIds, j) == o;
      assert Holds(t, o, partner, Applied(inputs[j]));
      assert Collides(t0, inputs, n, j);
    } else {
      var j :| 0 <= j < |inputs| && inputs[j].id == Some(o);
      assert Slot(inputs, newIds, j) == o;
      assert Collides(t0, inputs, n, j);
    }
  }

  lemma CollisionClashes(t: Table, t0: Table, partner: Id, inputs: seq<Input>, newIds: seq<Id>, n: nat, j: nat)
    requires Plan(t0, partner, inputs, newIds) && n < |inputs| && StateAt(t, t0, partner, inputs, newIds, n)
    requires j < |inputs| && Collides(t0, inputs, n, j)
    ensures Clashes(t, partner, Slot(inputs, newIds, n), Applied(inputs[n]))
  {
    var d, s, o := Applied(inputs[n]), Slot(inputs, newIds, n), Slot(inputs, newIds, j);
    ActiveAt(t, t0, partner, inputs, newIds, n, o);
    if j < n {
      assert Holds(t, o, partner, Applied(inputs[j]));
    } else {
      assert inputs[j].id == Some(o);
      assert !InSlot(inputs, newIds, n, o);
    }
    assert o != s && ActiveOf(t, partner, o) && Key(t[o].details) == Key(d);
  }

  lemma KeptRowAsLoaded(t: Table, t0: Table, partner: Id, inputs: seq<Input>, newIds: seq<Id>, n: nat)
    requires Plan(t0, partner, inputs, newIds) && n < |inputs| && StateAt(t, t0, partner, inputs, newIds, n)
    requires inputs[n].id.Some?
    ensures var s := inputs[n].id.value; s in t && t[s] == t0[s] && t0[s].partner == partner && !t0[s].deleted
  {
    FaultlessIdsAreActive(t0, partner, inputs);
    SlotIsNotEarlier(inputs, newIds, n);
    assert Keeps(inputs, inputs[n].id.value);
  }

  lemma PassedRow(t: Table, t0: Table, partner: Id, input: Input, newId: Id, perms: Perms)
    requires input.id.Some? ==>
               var s := input.id.value; s in t0 && s in t && t[s] == t0[s] && t0[s].partner == partner && !t0[s].deleted
    requires RowStep(t0, t, partner, input, newId, perms).Ok?
    ensures RowStep(t0, t, partner, input, newId, perms).value ==
            t[if input.id.Some? then input.id.value else newId := Contact(partner, Applied(input), false)]
  {
    if input.id.Some? && Applied(input) == t0[input.id.value].details {
      assert t[input.id.value := t[input.id.value]] == t;
    }
  }

  /** A row that goes through leaves its details in its slot, whether or not it was written. */
  lemma RowLandsInItsSlot(t: Table, t0: Table, partner: Id, inputs: seq<Input>, newIds: seq<Id>, n: nat, perms: Perms)
    requires Plan(t0, partner, inputs, newIds) && n < |inputs| && StateAt(t, t0, partner, inputs, newIds, n)
    requires RowStep(t0, t, partner, inputs[n], newIds[n], perms).Ok?
    ensures RowStep(t0, t, partner, inputs[n], newIds[n], perms).value ==
            t[Slot(inputs, newIds, n) := Contact(partner, Applied(inputs[n]), false)]
  {
    if inputs[n].id.Some? {
      KeptRowAsLoaded(t, t0, partner, inputs, newIds, n);
    }
    PassedRow(t, t0, partner, inputs[n], newIds[n], perms);
  }

  lemma SlotsSoFar(inputs: seq<Input>, newIds: seq<Id>, n: nat, id: Id)
    requires n < |inputs| == |newIds|
    ensures InSlot(inputs, newIds, n + 1, id) <==> InSlot(inputs, newIds, n, id) || id == Slot(inputs, newIds, n)
    ensures InNewSlot(inputs, newIds, n + 1, id) <==>
            InNewSlot(inputs, newIds, n, id) || (inputs[n].id.None? && id == Slot(inputs, newIds, n))
  {
  }

  lemma StateAfterWrite(t: Table, t0: Table, partner: Id, inputs: seq<Input>, newIds: seq<Id>, n: nat)
    requires Plan(t0, partner, inputs, newIds) && n < |inputs| && StateAt(t, t0, partner, inputs, newIds, n)
    ensures StateAt(t[Slot(inputs, newIds, n) := Contact(partner, Applied(inputs[n]), false)],
                    t0, partner, inputs, newIds, n + 1)
  {
    SlotsAfterWrite(t, partner, inputs, newIds, n);
    RestAfterWrite(t, t0, partner, inputs, newIds, n);
  }

  lemma SlotsAfterWrite(t: Table, partner: Id, inputs: seq<Input>, newIds: seq<Id>, n: nat)
    requires n < |inputs| == |newIds| && SlotsDiffer(inputs, newIds) && SlotsHold(t, partner, inputs, newIds, n)
    ensures SlotsHold(t[Slot(inputs, newIds, n) := Contact(partner, Applied(inputs[n]), false)], partner, inputs, newIds, n + 1)
  {
    var t' := t[Slot(inputs, newIds, n) := Contact(partner, Applied(inputs[n]), false)];
    forall k | 0 <= k < n + 1
      ensures Holds(t', Slot(inputs, newIds, k), partner, Applied(inputs[k]))
    {
      assert k < n ==> Holds(t, Slot(inputs, newIds, k), partner, Applied(inputs[k]));
    }
  }

  lemma RestAfterWrite(t: Table, t0: Table, partner: Id, inputs: seq<Input>, newIds: seq<Id>, n: nat)
    requires Plan(t0, partner, inputs, newIds) && n < |inputs| && RestIsSwept(t, t0, partner, inputs, newIds, n)
    ensures RestIsSwept(t[Slot(inputs, newIds, n) := Contact(partner, Applied(inputs[n]), false)],
                        t0, partner, inputs, newIds, n + 1)
  {
    var t' := t[Slot(inputs, newIds, n) := Contact(partner, Applied(inputs[n]), false)];
    forall id
      ensures id in t' <==> id in t0 || InNewSlot(inputs, newIds, n + 1, id)
      ensures id in t0 && !InSlot(inputs, newIds, n + 1, id) ==> t'[id] == Swept(t0, partner, inputs)[id]
    {
      OtherRowsAfterWrite(t, t0, partner, inputs, newIds, n, id);
    }
  }

  lemma OtherRowsAfterWrite(t: Table, t0: Table, partner: Id, inputs: seq<Input>, newIds: seq<Id>, n: nat, id: Id)
    requires Plan(t0, partner, inputs, newIds) && n < |inputs| && RestIsSwept(t, t0, partner, inputs, newIds, n)
    ensures var t' := t[Slot(inputs, newIds, n) := Contact(partner, Applied(inputs[n]), false)];
            && (id in t' <==> id in t0 || InNewSlot(inputs, newIds, n + 1, id))
            && (id in t0 && !InSlot(inputs, newIds, n + 1, id) ==> id in t' && t'[id] == Swept(t0, partner, inputs)[id])
  {
    SlotsSoFar(inputs, newIds, n, id);
  }

  lemma RowOkExactlyWhen(t: Table, t0: Table, partner: Id, inputs: seq<Input>, newIds: seq<Id>, n: nat, perms: Perms)
    requires Plan(t0, partner, inputs, newIds) && n < |inputs| && StateAt(t, t0, partner, inputs, newIds, n)
    ensures RowStep(t0, t, partner, inputs[n], newIds[n], perms).Ok? <==> RowPasses(t0, inputs, perms, n)
  {
    ClashIsCollision(t, t0, partner, inputs, newIds, n);
  }

  ghost predicate FirstPass(t0: Table, inputs: seq<Input>, perms: Perms, n: nat)
    requires Known(t0, inputs) && n <= |inputs|
  {
    forall k :: 0 <= k < n ==> RowPasses(t0, inputs, perms, k)
  }

  /** Row n on top of the first n rows. */
  lemma OneMoreRow(t0: Table, t: Table, partner: Id, inputs: seq<Input>, newIds: seq<Id>, perms: Perms, n: nat)
    requires Plan(t0, partner, inputs, newIds) && n < |inputs| && StateAt(t, t0, partner, inputs, newIds, n)
    ensures var outcome := RowStep(t0, t, partner, inputs[n], newIds[n], perms);
            && (outcome.Ok? <==> RowPasses(t0, inputs, perms, n))
            && (outcome.Ok? ==> StateAt(outcome.value, t0, partner, inputs, newIds, n + 1))
  {
    RowOkExactlyWhen(t, t0, partner, inputs, newIds, n, perms);
    if RowPasses(t0, inputs, perms, n) {
      RowLandsInItsSlot(t, t0, partner, inputs, newIds, n, perms);
      StateAfterWrite(t, t0, partner, inputs, newIds, n);
    }
  }

  lemma RowStepsSnoc(t0: Table, t: Table, partner: Id, inputs: seq<Input>, newIds: seq<Id>, perms: Perms, n: nat)
    requires Known(t0, inputs) && n < |inputs| == |newIds|
    ensures var earlier := RowSteps(t0, t, partner, inputs[..n], newIds[..n], perms);
            RowSteps(t0, t, partner, inputs[..n + 1], newIds[..n + 1], perms) ==
            if earlier.Err? then earlier else RowStep(t0, earlier.value, partner, inputs[n], newIds[n], perms)
  {
    assert inputs[..n + 1][..n] == inputs[..n] && newIds[..n + 1][..n] == newIds[..n];
  }

  lemma NothingWritten(t0: Table, partner: Id, inputs: seq<Input>, newIds: seq<Id>)
    requires |inputs| == |newIds|
    ensures StateAt(Swept(t0, partner, inputs), t0, partner, inputs, newIds, 0)
  {
  }

  /** Running the first n rows succeeds exactly when each is allowed and free to be written. */
  lemma {:induction false} FirstRows(t0: Table, partner: Id, inputs: seq<Input>, newIds: seq<Id>, perms: Perms, n: nat)
    requires Plan(t0, partner, inputs, newIds) && n <= |inputs|
    ensures var outcome := RowSteps(t0, Swept(t0, partner, inputs), partner, inputs[..n], newIds[..n], perms);
            && (outcome.Ok? <==> FirstPass(t0, inputs, perms, n))
            && (outcome.Ok? ==> StateAt(outcome.value, t0, partner, inputs, newIds, n))
  {
    if n == 0 {
      NothingWritten(t0, partner, inputs, newIds);
    } else {
      FirstRows(t0, partner, inputs, newIds, perms, n - 1);
      RowStepsSnoc(t0, Swept(t0, partner, inputs), partner, inputs, newIds, perms, n - 1);
      var earlier := RowSteps(t0, Swept(t0, partner, inputs), partner, inputs[..n - 1], newIds[..n - 1], perms);
      if earlier.Ok? {
        OneMoreRow(t0, earlier.value, partner, inputs, newIds, perms, n - 1);
      }
    }
  }

  /** Row k is allowed and, if it is written at all, its key is free at that moment. */
  predicate RowPasses(t0: Table, inputs: seq<Input>, perms: Perms, k: nat)
    requires Known(t0, inputs) && k < |inputs|
  {
    Allowed(t0, inputs[k], perms) && (Writes(t0, inputs[k]) ==> Free(t0, inputs, k))
  }

  // --- the theorems ---------------------------------------------------------------------

  /** A list goes through exactly when it names known contacts once, and every change is permitted and free. */
  lemma AcceptedExactlyWhen(t: Table, partner: Id, inputs: seq<Input>, newIds: seq<Id>, perms: Perms)
    requires |inputs| == |newIds| && FreshIds(t, newIds)
    ensures Sync(t, partner, inputs, newIds, perms).Ok?
       <==> && ListFault(t, partner, inputs).None?
            && (NeedsDelete(t, partner, inputs) ==> perms.delete)
            && Known(t, inputs)
            && forall k :: 0 <= k < |inputs| ==> RowPasses(t, inputs, perms, k)
  {
    if ListFault(t, partner, inputs).None? {
      PlanFromCheck(t, partner, inputs, newIds);
      FirstRows(t, partner, inputs, newIds, perms, |inputs|);
      assert inputs[..|inputs|] == inputs && newIds[..|inputs|] == newIds;
    }
  }

  /** The contact shows what was submitted, each field trimmed and in its own column. */
  predicate ShowsInput(d: Details, input: Input) {
    && d.name == Trim(input.name) && d.position == Trim(input.position)
    && d.phone == Trim(input.phone) && d.email == Trim(input.email)
  }

  predicate StoredAs(t: Table, id: Id, partner: Id, input: Input) {
    id in t && t[id].partner == partner && !t[id].deleted && ShowsInput(t[id].details, input)
  }

  /** The index takes these two for the same contact: same name and email up to case, same phone. */
  predicate SameInIndex(d: Details, input: Input) {
    Lower(d.name) == Lower(Trim(input.name)) && Lower(d.email) == Lower(Trim(input.email)) && d.phone == Trim(input.phone)
  }

  predicate SameSubmitted(a: Input, b: Input) {
    && Lower(Trim(a.name)) == Lower(Trim(b.name)) && Lower(Trim(a.email)) == Lower(Trim(b.email))
    && Trim(a.phone) == Trim(b.phone)
  }

  /** The same letter, large or small, or the same sign. */
  predicate SameLetter(a: char, b: char) {
    || a == b
    || ('A' <= a <= 'Z' && b as int - a as int == 32)
    || ('A' <= b <= 'Z' && a as int - b as int == 32)
  }

  /** Lowering two texts makes them equal exactly when they differ at most in the size of letters. */
  lemma LowerComparesUpToCase(a: string, b: string)
    ensures Lower(a) == Lower(b) <==> |a| == |b| && forall k :: 0 <= k < |a| ==> SameLetter(a[k], b[k])
  {
    if |a| == |b| {
      assert forall k :: 0 <= k < |a| ==> (SameLetter(a[k], b[k]) <==> Lower(a)[k] == Lower(b)[k]);
    } else {
      assert |Lower(a)| != |Lower(b)|;
    }
  }

  /** Row k of the list is already what is stored. */
  predicate AsStored(t: Table, input: Input) {
    input.id.Some? && input.id.value in t && ShowsInput(t[input.id.value].details, input)
  }

  /**
   Row k has a name, its kind of change is permitted, and if it changes anything, no earlier
   row and no contact of a later row carries its name, email and phone.
   */
  predicate MaySave(t: Table, inputs: seq<Input>, perms: Perms, k: nat)
    requires k < |inputs| && Known(t, inputs)
  {
    && Trim(inputs[k].name) != ""
    && (inputs[k].id.None? ==> perms.create)
    && (!AsStored(t, inputs[k]) ==>
          && (inputs[k].id.Some? ==> perms.update)
          && (forall j :: 0 <= j < k ==> !SameSubmitted(inputs[j], inputs[k]))
          && (forall j :: k < j < |inputs| && inputs[j].id.Some? ==> !SameInIndex(t[inputs[j].id.value].details, inputs[k])))
  }

  lemma MaySaveIsRowPasses(t: Table, inputs: seq<Input>, perms: Perms, k: nat)
    requires k < |inputs| && Known(t, inputs)
    ensures MaySave(t, inputs, perms, k) <==> RowPasses(t, inputs, perms, k)
  {
    assert Writes(t, inputs[k]) <==> !AsStored(t, inputs[k]);
    forall j | 0 <= j < |inputs|
      ensures Collides(t, inputs, k, j) <==>
              || (j < k && SameSubmitted(inputs[j], inputs[k]))
              || (k < j && inputs[j].id.Some? && SameInIndex(t[inputs[j].id.value].details, inputs[k]))
    {
    }
  }

  predicate IsActive(t: Table, partner: Id, id: Id) {
    id in t && t[id].partner == partner && !t[id].deleted
  }

  /** Every id of the list is an active contact of the partner, and none comes twice. */
  predicate IdsFit(t: Table, partner: Id, inputs: seq<Input>) {
    && (forall k :: 0 <= k < |inputs| && inputs[k].id.Some? ==> IsActive(t, partner, inputs[k].id.value))
    && (forall j, k :: 0 <= j < k < |inputs| && inputs[k].id.Some? ==> inputs[j].id != inputs[k].id)
  }

  lemma {:induction false} IdsFitExactlyWhen(t: Table, partner: Id, inputs: seq<Input>)
    ensures ListFault(t, partner, inputs).None? <==> IdsFit(t, partner, inputs)
  {
    if inputs != [] {
      var n := |inputs| - 1;
      IdsFitExactlyWhen(t, partner, inputs[..n]);
      assert IdsFit(t, partner, inputs) ==> IdsFit(t, partner, inputs[..n]);
      if inputs[n].id.Some? && Keeps(inputs[..n], inputs[n].id.value) {
        var j :| 0 <= j < n && inputs[..n][j].id == inputs[n].id;
        assert inputs[j].id == inputs[n].id;
      }
    }
  }

  /** An active contact of the partner that the list leaves out. */
  predicate LeavesOut(t: Table, partner: Id, inputs: seq<Input>) {
    exists id :: id in t && IsActive(t, partner, id) && forall k :: 0 <= k < |inputs| ==> inputs[k].id != Some(id)
  }

  /** When a list goes through, in terms of the submitted fields. */
  lemma AcceptedBySubmittedFields(t: Table, partner: Id, inputs: seq<Input>, newIds: seq<Id>, perms: Perms)
    requires |inputs| == |newIds| && FreshIds(t, newIds)
    ensures Sync(t, partner, inputs, newIds, perms).Ok?
       <==> && IdsFit(t, partner, inputs) && (LeavesOut(t, partner, inputs) ==> perms.delete) && Known(t, inputs)
            && forall k :: 0 <= k < |inputs| ==> MaySave(t, inputs, perms, k)
  {
    AcceptedExactlyWhen(t, partner, inputs, newIds, perms);
    IdsFitExactlyWhen(t, partner, inputs);
    assert LeavesOut(t, partner, inputs) <==> NeedsDelete(t, partner, inputs);
    if Known(t, inputs) {
      forall k | 0 <= k < |inputs|
        ensures MaySave(t, inputs, perms, k) <==> RowPasses(t, inputs, perms, k)
      {
        MaySaveIsRowPasses(t, inputs, perms, k);
      }
    }
  }

  /**
   On success the partner's active contacts are exactly the list: each row in its own
   slot with every submitted field trimmed in its own column, a new id for each new row,
   everything else of the partner soft-deleted, and all other rows untouched.
   */
  lemma ActiveContactsAreTheList(t: Table, partner: Id, inputs: seq<Input>, newIds: seq<Id>, perms: Perms)
    requires |inputs| == |newIds| && FreshIds(t, newIds) && Sync(t, partner, inputs, newIds, perms).Ok?
    ensures SlotsDiffer(inputs, newIds)
    ensures var t' := Sync(t, partner, inputs, newIds, perms).value;
            && (forall k :: 0 <= k < |inputs| ==> Holds(t', Slot(inputs, newIds, k), partner, Applied(inputs[k])))
            && (forall k :: 0 <= k < |inputs| ==> StoredAs(t', Slot(inputs, newIds, k), partner, inputs[k]))
            && (forall id :: id in t' && ActiveOf(t', partner, id) ==> InSlot(inputs, newIds, |inputs|, id))
            && (forall id :: id in t && ActiveOf(t, partner, id) && !Keeps(inputs, id) ==>
                  id in t' && t'[id] == t[id].(deleted := true))
            && (forall id :: id in t && !ActiveOf(t, partner, id) ==> id in t' && t'[id] == t[id])
  {
    PlanFromCheck(t, partner, inputs, newIds);
    FirstRows(t, partner, inputs, newIds, perms, |inputs|);
    assert inputs[..|inputs|] == inputs && newIds[..|inputs|] == newIds;
    FaultlessIdsAreActive(t, partner, inputs);
    var t' := Sync(t, partner, inputs, newIds, perms).value;
    forall k | 0 <= k < |inputs|
      ensures StoredAs(t', Slot(inputs, newIds, k), partner, inputs[k])
    {
      assert Holds(t', Slot(inputs, newIds, k), partner, Applied(inputs[k]));
    }
    forall id | id in t && (!ActiveOf(t, partner, id) || !Keeps(inputs, id))
      ensures id in t' && t'[id] == Swept(t, partner, inputs)[id]
    {
      assert !InSlot(inputs, newIds, |inputs|, id);
    }
    forall id | id in t' && ActiveOf(t', partner, id)
      ensures InSlot(inputs, newIds, |inputs|, id)
    {
      ActiveAt(t', t, partner, inputs, newIds, |inputs|, id);
      if Keeps(inputs, id) {
        var k :| 0 <= k < |inputs| && inputs[k].id == Some(id);
        assert Slot(inputs, newIds, k) == id;
      }
    }
  }

  /** A kept contact ends up with its submitted details, which are its old ones unless editing is permitted. */
  lemma KeptContact(t: Table, partner: Id, inputs: seq<Input>, newIds: seq<Id>, perms: Perms, id: Id)
    requires |inputs| == |newIds| && FreshIds(t, newIds) && Sync(t, partner, inputs, newIds, perms).Ok?
    requires id in t && Keeps(inputs, id)
    ensures var t' := Sync(t, partner, inputs, newIds, perms).value;
            id in t' && !t'[id].deleted && (!perms.update ==> t'[id] == t[id])
  {
    AcceptedExactlyWhen(t, partner, inputs, newIds, perms);
    ActiveContactsAreTheList(t, partner, inputs, newIds, perms);
    FaultlessIdsAreActive(t, partner, inputs);
    var t' := Sync(t, partner, inputs, newIds, perms).value;
    var k :| 0 <= k < |inputs| && inputs[k].id == Some(id);
    assert Slot(inputs, newIds, k) == id && Holds(t', id, partner, Applied(inputs[k]));
    assert RowPasses(t, inputs, perms, k) && Allowed(t, inputs[k], perms);
  }

  lemma NothingAdded(t: Table, partner: Id, inputs: seq<Input>, newIds: seq<Id>, perms: Perms)
    requires |inputs| == |newIds| && FreshIds(t, newIds) && Sync(t, partner, inputs, newIds, perms).Ok? && !perms.create
    ensures Sync(t, partner, inputs, newIds, perms).value.Keys == t.Keys
  {
    AcceptedExactlyWhen(t, partner, inputs, newIds, perms);
    PlanFromCheck(t, partner, inputs, newIds);
    FirstRows(t, partner, inputs, newIds, perms, |inputs|);
    assert inputs[..|inputs|] == inputs && newIds[..|inputs|] == newIds;
    forall k | 0 <= k < |inputs|
      ensures inputs[k].id.Some?
    {
      assert RowPasses(t, inputs, perms, k) && Allowed(t, inputs[k], perms);
    }
  }

  /** Only the kinds of change that the caller may make are made. */
  lemma OnlyPermittedChanges(t: Table, partner: Id, inputs: seq<Input>, newIds: seq<Id>, perms: Perms)
    requires |inputs| == |newIds| && FreshIds(t, newIds) && Sync(t, partner, inputs, newIds, perms).Ok?
    ensures var t' := Sync(t, partner, inputs, newIds, perms).value;
            && (!perms.create ==> t'.Keys == t.Keys)
            && (!perms.delete ==> forall id :: id in t && !t[id].deleted ==> id in t' && !t'[id].deleted)
            && (!perms.update ==> forall id :: id in t && id in t' && !t'[id].deleted ==> t'[id] == t[id])
  {
    var t' := Sync(t, partner, inputs, newIds, perms).value;
    if !perms.create {
      NothingAdded(t, partner, inputs, newIds, perms);
    }
    ActiveContactsAreTheList(t, partner, inputs, newIds, perms);
    forall id | id in t
      ensures !perms.delete && !t[id].deleted ==> id in t' && !t'[id].deleted
      ensures !perms.update && id in t' && !t'[id].deleted ==> t'[id] == t[id]
    {
      if Keeps(inputs, id) {
        KeptContact(t, partner, inputs, newIds, perms, id);
      }
    }
  }

  /** The unique index holds for the whole table at the end, for this partner and all others. */
  lemma SyncKeepsNoDuplicates(t: Table, partner: Id, inputs: seq<Input>, newIds: seq<Id>, perms: Perms)
    requires |inputs| == |newIds| && FreshIds(t, newIds) && Sync(t, partner, inputs, newIds, perms).Ok? && NoDuplicates(t)
    ensures NoDuplicates(Sync(t, partner, inputs, newIds, perms).value)
  {
    FaultlessIdsAreActive(t, partner, inputs);
    PlanFromCheck(t, partner, inputs, newIds);
    RowsKeepNoDuplicates(t, Swept(t, partner, inputs), partner, inputs, newIds, perms);
  }

  lemma {:induction false} RowsKeepNoDuplicates(t0: Table, t: Table, partner: Id, inputs: seq<Input>, newIds: seq<Id>, perms: Perms)
    requires Known(t0, inputs) && |newIds| == |inputs| && NoDuplicates(t)
    requires forall k :: 0 <= k < |inputs| && inputs[k].id.Some? ==> ActiveOf(t0, partner, inputs[k].id.value)
    requires RowSteps(t0, t, partner, inputs, newIds, perms).Ok?
    ensures NoDuplicates(RowSteps(t0, t, partner, inputs, newIds, perms).value)
  {
    if inputs != [] {
      var n := |inputs| - 1;
      RowsKeepNoDuplicates(t0, t, partner, inputs[..n], newIds[..n], perms);
      var earlier := RowSteps(t0, t, partner, inputs[..n], newIds[..n], perms).value;
      var d := Applied(inputs[n]);
      var s := if inputs[n].id.Some? then inputs[n].id.value else newIds[n];
      if !Clashes(earlier, partner, s, d) {
        WritingKeepsNoDuplicates(earlier, partner, s, d);
      }
    }
  }

  lemma WritingKeepsNoDuplicates(t: Table, partner: Id, id: Id, d: Details)
    requires NoDuplicates(t) && !Clashes(t, partner, id, d)
    ensures NoDuplicates(t[id := Contact(partner, d, false)])
  {
  }

  // --- where it falls short ------------------------------------------------------------

  /**
   Deletions come first so that a replaced contact does not trip the index, but updates
   run one by one: swapping the names of two contacts is refused although neither the
   old nor the new list has a duplicate.
   */
  lemma SwappingNamesIsRefused() returns (t: Table, inputs: seq<Input>)
    ensures NoDuplicates(t) && |inputs| == 2 && ListFault(t, 0, inputs).None?
    ensures Key(Applied(inputs[0])) != Key(Applied(inputs[1]))
    ensures forall newIds :: |newIds| == 2 && FreshIds(t, newIds) ==> Sync(t, 0, inputs, newIds, Perms(true, true, true)).Err?
  {
    var a, b := Details("a", "", "", ""), Details("b", "", "", "");
    t := map[1 := Contact(0, a, false), 2 := Contact(0, b, false)];
    var first, second := Input(Some(1), "b", "", "", ""), Input(Some(2), "a", "", "", "");
    inputs := [first, second];
    TrimLetter('a');
    TrimLetter('b');
    assert Lower("a")[0] == 'a' && Lower("b")[0] == 'b';
    assert inputs[..1] == [first] && [first][..0] == [];
    assert ListFault(t, 0, [first]).None?;
    assert Collides(t, inputs, 0, 1);
    forall newIds: seq<Id> | |newIds| == 2 && FreshIds(t, newIds)
      ensures Sync(t, 0, inputs, newIds, Perms(true, true, true)).Err?
    {
      AcceptedExactlyWhen(t, 0, inputs, newIds, Perms(true, true, true));
      assert !RowPasses(t, inputs, Perms(true, true, true), 0);
    }
  }

  lemma TrimLetter(c: char)
    requires !IsSpace(c)
    ensures Trim([c]) == [c]
  {
  }

  // --- what a refusal says -------------------------------------------------------------

  /** Row k collides with an earlier row, or with a contact that a later row has yet to change. */
  predicate Meets(t: Table, inputs: seq<Input>, k: nat)
    requires k < |inputs| && Known(t, inputs)
  {
    || (exists j :: 0 <= j < k && SameSubmitted(inputs[j], inputs[k]))
    || (exists j :: k < j < |inputs| && inputs[j].id.Some? && SameInIndex(t[inputs[j].id.value].details, inputs[k]))
  }

  /** What the refusal says is so. */
  predicate IsSo(t: Table, partner: Id, inputs: seq<Input>, perms: Perms, why: Refusal) {
    match why
    case NoLongerExists => exists k :: 0 <= k < |inputs| && inputs[k].id.Some? && !IsActive(t, partner, inputs[k].id.value)
    case SentTwice => exists j, k :: 0 <= j < k < |inputs| && inputs[k].id.Some? && inputs[j].id == inputs[k].id
    case Forbidden(Remove) => LeavesOut(t, partner, inputs) && !perms.delete
    case Forbidden(Change) => !perms.update && exists k :: 0 <= k < |inputs| && inputs[k].id.Some? && !AsStored(t, inputs[k])
    case Forbidden(Add) => !perms.create && exists k :: 0 <= k < |inputs| && inputs[k].id.None?
    case NameRequired => exists k :: 0 <= k < |inputs| && Trim(inputs[k].name) == ""
    case Duplicate => Known(t, inputs) && exists k :: 0 <= k < |inputs| && Meets(t, inputs, k)
  }

  lemma {:induction false} ListFaultIsSo(t: Table, partner: Id, inputs: seq<Input>, perms: Perms)
    requires ListFault(t, partner, inputs).Some?
    ensures ListFault(t, partner, inputs).value in {NoLongerExists, SentTwice}
    ensures IsSo(t, partner, inputs, perms, ListFault(t, partner, inputs).value)
  {
    var n := |inputs| - 1;
    if ListFault(t, partner, inputs[..n]).Some? {
      ListFaultIsSo(t, partner, inputs[..n], perms);
      if ListFault(t, partner, inputs).value == NoLongerExists {
        var k :| 0 <= k < n && inputs[..n][k].id.Some? && !IsActive(t, partner, inputs[..n][k].id.value);
        assert inputs[k].id.Some? && !IsActive(t, partner, inputs[k].id.value);
      } else {
        var j, k :| 0 <= j < k < n && inputs[..n][k].id.Some? && inputs[..n][j].id == inputs[..n][k].id;
        assert inputs[j].id == inputs[k].id;
      }
    } else if Keeps(inputs[..n], inputs[n].id.value) {
      var j :| 0 <= j < n && inputs[..n][j].id == inputs[n].id;
      assert inputs[j].id == inputs[n].id;
    }
  }

  lemma RowRefusalIsSo(t: Table, t0: Table, partner: Id, inputs: seq<Input>, newIds: seq<Id>, n: nat, perms: Perms)
    requires Plan(t0, partner, inputs, newIds) && n < |inputs| && StateAt(t, t0, partner, inputs, newIds, n)
    requires RowStep(t0, t, partner, inputs[n], newIds[n], perms).Err?
    ensures IsSo(t0, partner, inputs, perms, RowStep(t0, t, partner, inputs[n], newIds[n], perms).error)
  {
    ClashIsCollision(t, t0, partner, inputs, newIds, n);
    if !Free(t0, inputs, n) {
      var j :| 0 <= j < |inputs| && Collides(t0, inputs, n, j);
      assert j < n ==> SameSubmitted(inputs[j], inputs[n]);
      assert n < j ==> SameInIndex(t0[inputs[j].id.value].details, inputs[n]);
      assert Meets(t0, inputs, n);
    }
  }

  lemma {:induction false} RowsRefusalIsSo(t0: Table, partner: Id, inputs: seq<Input>, newIds: seq<Id>, perms: Perms, n: nat)
    requires Plan(t0, partner, inputs, newIds) && n <= |inputs|
    requires RowSteps(t0, Swept(t0, partner, inputs), partner, inputs[..n], newIds[..n], perms).Err?
    ensures IsSo(t0, partner, inputs, perms,
                 RowSteps(t0, Swept(t0, partner, inputs), partner, inputs[..n], newIds[..n], perms).error)
  {
    if n > 0 {
      RowStepsSnoc(t0, Swept(t0, partner, inputs), partner, inputs, newIds, perms, n - 1);
      var earlier := RowSteps(t0, Swept(t0, partner, inputs), partner, inputs[..n - 1], newIds[..n - 1], perms);
      if earlier.Err? {
        RowsRefusalIsSo(t0, partner, inputs, newIds, perms, n - 1);
      } else {
        FirstRows(t0, partner, inputs, newIds, perms, n - 1);
        RowRefusalIsSo(earlier.value, t0, partner, inputs, newIds, n - 1, perms);
      }
    }
  }

  /** Every refusal tells the caller something that is so. */
  lemma RefusalsAreSo(t: Table, partner: Id, inputs: seq<Input>, newIds: seq<Id>, perms: Perms)
    requires |inputs| == |newIds| && FreshIds(t, newIds) && Sync(t, partner, inputs, newIds, perms).Err?
    ensures IsSo(t, partner, inputs, perms, Sync(t, partner, inputs, newIds, perms).error)
  {
    if ListFault(t, partner, inputs).Some? {
      ListFaultIsSo(t, partner, inputs, perms);
    } else if NeedsDelete(t, partner, inputs) && !perms.delete {
      assert LeavesOut(t, partner, inputs);
    } else {
      PlanFromCheck(t, partner, inputs, newIds);
      assert inputs[..|inputs|] == inputs && newIds[..|inputs|] == newIds;
      RowsRefusalIsSo(t, partner, inputs, newIds, perms, |inputs|);
    }
  }
}
