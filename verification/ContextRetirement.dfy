/** Whether every browser context that was ever asked for has been retired (scripts/advanced-proof.ts). */
module ContextRetirement {
  import opened RunLog
  import opened Correspondence

  datatype Operation = CreateOp | DeleteOp | InspectOp | SettlementOp | OtherOp(name: string)

  datatype Outcome = Dispatched | Returned | Unsure | Confirmed | Failed | ClosedSession | OtherOutcome(name: string)

  datatype Entry = Entry(sequence: Sequence, contextId: Id, operation: Operation, status: Outcome)

  datatype Context = Context(id: Id, deleted: bool, revoked: bool, heldJob: Option<Id>, remoteIdDigest: Option<string>)

  datatype Inventory = Inventory(contexts: seq<Context>, operations: seq<Entry>)

  function ContextIdOf(c: Context): Id { c.id }

  function SequenceOf(e: Entry): Sequence { e.sequence }

  predicate Parses(inventory: Inventory) {
    && |SetOf(Map(ContextIdOf, inventory.contexts))| == |inventory.contexts|
    && |SetOf(Map(SequenceOf, inventory.operations))| == |inventory.operations|
  }

  // ---- One context's history, in order ----

  predicate InOrder(entries: seq<Entry>) {
    forall i, j :: 0 <= i < j < |entries| ==> entries[i].sequence < entries[j].sequence
  }

  function Insert(e: Entry, sorted: seq<Entry>): (r: seq<Entry>)
    requires InOrder(sorted) && forall o :: o in sorted ==> o.sequence != e.sequence
    ensures InOrder(r)
    ensures forall o :: o in r <==> o == e || o in sorted
  {
    if sorted == [] then [e]
    else if e.sequence < sorted[0].sequence then [e] + sorted
    else
      assert sorted == [sorted[0]] + sorted[1..];
      var rest := Insert(e, sorted[1..]);
      assert forall i :: 0 <= i < |rest| ==> rest[i] in rest;
      [sorted[0]] + rest
  }

  /** Filter to one context and sort by sequence. */
  function HistoryOf(operations: seq<Entry>, id: Id): (r: seq<Entry>)
    requires Distinct(Map(SequenceOf, operations))
    ensures InOrder(r)
    ensures forall e :: e in r <==> e in operations && e.contextId == id
  {
    if operations == [] then []
    else
      var first, rest := operations[0], operations[1..];
      assert operations == [first] + rest;
      TailDistinct(operations);
      var sorted := HistoryOf(rest, id);
      if first.contextId == id then Insert(first, sorted) else sorted
  }

  lemma TailDistinct(operations: seq<Entry>)
    requires operations != [] && Distinct(Map(SequenceOf, operations))
    ensures Distinct(Map(SequenceOf, operations[1..]))
    ensures forall e :: e in operations[1..] ==> e.sequence != operations[0].sequence
  {
    var all, rest := Map(SequenceOf, operations), Map(SequenceOf, operations[1..]);
    assert forall i :: 0 <= i < |rest| ==> rest[i] == all[i + 1];
  }

  // ---- The automaton ----

  datatype Creation = NoCreation | CreationDispatched | CreationReturned | CreationUncertain

  datatype Deletion = NoDeletion | DeletionDispatched | DeletionUncertain | DeletionConfirmed

  datatype Progress = Progress(creation: Creation, deletion: Deletion)

  const UNTOUCHED := Progress(NoCreation, NoDeletion)

  /** One entry; None rejects the context. */
  function Advance(p: Progress, operation: Operation, status: Outcome): Option<Progress> {
    match operation
    case CreateOp =>
      if p.deletion != NoDeletion then None
      else if status == Dispatched && p.creation == NoCreation then Some(p.(creation := CreationDispatched))
      else if status == Returned && p.creation == CreationDispatched then Some(p.(creation := CreationReturned))
      else if status == Unsure && p.creation == CreationDispatched then Some(p.(creation := CreationUncertain))
      else None
    case DeleteOp =>
      if status == Dispatched && p.deletion == NoDeletion && (p.creation == CreationReturned || p.creation == CreationUncertain)
      then Some(p.(deletion := DeletionDispatched))
      else if status == Unsure && p.deletion == DeletionDispatched then Some(p.(deletion := DeletionUncertain))
      else if status == Confirmed && (p.deletion == DeletionDispatched || p.deletion == DeletionUncertain)
      then Some(p.(deletion := DeletionConfirmed))
      else None
    case InspectOp => if status == Failed then Some(p) else None
    case SettlementOp => if status == ClosedSession || status == Unsure then Some(p) else None
    case OtherOp(_) => None
  }

  function Walk(p: Progress, history: seq<Entry>): Option<Progress>
    decreases |history|
  {
    if history == [] then Some(p)
    else
      var next := Advance(p, history[0].operation, history[0].status);
      if next.None? then None else Walk(next.value, history[1..])
  }

  predicate Finished(p: Progress) {
    if p.creation == NoCreation then p.deletion == NoDeletion else p.deletion == DeletionConfirmed
  }

  // ---- The accepted histories ----

  datatype Mark = Mark(deletes: bool, status: Outcome)

  /** The create and delete entries, in order. */
  function Marks(history: seq<Entry>): seq<Mark> {
    if history == [] then []
    else
      var e := history[0];
      (if e.operation == CreateOp || e.operation == DeleteOp then [Mark(e.operation == DeleteOp, e.status)] else []) +
      Marks(history[1..])
  }

  /** What may be recorded beside them: a failed inspection, a session settled or unsure. */
  predicate Allowed(e: Entry) {
    || e.operation == CreateOp || e.operation == DeleteOp
    || (e.operation == InspectOp && e.status == Failed)
    || (e.operation == SettlementOp && (e.status == ClosedSession || e.status == Unsure))
  }

  /** Nothing at all, or: creation dispatched, then returned or unsure, then deletion dispatched, perhaps unsure,
      and confirmed. */
  predicate Retires(marks: seq<Mark>) {
    marks == [] ||
    (|marks| >= 4
     && marks[0] == Mark(false, Dispatched) && (marks[1] == Mark(false, Returned) || marks[1] == Mark(false, Unsure))
     && marks[2] == Mark(true, Dispatched)
     && (marks[3..] == [Mark(true, Confirmed)] || marks[3..] == [Mark(true, Unsure), Mark(true, Confirmed)]))
  }

  /** The marks that complete a context from where it stands. */
  predicate Completes(p: Progress, marks: seq<Mark>) {
    if p.deletion == DeletionConfirmed then p.creation != NoCreation && marks == []
    else if p.deletion == DeletionUncertain then p.creation != NoCreation && marks == [Mark(true, Confirmed)]
    else if p.deletion == DeletionDispatched then
      p.creation != NoCreation && (marks == [Mark(true, Confirmed)] || marks == [Mark(true, Unsure), Mark(true, Confirmed)])
    else if p.creation == CreationReturned || p.creation == CreationUncertain then
      |marks| >= 1 && marks[0] == Mark(true, Dispatched)
      && (marks[1..] == [Mark(true, Confirmed)] || marks[1..] == [Mark(true, Unsure), Mark(true, Confirmed)])
    else if p.creation == CreationDispatched then
      |marks| >= 2 && (marks[0] == Mark(false, Returned) || marks[0] == Mark(false, Unsure))
      && marks[1] == Mark(true, Dispatched)
      && (marks[2..] == [Mark(true, Confirmed)] || marks[2..] == [Mark(true, Unsure), Mark(true, Confirmed)])
    else Retires(marks)
  }

  predicate Reached(p: Progress) {
    p.deletion != NoDeletion ==> p.creation == CreationReturned || p.creation == CreationUncertain
  }

  /** Taking one mark moves to the marks that are left. */
  lemma MarkAdvances(p: Progress, m: Mark, rest: seq<Mark>)
    requires Reached(p)
    ensures var next := Advance(p, if m.deletes then DeleteOp else CreateOp, m.status);
            && (Completes(p, [m] + rest) <==> next.Some? && Completes(next.value, rest))
            && (next.Some? ==> Reached(next.value))
  {
    var all := [m] + rest;
    assert all[0] == m && all[1..] == rest;
    if |rest| >= 1 { assert all[2..] == rest[1..]; }
    if |rest| >= 2 { assert all[3..] == rest[2..]; }
    if all == [Mark(true, Unsure), Mark(true, Confirmed)] { assert rest == [Mark(true, Confirmed)]; }
    if rest == [Mark(true, Confirmed)] { assert all == [m, Mark(true, Confirmed)]; }
    if all == [Mark(true, Confirmed)] { assert rest == []; }
    if rest == [] { assert all == [m]; }
  }

  lemma {:induction false} WalkAccepts(p: Progress, history: seq<Entry>)
    requires Reached(p)
    ensures Walk(p, history).Some? && Finished(Walk(p, history).value) <==>
      (forall e :: e in history ==> Allowed(e)) && Completes(p, Marks(history))
    decreases |history|
  {
    if history != [] {
      var e, rest := history[0], history[1..];
      assert history == [e] + rest;
      assert (forall o :: o in history ==> Allowed(o)) <==> Allowed(e) && forall o :: o in rest ==> Allowed(o);
      var next := Advance(p, e.operation, e.status);
      if e.operation == CreateOp || e.operation == DeleteOp {
        MarkAdvances(p, Mark(e.operation == DeleteOp, e.status), Marks(rest));
      } else {
        assert Marks(history) == Marks(rest);
      }
      if next.Some? { WalkAccepts(next.value, rest); }
    }
  }

  // ---- The whole inventory ----

  predicate RowRetired(c: Context) {
    c.deleted && c.revoked && c.heldJob.None? && c.remoteIdDigest.None?
  }

  /** The verdict on one context: its row is deleted and revoked, holds no job and names nothing remote; and its history. */
  ghost predicate ContextRetired(c: Context, operations: seq<Entry>)
    requires Distinct(Map(SequenceOf, operations))
  {
    var history := HistoryOf(operations, c.id);
    && c.deleted && c.revoked && c.heldJob == None && c.remoteIdDigest == None
    && (forall e :: e in history ==> Allowed(e)) && Retires(Marks(history))
  }

  /** The verdict on the inventory: unique identities, no operation without its context, every context retired. */
  ghost predicate AllRetired(inventory: Inventory) {
    && Distinct(Map(ContextIdOf, inventory.contexts)) && Distinct(Map(SequenceOf, inventory.operations))
    && (forall e :: e in inventory.operations ==> exists c :: c in inventory.contexts && c.id == e.contextId)
    && forall c :: c in inventory.contexts ==> ContextRetired(c, inventory.operations)
  }

  /** The loop over one history. */
  method RunAutomaton(history: seq<Entry>) returns (accepted: bool)
    ensures accepted <==> (forall e :: e in history ==> Allowed(e)) && Retires(Marks(history))
  {
    WalkAccepts(UNTOUCHED, history);
    var creation, deletion := NoCreation, NoDeletion;
    for i := 0 to |history|
      invariant Walk(UNTOUCHED, history) == Walk(Progress(creation, deletion), history[i..])
    {
      var event := history[i];
      assert history[i..][1..] == history[i + 1..];
      if event.operation == CreateOp {
        if deletion != NoDeletion { return false; }
        if event.status == Dispatched && creation == NoCreation {
          creation := CreationDispatched;
        } else if event.status == Returned && creation == CreationDispatched {
          creation := CreationReturned;
        } else if event.status == Unsure && creation == CreationDispatched {
          creation := CreationUncertain;
        } else {
          return false;
        }
      } else if event.operation == DeleteOp {
        if event.status == Dispatched && deletion == NoDeletion && (creation == CreationReturned || creation == CreationUncertain) {
          deletion := DeletionDispatched;
        } else if event.status == Unsure && deletion == DeletionDispatched {
          deletion := DeletionUncertain;
        } else if event.status == Confirmed && (deletion == DeletionDispatched || deletion == DeletionUncertain) {
          deletion := DeletionConfirmed;
        } else {
          return false;
        }
      } else if event.operation == InspectOp {
        if event.status != Failed { return false; }
      } else if event.operation == SettlementOp {
        if event.status != ClosedSession && event.status != Unsure { return false; }
      } else {
        return false;
      }
    }
    assert history[|history|..] == [];
    accepted := if creation == NoCreation then deletion == NoDeletion else deletion == DeletionConfirmed;
  }

  method AdvancedContextsRetired(inventory: Inventory) returns (retired: bool)
    ensures retired <==> AllRetired(inventory)
  {
    DistinctBySize(Map(ContextIdOf, inventory.contexts));
    DistinctBySize(Map(SequenceOf, inventory.operations));
    if !Parses(inventory) { return false; }
    if exists e :: e in inventory.operations && !exists c :: c in inventory.contexts && c.id == e.contextId { return false; }
    retired := EveryContextRetired(inventory.contexts, inventory.operations);
  }

  method EveryContextRetired(contexts: seq<Context>, operations: seq<Entry>) returns (retired: bool)
    requires Distinct(Map(SequenceOf, operations))
    ensures retired <==> forall c :: c in contexts ==> ContextRetired(c, operations)
  {
    for i := 0 to |contexts|
      invariant forall c :: c in contexts[..i] ==> ContextRetired(c, operations)
    {
      var accepted := OneContextRetired(contexts[i], operations);
      if !accepted {
        assert contexts[i] in contexts;
        return false;
      }
      assert contexts[..i + 1] == contexts[..i] + [contexts[i]];
    }
    assert contexts[..|contexts|] == contexts;
    retired := true;
  }

  method OneContextRetired(c: Context, operations: seq<Entry>) returns (retired: bool)
    requires Distinct(Map(SequenceOf, operations))
    ensures retired <==> ContextRetired(c, operations)
  {
    if !RowRetired(c) { return false; }
    retired := RunAutomaton(HistoryOf(operations, c.id));
  }

  // ---- What the verdict does not depend on ----

  lemma {:induction false} SortedUnique(a: seq<Entry>, b: seq<Entry>)
    requires InOrder(a) && InOrder(b) && forall e :: e in a <==> e in b
    ensures a == b
  {
    assert b != [] ==> b[0] in b;
    if a != [] {
      assert a[0] in b;
      assert b[0] in a;
      assert a == [a[0]] + a[1..] && b == [b[0]] + b[1..];
      assert a[0] == b[0];
      forall e ensures e in a[1..] <==> e in b[1..] {
        if e in a[1..] { assert e in b && e != b[0]; }
        if e in b[1..] { assert e in a && e != a[0]; }
      }
      SortedUnique(a[1..], b[1..]);
    }
  }

  /** A context's history depends only on which entries of its own were recorded: not on the order of the array, nor on
      what was recorded for other contexts in between. */
  lemma HistoryIsItsOwn(some: seq<Entry>, others: seq<Entry>, id: Id)
    requires Distinct(Map(SequenceOf, some)) && Distinct(Map(SequenceOf, others))
    requires forall e: Entry :: e.contextId == id ==> (e in some <==> e in others)
    ensures HistoryOf(some, id) == HistoryOf(others, id)
  {
    SortedUnique(HistoryOf(some, id), HistoryOf(others, id));
  }

  lemma VerdictIgnoresOthers(c: Context, some: seq<Entry>, others: seq<Entry>)
    requires Distinct(Map(SequenceOf, some)) && Distinct(Map(SequenceOf, others))
    requires forall e: Entry :: e.contextId == c.id ==> (e in some <==> e in others)
    ensures ContextRetired(c, some) <==> ContextRetired(c, others)
  {
    HistoryIsItsOwn(some, others, c.id);
  }

  /** The verdict on the whole inventory is the same in whatever order its contexts and operations are listed. */
  lemma VerdictIgnoresOrder(a: Inventory, b: Inventory)
    requires multiset(a.contexts) == multiset(b.contexts) && multiset(a.operations) == multiset(b.operations)
    ensures AllRetired(a) <==> AllRetired(b)
  {
    if AllRetired(a) { ReorderedIsRetired(a, b); }
    if AllRetired(b) { ReorderedIsRetired(b, a); }
  }

  lemma ReorderedIsRetired(a: Inventory, b: Inventory)
    requires multiset(a.contexts) == multiset(b.contexts) && multiset(a.operations) == multiset(b.operations)
    requires AllRetired(a)
    ensures AllRetired(b)
  {
    KeysStayDistinct(ContextIdOf, a.contexts, b.contexts);
    KeysStayDistinct(SequenceOf, a.operations, b.operations);
    PermutedMembers(b.contexts, a.contexts);
    PermutedMembers(b.operations, a.operations);
    forall e | e in b.operations ensures exists c :: c in b.contexts && c.id == e.contextId {
      assert e in a.operations;
    }
    forall c | c in b.contexts ensures ContextRetired(c, b.operations) {
      VerdictIgnoresOthers(c, a.operations, b.operations);
    }
  }

  /** A retired context that was ever asked for was dispatched once, deleted once, and its deletion confirmed last. */
  lemma RetiredWasDeleted(c: Context, operations: seq<Entry>)
    requires Distinct(Map(SequenceOf, operations)) && ContextRetired(c, operations)
    requires exists e :: e in operations && e.contextId == c.id && e.operation == CreateOp
    ensures exists e :: e in operations && e.contextId == c.id && e.operation == DeleteOp && e.status == Confirmed
  {
    var history := HistoryOf(operations, c.id);
    var asked :| asked in operations && asked.contextId == c.id && asked.operation == CreateOp;
    MarksCover(history, asked);
    var marks := Marks(history);
    assert marks[|marks| - 1] == Mark(true, Confirmed);
    MarksStem(history, marks[|marks| - 1]);
  }

  lemma {:induction false} MarksCover(history: seq<Entry>, e: Entry)
    requires e in history && (e.operation == CreateOp || e.operation == DeleteOp)
    ensures Marks(history) != []
  {
    if history[0] != e { MarksCover(history[1..], e); }
  }

  lemma {:induction false} MarksStem(history: seq<Entry>, m: Mark)
    requires m in Marks(history)
    ensures exists e :: e in history && e.operation == (if m.deletes then DeleteOp else CreateOp) && e.status == m.status
  {
    var e := history[0];
    if (e.operation == CreateOp || e.operation == DeleteOp) && m == Mark(e.operation == DeleteOp, e.status) {
    } else {
      MarksStem(history[1..], m);
    }
  }
}
