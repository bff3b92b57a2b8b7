/** Amending the stored policy under signed receipts, all or nothing (scripts/managed-budget.ts). Receipts are typed values:
    the literal texts they must carry are left to the schema, and a digest of the history is the history. */
module BudgetAmendments {
  import opened RunLog
  import opened Totals

  const AMENDED_LIFETIME := 3600
  const DEMO_LIFETIME := 21600
  const AUTHORIZED_CEILING := 360000

  datatype Policy = Policy(
    globalConcurrency: int, ownerConcurrency: int, developmentBudgetSeconds: int, ownerBudgetSeconds: int,
    baselineSeconds: int, sessionSeconds: int, maxSteps: int, maxModelCalls: int, leaseMs: int, recoveryLimit: int,
    lifetimeReservationLimitSeconds: int)

  predicate PolicyParses(p: Policy) {
    && 1 <= p.globalConcurrency <= 12 && 1 <= p.ownerConcurrency <= 12
    && 363 <= p.developmentBudgetSeconds <= 324000 && 1 <= p.ownerBudgetSeconds <= 324000
    && 363 <= p.baselineSeconds <= 324000 && 60 <= p.sessionSeconds <= 300
    && 1 <= p.maxSteps <= 30 && 1 <= p.maxModelCalls <= 30
    && 5000 <= p.leaseMs <= 120000 && 1 <= p.recoveryLimit <= 10
    && 60 <= p.lifetimeReservationLimitSeconds <= 324000
  }

  // ---- Everything but the policy and the receipts ----

  datatype ManagedAttempt = ManagedAttempt(reservedSeconds: int, settled: bool, closed: bool)

  datatype History = History(usageReservations: seq<int>, attempts: seq<ManagedAttempt>, jobsPending: bool, rest: string)

  function Itself(n: int): int { n }

  function ReservedOf(a: ManagedAttempt): int { a.reservedSeconds }

  function Reserved(h: History): int {
    Sum(Itself, h.usageReservations) + Sum(ReservedOf, h.attempts)
  }

  // ---- Receipts ----

  datatype Receipt = Receipt(
    previousPolicy: Policy, amendedPolicy: Policy, reservedAtAmendment: int, unchangedHistory: History, projectConcurrency: int)

  predicate BudgetParses(r: Receipt) {
    && PolicyParses(r.previousPolicy) && PolicyParses(r.amendedPolicy)
    && r.reservedAtAmendment == 1800
    && r.previousPolicy.lifetimeReservationLimitSeconds == 1800
    && r.amendedPolicy.lifetimeReservationLimitSeconds == AMENDED_LIFETIME
    && r.amendedPolicy.globalConcurrency == 1 && r.amendedPolicy.ownerConcurrency == 1
    && r.amendedPolicy.sessionSeconds == 300
    && r.amendedPolicy == r.previousPolicy.(lifetimeReservationLimitSeconds := AMENDED_LIFETIME)
  }

  /** The demonstration's policy: five at a time, short sessions, a bounded budget above the baseline. */
  function DemoPolicy(p: Policy, sessionSeconds: int): Policy {
    p.(globalConcurrency := 5, ownerConcurrency := 5, sessionSeconds := sessionSeconds,
       lifetimeReservationLimitSeconds := DEMO_LIFETIME, ownerBudgetSeconds := DEMO_LIFETIME,
       developmentBudgetSeconds := p.baselineSeconds + DEMO_LIFETIME)
  }

  predicate DemoParses(r: Receipt) {
    && PolicyParses(r.previousPolicy) && PolicyParses(r.amendedPolicy)
    && 1800 <= r.reservedAtAmendment <= DEMO_LIFETIME && r.projectConcurrency >= 5
    && (r.amendedPolicy.sessionSeconds == 60 || r.amendedPolicy.sessionSeconds == 90)
    && r.amendedPolicy.lifetimeReservationLimitSeconds >= r.previousPolicy.lifetimeReservationLimitSeconds
    && r.amendedPolicy.developmentBudgetSeconds <= AUTHORIZED_CEILING
    && r.amendedPolicy == DemoPolicy(r.previousPolicy, r.amendedPolicy.sessionSeconds)
  }

  // ---- The database and its reader ----

  datatype DemoRow = DemoRow(sequence: int, receipt: Receipt)

  /** A table that does not exist is `None`. */
  datatype Database = Database(
    policy: Policy, budgetTable: Option<seq<Receipt>>, demoTable: Option<seq<DemoRow>>, history: History)

  datatype Rejection =
    | SchemaRejected | ChainRejected | AmendmentRejected | PolicyMismatch
    | AlreadyAmended | BindingMismatch | HistoryChanged

  datatype Chain = Chain(budget: Option<Receipt>, demos: seq<Receipt>, policy: Option<Policy>)

  function Receipts(rows: seq<DemoRow>): (r: seq<Receipt>)
    ensures |r| == |rows| && forall i :: 0 <= i < |rows| ==> r[i] == rows[i].receipt
  {
    seq(|rows|, i requires 0 <= i < |rows| => rows[i].receipt)
  }

  function LastPolicy(receipts: seq<Receipt>, start: Policy): Policy {
    if receipts == [] then start else receipts[|receipts| - 1].amendedPolicy
  }

  predicate FollowsAt(receipts: seq<Receipt>, i: nat, start: Policy)
    requires i < |receipts|
  {
    receipts[i].previousPolicy == LastPolicy(receipts[..i], start)
  }

  /** Every receipt starts from the policy the one before it left. */
  predicate Follows(receipts: seq<Receipt>, start: Policy) {
    forall i :: 0 <= i < |receipts| ==> FollowsAt(receipts, i, start)
  }

  predicate Numbered(rows: seq<DemoRow>, i: nat)
    requires i < |rows|
  {
    rows[i].sequence == i + 1
  }

  /** The first row that is misnumbered or does not parse decides the error. */
  function RowsFault(rows: seq<DemoRow>, n: nat): Option<Rejection>
    requires n <= |rows|
  {
    if n == 0 then None
    else if RowsFault(rows, n - 1).Some? then RowsFault(rows, n - 1)
    else if !Numbered(rows, n - 1) then Some(ChainRejected)
    else if !DemoParses(rows[n - 1].receipt) then Some(SchemaRejected)
    else None
  }

  function DemoRows(db: Database): seq<DemoRow> {
    if db.demoTable.Some? then db.demoTable.value else []
  }

  ghost function Read(db: Database): Result<Chain, Rejection> {
    if db.budgetTable.None? then
      if db.demoTable.Some? then Err(ChainRejected) else Ok(Chain(None, [], None))
    else if |db.budgetTable.value| != 1 then Err(AmendmentRejected)
    else
      var receipt := db.budgetTable.value[0];
      var rows := DemoRows(db);
      if !BudgetParses(receipt) then Err(SchemaRejected)
      else if RowsFault(rows, |rows|).Some? then Err(RowsFault(rows, |rows|).value)
      else if !Follows(Receipts(rows), receipt.amendedPolicy) then Err(ChainRejected)
      else if db.policy != LastPolicy(Receipts(rows), receipt.amendedPolicy) then Err(PolicyMismatch)
      else Ok(Chain(Some(receipt), Receipts(rows), Some(db.policy)))
  }

  /** The receipt describes the database it is applied to, and nothing is under way. */
  predicate Binds(db: Database, r: Receipt) {
    && db.policy == r.previousPolicy && Reserved(db.history) == r.reservedAtAmendment && db.history == r.unchangedHistory
    && !db.history.jobsPending
    && forall a :: a in db.history.attempts ==> a.settled && a.closed
  }

  ghost function BudgetVerdict(db: Database, r: Receipt): Option<Rejection> {
    if !BudgetParses(r) then Some(SchemaRejected)
    else if Read(db).Err? then Some(Read(db).error)
    else if Read(db).value.budget.Some? then Some(AlreadyAmended)
    else if !Binds(db, r) then Some(BindingMismatch)
    else None
  }

  ghost function AmendBudget(db: Database, r: Receipt): Database {
    if BudgetVerdict(db, r).Some? then db else db.(budgetTable := Some([r]), policy := r.amendedPolicy)
  }

  ghost function DemoVerdict(db: Database, r: Receipt): Option<Rejection> {
    if !DemoParses(r) then Some(SchemaRejected)
    else if Read(db).Err? then Some(Read(db).error)
    else if Read(db).value.budget.None? || Read(db).value.policy != Some(r.previousPolicy) then Some(ChainRejected)
    else if !Binds(db, r) then Some(BindingMismatch)
    else None
  }

  ghost function AmendDemo(db: Database, r: Receipt): Database {
    if DemoVerdict(db, r).Some? then db
    else db.(demoTable := Some(DemoRows(db) + [DemoRow(|DemoRows(db)| + 1, r)]), policy := r.amendedPolicy)
  }

  lemma {:induction false} FaultStays(rows: seq<DemoRow>, i: nat, n: nat)
    requires i <= n <= |rows| && RowsFault(rows, i).Some?
    ensures RowsFault(rows, n) == RowsFault(rows, i)
  {
    if i < n { FaultStays(rows, i, n - 1); }
  }

  /** The policy a demonstration receipt must start from: what the one before it made, or the budget amendment. */
  function PolicyBefore(rows: seq<DemoRow>, i: nat, start: Policy): Policy
    requires i <= |rows|
  {
    if i == 0 then start else rows[i - 1].receipt.amendedPolicy
  }

  /** A row in its place: numbered by its position, and well-formed. */
  predicate Sits(rows: seq<DemoRow>, i: nat)
    requires i < |rows|
  {
    rows[i].sequence == i + 1 && DemoParses(rows[i].receipt)
  }

  predicate StartsWhereLeft(rows: seq<DemoRow>, i: nat, start: Policy)
    requires i < |rows|
  {
    rows[i].receipt.previousPolicy == PolicyBefore(rows, i, start)
  }

  /** A chain of amendments: none at all; or one well-formed budget amendment, then well-formed demonstrations numbered
      from one, each starting from the policy left before it, and the last policy is the stored one. */
  predicate IsChain(db: Database) {
    if db.budgetTable.None? then db.demoTable.None?
    else
      && |db.budgetTable.value| == 1 && BudgetParses(db.budgetTable.value[0])
      && var rows, start := DemoRows(db), db.budgetTable.value[0].amendedPolicy;
      && (forall i :: 0 <= i < |rows| ==> Sits(rows, i) && StartsWhereLeft(rows, i, start))
      && db.policy == PolicyBefore(rows, |rows|, start)
  }

  lemma {:induction false} FaultlessRows(rows: seq<DemoRow>, n: nat)
    requires n <= |rows|
    ensures RowsFault(rows, n).None? <==> forall i :: 0 <= i < n ==> Sits(rows, i)
  {
    if n > 0 {
      FaultlessRows(rows, n - 1);
      assert RowsFault(rows, n).None? <==> RowsFault(rows, n - 1).None? && Sits(rows, n - 1);
    }
  }

  lemma FollowsFrom(rows: seq<DemoRow>, start: Policy)
    ensures Follows(Receipts(rows), start) <==> forall i :: 0 <= i < |rows| ==> StartsWhereLeft(rows, i, start)
  {
    var receipts := Receipts(rows);
    forall i | 0 <= i < |rows| ensures FollowsAt(receipts, i, start) <==> StartsWhereLeft(rows, i, start) {
      if i > 0 { assert receipts[..i][i - 1] == rows[i - 1].receipt; }
    }
    if Follows(receipts, start) {
      forall i | 0 <= i < |rows| ensures StartsWhereLeft(rows, i, start) { assert FollowsAt(receipts, i, start); }
    }
    if forall i :: 0 <= i < |rows| ==> StartsWhereLeft(rows, i, start) {
      forall i | 0 <= i < |receipts| ensures FollowsAt(receipts, i, start) { assert StartsWhereLeft(rows, i, start); }
    }
  }

  lemma RowsChain(rows: seq<DemoRow>, start: Policy)
    ensures RowsFault(rows, |rows|).None? && Follows(Receipts(rows), start) <==>
      forall i :: 0 <= i < |rows| ==> Sits(rows, i) && StartsWhereLeft(rows, i, start)
    ensures LastPolicy(Receipts(rows), start) == PolicyBefore(rows, |rows|, start)
  {
    FaultlessRows(rows, |rows|);
    FollowsFrom(rows, start);
  }

  /** The reader accepts exactly the chains, and answers with their receipts and the stored policy. */
  lemma ReadsChains(db: Database)
    ensures Read(db).Ok? <==> IsChain(db)
    ensures Read(db).Ok? ==>
      Read(db).value == if db.budgetTable.None? then Chain(None, [], None)
                        else Chain(Some(db.budgetTable.value[0]), Receipts(DemoRows(db)), Some(db.policy))
  {
    if db.budgetTable.Some? && |db.budgetTable.value| == 1 {
      RowsChain(DemoRows(db), db.budgetTable.value[0].amendedPolicy);
    }
  }

  /** The first row out of its number or not well-formed decides how the reader fails. */
  lemma {:induction false} FirstFault(rows: seq<DemoRow>, n: nat, i: nat)
    requires i < n <= |rows| && forall j :: 0 <= j < i ==> Sits(rows, j)
    ensures rows[i].sequence != i + 1 ==> RowsFault(rows, n) == Some(ChainRejected)
    ensures rows[i].sequence == i + 1 && !DemoParses(rows[i].receipt) ==> RowsFault(rows, n) == Some(SchemaRejected)
  {
    FaultlessRows(rows, i);
    if RowsFault(rows, i + 1).Some? { FaultStays(rows, i + 1, n); }
  }

  // ---- Every run of amendments ----

  /** An operator tries an amendment, or the rest of the system works on; reservations are never taken back. */
  datatype Step = TryBudget(receipt: Receipt) | TryDemo(receipt: Receipt) | Work(history: History)

  ghost predicate Can(db: Database, step: Step) {
    step.Work? ==> Reserved(step.history) >= Reserved(db.history)
  }

  ghost function Do(db: Database, step: Step): Database {
    match step
    case TryBudget(receipt) => AmendBudget(db, receipt)
    case TryDemo(receipt) => AmendDemo(db, receipt)
    case Work(history) => db.(history := history)
  }

  /** What an accepted chain makes of the policy it started from: only the last demonstration counts. */
  function Amended(original: Policy, budget: Option<Receipt>, demos: seq<Receipt>): Policy {
    if budget.None? then original
    else if demos == [] then original.(lifetimeReservationLimitSeconds := AMENDED_LIFETIME)
    else DemoPolicy(original, demos[|demos| - 1].amendedPolicy.sessionSeconds)
  }

  ghost predicate ReservedBefore(chain: Chain, reserved: int) {
    && (chain.budget.Some? ==> chain.budget.value.reservedAtAmendment <= reserved)
    && forall i :: 0 <= i < |chain.demos| ==> chain.demos[i].reservedAtAmendment <= reserved
  }

  /** The chain reads back, describes the stored policy, and no receipt claims more than is reserved now. */
  ghost predicate Sound(db: Database, original: Policy) {
    && Read(db).Ok?
    && db.policy == Amended(original, Read(db).value.budget, Read(db).value.demos)
    && ReservedBefore(Read(db).value, Reserved(db.history))
  }

  lemma NoDemosYet(db: Database)
    requires Read(db).Ok? && Read(db).value.budget.None?
    ensures db.budgetTable.None? && db.demoTable.None?
  {
  }

  lemma BudgetAddsToChain(db: Database, r: Receipt)
    requires BudgetVerdict(db, r).None?
    ensures Read(AmendBudget(db, r)) == Ok(Chain(Some(r), [], Some(r.amendedPolicy)))
  {
    NoDemosYet(db);
    assert Receipts([]) == [];
  }

  lemma DemoAddsToChain(db: Database, r: Receipt)
    requires DemoVerdict(db, r).None?
    ensures Read(AmendDemo(db, r)) == Ok(Read(db).value.(demos := Read(db).value.demos + [r], policy := Some(r.amendedPolicy)))
  {
    var rows := DemoRows(db);
    var more := rows + [DemoRow(|rows| + 1, r)];
    FaultOfPrefix(rows, more, |rows|);
    assert RowsFault(more, |more|).None?;
    assert Receipts(more) == Receipts(rows) + [r];
    FollowsOn(Receipts(rows), r, db.budgetTable.value[0].amendedPolicy);
  }

  lemma FollowsOn(receipts: seq<Receipt>, r: Receipt, start: Policy)
    requires Follows(receipts, start) && r.previousPolicy == LastPolicy(receipts, start)
    ensures Follows(receipts + [r], start) && LastPolicy(receipts + [r], start) == r.amendedPolicy
  {
    var more := receipts + [r];
    forall i | 0 <= i < |more| ensures FollowsAt(more, i, start) {
      assert more[..i] == receipts[..i];
      if i < |receipts| { assert FollowsAt(receipts, i, start); } else { assert receipts[..i] == receipts; }
    }
  }

  lemma {:induction false} FaultOfPrefix(rows: seq<DemoRow>, more: seq<DemoRow>, n: nat)
    requires n <= |rows| && rows <= more
    ensures RowsFault(more, n) == RowsFault(rows, n)
  {
    if n > 0 { FaultOfPrefix(rows, more, n - 1); }
  }

  /** Lifetime never falls, the baseline never moves, receipts are only added, and no amendment touches the history. */
  ghost predicate Advances(before: Database, after: Database) {
    && before.policy.lifetimeReservationLimitSeconds <= after.policy.lifetimeReservationLimitSeconds
    && before.policy.baselineSeconds == after.policy.baselineSeconds
    && Read(before).Ok? && Read(after).Ok?
    && (Read(before).value.budget.Some? ==> Read(after).value.budget == Read(before).value.budget)
    && Read(before).value.demos <= Read(after).value.demos
    && Reserved(before.history) <= Reserved(after.history)
  }

  lemma StepIsSound(db: Database, original: Policy, step: Step)
    requires Sound(db, original) && Can(db, step)
    ensures Sound(Do(db, step), original) && Advances(db, Do(db, step))
    ensures !step.Work? ==> Do(db, step).history == db.history
  {
    match step
    case TryBudget(r) => if BudgetVerdict(db, r).None? { BudgetAddsToChain(db, r); }
    case TryDemo(r) => if DemoVerdict(db, r).None? { DemoAddsToChain(db, r); }
    case Work(_) =>
  }

  ghost predicate CanAll(db: Database, steps: seq<Step>)
    decreases |steps|
  {
    steps == [] || (Can(db, steps[0]) && CanAll(Do(db, steps[0]), steps[1..]))
  }

  ghost function DoAll(db: Database, steps: seq<Step>): Database
    decreases |steps|
  {
    if steps == [] then db else DoAll(Do(db, steps[0]), steps[1..])
  }

  /** After any sequence of accepted and rejected amendments and other work the chain reads back, and the stored policy
      is what the accepted receipts make of the original one. */
  lemma {:induction false} ChainAlwaysReadsBack(db: Database, original: Policy, steps: seq<Step>)
    requires Sound(db, original) && CanAll(db, steps)
    ensures Sound(DoAll(db, steps), original) && Advances(db, DoAll(db, steps))
    decreases |steps|
  {
    if steps != [] {
      StepIsSound(db, original, steps[0]);
      ChainAlwaysReadsBack(Do(db, steps[0]), original, steps[1..]);
    }
  }

  /** So from a database that no amendment has touched, whatever was reserved before. */
  lemma ChainFromTheStart(policy: Policy, history: History, steps: seq<Step>)
    requires CanAll(Database(policy, None, None, history), steps)
    ensures Sound(DoAll(Database(policy, None, None, history), steps), policy)
  {
    ChainAlwaysReadsBack(Database(policy, None, None, history), policy, steps);
  }

  /** Nothing is queued or leased, and every attempt is settled and closed. */
  predicate Idle(h: History) {
    h.jobsPending == false && forall i :: 0 <= i < |h.attempts| ==> h.attempts[i].settled && h.attempts[i].closed
  }

  /** The limits that no amendment touches, or only to lower them. */
  predicate Ordinary(p: Policy) {
    && 363 <= p.baselineSeconds <= 324000 && 363 <= p.developmentBudgetSeconds <= 324000
    && 1 <= p.ownerBudgetSeconds <= 324000 && 1 <= p.maxSteps <= 30 && 1 <= p.maxModelCalls <= 30
    && 5000 <= p.leaseMs <= 120000 && 1 <= p.recoveryLimit <= 10
  }

  /** A budget amendment is accepted exactly once, at rest, with half an hour reserved: it doubles the lifetime of the policy
      in force, which ran one session of five minutes at a time, and changes nothing else. */
  lemma BudgetAmendmentIs(db: Database, r: Receipt)
    ensures BudgetVerdict(db, r).None? <==>
      && Ordinary(r.previousPolicy)
      && db.budgetTable.None? && db.demoTable.None? && Idle(db.history)
      && db.policy == r.previousPolicy && db.history == r.unchangedHistory && Reserved(db.history) == r.reservedAtAmendment == 1800
      && r.previousPolicy.globalConcurrency == 1 && r.previousPolicy.ownerConcurrency == 1
      && r.previousPolicy.sessionSeconds == 300 && r.previousPolicy.lifetimeReservationLimitSeconds == 1800
      && r.amendedPolicy == r.previousPolicy.(lifetimeReservationLimitSeconds := 3600)
    ensures BudgetVerdict(db, r).None? ==>
      AmendBudget(db, r) == db.(policy := r.amendedPolicy, budgetTable := Some([r]))
  {
    IdleIs(db.history);
    if Read(db).Ok? && Read(db).value.budget.None? { NoDemosYet(db); }
  }

  lemma IdleIs(h: History)
    ensures Idle(h) <==> !h.jobsPending && forall a :: a in h.attempts ==> a.settled && a.closed
  {
  }

  /** A demonstration amendment is accepted exactly on a chain that reads back, at rest, with all that is reserved stated: it
      lets five sessions of 60 or 90 seconds run at a time, for six hours in all, spent by one owner or many, on top of a
      baseline of at most 84 hours. The approved ceiling of 100 hours is never reached. */
  lemma DemoAmendmentIs(db: Database, r: Receipt)
    ensures DemoVerdict(db, r).None? <==>
      && Ordinary(r.previousPolicy) && r.previousPolicy.baselineSeconds <= 302400
      && 1 <= r.previousPolicy.globalConcurrency <= 12 && 1 <= r.previousPolicy.ownerConcurrency <= 12
      && 60 <= r.previousPolicy.sessionSeconds <= 300 && 60 <= r.previousPolicy.lifetimeReservationLimitSeconds
      && Read(db).Ok? && Read(db).value.budget.Some? && Idle(db.history)
      && db.policy == r.previousPolicy && db.history == r.unchangedHistory
      && 1800 <= Reserved(db.history) == r.reservedAtAmendment <= 21600 && r.projectConcurrency >= 5
      && (r.amendedPolicy.sessionSeconds == 60 || r.amendedPolicy.sessionSeconds == 90)
      && r.previousPolicy.lifetimeReservationLimitSeconds <= 21600
      && r.amendedPolicy == r.previousPolicy.(
           globalConcurrency := 5, ownerConcurrency := 5, sessionSeconds := r.amendedPolicy.sessionSeconds,
           lifetimeReservationLimitSeconds := 21600, ownerBudgetSeconds := 21600,
           developmentBudgetSeconds := r.previousPolicy.baselineSeconds + 21600)
    ensures DemoVerdict(db, r).None? ==>
      AmendDemo(db, r) == db.(policy := r.amendedPolicy, demoTable := Some(DemoRows(db) + [DemoRow(|DemoRows(db)| + 1, r)]))
  {
    IdleIs(db.history);
  }

  /** A budget receipt is good once; a demonstration receipt is good again, while nothing else changed, exactly when it
      leaves the policy as it was. */
  lemma ReplayedReceipts(db: Database, original: Policy, r: Receipt)
    requires Sound(db, original)
    ensures BudgetVerdict(db, r).None? ==> BudgetVerdict(AmendBudget(db, r), r) == Some(AlreadyAmended)
    ensures DemoVerdict(db, r).None? ==>
      (DemoVerdict(AmendDemo(db, r), r).None? <==> r.amendedPolicy == r.previousPolicy)
  {
    if BudgetVerdict(db, r).None? { BudgetAddsToChain(db, r); }
    if DemoVerdict(db, r).None? { DemoAddsToChain(db, r); }
  }
}
