/** Reading the managed ledger, and comparing two readings (scripts/managed-proof.ts). Digests are compared as the
    values they digest. */
module ManagedLedger {
  import opened RunLog
  import opened Correspondence
  import opened Totals

  datatype AttemptState = QueuedAttempt | Reserved | DispatchedAttempt | Quarantined | SettledAttempt

  datatype AttemptStatus = AttemptQueued | AttemptRunning | AttemptCompleted | AttemptFailed | AttemptCancelled | CleanupRequired

  datatype Cleanup = NotStarted | ClosedCleanup | Unconfirmed

  datatype RunRow = RunRow(id: Id, rest: string)

  datatype AttemptRow = AttemptRow(
    id: Id, runId: Id, correlationToken: Id, state: AttemptState, status: AttemptStatus, cleanup: Cleanup,
    reservedSeconds: int, consumedSeconds: int, releasedSeconds: int, actualBrowserSeconds: Option<real>,
    dispatchStarted: bool, providerRunId: Option<Id>, providerSessionId: Option<Id>, providerAgentId: Option<Id>,
    providerTask: Option<string>, leaseOwner: Option<string>, leaseExpiresAt: Option<int>, rest: string)

  datatype ProgressRow = ProgressRow(attemptId: Id, sequence: int, eventHash: string, rest: string)

  datatype NativeLaunch = NativeLaunch(
    correlationToken: Id, sessionId: Option<Id>, consumedSeconds: int, actualBrowserSeconds: Option<real>)

  datatype Policy = Policy(
    lifetimeReservationLimitSeconds: int, developmentBudgetSeconds: int, ownerBudgetSeconds: int, baselineSeconds: int, rest: string)

  /** The native part of the ledger, read and settled by its own reader. */
  datatype Native = Native(
    policy: Policy, launches: seq<NativeLaunch>, reservedSeconds: int, committedSeconds: int, settled: bool, rest: string)

  datatype Database = Database(
    native: Native, runs: seq<RunRow>, attempts: seq<AttemptRow>, progress: seq<ProgressRow>,
    budgetAmendment: Option<int>, demoAmendments: seq<int>)

  datatype Ledger = Ledger(
    contents: Database, reservedSeconds: int, consumedSeconds: int, committedSeconds: int,
    actualBrowserSeconds: real, unknownActualAttempts: nat)

  datatype ReadError = RelationshipMismatch | DuplicateAllocationIdentity | LifetimeAccountingMismatch

  function RunIdOf(r: RunRow): Id { r.id }

  function AttemptIdOf(a: AttemptRow): Id { a.id }

  /** What the tables themselves guarantee: keys are unique and seconds lie in the ranges the schema parses. */
  predicate Keys(db: Database) {
    && Distinct(Map(RunIdOf, db.runs)) && Distinct(Map(AttemptIdOf, db.attempts))
    && forall a :: a in db.attempts ==>
         0 <= a.reservedSeconds <= 300 && 0 <= a.consumedSeconds && 0 <= a.releasedSeconds &&
         (a.actualBrowserSeconds.Some? ==> a.actualBrowserSeconds.value >= 0.0)
  }

  // ---- The reader ----

  predicate HasRun(runs: seq<RunRow>, a: AttemptRow) {
    exists r :: r in runs && r.id == a.runId
  }

  predicate HasAttempt(attempts: seq<AttemptRow>, r: RunRow) {
    exists a :: a in attempts && a.runId == r.id
  }

  predicate Related(db: Database) {
    && (forall a {:trigger HasRun(db.runs, a)} :: a in db.attempts ==> HasRun(db.runs, a))
    && (forall r {:trigger HasAttempt(db.attempts, r)} :: r in db.runs ==> HasAttempt(db.attempts, r))
    && (forall p :: p in db.progress ==> exists a :: a in db.attempts && a.id == p.attemptId)
  }

  predicate NoRepeats(ids: seq<Id>) {
    |SetOf(ids)| == |ids|
  }

  function NativeTokenOf(l: NativeLaunch): Id { l.correlationToken }

  function NativeSessionOf(l: NativeLaunch): Option<Id> { l.sessionId }

  function TokenOf(a: AttemptRow): Id { a.correlationToken }

  function SessionOf(a: AttemptRow): Option<Id> { a.providerSessionId }

  function ProviderRunOf(a: AttemptRow): Option<Id> { a.providerRunId }

  predicate Identified(db: Database) {
    && NoRepeats(Map(NativeTokenOf, db.native.launches) + Map(TokenOf, db.attempts))
    && NoRepeats(Present(Map(NativeSessionOf, db.native.launches)) + Present(Map(SessionOf, db.attempts)))
    && NoRepeats(Present(Map(ProviderRunOf, db.attempts)))
  }

  function ReservedOf(a: AttemptRow): int { a.reservedSeconds }

  function ConsumedOf(a: AttemptRow): int { a.consumedSeconds }

  function CommittedOf(a: AttemptRow): int { Max(a.reservedSeconds - a.releasedSeconds, a.consumedSeconds) }

  function NativeConsumedOf(l: NativeLaunch): int { l.consumedSeconds }

  function NativeActualOf(l: NativeLaunch): Option<real> { l.actualBrowserSeconds }

  function ActualOf(a: AttemptRow): Option<real> { a.actualBrowserSeconds }

  function SumKnown(seconds: seq<Option<real>>): real {
    if seconds == [] then 0.0 else (if seconds[0].Some? then seconds[0].value else 0.0) + SumKnown(seconds[1..])
  }

  function Unknown(seconds: seq<Option<real>>): nat {
    if seconds == [] then 0 else (if seconds[0].None? then 1 else 0) + Unknown(seconds[1..])
  }

  function Ceiling(seconds: real): int {
    -((-seconds).Floor)
  }

  predicate AccountsFor(a: AttemptRow) {
    && a.releasedSeconds <= a.reservedSeconds
    && (a.actualBrowserSeconds.Some? ==> a.consumedSeconds >= Ceiling(a.actualBrowserSeconds.value))
    && (a.providerRunId.Some? || a.providerSessionId.Some? ==> a.dispatchStarted && a.reservedSeconds != 0)
    && (a.providerSessionId.Some? ==> a.providerRunId.Some?)
    && (a.state == SettledAttempt ==> a.releasedSeconds == Max(0, a.reservedSeconds - a.consumedSeconds))
  }

  function Totalled(db: Database): Ledger {
    Ledger(db,
      db.native.reservedSeconds + Sum(ReservedOf, db.attempts),
      Sum(NativeConsumedOf, db.native.launches) + Sum(ConsumedOf, db.attempts),
      db.native.committedSeconds + Sum(CommittedOf, db.attempts),
      SumKnown(Map(NativeActualOf, db.native.launches)) + SumKnown(Map(ActualOf, db.attempts)),
      Unknown(Map(NativeActualOf, db.native.launches)) + Unknown(Map(ActualOf, db.attempts)))
  }

  predicate Affordable(ledger: Ledger) {
    var db := ledger.contents;
    && ledger.reservedSeconds <= db.native.policy.lifetimeReservationLimitSeconds
    && (db.budgetAmendment.Some? ==> ledger.reservedSeconds >= db.budgetAmendment.value)
    && (forall reserved :: reserved in db.demoAmendments ==> ledger.reservedSeconds >= reserved)
    && forall a :: a in db.attempts ==> AccountsFor(a)
  }

  function ReadLedger(db: Database): Result<Ledger, ReadError> {
    if !Related(db) then Err(RelationshipMismatch)
    else if !Identified(db) then Err(DuplicateAllocationIdentity)
    else if !Affordable(Totalled(db)) then Err(LifetimeAccountingMismatch)
    else Ok(Totalled(db))
  }

  // ---- What a readable ledger is ----

  /** No two allocations, native or managed, share a token, a session or a provider run. */
  predicate Disjoint(db: Database) {
    && Distinct(Map(NativeTokenOf, db.native.launches)) && Distinct(Map(TokenOf, db.attempts))
    && (forall l, a :: l in db.native.launches && a in db.attempts ==> l.correlationToken != a.correlationToken)
    && ValuesDiffer(Map(NativeSessionOf, db.native.launches)) && ValuesDiffer(Map(SessionOf, db.attempts))
    && (forall l, a :: l in db.native.launches && a in db.attempts && l.sessionId.Some? ==> l.sessionId != a.providerSessionId)
    && ValuesDiffer(Map(ProviderRunOf, db.attempts))
  }

  lemma {:induction false} MapHas<T, U>(f: T -> U, s: seq<T>)
    ensures forall x :: x in s ==> f(x) in Map(f, s)
    ensures forall y :: y in Map(f, s) ==> exists x :: x in s && f(x) == y
  {
    forall x | x in s ensures f(x) in Map(f, s) {
      var i :| 0 <= i < |s| && s[i] == x;
      assert Map(f, s)[i] == f(x);
    }
    forall y | y in Map(f, s) ensures exists x :: x in s && f(x) == y {
      var i :| 0 <= i < |s| && Map(f, s)[i] == y;
      assert s[i] in s;
    }
  }

  lemma DisjointIs(db: Database)
    ensures Disjoint(db) <==>
      && Distinct(Map(NativeTokenOf, db.native.launches)) && Distinct(Map(TokenOf, db.attempts))
      && (forall x :: x in Map(NativeTokenOf, db.native.launches) ==> x !in Map(TokenOf, db.attempts))
      && ValuesDiffer(Map(NativeSessionOf, db.native.launches)) && ValuesDiffer(Map(SessionOf, db.attempts))
      && (forall x :: Some(x) in Map(NativeSessionOf, db.native.launches) ==> Some(x) !in Map(SessionOf, db.attempts))
      && ValuesDiffer(Map(ProviderRunOf, db.attempts))
  {
    TokensApart(db.native.launches, db.attempts);
    SessionsApart(db.native.launches, db.attempts);
  }

  lemma TokensApart(launches: seq<NativeLaunch>, attempts: seq<AttemptRow>)
    ensures (forall x :: x in Map(NativeTokenOf, launches) ==> x !in Map(TokenOf, attempts)) <==>
      forall l, a :: l in launches && a in attempts ==> l.correlationToken != a.correlationToken
  {
    MapHas(NativeTokenOf, launches);
    MapHas(TokenOf, attempts);
  }

  lemma SessionsApart(launches: seq<NativeLaunch>, attempts: seq<AttemptRow>)
    ensures (forall x :: Some(x) in Map(NativeSessionOf, launches) ==> Some(x) !in Map(SessionOf, attempts)) <==>
      forall l, a :: l in launches && a in attempts && l.sessionId.Some? ==> l.sessionId != a.providerSessionId
  {
    MapHas(NativeSessionOf, launches);
    MapHas(SessionOf, attempts);
  }

  lemma AllocationsAreDistinct(db: Database)
    ensures Identified(db) <==> Disjoint(db)
  {
    DisjointIs(db);
    var nativeTokens, tokens := Map(NativeTokenOf, db.native.launches), Map(TokenOf, db.attempts);
    var nativeSessions, sessions := Map(NativeSessionOf, db.native.launches), Map(SessionOf, db.attempts);
    NoRepeatsIs(nativeTokens, tokens);
    NoRepeatsIs(Present(nativeSessions), Present(sessions));
    DistinctPresent(nativeSessions);
    DistinctPresent(sessions);
    forall x: Id
      ensures (x in Present(nativeSessions) <==> Some(x) in nativeSessions) && (x in Present(sessions) <==> Some(x) in sessions)
    {
      PresentHas(nativeSessions, x);
      PresentHas(sessions, x);
    }
    DistinctBySize(Present(Map(ProviderRunOf, db.attempts)));
    DistinctPresent(Map(ProviderRunOf, db.attempts));
  }

  lemma NoRepeatsIs(a: seq<Id>, b: seq<Id>)
    ensures NoRepeats(a + b) <==> Distinct(a) && Distinct(b) && forall x :: x in a ==> x !in b
  {
    DistinctBySize(a + b);
    DistinctAppend(a, b);
  }

  /** An attempt's seconds: nothing is given back that was not reserved, the known use is charged, whoever was sent to the
      provider was dispatched and paid for, and settling gives back exactly what was not consumed. */
  predicate Charged(a: AttemptRow) {
    && a.releasedSeconds <= a.reservedSeconds
    && (a.actualBrowserSeconds.Some? ==> a.actualBrowserSeconds.value <= a.consumedSeconds as real)
    && (a.providerRunId.Some? || a.providerSessionId.Some? ==> a.dispatchStarted && a.reservedSeconds != 0)
    && (a.providerSessionId.Some? ==> a.providerRunId.Some?)
    && (a.state == SettledAttempt ==>
          a.releasedSeconds == if a.consumedSeconds <= a.reservedSeconds then a.reservedSeconds - a.consumedSeconds else 0)
  }

  lemma ChargedIs(a: AttemptRow)
    ensures AccountsFor(a) <==> Charged(a)
  {
    if a.actualBrowserSeconds.Some? {
      var seconds := a.actualBrowserSeconds.value;
      assert Ceiling(seconds) as real >= seconds > Ceiling(seconds) as real - 1.0;
    }
  }

  /** Everything that was reserved, in the native ledger and for the attempts. */
  function ReservedInAll(db: Database): int {
    db.native.reservedSeconds + Sum((a: AttemptRow) => a.reservedSeconds, db.attempts)
  }

  /** The runs are those of the attempts, and progress is of attempts. */
  predicate BelongTogether(db: Database) {
    && (set r | r in db.runs :: r.id) == (set a | a in db.attempts :: a.runId)
    && (set p | p in db.progress :: p.attemptId) <= (set a | a in db.attempts :: a.id)
  }

  /** A database is a readable ledger exactly when its rows belong together, no allocation is counted twice, the attempts'
      seconds are in order, and all that was reserved lies within the lifetime limit and no lower than any amendment
      found it. */
  predicate Readable(db: Database) {
    && BelongTogether(db) && Disjoint(db)
    && (forall a :: a in db.attempts ==> Charged(a))
    && ReservedInAll(db) <= db.native.policy.lifetimeReservationLimitSeconds
    && (db.budgetAmendment.Some? ==> db.budgetAmendment.value <= ReservedInAll(db))
    && forall reserved :: reserved in db.demoAmendments ==> reserved <= ReservedInAll(db)
  }

  lemma ReadableLedgerIs(db: Database)
    ensures ReadLedger(db).Ok? <==> Readable(db)
    ensures ReadLedger(db).Ok? ==>
      var ledger := ReadLedger(db).value;
      && ledger.contents == db && ledger.reservedSeconds == ReservedInAll(db)
      && ledger.consumedSeconds == Sum((l: NativeLaunch) => l.consumedSeconds, db.native.launches) +
                                   Sum((a: AttemptRow) => a.consumedSeconds, db.attempts)
      && ledger.committedSeconds == db.native.committedSeconds +
           Sum((a: AttemptRow) => if a.reservedSeconds - a.releasedSeconds < a.consumedSeconds then a.consumedSeconds
                                  else a.reservedSeconds - a.releasedSeconds, db.attempts)
      && ledger.actualBrowserSeconds == SumKnown(Map((l: NativeLaunch) => l.actualBrowserSeconds, db.native.launches)) +
                                        SumKnown(Map((a: AttemptRow) => a.actualBrowserSeconds, db.attempts))
      && ledger.unknownActualAttempts == Unknown(Map((l: NativeLaunch) => l.actualBrowserSeconds, db.native.launches)) +
                                         Unknown(Map((a: AttemptRow) => a.actualBrowserSeconds, db.attempts))
  {
    assert Map((l: NativeLaunch) => l.actualBrowserSeconds, db.native.launches) == Map(NativeActualOf, db.native.launches);
    assert Map((a: AttemptRow) => a.actualBrowserSeconds, db.attempts) == Map(ActualOf, db.attempts);
    RelatedIs(db);
    AllocationsAreDistinct(db);
    TotalsAre(db);
    forall a: AttemptRow ensures AccountsFor(a) <==> Charged(a) { ChargedIs(a); }
  }

  lemma RelatedIs(db: Database)
    ensures Related(db) <==> BelongTogether(db)
  {
    if Related(db) { RelatedBelong(db); }
    if BelongTogether(db) { BelongingRelates(db); }
  }

  lemma RelatedBelong(db: Database)
    requires Related(db)
    ensures BelongTogether(db)
  {
    var runs, owners := set r | r in db.runs :: r.id, set a | a in db.attempts :: a.runId;
    forall id | id in owners ensures id in runs {
      var a :| a in db.attempts && a.runId == id;
      assert HasRun(db.runs, a);
    }
    forall id | id in runs ensures id in owners {
      var r :| r in db.runs && r.id == id;
      assert HasAttempt(db.attempts, r);
    }
  }

  lemma BelongingRelates(db: Database)
    requires BelongTogether(db)
    ensures Related(db)
  {
    var runs, owners, known := set r | r in db.runs :: r.id, set a | a in db.attempts :: a.runId, set a | a in db.attempts :: a.id;
    forall a | a in db.attempts ensures HasRun(db.runs, a) { assert a.runId in owners; }
    forall r | r in db.runs ensures HasAttempt(db.attempts, r) { assert r.id in runs; }
    forall p | p in db.progress ensures exists a :: a in db.attempts && a.id == p.attemptId {
      assert p.attemptId in set p | p in db.progress :: p.attemptId;
      assert p.attemptId in known;
    }
  }

  lemma TotalsAre(db: Database)
    ensures Totalled(db).reservedSeconds == ReservedInAll(db)
    ensures Totalled(db).consumedSeconds ==
      Sum((l: NativeLaunch) => l.consumedSeconds, db.native.launches) + Sum((a: AttemptRow) => a.consumedSeconds, db.attempts)
    ensures Totalled(db).committedSeconds == db.native.committedSeconds +
      Sum((a: AttemptRow) => if a.reservedSeconds - a.releasedSeconds < a.consumedSeconds then a.consumedSeconds
                             else a.reservedSeconds - a.releasedSeconds, db.attempts)
  {
    SameAmounts(ReservedOf, (a: AttemptRow) => a.reservedSeconds, db.attempts);
    SameAmounts(ConsumedOf, (a: AttemptRow) => a.consumedSeconds, db.attempts);
    SameAmounts(NativeConsumedOf, (l: NativeLaunch) => l.consumedSeconds, db.native.launches);
    SameAmounts(CommittedOf, (a: AttemptRow) => if a.reservedSeconds - a.releasedSeconds < a.consumedSeconds
                                                then a.consumedSeconds else a.reservedSeconds - a.releasedSeconds, db.attempts);
  }

  /** The known seconds of a list, one by one, and how many are not known. */
  lemma {:induction false} KnownAndUnknown(seconds: seq<Option<real>>, more: Option<real>)
    ensures SumKnown(seconds + [more]) == SumKnown(seconds) + if more.Some? then more.value else 0.0
    ensures Unknown(seconds + [more]) == Unknown(seconds) + if more.Some? then 0 else 1
  {
    var all := seconds + [more];
    if seconds == [] {
      assert all[1..] == [];
    } else {
      assert all[1..] == seconds[1..] + [more];
      KnownAndUnknown(seconds[1..], more);
    }
  }

  /** What the attempts were charged covers what their browsers really ran; and whoever ran was paid for first. */
  lemma ChargesCoverUse(db: Database)
    requires Keys(db) && ReadLedger(db).Ok?
    ensures var ledger := ReadLedger(db).value;
            && ledger.actualBrowserSeconds - SumKnown(Map(NativeActualOf, db.native.launches)) <=
               (ledger.consumedSeconds - Sum(NativeConsumedOf, db.native.launches)) as real
            && ledger.committedSeconds - db.native.committedSeconds >=
               ledger.consumedSeconds - Sum(NativeConsumedOf, db.native.launches)
            && forall a :: a in db.attempts && a.providerSessionId.Some? ==>
                 a.providerRunId.Some? && a.dispatchStarted && a.reservedSeconds > 0
  {
    ChargesOf(db.attempts);
  }

  lemma {:induction false} ChargesOf(attempts: seq<AttemptRow>)
    requires forall a :: a in attempts ==> a.consumedSeconds >= 0 && AccountsFor(a)
    ensures SumKnown(Map(ActualOf, attempts)) <= Sum(ConsumedOf, attempts) as real
    ensures Sum(CommittedOf, attempts) >= Sum(ConsumedOf, attempts)
  {
    if attempts != [] {
      var a, rest := attempts[0], attempts[1..];
      assert a in attempts && forall x :: x in rest ==> x in attempts;
      ChargesOf(rest);
      assert Map(ActualOf, attempts)[1..] == Map(ActualOf, rest);
      if a.actualBrowserSeconds.Some? { assert Ceiling(a.actualBrowserSeconds.value) as real >= a.actualBrowserSeconds.value; }
    }
  }

  // ---- Settled ledgers ----

  predicate AttemptSettled(a: AttemptRow) {
    && a.state == SettledAttempt && a.cleanup == ClosedCleanup
    && (a.status == AttemptCompleted || a.status == AttemptFailed || a.status == AttemptCancelled)
    && a.leaseOwner.None? && a.leaseExpiresAt.None?
    && (if a.dispatchStarted then a.providerRunId.Some? && a.providerAgentId.Some? && a.providerTask.Some?
        else a.actualBrowserSeconds == Some(0.0) && a.consumedSeconds == 0)
  }

  predicate Settled(ledger: Ledger) {
    ledger.contents.native.settled && forall a :: a in ledger.contents.attempts ==> AttemptSettled(a)
  }

  /** In a settled ledger nothing is held back: what is committed is what was consumed, and an attempt that was never
      dispatched got everything back. */
  lemma SettledCommitsWhatWasConsumed(db: Database)
    requires Keys(db) && ReadLedger(db).Ok? && Settled(ReadLedger(db).value)
    ensures var ledger := ReadLedger(db).value;
            && ledger.committedSeconds - db.native.committedSeconds ==
               ledger.consumedSeconds - Sum(NativeConsumedOf, db.native.launches)
            && (forall a :: a in db.attempts && !a.dispatchStarted ==> a.releasedSeconds == a.reservedSeconds)
            && db.native.settled && forall a :: a in db.attempts ==> Over(a)
  {
    SettledSums(db.attempts);
  }

  /** Nothing of the attempt is under way: it ended, was cleaned up and is leased to no one; and it either went to the
      provider, by run, agent and task, or used nothing. */
  predicate Over(a: AttemptRow) {
    && a.state == SettledAttempt && a.cleanup == ClosedCleanup && a.leaseOwner == None && a.leaseExpiresAt == None
    && a.status != AttemptQueued && a.status != AttemptRunning && a.status != CleanupRequired
    && (a.dispatchStarted ==> a.providerRunId != None && a.providerAgentId != None && a.providerTask != None)
    && (!a.dispatchStarted ==> a.actualBrowserSeconds == Some(0.0) && a.consumedSeconds == 0)
  }

  lemma {:induction false} SettledSums(attempts: seq<AttemptRow>)
    requires forall a :: a in attempts ==> a.reservedSeconds >= 0 && AccountsFor(a) && AttemptSettled(a)
    ensures Sum(CommittedOf, attempts) == Sum(ConsumedOf, attempts)
    ensures forall a :: a in attempts && !a.dispatchStarted ==> a.releasedSeconds == a.reservedSeconds
  {
    if attempts != [] {
      SettledSums(attempts[1..]);
      assert attempts == [attempts[0]] + attempts[1..];
      var a := attempts[0];
      assert a.releasedSeconds == Max(0, a.reservedSeconds - a.consumedSeconds);
    }
  }

  // ---- One allocation ----

  datatype Report = Report(id: Id, attemptId: Id)

  datatype Plan = Plan(
    ledgerDigest: Database, reservedBefore: int, plannedReservations: int, policy: Policy)

  function Added(before: seq<AttemptRow>, after: seq<AttemptRow>): (r: seq<AttemptRow>)
    ensures forall a :: a in r <==> a in after && !exists prior :: prior in before && prior.id == a.id
  {
    if after == [] then []
    else
      assert after == [after[0]] + after[1..];
      (if exists prior :: prior in before && prior.id == after[0].id then [] else [after[0]]) + Added(before, after[1..])
  }

  function FindAttempt(attempts: seq<AttemptRow>, id: Id): (r: Option<AttemptRow>)
    ensures r.Some? ==> r.value in attempts && r.value.id == id
    ensures r.None? ==> forall a :: a in attempts ==> a.id != id
  {
    if attempts == [] then None
    else if attempts[0].id == id then Some(attempts[0]) else FindAttempt(attempts[1..], id)
  }

  function FindRun(runs: seq<RunRow>, id: Id): (r: Option<RunRow>)
    ensures r.Some? ==> r.value in runs && r.value.id == id
    ensures r.None? ==> forall a :: a in runs ==> a.id != id
  {
    if runs == [] then None
    else if runs[0].id == id then Some(runs[0]) else FindRun(runs[1..], id)
  }

  function ProgressWithout(progress: seq<ProgressRow>, attemptId: Id): (r: seq<ProgressRow>)
    ensures forall p :: p in r <==> p in progress && p.attemptId != attemptId
  {
    if progress == [] then []
    else
      assert progress == [progress[0]] + progress[1..];
      (if progress[0].attemptId != attemptId then [progress[0]] else []) + ProgressWithout(progress[1..], attemptId)
  }

  /** The other rows stay in their order, each as often as it was there. */
  lemma {:induction false} OthersStayInOrder(progress: seq<ProgressRow>, row: ProgressRow, attemptId: Id)
    ensures ProgressWithout(progress + [row], attemptId) ==
            ProgressWithout(progress, attemptId) + if row.attemptId == attemptId then [] else [row]
  {
    var all := progress + [row];
    if progress == [] {
      assert all[1..] == [];
    } else {
      assert all[0] == progress[0] && all[1..] == progress[1..] + [row];
      OthersStayInOrder(progress[1..], row, attemptId);
    }
  }

  /** The comparison: counts, one look-up per old row, and a sum. */
  predicate AllocationAccepted(before: Ledger, after: Ledger, plan: Plan, report: Report) {
    var b, a := before.contents, after.contents;
    var added := Added(b.attempts, a.attempts);
    && a.native == b.native && |added| == 1 && |a.runs| == |b.runs| + 1
    && added[0].runId == report.id && added[0].id == report.attemptId
    && added[0].providerRunId.Some? && added[0].providerSessionId.Some?
    && added[0].reservedSeconds == plan.plannedReservations
    && after.reservedSeconds == before.reservedSeconds + plan.plannedReservations
    && (forall prior :: prior in b.attempts ==> FindAttempt(a.attempts, prior.id) == Some(prior))
    && (forall prior :: prior in b.runs ==> FindRun(a.runs, prior.id) == Some(prior))
    && b.progress == ProgressWithout(a.progress, added[0].id)
  }

  /** The same rows and one more. */
  ghost predicate OneMore<T(!new)>(before: seq<T>, after: seq<T>, row: T) {
    row !in before && |after| == |before| + 1 && forall x :: x in after <==> x in before || x == row
  }

  /** The new ledger is the old one, one new run, one attempt of that run, and that attempt's progress. */
  ghost predicate OneAllocation(b: Database, a: Database, run: RunRow, attempt: AttemptRow) {
    && a.native == b.native
    && OneMore(b.runs, a.runs, run) && OneMore(b.attempts, a.attempts, attempt)
    && attempt.runId == run.id
    && b.progress == ProgressWithout(a.progress, attempt.id)
  }

  // ---- Rows with distinct keys ----

  lemma KeyDetermines<T, K>(key: T -> K, rows: seq<T>, x: T, y: T)
    requires Distinct(Map(key, rows)) && x in rows && y in rows && key(x) == key(y)
    ensures x == y
  {
    var keys := Map(key, rows);
    var i :| 0 <= i < |rows| && rows[i] == x;
    var j :| 0 <= j < |rows| && rows[j] == y;
    assert keys[i] == keys[j];
  }

  lemma KeysDiffer<T, K>(key: T -> K, rows: seq<T>, x: T, y: T)
    requires Distinct(Map(key, rows)) && x in rows && y in rows && x != y
    ensures key(x) != key(y)
  {
    var keys := Map(key, rows);
    var i :| 0 <= i < |rows| && rows[i] == x;
    var j :| 0 <= j < |rows| && rows[j] == y;
    assert i != j;
    assert keys[i] != keys[j];
  }

  lemma {:induction false} DistinctRows<T, K>(key: T -> K, rows: seq<T>, x: T)
    requires Distinct(Map(key, rows))
    ensures multiset(rows)[x] == if x in rows then 1 else 0
  {
    if rows != [] {
      var n := |rows| - 1;
      var keys := Map(key, rows);
      assert rows == rows[..n] + [rows[n]];
      assert Map(key, rows[..n]) == keys[..n];
      DistinctRows(key, rows[..n], x);
      forall i | 0 <= i < n ensures rows[i] != rows[n] {
        assert keys[i] != keys[n];
      }
    }
  }

  lemma {:induction false} AllTheSame<T>(s: seq<T>, x: T)
    requires forall y :: y in s ==> y == x
    ensures multiset(s)[x] == |s|
  {
    if s != [] {
      var rest := s[1..];
      assert s == [s[0]] + rest;
      assert forall y :: y in rest ==> y in s;
      assert s[0] in s;
      AllTheSame(rest, x);
    }
  }

  /** Tables with distinct keys are told apart by their rows. */
  lemma OneMoreCounts<T(!new), K>(key: T -> K, before: seq<T>, after: seq<T>, row: T)
    requires Distinct(Map(key, before)) && Distinct(Map(key, after))
    requires row !in before && forall x :: x in after <==> x in before || x == row
    ensures multiset(after) == multiset(before) + multiset{row} && OneMore(before, after, row)
  {
    forall x ensures multiset(after)[x] == (multiset(before) + multiset{row})[x] {
      DistinctRows(key, before, x);
      DistinctRows(key, after, x);
    }
    assert multiset(after) == multiset(before) + multiset{row};
    assert |multiset(after)| == |multiset(before)| + 1;
  }

  /** Keeping every row of a keyed table and having one more leaves exactly one new row. */
  lemma OneMoreRow<T(!new), K>(key: T -> K, before: seq<T>, after: seq<T>) returns (row: T)
    requires Distinct(Map(key, before)) && Distinct(Map(key, after))
    requires |after| == |before| + 1 && forall x :: x in before ==> x in after
    ensures OneMore(before, after, row)
  {
    forall x ensures multiset(before)[x] <= multiset(after)[x] {
      DistinctRows(key, before, x);
      DistinctRows(key, after, x);
    }
    var rest := multiset(after) - multiset(before);
    assert multiset(after) == multiset(before) + rest;
    assert |rest| == 1;
    row :| row in rest;
    assert rest == multiset{row} + (rest - multiset{row});
    DistinctRows(key, after, row);
    DistinctRows(key, before, row);
    forall x ensures x in after <==> x in before || x == row {
      assert x in multiset(after) <==> x in multiset(before) + multiset{row};
    }
  }

  lemma {:induction false} AddedIsPart(before: seq<AttemptRow>, after: seq<AttemptRow>, x: AttemptRow)
    ensures multiset(Added(before, after))[x] <= multiset(after)[x]
  {
    if after != [] {
      assert after == [after[0]] + after[1..];
      AddedIsPart(before, after[1..], x);
    }
  }

  // ---- The theorem ----

  /** What the comparison asks of the new attempt beyond being new. */
  predicate Planned(attempt: AttemptRow, plan: Plan, report: Report) {
    && attempt.id == report.attemptId && attempt.providerRunId.Some? && attempt.providerSessionId.Some?
    && attempt.reservedSeconds == plan.plannedReservations
  }

  lemma AcceptedAddsOne(b: Database, a: Database, plan: Plan, report: Report) returns (run: RunRow, attempt: AttemptRow)
    requires Keys(b) && Keys(a) && Related(b) && Related(a)
    requires AllocationAccepted(Totalled(b), Totalled(a), plan, report)
    ensures OneAllocation(b, a, run, attempt) && Planned(attempt, plan, report) && run.id == report.id
  {
    var added := Added(b.attempts, a.attempts);
    attempt := added[0];
    assert attempt in added;
    AttemptsGrowByOne(b.attempts, a.attempts);
    run := OneMoreRow(RunIdOf, b.runs, a.runs);
    NewRunHasTheAttempt(b, a, run, attempt);
  }

  lemma AttemptsGrowByOne(before: seq<AttemptRow>, after: seq<AttemptRow>)
    requires Distinct(Map(AttemptIdOf, before)) && Distinct(Map(AttemptIdOf, after))
    requires |Added(before, after)| == 1 && forall prior :: prior in before ==> FindAttempt(after, prior.id) == Some(prior)
    ensures OneMore(before, after, Added(before, after)[0])
  {
    FoundStay(before, after);
    AddedCovers(before, after, Added(before, after)[0]);
    OneMoreCounts(AttemptIdOf, before, after, Added(before, after)[0]);
  }

  lemma FoundStay(before: seq<AttemptRow>, after: seq<AttemptRow>)
    requires forall prior :: prior in before ==> FindAttempt(after, prior.id) == Some(prior)
    ensures forall prior :: prior in before ==> prior in after
  {
    forall prior | prior in before ensures prior in after {
      assert FindAttempt(after, prior.id) == Some(prior);
    }
  }

  lemma AddedCovers(before: seq<AttemptRow>, after: seq<AttemptRow>, attempt: AttemptRow)
    requires Distinct(Map(AttemptIdOf, after)) && Added(before, after) == [attempt]
    requires forall prior :: prior in before ==> prior in after
    ensures attempt !in before && forall x :: x in after <==> x in before || x == attempt
  {
    assert attempt in [attempt];
    forall x ensures x in after <==> x in before || x == attempt {
      if x in after && x !in before {
        NewIsAdded(before, after, x);
        assert x in [attempt];
      }
    }
  }

  lemma NewIsAdded(before: seq<AttemptRow>, after: seq<AttemptRow>, x: AttemptRow)
    requires Distinct(Map(AttemptIdOf, after)) && x in after && x !in before
    requires forall prior :: prior in before ==> prior in after
    ensures x in Added(before, after)
  {
    forall prior | prior in before ensures prior.id != x.id {
      KeysDiffer(AttemptIdOf, after, prior, x);
    }
  }

  /** Nobody checks that the new attempt belongs to the new run: it follows from the relationships of both ledgers. */
  lemma NewRunHasTheAttempt(b: Database, a: Database, run: RunRow, attempt: AttemptRow)
    requires Keys(a) && Related(b) && Related(a)
    requires OneMore(b.runs, a.runs, run) && OneMore(b.attempts, a.attempts, attempt)
    ensures attempt.runId == run.id
  {
    assert run in a.runs && HasAttempt(a.attempts, run);
    var owner :| owner in a.attempts && owner.runId == run.id;
    if owner in b.attempts {
      assert HasRun(b.runs, owner);
      var known :| known in b.runs && known.id == owner.runId;
      KeyDetermines(RunIdOf, a.runs, known, run);
    }
  }

  lemma OneAllocationIsAccepted(b: Database, a: Database, plan: Plan, report: Report, run: RunRow, attempt: AttemptRow)
    requires Keys(b) && Keys(a)
    requires OneAllocation(b, a, run, attempt) && Planned(attempt, plan, report) && run.id == report.id
    ensures AllocationAccepted(Totalled(b), Totalled(a), plan, report)
  {
    AddedIsTheAttempt(b, a, attempt);
    OneMoreCounts(AttemptIdOf, b.attempts, a.attempts, attempt);
    SumWithOneMore(ReservedOf, b.attempts, a.attempts, attempt);
    forall prior | prior in b.attempts ensures FindAttempt(a.attempts, prior.id) == Some(prior) {
      KeyDetermines(AttemptIdOf, a.attempts, prior, FindAttempt(a.attempts, prior.id).value);
    }
    forall prior | prior in b.runs ensures FindRun(a.runs, prior.id) == Some(prior) {
      KeyDetermines(RunIdOf, a.runs, prior, FindRun(a.runs, prior.id).value);
    }
  }

  lemma AddedIsTheAttempt(b: Database, a: Database, attempt: AttemptRow)
    requires Keys(b) && Keys(a) && OneMore(b.attempts, a.attempts, attempt)
    ensures Added(b.attempts, a.attempts) == [attempt]
  {
    OnlyTheAttempt(b.attempts, a.attempts, attempt);
    var added := Added(b.attempts, a.attempts);
    AllTheSame(added, attempt);
    AddedIsPart(b.attempts, a.attempts, attempt);
    DistinctRows(AttemptIdOf, a.attempts, attempt);
    assert |added| == 1 && added[0] in added;
  }

  lemma OnlyTheAttempt(before: seq<AttemptRow>, after: seq<AttemptRow>, attempt: AttemptRow)
    requires Distinct(Map(AttemptIdOf, after)) && OneMore(before, after, attempt)
    ensures attempt in Added(before, after) && forall x :: x in Added(before, after) ==> x == attempt
  {
    assert attempt in after;
    forall prior | prior in before ensures prior.id != attempt.id {
      assert prior in after;
      KeysDiffer(AttemptIdOf, after, prior, attempt);
    }
    forall x | x in Added(before, after) ensures x == attempt {
      assert x in after;
    }
  }

  /** For two ledgers the reader accepts, the comparison passes exactly when the new one is the old one plus one run and
      one attempt of that run, as planned and reported. Its check of the reserved total adds nothing to the others. */
  lemma AllocationIsExact(b: Database, a: Database, plan: Plan, report: Report)
    requires Keys(b) && Keys(a) && ReadLedger(b).Ok? && ReadLedger(a).Ok?
    ensures AllocationAccepted(ReadLedger(b).value, ReadLedger(a).value, plan, report) <==>
      exists run, attempt :: OneAllocation(b, a, run, attempt) && Planned(attempt, plan, report) && run.id == report.id
  {
    if AllocationAccepted(ReadLedger(b).value, ReadLedger(a).value, plan, report) {
      var run, attempt := AcceptedAddsOne(b, a, plan, report);
    }
    if run, attempt :| OneAllocation(b, a, run, attempt) && Planned(attempt, plan, report) && run.id == report.id {
      OneAllocationIsAccepted(b, a, plan, report, run, attempt);
    }
  }

  // ---- Under an approved plan ----

  predicate Bound(plan: Plan, ledger: Ledger) {
    var native := ledger.contents.native;
    && Settled(ledger)
    && ledger.contents == plan.ledgerDigest && ledger.reservedSeconds == plan.reservedBefore
    && native.policy == plan.policy && |native.launches| == 3 && native.reservedSeconds == 900
    && ledger.reservedSeconds + plan.plannedReservations <= native.policy.lifetimeReservationLimitSeconds
    && ledger.committedSeconds + plan.policy.baselineSeconds + plan.plannedReservations <= plan.policy.developmentBudgetSeconds
    && plan.plannedReservations <= plan.policy.ownerBudgetSeconds
  }

  /** A plan is bound to a ledger exactly when nothing of it is under way, it is the very ledger that was approved, with its
      three native launches of 900 seconds, and the planned reservation still fits the lifetime, the development budget and
      the owner's. */
  lemma BoundIs(plan: Plan, b: Database)
    requires ReadLedger(b).Ok?
    ensures Bound(plan, ReadLedger(b).value) <==>
      && b == plan.ledgerDigest && plan.reservedBefore == ReservedInAll(b) && b.native.policy == plan.policy
      && b.native.settled && (forall a :: a in b.attempts ==> Over(a))
      && |b.native.launches| == 3 && b.native.reservedSeconds == 900
      && ReservedInAll(b) + plan.plannedReservations <= plan.policy.lifetimeReservationLimitSeconds
      && ReadLedger(b).value.committedSeconds + plan.policy.baselineSeconds + plan.plannedReservations <=
         plan.policy.developmentBudgetSeconds
      && plan.plannedReservations <= plan.policy.ownerBudgetSeconds
  {
    TotalsAre(b);
    forall a: AttemptRow ensures AttemptSettled(a) <==> Over(a) { OverIs(a); }
  }

  /** After an approved allocation the lifetime limit still holds, everything that was there stays settled and unchanged,
      and the development budget holds unless more than the reservation was consumed. */
  lemma BoundAllocationStaysWithinBudget(b: Database, a: Database, plan: Plan, report: Report)
    requires Keys(b) && Keys(a) && ReadLedger(b).Ok? && ReadLedger(a).Ok?
    requires Bound(plan, ReadLedger(b).value)
    requires AllocationAccepted(ReadLedger(b).value, ReadLedger(a).value, plan, report)
    ensures var before, after := ReadLedger(b).value, ReadLedger(a).value;
            && after.reservedSeconds == plan.reservedBefore + plan.plannedReservations <= plan.policy.lifetimeReservationLimitSeconds
            && (forall x :: x in a.attempts && x.id != report.attemptId ==> x in b.attempts && Over(x))
            && b == plan.ledgerDigest && a.native == b.native && a.native.settled
            && a.native.policy == plan.policy && |a.native.launches| == 3 && a.native.reservedSeconds == 900
            && plan.plannedReservations <= plan.policy.ownerBudgetSeconds
            && ((forall x :: x in a.attempts && x.id == report.attemptId ==> x.consumedSeconds <= x.reservedSeconds) ==>
                after.committedSeconds + plan.policy.baselineSeconds <= plan.policy.developmentBudgetSeconds)
  {
    var run, attempt := AcceptedAddsOne(b, a, plan, report);
    OneMoreCounts(AttemptIdOf, b.attempts, a.attempts, attempt);
    SumWithOneMore(CommittedOf, b.attempts, a.attempts, attempt);
    assert attempt in a.attempts;
    forall x | x in a.attempts && x.id != report.attemptId ensures x in b.attempts && Over(x) { OverIs(x); }
  }

  lemma OverIs(a: AttemptRow)
    ensures AttemptSettled(a) <==> Over(a)
  {
  }
}
