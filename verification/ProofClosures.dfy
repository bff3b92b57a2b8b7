/** The closing audits: each accepts exactly when ledger and remote records correspond one to one
    (scripts/advanced-proof.ts, scripts/release-proof.ts, scripts/report-proof.ts). */
module ProofClosures {
  import opened Correspondence
  import opened PeakConcurrency
  import opened RunLog
  import opened Totals

  datatype LaunchState = Settled | OtherState(name: string)

  datatype JobStatus = JobCompleted | JobCancelled | OtherJob(name: string)

  datatype Launch = Launch(
    jobId: Id, runId: Id, attemptId: Id, ownerId: Id, correlationToken: Id, sessionId: Option<Id>,
    reservedSeconds: int, consumedSeconds: int, releasedSeconds: int, state: LaunchState, jobStatus: JobStatus)

  datatype Ledger = Ledger(baselineSeconds: int, reservedSeconds: int, launches: seq<Launch>)

  // ---- The ledger schema ----

  function ReservedOf(l: Launch): int { l.reservedSeconds }

  predicate LaunchFields(l: Launch) {
    l.reservedSeconds == 300 && l.consumedSeconds >= 0 && 0 <= l.releasedSeconds <= 300
  }

  function JobIdOf(l: Launch): Id { l.jobId }

  function AttemptIdOf(l: Launch): Id { l.attemptId }

  function TokenOf(l: Launch): Id { l.correlationToken }

  function LaunchSessionOf(l: Launch): Option<Id> { l.sessionId }

  /** The sessions of the launches that have one. */
  function SessionIds(launches: seq<Launch>): seq<Id> {
    Present(Map(LaunchSessionOf, launches))
  }

  /** As the schema checks it: ranges, the sum, and the sizes of four sets. */
  predicate AdvancedLedgerParses(ledger: Ledger) {
    && ledger.baselineSeconds == 985
    && 0 <= ledger.reservedSeconds <= 3600 && |ledger.launches| <= 12
    && (forall l :: l in ledger.launches ==> LaunchFields(l))
    && ledger.reservedSeconds == Sum(ReservedOf, ledger.launches)
    && |SetOf(Map(JobIdOf, ledger.launches))| == |ledger.launches|
    && |SetOf(Map(AttemptIdOf, ledger.launches))| == |ledger.launches|
    && |SetOf(Map(TokenOf, ledger.launches))| == |ledger.launches|
    && |SetOf(SessionIds(ledger.launches))| == |SessionIds(ledger.launches)|
  }

  /** The release schema checks the same ledger under its own baseline. */
  predicate ReleaseLedgerParses(ledger: Ledger) {
    ledger.baselineSeconds == 1092 && AdvancedLedgerParses(ledger.(baselineSeconds := 985))
  }

  /** Two launches of one ledger share no identity, and no session. */
  predicate Unrelated(a: Launch, b: Launch) {
    && a.jobId != b.jobId && a.attemptId != b.attemptId && a.correlationToken != b.correlationToken
    && (a.sessionId.Some? ==> a.sessionId != b.sessionId)
  }

  lemma {:induction false} SumIsFlat(launches: seq<Launch>)
    requires forall l :: l in launches ==> LaunchFields(l)
    ensures Sum(ReservedOf, launches) == 300 * |launches|
  {
    if launches != [] {
      assert LaunchFields(launches[0]);
      SumIsFlat(launches[1..]);
    }
  }

  /** At most twelve pairwise unrelated launches of 300 seconds, all of them in the total. */
  predicate Balanced(ledger: Ledger) {
    && |ledger.launches| <= 12 && ledger.reservedSeconds == 300 * |ledger.launches|
    && (forall l :: l in ledger.launches ==>
          l.reservedSeconds == 300 && l.consumedSeconds >= 0 && 0 <= l.releasedSeconds <= 300)
    && (forall i, j :: 0 <= i < j < |ledger.launches| ==> Unrelated(ledger.launches[i], ledger.launches[j]))
  }

  /** What an accepted ledger is, under either baseline. */
  lemma AcceptedLedgerIs(ledger: Ledger)
    ensures AdvancedLedgerParses(ledger) <==> ledger.baselineSeconds == 985 && Balanced(ledger)
    ensures ReleaseLedgerParses(ledger) <==> ledger.baselineSeconds == 1092 && Balanced(ledger)
  {
    AdvancedLedgerIs(ledger);
    AdvancedLedgerIs(ledger.(baselineSeconds := 985));
    assert Balanced(ledger.(baselineSeconds := 985)) == Balanced(ledger);
  }

  lemma AdvancedLedgerIs(ledger: Ledger)
    ensures AdvancedLedgerParses(ledger) <==> ledger.baselineSeconds == 985 && Balanced(ledger)
  {
    var ls := ledger.launches;
    DistinctBySize(Map(JobIdOf, ls));
    DistinctBySize(Map(AttemptIdOf, ls));
    DistinctBySize(Map(TokenOf, ls));
    DistinctBySize(SessionIds(ls));
    DistinctPresent(Map(LaunchSessionOf, ls));
    if forall l :: l in ls ==> LaunchFields(l) { SumIsFlat(ls); }
    UnrelatedIs(ls);
  }

  lemma UnrelatedIs(ls: seq<Launch>)
    ensures (forall i, j :: 0 <= i < j < |ls| ==> Unrelated(ls[i], ls[j])) <==>
      Distinct(Map(JobIdOf, ls)) && Distinct(Map(AttemptIdOf, ls)) && Distinct(Map(TokenOf, ls))
      && ValuesDiffer(Map(LaunchSessionOf, ls))
  {
    var jobs, attempts, tokens := Map(JobIdOf, ls), Map(AttemptIdOf, ls), Map(TokenOf, ls);
    var sessions := Map(LaunchSessionOf, ls);
    if Distinct(jobs) && Distinct(attempts) && Distinct(tokens) && ValuesDiffer(sessions) {
      forall i, j | 0 <= i < j < |ls| ensures Unrelated(ls[i], ls[j]) {
        assert jobs[i] != jobs[j] && attempts[i] != attempts[j] && tokens[i] != tokens[j];
        assert sessions[i].Some? ==> sessions[i] != sessions[j];
      }
    }
    if forall i, j :: 0 <= i < j < |ls| ==> Unrelated(ls[i], ls[j]) {
      forall i, j | 0 <= i < j < |ls| ensures jobs[i] != jobs[j] && attempts[i] != attempts[j] && tokens[i] != tokens[j] {
        assert Unrelated(ls[i], ls[j]);
      }
    }
  }

  // ---- Launches against remote sessions ----

  function SessionTokenOf(s: Session): Id { s.correlationToken }

  function SessionIdOf(s: Session): Id { s.sessionId }

  /** The first session with that token. */
  function FindSession(sessions: seq<Session>, token: Id): (r: Option<Session>)
    ensures r.Some? ==> r.value in sessions && r.value.correlationToken == token
    ensures r.None? ==> forall s :: s in sessions ==> s.correlationToken != token
  {
    if sessions == [] then None
    else if sessions[0].correlationToken == token then Some(sessions[0])
    else FindSession(sessions[1..], token)
  }

  lemma FindsTheOnly(sessions: seq<Session>, s: Session)
    requires Distinct(Map(SessionTokenOf, sessions)) && s in sessions
    ensures FindSession(sessions, s.correlationToken) == Some(s)
  {
    var tokens := Map(SessionTokenOf, sessions);
    var found := FindSession(sessions, s.correlationToken).value;
    var i :| 0 <= i < |sessions| && sessions[i] == s;
    var j :| 0 <= j < |sessions| && sessions[j] == found;
    assert tokens[i] == tokens[j];
  }

  /** Same token, and the session closes the launch. */
  function Matched(closes: (Launch, Session) -> bool): (Launch, Session) -> bool {
    (l: Launch, s: Session) => l.correlationToken == s.correlationToken && closes(l, s)
  }

  /** As both audits check it: counts, set sizes, and one look-up per launch. */
  predicate EveryLaunchCloses(launches: seq<Launch>, sessions: seq<Session>, closes: (Launch, Session) -> bool) {
    && |sessions| == |launches|
    && |SetOf(Map(SessionTokenOf, sessions))| == |sessions|
    && |SetOf(Map(SessionIdOf, sessions))| == |sessions|
    && forall l :: l in launches ==>
         FindSession(sessions, l.correlationToken).Some? && closes(l, FindSession(sessions, l.correlationToken).value)
  }

  ghost predicate ClosesItsSession(closes: (Launch, Session) -> bool) {
    forall l, s :: closes(l, s) ==> l.sessionId == Some(s.sessionId)
  }

  /** For launches that share no identity, the audit is an exact correspondence: no session is left over or used twice. */
  lemma EveryLaunchClosesIs(launches: seq<Launch>, sessions: seq<Session>, closes: (Launch, Session) -> bool)
    requires ClosesItsSession(closes)
    requires forall i, j :: 0 <= i < j < |launches| ==> Unrelated(launches[i], launches[j])
    ensures EveryLaunchCloses(launches, sessions, closes) <==> OneToOne(launches, sessions, Matched(closes))
  {
    UnrelatedIs(launches);
    DistinctBySize(Map(SessionTokenOf, sessions));
    DistinctBySize(Map(SessionIdOf, sessions));
    if EveryLaunchCloses(launches, sessions, closes) {
      forall i | 0 <= i < |launches| ensures HasPartner(launches[i], sessions, Matched(closes)) {
        var found := FindSession(sessions, launches[i].correlationToken).value;
        var j :| 0 <= j < |sessions| && sessions[j] == found;
        assert Matched(closes)(launches[i], sessions[j]);
      }
      CountedIsOneToOne(launches, sessions, Matched(closes), TokenOf, SessionTokenOf);
    }
    if OneToOne(launches, sessions, Matched(closes)) { OneToOneCloses(launches, sessions, closes); }
  }

  lemma OneToOneCloses(launches: seq<Launch>, sessions: seq<Session>, closes: (Launch, Session) -> bool)
    requires ClosesItsSession(closes) && OneToOne(launches, sessions, Matched(closes))
    requires forall i, j :: 0 <= i < j < |launches| ==> Unrelated(launches[i], launches[j])
    ensures EveryLaunchCloses(launches, sessions, closes)
  {
    UnrelatedIs(launches);
    OneToOneKeepsDistinct(launches, sessions, Matched(closes), TokenOf, SessionTokenOf);
    SessionIdsStayDistinct(launches, sessions, closes);
    DistinctBySize(Map(SessionTokenOf, sessions));
    DistinctBySize(Map(SessionIdOf, sessions));
    forall l | l in launches
      ensures FindSession(sessions, l.correlationToken).Some? && closes(l, FindSession(sessions, l.correlationToken).value)
    {
      var i :| 0 <= i < |launches| && launches[i] == l;
      assert HasOnePartner(launches[i], sessions, Matched(closes));
      var j :| 0 <= j < |sessions| && Matched(closes)(l, sessions[j]);
      FindsTheOnly(sessions, sessions[j]);
    }
  }

  lemma SessionIdsStayDistinct(launches: seq<Launch>, sessions: seq<Session>, closes: (Launch, Session) -> bool)
    requires ClosesItsSession(closes) && OneToOne(launches, sessions, Matched(closes))
    requires ValuesDiffer(Map(LaunchSessionOf, launches))
    ensures Distinct(Map(SessionIdOf, sessions))
  {
    forall j, k | 0 <= j < |sessions| && 0 <= k < |sessions| && sessions[j].sessionId == sessions[k].sessionId
      ensures j == k
    {
      var i := SourceOf(launches, sessions[j], Matched(closes));
      var l := SourceOf(launches, sessions[k], Matched(closes));
      var ids := Map(LaunchSessionOf, launches);
      assert ids[i] == ids[l];
      PartnerIsUnique(launches[i], sessions, Matched(closes), j, k);
    }
  }

  // ---- The two closures over remote sessions ----

  /** A remote session that ended closes its launch: same session, a consistent and non-negative duration. */
  predicate ClosesAdvanced(l: Launch, s: Session) {
    && l.sessionId == Some(s.sessionId) && s.status in {Completed, Error, TimedOut}
    && s.endedAt >= s.startedAt && s.actualBrowserSeconds >= 0.0
    && s.actualBrowserSeconds == (s.endedAt - s.startedAt) / 1000.0
  }

  predicate ExactAdvancedClosure(ledger: Ledger, sessions: seq<Session>) {
    AdvancedLedgerParses(ledger) && |ledger.launches| != 0 && EveryLaunchCloses(ledger.launches, sessions, ClosesAdvanced)
  }

  /** The session of the launch, by token and by id, ended one way or the other, and lasted what it is said to have used. */
  predicate EndedFor(l: Launch, s: Session) {
    && l.correlationToken == s.correlationToken && l.sessionId == Some(s.sessionId)
    && (s.status == Completed || s.status == Error || s.status == TimedOut)
    && s.startedAt <= s.endedAt && s.endedAt - s.startedAt == 1000.0 * s.actualBrowserSeconds
  }

  lemma EndedIs(l: Launch, s: Session)
    ensures EndedFor(l, s) <==> l.correlationToken == s.correlationToken && ClosesAdvanced(l, s)
  {
    var lasted := s.endedAt - s.startedAt;
    assert s.actualBrowserSeconds == lasted / 1000.0 <==> lasted == 1000.0 * s.actualBrowserSeconds;
  }

  lemma AdvancedClosureIsOneToOne(ledger: Ledger, sessions: seq<Session>)
    ensures ExactAdvancedClosure(ledger, sessions) <==>
      ledger.baselineSeconds == 985 && Balanced(ledger) && ledger.launches != [] && OneToOne(ledger.launches, sessions, EndedFor)
  {
    forall l, s ensures Matched(ClosesAdvanced)(l, s) == EndedFor(l, s) { EndedIs(l, s); }
    AcceptedLedgerIs(ledger);
    if AdvancedLedgerParses(ledger) {
      EveryLaunchClosesIs(ledger.launches, sessions, ClosesAdvanced);
      if OneToOne(ledger.launches, sessions, EndedFor) {
        SamePairsSamePartners(ledger.launches, sessions, EndedFor, Matched(ClosesAdvanced));
      } else if OneToOne(ledger.launches, sessions, Matched(ClosesAdvanced)) {
        SamePairsSamePartners(ledger.launches, sessions, Matched(ClosesAdvanced), EndedFor);
      }
    }
  }

  predicate ClosesRelease(l: Launch, s: Session) {
    && l.sessionId == Some(s.sessionId) && s.status == Completed
    && l.state == Settled && (l.jobStatus == JobCompleted || l.jobStatus == JobCancelled)
    && s.endedAt >= s.startedAt && s.actualBrowserSeconds == (s.endedAt - s.startedAt) / 1000.0
    && 0.0 <= s.actualBrowserSeconds <= 300.0
  }

  /** The session of the launch, by token and by id, completed and lasted what it is said to have used, five minutes at the
      most; and the launch is settled, its job completed or cancelled. */
  predicate CompletedFor(l: Launch, s: Session) {
    && l.correlationToken == s.correlationToken && l.sessionId == Some(s.sessionId) && s.status == Completed
    && l.state == Settled && (l.jobStatus == JobCompleted || l.jobStatus == JobCancelled)
    && s.endedAt - s.startedAt == 1000.0 * s.actualBrowserSeconds && 0.0 <= s.endedAt - s.startedAt <= 300000.0
  }

  lemma CompletedIs(l: Launch, s: Session)
    ensures CompletedFor(l, s) <==> l.correlationToken == s.correlationToken && ClosesRelease(l, s)
  {
    var lasted := s.endedAt - s.startedAt;
    assert s.actualBrowserSeconds == lasted / 1000.0 <==> lasted == 1000.0 * s.actualBrowserSeconds;
  }

  lemma CompletedIsMatched(ledger: Ledger, sessions: seq<Session>)
    ensures OneToOne(ledger.launches, sessions, CompletedFor) <==> OneToOne(ledger.launches, sessions, Matched(ClosesRelease))
  {
    forall l, s ensures Matched(ClosesRelease)(l, s) == CompletedFor(l, s) { CompletedIs(l, s); }
    if OneToOne(ledger.launches, sessions, CompletedFor) {
      SamePairsSamePartners(ledger.launches, sessions, CompletedFor, Matched(ClosesRelease));
    } else if OneToOne(ledger.launches, sessions, Matched(ClosesRelease)) {
      SamePairsSamePartners(ledger.launches, sessions, Matched(ClosesRelease), CompletedFor);
    }
  }

  /** Accepted exactly when launches and sessions correspond and never more than three browsers were live together. */
  method ExactReleaseClosure(ledger: Ledger, sessions: seq<Session>) returns (accepted: bool)
    ensures accepted <==>
      && ledger.baselineSeconds == 1092 && Balanced(ledger) && ledger.launches != []
      && OneToOne(ledger.launches, sessions, CompletedFor)
      && forall t: real :: LiveAt(sessions, t) <= 3
  {
    var ls := ledger.launches;
    AcceptedLedgerIs(ledger);
    if !ReleaseLedgerParses(ledger) || |ls| == 0 { return false; }
    EveryLaunchClosesIs(ls, sessions, ClosesRelease);
    CompletedIsMatched(ledger, sessions);
    var peak := ObservedPeakConcurrency(sessions);
    accepted := peak <= 3 && EveryLaunchCloses(ls, sessions, ClosesRelease);
  }

  function UsedSeconds(sessions: seq<Session>): real {
    if sessions == [] then 0.0 else sessions[0].actualBrowserSeconds + UsedSeconds(sessions[1..])
  }

  lemma {:induction false} UsedAtMost(sessions: seq<Session>)
    requires forall i :: 0 <= i < |sessions| ==> sessions[i].actualBrowserSeconds <= 300.0
    ensures UsedSeconds(sessions) <= 300.0 * |sessions| as real
  {
    if sessions != [] { UsedAtMost(sessions[1..]); }
  }

  /** What was really used never exceeds what the ledger reserved. */
  lemma UsageStaysReserved(ledger: Ledger, sessions: seq<Session>)
    requires Balanced(ledger) && OneToOne(ledger.launches, sessions, CompletedFor)
    ensures UsedSeconds(sessions) <= ledger.reservedSeconds as real
  {
    forall i | 0 <= i < |sessions| ensures sessions[i].actualBrowserSeconds <= 300.0 {
      var _ := SourceOf(ledger.launches, sessions[i], CompletedFor);
    }
    UsedAtMost(sessions);
  }

  // ---- Image and video receipts ----

  datatype Asset = Asset(file: string, sha256: string, bytes: nat, video: bool)

  datatype Entry = Entry(file: string, sha256: string)

  datatype Receipt = Receipt(invocationId: Id, sourceDigest: string, inspectedAt: int, assets: seq<Entry>)

  function FileOf(a: Asset): string { a.file }

  function EntryFileOf(e: Entry): string { e.file }

  predicate Inspected(a: Asset, e: Entry) {
    e.file == a.file && e.sha256 == a.sha256
  }

  predicate ForThis(receipt: Receipt, invocationId: Id, digest: string, capturedAt: int, now: int) {
    && receipt.invocationId == invocationId && receipt.sourceDigest == digest
    && capturedAt <= receipt.inspectedAt <= now
  }

  predicate ExactReleaseInspection(
    receipt: Receipt, inventory: seq<Asset>, invocationId: Id, digest: string, capturedAt: int, now: int)
  {
    && 1 <= |receipt.assets| <= 30
    && |inventory| != 0 && (exists a :: a in inventory && a.video)
    && ForThis(receipt, invocationId, digest, capturedAt, now)
    && |receipt.assets| == |inventory|
    && |SetOf(Map(EntryFileOf, receipt.assets))| == |inventory|
    && |SetOf(Map(FileOf, inventory))| == |inventory|
    && forall a :: a in inventory ==> exists e :: e in receipt.assets && Inspected(a, e)
  }

  lemma InspectionIsOneToOne(
    receipt: Receipt, inventory: seq<Asset>, invocationId: Id, digest: string, capturedAt: int, now: int)
    ensures ExactReleaseInspection(receipt, inventory, invocationId, digest, capturedAt, now) <==>
      && |inventory| <= 30 && (exists a :: a in inventory && a.video)
      && receipt.invocationId == invocationId && receipt.sourceDigest == digest && capturedAt <= receipt.inspectedAt <= now
      && Distinct(Map(FileOf, inventory))
      && OneToOne(inventory, receipt.assets, Inspected)
    ensures ExactReleaseInspection(receipt, inventory, invocationId, digest, capturedAt, now) ==>
      && (forall a :: a in inventory ==> Entry(a.file, a.sha256) in receipt.assets)
      && (forall e :: e in receipt.assets ==> exists a :: a in inventory && e == Entry(a.file, a.sha256))
  {
    var entries := receipt.assets;
    DistinctBySize(Map(EntryFileOf, entries));
    DistinctBySize(Map(FileOf, inventory));
    if ExactReleaseInspection(receipt, inventory, invocationId, digest, capturedAt, now) {
      forall i | 0 <= i < |inventory| ensures HasPartner(inventory[i], entries, Inspected) {
        assert inventory[i] in inventory;
        var e :| e in entries && Inspected(inventory[i], e);
        var j :| 0 <= j < |entries| && entries[j] == e;
      }
      CountedIsOneToOne(inventory, entries, Inspected, FileOf, EntryFileOf);
    }
    if OneToOne(inventory, entries, Inspected) && Distinct(Map(FileOf, inventory)) {
      OneToOneKeepsDistinct(inventory, entries, Inspected, FileOf, EntryFileOf);
      forall a | a in inventory ensures exists e :: e in entries && Inspected(a, e) {
        var i :| 0 <= i < |inventory| && inventory[i] == a;
        assert HasOnePartner(inventory[i], entries, Inspected);
        var j :| 0 <= j < |entries| && Inspected(a, entries[j]);
      }
    }
  }

  // ---- The report's ledger and closure ----

  datatype ReportLaunch = ReportLaunch(correlationToken: Id, sessionId: Option<Id>, attemptId: Id, runId: Id)

  function ReportTokenOf(l: ReportLaunch): Id { l.correlationToken }

  function ReportSessionOf(l: ReportLaunch): Option<Id> { l.sessionId }

  predicate ExactResumeLedger(before: seq<ReportLaunch>, after: seq<ReportLaunch>, reservedBefore: int, reservedAfter: int) {
    && 0 <= reservedBefore <= 1200 && reservedBefore == reservedAfter && |before| == |after|
    && |SetOf(Map(ReportTokenOf, before))| == |before|
    && |SetOf(Map(ReportTokenOf, after))| == |after|
    && forall l :: l in before ==> exists o :: o in after && o == l
  }

  /** A ledger accepted on resumption is the original one in some order. */
  lemma ResumedLedgerIsPermutation(before: seq<ReportLaunch>, after: seq<ReportLaunch>, reservedBefore: int, reservedAfter: int)
    ensures ExactResumeLedger(before, after, reservedBefore, reservedAfter) <==>
      && 0 <= reservedBefore <= 1200 && reservedBefore == reservedAfter
      && Distinct(Map(ReportTokenOf, before)) && multiset(before) == multiset(after)
  {
    DistinctBySize(Map(ReportTokenOf, before));
    DistinctBySize(Map(ReportTokenOf, after));
    if ExactResumeLedger(before, after, reservedBefore, reservedAfter) {
      DistinctByKey(ReportTokenOf, before);
      forall i | 0 <= i < |before| ensures before[i] in after {
        assert before[i] in before;
      }
      Pigeonhole(before, after);
      SameSetSameMultiset(before, after);
    }
    if Distinct(Map(ReportTokenOf, before)) && multiset(before) == multiset(after) {
      assert |before| == |multiset(before)| == |after|;
      PermutedMembers(before, after);
      KeysStayDistinct(ReportTokenOf, before, after);
    }
  }

  lemma SameSetSameMultiset<T>(a: seq<T>, b: seq<T>)
    requires Distinct(a) && Distinct(b) && SetOf(a) == SetOf(b)
    ensures multiset(a) == multiset(b)
  {
    forall x ensures multiset(a)[x] == multiset(b)[x] {
      OnceEach(a, x);
      OnceEach(b, x);
      assert x in SetOf(a) <==> x in a;
      assert x in SetOf(b) <==> x in b;
    }
  }

  lemma {:induction false} OnceEach<T>(s: seq<T>, x: T)
    requires Distinct(s)
    ensures multiset(s)[x] == if x in s then 1 else 0
  {
    if s != [] {
      var n := |s| - 1;
      OnceEach(s[..n], x);
      assert s == s[..n] + [s[n]];
    }
  }

  datatype RemoteSession = RemoteSession(sessionId: Id, status: SessionStatus, actualBrowserSeconds: Option<real>)

  datatype RemoteProof = RemoteProof(correlationToken: Id, confirmed: bool, sessions: seq<RemoteSession>)

  function ProofTokenOf(p: RemoteProof): Id { p.correlationToken }

  function FindProof(proof: seq<RemoteProof>, token: Id): (r: Option<RemoteProof>)
    ensures r.Some? ==> r.value in proof && r.value.correlationToken == token
    ensures r.None? ==> forall p :: p in proof ==> p.correlationToken != token
  {
    if proof == [] then None
    else if proof[0].correlationToken == token then Some(proof[0])
    else FindProof(proof[1..], token)
  }

  /** A confirmed readback of exactly one completed session, within the 300 seconds a launch may use. */
  predicate Confirms(l: ReportLaunch, p: RemoteProof) {
    && l.sessionId.Some? && p.confirmed && |p.sessions| == 1
    && var s := p.sessions[0];
       && l.sessionId.value == s.sessionId && s.status == Completed
       && s.actualBrowserSeconds.Some? && 0.0 <= s.actualBrowserSeconds.value <= 300.0
  }

  ghost predicate ConfirmsByToken(l: ReportLaunch, p: RemoteProof) {
    && l.correlationToken == p.correlationToken && p.confirmed
    && (exists seconds: real :: 0.0 <= seconds <= 300.0 && l.sessionId.Some?
          && p.sessions == [RemoteSession(l.sessionId.value, Completed, Some(seconds))])
  }

  predicate ExactReportClosure(expected: seq<ReportLaunch>, proof: seq<RemoteProof>) {
    && |expected| != 0 && |expected| == |proof|
    && |SetOf(Map(ReportTokenOf, expected))| == |expected|
    && |SetOf(Map(ReportSessionOf, expected))| == |expected|
    && |SetOf(Map(ProofTokenOf, proof))| == |proof|
    && forall l :: l in expected ==>
         FindProof(proof, l.correlationToken).Some? && Confirms(l, FindProof(proof, l.correlationToken).value)
  }

  lemma FindsTheOnlyProof(proof: seq<RemoteProof>, p: RemoteProof)
    requires Distinct(Map(ProofTokenOf, proof)) && p in proof
    ensures FindProof(proof, p.correlationToken) == Some(p)
  {
    var tokens := Map(ProofTokenOf, proof);
    var found := FindProof(proof, p.correlationToken).value;
    var i :| 0 <= i < |proof| && proof[i] == p;
    var j :| 0 <= j < |proof| && proof[j] == found;
    assert tokens[i] == tokens[j];
  }

  lemma ReportClosureIsOneToOne(expected: seq<ReportLaunch>, proof: seq<RemoteProof>)
    ensures ExactReportClosure(expected, proof) <==>
      && expected != [] && Distinct(Map(ReportTokenOf, expected)) && Distinct(Map(ReportSessionOf, expected))
      && OneToOne(expected, proof, ConfirmsByToken)
  {
    DistinctBySize(Map(ReportTokenOf, expected));
    DistinctBySize(Map(ReportSessionOf, expected));
    DistinctBySize(Map(ProofTokenOf, proof));
    if ExactReportClosure(expected, proof) {
      forall i | 0 <= i < |expected| ensures HasPartner(expected[i], proof, ConfirmsByToken) {
        var found := FindProof(proof, expected[i].correlationToken).value;
        var j :| 0 <= j < |proof| && proof[j] == found;
        assert ConfirmsByToken(expected[i], proof[j]);
      }
      CountedIsOneToOne(expected, proof, ConfirmsByToken, ReportTokenOf, ProofTokenOf);
    }
    if OneToOne(expected, proof, ConfirmsByToken) && Distinct(Map(ReportTokenOf, expected)) {
      OneToOneKeepsDistinct(expected, proof, ConfirmsByToken, ReportTokenOf, ProofTokenOf);
      forall l | l in expected
        ensures FindProof(proof, l.correlationToken).Some? && Confirms(l, FindProof(proof, l.correlationToken).value)
      {
        var i :| 0 <= i < |expected| && expected[i] == l;
        assert HasOnePartner(expected[i], proof, ConfirmsByToken);
        var j :| 0 <= j < |proof| && ConfirmsByToken(l, proof[j]);
        FindsTheOnlyProof(proof, proof[j]);
      }
    }
  }
}
