/** Overlaying the event buffer on snapshot reads that may be older or newer (src/lib/live-wall.ts). */
module WallProjection {
  import opened RunLog
  import opened EventMerge

  datatype Run = Run(id: Id, status: Status, cancelRequestedAt: Option<Timestamp>, detail: string)

  datatype Attempt = Attempt(id: Id, status: Status, detail: string)

  datatype LaunchState = NotLaunched | Intent | Active | Recovering | Quarantined | Settled

  datatype Summary = Summary(attemptId: Id, launchState: LaunchState, detail: string)

  datatype Session = Session(attemptId: Id, available: bool, liveViewUrl: Option<string>)

  datatype Connection = Loading | Live | Reconnecting | Finished | Unavailable

  /** The messages shown to the owner: session expired, run not available, read limit reached, retry or wait. */
  datatype Notice = SessionExpired | RunUnavailable | ReadLimitReached | CouldNotRefresh

  datatype WallSnapshot = WallSnapshot(
    run: Option<Run>,
    attempts: seq<Attempt>,
    summaries: seq<Summary>,
    sessions: seq<Session>,
    events: seq<Event>,
    cursor: nat,
    connection: Connection,
    error: Option<Notice>,
    finalizing: bool)

  const EMPTY_WALL := WallSnapshot(None, [], [], [], [], 0, Loading, None, false)

  predicate NeedsCleanup(summaries: seq<Summary>) {
    exists s :: s in summaries && s.launchState != NotLaunched && s.launchState != Settled
  }

  // ---- Attempts as a map in insertion order: a repeated id keeps its place and takes the later value ----

  predicate UniqueIds(attempts: seq<Attempt>) {
    forall i, j :: 0 <= i < j < |attempts| ==> attempts[i].id != attempts[j].id
  }

  function PutAttempt(attempts: seq<Attempt>, attempt: Attempt): (r: seq<Attempt>)
    requires UniqueIds(attempts)
    ensures UniqueIds(r)
  {
    if exists a :: a in attempts && a.id == attempt.id then
      seq(|attempts|, i requires 0 <= i < |attempts| => if attempts[i].id == attempt.id then attempt else attempts[i])
    else attempts + [attempt]
  }

  function ById(attempts: seq<Attempt>): (r: seq<Attempt>)
    ensures UniqueIds(r)
  {
    if attempts == [] then [] else PutAttempt(ById(attempts[..|attempts| - 1]), attempts[|attempts| - 1])
  }

  function FindAttempt(attempts: seq<Attempt>, id: Id): (r: Option<Attempt>)
    ensures r.Some? ==> r.value in attempts && r.value.id == id
    ensures r.None? ==> forall a :: a in attempts ==> a.id != id
  {
    if attempts == [] then None
    else if attempts[0].id == id then Some(attempts[0])
    else FindAttempt(attempts[1..], id)
  }

  // ---- The overlay, one event at a time ----

  function OverlayRun(run: Run, e: Event, cursor: nat): Run {
    var cancelled :=
      if e.kind == RunCancelRequested && run.cancelRequestedAt.None?
      then run.(cancelRequestedAt := Some(e.timestamp)) else run;
    if e.sequence > cursor then cancelled
    else if e.kind == RunFinished && CarriesOutcome(e) then cancelled.(status := e.status.value)
    else if cancelled.status == Queued && e.kind == AttemptStarted then cancelled.(status := Running)
    else cancelled
  }

  function OverlayStatus(status: Status, id: Id, e: Event, cursor: nat): Status {
    if e.sequence > cursor || e.attemptId != Some(id) then status
    else if e.kind == AttemptFinished && CarriesOutcome(e) then e.status.value
    else if e.kind == AttemptStarted && !IsTerminal(status) then Running
    else status
  }

  function OverlaidRun(run: Run, events: seq<Event>, cursor: nat): Run {
    if events == [] then run
    else OverlayRun(OverlaidRun(run, events[..|events| - 1], cursor), events[|events| - 1], cursor)
  }

  function OverlaidStatus(status: Status, id: Id, events: seq<Event>, cursor: nat): Status {
    if events == [] then status
    else OverlayStatus(OverlaidStatus(status, id, events[..|events| - 1], cursor), id, events[|events| - 1], cursor)
  }

  function OverlaidAttempts(attempts: seq<Attempt>, events: seq<Event>, cursor: nat): (r: seq<Attempt>)
    requires UniqueIds(attempts)
    ensures UniqueIds(r)
  {
    seq(|attempts|, i requires 0 <= i < |attempts| =>
      attempts[i].(status := OverlaidStatus(attempts[i].status, attempts[i].id, events, cursor)))
  }

  /** Signals that withhold a viewer wherever they are in the buffer, gap or not. */
  predicate HiddenByEvent(events: seq<Event>, attemptId: Id) {
    exists e :: e in events && e.attemptId == Some(attemptId) && (e.kind == AttemptRecovering || e.kind == AttemptFinished)
  }

  predicate HiddenBySummary(summaries: seq<Summary>, attemptId: Id) {
    exists s :: s in summaries && s.attemptId == attemptId &&
      (s.launchState == Recovering || s.launchState == Quarantined || s.launchState == Settled)
  }

  predicate FinishSignal(events: seq<Event>) {
    exists e :: e in events && e.kind == RunFinished
  }

  predicate Viewable(s: WallSnapshot, run: Option<Run>, attempts: seq<Attempt>, attemptId: Id) {
    && run.Some? && !IsTerminal(run.value.status) && run.value.cancelRequestedAt.None?
    && !FinishSignal(s.events)
    && !HiddenByEvent(s.events, attemptId) && !HiddenBySummary(s.summaries, attemptId)
    && FindAttempt(attempts, attemptId).Some? && FindAttempt(attempts, attemptId).value.status == Running
  }

  function ProjectSession(session: Session, viewable: bool): Session {
    var available := session.available && viewable;
    Session(session.attemptId, available, if available then session.liveViewUrl else None)
  }

  function Project(s: WallSnapshot): WallSnapshot {
    var run := if s.run.Some? then Some(OverlaidRun(s.run.value, s.events, s.cursor)) else None;
    var attempts := OverlaidAttempts(ById(s.attempts), s.events, s.cursor);
    s.(run := run, attempts := attempts,
       sessions := seq(|s.sessions|, i requires 0 <= i < |s.sessions| =>
         ProjectSession(s.sessions[i], Viewable(s, run, attempts, s.sessions[i].attemptId))))
  }

  /** The loop over the buffer, with the run, the attempts and the hidden viewers as variables. */
  method OverlayBuffer(s: WallSnapshot) returns (run: Option<Run>, attempts: seq<Attempt>, hidden: set<Id>)
    ensures run == if s.run.Some? then Some(OverlaidRun(s.run.value, s.events, s.cursor)) else None
    ensures attempts == OverlaidAttempts(ById(s.attempts), s.events, s.cursor)
    ensures forall id :: id in hidden <==>
      || (exists x :: x in s.summaries && x.attemptId == id &&
            (x.launchState == Recovering || x.launchState == Quarantined || x.launchState == Settled))
      || (exists e :: e in s.events && e.attemptId == Some(id) && (e.kind == AttemptRecovering || e.kind == AttemptFinished))
  {
    var byId := ById(s.attempts);
    run, attempts := s.run, byId;
    hidden := set x | x in s.summaries &&
      (x.launchState == Recovering || x.launchState == Quarantined || x.launchState == Settled) :: x.attemptId;
    for n := 0 to |s.events|
      invariant run == if s.run.Some? then Some(OverlaidRun(s.run.value, s.events[..n], s.cursor)) else None
      invariant UniqueIds(attempts) && attempts == OverlaidAttempts(byId, s.events[..n], s.cursor)
      invariant forall id :: id in hidden <==> HiddenBySummary(s.summaries, id) || HiddenByEvent(s.events[..n], id)
    {
      var e := s.events[n];
      assert s.events[..n + 1][..n] == s.events[..n] && s.events[..n + 1] == s.events[..n] + [e];
      HidingGrows(s.events[..n], e);
      if e.attemptId.Some? && (e.kind == AttemptRecovering || e.kind == AttemptFinished) {
        hidden := hidden + {e.attemptId.value};
      }
      if run.Some? && e.kind == RunCancelRequested && run.value.cancelRequestedAt.None? {
        run := Some(run.value.(cancelRequestedAt := Some(e.timestamp)));
      }
      if e.sequence <= s.cursor {
        if run.Some? && e.kind == RunFinished && CarriesOutcome(e) {
          run := Some(run.value.(status := e.status.value));
        }
        if run.Some? && run.value.status == Queued && e.kind == AttemptStarted {
          run := Some(run.value.(status := Running));
        }
      }
      attempts := OverlayAttempts(attempts, e, s.cursor, byId, s.events[..n]);
    }
    assert s.events[..|s.events|] == s.events;
  }

  method OverlayAttempts(current: seq<Attempt>, e: Event, cursor: nat, ghost byId: seq<Attempt>, ghost seen: seq<Event>)
    returns (attempts: seq<Attempt>)
    requires UniqueIds(byId) && current == OverlaidAttempts(byId, seen, cursor)
    ensures attempts == OverlaidAttempts(byId, seen + [e], cursor)
  {
    attempts := current;
    if e.sequence <= cursor {
      var attempt := if e.attemptId.Some? then FindAttempt(attempts, e.attemptId.value) else None;
      if attempt.Some? && e.kind == AttemptFinished && CarriesOutcome(e) {
        attempts := PutAttempt(attempts, attempt.value.(status := e.status.value));
      }
      if attempt.Some? && e.kind == AttemptStarted && !IsTerminal(attempt.value.status) {
        attempts := PutAttempt(attempts, attempt.value.(status := Running));
      }
      PuttingOverlays(current, attempts, byId, seen, e, cursor);
    } else {
      assert (seen + [e])[..|seen|] == seen;
    }
  }

  method ProjectWall(s: WallSnapshot) returns (projected: WallSnapshot)
    ensures projected == Project(s) && ShowsExactly(s, projected)
  {
    ViewersAreExact(s);
    var run, attempts, hidden := OverlayBuffer(s);
    var terminalSignal := exists e :: e in s.events && e.kind == RunFinished;
    projected := s.(run := run, attempts := attempts,
      sessions := seq(|s.sessions|, i requires 0 <= i < |s.sessions| =>
        var session := s.sessions[i];
        var found := FindAttempt(attempts, session.attemptId);
        var available := session.available && run.Some? && !IsTerminal(run.value.status) &&
          run.value.cancelRequestedAt.None? && !terminalSignal && session.attemptId !in hidden &&
          found.Some? && found.value.status == Running;
        Session(session.attemptId, available, if available then session.liveViewUrl else None)));
  }

  lemma HidingGrows(seen: seq<Event>, e: Event)
    ensures forall id :: HiddenByEvent(seen + [e], id) <==>
              HiddenByEvent(seen, id) || (e.attemptId == Some(id) && (e.kind == AttemptRecovering || e.kind == AttemptFinished))
  {
    assert forall o :: o in seen + [e] <==> o in seen || o == e;
  }

  /** Writing the one affected entry of the map is the pointwise overlay. */
  lemma PuttingOverlays(before: seq<Attempt>, after: seq<Attempt>, byId: seq<Attempt>, seen: seq<Event>, e: Event, cursor: nat)
    requires UniqueIds(byId) && before == OverlaidAttempts(byId, seen, cursor)
    requires e.sequence <= cursor
    requires var found := if e.attemptId.Some? then FindAttempt(before, e.attemptId.value) else None;
      after ==
        if found.Some? && e.kind == AttemptFinished && CarriesOutcome(e) then
          PutAttempt(before, found.value.(status := e.status.value))
        else if found.Some? && e.kind == AttemptStarted && !IsTerminal(found.value.status) then
          PutAttempt(before, found.value.(status := Running))
        else before
    ensures after == OverlaidAttempts(byId, seen + [e], cursor)
  {
    assert (seen + [e])[..|seen|] == seen;
    FoundIsTheOne(before, e.attemptId);
  }

  lemma FoundIsTheOne(attempts: seq<Attempt>, id: Option<Id>)
    requires UniqueIds(attempts)
    ensures var found := if id.Some? then FindAttempt(attempts, id.value) else None;
            forall i :: 0 <= i < |attempts| && id == Some(attempts[i].id) ==> found == Some(attempts[i])
  {
    if id.Some? {
      var found := FindAttempt(attempts, id.value);
      forall i | 0 <= i < |attempts| && attempts[i].id == id.value ensures found == Some(attempts[i]) {
        assert attempts[i] in attempts;
        var j :| 0 <= j < |attempts| && attempts[j] == found.value;
      }
    }
  }

  // ---- Closed forms ----

  predicate OpenStatus(status: Status) {
    status == Queued || status == Running
  }

  /** The status the last outcome within the cursor gives the run. */
  function LastRunOutcome(events: seq<Event>, cursor: nat): Option<Status> {
    if events == [] then None
    else
      var e := events[|events| - 1];
      if e.sequence <= cursor && e.kind == RunFinished && e.status.Some? && !OpenStatus(e.status.value) then e.status
      else LastRunOutcome(events[..|events| - 1], cursor)
  }

  function LastAttemptOutcome(events: seq<Event>, id: Id, cursor: nat): Option<Status> {
    if events == [] then None
    else
      var e := events[|events| - 1];
      if e.sequence <= cursor && e.attemptId == Some(id) && e.kind == AttemptFinished
         && e.status.Some? && !OpenStatus(e.status.value) then e.status
      else LastAttemptOutcome(events[..|events| - 1], id, cursor)
  }

  predicate Started(events: seq<Event>, cursor: nat) {
    exists e :: e in events && e.sequence <= cursor && e.kind == AttemptStarted
  }

  predicate AttemptStartedBy(events: seq<Event>, id: Id, cursor: nat) {
    exists e :: e in events && e.sequence <= cursor && e.kind == AttemptStarted && e.attemptId == Some(id)
  }

  function FirstCancel(events: seq<Event>): Option<Timestamp> {
    if events == [] then None
    else
      var before := FirstCancel(events[..|events| - 1]);
      var e := events[|events| - 1];
      if before.Some? then before else if e.kind == RunCancelRequested then Some(e.timestamp) else None
  }

  function Latest(outcome: Option<Status>, otherwise: Status): Status {
    if outcome.Some? then outcome.value else otherwise
  }

  lemma {:induction false} OverlaidRunIs(run: Run, events: seq<Event>, cursor: nat)
    ensures var r := OverlaidRun(run, events, cursor);
            && r.id == run.id && r.detail == run.detail
            && r.status == Latest(LastRunOutcome(events, cursor),
                                  if run.status == Queued && Started(events, cursor) then Running else run.status)
            && r.cancelRequestedAt == (if run.cancelRequestedAt.Some? then run.cancelRequestedAt else FirstCancel(events))
    ensures LastRunOutcome(events, cursor).Some? ==> IsTerminal(LastRunOutcome(events, cursor).value)
  {
    if events != [] {
      var n := |events| - 1;
      OverlaidRunIs(run, events[..n], cursor);
      assert events == events[..n] + [events[n]];
      StartedSplits(events[..n], events[n], cursor, run.id);
    }
  }

  lemma StartedSplits(before: seq<Event>, e: Event, cursor: nat, id: Id)
    ensures Started(before + [e], cursor) <==> Started(before, cursor) || (e.sequence <= cursor && e.kind == AttemptStarted)
    ensures AttemptStartedBy(before + [e], id, cursor) <==>
              AttemptStartedBy(before, id, cursor) || (e.sequence <= cursor && e.kind == AttemptStarted && e.attemptId == Some(id))
  {
    assert forall o :: o in before + [e] <==> o in before || o == e;
  }

  lemma {:induction false} OverlaidStatusIs(status: Status, id: Id, events: seq<Event>, cursor: nat)
    ensures OverlaidStatus(status, id, events, cursor) ==
            Latest(LastAttemptOutcome(events, id, cursor),
                   if OpenStatus(status) && AttemptStartedBy(events, id, cursor) then Running else status)
    ensures LastAttemptOutcome(events, id, cursor).Some? ==> IsTerminal(LastAttemptOutcome(events, id, cursor).value)
  {
    if events != [] {
      var n := |events| - 1;
      OverlaidStatusIs(status, id, events[..n], cursor);
      assert events == events[..n] + [events[n]];
      StartedSplits(events[..n], events[n], cursor, id);
    }
  }

  lemma {:induction false} ByIdKeepsUnique(attempts: seq<Attempt>)
    requires UniqueIds(attempts)
    ensures ById(attempts) == attempts
  {
    if attempts != [] {
      var n := |attempts| - 1;
      ByIdKeepsUnique(attempts[..n]);
      assert attempts == attempts[..n] + [attempts[n]];
      assert forall a :: a in attempts[..n] ==> a.id != attempts[n].id;
    }
  }

  /** A row of the list with no later one of its id. */
  ghost predicate IsLatest(attempts: seq<Attempt>, a: Attempt) {
    exists i :: 0 <= i < |attempts| && attempts[i] == a && NoLater(attempts, i, a.id)
  }

  ghost predicate NoLater(attempts: seq<Attempt>, i: int, id: Id) {
    forall j :: i < j < |attempts| && 0 <= j ==> attempts[j].id != id
  }

  lemma LatestSplits(front: seq<Attempt>, last: Attempt, a: Attempt)
    ensures IsLatest(front + [last], a) <==> a == last || (IsLatest(front, a) && a.id != last.id)
  {
    var all, n := front + [last], |front|;
    assert all[n] == last && forall i :: 0 <= i < n ==> all[i] == front[i];
    if a == last { assert NoLater(all, n, a.id); }
    if i :| 0 <= i < n && front[i] == a && NoLater(front, i, a.id) && a.id != last.id {
      assert all[i] == a && NoLater(all, i, a.id);
    }
    if i :| 0 <= i < n && all[i] == a && NoLater(all, i, a.id) {
      forall j | i < j < n ensures front[j].id != a.id { assert all[j] == front[j]; }
      assert front[i] == a && NoLater(front, i, a.id) && all[n].id != a.id;
    }
  }

  /** Of several rows with one id the last one counts. */
  lemma {:induction false} LatestRowsCount(attempts: seq<Attempt>, a: Attempt)
    ensures a in ById(attempts) <==> IsLatest(attempts, a)
  {
    if attempts != [] {
      var front, last := attempts[..|attempts| - 1], attempts[|attempts| - 1];
      assert attempts == front + [last];
      LatestRowsCount(front, a);
      LatestSplits(front, last, a);
      PutKeepsOthers(ById(front), last, a);
    }
  }

  lemma PutKeepsOthers(attempts: seq<Attempt>, attempt: Attempt, a: Attempt)
    requires UniqueIds(attempts)
    ensures a in PutAttempt(attempts, attempt) <==> a == attempt || (a in attempts && a.id != attempt.id)
  {
    var put := PutAttempt(attempts, attempt);
    if a in attempts && a.id != attempt.id {
      var i :| 0 <= i < |attempts| && attempts[i] == a;
      assert put[i] == a;
    }
    if o :| o in attempts && o.id == attempt.id {
      var i :| 0 <= i < |attempts| && attempts[i] == o;
      assert put[i] == attempt;
    }
    if a in put {
      var i :| 0 <= i < |put| && put[i] == a;
    }
  }

  lemma FindInUnique(attempts: seq<Attempt>, i: nat)
    requires UniqueIds(attempts) && i < |attempts|
    ensures FindAttempt(attempts, attempts[i].id) == Some(attempts[i])
  {
    assert attempts[i] in attempts;
    var found := FindAttempt(attempts, attempts[i].id);
    var j :| 0 <= j < |attempts| && attempts[j] == found.value;
  }

  /** Fields the projection neither reads nor writes pass through it. */
  lemma ProjectKeepsFrame(s: WallSnapshot, connection: Connection, error: Option<Notice>, finalizing: bool)
    ensures Project(s.(connection := connection, error := error, finalizing := finalizing)) ==
            Project(s).(connection := connection, error := error, finalizing := finalizing)
  {
    var t := s.(connection := connection, error := error, finalizing := finalizing);
    assert Project(t).sessions == Project(s).sessions;
  }

  // ---- Idempotence, for every snapshot ----

  lemma ProjectionIsIdempotent(s: WallSnapshot)
    ensures Project(Project(s)) == Project(s)
  {
    var p := Project(s);
    if s.run.Some? { OverlaidRunTwice(s.run.value, s.events, s.cursor); }
    OverlaidAttemptsTwice(s.attempts, s.events, s.cursor);
    assert Project(p).run == p.run && Project(p).attempts == p.attempts;
    assert Project(p).sessions == p.sessions;
  }

  lemma OverlaidRunTwice(run: Run, events: seq<Event>, cursor: nat)
    ensures OverlaidRun(OverlaidRun(run, events, cursor), events, cursor) == OverlaidRun(run, events, cursor)
  {
    OverlaidRunIs(run, events, cursor);
    OverlaidRunIs(OverlaidRun(run, events, cursor), events, cursor);
  }

  lemma OverlaidAttemptsTwice(attempts: seq<Attempt>, events: seq<Event>, cursor: nat)
    ensures var once := OverlaidAttempts(ById(attempts), events, cursor);
            OverlaidAttempts(ById(once), events, cursor) == once
  {
    var once := OverlaidAttempts(ById(attempts), events, cursor);
    ByIdKeepsUnique(once);
    forall i | 0 <= i < |once| ensures OverlaidStatus(once[i].status, once[i].id, events, cursor) == once[i].status {
      var a := ById(attempts)[i];
      OverlaidStatusIs(a.status, a.id, events, cursor);
      OverlaidStatusIs(once[i].status, a.id, events, cursor);
    }
    assert OverlaidAttempts(once, events, cursor) == once;
  }

  // ---- The rows a read returns: the log folded up to the position of the read ----

  function RunRow(run: Run, log: seq<Event>): Run {
    if log == [] then run
    else
      var before := RunRow(run, log[..|log| - 1]);
      var e := log[|log| - 1];
      var cancelled := if e.kind == RunCancelRequested && before.cancelRequestedAt.None?
                       then before.(cancelRequestedAt := Some(e.timestamp)) else before;
      if IsTerminal(before.status) then cancelled
      else if e.kind == RunFinished && CarriesOutcome(e) then cancelled.(status := e.status.value)
      else if e.kind == AttemptStarted then cancelled.(status := Running)
      else cancelled
  }

  /** The row as it is read: the repository stamps the row and the event of a cancellation each with its own time. */
  function ReadRow(run: Run, log: seq<Event>, cancelledAt: Timestamp): Run {
    var row := RunRow(run, log);
    if run.cancelRequestedAt.None? && row.cancelRequestedAt.Some? then row.(cancelRequestedAt := Some(cancelledAt)) else row
  }

  function AttemptRow(status: Status, id: Id, log: seq<Event>): Status {
    if log == [] then status
    else
      var before := AttemptRow(status, id, log[..|log| - 1]);
      var e := log[|log| - 1];
      if IsTerminal(before) || e.attemptId != Some(id) then before
      else if e.kind == AttemptFinished && CarriesOutcome(e) then e.status.value
      else if e.kind == AttemptStarted then Running
      else before
  }

  predicate EndsRun(e: Event) {
    e.kind == RunFinished && e.status.Some? && !OpenStatus(e.status.value)
  }

  predicate EndsAttempt(e: Event, id: Id) {
    e.kind == AttemptFinished && e.attemptId == Some(id) && e.status.Some? && !OpenStatus(e.status.value)
  }

  /** Terminal outcomes are immutable: no two of them in the log disagree. */
  predicate RunOutcomesAgree(log: seq<Event>) {
    forall e, f :: e in log && f in log && EndsRun(e) && EndsRun(f) ==> e.status == f.status
  }

  predicate AttemptOutcomesAgree(log: seq<Event>, id: Id) {
    forall e, f :: e in log && f in log && EndsAttempt(e, id) && EndsAttempt(f, id) ==> e.status == f.status
  }

  predicate RunEnded(events: seq<Event>, cursor: nat) {
    exists e :: e in events && e.sequence <= cursor && EndsRun(e)
  }

  predicate AttemptEnded(events: seq<Event>, id: Id, cursor: nat) {
    exists e :: e in events && e.sequence <= cursor && EndsAttempt(e, id)
  }

  lemma EndedSplits(before: seq<Event>, e: Event, cursor: nat, id: Id)
    ensures RunEnded(before + [e], cursor) <==> RunEnded(before, cursor) || (e.sequence <= cursor && EndsRun(e))
    ensures AttemptEnded(before + [e], id, cursor) <==>
              AttemptEnded(before, id, cursor) || (e.sequence <= cursor && EndsAttempt(e, id))
  {
    assert forall o :: o in before + [e] <==> o in before || o == e;
  }

  /** Within its own length every event of the log counts. */
  lemma WholePrefixCounts(log: seq<Event>, n: nat, cursor: nat, runId: Id, id: Id)
    requires IsLog(log, runId) && n <= |log| && n <= cursor
    ensures Started(log[..n], cursor) == Started(log[..n], n)
    ensures RunEnded(log[..n], cursor) == RunEnded(log[..n], n)
    ensures AttemptStartedBy(log[..n], id, cursor) == AttemptStartedBy(log[..n], id, n)
    ensures AttemptEnded(log[..n], id, cursor) == AttemptEnded(log[..n], id, n)
  {
    assert forall e :: e in log[..n] ==> e.sequence <= n;
  }

  /** Reading one more event of the log. */
  lemma PrefixStep(log: seq<Event>, n: nat, runId: Id, id: Id)
    requires IsLog(log, runId) && 0 < n <= |log|
    ensures log[..n][..n - 1] == log[..n - 1] && log[..n][n - 1] == log[n - 1] && log[n - 1] in log[..n]
    ensures forall e :: e in log[..n - 1] ==> e in log[..n]
    ensures Started(log[..n], n) <==> Started(log[..n - 1], n - 1) || log[n - 1].kind == AttemptStarted
    ensures AttemptStartedBy(log[..n], id, n) <==>
              AttemptStartedBy(log[..n - 1], id, n - 1) || (log[n - 1].kind == AttemptStarted && log[n - 1].attemptId == Some(id))
    ensures RunEnded(log[..n], n) <==> RunEnded(log[..n - 1], n - 1) || EndsRun(log[n - 1])
    ensures AttemptEnded(log[..n], id, n) <==> AttemptEnded(log[..n - 1], id, n - 1) || EndsAttempt(log[n - 1], id)
  {
    var before, e := log[..n - 1], log[n - 1];
    assert log[..n][..n - 1] == before && log[..n] == before + [e];
    StartedSplits(before, e, n, id);
    EndedSplits(before, e, n, id);
    WholePrefixCounts(log, n - 1, n, runId, id);
  }

  /** The row of a queued run: an outcome of the log if there is one, running once an attempt started, queued before. */
  lemma RunRowIs(run: Run, log: seq<Event>, n: nat)
    requires IsLog(log, run.id) && n <= |log| && run.status == Queued
    ensures var r := RunRow(run, log[..n]);
            && r.id == run.id && r.detail == run.detail
            && r.cancelRequestedAt == (if run.cancelRequestedAt.Some? then run.cancelRequestedAt else FirstCancel(log[..n]))
            && (!RunEnded(log[..n], n) ==> r.status == if Started(log[..n], n) then Running else Queued)
            && (RunEnded(log[..n], n) ==> IsTerminal(r.status) && exists e :: e in log[..n] && EndsRun(e) && e.status == Some(r.status))
  {
    RowFrameIs(run, log, n);
    RowStatusIs(run, log, n);
  }

  lemma {:induction false} RowFrameIs(run: Run, log: seq<Event>, n: nat)
    requires n <= |log|
    ensures var r := RunRow(run, log[..n]);
            && r.id == run.id && r.detail == run.detail
            && r.cancelRequestedAt == (if run.cancelRequestedAt.Some? then run.cancelRequestedAt else FirstCancel(log[..n]))
  {
    if n > 0 {
      RowFrameIs(run, log, n - 1);
      assert log[..n][..n - 1] == log[..n - 1];
    }
  }

  lemma {:induction false} RowStatusIs(run: Run, log: seq<Event>, n: nat)
    requires IsLog(log, run.id) && n <= |log| && run.status == Queued
    ensures var r := RunRow(run, log[..n]);
            && (!RunEnded(log[..n], n) ==> r.status == if Started(log[..n], n) then Running else Queued)
            && (RunEnded(log[..n], n) ==> IsTerminal(r.status) && exists e :: e in log[..n] && EndsRun(e) && e.status == Some(r.status))
  {
    if n > 0 {
      RowStatusIs(run, log, n - 1);
      PrefixStep(log, n, run.id, run.id);
    }
  }

  lemma {:induction false} AttemptRowIs(id: Id, log: seq<Event>, n: nat, runId: Id)
    requires IsLog(log, runId) && n <= |log|
    ensures var r := AttemptRow(Queued, id, log[..n]);
            && (!AttemptEnded(log[..n], id, n) ==> r == if AttemptStartedBy(log[..n], id, n) then Running else Queued)
            && (AttemptEnded(log[..n], id, n) ==> IsTerminal(r) && exists e :: e in log[..n] && EndsAttempt(e, id) && e.status == Some(r))
  {
    if n > 0 {
      AttemptRowIs(id, log, n - 1, runId);
      PrefixStep(log, n, runId, id);
    }
  }

  lemma {:induction false} LastOutcomeIsMember(events: seq<Event>, cursor: nat)
    ensures LastRunOutcome(events, cursor).Some? <==> RunEnded(events, cursor)
    ensures LastRunOutcome(events, cursor).Some? ==>
              exists e :: e in events && EndsRun(e) && e.status == LastRunOutcome(events, cursor)
  {
    if events != [] {
      var n := |events| - 1;
      LastOutcomeIsMember(events[..n], cursor);
      assert events == events[..n] + [events[n]];
      EndedSplits(events[..n], events[n], cursor, "");
      assert events[n] in events && forall e :: e in events[..n] ==> e in events;
    }
  }

  lemma {:induction false} LastAttemptOutcomeIsMember(events: seq<Event>, id: Id, cursor: nat)
    ensures LastAttemptOutcome(events, id, cursor).Some? <==> AttemptEnded(events, id, cursor)
    ensures LastAttemptOutcome(events, id, cursor).Some? ==>
              exists e :: e in events && EndsAttempt(e, id) && e.status == LastAttemptOutcome(events, id, cursor)
  {
    if events != [] {
      var n := |events| - 1;
      LastAttemptOutcomeIsMember(events[..n], id, cursor);
      assert events == events[..n] + [events[n]];
      EndedSplits(events[..n], events[n], cursor, id);
      assert events[n] in events && forall e :: e in events[..n] ==> e in events;
    }
  }

  /** The buffer holds the whole prefix up to its cursor (and perhaps more of the log beyond a gap). */
  ghost predicate HoldsPrefix(events: seq<Event>, log: seq<Event>, cursor: nat) {
    && Selects(events, log) && cursor <= |log|
    && forall k :: 0 <= k < cursor ==> log[k] in events
  }

  lemma BufferShowsPrefix(events: seq<Event>, log: seq<Event>, cursor: nat, runId: Id, id: Id)
    requires IsLog(log, runId) && HoldsPrefix(events, log, cursor)
    ensures Started(events, cursor) == Started(log[..cursor], cursor)
    ensures RunEnded(events, cursor) == RunEnded(log[..cursor], cursor)
    ensures AttemptStartedBy(events, id, cursor) == AttemptStartedBy(log[..cursor], id, cursor)
    ensures AttemptEnded(events, id, cursor) == AttemptEnded(log[..cursor], id, cursor)
  {
    forall e: Event | e.sequence <= cursor ensures e in events <==> e in log[..cursor] {
      if e in events { assert log[..cursor][e.sequence - 1] == e; }
    }
  }

  lemma PrefixGrows(log: seq<Event>, a: nat, b: nat, id: Id)
    requires a <= b <= |log|
    ensures Started(log[..a], a) ==> Started(log[..b], b)
    ensures RunEnded(log[..a], a) ==> RunEnded(log[..b], b)
    ensures AttemptStartedBy(log[..a], id, a) ==> AttemptStartedBy(log[..b], id, b)
    ensures AttemptEnded(log[..a], id, a) ==> AttemptEnded(log[..b], id, b)
  {
    assert forall e :: e in log[..a] ==> e in log[..b];
  }

  /** Stale reads never win: a run read at position k, overlaid up to cursor c, has the status of position max(k, c). */
  lemma StaleRunReadsNeverWin(run: Run, log: seq<Event>, k: nat, events: seq<Event>, c: nat)
    requires IsLog(log, run.id) && RunOutcomesAgree(log) && run.status == Queued
    requires k <= |log| && HoldsPrefix(events, log, c)
    ensures OverlaidRun(RunRow(run, log[..k]), events, c).status == RunRow(run, log[..Max(k, c)]).status
  {
    RunRowIs(run, log, k);
    RunRowIs(run, log, c);
    OverlaidRunIs(RunRow(run, log[..k]), events, c);
    LastOutcomeIsMember(events, c);
    BufferShowsPrefix(events, log, c, run.id, run.id);
    PrefixGrows(log, Min(k, c), Max(k, c), run.id);
    assert forall e :: e in log[..k] || e in log[..c] || e in events ==> e in log;
  }

  /** The same for every attempt. */
  lemma StaleAttemptReadsNeverWin(id: Id, log: seq<Event>, k: nat, events: seq<Event>, c: nat, runId: Id)
    requires IsLog(log, runId) && AttemptOutcomesAgree(log, id)
    requires k <= |log| && HoldsPrefix(events, log, c)
    ensures OverlaidStatus(AttemptRow(Queued, id, log[..k]), id, events, c) == AttemptRow(Queued, id, log[..Max(k, c)])
  {
    AttemptRowIs(id, log, k, runId);
    AttemptRowIs(id, log, c, runId);
    OverlaidStatusIs(AttemptRow(Queued, id, log[..k]), id, events, c);
    LastAttemptOutcomeIsMember(events, id, c);
    BufferShowsPrefix(events, log, c, runId, id);
    PrefixGrows(log, Min(k, c), Max(k, c), id);
    assert forall e :: e in log[..k] || e in log[..c] || e in events ==> e in log;
  }

  /** The whole run row when the buffer is the prefix itself: whether it is cancelled, too, is as of the later position.
      The time is that of the row exactly unless the overlay cancelled it with an event of another time. */
  lemma StaleRunNeverWins(run: Run, log: seq<Event>, k: nat, c: nat, cancelledAt: Timestamp)
    requires IsLog(log, run.id) && RunOutcomesAgree(log) && run.status == Queued && run.cancelRequestedAt.None?
    requires k <= |log| && c <= |log|
    ensures var shown := OverlaidRun(ReadRow(run, log[..k], cancelledAt), log[..c], c);
            var later := ReadRow(run, log[..Max(k, c)], cancelledAt);
            && shown.(cancelRequestedAt := None) == later.(cancelRequestedAt := None)
            && (shown.cancelRequestedAt.Some? <==> later.cancelRequestedAt.Some?)
            && (shown == later <==>
                  FirstCancel(log[..k]).Some? || FirstCancel(log[..c]).None? || FirstCancel(log[..c]) == Some(cancelledAt))
  {
    ReadRowIs(run, log, k, cancelledAt);
    ReadRowIs(run, log, Max(k, c), cancelledAt);
    StaleStatusNeverWins(run, log, k, c, cancelledAt);
    OverlaidRunIs(ReadRow(run, log[..k], cancelledAt), log[..c], c);
    FirstCancelGrows(log, Min(k, c), Max(k, c));
  }

  lemma StaleStatusNeverWins(run: Run, log: seq<Event>, k: nat, c: nat, cancelledAt: Timestamp)
    requires IsLog(log, run.id) && RunOutcomesAgree(log) && run.status == Queued && k <= |log| && c <= |log|
    ensures OverlaidRun(ReadRow(run, log[..k], cancelledAt), log[..c], c).status == RunRow(run, log[..Max(k, c)]).status
  {
    assert forall i :: 0 <= i < c ==> log[..c][i] == log[i] && log[i] in log[..c];
    StaleRunReadsNeverWin(run, log, k, log[..c], c);
    OverlaidRunIs(RunRow(run, log[..k]), log[..c], c);
    OverlaidRunIs(ReadRow(run, log[..k], cancelledAt), log[..c], c);
  }

  /** A row keeps the run's identity and detail, and is cancelled once the log has a cancellation. */
  lemma ReadRowIs(run: Run, log: seq<Event>, n: nat, cancelledAt: Timestamp)
    requires IsLog(log, run.id) && run.status == Queued && run.cancelRequestedAt.None? && n <= |log|
    ensures ReadRow(run, log[..n], cancelledAt) ==
            Run(run.id, RunRow(run, log[..n]).status, if FirstCancel(log[..n]).Some? then Some(cancelledAt) else None, run.detail)
  {
    RunRowIs(run, log, n);
  }

  lemma {:induction false} FirstCancelGrows(log: seq<Event>, a: nat, b: nat)
    requires a <= b <= |log|
    ensures FirstCancel(log[..a]).Some? ==> FirstCancel(log[..b]) == FirstCancel(log[..a])
    decreases b - a
  {
    if a < b {
      FirstCancelGrows(log, a, b - 1);
      assert log[..b][..b - 1] == log[..b - 1];
    }
  }

  /** Without agreement the claim fails at the position of a disagreeing outcome: agreement is exactly what it needs. */
  lemma OutcomesMustAgree(run: Run, log: seq<Event>)
    requires IsLog(log, run.id) && run.status == Queued && run.cancelRequestedAt.None?
    ensures RunOutcomesAgree(log) <==>
            forall k, c :: 0 <= k <= |log| && 0 <= c <= |log| ==>
              OverlaidRun(RunRow(run, log[..k]), log[..c], c).status == RunRow(run, log[..Max(k, c)]).status
  {
    if RunOutcomesAgree(log) {
      forall k, c | 0 <= k <= |log| && 0 <= c <= |log|
        ensures OverlaidRun(RunRow(run, log[..k]), log[..c], c).status == RunRow(run, log[..Max(k, c)]).status
      {
        assert forall i :: 0 <= i < c ==> log[..c][i] == log[i] && log[i] in log[..c];
        StaleRunReadsNeverWin(run, log, k, log[..c], c);
      }
    } else {
      var e, f :| e in log && f in log && EndsRun(e) && EndsRun(f) && e.status != f.status;
      DisagreementShows(run, log, Min(e.sequence, f.sequence), Max(e.sequence, f.sequence));
    }
  }

  /** Two outcomes that disagree: the row keeps the first, the overlay shows the last. */
  lemma DisagreementShows(run: Run, log: seq<Event>, i: nat, j: nat)
    requires IsLog(log, run.id) && 0 < i < j <= |log|
    requires EndsRun(log[i - 1]) && EndsRun(log[j - 1]) && log[i - 1].status != log[j - 1].status
    ensures exists n :: 0 <= n <= |log| &&
              OverlaidRun(RunRow(run, log[..n]), log[..n], n).status != RunRow(run, log[..Max(n, n)]).status
  {
    RowKeepsOutcome(run, log, i);
    RowKeepsOutcome(run, log, j);
    OutcomeStays(run, log, i, j);
    OverlaidRunIs(RunRow(run, log[..i]), log[..i], i);
    OverlaidRunIs(RunRow(run, log[..j]), log[..j], j);
    assert Max(i, i) == i && Max(j, j) == j;
  }

  lemma RowKeepsOutcome(run: Run, log: seq<Event>, n: nat)
    requires IsLog(log, run.id) && 0 < n <= |log| && EndsRun(log[n - 1])
    ensures IsTerminal(RunRow(run, log[..n]).status)
    ensures LastRunOutcome(log[..n], n) == log[n - 1].status
  {
    assert log[..n][..n - 1] == log[..n - 1];
  }

  lemma {:induction false} OutcomeStays(run: Run, log: seq<Event>, a: nat, b: nat)
    requires a <= b <= |log| && IsTerminal(RunRow(run, log[..a]).status)
    ensures RunRow(run, log[..b]).status == RunRow(run, log[..a]).status
    decreases b - a
  {
    if a < b {
      OutcomeStays(run, log, a, b - 1);
      assert log[..b][..b - 1] == log[..b - 1];
    }
  }

  // ---- Projecting again as the buffer grows ----

  /** A later buffer holds everything of an earlier one, and its cursor is no smaller. */
  ghost predicate Extends(later: WallSnapshot, earlier: WallSnapshot) {
    && earlier.cursor <= later.cursor
    && forall e :: e in earlier.events ==> e in later.events
  }

  ghost function Regrown(s: WallSnapshot, later: WallSnapshot): WallSnapshot {
    s.(events := later.events, cursor := later.cursor)
  }

  /** What the controller does between two reads: project, let the buffer grow, project what was shown, and so on. */
  ghost function Repeated(s: WallSnapshot, laters: seq<WallSnapshot>): WallSnapshot {
    if laters == [] then Project(s)
    else Project(Regrown(Repeated(s, laters[..|laters| - 1]), laters[|laters| - 1]))
  }

  /** The same reads over the buffer at the end. */
  ghost function AtTheEnd(s: WallSnapshot, laters: seq<WallSnapshot>): WallSnapshot {
    if laters == [] then s else Regrown(s, laters[|laters| - 1])
  }

  ghost predicate Growing(s: WallSnapshot, laters: seq<WallSnapshot>) {
    laters == [] ||
    (Growing(s, laters[..|laters| - 1]) && Extends(laters[|laters| - 1], AtTheEnd(s, laters[..|laters| - 1])))
  }

  predicate SameStatuses(a: WallSnapshot, b: WallSnapshot) {
    && a.attempts == b.attempts
    && a.run.Some? == b.run.Some?
    && (a.run.Some? ==> a.run.value.status == b.run.value.status)
    && (a.run.Some? ==> (a.run.value.cancelRequestedAt.Some? <==> b.run.value.cancelRequestedAt.Some?))
  }

  lemma OutcomeGrows(small: seq<Event>, c: nat, large: seq<Event>, d: nat, id: Id)
    requires c <= d && forall e :: e in small ==> e in large
    ensures LastRunOutcome(small, c).Some? ==> LastRunOutcome(large, d).Some?
    ensures LastAttemptOutcome(small, id, c).Some? ==> LastAttemptOutcome(large, id, d).Some?
  {
    LastOutcomeIsMember(small, c);
    LastOutcomeIsMember(large, d);
    LastAttemptOutcomeIsMember(small, id, c);
    LastAttemptOutcomeIsMember(large, id, d);
  }

  lemma OneMoreProjection(s: WallSnapshot, later: WallSnapshot)
    requires Extends(later, s)
    ensures SameStatuses(Project(Regrown(Project(s), later)), Project(Regrown(s, later)))
  {
    var p := Project(s);
    var step, scratch := Project(Regrown(p, later)), Project(Regrown(s, later));
    if s.run.Some? {
      OverlaidRunIs(s.run.value, s.events, s.cursor);
      OverlaidRunIs(s.run.value, later.events, later.cursor);
      OverlaidRunIs(p.run.value, later.events, later.cursor);
      OutcomeGrows(s.events, s.cursor, later.events, later.cursor, "");
      FirstCancelIs(s.events);
      FirstCancelIs(later.events);
    }
    ByIdKeepsUnique(p.attempts);
    var base := ById(s.attempts);
    forall i | 0 <= i < |base| ensures step.attempts[i] == scratch.attempts[i] {
      var a := base[i];
      OverlaidStatusIs(a.status, a.id, s.events, s.cursor);
      OverlaidStatusIs(a.status, a.id, later.events, later.cursor);
      OverlaidStatusIs(p.attempts[i].status, a.id, later.events, later.cursor);
      OutcomeGrows(s.events, s.cursor, later.events, later.cursor, a.id);
    }
  }

  /** Projection sees of the earlier state its statuses only. */
  lemma StatusesDecide(a: WallSnapshot, b: WallSnapshot)
    requires SameStatuses(a, b) && a.events == b.events && a.cursor == b.cursor
    ensures SameStatuses(Project(a), Project(b))
  {
    if a.run.Some? {
      OverlaidRunIs(a.run.value, a.events, a.cursor);
      OverlaidRunIs(b.run.value, b.events, b.cursor);
    }
  }

  /** However often the state was projected while the buffer grew, its statuses are those of one projection from scratch. */
  lemma {:induction false} IncrementalEqualsScratch(s: WallSnapshot, laters: seq<WallSnapshot>)
    requires Growing(s, laters)
    ensures SameStatuses(Repeated(s, laters), Project(AtTheEnd(s, laters)))
    decreases |laters|
  {
    if laters != [] {
      var front, last := laters[..|laters| - 1], laters[|laters| - 1];
      var before := AtTheEnd(s, front);
      IncrementalEqualsScratch(s, front);
      StatusesDecide(Regrown(Repeated(s, front), last), Regrown(Project(before), last));
      OneMoreProjection(before, last);
      assert Regrown(before, last) == AtTheEnd(s, laters);
    }
  }

  lemma {:induction false} FirstCancelIs(events: seq<Event>)
    ensures FirstCancel(events).Some? <==> exists e :: e in events && e.kind == RunCancelRequested
  {
    if events != [] {
      var n := |events| - 1;
      FirstCancelIs(events[..n]);
      assert events == events[..n] + [events[n]];
    }
  }

  predicate RunningIn(p: WallSnapshot, attemptId: Id) {
    FindAttempt(p.attempts, attemptId).Some? && FindAttempt(p.attempts, attemptId).value.status == Running
  }

  lemma ViewersAfterOneMore(s: WallSnapshot, later: WallSnapshot, i: nat)
    requires Extends(later, s) && i < |s.sessions|
    ensures var step := Project(Regrown(Project(s), later)).sessions[i];
            var scratch := Project(Regrown(s, later)).sessions[i];
            step.available <==> scratch.available && RunningIn(Project(s), s.sessions[i].attemptId)
  {
    OneMoreProjection(s, later);
    var p := Project(s);
    var id := s.sessions[i].attemptId;
    if s.run.Some? {
      OverlaidRunIs(s.run.value, s.events, s.cursor);
      OverlaidRunIs(s.run.value, later.events, later.cursor);
      OutcomeGrows(s.events, s.cursor, later.events, later.cursor, id);
      FirstCancelIs(s.events);
      FirstCancelIs(later.events);
    }
  }

  lemma StatusesDecideViewers(a: WallSnapshot, b: WallSnapshot, i: nat)
    requires SameStatuses(a, b) && a.events == b.events && a.cursor == b.cursor && a.summaries == b.summaries
    requires i < |a.sessions| && i < |b.sessions| && a.sessions[i].attemptId == b.sessions[i].attemptId
    ensures b.sessions[i].available ==> (Project(a).sessions[i].available <==> a.sessions[i].available && Project(b).sessions[i].available)
    ensures !a.sessions[i].available ==> !Project(a).sessions[i].available
    ensures !b.sessions[i].available ==> !Project(b).sessions[i].available
  {
    StatusesDecide(a, b);
  }

  lemma {:induction false} RepeatedKeeps(s: WallSnapshot, laters: seq<WallSnapshot>)
    ensures var p := Repeated(s, laters);
            && p.summaries == s.summaries && |p.sessions| == |s.sessions|
            && forall i :: 0 <= i < |s.sessions| ==> p.sessions[i].attemptId == s.sessions[i].attemptId
  {
    if laters != [] { RepeatedKeeps(s, laters[..|laters| - 1]); }
  }

  /** The attempt was running in every earlier projection. */
  ghost predicate RunningThroughout(s: WallSnapshot, laters: seq<WallSnapshot>, attemptId: Id) {
    forall k :: 0 <= k < |laters| ==> RunningIn(Repeated(s, laters[..k]), attemptId)
  }

  lemma ThroughoutSplits(s: WallSnapshot, laters: seq<WallSnapshot>, attemptId: Id)
    requires laters != []
    ensures var front := laters[..|laters| - 1];
            RunningThroughout(s, laters, attemptId) <==>
              RunningThroughout(s, front, attemptId) && RunningIn(Repeated(s, front), attemptId)
  {
    var front := laters[..|laters| - 1];
    assert forall k :: 0 <= k <= |front| ==> laters[..k] == front[..k];
    assert front[..|front|] == front;
  }

  /** One more projection, of a state with the statuses of `Project(before)`. */
  lemma ViewersGoOn(t: WallSnapshot, before: WallSnapshot, last: WallSnapshot, i: nat)
    requires Extends(last, before) && SameStatuses(t, Project(before)) && t.summaries == before.summaries
    requires i < |t.sessions| && i < |before.sessions| && t.sessions[i].attemptId == before.sessions[i].attemptId
    requires t.sessions[i].available ==> Project(before).sessions[i].available
    ensures var shown := Project(Regrown(before, last)).sessions[i].available;
            var running := RunningIn(t, before.sessions[i].attemptId);
            && (Project(Regrown(t, last)).sessions[i].available <==> t.sessions[i].available && shown)
            && (t.sessions[i].available ==> running)
            && (shown && running ==> Project(before).sessions[i].available)
  {
    StatusesDecideViewers(Regrown(t, last), Regrown(Project(before), last), i);
    ViewersAfterOneMore(before, last, i);
  }

  /** The viewer is still shown exactly when one projection from scratch would show it, and the attempt was running in
      every earlier projection. */
  lemma {:induction false} IncrementalViewers(s: WallSnapshot, laters: seq<WallSnapshot>, i: nat)
    requires Growing(s, laters) && i < |s.sessions|
    ensures i < |Repeated(s, laters).sessions|
    ensures Repeated(s, laters).sessions[i].available <==>
              Project(AtTheEnd(s, laters)).sessions[i].available && RunningThroughout(s, laters, s.sessions[i].attemptId)
    decreases |laters|
  {
    RepeatedKeeps(s, laters);
    if laters != [] {
      var front, last := laters[..|laters| - 1], laters[|laters| - 1];
      RepeatedKeeps(s, front);
      IncrementalViewers(s, front, i);
      IncrementalEqualsScratch(s, front);
      ViewersGoOn(Repeated(s, front), AtTheEnd(s, front), last, i);
      ThroughoutSplits(s, laters, s.sessions[i].attemptId);
      assert Regrown(AtTheEnd(s, front), last) == AtTheEnd(s, laters);
    }
  }

  const LATE_START := Event("run", 1, Some("a"), "t", AttemptStarted, None, "")
  const BEFORE_START := EMPTY_WALL.(run := Some(Run("run", Queued, None, "")), attempts := [Attempt("a", Queued, "")],
                                    sessions := [Session("a", true, Some("url"))])
  const AFTER_START := EMPTY_WALL.(events := [LATE_START], cursor := 1)

  lemma LateStartFromScratch()
    ensures Project(Regrown(BEFORE_START, AFTER_START)).sessions[0].available
  {
    var s := Regrown(BEFORE_START, AFTER_START);
    var run := OverlaidRun(s.run.value, s.events, s.cursor);
    var attempts := OverlaidAttempts(ById(s.attempts), s.events, s.cursor);
    ByIdKeepsUnique(s.attempts);
    assert s.events == [LATE_START];
    OverlaidStatusIs(Queued, "a", s.events, 1);
    assert LATE_START in s.events;
    assert attempts[0] == Attempt("a", Running, "");
    FindInUnique(attempts, 0);
    OverlaidRunIs(s.run.value, s.events, 1);
    FirstCancelIs(s.events);
    assert run.status == Running && run.cancelRequestedAt.None?;
    assert Viewable(s, Some(run), attempts, "a");
  }

  lemma LateStartAtFirst()
    ensures Project(BEFORE_START).attempts == BEFORE_START.attempts
  {
    ByIdKeepsUnique(BEFORE_START.attempts);
    assert OverlaidStatus(Queued, "a", [], 0) == Queued;
  }

  /** So the viewers alone are not the same: an attempt that starts later keeps its viewer only from scratch. */
  lemma IncrementalViewersCanDiffer()
    ensures Extends(AFTER_START, BEFORE_START)
    ensures Project(Regrown(BEFORE_START, AFTER_START)).sessions[0].available
    ensures !Project(Regrown(Project(BEFORE_START), AFTER_START)).sessions[0].available
  {
    LateStartFromScratch();
    LateStartAtFirst();
    FindInUnique(BEFORE_START.attempts, 0);
    ViewersAfterOneMore(BEFORE_START, AFTER_START, 0);
  }

  // ---- The viewer latch ----

  /** The run is finished, or the attempt is finished or recovering, by some event of the buffer, gap or not. */
  ghost predicate Blocks(s: WallSnapshot, attemptId: Id) {
    exists e :: e in s.events &&
      (e.kind == RunFinished || (e.attemptId == Some(attemptId) && (e.kind == AttemptFinished || e.kind == AttemptRecovering)))
  }

  /** Launched or about to be, by every summary of the attempt: not recovering, quarantined or settled. */
  predicate SummariesAllow(summaries: seq<Summary>, attemptId: Id) {
    forall x :: x in summaries && x.attemptId == attemptId ==>
      x.launchState == NotLaunched || x.launchState == Intent || x.launchState == Active
  }

  /** Who may be watched in the projection `p` of a wall `s`: a running attempt of an open run that neither the read nor an
      event cancelled, with no event that blocks it and no summary that does not allow it. */
  ghost predicate MayWatch(s: WallSnapshot, p: WallSnapshot, attemptId: Id) {
    && p.run.Some? && OpenStatus(p.run.value.status)
    && s.run.Some? && s.run.value.cancelRequestedAt.None? && (forall e :: e in s.events ==> e.kind != RunCancelRequested)
    && !Blocks(s, attemptId) && SummariesAllow(s.summaries, attemptId)
    && exists a :: a in p.attempts && a.id == attemptId && a.status == Running
  }

  /** A session is shown as available, with its URL, exactly when it was read so and may be watched. */
  ghost predicate ShowsExactly(s: WallSnapshot, p: WallSnapshot) {
    && |p.sessions| == |s.sessions|
    && forall i :: 0 <= i < |s.sessions| ==>
         var shown := s.sessions[i].available && MayWatch(s, p, s.sessions[i].attemptId);
         p.sessions[i] == Session(s.sessions[i].attemptId, shown, if shown then s.sessions[i].liveViewUrl else None)
  }

  lemma RunningIsFound(attempts: seq<Attempt>, id: Id)
    requires UniqueIds(attempts)
    ensures (FindAttempt(attempts, id).Some? && FindAttempt(attempts, id).value.status == Running) <==>
      exists a :: a in attempts && a.id == id && a.status == Running
  {
    if a :| a in attempts && a.id == id && a.status == Running {
      var i :| 0 <= i < |attempts| && attempts[i] == a;
      FindInUnique(attempts, i);
    }
  }

  lemma ViewableIsWatchable(s: WallSnapshot, attemptId: Id)
    ensures var p := Project(s); Viewable(s, p.run, p.attempts, attemptId) <==> MayWatch(s, p, attemptId)
  {
    var p := Project(s);
    RunningIsFound(p.attempts, attemptId);
    BlockedByEvents(s, attemptId);
    if s.run.Some? { ProjectedCancelIs(s); }
  }

  lemma BlockedByEvents(s: WallSnapshot, attemptId: Id)
    ensures Blocks(s, attemptId) <==> FinishSignal(s.events) || HiddenByEvent(s.events, attemptId)
    ensures SummariesAllow(s.summaries, attemptId) <==> !HiddenBySummary(s.summaries, attemptId)
  {
  }

  lemma ProjectedCancelIs(s: WallSnapshot)
    requires s.run.Some?
    ensures Project(s).run.value.cancelRequestedAt.None? <==>
      s.run.value.cancelRequestedAt.None? && forall e :: e in s.events ==> e.kind != RunCancelRequested
  {
    OverlaidRunIs(s.run.value, s.events, s.cursor);
    FirstCancelIs(s.events);
  }

  /** The viewers of every wall: nobody is shown who may not be watched, and nobody hidden who may. */
  lemma ViewersAreExact(s: WallSnapshot)
    ensures ShowsExactly(s, Project(s))
  {
    var p := Project(s);
    forall i | 0 <= i < |s.sessions|
      ensures var shown := s.sessions[i].available && MayWatch(s, p, s.sessions[i].attemptId);
              p.sessions[i] == Session(s.sessions[i].attemptId, shown, if shown then s.sessions[i].liveViewUrl else None)
    {
      ViewableIsWatchable(s, s.sessions[i].attemptId);
    }
  }

  /** Only the reads and the buffer matter. */
  lemma SameReadsShowSame(s: WallSnapshot, t: WallSnapshot, p: WallSnapshot)
    requires t.run == s.run && t.sessions == s.sessions && t.events == s.events && t.summaries == s.summaries
    requires ShowsExactly(s, p)
    ensures ShowsExactly(t, p)
  {
    forall id ensures MayWatch(s, p, id) == MayWatch(t, p, id) {
      assert Blocks(s, id) == Blocks(t, id);
    }
  }

  /** Every exposed URL belongs to someone who may be watched, and the wall shows why. */
  lemma ViewersAreSafe(s: WallSnapshot, i: nat)
    requires i < |s.sessions| && Project(s).sessions[i].liveViewUrl.Some?
    ensures var p := Project(s);
            var id := s.sessions[i].attemptId;
            && p.sessions[i] == s.sessions[i] && MayWatch(s, p, id) && MayWatch(p, p, id)
            && p.run.value.cancelRequestedAt.None?
  {
    ViewersAreExact(s);
    OverlaidRunIs(s.run.value, s.events, s.cursor);
    FirstCancelIs(s.events);
  }
}
