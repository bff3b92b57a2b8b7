/** The log, the server's streams and the wall's controller together, over every interleaving of their steps:
    commits, polls, page reads, lost, repeated and reordered frames, failures, timers and stops. */
module Replication {
  import opened RunLog
  import opened EventMerge
  import opened WallProjection
  import opened Decimal
  import opened WallController

  // ---- What a wall promises about the log ----

  /** The log positions the parts of a wall were read at. `summaries` is the length of the log when the
      reconciliation that fetched the summaries began. */
  datatype Origin = Origin(summaries: nat, run: nat, attempts: nat)

  /** The queued run every row starts from, and the committed log. */
  datatype History = History(queued: Run, log: seq<Event>)

  ghost predicate ValidHistory(h: History) {
    && IsLog(h.log, h.queued.id) && h.queued.status == Queued
    && RunOutcomesAgree(h.log) && forall id :: AttemptOutcomesAgree(h.log, id)
  }

  ghost predicate RunAt(s: WallSnapshot, h: History, m: nat) {
    m <= |h.log| && (s.run.Some? ==> s.run.value.status == RunRow(h.queued, h.log[..m]).status)
  }

  ghost predicate AttemptsAt(s: WallSnapshot, h: History, m: nat) {
    m <= |h.log| && forall a :: a in s.attempts ==> a.status == AttemptRow(Queued, a.id, h.log[..m])
  }

  /** Every terminal event of a settled wall was committed before its summaries were read. */
  ghost predicate Fresh(s: WallSnapshot, o: Origin) {
    !s.finalizing ==> forall e :: e in s.events && IsTerminalKind(e) ==> e.sequence <= o.summaries
  }

  ghost predicate Replica(s: WallSnapshot, h: History) {
    Selects(s.events, h.log) && s.cursor == Cursor(s.events)
  }

  ghost predicate Sound(s: WallSnapshot, o: Origin, h: History) {
    && Replica(s, h) && Fresh(s, o)
    && o.run <= |h.log| && o.attempts <= |h.log|
    && (exists m :: o.run <= m <= Max(o.run, s.cursor) && RunAt(s, h, m))
    && (exists m :: o.attempts <= m <= Max(o.attempts, s.cursor) && AttemptsAt(s, h, m))
  }

  /** A published wall: its statuses are those of the later of the read and the cursor. */
  ghost predicate Shown(s: WallSnapshot, o: Origin, h: History) {
    && Replica(s, h) && Fresh(s, o)
    && o.run <= |h.log| && o.attempts <= |h.log|
    && RunAt(s, h, Max(o.run, s.cursor))
    && AttemptsAt(s, h, Max(o.attempts, s.cursor))
  }

  lemma ReplicaHoldsPrefix(s: WallSnapshot, h: History)
    requires Replica(s, h)
    ensures HoldsPrefix(s.events, h.log, s.cursor)
  {
    CursorWithin(s.events, h.log);
    forall k | 0 <= k < s.cursor ensures h.log[k] in s.events {
      assert s.events[k] in s.events;
    }
  }

  lemma ProjectedRun(s: WallSnapshot, o: Origin, h: History)
    requires ValidHistory(h) && Sound(s, o, h) && s.run.Some? && s.cursor <= |h.log|
    ensures OverlaidRun(s.run.value, s.events, s.cursor).status == RunRow(h.queued, h.log[..Max(o.run, s.cursor)]).status
  {
    ReplicaHoldsPrefix(s, h);
    var m :| o.run <= m <= Max(o.run, s.cursor) && RunAt(s, h, m);
    StaleRunReadsNeverWin(h.queued, h.log, m, s.events, s.cursor);
    OverlaidRunIs(s.run.value, s.events, s.cursor);
    OverlaidRunIs(RunRow(h.queued, h.log[..m]), s.events, s.cursor);
    assert Max(m, s.cursor) == Max(o.run, s.cursor);
  }

  lemma ProjectedAttempt(s: WallSnapshot, o: Origin, h: History, a: Attempt)
    requires ValidHistory(h) && Sound(s, o, h) && a in s.attempts && s.cursor <= |h.log|
    ensures OverlaidStatus(a.status, a.id, s.events, s.cursor) == AttemptRow(Queued, a.id, h.log[..Max(o.attempts, s.cursor)])
  {
    ReplicaHoldsPrefix(s, h);
    var n :| o.attempts <= n <= Max(o.attempts, s.cursor) && AttemptsAt(s, h, n);
    StaleAttemptReadsNeverWin(a.id, h.log, n, s.events, s.cursor, h.queued.id);
    assert Max(n, s.cursor) == Max(o.attempts, s.cursor);
  }

  lemma ProjectionIsShown(s: WallSnapshot, o: Origin, h: History)
    requires ValidHistory(h) && Sound(s, o, h)
    ensures Shown(Project(s), o, h)
  {
    var p := Project(s);
    CursorWithin(s.events, h.log);
    if s.run.Some? { ProjectedRun(s, o, h); }
    var base := ById(s.attempts);
    forall a | a in p.attempts ensures a.status == AttemptRow(Queued, a.id, h.log[..Max(o.attempts, s.cursor)]) {
      var i :| 0 <= i < |p.attempts| && p.attempts[i] == a;
      ByIdSelects(s.attempts, base[i]);
      ProjectedAttempt(s, o, h, base[i]);
    }
  }

  lemma {:induction false} ByIdSelects(attempts: seq<Attempt>, a: Attempt)
    requires a in ById(attempts)
    ensures a in attempts
  {
    if attempts != [] {
      var n := |attempts| - 1;
      if a != attempts[n] {
        assert a in ById(attempts[..n]);
        ByIdSelects(attempts[..n], a);
      }
    }
  }

  lemma ShownIsSound(s: WallSnapshot, o: Origin, h: History)
    requires Shown(s, o, h)
    ensures Sound(s, o, h)
  {
  }

  /** The promise outlives later commits. */
  lemma StaysSound(s: WallSnapshot, o: Origin, h: History, batch: seq<Event>)
    requires ValidHistory(h)
    ensures Sound(s, o, h) ==> Sound(s, o, h.(log := h.log + batch))
    ensures Shown(s, o, h) ==> Shown(s, o, h.(log := h.log + batch))
  {
    var g := h.(log := h.log + batch);
    forall m: nat | m <= |h.log| ensures g.log[..m] == h.log[..m] {}
    if Sound(s, o, h) {
      var m :| o.run <= m <= Max(o.run, s.cursor) && RunAt(s, h, m);
      assert RunAt(s, g, m);
      var n :| o.attempts <= n <= Max(o.attempts, s.cursor) && AttemptsAt(s, h, n);
      assert AttemptsAt(s, g, n);
    }
    if Shown(s, o, h) {
      assert RunAt(s, g, Max(o.run, s.cursor));
      assert AttemptsAt(s, g, Max(o.attempts, s.cursor));
    }
  }

  // ---- Handlers keep the promise ----

  /** From c to d: the new state is sound, and every wall published on the way is shown as promised. */
  ghost predicate Keeps(c: Controller, d: Controller, o: Origin, h: History) {
    && Sound(d.state, o, h)
    && |c.published| <= |d.published| && d.published[..|c.published|] == c.published
    && forall i :: |c.published| <= i < |d.published| ==> Shown(d.published[i], o, h)
  }

  lemma KeepsOn(c: Controller, d: Controller, e: Controller, o: Origin, h: History)
    requires Keeps(c, d, o, h) && Keeps(d, e, o, h)
    ensures Keeps(c, e, o, h)
  {
    assert e.published[..|c.published|] == d.published[..|c.published|];
    forall i | |c.published| <= i < |e.published| ensures Shown(e.published[i], o, h) {
      if i < |d.published| { assert e.published[i] == d.published[i]; }
    }
  }

  predicate SameHistory(a: WallSnapshot, b: WallSnapshot) {
    a.run == b.run && a.attempts == b.attempts && a.events == b.events && a.cursor == b.cursor && a.finalizing == b.finalizing
  }

  lemma SilentKeeps(c: Controller, d: Controller, o: Origin, h: History)
    requires Sound(c.state, o, h) && d.published == c.published && SameHistory(c.state, d.state)
    ensures Keeps(c, d, o, h)
  {
    var m :| o.run <= m <= Max(o.run, c.state.cursor) && RunAt(c.state, h, m);
    assert RunAt(d.state, h, m);
    var n :| o.attempts <= n <= Max(o.attempts, c.state.cursor) && AttemptsAt(c.state, h, n);
    assert AttemptsAt(d.state, h, n);
  }

  lemma PublishKeeps(c: Controller, o: Origin, h: History)
    requires ValidHistory(h) && Sound(c.state, o, h)
    ensures Keeps(c, Publish(c), o, h)
  {
    ProjectionIsShown(c.state, o, h);
    ShownIsSound(Project(c.state), o, h);
  }

  /** A silent change followed by a publication. */
  lemma TellKeeps(c: Controller, d: Controller, o: Origin, h: History)
    requires ValidHistory(h) && Sound(c.state, o, h) && d.published == c.published && SameHistory(c.state, d.state)
    ensures Keeps(c, Publish(d), o, h)
  {
    SilentKeeps(c, d, o, h);
    PublishKeeps(d, o, h);
    KeepsOn(c, d, Publish(d), o, h);
  }

  ghost predicate FromLog(events: seq<Event>, log: seq<Event>) {
    forall e :: e in events ==> e.sequence <= |log| && e == log[e.sequence - 1]
  }

  ghost function Grown(c: Controller, incoming: seq<Event>): WallSnapshot {
    var merged := Merge(c.state.events, incoming, c.runId);
    c.state.(events := merged.events, cursor := merged.cursor,
             finalizing := c.state.finalizing || NewTerminal(c.state.events, incoming))
  }

  /** A terminal event that was not held yet keeps the wall unsettled. */
  lemma MergedIsFresh(held: seq<Event>, incoming: seq<Event>, merged: seq<Event>, log: seq<Event>, limit: nat)
    requires FromLog(held, log) && FromLog(incoming, log) && !NewTerminal(held, incoming)
    requires forall e :: e in held && IsTerminalKind(e) ==> e.sequence <= limit
    requires forall e :: e in merged ==> e in held || e in incoming
    ensures forall e :: e in merged && IsTerminalKind(e) ==> e.sequence <= limit
  {
    forall e | e in merged && IsTerminalKind(e) ensures e.sequence <= limit {
      if e in incoming {
        var known :| known in held && known.sequence == e.sequence;
        assert known == e;
      }
    }
  }

  lemma MergedIsSound(c: Controller, incoming: seq<Event>, o: Origin, h: History)
    requires ValidHistory(h) && Sound(c.state, o, h) && c.runId == h.queued.id && FromLog(incoming, h.log)
    ensures Sound(Grown(c, incoming), o, h)
  {
    MergeIsUnion(c.state.events, incoming, h.log, c.runId);
    if !Grown(c, incoming).finalizing {
      MergedIsFresh(c.state.events, incoming, Grown(c, incoming).events, h.log, o.summaries);
    }
    GrownIsSound(c.state, Grown(c, incoming), o, h);
  }

  lemma GrownIsSound(s: WallSnapshot, t: WallSnapshot, o: Origin, h: History)
    requires Sound(s, o, h) && Replica(t, h) && Fresh(t, o)
    requires t.run == s.run && t.attempts == s.attempts && s.cursor <= t.cursor
    ensures Sound(t, o, h)
  {
    var m :| o.run <= m <= Max(o.run, s.cursor) && RunAt(s, h, m);
    assert RunAt(t, h, m);
    var n :| o.attempts <= n <= Max(o.attempts, s.cursor) && AttemptsAt(s, h, n);
    assert AttemptsAt(t, h, n);
  }

  lemma AcceptKeeps(c: Controller, incoming: seq<Event>, o: Origin, h: History)
    requires ValidHistory(h) && Sound(c.state, o, h) && c.runId == h.queued.id && FromLog(incoming, h.log)
    ensures Keeps(c, Accept(c, incoming), o, h)
  {
    var grown := c.(state := Grown(c, incoming));
    MergedIsSound(c, incoming, o, h);
    assert Keeps(c, grown, o, h);
    PublishKeeps(grown, o, h);
    KeepsOn(c, grown, Publish(grown), o, h);
  }

  lemma EmptyIsSound(s: WallSnapshot, o: Origin, h: History)
    requires s.run.None? && s.attempts == [] && s.events == [] && s.cursor == 0
    requires o.run <= |h.log| && o.attempts <= |h.log|
    ensures Sound(s, o, h)
  {
    assert RunAt(s, h, o.run) && AttemptsAt(s, h, o.attempts);
  }

  lemma FailKeeps(c: Controller, status: Option<nat>, o: Origin, h: History)
    requires ValidHistory(h) && Sound(c.state, o, h)
    ensures Keeps(c, Fail(c, status), o, h)
  {
    if status == Some(401) || status == Some(403) {
      ExpireKeeps(c, o, h);
    } else {
      RetryKeeps(c, status == Some(404), status == Some(429), o, h);
    }
  }

  lemma ExpireKeeps(c: Controller, o: Origin, h: History)
    requires ValidHistory(h) && Sound(c.state, o, h)
    ensures Keeps(c, Expire(c), o, h)
  {
    var told := c.(state := c.state.(sessions := [], error := Some(SessionExpired)));
    TellKeeps(c, told, o, h);
    SilentKeeps(Publish(told), Expire(c), o, h);
    KeepsOn(c, Publish(told), Expire(c), o, h);
  }

  lemma RetryKeeps(c: Controller, missing: bool, limited: bool, o: Origin, h: History)
    requires ValidHistory(h) && Sound(c.state, o, h)
    ensures Keeps(c, Retry(c, missing, limited), o, h)
  {
    var failed := c.(unavailable := missing, state := FailedState(c.state, missing, limited),
                     failures := c.failures + 1, rateLimited := limited);
    var before := if limited || missing then ClearReconnect(CloseStream(failed)) else failed;
    if missing {
      EmptyIsSound(before.state, o, h);
      PublishKeeps(before, o, h);
      assert Keeps(c, before, o, h);
      KeepsOn(c, before, Publish(before), o, h);
    } else {
      TellKeeps(c, before, o, h);
    }
  }

  lemma ReadFailedKeeps(c: Controller, status: Option<nat>, o: Origin, h: History)
    requires ValidHistory(h) && Sound(c.state, o, h)
    ensures Keeps(c, ReadFailed(c, status), o, h)
  {
    if c.stopped {
      SilentKeeps(c, ReadFailed(c, status), o, h);
    } else {
      FailKeeps(c, status, o, h);
      SilentKeeps(Fail(c, status), ReadFailed(c, status), o, h);
      KeepsOn(c, Fail(c, status), ReadFailed(c, status), o, h);
    }
  }

  /** Concluding a history settles the wall only when no terminal event lies above the ones held before the reads. */
  lemma SucceedKeeps(c: Controller, terminalBefore: nat, o: Origin, h: History)
    requires ValidHistory(h) && Sound(c.state, o, h) && terminalBefore <= o.summaries
    ensures Keeps(c, Succeed(c, terminalBefore), o, h)
  {
    var read := HistoryRead(c, terminalBefore);
    SettledIsSound(c.state, read.state, terminalBefore, o, h);
    PublishKeeps(read, o, h);
    assert Keeps(c, read, o, h);
    KeepsOn(c, read, Publish(read), o, h);
    ConcludeKeeps(Publish(read), o, h);
    KeepsOn(c, Publish(read), Succeed(c, terminalBefore), o, h);
  }

  lemma SettledIsSound(s: WallSnapshot, t: WallSnapshot, terminalBefore: nat, o: Origin, h: History)
    requires Sound(s, o, h) && terminalBefore <= o.summaries
    requires SameHistory(s, t.(finalizing := s.finalizing))
    requires t.finalizing == exists e :: e in s.events && e.sequence > terminalBefore && IsTerminalKind(e)
    ensures Sound(t, o, h)
  {
    var m :| o.run <= m <= Max(o.run, s.cursor) && RunAt(s, h, m);
    assert RunAt(t, h, m);
    var n :| o.attempts <= n <= Max(o.attempts, s.cursor) && AttemptsAt(s, h, n);
    assert AttemptsAt(t, h, n);
  }

  lemma ConcludeKeeps(c: Controller, o: Origin, h: History)
    requires ValidHistory(h) && Sound(c.state, o, h)
    ensures Keeps(c, Conclude(c), o, h)
  {
    if RunTerminal(c.state) {
      var closed := ClearReconnect(CloseStream(c));
      TellKeeps(c, closed.(state := closed.state.(connection := Finished)), o, h);
    } else {
      SilentKeeps(c, OpenStream(c), o, h);
    }
  }

  lemma NextPageKeeps(c: Controller, nextCursor: Option<Sequence>, o: Origin, h: History)
    requires ValidHistory(h) && Sound(c.state, o, h) && c.phase.Paging? && c.phase.terminalBefore <= o.summaries
    ensures Keeps(c, NextPage(c, nextCursor), o, h)
  {
    if nextCursor.None? {
      var done := Succeed(c, c.phase.terminalBefore);
      SucceedKeeps(c, c.phase.terminalBefore, o, h);
      SilentKeeps(done, EndReconcile(done), o, h);
      KeepsOn(c, done, EndReconcile(done), o, h);
    } else if nextCursor.value <= c.phase.after || c.phase.pages == MAX_PAGES - 1 {
      ReadFailedKeeps(c, None, o, h);
    } else {
      SilentKeeps(c, NextPage(c, nextCursor), o, h);
    }
  }

  lemma PageReadKeeps(c: Controller, page: Page, o: Origin, h: History)
    requires ValidHistory(h) && Sound(c.state, o, h) && c.runId == h.queued.id && c.phase.Paging?
    requires c.phase.terminalBefore <= o.summaries && FromLog(page.items, h.log)
    ensures Keeps(c, PageRead(c, page), o, h)
  {
    if c.stopped {
      SilentKeeps(c, PageRead(c, page), o, h);
    } else if exists e :: e in page.items && e.runId != c.runId {
      ReadFailedKeeps(c, None, o, h);
    } else {
      AcceptKeeps(c, page.items, o, h);
      NextPageKeeps(Accept(c, page.items), page.nextCursor, o, h);
      KeepsOn(c, Accept(c, page.items), PageRead(c, page), o, h);
    }
  }

  lemma StreamFailedKeeps(c: Controller, source: Handle, o: Origin, h: History)
    requires ValidHistory(h) && Sound(c.state, o, h)
    ensures Keeps(c, StreamFailed(c, source), o, h)
  {
    if c.stopped || c.stream != Some(source) {
      SilentKeeps(c, c, o, h);
    } else {
      var quiet := Interrupted(c);
      TellKeeps(c, quiet, o, h);
      SilentKeeps(Publish(quiet), StreamFailed(c, source), o, h);
      KeepsOn(c, Publish(quiet), StreamFailed(c, source), o, h);
    }
  }

  lemma CloseIfFinishedKeeps(c: Controller, o: Origin, h: History)
    requires ValidHistory(h) && Sound(c.state, o, h)
    ensures Keeps(c, CloseIfFinished(c), o, h)
  {
    if RunTerminal(c.state) {
      TellKeeps(c, CloseStream(c).(state := c.state.(connection := Finished)), o, h);
    } else {
      SilentKeeps(c, c, o, h);
    }
  }

  lemma AskedKeeps(c: Controller, o: Origin, h: History)
    requires ValidHistory(h) && Sound(c.state, o, h)
    ensures Keeps(c, CloseIfFinished(Refresh(c)), o, h)
  {
    var r := Refresh(c);
    SilentKeeps(c, r, o, h);
    CloseIfFinishedKeeps(r, o, h);
    KeepsOn(c, r, CloseIfFinished(r), o, h);
  }

  lemma StreamMessageKeeps(c: Controller, source: Handle, kind: EventKind, parsed: Option<Event>, lastEventId: string, o: Origin, h: History)
    requires ValidHistory(h) && Sound(c.state, o, h) && c.runId == h.queued.id
    requires parsed.Some? ==> FromLog([parsed.value], h.log)
    ensures Keeps(c, StreamMessage(c, source, kind, parsed, lastEventId), o, h)
  {
    if c.stopped || c.stream != Some(source) {
      SilentKeeps(c, c, o, h);
    } else if parsed.None? || parsed.value.runId != c.runId || Print(parsed.value.sequence) != lastEventId {
      StreamFailedKeeps(c, source, o, h);
    } else {
      var accepted := Accept(c, [parsed.value]);
      AcceptKeeps(c, [parsed.value], o, h);
      CloseIfFinishedKeeps(accepted, o, h);
      AskedKeeps(accepted, o, h);
      KeepsOn(c, accepted, StreamMessage(c, source, kind, parsed, lastEventId), o, h);
    }
  }
}
