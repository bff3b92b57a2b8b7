/** What a caller gets from each handler of the controller, beside the invariant that all of them keep. */
module HandlerResults {
  import opened RunLog
  import opened EventMerge
  import opened WallProjection
  import opened Decimal
  import opened Powers
  import opened WallController
  import opened ControllerLifecycle
  import opened ControllerHistory

  // ---- Every input ----

  /** The invariant is kept, a stopped controller does nothing, and whatever reconciliation was owed still is. */
  ghost predicate Continues(c: Controller, d: Controller) {
    && Invariant(d) && Buffered(d.state) && (c.stopped ==> Quiet(c, d))
    && (forall n: nat :: Owed(c, n) ==> Owed(d, n))
  }

  /** Moreover nothing is taken back: the buffer, the cursor and the publications only grow. */
  ghost predicate Advances(c: Controller, d: Controller) {
    Continues(c, d) && Grows(c, d) && c.state.cursor <= d.state.cursor
  }

  lemma ReactContinues(c: Controller, input: Input)
    requires Invariant(c) && Buffered(c.state) && Enabled(c, input)
    ensures Continues(c, React(c, input))
    ensures !IsReset(input) ==> Advances(c, React(c, input))
  {
    var d := React(c, input);
    Preserved(c, input);
    if c.stopped { StoppedStaysQuiet(c, input); }
    forall n: nat | Owed(c, n) ensures Owed(d, n) { OwedStays(c, input, n); }
    if IsReset(input) { ResetIsBuffered(c, input); } else { ReactGrows(c, input); }
  }

  // ---- Publishing ----

  /** One publication was added: the present state, projected, with exactly the viewers that may be watched, over the same
      buffer. */
  ghost predicate Shows(c: Controller, d: Controller) {
    && d.published == c.published + [d.state] && Projected(d.state) && ShowsExactly(c.state, d.state)
    && d.state.events == c.state.events && d.state.cursor == c.state.cursor
  }

  lemma PublishShows(c: Controller)
    ensures if c.stopped then Publish(c) == c else Shows(c, Publish(c))
  {
    ProjectionIsIdempotent(c.state);
    ViewersAreExact(c.state);
  }

  // ---- Stopping ----

  predicate HoldsNothing(c: Controller) {
    c.stopped && c.stream.None? && c.open == {} && c.timers == map[]
  }

  lemma StopResult(c: Controller)
    requires TimersOwned(c) && StreamsOwned(c)
    ensures HoldsNothing(Stop(c))
  {
    assert forall t :: t in Stop(c).timers ==> t in c.timers;
  }

  /** The owner was told once, in a last publication without viewers, and nothing goes on. */
  predicate Expired(c: Controller, d: Controller) {
    && HoldsNothing(d) && d.unauthorized == c.unauthorized + 1 && d.published == c.published + [d.state]
    && d.state.sessions == [] && d.state.error == Some(SessionExpired) && d.state.events == c.state.events
  }

  lemma ExpireResult(c: Controller)
    requires TimersOwned(c) && StreamsOwned(c) && !c.stopped
    ensures Expired(c, Expire(c))
  {
    var told := c.(state := c.state.(sessions := [], error := Some(SessionExpired)));
    PublishKeeps(told);
    StopResult(Publish(told));
  }

  // ---- Failing ----

  /** A read is under way and no poll is pending. */
  predicate Reconciling(c: Controller) {
    Core(c) && (c.phase.Reading? || c.phase.Paging?) && !PollPending(c)
  }

  lemma InvariantReconciles(c: Controller)
    requires Invariant(c) && (c.phase.Reading? || c.phase.Paging?)
    ensures Reconciling(c)
  {
  }

  predicate NoReconnect(c: Controller) {
    c.reconnect.None? && forall t :: t in c.timers ==> c.timers[t].purpose != Reconnect
  }

  predicate Forgotten(s: WallSnapshot) {
    && s.run.None? && s.attempts == [] && s.summaries == [] && s.sessions == [] && s.events == [] && s.cursor == 0
    && !s.finalizing && s.connection == Unavailable
  }

  /** An error is shown and no viewer. A missing run is forgotten, a limited one left alone, any other keeps its stream;
      all but the missing one keep their history. */
  predicate GivesUpViewers(c: Controller, d: Controller, missing: bool, limited: bool) {
    && !d.stopped && d.unauthorized == c.unauthorized && d.failures == c.failures + 1 && d.unavailable == missing
    && d.state.sessions == [] && d.published == c.published + [d.state] && d.rateLimited == limited
    && d.state.error == Some(if missing then RunUnavailable else if limited then ReadLimitReached else CouldNotRefresh)
    && (if missing || limited then d.open == {} && NoReconnect(d) else d.open == c.open && d.timers == c.timers)
    && (if missing then Forgotten(d.state) && d.timers == map[]
        else d.state.events == c.state.events && d.state.cursor == c.state.cursor && d.state.connection == c.state.connection)
  }

  lemma RetryResult(c: Controller, missing: bool, limited: bool)
    requires Reconciling(c) && !c.stopped
    ensures GivesUpViewers(c, Retry(c, missing, limited), missing, limited)
  {
    var failed := Failed(c, missing, limited);
    if missing || limited {
      CloseStreamKeeps(failed);
      ClearReconnectKeeps(CloseStream(failed));
      NoTimerLeft(failed);
    }
  }

  /** While a read is under way the only timer there can be is for reconnecting. */
  lemma NoTimerLeft(c: Controller)
    requires TimersOwned(c) && !PollPending(c)
    ensures ClearReconnect(CloseStream(c)).timers == map[]
  {
    ClearReconnectKeeps(c);
    assert forall t :: t in ClearReconnect(c).timers ==> t in c.timers && c.poll == Some(t);
  }

  predicate HasFailed(c: Controller, d: Controller, status: Option<nat>) {
    if status == Some(401) || status == Some(403) then Expired(c, d)
    else GivesUpViewers(c, d, status == Some(404), status == Some(429))
  }

  lemma FailResult(c: Controller, status: Option<nat>)
    requires Reconciling(c) && !c.stopped
    ensures HasFailed(c, Fail(c, status), status) && Reconciling(Fail(c, status))
  {
    FailKeeps(c, status);
    if status == Some(401) || status == Some(403) {
      ExpireResult(c);
    } else {
      RetryResult(c, status == Some(404), status == Some(429));
    }
  }

  // ---- Reading ----

  /** `latest` is the largest sequence of a run's or attempt's finish in the buffer, 0 without one. */
  predicate LastTerminal(events: seq<Event>, latest: nat) {
    && (forall e :: e in events && (e.kind == RunFinished || e.kind == AttemptFinished) ==> e.sequence <= latest)
    && (latest == 0 || exists e :: e in events && (e.kind == RunFinished || e.kind == AttemptFinished) && e.sequence == latest)
  }

  /** A refresh is owed; an idle loop has begun it, and waits for no poll. */
  predicate Asked(c: Controller, d: Controller) {
    && Owed(d, c.reconciles) && d.state == c.state && d.published == c.published && d.open == c.open
    && (if c.phase.Idle? then d.phase.Reading? && d.reconciles == c.reconciles + 1 && !PollPending(d)
                           && LastTerminal(d.state.events, d.phase.terminalBefore)
        else d.again && d.phase == c.phase && d.reconciles == c.reconciles && d.timers == c.timers)
  }

  lemma RefreshResult(c: Controller)
    ensures if c.stopped then Refresh(c) == c else Asked(c, Refresh(c))
  {
    LatestTerminalIsMember(c.state.events);
  }

  lemma RefreshContinues(c: Controller)
    ensures Invariant(c) && Buffered(c.state) ==> Invariant(Refresh(c)) && Buffered(Refresh(c).state) && Advances(c, Refresh(c))
  {
    if Invariant(c) && Buffered(c.state) { ReactContinues(c, UserRefresh); }
  }

  /** A timer fires once, and what it was set for is on its way. */
  ghost predicate TimerSpent(c: Controller, d: Controller, timer: Handle) {
    Advances(c, d) && timer !in d.timers && Owed(d, c.reconciles) && d.state == c.state && d.published == c.published
  }

  lemma TimerResult(c: Controller, timer: Handle)
    requires Invariant(c) && Buffered(c.state) && timer in c.timers
    ensures TimerSpent(c, TimerFires(c, timer), timer)
  {
    ReactContinues(c, Timeout(timer));
    assert React(c, Timeout(timer)) == TimerFires(c, timer);
    var rest := c.(timers := c.timers - {timer});
    RefreshResult(if c.timers[timer].purpose == Reconnect then rest.(reconnect := None) else rest);
  }

  /** The rows are those that were read; the buffer is what it was. */
  predicate HasRead(c: Controller, d: Controller, run: Run, attempts: seq<Attempt>, summaries: seq<Summary>, sessions: seq<Session>) {
    && d.state.run == Some(run) && d.state.attempts == attempts && d.state.summaries == summaries
    && d.state.sessions == sessions && d.state.events == c.state.events && d.published == c.published
    && c.phase.Reading? && d.phase == Paging(c.phase.terminalBefore, c.state.cursor, 0)
  }

  /** The history is read from the first sequence that the buffer lacks. */
  ghost predicate ReadsFromTheGap(d: Controller) {
    && d.phase.Paging? && d.phase.pages == 0
    && (forall k :: 1 <= k <= d.phase.after ==> Holds(d.state.events, k)) && !Holds(d.state.events, d.phase.after + 1)
  }

  lemma SnapshotResult(c: Controller, run: Run, attempts: seq<Attempt>, summaries: seq<Summary>, sessions: seq<Session>)
    requires Buffered(c.state) && c.phase.Reading? && !c.stopped
    ensures var d := SnapshotRead(c, run, attempts, summaries, sessions);
            ReadsFromTheGap(d) && HasRead(c, d, run, attempts, summaries, sessions)
  {
    CursorIsLongestPrefix(c.state.events, c.state.cursor);
  }

  /** A known run is queued or running. */
  predicate RunIsOpen(s: WallSnapshot) {
    s.run.Some? && (s.run.value.status == Queued || s.run.value.status == Running)
  }

  /** An open run is to be streamed, and neither a stream nor a timer for the next one is there. */
  predicate LacksStream(c: Controller) {
    !c.stopped && c.stream.None? && c.reconnect.None? && RunIsOpen(c.state)
  }

  /** A stream is open, or a timer pending that will ask for one. */
  predicate StreamsOrWaits(c: Controller) {
    if c.stream.Some? then c.open == {c.stream.value}
    else c.reconnect.Some? && c.reconnect.value in c.timers && c.timers[c.reconnect.value].purpose == Reconnect
  }

  /** A new stream is the only one, and asks for what comes after the longest prefix held. */
  ghost predicate OpensAtTheGap(c: Controller, d: Controller) {
    && c.open == {} && d.stream.Some? && d.open == {d.stream.value} && d.resumed == c.resumed + [c.state.cursor]
    && d.state == c.state && d.timers == c.timers && d.published == c.published
    && (forall k :: 1 <= k <= c.state.cursor ==> Holds(c.state.events, k)) && !Holds(c.state.events, c.state.cursor + 1)
  }

  lemma OpenResult(c: Controller)
    requires StreamsOwned(c) && Buffered(c.state)
    ensures StreamsOwned(OpenStream(c)) && if LacksStream(c) then OpensAtTheGap(c, OpenStream(c)) else OpenStream(c) == c
  {
    CursorIsLongestPrefix(c.state.events, c.state.cursor);
  }

  lemma PollDelayIs(c: Controller)
    ensures c.rateLimited ==> PollDelay(c, RunTerminal(c.state)) == 60000
    ensures !c.rateLimited && c.failures == 1 ==> PollDelay(c, RunTerminal(c.state)) == 10000
    ensures !c.rateLimited && c.failures == 2 ==> PollDelay(c, RunTerminal(c.state)) == 20000
    ensures !c.rateLimited && c.failures == 3 ==> PollDelay(c, RunTerminal(c.state)) == 40000
    ensures !c.rateLimited && c.failures >= 4 ==> PollDelay(c, RunTerminal(c.state)) == 60000
  {
    assert Pow2(1) == 2 && Pow2(2) == 4 && Pow2(3) == 8 && Pow2(4) == 16;
  }

  /** Seconds after which a broken stream is asked for again: one, doubling up to thirty. */
  function ReconnectSeconds(failures: nat): nat {
    if failures == 0 then 1
    else if failures == 1 then 2
    else if failures == 2 then 4
    else if failures == 3 then 8
    else if failures == 4 then 16
    else 30
  }

  lemma ReconnectDelayIs(c: Controller)
    ensures ReconnectDelay(c) == 1000 * ReconnectSeconds(c.reconnectFailures)
  {
    assert Pow2(0) == 1 && Pow2(1) == 2 && Pow2(2) == 4 && Pow2(3) == 8 && Pow2(4) == 16 && Pow2(5) == 32;
  }

  /** Seconds after which a failed read is tried again: a minute when limited, else doubling from ten up to it. */
  function RetrySeconds(limited: bool, failures: nat): nat {
    if limited || failures >= 4 then 60 else if failures == 3 then 40 else if failures == 2 then 20 else 10
  }

  /** Seconds after which the next poll comes: half a minute once a finished run was polled twelve times, else five. */
  function PollSeconds(d: Controller): nat {
    if d.rateLimited || d.failures > 0 then RetrySeconds(d.rateLimited, d.failures)
    else if d.state.run.Some? && !RunIsOpen(d.state) && d.terminalPolls > 12 then 30
    else 5
  }

  /** One poll is pending, and when it should be, exactly when something is left to wait for. */
  predicate PollsAsNeeded(d: Controller) {
    && (PollPending(d) <==> !d.stopped && !d.unavailable && !FullySettled(d))
    && (PollPending(d) ==> d.timers[d.poll.value] == Timer(Poll, 1000 * PollSeconds(d)))
    && (forall t :: t in d.timers && d.timers[t].purpose == Poll ==> d.poll == Some(t))
  }

  /** Polls of a finished run are counted while nothing fails. */
  predicate CountsTerminalPolls(c: Controller, d: Controller) {
    d.terminalPolls == c.terminalPolls +
      if PollPending(d) && d.failures == 0 && !d.rateLimited && d.state.run.Some? && !RunIsOpen(d.state) then 1 else 0
  }

  lemma EndResult(c: Controller)
    requires Reconciling(c)
    ensures PollsAsNeeded(EndReconcile(c)) && EndReconcile(c).phase.Settling? && CountsTerminalPolls(c, EndReconcile(c))
  {
    PollDelayIs(c);
    var d := EndReconcile(c);
    forall t | t in d.timers && d.timers[t].purpose == Poll ensures d.poll == Some(t) {
      if t != c.nextHandle { assert t in c.timers; }
    }
  }

  /** The errors are over. A terminal event not held before the reads keeps the wall unsettled and asks for another
      reading. A finished run has no stream left; and what is shown last is the state. */
  predicate Concluded(c: Controller, d: Controller, terminalBefore: nat) {
    && !d.stopped && d.failures == 0 && !d.rateLimited && !d.unavailable && d.state.error.None? && d.state.events == c.state.events
    && (d.state.finalizing <==>
          exists e :: e in c.state.events && e.sequence > terminalBefore && (e.kind == RunFinished || e.kind == AttemptFinished))
    && (d.again <==> c.again || d.state.finalizing)
    && (if RunIsOpen(d.state) then StreamsOrWaits(d)
        else d.state.run.Some? ==> d.open == {} && NoReconnect(d) && d.state.connection == Finished)
    && Projected(d.state) && d.published != [] && d.published[|d.published| - 1] == d.state
  }

  lemma SucceedResult(c: Controller, terminalBefore: nat)
    requires Reconciling(c) && !c.stopped
    ensures Concluded(c, Succeed(c, terminalBefore), terminalBefore) && Reconciling(Succeed(c, terminalBefore))
  {
    SucceedKeeps(c, terminalBefore);
    var read := HistoryRead(c, terminalBefore);
    PublishKeeps(read);
    ConcludeResult(Publish(read));
  }

  /** The stream and the reconnect timer are what the run's status asks for, and nothing else changed but the connection. */
  predicate StreamDecided(c: Controller, d: Controller) {
    && d.state.events == c.state.events && d.state.error == c.state.error && d.state.finalizing == c.state.finalizing
    && (if RunIsOpen(d.state) then StreamsOrWaits(d)
        else d.state.run.Some? ==> d.open == {} && NoReconnect(d) && d.state.connection == Finished)
    && d.published != [] && d.published[|d.published| - 1] == d.state
    && d.again == c.again && d.failures == c.failures && d.rateLimited == c.rateLimited && d.stopped == c.stopped
  }

  lemma ConcludeResult(c: Controller)
    requires TimersOwned(c) && StreamsOwned(c) && !c.stopped && (c.reconnect.Some? ==> c.reconnect.value in c.timers)
    requires c.published != [] && c.published[|c.published| - 1] == c.state
    ensures StreamDecided(c, Conclude(c))
  {
    if RunTerminal(c.state) { FinishedResult(c); } else { OpenedOrWaits(c); }
  }

  lemma FinishedResult(c: Controller)
    requires TimersOwned(c) && StreamsOwned(c) && !c.stopped && RunTerminal(c.state)
    ensures StreamDecided(c, Conclude(c))
  {
    var closed := ClearReconnect(CloseStream(c));
    ClosedForGood(c);
    PublishKeeps(closed.(state := c.state.(connection := Finished)));
  }

  lemma ClosedForGood(c: Controller)
    requires TimersOwned(c) && StreamsOwned(c)
    ensures var closed := ClearReconnect(CloseStream(c));
            NoReconnect(closed) && closed == c.(open := {}, stream := None, timers := closed.timers, reconnect := None)
  {
    CloseStreamKeeps(c);
    ClearReconnectKeeps(CloseStream(c));
  }

  lemma OpenedOrWaits(c: Controller)
    requires TimersOwned(c) && StreamsOwned(c) && !c.stopped && (c.reconnect.Some? ==> c.reconnect.value in c.timers)
    requires c.published != [] && c.published[|c.published| - 1] == c.state && !RunTerminal(c.state)
    ensures StreamDecided(c, OpenStream(c))
  {
  }

  /** The reading is over with an error on show and no viewer; it is tried again unless the run is missing or the owner
      gone, and only a missing run costs the history. */
  predicate FailedRead(c: Controller, d: Controller, status: Option<nat>) {
    && d.state.sessions == [] && d.published == c.published + [d.state]
    && d.state.error == Some(if status == Some(401) || status == Some(403) then SessionExpired
                             else if status == Some(404) then RunUnavailable
                             else if status == Some(429) then ReadLimitReached
                             else CouldNotRefresh)
    && (d.stopped <==> status == Some(401) || status == Some(403))
    && (PollPending(d) <==> !d.stopped && status != Some(404))
    && (PollPending(d) ==> d.timers[d.poll.value].delay == 1000 * RetrySeconds(status == Some(429), c.failures + 1))
    && (if status == Some(404) then Forgotten(d.state) && d.open == {} && d.timers == map[]
        else d.state.events == c.state.events)
  }

  /** After a stop a failed read shows and does nothing. */
  predicate EndsFailed(c: Controller, d: Controller, status: Option<nat>) {
    d.phase.Settling? && if c.stopped then Quiet(c, d) && d.state == c.state else FailedRead(c, d, status)
  }

  lemma ReadFailedContinues(c: Controller, status: Option<nat>)
    requires Reconciling(c)
    ensures EndsFailed(c, ReadFailed(c, status), status)
    ensures Invariant(c) && Buffered(c.state) ==>
      Continues(c, ReadFailed(c, status)) && (status != Some(404) ==> Advances(c, ReadFailed(c, status)))
  {
    ReadFailedResult(c, status);
    if Invariant(c) && Buffered(c.state) { ReactContinues(c, Failure(status)); }
  }

  lemma ReadFailedResult(c: Controller, status: Option<nat>)
    requires Reconciling(c)
    ensures Invariant(ReadFailed(c, status)) && EndsFailed(c, ReadFailed(c, status), status)
  {
    ReadFailedPreserves(c, status);
    if !c.stopped {
      FailResult(c, status);
      FailureEnds(c, Fail(c, status), status);
    }
  }

  lemma FailureEnds(c: Controller, failed: Controller, status: Option<nat>)
    requires HasFailed(c, failed, status) && Reconciling(failed)
    ensures FailedRead(c, EndReconcile(failed), status) && EndReconcile(failed).phase.Settling?
  {
    EndResult(failed);
  }

  /** The last page concludes the history; a cursor that does not advance, or the hundredth page, fails the reading; any
      other page leads to the next one. */
  predicate TurnsPage(c: Controller, d: Controller, nextCursor: Option<Sequence>)
    requires c.phase.Paging?
  {
    if nextCursor.None? then d.phase.Settling? && Concluded(c, d, c.phase.terminalBefore) && PollsAsNeeded(d)
    else if nextCursor.value <= c.phase.after || c.phase.pages >= 99 then d.phase.Settling? && FailedRead(c, d, None)
    else d == c.(phase := Paging(c.phase.terminalBefore, nextCursor.value, c.phase.pages + 1))
  }

  lemma NextPageResult(c: Controller, nextCursor: Option<Sequence>)
    requires Reconciling(c) && !c.stopped && c.phase.Paging? && c.phase.pages < 100
    ensures TurnsPage(c, NextPage(c, nextCursor), nextCursor)
  {
    if nextCursor.None? {
      LastPageResult(c, c.phase.terminalBefore);
    } else {
      ReadFailedResult(c, None);
    }
  }

  lemma LastPageResult(c: Controller, terminalBefore: nat)
    requires Reconciling(c) && !c.stopped
    ensures var d := EndReconcile(Succeed(c, terminalBefore));
            d.phase.Settling? && Concluded(c, d, terminalBefore) && PollsAsNeeded(d)
  {
    SucceedResult(c, terminalBefore);
    EndResult(Succeed(c, terminalBefore));
    EndStaysConcluded(c, Succeed(c, terminalBefore), terminalBefore);
  }

  lemma EndStaysConcluded(c: Controller, done: Controller, terminalBefore: nat)
    requires Concluded(c, done, terminalBefore) && TimersOwned(done)
    ensures Concluded(c, EndReconcile(done), terminalBefore)
  {
    EndKeepsReconnect(done);
  }

  lemma EndKeepsReconnect(c: Controller)
    requires TimersOwned(c)
    ensures NoReconnect(c) ==> NoReconnect(EndReconcile(c))
    ensures StreamsOrWaits(c) ==> StreamsOrWaits(EndReconcile(c))
    ensures var d := EndReconcile(c);
            d == c.(phase := d.phase, terminalPolls := d.terminalPolls, timers := d.timers, poll := d.poll, nextHandle := d.nextHandle)
  {
    var d := EndReconcile(c);
    assert forall t :: t in d.timers && t != c.nextHandle ==> t in c.timers && d.timers[t] == c.timers[t];
  }

  /** Every sequence that came in is held, whatever became of the reading. */
  ghost predicate HoldsAll(d: Controller, incoming: seq<Event>) {
    forall e :: e in incoming ==> Holds(d.state.events, e.sequence)
  }

  /** The buffer keeps what it held, takes the events of this run whose sequences it lacked, and nothing else; a new finish
      of a run or an attempt leaves the wall unsettled. */
  ghost predicate TookEvents(c: Controller, d: Controller, incoming: seq<Event>) {
    && Buffered(d.state) && Within(c.state.events, d.state.events)
    && (forall e :: e in d.state.events ==> e in c.state.events || (e in incoming && e.runId == c.runId))
    && (forall e :: e in incoming && e.runId == c.runId ==> Holds(d.state.events, e.sequence))
    && (d.state.finalizing <==> c.state.finalizing || BringsFinish(c.state.events, incoming))
  }

  ghost predicate BringsFinish(events: seq<Event>, incoming: seq<Event>) {
    exists e :: e in incoming && (e.kind == RunFinished || e.kind == AttemptFinished) && !Holds(events, e.sequence)
  }

  lemma AcceptResult(c: Controller, incoming: seq<Event>)
    requires Buffered(c.state)
    ensures TookEvents(c, Accept(c, incoming), incoming)
    ensures var s := Accept(c, incoming).state; Gap(c, incoming) <==> exists o :: o in s.events && o.sequence > s.cursor
  {
    var d := Accept(c, incoming);
    AcceptGrows(c, incoming);
    forall e | e in d.state.events ensures e in c.state.events || (e in incoming && e.runId == c.runId) {
      NewcomersAreOwn(c.state.events, incoming, c.runId, e);
    }
    forall e | e in incoming && e.runId == c.runId ensures Holds(d.state.events, e.sequence) {
      IncomingIsHeld(c.state.events, incoming, c.runId, e);
    }
    GapIsLeft(c, incoming);
    NewTerminalIs(c.state.events, incoming);
  }

  lemma NewTerminalIs(events: seq<Event>, incoming: seq<Event>)
    ensures NewTerminal(events, incoming) <==> BringsFinish(events, incoming)
  {
    if NewTerminal(events, incoming) {
      var e :| e in incoming && IsTerminalKind(e) && !exists known :: known in events && known.sequence == e.sequence;
      assert !Holds(events, e.sequence);
    }
  }

  lemma AcceptHolds(c: Controller, incoming: seq<Event>)
    requires forall e :: e in incoming ==> e.runId == c.runId
    ensures HoldsAll(Accept(c, incoming), incoming)
  {
    forall e | e in incoming ensures Holds(Accept(c, incoming).state.events, e.sequence) {
      IncomingIsHeld(c.state.events, incoming, c.runId, e);
    }
  }

  /** A page with an event of another run is refused whole; any other is taken whole. */
  ghost predicate TookPage(c: Controller, d: Controller, page: Page)
    requires c.phase.Paging?
  {
    && Invariant(d) && Advances(c, d)
    && (c.stopped ==> d.phase.Settling? && d.state == c.state)
    && (!c.stopped ==>
          if exists e :: e in page.items && e.runId != c.runId then d.phase.Settling? && FailedRead(c, d, None)
          else
            var accepted := Accept(c, page.items);
            HoldsAll(accepted, page.items) && TurnsPage(accepted, d, page.nextCursor))
  }

  lemma PageResult(c: Controller, page: Page)
    requires Invariant(c) && Buffered(c.state) && c.phase.Paging?
    ensures TookPage(c, PageRead(c, page), page)
  {
    ReactContinues(c, PageOf(page));
    assert React(c, PageOf(page)) == PageRead(c, page);
    if !c.stopped {
      if exists e :: e in page.items && e.runId != c.runId {
        ReadFailedResult(c, None);
      } else {
        GoodPageResult(c, page);
      }
    }
  }

  lemma GoodPageResult(c: Controller, page: Page)
    requires Invariant(c) && Buffered(c.state) && c.phase.Paging? && !c.stopped
    requires forall e :: e in page.items ==> e.runId == c.runId
    ensures var accepted := Accept(c, page.items);
            && accepted.phase == c.phase && HoldsAll(accepted, page.items)
            && TurnsPage(accepted, PageRead(c, page), page.nextCursor)
  {
    var accepted := Accept(c, page.items);
    AcceptHolds(c, page.items);
    PageAccepted(c, page.items);
    NextPageResult(accepted, page.nextCursor);
    assert PageRead(c, page) == NextPage(accepted, page.nextCursor);
  }

  lemma PageAccepted(c: Controller, incoming: seq<Event>)
    requires Invariant(c) && Buffered(c.state) && c.phase.Paging? && !c.stopped
    ensures var accepted := Accept(c, incoming);
            Reconciling(accepted) && !accepted.stopped && Buffered(accepted.state) && accepted.phase == c.phase
            && accepted.again == c.again && accepted.reconciles == c.reconciles
  {
    AcceptKeeps(c, incoming);
    SameShapeKeepsCore(c, Accept(c, incoming));
    AcceptGrows(c, incoming);
  }

  /** In every history: a reading that comes to its last page starts another one, unless a refresh was asked for anyway,
      exactly when it found a terminal event that was not known before; else it ends settled, and idle with a poll pending
      or with nothing left to wait for. */
  lemma ReadingSettles(runId: Id, inputs: seq<Input>, page: Page)
    requires Possible(Start(runId), inputs)
    requires var c := After(Start(runId), inputs);
             c.phase.Paging? && !c.stopped && !c.again && page.nextCursor.None? && forall e :: e in page.items ==> e.runId == c.runId
    ensures var c := After(Start(runId), inputs);
            var d := PageRead(c, page);
            && d.phase.Settling?
            && SettlesOrReadsAgain(d, Settle(d), c.phase.terminalBefore) && d.reconciles == c.reconciles
  {
    StartsWell(runId);
    AlwaysInvariant(Start(runId), inputs);
    AlwaysBuffered(Start(runId), inputs);
    var c := After(Start(runId), inputs);
    GoodPageResult(c, page);
    PageAccepted(c, page.items);
    LastPageKeepsCount(Accept(c, page.items), c.phase.terminalBefore);
    SettlingEnds(Accept(c, page.items), PageRead(c, page), c.phase.terminalBefore);
  }

  ghost predicate SettlesOrReadsAgain(d: Controller, next: Controller, terminalBefore: nat) {
    && next.state == d.state && !next.again && (next.phase.Reading? || next.phase.Idle?)
    && (next.phase.Reading? <==> next.state.finalizing)
    && (next.state.finalizing <==> exists e :: e in next.state.events && e.sequence > terminalBefore
                                           && (e.kind == RunFinished || e.kind == AttemptFinished))
    && (next.phase.Reading? ==> next.reconciles == d.reconciles + 1)
    && (next.phase.Idle? ==> next.reconciles == d.reconciles && PollsAsNeeded(next))
  }

  lemma SettlingEnds(c: Controller, d: Controller, terminalBefore: nat)
    requires Concluded(c, d, terminalBefore) && PollsAsNeeded(d) && d.phase.Settling? && !c.again
    ensures SettlesOrReadsAgain(d, Settle(d), terminalBefore)
  {
  }

  lemma LastPageKeepsCount(c: Controller, terminalBefore: nat)
    requires Reconciling(c) && !c.stopped
    ensures EndReconcile(Succeed(c, terminalBefore)).reconciles == c.reconciles
  {
    SucceedResult(c, terminalBefore);
  }

  // ---- The stream ----

  /** After an interruption there is no stream, no viewer, and one timer that will reconnect. */
  predicate WillReconnect(c: Controller) {
    && c.open == {} && c.stream.None? && c.reconnect.Some? && c.reconnect.value in c.timers
    && c.reconnectFailures > 0
    && c.timers[c.reconnect.value] == Timer(Reconnect, 1000 * ReconnectSeconds(c.reconnectFailures - 1))
    && (forall t :: t in c.timers && c.timers[t].purpose == Reconnect ==> c.reconnect == Some(t))
    && c.state.sessions == [] && c.state.connection == Reconnecting
  }

  lemma StreamFailedResult(c: Controller, source: Handle)
    requires Invariant(c) && !c.stopped && c.stream == Some(source)
    ensures var d := StreamFailed(c, source);
            WillReconnect(d) && d.reconnectFailures == c.reconnectFailures + 1 && Owed(d, c.reconciles) && d.published == c.published + [d.state]
  {
    InterruptedIsReady(c);
    var told := Publish(Interrupted(c));
    SetReconnect(told);
    ReconnectDelayIs(told);
    PublishKeeps(Interrupted(c));
    var w := ScheduleReconnect(told);
    RefreshResult(w);
    StillReconnects(w);
  }

  lemma StillReconnects(c: Controller)
    requires WillReconnect(c) && TimersOwned(c)
    ensures WillReconnect(Refresh(c))
  {
    assert forall t :: t in Refresh(c).timers ==> t in c.timers;
  }

  /** A finished or recovering attempt, a finished run, a cancellation, or a hole in the buffer. */
  ghost predicate CallsForRefresh(d: Controller, kind: EventKind) {
    || kind == RunFinished || kind == AttemptFinished || kind == AttemptRecovering || kind == RunCancelRequested
    || exists o :: o in d.state.events && o.sequence > d.state.cursor
  }

  predicate AsksNothing(c: Controller, d: Controller) {
    d.again == c.again && d.phase == c.phase && d.reconciles == c.reconciles && d.timers == c.timers
  }

  predicate ClosedIfOver(c: Controller, d: Controller) {
    if RunIsOpen(d.state) then d.open == c.open
    else d.state.run.Some? ==> d.open == {} && d.state.connection == Finished
  }

  /** The event is held; a refresh is asked for when it calls for one, and only then; a finished run has no stream left. */
  ghost predicate TookMessage(c: Controller, d: Controller, kind: EventKind, e: Event) {
    && Holds(d.state.events, e.sequence)
    && (if CallsForRefresh(d, kind) then Owed(d, c.reconciles) else AsksNothing(c, d)) && ClosedIfOver(c, d)
  }

  /** A message of another stream is ignored, one that cannot be read or is misnumbered interrupts the stream. */
  ghost predicate HandledMessage(
    c: Controller, d: Controller, source: Handle, kind: EventKind, parsed: Option<Event>, lastEventId: string)
  {
    && Advances(c, d)
    && if source !in c.open then d == c
       else if parsed.None? || parsed.value.runId != c.runId || Print(parsed.value.sequence) != lastEventId
       then WillReconnect(d) && Owed(d, c.reconciles)
       else TookMessage(c, d, kind, parsed.value)
  }

  lemma MessageResult(c: Controller, source: Handle, kind: EventKind, parsed: Option<Event>, lastEventId: string)
    requires Invariant(c) && Buffered(c.state)
    ensures HandledMessage(c, StreamMessage(c, source, kind, parsed, lastEventId), source, kind, parsed, lastEventId)
  {
    var input := MessageOn(source, kind, parsed, lastEventId);
    ReactContinues(c, input);
    assert React(c, input) == StreamMessage(c, source, kind, parsed, lastEventId);
    if source in c.open {
      if parsed.None? || parsed.value.runId != c.runId || Print(parsed.value.sequence) != lastEventId {
        StreamFailedResult(c, source);
      } else {
        GoodMessageResult(c, source, kind, parsed.value);
      }
    }
  }

  /** An open stream shows one wall that says so; one that is not open any more does nothing. */
  ghost predicate WentLive(c: Controller, d: Controller, source: Handle) {
    Advances(c, d) &&
    if source in c.open then d.state.connection == Live && d.reconnectFailures == 0 && Shows(c, d) else d == c
  }

  lemma OpenedResult(c: Controller, source: Handle)
    requires Invariant(c) && Buffered(c.state)
    ensures WentLive(c, StreamOpened(c, source), source)
  {
    ReactContinues(c, Opened(source));
    assert React(c, Opened(source)) == StreamOpened(c, source);
    if source in c.open {
      var live := c.(reconnectFailures := 0, state := c.state.(connection := Live));
      PublishShows(live);
      SameReadsShowSame(live.state, c.state, Publish(live).state);
    }
  }

  lemma GoodMessageResult(c: Controller, source: Handle, kind: EventKind, e: Event)
    requires Invariant(c) && !c.stopped && c.stream == Some(source) && e.runId == c.runId
    ensures TookMessage(c, StreamMessage(c, source, kind, Some(e), Print(e.sequence)), kind, e)
  {
    var accepted := Accept(c, [e]);
    AcceptKeeps(c, [e]);
    AcceptHolds(c, [e]);
    assert e in [e] && StreamsOwned(accepted);
    GapIsLeft(c, [e]);
    var asks := Gap(c, [e]) || kind in URGENT;
    FinishResult(accepted, asks);
    MessageTaken(c, source, kind, e);
    FinishedTookMessage(c, accepted, CloseIfFinished(if asks then Refresh(accepted) else accepted), kind, e, asks);
  }

  lemma GapIsLeft(c: Controller, incoming: seq<Event>)
    ensures var s := Accept(c, incoming).state; Gap(c, incoming) <==> exists o :: o in s.events && o.sequence > s.cursor
  {
  }

  lemma FinishedTookMessage(c: Controller, accepted: Controller, d: Controller, kind: EventKind, e: Event, asks: bool)
    requires SameShape(c, accepted) && Finishing(accepted, d, asks) && Holds(accepted.state.events, e.sequence)
    requires asks <==> (exists o :: o in accepted.state.events && o.sequence > accepted.state.cursor) || kind in URGENT
    ensures TookMessage(c, d, kind, e)
  {
  }

  ghost predicate Finishing(c: Controller, d: Controller, asks: bool) {
    && d.state.events == c.state.events && d.state.cursor == c.state.cursor
    && (if asks then Owed(d, c.reconciles) else AsksNothing(c, d)) && ClosedIfOver(c, d)
  }

  lemma FinishResult(c: Controller, asks: bool)
    requires StreamsOwned(c) && !c.stopped
    ensures Finishing(c, CloseIfFinished(if asks then Refresh(c) else c), asks)
  {
    if asks {
      RefreshResult(c);
      CloseResult(Refresh(c));
    } else {
      CloseResult(c);
    }
  }

  lemma CloseResult(c: Controller)
    requires StreamsOwned(c) && !c.stopped
    ensures var d := CloseIfFinished(c);
            && d.state.events == c.state.events && d.state.cursor == c.state.cursor && d.stopped == c.stopped
            && AsksNothing(c, d) && ClosedIfOver(c, d)
  {
    CloseStreamKeeps(c);
    PublishKeeps(CloseStream(c).(state := c.state.(connection := Finished)));
  }

  // ---- An open run is streamed ----

  predicate Streaming(c: Controller) {
    && (!c.stopped && AtRest(c) && c.failures == 0 && RunIsOpen(c.state) ==> c.stream.Some? || c.reconnect.Some?)
    && (c.reconciles == 0 ==> c.state.run.None?)
  }

  lemma ReadFailedStreams(c: Controller, status: Option<nat>)
    requires Reconciling(c)
    ensures Streaming(ReadFailed(c, status))
  {
    if !c.stopped { FailKeeps(c, status); }
  }

  lemma PageStreams(c: Controller, page: Page)
    requires Invariant(c) && Buffered(c.state) && c.phase.Paging? && !c.stopped
    ensures Streaming(PageRead(c, page))
  {
    if exists e :: e in page.items && e.runId != c.runId {
      ReadFailedStreams(c, None);
    } else {
      PageAccepted(c, page.items);
      var accepted := Accept(c, page.items);
      NextPageStreams(accepted, page.nextCursor);
    }
  }

  lemma NextPageStreams(c: Controller, nextCursor: Option<Sequence>)
    requires Reconciling(c) && !c.stopped && c.phase.Paging? && c.phase.pages < 100
    ensures Streaming(NextPage(c, nextCursor))
  {
    if nextCursor.None? {
      LastPageResult(c, c.phase.terminalBefore);
      LastPageKeepsCount(c, c.phase.terminalBefore);
      ConcludedStreams(c, NextPage(c, nextCursor), c.phase.terminalBefore);
    } else {
      ReadFailedStreams(c, None);
    }
  }

  lemma ConcludedStreams(c: Controller, d: Controller, terminalBefore: nat)
    requires Concluded(c, d, terminalBefore) && d.reconciles > 0
    ensures Streaming(d)
  {
  }

  lemma OpenedStreams(c: Controller, source: Handle)
    requires Invariant(c) && Streaming(c)
    ensures Streaming(StreamOpened(c, source))
  {
    PublishKeeps(c.(reconnectFailures := 0, state := c.state.(connection := Live)));
  }

  lemma MessageStreams(c: Controller, source: Handle, kind: EventKind, parsed: Option<Event>, lastEventId: string)
    requires Invariant(c) && Buffered(c.state) && Streaming(c)
    ensures Streaming(StreamMessage(c, source, kind, parsed, lastEventId))
  {
    var input := MessageOn(source, kind, parsed, lastEventId);
    MessageResult(c, source, kind, parsed, lastEventId);
    ReconcilesGrow(c, input);
    assert React(c, input) == StreamMessage(c, source, kind, parsed, lastEventId);
    if source in c.open { StillStreams(c, StreamMessage(c, source, kind, parsed, lastEventId)); }
  }

  lemma StillStreams(c: Controller, d: Controller)
    requires StreamsOwned(c) && StreamsOwned(d) && 0 < c.reconciles <= d.reconciles && c.open != {}
    requires WillReconnect(d) || ClosedIfOver(c, d)
    ensures Streaming(d)
  {
  }

  lemma ReactStreams(c: Controller, input: Input)
    requires Invariant(c) && Buffered(c.state) && Streaming(c) && Enabled(c, input)
    ensures Streaming(React(c, input))
  {
    match input {
      case PageOf(page) => if !c.stopped { PageStreams(c, page); }
      case Failure(status) => InvariantReconciles(c); ReadFailedStreams(c, status);
      case Opened(source) => OpenedStreams(c, source);
      case MessageOn(source, kind, parsed, lastEventId) => MessageStreams(c, source, kind, parsed, lastEventId);
      case ErrorOn(source) => ErrorStreams(c, source);
      case _ => RestStreams(c, input);
    }
  }

  lemma ErrorStreams(c: Controller, source: Handle)
    requires Invariant(c) && Streaming(c)
    ensures Streaming(StreamFailed(c, source))
  {
    if !c.stopped && c.stream == Some(source) { StreamFailedResult(c, source); }
  }

  lemma RestStreams(c: Controller, input: Input)
    requires Invariant(c) && Streaming(c) && Enabled(c, input) && !Tells(input)
    ensures Streaming(React(c, input))
  {
    match input {
      case Snapshot(run, attempts, summaries, sessions) => SnapshotStreams(c, run, attempts, summaries, sessions);
      case Timeout(timer) => TimerStreams(c, timer);
      case _ =>
    }
  }

  lemma SnapshotStreams(c: Controller, run: Run, attempts: seq<Attempt>, summaries: seq<Summary>, sessions: seq<Session>)
    requires Invariant(c) && Streaming(c) && c.phase.Reading?
    ensures Streaming(SnapshotRead(c, run, attempts, summaries, sessions))
  {
  }

  lemma TimerStreams(c: Controller, timer: Handle)
    requires Invariant(c) && Streaming(c) && timer in c.timers
    ensures Streaming(TimerFires(c, timer))
  {
  }

  lemma {:induction false} AlwaysStreaming(c: Controller, inputs: seq<Input>)
    requires Invariant(c) && Buffered(c.state) && Streaming(c) && Possible(c, inputs)
    ensures Streaming(After(c, inputs)) && Invariant(After(c, inputs))
    decreases |inputs|
  {
    if inputs != [] {
      ReactStreams(c, inputs[0]);
      ReactContinues(c, inputs[0]);
      AlwaysStreaming(React(c, inputs[0]), inputs[1..]);
    }
  }

  /** In every history: an idle controller whose last reading succeeded, and whose run is open, has a stream open or a timer
      pending that will ask for one. */
  lemma OpenRunIsStreamed(runId: Id, inputs: seq<Input>)
    requires Possible(Start(runId), inputs)
    ensures var c := After(Start(runId), inputs);
            c.phase.Idle? && !c.stopped && c.failures == 0 && RunIsOpen(c.state) ==> StreamsOrWaits(c)
  {
    StartsWell(runId);
    AlwaysStreaming(Start(runId), inputs);
  }
}
