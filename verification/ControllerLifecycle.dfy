/** What the controller keeps over every order of reads, messages, errors, timers and stops. */
module ControllerLifecycle {
  import opened RunLog
  import opened EventMerge
  import opened WallProjection
  import opened Decimal
  import opened WallController

  /** Nothing left to wait for: the run is over, its history settled, its cleanup done and no read failed. */
  predicate FullySettled(c: Controller) {
    && c.failures == 0 && !c.state.finalizing
    && c.state.run.Some? && c.state.run.value.status != Queued && c.state.run.value.status != Running
    && forall x :: x in c.state.summaries ==> x.launchState == NotLaunched || x.launchState == LaunchState.Settled
  }

  predicate PollPending(c: Controller) {
    c.poll.Some? && c.poll.value in c.timers
  }

  /** Every pending timer is the one its variable names; no second poll or reconnect timer is ever left behind. */
  predicate TimersOwned(c: Controller) {
    && (forall t :: t in c.timers ==> t < c.nextHandle)
    && (forall t :: t in c.timers ==> (if c.timers[t].purpose == Poll then c.poll else c.reconnect) == Some(t))
    && (c.poll.Some? ==> c.poll.value < c.nextHandle)
    && (c.reconnect.Some? ==> c.reconnect.value < c.nextHandle)
    && (c.poll.Some? && c.poll.value in c.timers ==> c.timers[c.poll.value].purpose == Poll)
    && (c.reconnect.Some? && c.reconnect.value in c.timers ==> c.timers[c.reconnect.value].purpose == Reconnect)
  }

  /** Every open stream is the current one. */
  predicate StreamsOwned(c: Controller) {
    && c.open == (if c.stream.Some? then {c.stream.value} else {})
    && (c.stream.Some? ==> c.stream.value < c.nextHandle)
  }

  /** Between reconciliations, with none about to start. */
  predicate AtRest(c: Controller) {
    c.reconciles > 0 && (c.phase.Idle? || (c.phase.Settling? && !c.again))
  }

  predicate Projected(s: WallSnapshot) {
    Project(s) == s
  }

  predicate Invariant(c: Controller) {
    && TimersOwned(c) && StreamsOwned(c)
    // An open stream and a reconnect timer never coexist.
    && (c.stream.Some? ==> c.reconnect.None?)
    && (!c.stopped && c.reconnect.Some? ==> c.reconnect.value in c.timers)
    // No poll is pending while a reconciliation reads.
    && (c.phase.Reading? || c.phase.Paging? ==> !PollPending(c))
    && (c.phase.Paging? ==> c.phase.pages < MAX_PAGES)
    // A stopped controller holds nothing.
    && (c.stopped ==> c.open == {} && c.timers == map[])
    // A missing run is left alone until someone asks again.
    && (c.unavailable ==> c.stream.None? && c.reconnect.None?)
    // A run read to its end has no stream left.
    && (!c.stopped && (c.phase.Idle? || c.phase.Settling?) && c.failures == 0 && RunTerminal(c.state) ==> c.stream.None?)
    // While there is something to wait for, a poll is pending (or another reconciliation is about to start).
    && (!c.stopped && !c.unavailable && !FullySettled(c) && AtRest(c) ==> PollPending(c))
    // Outside the loop the state is what the last publication showed.
    && (!c.stopped && !c.phase.Paging? ==> Projected(c.state))
    && (c.reconciles == 0 ==> c.phase.Idle? && c.stream.None? && c.timers == map[])
    && (c.phase.Idle? && !c.stopped ==> !c.again)
    && (c.unavailable && c.phase.Idle? ==> c.timers == map[])
    && (c.unavailable && c.phase.Settling? ==> c.timers == map[])
  }

  lemma StartsWell(runId: Id)
    ensures Invariant(Start(runId))
  {
  }

  // ---- Building blocks ----

  /** What publishing, projecting and merging leave alone. */
  predicate SameShape(a: Controller, b: Controller) {
    b == a.(state := b.state, published := b.published)
  }

  lemma PublishKeeps(c: Controller)
    ensures SameShape(c, Publish(c))
    ensures Publish(c).state.summaries == c.state.summaries && Publish(c).state.finalizing == c.state.finalizing
    ensures RunTerminal(c.state) ==> RunTerminal(Publish(c).state)
    ensures !c.stopped ==> Projected(Publish(c).state)
  {
    ProjectionIsIdempotent(c.state);
    if c.state.run.Some? {
      OverlaidRunIs(c.state.run.value, c.state.events, c.state.cursor);
    }
  }

  lemma AcceptKeeps(c: Controller, incoming: seq<Event>)
    ensures SameShape(c, Accept(c, incoming))
    ensures Accept(c, incoming).state.summaries == c.state.summaries
    ensures !c.stopped ==> Projected(Accept(c, incoming).state)
  {
    var merged := Merge(c.state.events, incoming, c.runId);
    PublishKeeps(c.(state := c.state.(events := merged.events, cursor := merged.cursor,
      finalizing := c.state.finalizing || NewTerminal(c.state.events, incoming))));
  }

  lemma CloseStreamKeeps(c: Controller)
    requires StreamsOwned(c)
    ensures CloseStream(c) == c.(open := {}, stream := None)
  {
  }

  lemma ClearReconnectKeeps(c: Controller)
    requires TimersOwned(c)
    ensures var r := ClearReconnect(c);
            && TimersOwned(r) && r == c.(timers := r.timers, reconnect := None)
            && (forall t :: t in r.timers <==> t in c.timers && c.timers[t].purpose == Poll)
            && (forall t :: t in r.timers ==> r.timers[t] == c.timers[t])
  {
    var r := ClearReconnect(c);
    forall t ensures t in r.timers <==> t in c.timers && c.timers[t].purpose == Poll {
      if t in c.timers && c.timers[t].purpose == Reconnect { assert c.reconnect == Some(t); }
    }
  }

  /** The part of the invariant that holds between the statements of a handler. */
  predicate Core(c: Controller) {
    && TimersOwned(c) && StreamsOwned(c)
    && (c.stream.Some? ==> c.reconnect.None?)
    && (!c.stopped && c.reconnect.Some? ==> c.reconnect.value in c.timers)
    && (c.stopped ==> c.open == {} && c.timers == map[])
    && (c.unavailable ==> c.stream.None? && c.reconnect.None?)
    && c.reconciles > 0
  }

  lemma StopKeeps(c: Controller)
    requires Core(c) || Invariant(c)
    ensures var s := Stop(c); s.stopped && s.open == {} && s.timers == map[] && TimersOwned(s) && StreamsOwned(s)
  {
    var s := Stop(c);
    assert forall t :: t in s.timers ==> t in c.timers;
  }

  lemma StopPreserves(c: Controller)
    requires Invariant(c)
    ensures Invariant(Stop(c))
  {
    StopKeeps(c);
  }

  /** What a running controller needs to ask for a refresh: the invariant without its pending poll. */
  predicate Ready(c: Controller) {
    && Core(c) && !c.stopped
    && (c.phase.Reading? || c.phase.Paging? ==> !PollPending(c))
    && (c.phase.Paging? ==> c.phase.pages < MAX_PAGES)
    && ((c.phase.Idle? || c.phase.Settling?) && c.failures == 0 && RunTerminal(c.state) ==> c.stream.None?)
    && (!c.phase.Paging? ==> Projected(c.state))
    && (c.phase.Idle? ==> !c.again)
    && (c.unavailable && c.phase.Settling? ==> c.timers == map[])
  }

  lemma ReadyRefreshes(c: Controller)
    requires Ready(c)
    ensures Invariant(Refresh(c))
  {
    if c.phase.Idle? { ReadyStarts(c); }
  }

  lemma ReadyStarts(c: Controller)
    requires Ready(c) && c.phase.Idle?
    ensures Invariant(StartReconcile(c))
  {
    var r := StartReconcile(c);
    assert forall t :: t in r.timers ==> t in c.timers;
  }

  lemma RefreshPreserves(c: Controller)
    requires Invariant(c)
    ensures Invariant(Refresh(c))
  {
    if c.stopped {
    } else if c.reconciles > 0 {
      ReadyRefreshes(c);
    } else {
      assert c.timers == map[];
    }
  }

  /** Failing keeps the core and the place in the loop; only a stop or a missing run changes more. */
  lemma FailKeeps(c: Controller, status: Option<nat>)
    requires Core(c) && !c.stopped && (c.phase.Reading? || c.phase.Paging?) && !PollPending(c)
    ensures var f := Fail(c, status);
            && Core(f) && f.phase == c.phase && !PollPending(f) && f.again == c.again
            && (!f.stopped ==> f.failures > 0 && Projected(f.state))
            && (!f.stopped && f.unavailable ==> f.timers == map[])
  {
    if status == Some(401) || status == Some(403) {
      var told := c.(state := c.state.(sessions := [], error := Some(SessionExpired)));
      PublishKeeps(told);
      StopKeeps(Publish(told));
    } else {
      FailSoftly(c, status);
    }
  }

  lemma FailSoftly(c: Controller, status: Option<nat>)
    requires Core(c) && !c.stopped && (c.phase.Reading? || c.phase.Paging?) && !PollPending(c)
    requires status != Some(401) && status != Some(403)
    ensures var f := Fail(c, status);
            && Core(f) && f.phase == c.phase && !PollPending(f) && f.again == c.again && !f.stopped
            && f.failures > 0 && Projected(f.state)
            && (f.unavailable ==> f.timers == map[])
  {
    var missing := status == Some(404);
    var limited := status == Some(429);
    var state :=
      if missing then EMPTY_WALL.(connection := Unavailable, error := Some(RunUnavailable))
      else c.state.(sessions := [], error := Some(if limited then ReadLimitReached else CouldNotRefresh));
    var failed := c.(unavailable := missing, state := state, failures := c.failures + 1, rateLimited := limited);
    PublishKeeps(failed);
    if limited || missing {
      CloseStreamKeeps(failed);
      ClearReconnectKeeps(CloseStream(failed));
      PublishKeeps(ClearReconnect(CloseStream(failed)));
    }
  }

  lemma EndPreserves(c: Controller)
    requires Core(c) && (c.phase.Reading? || c.phase.Paging?) && !PollPending(c)
    requires !c.stopped && c.failures == 0 && RunTerminal(c.state) ==> c.stream.None?
    requires !c.stopped && c.unavailable ==> c.timers == map[]
    requires !c.stopped ==> Projected(c.state)
    ensures Invariant(EndReconcile(c))
  {
    var e := EndReconcile(c);
    if !c.stopped && !c.unavailable && MustPoll(c) {
      forall t | t in e.timers ensures (if e.timers[t].purpose == Poll then e.poll else e.reconnect) == Some(t) {
        if t != c.nextHandle { assert t in c.timers; }
      }
      assert MustPoll(e);
    }
  }

  lemma ReadFailedPreserves(c: Controller, status: Option<nat>)
    requires Core(c) && (c.phase.Reading? || c.phase.Paging?) && !PollPending(c)
    ensures Invariant(ReadFailed(c, status))
  {
    if !c.stopped { FailKeeps(c, status); }
    EndPreserves(if c.stopped then c else Fail(c, status));
  }

  lemma SucceedKeeps(c: Controller, terminalBefore: nat)
    requires Core(c) && !c.stopped && (c.phase.Reading? || c.phase.Paging?) && !PollPending(c)
    ensures var s := Succeed(c, terminalBefore);
            && Core(s) && !s.stopped && s.phase == c.phase && !PollPending(s)
            && s.failures == 0 && !s.unavailable
            && (RunTerminal(s.state) ==> s.stream.None?)
            && Projected(s.state)
  {
    PublishKeeps(HistoryRead(c, terminalBefore));
    ConcludeKeeps(Publish(HistoryRead(c, terminalBefore)));
  }

  lemma ConcludeKeeps(c: Controller)
    requires Core(c) && !c.stopped && (c.phase.Reading? || c.phase.Paging?) && !PollPending(c)
    requires c.failures == 0 && !c.unavailable && Projected(c.state)
    ensures var s := Conclude(c);
            && Core(s) && !s.stopped && s.phase == c.phase && !PollPending(s)
            && s.failures == 0 && !s.unavailable
            && (RunTerminal(s.state) ==> s.stream.None?)
            && Projected(s.state)
  {
    if RunTerminal(c.state) {
      CloseStreamKeeps(c);
      ClearReconnectKeeps(CloseStream(c));
      var closed := ClearReconnect(CloseStream(c));
      PublishKeeps(closed.(state := closed.state.(connection := Finished)));
    }
  }

  lemma PageReadPreserves(c: Controller, page: Page)
    requires Invariant(c) && c.phase.Paging?
    ensures Invariant(PageRead(c, page))
  {
    if !c.stopped {
      if exists e :: e in page.items && e.runId != c.runId {
        ReadFailedPreserves(c, None);
      } else {
        AcceptedPagePreserves(c, page);
      }
    }
  }

  lemma AcceptedPagePreserves(c: Controller, page: Page)
    requires Invariant(c) && c.phase.Paging? && !c.stopped
    requires forall e :: e in page.items ==> e.runId == c.runId
    ensures Invariant(PageRead(c, page))
  {
    AcceptKeeps(c, page.items);
    NextPageKeeps(c, Accept(c, page.items), page.nextCursor);
  }

  lemma NextPageKeeps(c: Controller, accepted: Controller, nextCursor: Option<Sequence>)
    requires Invariant(c) && c.phase.Paging? && !c.stopped && SameShape(c, accepted)
    ensures Invariant(NextPage(accepted, nextCursor))
  {
    SameShapeKeepsCore(c, accepted);
    if nextCursor.None? {
      LastPagePreserves(accepted, c.phase.terminalBefore);
    } else if nextCursor.value <= c.phase.after || c.phase.pages == MAX_PAGES - 1 {
      ReadFailedPreserves(accepted, None);
    } else {
      NextPagePreserves(c, accepted, nextCursor.value);
    }
  }

  lemma SameShapeKeepsCore(c: Controller, d: Controller)
    requires Invariant(c) && c.reconciles > 0 && SameShape(c, d)
    ensures Core(d) && PollPending(d) == PollPending(c)
  {
  }

  lemma LastPagePreserves(c: Controller, terminalBefore: nat)
    requires Core(c) && !c.stopped && c.phase.Paging? && !PollPending(c)
    ensures Invariant(EndReconcile(Succeed(c, terminalBefore)))
  {
    SucceedKeeps(c, terminalBefore);
    EndPreserves(Succeed(c, terminalBefore));
  }

  lemma NextPagePreserves(c: Controller, accepted: Controller, after: nat)
    requires Invariant(c) && c.phase.Paging? && !c.stopped && c.phase.pages < MAX_PAGES - 1
    requires SameShape(c, accepted)
    ensures Invariant(accepted.(phase := Paging(c.phase.terminalBefore, after, c.phase.pages + 1)))
  {
  }

  lemma SetReconnect(c: Controller)
    requires Ready(c) && c.stream.None? && c.reconnect.None? && !c.unavailable
    ensures Ready(ScheduleReconnect(c))
  {
    var w := ScheduleReconnect(c);
    forall t | t in w.timers ensures t < w.nextHandle && (if w.timers[t].purpose == Poll then w.poll else w.reconnect) == Some(t) {
      if t != c.nextHandle { assert t in c.timers; }
    }
  }

  lemma ClosedIsReady(c: Controller, told: Controller)
    requires Invariant(c) && !c.stopped && c.stream.Some?
    requires SameShape(c.(open := {}, stream := None), told) && Projected(told.state)
    ensures Ready(told) && told.stream.None? && told.reconnect.None? && !told.unavailable
  {
  }

  lemma InterruptedIsReady(c: Controller)
    requires Invariant(c) && !c.stopped && c.stream.Some?
    ensures var told := Publish(Interrupted(c));
            Ready(told) && told.stream.None? && told.reconnect.None? && !told.unavailable
  {
    CloseStreamKeeps(c);
    PublishKeeps(Interrupted(c));
    ClosedIsReady(c, Publish(Interrupted(c)));
  }

  lemma StreamFailedPreserves(c: Controller, source: Handle)
    requires Invariant(c)
    ensures Invariant(StreamFailed(c, source))
  {
    if !c.stopped && c.stream == Some(source) {
      InterruptedIsReady(c);
      SetReconnect(Publish(Interrupted(c)));
      ReadyRefreshes(ScheduleReconnect(Publish(Interrupted(c))));
    }
  }

  lemma StreamMessagePreserves(c: Controller, source: Handle, kind: EventKind, parsed: Option<Event>, lastEventId: string)
    requires Invariant(c)
    ensures Invariant(StreamMessage(c, source, kind, parsed, lastEventId))
  {
    if c.stopped || c.stream != Some(source) {
    } else if parsed.None? || parsed.value.runId != c.runId || Print(parsed.value.sequence) != lastEventId {
      StreamFailedPreserves(c, source);
    } else {
      var accepted := Accept(c, [parsed.value]);
      AcceptKeeps(c, [parsed.value]);
      AskingKeeps(c, accepted);
      var asked := if Gap(c, [parsed.value]) || kind in URGENT then Refresh(accepted) else accepted;
      FinishPreserves(asked);
    }
  }

  /** Everything but the closing of a finished run's stream. */
  predicate Settled(c: Controller) {
    && Core(c) && !c.stopped && c.stream.Some? && !c.unavailable
    && (c.phase.Reading? || c.phase.Paging? ==> !PollPending(c))
    && (c.phase.Paging? ==> c.phase.pages < MAX_PAGES)
    && (AtRest(c) ==> PollPending(c))
    && (!c.phase.Paging? ==> Projected(c.state))
    && (c.phase.Idle? ==> !c.again)
  }

  lemma AskingKeeps(c: Controller, accepted: Controller)
    requires Invariant(c) && !c.stopped && c.stream.Some?
    requires SameShape(c, accepted) && Projected(accepted.state)
    ensures Settled(accepted) && Settled(Refresh(accepted))
  {
    var r := Refresh(accepted);
    assert forall t :: t in r.timers ==> t in c.timers;
  }

  lemma FinishPreserves(c: Controller)
    requires Settled(c)
    ensures Invariant(CloseIfFinished(c))
  {
    if RunTerminal(c.state) {
      CloseStreamKeeps(c);
      var closed := CloseStream(c);
      PublishKeeps(closed.(state := closed.state.(connection := Finished)));
    }
  }

  lemma TimerFiresPreserves(c: Controller, timer: Handle)
    requires Invariant(c) && timer in c.timers
    ensures Invariant(TimerFires(c, timer))
  {
    var rest := c.(timers := c.timers - {timer});
    var waiting := if c.timers[timer].purpose == Reconnect then rest.(reconnect := None) else rest;
    assert TimersOwned(waiting) by {
      assert forall t :: t in waiting.timers ==> t in c.timers && t != timer;
    }
    ReadyRefreshes(waiting);
  }

  lemma SettlePreserves(c: Controller)
    requires Invariant(c) && c.phase.Settling?
    ensures Invariant(Settle(c))
  {
    var s := Settle(c);
    assert forall t :: t in s.timers ==> t in c.timers;
  }

  lemma SnapshotPreserves(c: Controller, run: Run, attempts: seq<Attempt>, summaries: seq<Summary>, sessions: seq<Session>)
    requires Invariant(c) && c.phase.Reading?
    ensures Invariant(SnapshotRead(c, run, attempts, summaries, sessions))
  {
  }

  lemma StreamOpenedPreserves(c: Controller, source: Handle)
    requires Invariant(c)
    ensures Invariant(StreamOpened(c, source))
  {
    PublishKeeps(c.(reconnectFailures := 0, state := c.state.(connection := Live)));
    ProjectKeepsFrame(c.state, Live, c.state.error, c.state.finalizing);
  }

  /** Every input keeps the invariant. */
  lemma Preserved(c: Controller, input: Input)
    requires Invariant(c) && Enabled(c, input)
    ensures Invariant(React(c, input))
  {
    match input
    case UserRefresh => RefreshPreserves(c);
    case Snapshot(run, attempts, summaries, sessions) => SnapshotPreserves(c, run, attempts, summaries, sessions);
    case PageOf(page) => PageReadPreserves(c, page);
    case Failure(status) => ReadFailedPreserves(c, status);
    case PromiseSettles => SettlePreserves(c);
    case Opened(source) => StreamOpenedPreserves(c, source);
    case MessageOn(source, kind, parsed, lastEventId) => StreamMessagePreserves(c, source, kind, parsed, lastEventId);
    case ErrorOn(source) => StreamFailedPreserves(c, source);
    case Timeout(timer) => TimerFiresPreserves(c, timer);
    case UserStop => StopPreserves(c);
  }
}
