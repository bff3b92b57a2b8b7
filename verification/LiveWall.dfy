/** The controller as the object it is: fields, assignments and helper calls. Each handler is proved against its function,
    and promises its caller what `HandlerResults` proves of that function. */
module LiveWall {
  import opened RunLog
  import opened EventMerge
  import opened WallProjection
  import opened Decimal
  import opened WallController
  import opened ControllerLifecycle
  import opened ControllerHistory
  import opened HandlerResults

  class WallLoop {
    const runId: Id
    var state: WallSnapshot
    var stopped: bool
    var stream: Option<Handle>
    var phase: Phase
    var again: bool
    var failures: nat
    var rateLimited: bool
    var unavailable: bool
    var reconnectFailures: nat
    var terminalPolls: nat
    var poll: Option<Handle>
    var reconnect: Option<Handle>
    // The world the controller acts on: handles given out, open streams, pending timers, what was shown and asked.
    var nextHandle: nat
    var open: set<Handle>
    var timers: map<Handle, Timer>
    var published: seq<WallSnapshot>
    var resumed: seq<nat>
    var unauthorized: nat
    ghost var reconciles: nat

    ghost function View(): Controller
      reads this
    {
      Controller(runId, state, stopped, stream, phase, again, failures, rateLimited, unavailable, reconnectFailures,
                 terminalPolls, poll, reconnect, nextHandle, open, timers, published, resumed, unauthorized, reconciles)
    }

    /** What holds between any two inputs. */
    ghost predicate Valid()
      reads this
    {
      Invariant(View()) && Buffered(state)
    }

    constructor (runId: Id)
      ensures View() == Start(runId) && Valid()
      ensures state == WallSnapshot(None, [], [], [], [], 0, Loading, None, false)
      ensures !stopped && phase.Idle? && open == {} && timers == map[] && published == []
    {
      this.runId := runId;
      state, stopped, stream, phase, again := EMPTY_WALL, false, None, Idle, false;
      failures, rateLimited, unavailable, reconnectFailures, terminalPolls := 0, false, false, 0, 0;
      poll, reconnect, nextHandle, open, timers := None, None, 0, {}, map[];
      published, resumed, unauthorized, reconciles := [], [], 0, 0;
    }

    // ---- Effects ----

    method SetTimeout(purpose: Purpose, delay: nat) returns (timer: Handle)
      modifies this`timers, this`nextHandle
      ensures timer == old(nextHandle) && nextHandle == old(nextHandle) + 1
      ensures timers == old(timers)[timer := Timer(purpose, delay)]
    {
      timer := nextHandle;
      timers := timers[timer := Timer(purpose, delay)];
      nextHandle := nextHandle + 1;
    }

    method ClearTimeout(timer: Option<Handle>)
      modifies this`timers
      ensures timers == Unset(old(timers), timer)
    {
      if timer.Some? { timers := timers - {timer.value}; }
    }

    method PublishState()
      modifies this`state, this`published
      ensures View() == Publish(old(View()))
      ensures if stopped then View() == old(View()) else Shows(old(View()), View())
    {
      PublishShows(View());
      if stopped { return; }
      state := ProjectWall(state);
      published := published + [state];
    }

    method CloseCurrent()
      modifies this`open, this`stream
      ensures View() == CloseStream(old(View()))
    {
      if stream.Some? { open := open - {stream.value}; }
      stream := None;
    }

    // ---- Handlers ----

    method StopAll()
      requires TimersOwned(View()) && StreamsOwned(View())
      modifies this
      ensures View() == Stop(old(View()))
      ensures HoldsNothing(View()) && state == old(state) && published == old(published)
      ensures old(Valid()) ==> Valid() && Advances(old(View()), View())
    {
      ghost var before := View();
      if Valid() { ReactContinues(before, UserStop); }
      StopResult(before);
      stopped := true;
      CloseCurrent();
      ClearTimeout(poll);
      ClearTimeout(reconnect);
    }

    method ExpireOwner()
      requires TimersOwned(View()) && StreamsOwned(View()) && !stopped
      modifies this
      ensures View() == Expire(old(View()))
      ensures Expired(old(View()), View())
    {
      ExpireResult(View());
      TellExpired();
      StopAll();
      unauthorized := unauthorized + 1;
    }

    method TellExpired()
      modifies this`state, this`published
      ensures View() == TellExpiry(old(View()))
    {
      state := state.(sessions := [], error := Some(SessionExpired));
      PublishState();
    }

    method FailWith(status: Option<nat>)
      requires Reconciling(View()) && !stopped
      modifies this
      ensures View() == Fail(old(View()), status)
      ensures HasFailed(old(View()), View(), status) && Reconciling(View())
    {
      FailResult(View(), status);
      if status == Some(401) || status == Some(403) {
        ExpireOwner();
        return;
      }
      MarkFailed(status == Some(404), status == Some(429));
      if rateLimited || unavailable {
        CloseCurrent();
        DropReconnect();
      }
      PublishState();
    }

    method MarkFailed(missing: bool, limited: bool)
      modifies this`unavailable, this`rateLimited, this`state, this`failures
      ensures View() == Failed(old(View()), missing, limited)
    {
      unavailable := missing;
      rateLimited := limited;
      state := FailedState(state, missing, limited);
      failures := failures + 1;
    }

    method DropReconnect()
      modifies this`timers, this`reconnect
      ensures View() == ClearReconnect(old(View()))
    {
      ClearTimeout(reconnect);
      reconnect := None;
    }

    method AcceptEvents(incoming: seq<Event>) returns (gap: bool)
      modifies this
      ensures View() == Accept(old(View()), incoming)
      ensures gap == Gap(old(View()), incoming)
      ensures old(Buffered(state)) ==> TookEvents(old(View()), View(), incoming)
      ensures old(Buffered(state)) ==> (gap <==> exists e :: e in state.events && e.sequence > state.cursor)
    {
      if Buffered(state) { AcceptResult(View(), incoming); }
      var newTerminal := NewTerminal(state.events, incoming);
      var merged := MergeEvents(state.events, incoming, runId);
      state := state.(events := merged.events, cursor := merged.cursor, finalizing := state.finalizing || newTerminal);
      PublishState();
      gap := merged.gap;
    }

    method OpenNewStream()
      requires StreamsOwned(View()) && Buffered(state)
      modifies this
      ensures View() == OpenStream(old(View()))
      ensures StreamsOwned(View())
      ensures if LacksStream(old(View())) then OpensAtTheGap(old(View()), View()) else View() == old(View())
    {
      OpenResult(View());
      if stopped || stream.Some? || reconnect.Some? || state.run.None? || IsTerminal(state.run.value.status) { return; }
      stream := Some(nextHandle);
      open := open + {nextHandle};
      nextHandle := nextHandle + 1;
      resumed := resumed + [state.cursor];
    }

    /** `reduce` over the buffer. */
    method LatestTerminalSequence() returns (latest: nat)
      ensures latest == LatestTerminal(state.events)
      ensures LastTerminal(state.events, latest)
    {
      LatestTerminalIsMember(state.events);
      latest := 0;
      for n := 0 to |state.events|
        invariant latest == LatestTerminal(state.events[..n])
      {
        assert state.events[..n + 1][..n] == state.events[..n];
        var e := state.events[n];
        if e.kind == RunFinished || e.kind == AttemptFinished { latest := Max(latest, e.sequence); }
      }
      assert state.events[..|state.events|] == state.events;
    }

    method AskRefresh()
      modifies this
      ensures View() == Refresh(old(View()))
      ensures if stopped then View() == old(View()) else Asked(old(View()), View())
      ensures old(Valid()) ==> Valid() && Advances(old(View()), View())
    {
      RefreshResult(View());
      RefreshContinues(View());
      if stopped { return; }
      if phase != Idle {
        again := true;
        return;
      }
      Reconcile();
    }

    method Reconcile()
      modifies this`phase, this`timers, this`reconciles
      ensures View() == StartReconcile(old(View()))
    {
      ClearTimeout(poll);
      var terminalSequenceBeforeRead := LatestTerminalSequence();
      phase := Reading(terminalSequenceBeforeRead);
      reconciles := reconciles + 1;
    }

    method FinishReconcile()
      requires Reconciling(View())
      modifies this`phase, this`terminalPolls, this`poll, this`timers, this`nextHandle
      ensures View() == EndReconcile(old(View()))
      ensures phase.Settling? && PollsAsNeeded(View()) && CountsTerminalPolls(old(View()), View())
    {
      EndResult(View());
      phase := Settling;
      if stopped { return; }
      var terminal := state.run.Some? && IsTerminal(state.run.value.status);
      if !unavailable && (failures > 0 || state.finalizing || !terminal || NeedsCleanup(state.summaries)) {
        SchedulePoll(terminal);
      }
    }

    method NextDelay(terminal: bool) returns (delay: nat)
      modifies this`terminalPolls
      ensures delay == PollDelay(old(View()), terminal)
      ensures terminalPolls == if !rateLimited && failures == 0 && terminal then old(terminalPolls) + 1 else old(terminalPolls)
    {
      if rateLimited {
        delay := 60000;
      } else if failures > 0 {
        delay := Backoff(60000, 5000, failures, 4);
      } else if terminal {
        terminalPolls := terminalPolls + 1;
        delay := if terminalPolls > 12 then 30000 else 5000;
      } else {
        delay := 5000;
      }
    }

    method SchedulePoll(terminal: bool)
      modifies this`terminalPolls, this`poll, this`timers, this`nextHandle
      ensures View() == old(View()).(
        terminalPolls := if !rateLimited && failures == 0 && terminal then old(terminalPolls) + 1 else old(terminalPolls),
        timers := old(timers)[old(nextHandle) := Timer(Poll, PollDelay(old(View()), terminal))],
        poll := Some(old(nextHandle)), nextHandle := old(nextHandle) + 1)
    {
      var delay := NextDelay(terminal);
      SetPollTimer(delay);
    }

    method SetPollTimer(delay: nat)
      modifies this`poll, this`timers, this`nextHandle
      ensures View() == old(View()).(timers := old(timers)[old(nextHandle) := Timer(Poll, delay)],
                                     poll := Some(old(nextHandle)), nextHandle := old(nextHandle) + 1)
    {
      var timer := SetTimeout(Poll, delay);
      poll := Some(timer);
    }

    method OnReadFailed(status: Option<nat>)
      requires Reconciling(View())
      modifies this
      ensures View() == ReadFailed(old(View()), status)
      ensures EndsFailed(old(View()), View(), status)
      ensures old(Valid()) ==> Valid() && Continues(old(View()), View())
      ensures old(Valid()) && status != Some(404) ==> Advances(old(View()), View())
    {
      ReadFailedContinues(View(), status);
      if !stopped { FailWith(status); }
      FinishReconcile();
    }

    method OnSnapshot(run: Run, attempts: seq<Attempt>, summaries: seq<Summary>, sessions: seq<Session>)
      requires Valid() && phase.Reading?
      modifies this
      ensures View() == SnapshotRead(old(View()), run, attempts, summaries, sessions)
      ensures Valid() && Advances(old(View()), View())
      ensures if stopped then phase.Settling? && state == old(state)
              else ReadsFromTheGap(View()) && HasRead(old(View()), View(), run, attempts, summaries, sessions)
    {
      ReactContinues(View(), Snapshot(run, attempts, summaries, sessions));
      if !stopped { SnapshotResult(View(), run, attempts, summaries, sessions); }
      if stopped {
        phase := Settling;
        return;
      }
      state := state.(run := Some(run), attempts := attempts, summaries := summaries, sessions := sessions);
      phase := Paging(phase.terminalBefore, state.cursor, 0);
    }

    method CompleteHistory(terminalSequenceBeforeRead: nat)
      requires Reconciling(View()) && !stopped && Buffered(state)
      modifies this
      ensures View() == Succeed(old(View()), terminalSequenceBeforeRead)
      ensures Concluded(old(View()), View(), terminalSequenceBeforeRead) && Reconciling(View())
    {
      SucceedResult(View(), terminalSequenceBeforeRead);
      MarkHistoryRead(terminalSequenceBeforeRead);
      PublishState();
      ConcludeHistory();
    }

    method ClearFailures()
      modifies this`failures, this`rateLimited, this`unavailable
      ensures View() == old(View()).(failures := 0, rateLimited := false, unavailable := false)
    {
      failures := 0;
      rateLimited := false;
      unavailable := false;
    }

    method MarkHistoryRead(terminalSequenceBeforeRead: nat)
      modifies this`failures, this`rateLimited, this`unavailable, this`again, this`state
      ensures View() == HistoryRead(old(View()), terminalSequenceBeforeRead)
    {
      ClearFailures();
      var discoveredTerminal := Discovered(state.events, terminalSequenceBeforeRead);
      if discoveredTerminal { again := true; }
      state := state.(error := None, finalizing := discoveredTerminal);
    }

    method ConcludeHistory()
      requires StreamsOwned(View()) && Buffered(state)
      modifies this
      ensures View() == Conclude(old(View()))
    {
      if state.run.Some? && IsTerminal(state.run.value.status) {
        CloseCurrent();
        DropReconnect();
        state := state.(connection := Finished);
        PublishState();
      } else {
        OpenNewStream();
      }
    }

    method ContinuePaging(nextCursor: Option<Sequence>)
      requires Reconciling(View()) && !stopped && phase.Paging? && phase.pages < 100 && Buffered(state)
      modifies this
      ensures View() == NextPage(old(View()), nextCursor)
      ensures TurnsPage(old(View()), View(), nextCursor)
    {
      NextPageResult(View(), nextCursor);
      if nextCursor.None? {
        CompleteHistory(phase.terminalBefore);
        FinishReconcile();
      } else if nextCursor.value <= phase.after || phase.pages == MAX_PAGES - 1 {
        OnReadFailed(None);
      } else {
        phase := Paging(phase.terminalBefore, nextCursor.value, phase.pages + 1);
      }
    }

    method OnPage(page: Page)
      requires Valid() && phase.Paging?
      modifies this
      ensures View() == PageRead(old(View()), page)
      ensures Valid() && Advances(old(View()), View())
      ensures TookPage(old(View()), View(), page)
    {
      PageResult(View(), page);
      if stopped {
        phase := Settling;
        return;
      }
      if exists e :: e in page.items && e.runId != runId {
        OnReadFailed(None);
        return;
      }
      PageAccepted(View(), page.items);
      var _ := AcceptEvents(page.items);
      ContinuePaging(page.nextCursor);
    }

    method OnSettled()
      requires Valid() && phase.Settling?
      modifies this
      ensures View() == Settle(old(View()))
      ensures Valid() && Advances(old(View()), View())
      ensures if old(again) && !stopped then phase.Reading? && reconciles == old(reconciles) + 1
              else phase.Idle? && (stopped || unavailable || FullySettled(View()) || PollPending(View()))
    {
      ReactContinues(View(), PromiseSettles);
      phase := Idle;
      if again && !stopped {
        again := false;
        AskRefresh();
      }
    }

    method OnStreamOpened(source: Handle)
      requires Valid()
      modifies this
      ensures View() == StreamOpened(old(View()), source)
      ensures Valid() && WentLive(old(View()), View(), source)
    {
      OpenedResult(View(), source);
      if stopped || stream != Some(source) { return; }
      reconnectFailures := 0;
      state := state.(connection := Live);
      PublishState();
    }

    method OnStreamError(source: Handle)
      requires Valid()
      modifies this
      ensures View() == StreamFailed(old(View()), source)
      ensures Valid() && Advances(old(View()), View())
      ensures if source in old(open) then WillReconnect(View()) && Owed(View(), old(reconciles)) else View() == old(View())
    {
      ReactContinues(View(), ErrorOn(source));
      if source in open { StreamFailedResult(View(), source); }
      if stopped || stream != Some(source) { return; }
      CloseCurrent();
      state := state.(connection := Reconnecting, sessions := []);
      assert View() == Interrupted(old(View()));
      PublishState();
      SetReconnectTimer();
      AskRefresh();
    }

    method SetReconnectTimer()
      modifies this`reconnect, this`reconnectFailures, this`timers, this`nextHandle
      ensures View() == ScheduleReconnect(old(View()))
    {
      var timer := SetTimeout(Reconnect, Backoff(30000, 1000, reconnectFailures, 5));
      reconnect := Some(timer);
      reconnectFailures := reconnectFailures + 1;
    }

    method OnMessage(source: Handle, kind: EventKind, parsed: Option<Event>, lastEventId: string)
      requires Valid()
      modifies this
      ensures View() == StreamMessage(old(View()), source, kind, parsed, lastEventId)
      ensures Valid() && HandledMessage(old(View()), View(), source, kind, parsed, lastEventId)
    {
      MessageResult(View(), source, kind, parsed, lastEventId);
      if stopped || stream != Some(source) { return; }
      if parsed.None? || parsed.value.runId != runId || Print(parsed.value.sequence) != lastEventId {
        OnStreamError(source);
        return;
      }
      var gap := AcceptEvents([parsed.value]);
      if gap || kind in URGENT { AskRefresh(); }
      CloseWhenFinished();
    }

    method CloseWhenFinished()
      modifies this
      ensures View() == CloseIfFinished(old(View()))
    {
      if state.run.Some? && IsTerminal(state.run.value.status) {
        CloseCurrent();
        state := state.(connection := Finished);
        PublishState();
      }
    }

    method OnTimer(timer: Handle)
      requires Valid() && timer in timers
      modifies this
      ensures View() == TimerFires(old(View()), timer)
      ensures Valid() && TimerSpent(old(View()), View(), timer)
    {
      TimerResult(View(), timer);
      var purpose := timers[timer].purpose;
      timers := timers - {timer};
      if purpose == Reconnect { reconnect := None; }
      AskRefresh();
    }
  }
}
