/** Writer, server streams, lossy link and controller as one system, and what holds in each of its runs. */
module WallSystem {
  import opened RunLog
  import opened EventMerge
  import opened WallProjection
  import opened Decimal
  import opened WallController
  import opened Replication
  import ControllerHistory
  import EventStream
  import opened StreamDelivery

  const KEEPALIVE := 15000

  /** `readStart` and `pageStart` are the lengths of the log when the current reconciliation and the outstanding page
      read began; `historyFrom` is the cursor its paging started at; `origins` says where each published wall was read. */
  datatype System = System(
    history: History,
    client: Controller,
    deliveries: map<Handle, Delivery>,
    readStart: nat,
    pageStart: nat,
    historyFrom: nat,
    origin: Origin,
    origins: seq<Origin>)

  function Initial(queued: Run): System {
    System(History(queued, []), Start(queued.id), map[], 0, 0, 0, Origin(0, 0, 0), [])
  }

  datatype Action =
    | Commits(batch: seq<Event>)
    | ServerAccepts(source: Handle, handler: EventStream.Handler, request: EventStream.Request, now: int, lifetime: int)
    | ServerSteps(source: Handle, step: Step)
    | ClientRefreshes
    | SnapshotReturns(runAt: nat, cancelledAt: Timestamp, attemptsAt: nat, attempts: seq<Attempt>, summaries: seq<Summary>,
                      sessions: seq<Session>)
    | PageReturns(position: nat)
    | ReadFails(status: Option<nat>)
    | PromiseEnds
    | StreamConnects(source: Handle)
    | FrameArrives(source: Handle, event: Event)
    | GarbageArrives(source: Handle, kind: EventKind, lastEventId: string)
    | StreamBreaks(source: Handle)
    | TimerFires(timer: Handle)
    | ClientStops

  /** Where the client's last stream was to resume, and the query that says so. */
  function Resumed(c: Controller): nat
    requires c.resumed != []
  {
    c.resumed[|c.resumed| - 1]
  }

  function OwnQuery(c: Controller): seq<(string, string)>
    requires c.resumed != []
  {
    [("after", Print(Resumed(c)))]
  }

  /** Commits keep the log a log with immutable outcomes; a stream is what some handler opens for the client's own query;
      a read returns at least what was committed when it began; any frame a stream ever sent may arrive, in any order, any
      number of times or never. */
  ghost predicate Can(s: System, a: Action) {
    var log := s.history.log;
    match a
    case Commits(batch) => ValidHistory(s.history.(log := log + batch))
    case ServerAccepts(source, handler, request, now, _) =>
      && s.client.stream == Some(source) && source !in s.deliveries && s.client.resumed != []
      && request.query == OwnQuery(s.client) && request.lastEventId.None? && request.runId == s.history.queued.id
      && EventStream.Refusal(handler, request, now).None?
    case ServerSteps(source, step) =>
      && source in s.deliveries && s.deliveries[source].stream.limit >= 1 && !step.Commit?
      && CanStep(s.deliveries[source], s.history.queued, log, step)
    case SnapshotReturns(runAt, _, attemptsAt, attempts, _, _) =>
      && s.client.phase.Reading? && s.readStart <= runAt <= |log| && s.readStart <= attemptsAt <= |log|
      && forall x :: x in attempts ==> x.status == AttemptRow(Queued, x.id, log[..attemptsAt])
    case PageReturns(position) => s.client.phase.Paging? && s.pageStart <= position <= |log|
    case ReadFails(_) => s.client.phase.Reading? || s.client.phase.Paging?
    case PromiseEnds => s.client.phase.Settling?
    case FrameArrives(source, event) => source in s.deliveries && event in Emitted(s.deliveries[source].stream.sent)
    case TimerFires(timer) => timer in s.client.timers
    case _ => true
  }

  predicate OfClient(a: Action) {
    !a.Commits? && !a.ServerAccepts? && !a.ServerSteps?
  }

  function InputOf(s: System, a: Action): Input
    requires OfClient(a)
    requires a.SnapshotReturns? ==> a.runAt <= |s.history.log|
    requires a.PageReturns? ==> a.position <= |s.history.log| && s.client.phase.Paging?
  {
    match a
    case ClientRefreshes => UserRefresh
    case SnapshotReturns(runAt, cancelledAt, _, attempts, summaries, sessions) =>
      Snapshot(ReadRow(s.history.queued, s.history.log[..runAt], cancelledAt), attempts, summaries, sessions)
    case PageReturns(position) => PageOf(ReadPage(s.history.log[..position], s.client.phase.after, PAGE_LIMIT))
    case ReadFails(status) => Failure(status)
    case PromiseEnds => PromiseSettles
    case StreamConnects(source) => Opened(source)
    case FrameArrives(source, event) => MessageOn(source, event.kind, Some(event), Print(event.sequence))
    case GarbageArrives(source, kind, lastEventId) => MessageOn(source, kind, None, lastEventId)
    case StreamBreaks(source) => ErrorOn(source)
    case TimerFires(timer) => Timeout(timer)
    case ClientStops => UserStop
  }

  function Repeat(o: Origin, n: nat): seq<Origin> {
    seq(n, _ => o)
  }

  /** Where and when the reads behind the client's new state were made. */
  function Track(s: System, next: Controller, origin: Origin, historyFrom: nat): System {
    var before := s.client;
    var now := |s.history.log|;
    s.(client := next,
       readStart := if next.reconciles > before.reconciles then now else s.readStart,
       pageStart := if next.phase.Paging? && next.phase != before.phase then now else s.pageStart,
       historyFrom := historyFrom,
       origin := origin,
       origins := s.origins + if |next.published| >= |before.published|
                              then Repeat(origin, |next.published| - |before.published|) else [])
  }

  ghost function Apply(s: System, a: Action): System
    requires Can(s, a)
  {
    match a
    case Commits(batch) => s.(history := s.history.(log := s.history.log + batch))
    case ServerAccepts(source, handler, request, now, lifetime) =>
      var next := EventStream.Open(handler, request, now, lifetime);
      EventStream.OpenStarts(handler, request, now, lifetime);
      s.(deliveries := s.deliveries[source := Delivery(Resumed(s.client), next.streams[|handler.streams|], None)])
    case ServerSteps(source, step) =>
      s.(deliveries := s.deliveries[source := Do(s.deliveries[source], s.history.queued, s.history.log, KEEPALIVE, step)])
    case SnapshotReturns(runAt, _, attemptsAt, _, _, _) =>
      var next := React(s.client, InputOf(s, a));
      if s.client.stopped then Track(s, next, s.origin, s.historyFrom)
      else Track(s, next, Origin(s.readStart, runAt, attemptsAt), s.client.state.cursor)
    case _ => Track(s, React(s.client, InputOf(s, a)), s.origin, s.historyFrom)
  }

  // ---- The invariant ----

  ghost predicate PhaseHolds(s: System) {
    match s.client.phase
    case Reading(terminalBefore) => terminalBefore <= s.readStart
    case Paging(terminalBefore, after, pages) =>
      && terminalBefore <= s.readStart && s.origin.summaries == s.readStart
      && after == s.historyFrom + PAGE_LIMIT * pages && after <= s.client.state.cursor && pages < MAX_PAGES
    case _ => true
  }

  ghost predicate Good(s: System) {
    && ValidHistory(s.history) && s.client.runId == s.history.queued.id
    && s.origin.summaries <= s.readStart <= |s.history.log| && s.pageStart <= |s.history.log|
    && Sound(s.client.state, s.origin, s.history)
    && |s.origins| == |s.client.published|
    && (forall i :: 0 <= i < |s.origins| ==> Shown(s.client.published[i], s.origins[i], s.history))
    && PhaseHolds(s)
    && (forall source :: source in s.deliveries ==> Delivers(s.deliveries[source], s.history.queued, s.history.log))
  }

  lemma StartsGood(queued: Run)
    requires queued.status == Queued
    ensures Good(Initial(queued))
  {
    EmptyIsSound(EMPTY_WALL, Origin(0, 0, 0), History(queued, []));
  }

  // ---- How the controller's phase moves ----

  /** A reconciliation begins with the latest terminal event held; otherwise only reads and promises move the phase. */
  predicate PhaseMoves(c: Controller, d: Controller) {
    && d.runId == c.runId
    && (if d.reconciles > c.reconciles then d.phase == Reading(LatestTerminal(d.state.events))
        else d.phase == c.phase)
  }

  lemma RefreshMoves(c: Controller)
    ensures PhaseMoves(c, Refresh(c))
  {
  }

  lemma StreamFailedMoves(c: Controller, source: Handle)
    ensures PhaseMoves(c, StreamFailed(c, source))
  {
  }

  lemma CloseMoves(c: Controller)
    ensures PhaseMoves(c, CloseIfFinished(c)) && PhaseMoves(c, CloseIfFinished(Refresh(c)))
  {
    RefreshMoves(c);
  }

  lemma AcceptMoves(c: Controller, incoming: seq<Event>)
    ensures var d := Accept(c, incoming);
            && d.runId == c.runId && d.reconciles == c.reconciles && d.phase == c.phase
            && d.failures == c.failures && d.stopped == c.stopped
  {
  }

  lemma MessageMoves(c: Controller, source: Handle, kind: EventKind, parsed: Option<Event>, lastEventId: string)
    ensures PhaseMoves(c, StreamMessage(c, source, kind, parsed, lastEventId))
  {
    if c.stopped || c.stream != Some(source) {
    } else if parsed.None? || parsed.value.runId != c.runId || Print(parsed.value.sequence) != lastEventId {
      StreamFailedMoves(c, source);
    } else {
      AcceptMoves(c, [parsed.value]);
      CloseMoves(Accept(c, [parsed.value]));
    }
  }

  lemma EndMoves(c: Controller)
    ensures var d := EndReconcile(c);
            d.runId == c.runId && d.phase.Settling? && d.reconciles == c.reconciles && d.failures == c.failures && d.state == c.state
  {
  }

  lemma FailedReadEnds(c: Controller, status: Option<nat>)
    ensures var d := ReadFailed(c, status); d.runId == c.runId && d.phase.Settling? && d.reconciles == c.reconciles
  {
    if c.stopped { EndMoves(c); } else { EndMoves(Fail(c, status)); }
  }

  lemma SucceedMoves(c: Controller, terminalBefore: nat)
    ensures var d := Succeed(c, terminalBefore);
            d.runId == c.runId && d.reconciles == c.reconciles && d.failures == 0 && d.state.cursor == c.state.cursor
  {
  }

  lemma SucceededReadEnds(c: Controller, terminalBefore: nat)
    ensures var d := EndReconcile(Succeed(c, terminalBefore));
            && d.runId == c.runId && d.phase.Settling? && d.reconciles == c.reconciles
            && d.failures == 0 && d.state.cursor == c.state.cursor
  {
    SucceedMoves(c, terminalBefore);
    EndMoves(Succeed(c, terminalBefore));
  }

  lemma NextPageMoves(c: Controller, nextCursor: Option<Sequence>)
    requires c.phase.Paging? && c.phase.pages < MAX_PAGES
    ensures var d := NextPage(c, nextCursor);
            && d.runId == c.runId && d.reconciles == c.reconciles
            && (d.phase.Settling? ||
                (nextCursor.Some? && c.phase.pages < MAX_PAGES - 1 && d.state == c.state &&
                 d.phase == Paging(c.phase.terminalBefore, nextCursor.value, c.phase.pages + 1)))
  {
    if nextCursor.None? {
      SucceededReadEnds(c, c.phase.terminalBefore);
      assert NextPage(c, nextCursor) == EndReconcile(Succeed(c, c.phase.terminalBefore));
    } else if nextCursor.value <= c.phase.after || c.phase.pages == MAX_PAGES - 1 {
      FailedReadEnds(c, None);
      assert NextPage(c, nextCursor) == ReadFailed(c, None);
    }
  }

  /** A page either ends the reconciliation or moves to the next page. */
  ghost predicate PageMoved(c: Controller, page: Page, d: Controller)
    requires c.phase.Paging?
  {
    && d.runId == c.runId && d.reconciles == c.reconciles
    && (d.phase.Settling? ||
        (page.nextCursor.Some? && c.phase.pages < MAX_PAGES - 1 && d.state == Accept(c, page.items).state &&
         d.phase == Paging(c.phase.terminalBefore, page.nextCursor.value, c.phase.pages + 1)))
  }

  lemma AcceptedPageMoves(c: Controller, page: Page, accepted: Controller)
    requires c.phase.Paging? && c.phase.pages < MAX_PAGES && accepted == Accept(c, page.items)
    ensures PageMoved(c, page, NextPage(accepted, page.nextCursor))
  {
    AcceptMoves(c, page.items);
    NextPageMoves(accepted, page.nextCursor);
  }

  lemma PageMoves(c: Controller, page: Page)
    requires c.phase.Paging? && c.phase.pages < MAX_PAGES
    ensures PageMoved(c, page, PageRead(c, page))
  {
    if c.stopped {
    } else if exists e :: e in page.items && e.runId != c.runId {
      FailedReadEnds(c, None);
    } else {
      AcceptedPageMoves(c, page, Accept(c, page.items));
    }
  }

  // ---- Pages of the log ----

  lemma PageOfLog(log: seq<Event>, position: nat, after: nat)
    requires position <= |log|
    ensures var page := ReadPage(log[..position], after, PAGE_LIMIT);
            && (forall k :: after <= k < Min(position, after + PAGE_LIMIT) ==> log[k] in page.items)
            && (page.nextCursor.Some? ==> page.nextCursor.value == after + PAGE_LIMIT < position)
            && (page.nextCursor.None? ==> position <= after + PAGE_LIMIT)
            && forall e :: e in page.items ==> e in log
  {
    var page := ReadPage(log[..position], after, PAGE_LIMIT);
    forall k | after <= k < Min(position, after + PAGE_LIMIT) ensures log[k] in page.items {
      assert page.items[k - after] == log[k];
    }
  }

  lemma LogIsFromLog(events: seq<Event>, log: seq<Event>, runId: Id)
    requires IsLog(log, runId) && forall e :: e in events ==> e in log
    ensures FromLog(events, log)
  {
  }

  /** Accepting what follows a held prefix extends the cursor to its end. */
  lemma CursorReaches(c: Controller, incoming: seq<Event>, h: History, o: Origin, to: nat)
    requires ValidHistory(h) && Sound(c.state, o, h) && c.runId == h.queued.id && FromLog(incoming, h.log)
    requires to <= |h.log| && forall k :: c.state.cursor <= k < to ==> h.log[k] in incoming || h.log[k] in c.state.events
    ensures to <= Accept(c, incoming).state.cursor
  {
    MergeIsUnion(c.state.events, incoming, h.log, c.runId);
    ReplicaHoldsPrefix(c.state, h);
    var m := Merge(c.state.events, incoming, c.runId);
    forall k | 1 <= k <= to ensures Holds(m.events, k) {
      assert h.log[k - 1] in m.events;
    }
    CursorIsLongestPrefix(m.events, to);
  }

  // ---- Every action keeps the invariant ----

  /** What one client input must do for the system to stay good. */
  ghost predicate ClientStep(s: System, next: Controller) {
    && Keeps(s.client, next, s.origin, s.history)
    && next.runId == s.client.runId
    && PhaseHolds(Track(s, next, s.origin, s.historyFrom))
  }

  lemma ClientStepIsGood(s: System, next: Controller)
    requires Good(s) && ClientStep(s, next)
    ensures Good(Track(s, next, s.origin, s.historyFrom))
  {
    var t := Track(s, next, s.origin, s.historyFrom);
    forall i | 0 <= i < |t.origins| ensures Shown(next.published[i], t.origins[i], t.history) {
      if i < |s.origins| { assert next.published[i] == s.client.published[i] && t.origins[i] == s.origins[i]; }
    }
  }

  /** The phase stays in place while the cursor can only grow, or a new reconciliation reads the log held so far. */
  lemma PhaseKeptHolds(s: System, next: Controller)
    requires Good(s) && PhaseMoves(s.client, next) && Keeps(s.client, next, s.origin, s.history)
    requires s.client.phase.Paging? ==> s.client.state.cursor <= next.state.cursor
    ensures PhaseHolds(Track(s, next, s.origin, s.historyFrom))
  {
    LatestTerminalIsMember(next.state.events);
  }

  lemma RefreshStep(s: System)
    requires Good(s)
    ensures ClientStep(s, Refresh(s.client))
  {
    SilentKeeps(s.client, Refresh(s.client), s.origin, s.history);
    PhaseKeptHolds(s, Refresh(s.client));
  }

  lemma FailStep(s: System, status: Option<nat>)
    requires Good(s)
    ensures ClientStep(s, ReadFailed(s.client, status))
  {
    ReadFailedKeeps(s.client, status, s.origin, s.history);
    FailedReadEnds(s.client, status);
  }

  lemma SettleStep(s: System)
    requires Good(s) && s.client.phase.Settling?
    ensures ClientStep(s, Settle(s.client))
  {
    SilentKeeps(s.client, Settle(s.client), s.origin, s.history);
    LatestTerminalIsMember(s.client.state.events);
  }

  lemma StopStep(s: System)
    requires Good(s)
    ensures ClientStep(s, Stop(s.client))
  {
    SilentKeeps(s.client, Stop(s.client), s.origin, s.history);
    PhaseKeptHolds(s, Stop(s.client));
  }

  lemma OpenedStep(s: System, source: Handle)
    requires Good(s)
    ensures ClientStep(s, StreamOpened(s.client, source))
  {
    var c := s.client;
    if c.stopped || c.stream != Some(source) {
      SilentKeeps(c, c, s.origin, s.history);
    } else {
      TellKeeps(c, c.(reconnectFailures := 0, state := c.state.(connection := Live)), s.origin, s.history);
    }
    PhaseKeptHolds(s, StreamOpened(c, source));
  }

  lemma TimerStep(s: System, timer: Handle)
    requires Good(s) && timer in s.client.timers
    ensures ClientStep(s, WallController.TimerFires(s.client, timer))
  {
    SilentKeeps(s.client, WallController.TimerFires(s.client, timer), s.origin, s.history);
    PhaseKeptHolds(s, WallController.TimerFires(s.client, timer));
  }

  lemma StreamFailedStep(s: System, source: Handle)
    requires Good(s)
    ensures ClientStep(s, StreamFailed(s.client, source))
  {
    StreamFailedKeeps(s.client, source, s.origin, s.history);
    StreamFailedMoves(s.client, source);
    ControllerHistory.StreamFailedGrows(s.client, source);
    CursorGrows(s.client.state.events, StreamFailed(s.client, source).state.events);
    PhaseKeptHolds(s, StreamFailed(s.client, source));
  }

  lemma MessageStep(s: System, source: Handle, kind: EventKind, parsed: Option<Event>, lastEventId: string)
    requires Good(s) && (parsed.Some? ==> FromLog([parsed.value], s.history.log))
    ensures ClientStep(s, StreamMessage(s.client, source, kind, parsed, lastEventId))
  {
    var next := StreamMessage(s.client, source, kind, parsed, lastEventId);
    StreamMessageKeeps(s.client, source, kind, parsed, lastEventId, s.origin, s.history);
    MessageMoves(s.client, source, kind, parsed, lastEventId);
    ControllerHistory.StreamMessageGrows(s.client, source, kind, parsed, lastEventId);
    CursorGrows(s.client.state.events, next.state.events);
    PhaseKeptHolds(s, next);
  }

  lemma SnapshotStep(s: System, run: Run, runAt: nat, attemptsAt: nat, attempts: seq<Attempt>, summaries: seq<Summary>,
                     sessions: seq<Session>)
    requires Good(s) && s.client.phase.Reading? && !s.client.stopped
    requires s.readStart <= runAt <= |s.history.log| && s.readStart <= attemptsAt <= |s.history.log|
    requires forall x :: x in attempts ==> x.status == AttemptRow(Queued, x.id, s.history.log[..attemptsAt])
    requires run.status == RunRow(s.history.queued, s.history.log[..runAt]).status
    ensures var next := SnapshotRead(s.client, run, attempts, summaries, sessions);
            Good(Track(s, next, Origin(s.readStart, runAt, attemptsAt), s.client.state.cursor))
  {
    var next := SnapshotRead(s.client, run, attempts, summaries, sessions);
    var o := Origin(s.readStart, runAt, attemptsAt);
    assert RunAt(next.state, s.history, runAt);
    assert AttemptsAt(next.state, s.history, attemptsAt);
    assert Sound(next.state, o, s.history);
    var t := Track(s, next, o, s.client.state.cursor);
    assert t.origins == s.origins;
  }

  /** What a page read at some position does: it fails, it ends the history, or it moves on by one full page. */
  lemma PageStep(s: System, position: nat)
    requires Good(s) && s.client.phase.Paging? && s.pageStart <= position <= |s.history.log|
    ensures ClientStep(s, PageRead(s.client, ReadPage(s.history.log[..position], s.client.phase.after, PAGE_LIMIT)))
  {
    var c, log := s.client, s.history.log;
    var page := ReadPage(log[..position], c.phase.after, PAGE_LIMIT);
    PageOfLog(log, position, c.phase.after);
    LogIsFromLog(page.items, log, c.runId);
    PageReadKeeps(c, page, s.origin, s.history);
    PageMoves(c, page);
    PagePhaseHolds(s, page, position);
  }

  lemma PagePhaseHolds(s: System, page: Page, position: nat)
    requires Good(s) && s.client.phase.Paging? && position <= |s.history.log|
    requires FromLog(page.items, s.history.log)
    requires forall k :: s.client.phase.after <= k < Min(position, s.client.phase.after + PAGE_LIMIT) ==>
               s.history.log[k] in page.items
    requires page.nextCursor.Some? ==> page.nextCursor.value == s.client.phase.after + PAGE_LIMIT < position
    ensures PhaseHolds(Track(s, PageRead(s.client, page), s.origin, s.historyFrom))
  {
    var c := s.client;
    PageMoves(c, page);
    if !PageRead(c, page).phase.Settling? {
      CursorWithin(c.state.events, s.history.log);
      CursorReaches(c, page.items, s.history, s.origin, Max(c.state.cursor, c.phase.after + PAGE_LIMIT));
    }
  }

  lemma ServerStepIsGood(s: System, a: Action)
    requires Good(s) && Can(s, a) && (a.ServerAccepts? || a.ServerSteps?)
    ensures Good(Apply(s, a))
  {
    match a {
      case ServerAccepts(_, handler, request, now, lifetime) =>
        var stream := EventStream.Open(handler, request, now, lifetime).streams[|handler.streams|];
        EventStream.OpenStarts(handler, request, now, lifetime);
        OwnQueryAsks(Resumed(s.client), stream.after, stream.limit);
        assert Slice(s.history.log, stream.after, stream.after) == [];
      case ServerSteps(source, step) =>
        StepDelivers(s.deliveries[source], s.history.queued, s.history.log, KEEPALIVE, step);
      case _ =>
    }
  }

  lemma CommitIsGood(s: System, batch: seq<Event>)
    requires Good(s) && Can(s, Commits(batch))
    ensures Good(Apply(s, Commits(batch)))
  {
    var g := s.history.(log := s.history.log + batch);
    StaysSound(s.client.state, s.origin, s.history, batch);
    forall i | 0 <= i < |s.origins| ensures Shown(s.client.published[i], s.origins[i], g) {
      StaysSound(s.client.published[i], s.origins[i], s.history, batch);
    }
    forall source | source in s.deliveries ensures Delivers(s.deliveries[source], s.history.queued, g.log) {
      StepDelivers(s.deliveries[source], s.history.queued, s.history.log, KEEPALIVE, Commit(batch));
    }
  }

  lemma SentFramesAreLog(s: System, source: Handle, event: Event)
    requires Good(s) && source in s.deliveries && event in Emitted(s.deliveries[source].stream.sent)
    ensures FromLog([event], s.history.log)
  {
    assert event in s.history.log;
  }

  lemma PromiseStep(s: System, a: Action)
    requires Good(s) && Can(s, a) && (a.ReadFails? || a.PromiseEnds?)
    ensures ClientStep(s, React(s.client, InputOf(s, a)))
  {
    if a.ReadFails? {
      FailStep(s, a.status);
      assert React(s.client, InputOf(s, a)) == ReadFailed(s.client, a.status);
    } else {
      SettleStep(s);
      assert React(s.client, InputOf(s, a)) == Settle(s.client);
    }
  }

  lemma PageIsRead(s: System, a: Action)
    requires Can(s, a) && a.PageReturns?
    ensures React(s.client, InputOf(s, a)) ==
      PageRead(s.client, ReadPage(s.history.log[..a.position], s.client.phase.after, PAGE_LIMIT))
  {
  }

  lemma ReadInputStep(s: System, a: Action)
    requires Good(s) && Can(s, a) && (a.PageReturns? || a.ReadFails? || a.PromiseEnds?)
    ensures ClientStep(s, React(s.client, InputOf(s, a)))
  {
    if a.PageReturns? {
      PageStep(s, a.position);
      PageIsRead(s, a);
    } else {
      PromiseStep(s, a);
    }
  }

  lemma MessageInputStep(s: System, source: Handle, kind: EventKind, parsed: Option<Event>, lastEventId: string)
    requires Good(s) && (parsed.Some? ==> FromLog([parsed.value], s.history.log))
    ensures ClientStep(s, React(s.client, MessageOn(source, kind, parsed, lastEventId)))
  {
    MessageStep(s, source, kind, parsed, lastEventId);
    assert React(s.client, MessageOn(source, kind, parsed, lastEventId)) ==
      StreamMessage(s.client, source, kind, parsed, lastEventId);
  }

  /** A message on the stream, true or garbled, an error or an opening. */
  lemma StreamInputStep(s: System, a: Action)
    requires Good(s) && Can(s, a)
    requires a.FrameArrives? || a.GarbageArrives? || a.StreamConnects? || a.StreamBreaks?
    ensures ClientStep(s, React(s.client, InputOf(s, a)))
  {
    if a.FrameArrives? {
      SentFramesAreLog(s, a.source, a.event);
      MessageInputStep(s, a.source, a.event.kind, Some(a.event), Print(a.event.sequence));
    } else if a.GarbageArrives? {
      MessageInputStep(s, a.source, a.kind, None, a.lastEventId);
    } else {
      StreamChangeStep(s, a);
    }
  }

  lemma StreamChangeStep(s: System, a: Action)
    requires Good(s) && (a.StreamConnects? || a.StreamBreaks?)
    ensures ClientStep(s, React(s.client, InputOf(s, a)))
  {
    if a.StreamConnects? {
      OpenedStep(s, a.source);
      assert React(s.client, InputOf(s, a)) == StreamOpened(s.client, a.source);
    } else {
      StreamFailedStep(s, a.source);
      assert React(s.client, InputOf(s, a)) == StreamFailed(s.client, a.source);
    }
  }

  lemma ClientInputStep(s: System, a: Action)
    requires Good(s) && Can(s, a) && OfClient(a) && !a.SnapshotReturns?
    ensures ClientStep(s, React(s.client, InputOf(s, a)))
  {
    if a.PageReturns? || a.ReadFails? || a.PromiseEnds? {
      ReadInputStep(s, a);
    } else if a.StreamConnects? || a.FrameArrives? || a.GarbageArrives? || a.StreamBreaks? {
      StreamInputStep(s, a);
    } else if a.TimerFires? {
      TimerStep(s, a.timer);
    } else if a.ClientStops? {
      StopStep(s);
    } else {
      RefreshStep(s);
    }
  }

  lemma StoppedSnapshotIsGood(s: System, a: Action)
    requires Good(s) && Can(s, a) && a.SnapshotReturns? && s.client.stopped
    ensures Good(Apply(s, a))
  {
    var next := React(s.client, InputOf(s, a));
    SilentKeeps(s.client, next, s.origin, s.history);
    ClientStepIsGood(s, next);
  }

  /** Every action of every party keeps the invariant. */
  lemma StaysGood(s: System, a: Action)
    requires Good(s) && Can(s, a)
    ensures Good(Apply(s, a))
  {
    if a.Commits? {
      CommitIsGood(s, a.batch);
    } else if a.ServerAccepts? || a.ServerSteps? {
      ServerStepIsGood(s, a);
    } else if a.SnapshotReturns? {
      if s.client.stopped {
        StoppedSnapshotIsGood(s, a);
      } else {
        SnapshotStep(s, ReadRow(s.history.queued, s.history.log[..a.runAt], a.cancelledAt), a.runAt, a.attemptsAt, a.attempts, a.summaries, a.sessions);
      }
    } else {
      ClientInputStep(s, a);
      ClientStepIsGood(s, React(s.client, InputOf(s, a)));
    }
  }

  // ---- Runs ----

  ghost predicate CanAll(s: System, actions: seq<Action>)
    decreases |actions|
  {
    actions == [] || (Can(s, actions[0]) && CanAll(Apply(s, actions[0]), actions[1..]))
  }

  ghost function ApplyAll(s: System, actions: seq<Action>): System
    requires CanAll(s, actions)
    decreases |actions|
  {
    if actions == [] then s else ApplyAll(Apply(s, actions[0]), actions[1..])
  }

  lemma {:induction false} AlwaysGood(s: System, actions: seq<Action>)
    requires Good(s) && CanAll(s, actions)
    ensures Good(ApplyAll(s, actions))
    decreases |actions|
  {
    if actions != [] {
      StaysGood(s, actions[0]);
      AlwaysGood(Apply(s, actions[0]), actions[1..]);
    }
  }

  /** In every interleaving the buffer is a selection of the log and the cursor its longest held prefix. */
  lemma ReplicaOfTheLog(queued: Run, actions: seq<Action>, k: nat)
    requires queued.status == Queued && CanAll(Initial(queued), actions)
    ensures var s := ApplyAll(Initial(queued), actions);
            var w, log := s.client.state, s.history.log;
            && (forall e :: e in w.events ==> e.sequence <= |log| && e == log[e.sequence - 1])
            && StrictlySorted(w.events) && w.cursor <= |log|
            && (k <= w.cursor <==> forall i :: 1 <= i <= k ==> Holds(w.events, i))
  {
    StartsGood(queued);
    AlwaysGood(Initial(queued), actions);
    var s := ApplyAll(Initial(queued), actions);
    CursorIsLongestPrefix(s.client.state.events, k);
    CursorWithin(s.client.state.events, s.history.log);
  }

  /** Every published wall shows each status as of the later of its read and its cursor; and once it is settled, every
      terminal event it holds was committed before the reads behind its summaries began. */
  lemma PublishedWallsAreTrue(queued: Run, actions: seq<Action>, i: nat)
    requires queued.status == Queued && CanAll(Initial(queued), actions)
    requires i < |ApplyAll(Initial(queued), actions).client.published|
    ensures var s := ApplyAll(Initial(queued), actions);
            var p, log := s.client.published[i], s.history.log;
            && |s.origins| == |s.client.published|
            && var o := s.origins[i];
            && o.run <= |log| && o.attempts <= |log| && p.cursor <= |log|
            && (p.run.Some? ==> p.run.value.status == RunRow(queued, log[..Max(o.run, p.cursor)]).status)
            && (forall a :: a in p.attempts ==> a.status == AttemptRow(Queued, a.id, log[..Max(o.attempts, p.cursor)]))
            && (!p.finalizing ==> forall e :: e in p.events && IsTerminalKind(e) ==> e.sequence <= o.summaries)
  {
    StartsGood(queued);
    AlwaysGood(Initial(queued), actions);
    QueuedStays(Initial(queued), actions);
    var s := ApplyAll(Initial(queued), actions);
    CursorWithin(s.client.published[i].events, s.history.log);
  }

  lemma {:induction false} QueuedStays(s: System, actions: seq<Action>)
    requires CanAll(s, actions)
    ensures ApplyAll(s, actions).history.queued == s.history.queued && s.history.log <= ApplyAll(s, actions).history.log
    decreases |actions|
  {
    if actions != [] { QueuedStays(Apply(s, actions[0]), actions[1..]); }
  }

  // ---- Reconciliations ----

  /** The page read at `position` is the last one: nothing remained above it. */
  predicate LastPage(s: System, position: nat)
    requires s.client.phase.Paging? && position <= |s.history.log|
  {
    ReadPage(s.history.log[..position], s.client.phase.after, PAGE_LIMIT).nextCursor.None?
  }

  /** A reconciliation that ends without failing holds everything up to its last page read, so everything committed
      before that read, and before the reconciliation, began. */
  lemma ReconcileCatchesUp(s: System, position: nat)
    requires Good(s) && Can(s, PageReturns(position)) && !s.client.stopped && LastPage(s, position)
    ensures var t := Apply(s, PageReturns(position));
            && t.client.phase.Settling? && t.client.failures == 0
            && s.pageStart <= position <= t.client.state.cursor
  {
    var c, log := s.client, s.history.log;
    var page := ReadPage(log[..position], c.phase.after, PAGE_LIMIT);
    PageOfLog(log, position, c.phase.after);
    LogIsFromLog(page.items, log, c.runId);
    CursorWithin(c.state.events, log);
    CursorReaches(c, page.items, s.history, s.origin, Max(c.state.cursor, position));
    LastPageSucceeds(c, page);
  }

  lemma LastPageSucceeds(c: Controller, page: Page)
    requires c.phase.Paging? && !c.stopped && page.nextCursor.None? && forall e :: e in page.items ==> e.runId == c.runId
    ensures var d := PageRead(c, page);
            d.phase.Settling? && d.failures == 0 && d.state.cursor == Accept(c, page.items).state.cursor
  {
    SucceededReadEnds(Accept(c, page.items), c.phase.terminalBefore);
  }

  /** A reconciliation stopped by the page cap fails, but keeps all of the hundred full pages it read. */
  lemma CapKeepsTheAdvance(s: System, position: nat)
    requires Good(s) && Can(s, PageReturns(position)) && !s.client.stopped
    requires s.client.phase.pages == 99 && !LastPage(s, position)
    ensures var t := Apply(s, PageReturns(position));
            && t.client.phase.Settling? && t.client.failures == s.client.failures + 1
            && t.client.state.cursor >= s.historyFrom + 10000
            && forall e :: e in s.client.state.events ==> e in t.client.state.events
  {
    var page := ReadPage(s.history.log[..position], s.client.phase.after, PAGE_LIMIT);
    ControllerHistory.PageReadGrows(s.client, page);
    FullPageAdvances(s, position);
    CappedPageFails(s.client, page);
  }

  lemma FullPageAdvances(s: System, position: nat)
    requires Good(s) && s.client.phase.Paging? && position <= |s.history.log| && !LastPage(s, position)
    ensures var page := ReadPage(s.history.log[..position], s.client.phase.after, PAGE_LIMIT);
            && page.nextCursor.Some? && (forall e :: e in page.items ==> e.runId == s.client.runId)
            && s.client.phase.after + PAGE_LIMIT <= Accept(s.client, page.items).state.cursor
  {
    var c, log := s.client, s.history.log;
    var page := ReadPage(log[..position], c.phase.after, PAGE_LIMIT);
    PageOfLog(log, position, c.phase.after);
    LogIsFromLog(page.items, log, c.runId);
    CursorReaches(c, page.items, s.history, s.origin, c.phase.after + PAGE_LIMIT);
  }

  lemma FailureCounts(c: Controller)
    requires !c.stopped
    ensures var d := ReadFailed(c, None);
            d.phase.Settling? && d.failures == c.failures + 1 && d.state.cursor == c.state.cursor
  {
    EndMoves(Fail(c, None));
  }

  lemma CappedPageFails(c: Controller, page: Page)
    requires c.phase.Paging? && !c.stopped && page.nextCursor.Some? && c.phase.pages == MAX_PAGES - 1
    requires forall e :: e in page.items ==> e.runId == c.runId
    ensures var d := PageRead(c, page);
            d.phase.Settling? && d.failures == c.failures + 1 && d.state.cursor == Accept(c, page.items).state.cursor
  {
    AcceptMoves(c, page.items);
    FailureCounts(Accept(c, page.items));
    assert PageRead(c, page) == ReadFailed(Accept(c, page.items), None);
  }

  /** Nothing but a 404 ever lowers the cursor or forgets an event. */
  lemma CursorNeverFalls(s: System, a: Action)
    requires Good(s) && Can(s, a) && a != ReadFails(Some(404))
    ensures s.client.state.cursor <= Apply(s, a).client.state.cursor
    ensures forall e :: e in s.client.state.events ==> e in Apply(s, a).client.state.events
  {
    if OfClient(a) { ControllerHistory.ReactGrows(s.client, InputOf(s, a)); }
  }
}
