/** The state of the live wall's controller (src/lib/live-wall.ts), with the handles and timers it holds in the world around
    it, and what every input makes of that state: a read that returns or fails, a message, a timer, a stop. */
module WallController {
  import opened RunLog
  import opened EventMerge
  import opened WallProjection
  import opened Decimal
  import opened Powers

  const PAGE_LIMIT := 100
  const MAX_PAGES := 100

  type Handle = nat

  datatype Purpose = Poll | Reconnect

  datatype Timer = Timer(purpose: Purpose, delay: nat)

  /** Where the one promise of a reconciliation is. `Settling` is the moment before its `finally` runs. */
  datatype Phase =
    | Idle
    | Reading(terminalBefore: nat)
    | Paging(terminalBefore: nat, after: nat, pages: nat)
    | Settling

  datatype Controller = Controller(
    runId: Id,
    state: WallSnapshot,
    stopped: bool,
    stream: Option<Handle>,
    phase: Phase,
    again: bool,
    failures: nat,
    rateLimited: bool,
    unavailable: bool,
    reconnectFailures: nat,
    terminalPolls: nat,
    poll: Option<Handle>,
    reconnect: Option<Handle>,
    // What the controller did to the world around it.
    nextHandle: nat,
    open: set<Handle>,
    timers: map<Handle, Timer>,
    published: seq<WallSnapshot>,
    resumed: seq<nat>,
    unauthorized: nat,
    reconciles: nat)

  function Start(runId: Id): Controller {
    Controller(runId, EMPTY_WALL, false, None, Idle, false, 0, false, false, 0, 0, None, None,
               0, {}, map[], [], [], 0, 0)
  }

  predicate RunTerminal(s: WallSnapshot) {
    s.run.Some? && IsTerminal(s.run.value.status)
  }

  function Unset(timers: map<Handle, Timer>, timer: Option<Handle>): map<Handle, Timer> {
    if timer.Some? then timers - {timer.value} else timers
  }

  // ---- The handlers ----

  function Publish(c: Controller): Controller {
    if c.stopped then c
    else
      var state := Project(c.state);
      c.(state := state, published := c.published + [state])
  }

  function CloseStream(c: Controller): Controller {
    c.(open := if c.stream.Some? then c.open - {c.stream.value} else c.open, stream := None)
  }

  function Stop(c: Controller): Controller {
    var closed := CloseStream(c.(stopped := true));
    closed.(timers := Unset(Unset(closed.timers, closed.poll), closed.reconnect))
  }

  function ClearReconnect(c: Controller): Controller {
    c.(timers := Unset(c.timers, c.reconnect), reconnect := None)
  }

  function TellExpiry(c: Controller): Controller {
    Publish(c.(state := c.state.(sessions := [], error := Some(SessionExpired))))
  }

  /** The owner session is gone: clear the viewers and stop. */
  function Expire(c: Controller): Controller {
    var stopped := Stop(TellExpiry(c));
    stopped.(unauthorized := stopped.unauthorized + 1)
  }

  function FailedState(state: WallSnapshot, missing: bool, limited: bool): WallSnapshot {
    if missing then EMPTY_WALL.(connection := Unavailable, error := Some(RunUnavailable))
    else state.(sessions := [], error := Some(if limited then ReadLimitReached else CouldNotRefresh))
  }

  function Failed(c: Controller, missing: bool, limited: bool): Controller {
    c.(unavailable := missing, state := FailedState(c.state, missing, limited),
       failures := c.failures + 1, rateLimited := limited)
  }

  function Retry(c: Controller, missing: bool, limited: bool): Controller {
    var failed := Failed(c, missing, limited);
    Publish(if limited || missing then ClearReconnect(CloseStream(failed)) else failed)
  }

  function Fail(c: Controller, status: Option<nat>): Controller {
    if status == Some(401) || status == Some(403) then Expire(c)
    else Retry(c, status == Some(404), status == Some(429))
  }

  predicate NewTerminal(events: seq<Event>, incoming: seq<Event>) {
    exists e :: e in incoming && IsTerminalKind(e) && !exists known :: known in events && known.sequence == e.sequence
  }

  ghost function Accept(c: Controller, incoming: seq<Event>): Controller {
    var merged := Merge(c.state.events, incoming, c.runId);
    Publish(c.(state := c.state.(
      events := merged.events, cursor := merged.cursor,
      finalizing := c.state.finalizing || NewTerminal(c.state.events, incoming))))
  }

  ghost predicate Gap(c: Controller, incoming: seq<Event>) {
    Merge(c.state.events, incoming, c.runId).gap
  }

  function OpenStream(c: Controller): Controller {
    if c.stopped || c.stream.Some? || c.reconnect.Some? || c.state.run.None? || RunTerminal(c.state) then c
    else c.(stream := Some(c.nextHandle), open := c.open + {c.nextHandle}, nextHandle := c.nextHandle + 1,
            resumed := c.resumed + [c.state.cursor])
  }

  /** The largest sequence of a terminal event in the buffer, 0 without one. */
  function LatestTerminal(events: seq<Event>): nat {
    if events == [] then 0
    else
      var e := events[|events| - 1];
      var before := LatestTerminal(events[..|events| - 1]);
      if IsTerminalKind(e) then Max(before, e.sequence) else before
  }

  lemma {:induction false} LatestTerminalIsMember(events: seq<Event>)
    ensures forall e :: e in events && IsTerminalKind(e) ==> e.sequence <= LatestTerminal(events)
    ensures LatestTerminal(events) > 0 ==> exists e :: e in events && IsTerminalKind(e) && e.sequence == LatestTerminal(events)
  {
    if events != [] {
      var n := |events| - 1;
      LatestTerminalIsMember(events[..n]);
      assert events == events[..n] + [events[n]];
    }
  }

  function StartReconcile(c: Controller): Controller {
    c.(timers := Unset(c.timers, c.poll), phase := Reading(LatestTerminal(c.state.events)), reconciles := c.reconciles + 1)
  }

  function Refresh(c: Controller): Controller {
    if c.stopped then c
    else if c.phase != Idle then c.(again := true)
    else StartReconcile(c)
  }

  function Backoff(limit: nat, first: nat, failures: nat, most: nat): nat {
    Min(limit, first * Pow2(Min(failures, most)))
  }

  function PollDelay(c: Controller, terminal: bool): nat {
    if c.rateLimited then 60000
    else if c.failures > 0 then Backoff(60000, 5000, c.failures, 4)
    else if terminal && c.terminalPolls + 1 > 12 then 30000
    else 5000
  }

  /** What is left to wait for: a failure to retry, a settling history, a running run or cleanup. */
  predicate MustPoll(c: Controller) {
    c.failures > 0 || c.state.finalizing || !RunTerminal(c.state) || NeedsCleanup(c.state.summaries)
  }

  function EndReconcile(c: Controller): Controller {
    if c.stopped then c.(phase := Settling)
    else
      var terminal := RunTerminal(c.state);
      if c.unavailable || !MustPoll(c) then c.(phase := Settling)
      else
        c.(phase := Settling,
           terminalPolls := if !c.rateLimited && c.failures == 0 && terminal then c.terminalPolls + 1 else c.terminalPolls,
           timers := c.timers[c.nextHandle := Timer(Poll, PollDelay(c, terminal))],
           poll := Some(c.nextHandle), nextHandle := c.nextHandle + 1)
  }

  function SnapshotRead(c: Controller, run: Run, attempts: seq<Attempt>, summaries: seq<Summary>, sessions: seq<Session>): Controller
    requires c.phase.Reading?
  {
    if c.stopped then c.(phase := Settling)
    else
      c.(state := c.state.(run := Some(run), attempts := attempts, summaries := summaries, sessions := sessions),
         phase := Paging(c.phase.terminalBefore, c.state.cursor, 0))
  }

  function ReadFailed(c: Controller, status: Option<nat>): Controller {
    EndReconcile(if c.stopped then c else Fail(c, status))
  }

  predicate Discovered(events: seq<Event>, terminalBefore: nat) {
    exists e :: e in events && e.sequence > terminalBefore && IsTerminalKind(e)
  }

  /** A finished run needs no stream; any other is streamed from its cursor. */
  function Conclude(c: Controller): Controller {
    if RunTerminal(c.state) then
      var closed := ClearReconnect(CloseStream(c));
      Publish(closed.(state := closed.state.(connection := Finished)))
    else OpenStream(c)
  }

  /** The history was read to its end; a terminal event found on the way asks for one more reading. */
  function HistoryRead(c: Controller, terminalBefore: nat): Controller {
    var discovered := Discovered(c.state.events, terminalBefore);
    c.(failures := 0, rateLimited := false, unavailable := false, again := c.again || discovered,
       state := c.state.(error := None, finalizing := discovered))
  }

  function Succeed(c: Controller, terminalBefore: nat): Controller {
    Conclude(Publish(HistoryRead(c, terminalBefore)))
  }

  /** The rest of the paging loop's body, once the page's events are in the buffer. */
  function NextPage(c: Controller, nextCursor: Option<Sequence>): Controller
    requires c.phase.Paging?
  {
    if nextCursor.None? then EndReconcile(Succeed(c, c.phase.terminalBefore))
    else if nextCursor.value <= c.phase.after || c.phase.pages == MAX_PAGES - 1 then ReadFailed(c, None)
    else c.(phase := Paging(c.phase.terminalBefore, nextCursor.value, c.phase.pages + 1))
  }

  ghost function PageRead(c: Controller, page: Page): Controller
    requires c.phase.Paging?
  {
    if c.stopped then c.(phase := Settling)
    else if exists e :: e in page.items && e.runId != c.runId then ReadFailed(c, None)
    else NextPage(Accept(c, page.items), page.nextCursor)
  }

  /** The `finally` of the promise. */
  function Settle(c: Controller): Controller
    requires c.phase.Settling?
  {
    var idle := c.(phase := Idle);
    if idle.again && !idle.stopped then Refresh(idle.(again := false)) else idle
  }

  function StreamOpened(c: Controller, source: Handle): Controller {
    if c.stopped || c.stream != Some(source) then c
    else Publish(c.(reconnectFailures := 0, state := c.state.(connection := Live)))
  }

  function ReconnectDelay(c: Controller): nat {
    Backoff(30000, 1000, c.reconnectFailures, 5)
  }

  function Interrupted(c: Controller): Controller {
    var closed := CloseStream(c);
    closed.(state := closed.state.(connection := Reconnecting, sessions := []))
  }

  function ScheduleReconnect(c: Controller): Controller {
    c.(timers := c.timers[c.nextHandle := Timer(Reconnect, ReconnectDelay(c))],
       reconnect := Some(c.nextHandle), nextHandle := c.nextHandle + 1, reconnectFailures := c.reconnectFailures + 1)
  }

  function StreamFailed(c: Controller, source: Handle): Controller {
    if c.stopped || c.stream != Some(source) then c
    else Refresh(ScheduleReconnect(Publish(Interrupted(c))))
  }

  function CloseIfFinished(c: Controller): Controller {
    if RunTerminal(c.state) then
      var closed := CloseStream(c);
      Publish(closed.(state := closed.state.(connection := Finished)))
    else c
  }

  const URGENT := {RunFinished, AttemptFinished, AttemptRecovering, RunCancelRequested}

  /** `kind` is the name the frame arrived under; `parsed` is `None` when its data is not a valid event. */
  ghost function StreamMessage(c: Controller, source: Handle, kind: EventKind, parsed: Option<Event>, lastEventId: string): Controller {
    if c.stopped || c.stream != Some(source) then c
    else if parsed.None? || parsed.value.runId != c.runId || Print(parsed.value.sequence) != lastEventId then StreamFailed(c, source)
    else
      var accepted := Accept(c, [parsed.value]);
      CloseIfFinished(if Gap(c, [parsed.value]) || kind in URGENT then Refresh(accepted) else accepted)
  }

  function TimerFires(c: Controller, timer: Handle): Controller
    requires timer in c.timers
  {
    var rest := c.(timers := c.timers - {timer});
    Refresh(if c.timers[timer].purpose == Reconnect then rest.(reconnect := None) else rest)
  }

  // ---- Everything that can happen to a controller ----

  datatype Input =
    | UserRefresh
    | Snapshot(run: Run, attempts: seq<Attempt>, summaries: seq<Summary>, sessions: seq<Session>)
    | PageOf(page: Page)
    | Failure(status: Option<nat>)
    | PromiseSettles
    | Opened(source: Handle)
    | MessageOn(source: Handle, kind: EventKind, parsed: Option<Event>, lastEventId: string)
    | ErrorOn(source: Handle)
    | Timeout(timer: Handle)
    | UserStop

  predicate Enabled(c: Controller, input: Input) {
    match input
    case Snapshot(_, _, _, _) => c.phase.Reading?
    case PageOf(_) => c.phase.Paging?
    case Failure(_) => c.phase.Reading? || c.phase.Paging?
    case PromiseSettles => c.phase.Settling?
    case Timeout(timer) => timer in c.timers
    case _ => true
  }

  ghost function React(c: Controller, input: Input): Controller
    requires Enabled(c, input)
  {
    match input
    case UserRefresh => Refresh(c)
    case Snapshot(run, attempts, summaries, sessions) => SnapshotRead(c, run, attempts, summaries, sessions)
    case PageOf(page) => PageRead(c, page)
    case Failure(status) => ReadFailed(c, status)
    case PromiseSettles => Settle(c)
    case Opened(source) => StreamOpened(c, source)
    case MessageOn(source, kind, parsed, lastEventId) => StreamMessage(c, source, kind, parsed, lastEventId)
    case ErrorOn(source) => StreamFailed(c, source)
    case Timeout(timer) => TimerFires(c, timer)
    case UserStop => Stop(c)
  }
}
