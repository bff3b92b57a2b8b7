/** What holds over whole histories of a controller: nothing after a stop, no lost refresh, a growing buffer, a latched viewer. */
module ControllerHistory {
  import opened RunLog
  import opened EventMerge
  import opened WallProjection
  import opened Decimal
  import opened WallController
  import opened ControllerLifecycle

  ghost predicate Possible(c: Controller, inputs: seq<Input>)
    decreases |inputs|
  {
    inputs == [] || (Enabled(c, inputs[0]) && Possible(React(c, inputs[0]), inputs[1..]))
  }

  ghost function After(c: Controller, inputs: seq<Input>): Controller
    requires Possible(c, inputs)
    decreases |inputs|
  {
    if inputs == [] then c else After(React(c, inputs[0]), inputs[1..])
  }

  /** The lifecycle invariant holds after every order of inputs. */
  lemma {:induction false} AlwaysInvariant(c: Controller, inputs: seq<Input>)
    requires Invariant(c) && Possible(c, inputs)
    ensures Invariant(After(c, inputs))
    decreases |inputs|
  {
    if inputs != [] {
      Preserved(c, inputs[0]);
      AlwaysInvariant(React(c, inputs[0]), inputs[1..]);
    }
  }

  /** What the invariant means to the world: one poll timer, one reconnect timer, one stream, never stream and reconnect. */
  lemma OwnsAtMostOne(runId: Id, inputs: seq<Input>, s: Handle, t: Handle)
    requires Possible(Start(runId), inputs)
    ensures var c := After(Start(runId), inputs);
            && (s in c.timers && t in c.timers && c.timers[s].purpose == c.timers[t].purpose ==> s == t)
            && (s in c.open && t in c.open ==> s == t)
            && (s in c.open && t in c.timers ==> c.timers[t].purpose == Poll)
            && (c.phase.Paging? ==> c.phase.pages < MAX_PAGES)
  {
    StartsWell(runId);
    AlwaysInvariant(Start(runId), inputs);
  }

  /** An idle controller that still has something to wait for will poll; a missing run is left alone. */
  lemma IdleWillPoll(runId: Id, inputs: seq<Input>)
    requires Possible(Start(runId), inputs)
    ensures var c := After(Start(runId), inputs);
            c.phase.Idle? && c.reconciles > 0 && !c.stopped ==>
              if c.unavailable then c.timers == map[] && c.open == {}
              else FullySettled(c) || PollPending(c)
  {
    StartsWell(runId);
    AlwaysInvariant(Start(runId), inputs);
  }

  // ---- After a stop ----

  predicate Quiet(c: Controller, d: Controller) {
    && d.stopped && d.published == c.published && d.resumed == c.resumed && d.reconciles == c.reconciles
    && d.unauthorized == c.unauthorized && d.open == {} && d.timers == map[]
  }

  lemma StoppedStaysQuiet(c: Controller, input: Input)
    requires Invariant(c) && c.stopped && Enabled(c, input)
    ensures Quiet(c, React(c, input))
  {
  }

  /** After a stop nothing is published, opened, scheduled or read again, whatever still arrives. */
  lemma {:induction false} NothingAfterStop(c: Controller, inputs: seq<Input>)
    requires Invariant(c) && c.stopped && Possible(c, inputs)
    ensures Quiet(c, After(c, inputs))
    decreases |inputs|
  {
    if inputs != [] {
      StoppedStaysQuiet(c, inputs[0]);
      Preserved(c, inputs[0]);
      NothingAfterStop(React(c, inputs[0]), inputs[1..]);
    }
  }

  // ---- A refresh asked for during a reconciliation ----

  /** Still owed: a later reconciliation has begun, or one will when this one settles. */
  predicate Owed(d: Controller, reconciles: nat) {
    d.stopped || d.reconciles > reconciles || (d.reconciles == reconciles && d.again && !d.phase.Idle?)
  }

  predicate KeepsAsking(c: Controller, d: Controller) {
    && (c.again ==> d.again) && c.reconciles <= d.reconciles && (c.stopped ==> d.stopped)
    && (c.phase.Idle? <==> d.phase.Idle?)
  }

  lemma FailKeepsAsking(c: Controller, status: Option<nat>)
    requires !c.phase.Idle?
    ensures KeepsAsking(c, ReadFailed(c, status))
  {
  }

  lemma NextPageKeepsAsking(c: Controller, nextCursor: Option<Sequence>)
    requires c.phase.Paging?
    ensures KeepsAsking(c, NextPage(c, nextCursor))
  {
    FailKeepsAsking(c, None);
  }

  lemma PageKeepsAsking(c: Controller, page: Page)
    requires c.phase.Paging?
    ensures KeepsAsking(c, PageRead(c, page))
  {
    FailKeepsAsking(c, None);
    AcceptKeeps(c, page.items);
    NextPageKeepsAsking(Accept(c, page.items), page.nextCursor);
  }

  lemma StreamFailedKeepsAsking(c: Controller, source: Handle)
    requires !c.phase.Idle?
    ensures KeepsAsking(c, StreamFailed(c, source))
  {
  }

  lemma CloseKeepsAsking(c: Controller)
    requires !c.phase.Idle?
    ensures KeepsAsking(c, CloseIfFinished(c)) && KeepsAsking(c, CloseIfFinished(Refresh(c)))
  {
  }

  lemma MessageTaken(c: Controller, source: Handle, kind: EventKind, e: Event)
    requires !c.stopped && c.stream == Some(source) && e.runId == c.runId
    ensures var accepted := Accept(c, [e]);
            StreamMessage(c, source, kind, Some(e), Print(e.sequence)) ==
            CloseIfFinished(if Gap(c, [e]) || kind in URGENT then Refresh(accepted) else accepted)
  {
  }

  lemma MessageKeepsAsking(c: Controller, source: Handle, kind: EventKind, parsed: Option<Event>, lastEventId: string)
    requires !c.phase.Idle?
    ensures KeepsAsking(c, StreamMessage(c, source, kind, parsed, lastEventId))
  {
    if c.stopped || c.stream != Some(source) {
    } else if parsed.None? || parsed.value.runId != c.runId || Print(parsed.value.sequence) != lastEventId {
      StreamFailedKeepsAsking(c, source);
    } else {
      AcceptKeeps(c, [parsed.value]);
      CloseKeepsAsking(Accept(c, [parsed.value]));
      MessageTaken(c, source, kind, parsed.value);
    }
  }

  lemma HandlersKeepAsking(c: Controller, input: Input)
    requires Invariant(c) && Enabled(c, input) && !c.phase.Idle? && !input.PromiseSettles?
    ensures KeepsAsking(c, React(c, input))
  {
    match input
    case PageOf(page) => PageKeepsAsking(c, page);
    case Failure(status) => FailKeepsAsking(c, status);
    case MessageOn(source, kind, parsed, lastEventId) => MessageKeepsAsking(c, source, kind, parsed, lastEventId);
    case _ =>
  }

  lemma ReconcilesGrow(c: Controller, input: Input)
    requires Invariant(c) && Enabled(c, input)
    ensures c.reconciles <= React(c, input).reconciles
  {
    if !c.phase.Idle? && !input.PromiseSettles? { HandlersKeepAsking(c, input); }
  }

  lemma OwedStays(c: Controller, input: Input, reconciles: nat)
    requires Invariant(c) && Enabled(c, input) && Owed(c, reconciles)
    ensures Owed(React(c, input), reconciles)
  {
    ReconcilesGrow(c, input);
    if c.stopped {
      StoppedStaysQuiet(c, input);
    } else if !c.phase.Idle? && !input.PromiseSettles? {
      HandlersKeepAsking(c, input);
    }
  }

  /** A refresh asked for while one is under way is always followed by a later reconciliation, unless stopped. */
  lemma {:induction false} NoLostRefresh(c: Controller, inputs: seq<Input>, reconciles: nat)
    requires Invariant(c) && Possible(c, inputs) && Owed(c, reconciles)
    ensures Owed(After(c, inputs), reconciles)
    decreases |inputs|
  {
    if inputs != [] {
      Preserved(c, inputs[0]);
      OwedStays(c, inputs[0], reconciles);
      NoLostRefresh(React(c, inputs[0]), inputs[1..], reconciles);
    }
  }

  /** So in every history a refresh asked for has been answered by a new reconciliation whenever the loop is idle again,
      unless the controller was stopped. */
  lemma RefreshIsAnswered(runId: Id, before: seq<Input>, after: seq<Input>)
    requires Possible(Start(runId), before) && Possible(Refresh(After(Start(runId), before)), after)
    ensures var c := After(Start(runId), before);
            var d := After(Refresh(c), after);
            d.stopped || d.reconciles > c.reconciles || (d.again && !d.phase.Idle?)
  {
    StartsWell(runId);
    AlwaysInvariant(Start(runId), before);
    var c := After(Start(runId), before);
    AskingOwes(c);
    NoLostRefresh(Refresh(c), after, c.reconciles);
  }

  lemma AskingOwes(c: Controller)
    requires Invariant(c)
    ensures Invariant(Refresh(c)) && Owed(Refresh(c), c.reconciles)
  {
    RefreshPreserves(c);
  }

  // ---- The buffer ----

  /** The buffer is sorted and its cursor is the longest prefix it holds. */
  ghost predicate Buffered(s: WallSnapshot) {
    StrictlySorted(s.events) && s.cursor == Cursor(s.events)
  }

  ghost predicate Within(a: seq<Event>, b: seq<Event>) {
    forall e :: e in a ==> e in b
  }

  /** From c to d nothing was taken back: the buffer grew, and publications were only added. */
  ghost predicate Grows(c: Controller, d: Controller) {
    && Buffered(d.state)
    && Within(c.state.events, d.state.events)
    && |c.published| <= |d.published| && d.published[..|c.published|] == c.published
    && forall i :: |c.published| <= i < |d.published| ==> ShownFrom(c.state.events, d.published[i])
  }

  ghost predicate ShownFrom(events: seq<Event>, p: WallSnapshot) {
    Projected(p) && Buffered(p) && Within(events, p.events)
  }

  lemma GrowsOn(c: Controller, d: Controller, e: Controller)
    requires Grows(c, d) && Grows(d, e)
    ensures Grows(c, e)
  {
    assert e.published[..|c.published|] == d.published[..|c.published|];
    forall i | |c.published| <= i < |e.published| ensures ShownFrom(c.state.events, e.published[i]) {
      if i < |d.published| { assert e.published[i] == d.published[i]; }
    }
  }

  /** Changes that touch neither the buffer nor the publications. */
  lemma SameBufferGrows(c: Controller, d: Controller)
    requires Buffered(c.state) && d.published == c.published
    requires d.state.events == c.state.events && d.state.cursor == c.state.cursor
    ensures Grows(c, d)
  {
  }

  lemma PublishGrows(c: Controller)
    requires Buffered(c.state)
    ensures Grows(c, Publish(c))
  {
    ProjectionIsIdempotent(c.state);
  }

  lemma AcceptGrows(c: Controller, incoming: seq<Event>)
    requires Buffered(c.state)
    ensures Grows(c, Accept(c, incoming))
  {
    var merged := Merge(c.state.events, incoming, c.runId);
    var grown := c.(state := c.state.(events := merged.events, cursor := merged.cursor,
                    finalizing := c.state.finalizing || NewTerminal(c.state.events, incoming)));
    forall e | e in c.state.events ensures e in merged.events {
      FirstHeldStays(c.state.events, incoming, c.runId, e);
    }
    assert Grows(c, grown);
    PublishGrows(grown);
    GrowsOn(c, grown, Publish(grown));
  }

  lemma FailGrows(c: Controller, status: Option<nat>)
    requires Buffered(c.state) && status != Some(404)
    ensures Grows(c, Fail(c, status))
  {
    if status == Some(401) || status == Some(403) {
      var told := c.(state := c.state.(sessions := [], error := Some(SessionExpired)));
      SameBufferGrows(c, told);
      PublishGrows(told);
      GrowsOn(c, told, Publish(told));
      SameBufferGrows(Publish(told), Fail(c, status));
      GrowsOn(c, Publish(told), Fail(c, status));
    } else {
      var limited := status == Some(429);
      var failed := c.(unavailable := false, failures := c.failures + 1, rateLimited := limited,
        state := c.state.(sessions := [], error := Some(if limited then ReadLimitReached else CouldNotRefresh)));
      var before := if limited then ClearReconnect(CloseStream(failed)) else failed;
      SameBufferGrows(c, before);
      PublishGrows(before);
      GrowsOn(c, before, Publish(before));
    }
  }

  lemma ReadFailedGrows(c: Controller, status: Option<nat>)
    requires Buffered(c.state) && status != Some(404)
    ensures Grows(c, ReadFailed(c, status))
  {
    var f := if c.stopped then c else Fail(c, status);
    if c.stopped { SameBufferGrows(c, f); } else { FailGrows(c, status); }
    SameBufferGrows(f, EndReconcile(f));
    GrowsOn(c, f, EndReconcile(f));
  }

  lemma SucceedGrows(c: Controller, terminalBefore: nat)
    requires Buffered(c.state)
    ensures Grows(c, Succeed(c, terminalBefore))
  {
    var read := HistoryRead(c, terminalBefore);
    SameBufferGrows(c, read);
    PublishGrows(read);
    var told := Publish(read);
    GrowsOn(c, read, told);
    if RunTerminal(told.state) {
      var closed := ClearReconnect(CloseStream(told));
      var finished := closed.(state := closed.state.(connection := Finished));
      SameBufferGrows(told, finished);
      PublishGrows(finished);
      GrowsOn(told, finished, Publish(finished));
      GrowsOn(c, told, Publish(finished));
    } else {
      SameBufferGrows(told, OpenStream(told));
      GrowsOn(c, told, OpenStream(told));
    }
  }

  lemma SuccessGrows(c: Controller, terminalBefore: nat)
    requires Buffered(c.state)
    ensures Grows(c, EndReconcile(Succeed(c, terminalBefore)))
  {
    var done := Succeed(c, terminalBefore);
    SucceedGrows(c, terminalBefore);
    SameBufferGrows(done, EndReconcile(done));
    GrowsOn(c, done, EndReconcile(done));
  }

  lemma PageReadGrows(c: Controller, page: Page)
    requires Buffered(c.state) && c.phase.Paging?
    ensures Grows(c, PageRead(c, page))
  {
    if c.stopped {
      SameBufferGrows(c, PageRead(c, page));
    } else if exists e :: e in page.items && e.runId != c.runId {
      ReadFailedGrows(c, None);
    } else {
      AcceptGrows(c, page.items);
      NextPageGrows(Accept(c, page.items), page.nextCursor);
      GrowsOn(c, Accept(c, page.items), PageRead(c, page));
    }
  }

  lemma NextPageGrows(c: Controller, nextCursor: Option<Sequence>)
    requires c.phase.Paging? && Buffered(c.state)
    ensures Grows(c, NextPage(c, nextCursor))
  {
    if nextCursor.None? {
      SuccessGrows(c, c.phase.terminalBefore);
    } else if nextCursor.value <= c.phase.after || c.phase.pages == MAX_PAGES - 1 {
      ReadFailedGrows(c, None);
    } else {
      SameBufferGrows(c, NextPage(c, nextCursor));
    }
  }

  lemma StreamFailedGrows(c: Controller, source: Handle)
    requires Buffered(c.state)
    ensures Grows(c, StreamFailed(c, source))
  {
    if c.stopped || c.stream != Some(source) {
      SameBufferGrows(c, c);
    } else {
      var quiet := Interrupted(c);
      SameBufferGrows(c, quiet);
      PublishGrows(quiet);
      GrowsOn(c, quiet, Publish(quiet));
      SameBufferGrows(Publish(quiet), StreamFailed(c, source));
      GrowsOn(c, Publish(quiet), StreamFailed(c, source));
    }
  }

  lemma FinishGrows(c: Controller)
    requires Buffered(c.state)
    ensures Grows(c, CloseIfFinished(c))
  {
    if RunTerminal(c.state) {
      var finished := CloseStream(c).(state := c.state.(connection := Finished));
      SameBufferGrows(c, finished);
      PublishGrows(finished);
      GrowsOn(c, finished, Publish(finished));
    } else {
      SameBufferGrows(c, c);
    }
  }

  lemma AskedGrows(c: Controller)
    requires Buffered(c.state)
    ensures Grows(c, CloseIfFinished(Refresh(c)))
  {
    SameBufferGrows(c, Refresh(c));
    FinishGrows(Refresh(c));
    GrowsOn(c, Refresh(c), CloseIfFinished(Refresh(c)));
  }

  lemma StreamMessageGrows(c: Controller, source: Handle, kind: EventKind, parsed: Option<Event>, lastEventId: string)
    requires Buffered(c.state)
    ensures Grows(c, StreamMessage(c, source, kind, parsed, lastEventId))
  {
    if c.stopped || c.stream != Some(source) {
      SameBufferGrows(c, c);
    } else if parsed.None? || parsed.value.runId != c.runId || Print(parsed.value.sequence) != lastEventId {
      StreamFailedGrows(c, source);
    } else {
      var accepted := Accept(c, [parsed.value]);
      AcceptGrows(c, [parsed.value]);
      FinishGrows(accepted);
      AskedGrows(accepted);
      GrowsOn(c, accepted, StreamMessage(c, source, kind, parsed, lastEventId));
    }
  }

  lemma OpenedGrows(c: Controller, source: Handle)
    requires Buffered(c.state)
    ensures Grows(c, StreamOpened(c, source))
  {
    if c.stopped || c.stream != Some(source) {
      SameBufferGrows(c, c);
    } else {
      var live := c.(reconnectFailures := 0, state := c.state.(connection := Live));
      SameBufferGrows(c, live);
      PublishGrows(live);
      GrowsOn(c, live, Publish(live));
    }
  }

  predicate IsReset(input: Input) {
    input == Failure(Some(404))
  }

  /** Nothing but a 404 takes an event back or lowers the cursor. */
  lemma ReactGrows(c: Controller, input: Input)
    requires Buffered(c.state) && Enabled(c, input) && !IsReset(input)
    ensures Grows(c, React(c, input)) && c.state.cursor <= React(c, input).state.cursor
  {
    if Tells(input) { TellingGrows(c, input); } else { SameBufferGrows(c, React(c, input)); }
    CursorGrows(c.state.events, React(c, input).state.events);
  }

  /** The inputs whose handlers may publish. */
  predicate Tells(input: Input) {
    input.PageOf? || input.Failure? || input.Opened? || input.MessageOn? || input.ErrorOn?
  }

  lemma TellingGrows(c: Controller, input: Input)
    requires Buffered(c.state) && Enabled(c, input) && !IsReset(input) && Tells(input)
    ensures Grows(c, React(c, input))
  {
    match input {
      case PageOf(page) => PageReadGrows(c, page);
      case Failure(status) => ReadFailedGrows(c, status);
      case Opened(source) => OpenedGrows(c, source);
      case MessageOn(source, kind, parsed, lastEventId) => StreamMessageGrows(c, source, kind, parsed, lastEventId);
      case ErrorOn(source) => StreamFailedGrows(c, source);
      case _ =>
    }
  }

  /** A 404 empties the wall, and the empty wall is a buffer again. */
  lemma ResetIsBuffered(c: Controller, input: Input)
    requires Buffered(c.state) && Enabled(c, input) && IsReset(input)
    ensures Buffered(React(c, input).state)
  {
  }

  lemma {:induction false} AlwaysBuffered(c: Controller, inputs: seq<Input>)
    requires Buffered(c.state) && Possible(c, inputs)
    ensures Buffered(After(c, inputs).state)
    decreases |inputs|
  {
    if inputs != [] {
      if IsReset(inputs[0]) { ResetIsBuffered(c, inputs[0]); } else { ReactGrows(c, inputs[0]); }
      AlwaysBuffered(React(c, inputs[0]), inputs[1..]);
    }
  }

  predicate NoReset(inputs: seq<Input>) {
    forall i :: 0 <= i < |inputs| ==> !IsReset(inputs[i])
  }

  lemma {:induction false} HistoryGrows(c: Controller, inputs: seq<Input>)
    requires Buffered(c.state) && Possible(c, inputs) && NoReset(inputs)
    ensures Grows(c, After(c, inputs)) && c.state.cursor <= After(c, inputs).state.cursor
    decreases |inputs|
  {
    if inputs == [] {
      SameBufferGrows(c, c);
    } else {
      var d := React(c, inputs[0]);
      ReactGrows(c, inputs[0]);
      HistoryGrows(d, inputs[1..]);
      GrowsOn(c, d, After(d, inputs[1..]));
    }
  }

  // ---- The viewer latch ----

  predicate Exposes(s: WallSnapshot, attemptId: Id) {
    exists x :: x in s.sessions && x.attemptId == attemptId && x.liveViewUrl.Some?
  }

  lemma BlockedIsHidden(p: WallSnapshot, attemptId: Id)
    requires Projected(p) && Blocks(p, attemptId)
    ensures !Exposes(p, attemptId)
  {
    assert forall i :: 0 <= i < |p.sessions| ==> Project(p).sessions[i] == p.sessions[i];
  }

  /** Once a finishing or recovering event is buffered, no later publication exposes that viewer until a 404. */
  lemma ViewerLatch(c: Controller, inputs: seq<Input>, attemptId: Id)
    requires Buffered(c.state) && Possible(c, inputs) && NoReset(inputs)
    requires Blocks(c.state, attemptId)
    ensures var d := After(c, inputs);
            forall i :: |c.published| <= i < |d.published| ==> !Exposes(d.published[i], attemptId)
  {
    HistoryGrows(c, inputs);
    var d := After(c, inputs);
    forall i | |c.published| <= i < |d.published| ensures !Exposes(d.published[i], attemptId) {
      assert ShownFrom(c.state.events, d.published[i]);
      BlockedIsHidden(d.published[i], attemptId);
    }
  }

  /** Every URL ever published belonged to a known open run and a running attempt that nothing in that wall hides. */
  lemma PublishedViewersAreSafe(runId: Id, inputs: seq<Input>, n: nat, i: nat)
    requires Possible(Start(runId), inputs)
    requires n < |After(Start(runId), inputs).published|
    requires var p := After(Start(runId), inputs).published[n]; i < |p.sessions| && p.sessions[i].liveViewUrl.Some?
    ensures var p := After(Start(runId), inputs).published[n];
            var id := p.sessions[i].attemptId;
            MayWatch(p, p, id) && p.run.value.cancelRequestedAt.None?
  {
    AllProjected(Start(runId), inputs);
    ViewersAreSafe(After(Start(runId), inputs).published[n], i);
  }

  ghost predicate OnlyProjections(c: Controller) {
    forall i :: 0 <= i < |c.published| ==> Projected(c.published[i])
  }

  lemma {:induction false} AllProjected(c: Controller, inputs: seq<Input>)
    requires Buffered(c.state) && Possible(c, inputs) && OnlyProjections(c)
    ensures OnlyProjections(After(c, inputs))
    decreases |inputs|
  {
    if inputs != [] {
      var d := React(c, inputs[0]);
      if IsReset(inputs[0]) {
        ResetIsBuffered(c, inputs[0]);
        ResetPublishesProjection(c);
      } else {
        ReactGrows(c, inputs[0]);
        assert forall i :: 0 <= i < |c.published| ==> d.published[i] == d.published[..|c.published|][i];
      }
      AllProjected(d, inputs[1..]);
    }
  }

  lemma ResetPublishesProjection(c: Controller)
    requires OnlyProjections(c) && (c.phase.Reading? || c.phase.Paging?)
    ensures OnlyProjections(ReadFailed(c, Some(404)))
  {
    ProjectionIsIdempotent(EMPTY_WALL.(connection := Unavailable, error := Some(RunUnavailable)));
  }
}
