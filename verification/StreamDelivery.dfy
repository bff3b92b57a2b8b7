/** What a stream delivers while another process is still writing the log. */
module StreamDelivery {
  import opened RunLog
  import opened Decimal
  import opened EventMerge
  import opened WallProjection
  import opened EventStream
  import SSE = ServerSentEvents

  function Emitted(sent: seq<Output>): seq<Event> {
    if sent == [] then []
    else Emitted(sent[..|sent| - 1]) + (if sent[|sent| - 1].Frames? then sent[|sent| - 1].events else [])
  }

  /** The events of the log after `from`, up to `to`. */
  function Slice(log: seq<Event>, from: nat, to: nat): seq<Event>
    requires from <= to
  {
    log[Min(from, |log|)..Min(to, |log|)]
  }

  lemma EmittedAdds(sent: seq<Output>, output: Output)
    ensures Emitted(sent + [output]) == Emitted(sent) + (if output.Frames? then output.events else [])
  {
    assert (sent + [output])[..|sent|] == sent;
  }

  // ---- Whatever the repository answers ----

  /** Strictly increasing, all above `from`, the last one `to` (or nothing at all). */
  ghost predicate Climbs(events: seq<Event>, from: nat, to: nat) {
    && StrictlySorted(events) && from <= to
    && forall e :: e in events ==> from < e.sequence <= to
  }

  lemma {:induction false} ValidPageClimbs(items: seq<Event>, runId: Id, after: nat)
    requires ValidFrom(items, runId, after)
    ensures Climbs(items, after, Last(items, after))
  {
    if items != [] {
      var n := |items| - 1;
      forall i | 0 <= i < n ensures ValidAt(items[..n], i, runId, after) {
        assert items[..n][..i] == items[..i] && ValidAt(items, i, runId, after);
      }
      ValidPageClimbs(items[..n], runId, after);
      assert ValidAt(items, n, runId, after);
      assert items == items[..n] + [items[n]];
      forall i, j | 0 <= i < j < |items| ensures items[i].sequence < items[j].sequence {
        assert items[i] in items[..n];
      }
    }
  }

  /** A turn enqueues nothing that is an event, or the whole of a valid page. */
  lemma TurnEnqueues(s: Stream, now: int, keepalive: int, status: Option<Status>, page: Option<Page>)
    requires !s.stopped
    ensures var t := Turn(s, now, keepalive, status, page);
            && t.limit == s.limit && t.runId == s.runId
            && ((t.after == s.after &&
                 (t.sent == s.sent || t.sent == s.sent + [FailureEvent] || t.sent == s.sent + [KeepaliveComment])) ||
                (page.Some? && page.value.items != [] && ValidFrom(page.value.items, s.runId, s.after) &&
                 t.after == Last(page.value.items, s.after) && t.sent == s.sent + [Frames(page.value.items)]))
  {
  }

  /** A turn sends the whole page it read and moves the cursor to its end, or sends no event and leaves the cursor. */
  lemma TurnSends(s: Stream, now: int, keepalive: int, status: Option<Status>, page: Option<Page>)
    requires !s.stopped
    ensures var t := Turn(s, now, keepalive, status, page);
            && t.limit == s.limit && t.runId == s.runId
            && ((t.after == s.after && Emitted(t.sent) == Emitted(s.sent)) ||
                (page.Some? && page.value.items != [] && ValidFrom(page.value.items, s.runId, s.after) &&
                 t.after == Last(page.value.items, s.after) && Emitted(t.sent) == Emitted(s.sent) + page.value.items))
  {
    TurnEnqueues(s, now, keepalive, status, page);
    EnqueuedAre(s.sent, Turn(s, now, keepalive, status, page).sent, page);
  }

  lemma EnqueuedAre(before: seq<Output>, after: seq<Output>, page: Option<Page>)
    ensures after == before + [FailureEvent] || after == before + [KeepaliveComment] ==> Emitted(after) == Emitted(before)
    ensures page.Some? && after == before + [Frames(page.value.items)] ==> Emitted(after) == Emitted(before) + page.value.items
  {
    EmittedAdds(before, FailureEvent);
    EmittedAdds(before, KeepaliveComment);
    if page.Some? { EmittedAdds(before, Frames(page.value.items)); }
  }

  /** One turn keeps the sent ids strictly increasing after the resume cursor, for any answer of the repository. */
  lemma TurnClimbs(s: Stream, start: nat, now: int, keepalive: int, status: Option<Status>, page: Option<Page>)
    requires !s.stopped && Climbs(Emitted(s.sent), start, s.after)
    ensures var t := Turn(s, now, keepalive, status, page);
            Climbs(Emitted(t.sent), start, t.after) && s.after <= t.after
  {
    TurnSends(s, now, keepalive, status, page);
    if page.Some? && ValidFrom(page.value.items, s.runId, s.after) {
      var items := page.value.items;
      ValidPageClimbs(items, s.runId, s.after);
      ClimbsOn(Emitted(s.sent), items, start, s.after, Last(items, s.after));
    }
  }

  lemma ClimbsOn(a: seq<Event>, b: seq<Event>, from: nat, mid: nat, to: nat)
    requires Climbs(a, from, mid) && Climbs(b, mid, to)
    ensures Climbs(a + b, from, to)
  {
    var all := a + b;
    forall i, j | 0 <= i < j < |all| ensures all[i].sequence < all[j].sequence {
      if i < |a| <= j { assert all[i] in a && all[j] in b; }
    }
  }

  /** A page that fails validation emits none of its events, leaves the cursor, and ends the stream with the fixed failure. */
  lemma BadPageEmitsNothing(s: Stream, now: int, keepalive: int, status: Option<Status>, page: Page)
    requires !s.stopped && now < s.deadline
    requires |page.items| > s.limit || !ValidFrom(page.items, s.runId, s.after)
    ensures var t := Turn(s, now, keepalive, status, Some(page));
            t.after == s.after && t.sent == s.sent + [FailureEvent] && t.stopped && t.closed && Emitted(t.sent) == Emitted(s.sent)
  {
    EmittedAdds(s.sent, FailureEvent);
  }

  // ---- A repository that answers from a growing log ----

  datatype StatusRead = StatusRead(status: Status, position: nat)

  /** One stream, from the cursor it resumed at. The status of a turn is read before its page: commits may fall between. */
  datatype Delivery = Delivery(start: nat, stream: Stream, status: Option<StatusRead>)

  ghost predicate Delivers(d: Delivery, queued: Run, log: seq<Event>) {
    && d.stream.limit >= 1 && d.stream.runId == queued.id
    && d.start <= d.stream.after && (d.stream.after == d.start || d.stream.after <= |log|)
    && Emitted(d.stream.sent) == Slice(log, d.start, d.stream.after)
    && (d.status.Some? ==> d.status.value.position <= |log| &&
                           d.status.value.status == RunRow(queued, log[..d.status.value.position]).status)
  }

  datatype Step =
    | Commit(batch: seq<Event>)
    | ReadStatus
    | ReadsPage(now: int)
    | ReadThrows(now: int)
    | Teardown

  ghost predicate CanStep(d: Delivery, queued: Run, log: seq<Event>, step: Step) {
    match step
    case Commit(batch) => IsLog(log + batch, queued.id)
    case ReadStatus => true
    case ReadsPage(_) => d.status.Some?
    case ReadThrows(_) => true
    case Teardown => true
  }

  function Advance(d: Delivery, keepalive: int, now: int, status: Option<Status>, page: Option<Page>): Delivery {
    d.(status := None, stream := if d.stream.stopped then d.stream else Turn(d.stream, now, keepalive, status, page))
  }

  function Do(d: Delivery, queued: Run, log: seq<Event>, keepalive: int, step: Step): Delivery
    requires d.stream.limit >= 1 && (step.ReadsPage? ==> d.status.Some?)
  {
    match step
    case Commit(_) => d
    case ReadStatus => d.(status := Some(StatusRead(RunRow(queued, log).status, |log|)))
    case ReadsPage(now) => Advance(d, keepalive, now, Some(d.status.value.status), Some(ReadPage(log, d.stream.after, d.stream.limit)))
    case ReadThrows(now) => Advance(d, keepalive, now, None, None)
    case Teardown => d.(stream := if d.stream.stopped then d.stream else Shut(d.stream))
  }

  function Grow(log: seq<Event>, step: Step): seq<Event> {
    if step.Commit? then log + step.batch else log
  }

  lemma PageExtendsSlice(log: seq<Event>, start: nat, after: nat, limit: nat, runId: Id)
    requires IsLog(log, runId) && limit >= 1 && start <= after && (after == start || after <= |log|)
    ensures var items := ReadPage(log, after, limit).items;
            && start <= Last(items, after) && (items != [] ==> Last(items, after) <= |log|)
            && Slice(log, start, after) + items == Slice(log, start, Last(items, after))
  {
    var items := ReadPage(log, after, limit).items;
    var first, from := Min(after, |log|), Min(start, |log|);
    var last := first + |items|;
    assert items == log[first..last] && Slice(log, start, after) == log[from..first];
    assert log[from..first] + log[first..last] == log[from..last];
    if items != [] { assert items[|items| - 1] == log[last - 1]; }
  }

  lemma TurnDelivers(d: Delivery, queued: Run, log: seq<Event>, keepalive: int, now: int)
    requires Delivers(d, queued, log) && IsLog(log, queued.id) && d.status.Some?
    ensures Delivers(Do(d, queued, log, keepalive, ReadsPage(now)), queued, log)
  {
    var s := d.stream;
    if !s.stopped {
      var page := ReadPage(log, s.after, s.limit);
      PageExtendsSlice(log, d.start, s.after, s.limit, queued.id);
      TurnSends(s, now, keepalive, Some(d.status.value.status), Some(page));
    }
  }

  lemma StepDelivers(d: Delivery, queued: Run, log: seq<Event>, keepalive: int, step: Step)
    requires Delivers(d, queued, log) && IsLog(log, queued.id) && CanStep(d, queued, log, step)
    ensures Delivers(Do(d, queued, log, keepalive, step), queued, Grow(log, step))
  {
    EmittedAdds(d.stream.sent, FailureEvent);
    match step {
      case Commit(batch) =>
        assert Slice(log + batch, d.start, d.stream.after) == Slice(log, d.start, d.stream.after);
        if d.status.Some? { assert (log + batch)[..d.status.value.position] == log[..d.status.value.position]; }
      case ReadStatus => assert log[..|log|] == log;
      case ReadsPage(now) => TurnDelivers(d, queued, log, keepalive, now);
      case _ =>
    }
  }

  ghost predicate CanRun(d: Delivery, queued: Run, log: seq<Event>, keepalive: int, steps: seq<Step>)
    requires d.stream.limit >= 1
    decreases |steps|
  {
    steps == [] ||
    (CanStep(d, queued, log, steps[0]) &&
     CanRun(Do(d, queued, log, keepalive, steps[0]), queued, Grow(log, steps[0]), keepalive, steps[1..]))
  }

  ghost function RunSteps(d: Delivery, queued: Run, log: seq<Event>, keepalive: int, steps: seq<Step>): (r: (Delivery, seq<Event>))
    requires d.stream.limit >= 1 && CanRun(d, queued, log, keepalive, steps)
    decreases |steps|
  {
    if steps == [] then (d, log)
    else RunSteps(Do(d, queued, log, keepalive, steps[0]), queued, Grow(log, steps[0]), keepalive, steps[1..])
  }

  /** In every interleaving with the writer, what was sent is exactly the log after the resume cursor: no skip, no repeat. */
  lemma {:induction false} SendsExactlyTheLog(d: Delivery, queued: Run, log: seq<Event>, keepalive: int, steps: seq<Step>)
    requires Delivers(d, queued, log) && IsLog(log, queued.id) && CanRun(d, queued, log, keepalive, steps)
    ensures var (e, grown) := RunSteps(d, queued, log, keepalive, steps);
            && Delivers(e, queued, grown) && IsLog(grown, queued.id) && log <= grown && e.start == d.start
            && Emitted(e.stream.sent) == Slice(grown, d.start, e.stream.after)
    decreases |steps|
  {
    if steps != [] {
      StepDelivers(d, queued, log, keepalive, steps[0]);
      SendsExactlyTheLog(Do(d, queued, log, keepalive, steps[0]), queued, Grow(log, steps[0]), keepalive, steps[1..]);
    }
  }

  /** The turn ends the stream because the run is over: its status was terminal and nothing remained. */
  predicate ClosesAsFinished(d: Delivery, log: seq<Event>, now: int)
    requires d.stream.limit >= 1 && d.status.Some?
  {
    && !d.stream.stopped && now < d.stream.deadline
    && IsTerminal(d.status.value.status) && ReadPage(log, d.stream.after, d.stream.limit).nextCursor.None?
  }

  /** A stream that closes as finished sent the whole log after its cursor. */
  lemma FinishedMeansDelivered(d: Delivery, queued: Run, log: seq<Event>, keepalive: int, now: int)
    requires Delivers(d, queued, log) && IsLog(log, queued.id) && |log| <= MAX_SAFE_INTEGER && d.status.Some?
    requires ClosesAsFinished(d, log, now)
    ensures var e := Do(d, queued, log, keepalive, ReadsPage(now));
            && e.stream.closed && Emitted(e.stream.sent) == log[Min(d.start, |log|)..]
            && (e.stream.sent == d.stream.sent || |e.stream.sent| == |d.stream.sent| + 1)
            && (FailureEvent !in d.stream.sent ==> FailureEvent !in e.stream.sent)
  {
    var s := d.stream;
    var page := ReadPage(log, s.after, s.limit);
    HonestPageIsValid(log, s.after, s.limit, queued.id);
    PageExtendsSlice(log, d.start, s.after, s.limit, queued.id);
    FinishingTurn(s, now, keepalive, d.status.value.status, page);
    LastPageEndsLog(log, d.start, s.after, s.limit);
  }

  /** The last turn of a finished run sends the page and shuts. */
  lemma FinishingTurn(s: Stream, now: int, keepalive: int, status: Status, page: Page)
    requires !s.stopped && now < s.deadline && IsTerminal(status) && page.nextCursor.None?
    requires |page.items| <= s.limit && ValidFrom(page.items, s.runId, s.after)
    ensures var t := Turn(s, now, keepalive, Some(status), Some(page));
            && t.closed && t.sent == s.sent + (if page.items == [] then [] else [Frames(page.items)])
            && Emitted(t.sent) == Emitted(s.sent) + page.items
  {
    EmittedAdds(s.sent, Frames(page.items));
    assert s.sent + [] == s.sent && Emitted(s.sent) + [] == Emitted(s.sent);
  }

  lemma LastPageEndsLog(log: seq<Event>, start: nat, after: nat, limit: nat)
    requires limit >= 1 && start <= after && (after == start || after <= |log|)
    requires ReadPage(log, after, limit).nextCursor.None?
    ensures Slice(log, start, after) + ReadPage(log, after, limit).items == log[Min(start, |log|)..]
  {
  }

  /** In particular the outcome that made the status read terminal was sent, unless the client resumed after it. */
  lemma OutcomeIsNeverMissed(d: Delivery, queued: Run, log: seq<Event>, keepalive: int, now: int)
    requires Delivers(d, queued, log) && IsLog(log, queued.id) && |log| <= MAX_SAFE_INTEGER && d.status.Some?
    requires queued.status == Queued && ClosesAsFinished(d, log, now)
    ensures exists o ::
              && o in log && EndsRun(o) && o.sequence <= d.status.value.position && o.status == Some(d.status.value.status)
              && (o.sequence > d.start ==> o in Emitted(Do(d, queued, log, keepalive, ReadsPage(now)).stream.sent))
  {
    FinishedMeansDelivered(d, queued, log, keepalive, now);
    var p := d.status.value.position;
    RunRowIs(queued, log, p);
    var o :| o in log[..p] && EndsRun(o) && o.status == Some(d.status.value.status);
    assert o in log && o.sequence <= p;
    if o.sequence > d.start {
      assert log[Min(d.start, |log|)..][o.sequence - 1 - Min(d.start, |log|)] == o;
    }
  }

  // ---- Progress ----

  /** Turn after turn with no commit in between: the status is read, then a page. */
  function Polls(nows: seq<int>): seq<Step> {
    if nows == [] then [] else [ReadStatus, ReadsPage(nows[0])] + Polls(nows[1..])
  }

  /** Where a cursor is after some full turns. */
  function Reached(after: nat, length: nat, limit: nat, turns: nat): (r: nat)
    ensures after <= r
  {
    Max(after, Min(length, after + turns * limit))
  }

  /** What a page of the log holds: some events up to where one turn reaches, the last one named unless the log ends there. */
  lemma HonestPage(log: seq<Event>, after: nat, limit: nat, runId: Id)
    requires IsLog(log, runId) && limit >= 1
    ensures var page := ReadPage(log, after, limit);
            && (page.items == [] <==> |log| <= after) && (page.nextCursor.None? <==> |log| <= after + limit)
            && (page.items != [] ==> page.items[|page.items| - 1].sequence == Reached(after, |log|, limit, 1))
  {
    var items := ReadPage(log, after, limit).items;
    if items != [] { assert items[|items| - 1] == log[Min(after + limit, |log|) - 1]; }
  }

  /** One turn, whose two reads return before the deadline. */
  ghost predicate TurnReached(s: Stream, t: Stream, over: bool, length: nat) {
    && t.limit == s.limit && t.deadline == s.deadline && t.runId == s.runId && t.after == Reached(s.after, length, s.limit, 1)
    && (t.stopped <==> over && length <= s.after + s.limit)
    && (FailureEvent in t.sent <==> FailureEvent in s.sent)
  }

  lemma HonestTurn(s: Stream, log: seq<Event>, keepalive: int, status: Status, now: int)
    requires IsLog(log, s.runId) && |log| <= MAX_SAFE_INTEGER && s.limit >= 1 && !s.stopped && now < s.deadline
    ensures TurnReached(s, Turn(s, now, keepalive, Some(status), Some(ReadPage(log, s.after, s.limit))), IsTerminal(status), |log|)
  {
    var page := ReadPage(log, s.after, s.limit);
    HonestPageIsValid(log, s.after, s.limit, s.runId);
    HonestPage(log, s.after, s.limit, s.runId);
    ValidPagesFollow(page.items, s.runId, s.after);
    TurnIsTaken(s, now, keepalive, Some(status), Some(page));
  }

  lemma {:induction false} StoppedPolls(d: Delivery, queued: Run, log: seq<Event>, keepalive: int, nows: seq<int>)
    requires d.stream.limit >= 1 && d.stream.stopped
    ensures CanRun(d, queued, log, keepalive, Polls(nows))
    ensures RunSteps(d, queued, log, keepalive, Polls(nows)).0.stream == d.stream
    ensures RunSteps(d, queued, log, keepalive, Polls(nows)).1 == log
    decreases |nows|
  {
    if nows != [] {
      PollsUnfold(d, queued, log, keepalive, nows);
      StoppedPolls(AfterPoll(d, queued, log, keepalive, nows[0]), queued, log, keepalive, nows[1..]);
    }
  }

  function AfterPoll(d: Delivery, queued: Run, log: seq<Event>, keepalive: int, now: int): Delivery
    requires d.stream.limit >= 1
  {
    Do(Do(d, queued, log, keepalive, ReadStatus), queued, log, keepalive, ReadsPage(now))
  }

  lemma PollsUnfold(d: Delivery, queued: Run, log: seq<Event>, keepalive: int, nows: seq<int>)
    requires d.stream.limit >= 1 && nows != [] && AfterPoll(d, queued, log, keepalive, nows[0]).stream.limit >= 1
    ensures var e := AfterPoll(d, queued, log, keepalive, nows[0]);
            && (CanRun(d, queued, log, keepalive, Polls(nows)) <==> CanRun(e, queued, log, keepalive, Polls(nows[1..])))
            && (CanRun(e, queued, log, keepalive, Polls(nows[1..])) ==>
                  RunSteps(d, queued, log, keepalive, Polls(nows)) == RunSteps(e, queued, log, keepalive, Polls(nows[1..])))
  {
    var steps := Polls(nows);
    assert steps[0] == ReadStatus && steps[1..][0] == ReadsPage(nows[0]) && steps[1..][1..] == Polls(nows[1..]);
  }

  /** After some turns the cursor is that many full pages further or at the end of the log, and the stream closed exactly
      when its run is over and the end was reached. */
  ghost predicate Progressed(s: Stream, t: Stream, over: bool, length: nat, turns: nat) {
    && t.after == Reached(s.after, length, s.limit, turns)
    && (t.stopped <==> turns > 0 && over && length <= s.after + turns * s.limit)
    && (FailureEvent in t.sent <==> FailureEvent in s.sent)
  }

  lemma TurnsAdd(s: Stream, mid: Stream, t: Stream, over: bool, length: nat, turns: nat)
    requires TurnReached(s, mid, over, length)
    requires if mid.stopped then t == mid else Progressed(mid, t, over, length, turns)
    ensures Progressed(s, t, over, length, turns + 1)
  {
    ReachedOn(s.after, length, s.limit, turns);
  }

  lemma PollReached(d: Delivery, queued: Run, log: seq<Event>, keepalive: int, now: int)
    requires d.stream.runId == queued.id && IsLog(log, queued.id) && |log| <= MAX_SAFE_INTEGER && d.stream.limit >= 1
    requires !d.stream.stopped && now < d.stream.deadline
    ensures TurnReached(d.stream, AfterPoll(d, queued, log, keepalive, now).stream, IsTerminal(RunRow(queued, log).status), |log|)
  {
    HonestTurn(d.stream, log, keepalive, RunRow(queued, log).status, now);
  }

  lemma {:induction false} TurnsProgress(d: Delivery, queued: Run, log: seq<Event>, keepalive: int, nows: seq<int>)
    requires d.stream.runId == queued.id && IsLog(log, queued.id) && |log| <= MAX_SAFE_INTEGER && d.stream.limit >= 1
    requires !d.stream.stopped && forall i :: 0 <= i < |nows| ==> nows[i] < d.stream.deadline
    ensures CanRun(d, queued, log, keepalive, Polls(nows))
    ensures Progressed(d.stream, RunSteps(d, queued, log, keepalive, Polls(nows)).0.stream,
                       IsTerminal(RunRow(queued, log).status), |log|, |nows|)
    ensures RunSteps(d, queued, log, keepalive, Polls(nows)).1 == log
    decreases |nows|
  {
    if nows != [] {
      var e := AfterPoll(d, queued, log, keepalive, nows[0]);
      PollReached(d, queued, log, keepalive, nows[0]);
      PollsUnfold(d, queued, log, keepalive, nows);
      if e.stream.stopped {
        StoppedPolls(e, queued, log, keepalive, nows[1..]);
      } else {
        TurnsProgress(e, queued, log, keepalive, nows[1..]);
      }
      TurnsAdd(d.stream, e.stream, RunSteps(e, queued, log, keepalive, Polls(nows[1..])).0.stream,
               IsTerminal(RunRow(queued, log).status), |log|, |nows| - 1);
    }
  }

  /** Without further commits each turn before the deadline sends a full page, or all there is: enough turns deliver the
      whole log, and a stream closes exactly when its run is over and the whole log was delivered. */
  lemma EveryTurnDelivers(d: Delivery, queued: Run, log: seq<Event>, keepalive: int, nows: seq<int>)
    requires Delivers(d, queued, log) && IsLog(log, queued.id) && |log| <= MAX_SAFE_INTEGER
    requires !d.stream.stopped && forall i :: 0 <= i < |nows| ==> nows[i] < d.stream.deadline
    ensures CanRun(d, queued, log, keepalive, Polls(nows))
    ensures var s, t := d.stream, RunSteps(d, queued, log, keepalive, Polls(nows)).0.stream;
            && Emitted(t.sent) == Slice(log, d.start, Max(s.after, Min(|log|, s.after + |nows| * s.limit)))
            && (|log| <= s.after + |nows| * s.limit ==> Emitted(t.sent) == log[Min(d.start, |log|)..])
            && (FailureEvent in t.sent <==> FailureEvent in s.sent)
            && (t.stopped <==> nows != [] && IsTerminal(RunRow(queued, log).status) && |log| <= s.after + |nows| * s.limit)
  {
    TurnsProgress(d, queued, log, keepalive, nows);
    SendsExactlyTheLog(d, queued, log, keepalive, Polls(nows));
  }

  lemma ReachedOn(after: nat, length: nat, limit: nat, turns: nat)
    ensures Reached(Reached(after, length, limit, 1), length, limit, turns) == Reached(after, length, limit, turns + 1)
    ensures length <= after + limit ==> Reached(after, length, limit, turns + 1) == Reached(after, length, limit, 1)
    ensures (turns + 1) * limit == limit + turns * limit && turns * limit >= 0
  {
    assert (turns + 1) * limit == limit + turns * limit;
    assert turns * limit >= 0;
  }

  lemma HonestPageIsValid(log: seq<Event>, after: nat, limit: nat, runId: Id)
    requires IsLog(log, runId) && limit >= 1 && |log| <= MAX_SAFE_INTEGER
    ensures var page := ReadPage(log, after, limit); |page.items| <= limit && ValidFrom(page.items, runId, after)
  {
    var items := ReadPage(log, after, limit).items;
    var first := Min(after, |log|);
    forall i | 0 <= i < |items| ensures ValidAt(items, i, runId, after) {
      assert items[i] == log[first + i];
      if i > 0 { assert items[..i][i - 1] == log[first + i - 1]; }
    }
  }

  /** The order of the two reads matters: a page read before the status can end a stream that owes the final event. */
  lemma StatusMustComeFirst(s: Stream, queued: Run, finish: Event, now: int, keepalive: int)
    requires !s.stopped && s.after == 0 && s.limit >= 1 && s.sent == [] && now < s.deadline
    requires queued.status == Queued && IsLog([finish], queued.id) && EndsRun(finish)
    ensures var t := Turn(s, now, keepalive, Some(RunRow(queued, [finish]).status), Some(ReadPage([], 0, s.limit)));
            t.closed && Emitted(t.sent) == [] && Slice([finish], 0, 1) == [finish]
  {
    assert [finish][..0] == [];
  }

  // ---- Through the text and back ----

  function Wire(sent: seq<Output>, encode: Event -> string): seq<SSE.Sent> {
    if sent == [] then []
    else Wire(sent[..|sent| - 1], encode) + WireOf(sent[|sent| - 1], encode)
  }

  function WireOf(output: Output, encode: Event -> string): seq<SSE.Sent> {
    match output
    case Frames(events) => seq(|events|, i requires 0 <= i < |events| => SSE.Frame(events[i].sequence, events[i].kind, encode(events[i])))
    case KeepaliveComment => [SSE.Keepalive]
    case FailureEvent => [SSE.Failure]
  }

  lemma {:induction false} FramesOnlyAdds(a: seq<SSE.Sent>, b: seq<SSE.Sent>)
    ensures SSE.FramesOnly(a + b) == SSE.FramesOnly(a) + SSE.FramesOnly(b)
    decreases |a|
  {
    if a == [] {
      assert a + b == b;
    } else {
      var all, rest := a + b, a[1..];
      assert all[0] == a[0] && all[1..] == rest + b;
      FramesOnlyAdds(rest, b);
    }
  }

  lemma {:induction false} AllFrames(a: seq<SSE.Sent>)
    requires forall i :: 0 <= i < |a| ==> a[i].Frame?
    ensures SSE.FramesOnly(a) == a
  {
    if a != [] { AllFrames(a[1..]); }
  }

  lemma WireOfCarries(output: Output, encode: Event -> string)
    requires forall e :: SSE.OneLine(encode(e))
    ensures SSE.SendsLines(WireOf(output, encode))
    ensures SSE.FramesOnly(WireOf(output, encode)) == if output.Frames? then WireOf(output, encode) else []
  {
    var wire := WireOf(output, encode);
    if output.Frames? { AllFrames(wire); } else { assert wire[1..] == []; }
  }

  lemma {:induction false} WireCarriesEmitted(sent: seq<Output>, encode: Event -> string)
    requires forall e :: SSE.OneLine(encode(e))
    ensures SSE.SendsLines(Wire(sent, encode))
    ensures SSE.FramesOnly(Wire(sent, encode)) == WireOf(Frames(Emitted(sent)), encode)
  {
    if sent != [] {
      var n := |sent| - 1;
      WireCarriesEmitted(sent[..n], encode);
      WireOfCarries(sent[n], encode);
      FramesOnlyAdds(Wire(sent[..n], encode), WireOf(sent[n], encode));
    }
  }

  lemma {:induction false} NoFailureOnWire(sent: seq<Output>, encode: Event -> string)
    requires FailureEvent !in sent
    ensures SSE.Failure !in Wire(sent, encode)
  {
    if sent != [] {
      var n := |sent| - 1;
      NoFailureOnWire(sent[..n], encode);
      assert sent[n] in sent;
    }
  }

  /** A client that reads the text of a stream, in any chunks and up to any point, receives the sent events one for one
      from the first, each under its own kind and id; decoding the data gives back the very events. */
  lemma ReadsTheSentEvents(sent: seq<Output>, encode: Event -> string, decode: string -> Event, chunks: seq<string>, i: nat)
    requires forall e :: SSE.OneLine(encode(e)) && decode(encode(e)) == e
    requires FailureEvent !in sent && SSE.Concat(chunks) <= SSE.Texts(Wire(sent, encode))
    requires i < |SSE.FeedAll(SSE.START, chunks).messages|
    ensures var messages := SSE.FeedAll(SSE.START, chunks).messages;
            && |messages| <= |Emitted(sent)|
            && (SSE.Concat(chunks) == SSE.Texts(Wire(sent, encode)) ==> |messages| == |Emitted(sent)|)
            && messages[i].kind == SSE.KindName(Emitted(sent)[i].kind)
            && decode(messages[i].data) == Emitted(sent)[i]
            && messages[i].lastEventId == Print(Emitted(sent)[i].sequence)
  {
    WireCarriesEmitted(sent, encode);
    NoFailureOnWire(sent, encode);
    SSE.RoundTrip(Wire(sent, encode), chunks);
    SSE.MessagesAreFrames(Wire(sent, encode), "", i);
  }
}
