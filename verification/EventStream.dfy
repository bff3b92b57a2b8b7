/** The server side of a stream: admission, slots, one polling turn, and teardown (src/server/event-stream.ts). */
module EventStream {
  import opened RunLog
  import opened Decimal

  const MAX_ACTIVE := 100
  const MAX_PER_OWNER := 5

  /** What one `enqueue` adds: the frames of a page, a keepalive comment, or the fixed failure event. */
  datatype Output = Frames(events: seq<Event>) | KeepaliveComment | FailureEvent

  /** The variables of one stream's closure. `releases` counts how often it gave its slot back. */
  datatype Stream = Stream(
    owner: Id, runId: Id, after: nat, limit: nat, deadline: int, lastWrite: int,
    stopped: bool, closed: bool, sent: seq<Output>, releases: nat)

  datatype Handler = Handler(streams: seq<Stream>, active: int, owners: map<Id, nat>)

  const NO_STREAMS := Handler([], 0, map[])

  function Get(owners: map<Id, nat>, owner: Id, default: nat): nat {
    if owner in owners then owners[owner] else default
  }

  // ---- Admission ----

  datatype Request = Request(
    query: seq<(string, string)>, lastEventId: Option<string>, owner: Id, expiresAt: int, runId: Id, runFound: bool, aborted: bool)

  /** The refusals, in the order they are checked. */
  function Refusal(h: Handler, r: Request, now: int): Option<nat> {
    if Paginate(r.query, r.lastEventId).None? then Some(400)
    else if !r.runFound then Some(404)
    else if r.expiresAt <= now then Some(401)
    else if h.active >= MAX_ACTIVE || Get(h.owners, r.owner, 0) >= MAX_PER_OWNER then Some(429)
    else None
  }

  function NewStream(r: Request, p: Pagination, now: int, lifetime: int): Stream {
    Stream(r.owner, r.runId, p.after, p.limit, if r.expiresAt < now + lifetime then r.expiresAt else now + lifetime, now,
           false, false, [], 0)
  }

  /** Takes a slot for a new stream, the next in `streams`. */
  function Admit(h: Handler, s: Stream): Handler {
    Handler(h.streams + [s], h.active + 1, h.owners[s.owner := Get(h.owners, s.owner, 0) + 1])
  }

  function Enter(h: Handler, s: Stream, aborted: bool): Handler {
    if aborted then Close(Admit(h, s), |h.streams|) else Admit(h, s)
  }

  function Open(h: Handler, r: Request, now: int, lifetime: int): Handler {
    if Refusal(h, r, now).Some? then h
    else Enter(h, NewStream(r, Paginate(r.query, r.lastEventId).value, now, lifetime), r.aborted)
  }

  // ---- Teardown ----

  function Release(h: Handler, owner: Id): Handler {
    var remaining := Get(h.owners, owner, 1) - 1;
    h.(active := h.active - 1, owners := if remaining > 0 then h.owners[owner := remaining] else h.owners - {owner})
  }

  function Stopped(s: Stream): Stream {
    s.(stopped := true, releases := s.releases + 1)
  }

  function Cleanup(h: Handler, id: nat): Handler
    requires id < |h.streams|
  {
    var s := h.streams[id];
    if s.stopped then h else Release(h.(streams := h.streams[id := Stopped(s)]), s.owner)
  }

  function Close(h: Handler, id: nat): Handler
    requires id < |h.streams|
  {
    var s := h.streams[id];
    if s.stopped then h else Release(h.(streams := h.streams[id := Stopped(s).(closed := true)]), s.owner)
  }

  // ---- One turn of the polling loop ----

  /** Every event of the page belongs to the run and comes after the one before it. */
  predicate ValidFrom(items: seq<Event>, runId: Id, after: nat) {
    forall i :: 0 <= i < |items| ==> ValidAt(items, i, runId, after)
  }

  predicate ValidAt(items: seq<Event>, i: nat, runId: Id, after: nat)
    requires i < |items|
  {
    items[i].runId == runId && Last(items[..i], after) < items[i].sequence <= MAX_SAFE_INTEGER
  }

  function Last(items: seq<Event>, after: nat): nat {
    if items == [] then after else items[|items| - 1].sequence
  }

  function Shut(s: Stream): Stream {
    Stopped(s).(closed := true)
  }

  function Broken(s: Stream): Stream {
    Shut(s.(sent := s.sent + [FailureEvent]))
  }

  /** `status` and `page` are `None` when the read throws. A stream that is left running either returned from
      `pull` or waits for its next poll. */
  function Turn(s: Stream, now: int, keepalive: int, status: Option<Status>, page: Option<Page>): Stream
    requires !s.stopped
  {
    if now >= s.deadline then Shut(s)
    else if status.None? || page.None? then Broken(s)
    else if |page.value.items| > s.limit || !ValidFrom(page.value.items, s.runId, s.after) then Broken(s)
    else
      var items := page.value.items;
      var terminal := IsTerminal(status.value) && page.value.nextCursor.None?;
      if items != [] then
        var told := s.(after := items[|items| - 1].sequence, lastWrite := now, sent := s.sent + [Frames(items)]);
        if terminal then Shut(told) else told
      else if terminal then Shut(s)
      else if now - s.lastWrite >= keepalive then s.(lastWrite := now, sent := s.sent + [KeepaliveComment])
      else s
  }

  function Pull(h: Handler, id: nat, now: int, keepalive: int, status: Option<Status>, page: Option<Page>): Handler
    requires id < |h.streams|
  {
    var s := h.streams[id];
    if s.stopped then h
    else
      var t := Turn(s, now, keepalive, status, page);
      var moved := h.(streams := h.streams[id := t]);
      if t.stopped then Release(moved, s.owner) else moved
  }

  // ---- What a turn answers ----

  /** The events all belong to the run and follow the cursor in strictly ascending order, up to 2^53 - 1. */
  predicate Follows(items: seq<Event>, runId: Id, after: nat) {
    StrictlySorted(items) && forall e :: e in items ==> e.runId == runId && after < e.sequence <= 9_007_199_254_740_991
  }

  lemma {:induction false} ValidPagesFollow(items: seq<Event>, runId: Id, after: nat)
    ensures ValidFrom(items, runId, after) <==> Follows(items, runId, after)
  {
    if items != [] {
      var n := |items| - 1;
      var front, e := items[..n], items[n];
      assert items == front + [e];
      ValidPagesFollow(front, runId, after);
      ValidFromSplits(items, runId, after);
      FollowsSplits(front, e, runId, after);
    }
  }

  lemma ValidFromSplits(items: seq<Event>, runId: Id, after: nat)
    requires items != []
    ensures var n := |items| - 1; ValidFrom(items, runId, after) <==> ValidFrom(items[..n], runId, after) && ValidAt(items, n, runId, after)
  {
    var n := |items| - 1;
    forall i | 0 <= i < n ensures ValidAt(items[..n], i, runId, after) <==> ValidAt(items, i, runId, after) {
      assert items[..n][..i] == items[..i];
    }
  }

  lemma FollowsSplits(front: seq<Event>, e: Event, runId: Id, after: nat)
    ensures Follows(front + [e], runId, after) <==>
      Follows(front, runId, after) && e.runId == runId && after < e.sequence <= 9_007_199_254_740_991 &&
      (front != [] ==> front[|front| - 1].sequence < e.sequence)
  {
    var all := front + [e];
    assert forall o :: o in all <==> o in front || o == e;
    assert forall i :: 0 <= i < |front| ==> all[i] == front[i];
    if Follows(all, runId, after) && front != [] { assert all[|front| - 1].sequence < all[|front|].sequence; }
  }

  /** Both reads returned, the page within its limit and every event of it in place. */
  predicate Readable(s: Stream, status: Option<Status>, page: Option<Page>) {
    status.Some? && page.Some? && |page.value.items| <= s.limit && Follows(page.value.items, s.runId, s.after)
  }

  /** The stream from before to after one turn: past its deadline it closes; a read that throws or a page out of place ends
      it with the failure event; a page of events is sent at once and moves the cursor to the last; without events a long
      silence is broken by a comment; and it closes when the run is over and nothing remains. */
  predicate TookTurn(s: Stream, t: Stream, now: int, keepalive: int, status: Option<Status>, page: Option<Page>) {
    && t.owner == s.owner && t.runId == s.runId && t.limit == s.limit && t.deadline == s.deadline
    && t.closed == (t.stopped || s.closed)
    && (now >= s.deadline ==> t.stopped && t.sent == s.sent && t.after == s.after)
    && (now < s.deadline && !Readable(s, status, page) ==> t.stopped && t.sent == s.sent + [FailureEvent] && t.after == s.after)
    && (now < s.deadline && Readable(s, status, page) ==>
          var items := page.value.items;
          var over := status.value != Queued && status.value != Running && page.value.nextCursor.None?;
          && t.stopped == over
          && (items != [] ==>
                t.sent == s.sent + [Frames(items)] && t.after == items[|items| - 1].sequence && t.lastWrite == now)
          && (items == [] ==>
                && t.after == s.after
                && if !over && now - s.lastWrite >= keepalive then t.sent == s.sent + [KeepaliveComment] && t.lastWrite == now
                   else t.sent == s.sent && t.lastWrite == s.lastWrite))
  }

  lemma TurnIsTaken(s: Stream, now: int, keepalive: int, status: Option<Status>, page: Option<Page>)
    requires !s.stopped
    ensures TookTurn(s, Turn(s, now, keepalive, status, page), now, keepalive, status, page)
  {
    if page.Some? { ValidPagesFollow(page.value.items, s.runId, s.after); }
  }

  // ---- What a request is answered ----

  /** The run is found, the session alive, and a slot free for another stream of this owner. */
  ghost predicate Welcome(streams: seq<Stream>, r: Request, now: int) {
    r.runFound && now < r.expiresAt && OpenCount(streams) < 100 && OpenCountOf(streams, r.owner) < 5
  }

  ghost predicate WellFormed(r: Request) {
    exists after, limit :: Asks(r.query, r.lastEventId, after, limit)
  }

  /** The reply by its status, the first refusal that applies. */
  ghost predicate Replies(streams: seq<Stream>, r: Request, now: int, status: nat) {
    if !WellFormed(r) then status == 400
    else if !r.runFound then status == 404
    else if r.expiresAt <= now then status == 401
    else if OpenCount(streams) >= 100 || OpenCountOf(streams, r.owner) >= 5 then status == 429
    else status == 200
  }

  /** A new stream starts after the cursor that was asked for, with nothing sent, and lives as long as the session does and
      no longer than its lifetime. One whose request was aborted meanwhile is closed at once. */
  ghost predicate Started(s: Stream, r: Request, now: int, lifetime: int) {
    && Asks(r.query, r.lastEventId, s.after, s.limit) && s.owner == r.owner && s.runId == r.runId
    && s.deadline == Min(r.expiresAt, now + lifetime) && s.lastWrite == now && s.sent == []
    && s.stopped == s.closed == r.aborted
  }

  lemma NewStreamIsAsked(r: Request, p: Pagination, now: int, lifetime: int)
    requires Paginate(r.query, r.lastEventId) == Some(p) && !r.aborted
    ensures Started(NewStream(r, p, now, lifetime), r, now, lifetime)
  {
    PaginatesWhatIsAsked(r.query, r.lastEventId, p.after, p.limit);
  }

  /** A request is answered by its status; only a welcome one adds a stream, and that is the one it asked for. */
  ghost predicate Answers(h: Handler, d: Handler, r: Request, now: int, lifetime: int, status: nat) {
    && Replies(h.streams, r, now, status)
    && (status == 200 <==> WellFormed(r) && Welcome(h.streams, r, now))
    && (status != 200 ==> d == h)
    && (status == 200 ==> |d.streams| == |h.streams| + 1 && d.streams[..|h.streams|] == h.streams
                          && Started(d.streams[|h.streams|], r, now, lifetime))
  }

  lemma OpenStarts(h: Handler, r: Request, now: int, lifetime: int)
    requires Refusal(h, r, now).None?
    ensures var next := Open(h, r, now, lifetime);
            && |next.streams| == |h.streams| + 1 && next.streams[..|h.streams|] == h.streams
            && Started(next.streams[|h.streams|], r, now, lifetime)
  {
    var p := Paginate(r.query, r.lastEventId).value;
    NewStreamIsAsked(r.(aborted := false), p, now, lifetime);
    assert NewStream(r, p, now, lifetime) == NewStream(r.(aborted := false), p, now, lifetime);
  }

  lemma OpenAnswers(h: Handler, r: Request, now: int, lifetime: int)
    requires SlotsHold(h)
    ensures var refusal := Refusal(h, r, now);
            Answers(h, Open(h, r, now, lifetime), r, now, lifetime, if refusal.Some? then refusal.value else 200)
  {
    RefusesWhatAsksForNothing(r.query, r.lastEventId);
    assert Get(h.owners, r.owner, 0) == OpenCountOf(h.streams, r.owner);
    if Refusal(h, r, now).None? { OpenStarts(h, r, now, lifetime); }
  }

  /** Whoever ends a stream (its client, its deadline or its reader) ends that stream alone, and once. */
  lemma TeardownEnds(h: Handler, id: nat, input: Input, keepalive: int, lifetime: int)
    requires SlotsHold(h) && id < |h.streams| && input in {Aborts(id), Expires(id), Cancels(id)}
    ensures var d := React(h, input, keepalive, lifetime);
            && |d.streams| == |h.streams| && (forall i :: 0 <= i < |h.streams| && i != id ==> d.streams[i] == h.streams[i])
            && d.streams[id].stopped && d.streams[id].sent == h.streams[id].sent
            && (!input.Cancels? && !h.streams[id].stopped ==> d.streams[id].closed)
            && OpenCount(d.streams) == OpenCount(h.streams) - if h.streams[id].stopped then 0 else 1
  {
    CountsChange(h.streams, id, React(h, input, keepalive, lifetime).streams[id], h.streams[id].owner);
  }

  // ---- Slots ----

  function IsOpen(s: Stream, owner: Id): nat {
    if !s.stopped && s.owner == owner then 1 else 0
  }

  function OpenCount(streams: seq<Stream>): nat {
    if streams == [] then 0 else OpenCount(streams[..|streams| - 1]) + if streams[|streams| - 1].stopped then 0 else 1
  }

  function OpenCountOf(streams: seq<Stream>, owner: Id): nat {
    if streams == [] then 0 else OpenCountOf(streams[..|streams| - 1], owner) + IsOpen(streams[|streams| - 1], owner)
  }

  ghost function Total(owners: map<Id, nat>): nat
    decreases |owners|
  {
    if owners == map[] then 0
    else
      var o :| o in owners;
      assert (owners - {o}).Keys == owners.Keys - {o};
      owners[o] + Total(owners - {o})
  }

  ghost predicate SlotsHold(h: Handler) {
    && h.active == OpenCount(h.streams) <= MAX_ACTIVE
    && h.active == Total(h.owners)
    && (forall o :: Get(h.owners, o, 0) == OpenCountOf(h.streams, o))
    && (forall o :: o in h.owners ==> 1 <= h.owners[o] <= MAX_PER_OWNER)
    && (forall i :: 0 <= i < |h.streams| ==> h.streams[i].releases == if h.streams[i].stopped then 1 else 0)
  }

  lemma {:induction false} CountsChange(streams: seq<Stream>, id: nat, s: Stream, owner: Id)
    requires id < |streams| && s.owner == streams[id].owner
    ensures OpenCount(streams[id := s]) ==
            OpenCount(streams) - (if streams[id].stopped then 0 else 1) + (if s.stopped then 0 else 1)
    ensures OpenCountOf(streams[id := s], owner) == OpenCountOf(streams, owner) - IsOpen(streams[id], owner) + IsOpen(s, owner)
    decreases |streams|
  {
    var n := |streams| - 1;
    if id == n {
      assert streams[id := s][..n] == streams[..n];
    } else {
      assert streams[id := s][..n] == streams[..n][id := s];
      CountsChange(streams[..n], id, s, owner);
    }
  }

  /** The total does not depend on the order the entries are taken in. */
  lemma {:induction false} TotalTakes(owners: map<Id, nat>, owner: Id)
    requires owner in owners
    ensures Total(owners) == owners[owner] + Total(owners - {owner})
    decreases |owners|
  {
    var o :| o in owners && Total(owners) == owners[o] + Total(owners - {o});
    if o != owner {
      var rest := owners - {o};
      assert rest.Keys == owners.Keys - {o};
      TotalTakes(rest, owner);
      var other := owners - {owner};
      assert other.Keys == owners.Keys - {owner};
      TotalTakes(other, o);
      assert rest - {owner} == other - {o};
    }
  }

  lemma TotalPuts(owners: map<Id, nat>, owner: Id, n: nat)
    ensures Total(owners[owner := n]) == Total(owners) - Get(owners, owner, 0) + n
    ensures Total(owners - {owner}) == Total(owners) - Get(owners, owner, 0)
  {
    var put := owners[owner := n];
    TotalTakes(put, owner);
    assert put - {owner} == owners - {owner};
    if owner in owners { TotalTakes(owners, owner); } else { assert owners - {owner} == owners; }
  }

  /** Stopping a running stream and releasing its slot keeps every count. */
  lemma ReleaseKeepsSlots(h: Handler, id: nat, s: Stream)
    requires SlotsHold(h) && id < |h.streams| && !h.streams[id].stopped
    requires s.stopped && s.owner == h.streams[id].owner && s.releases == 1
    ensures SlotsHold(Release(h.(streams := h.streams[id := s]), s.owner))
  {
    var moved := h.(streams := h.streams[id := s]);
    var r := Release(moved, s.owner);
    CountsChange(h.streams, id, s, s.owner);
    TotalPuts(h.owners, s.owner, if Get(h.owners, s.owner, 1) > 0 then Get(h.owners, s.owner, 1) - 1 else 0);
    OpenIsCounted(h.streams, id);
    forall o ensures Get(r.owners, o, 0) == OpenCountOf(r.streams, o) {
      CountsChange(h.streams, id, s, o);
    }
  }

  lemma {:induction false} OpenIsCounted(streams: seq<Stream>, id: nat)
    requires id < |streams| && !streams[id].stopped
    ensures OpenCountOf(streams, streams[id].owner) >= 1
    decreases |streams|
  {
    var n := |streams| - 1;
    if id < n { OpenIsCounted(streams[..n], id); }
  }

  /** A change that leaves the stream running leaves every count. */
  lemma RunningKeepsSlots(h: Handler, id: nat, s: Stream)
    requires SlotsHold(h) && id < |h.streams| && !h.streams[id].stopped
    requires !s.stopped && s.owner == h.streams[id].owner && s.releases == 0
    ensures SlotsHold(h.(streams := h.streams[id := s]))
  {
    CountsChange(h.streams, id, s, s.owner);
    forall o ensures OpenCountOf(h.streams[id := s], o) == OpenCountOf(h.streams, o) {
      CountsChange(h.streams, id, s, o);
    }
  }

  lemma AdmittingKeepsSlots(h: Handler, s: Stream)
    requires SlotsHold(h) && !s.stopped && s.releases == 0
    requires h.active < MAX_ACTIVE && Get(h.owners, s.owner, 0) < MAX_PER_OWNER
    ensures SlotsHold(Admit(h, s))
  {
    var a := Admit(h, s);
    assert a.streams[..|h.streams|] == h.streams;
    TotalPuts(h.owners, s.owner, Get(h.owners, s.owner, 0) + 1);
    forall o ensures Get(a.owners, o, 0) == OpenCountOf(a.streams, o) {
      assert OpenCountOf(a.streams, o) == OpenCountOf(h.streams, o) + IsOpen(s, o);
    }
    forall i | 0 <= i < |a.streams| ensures a.streams[i].releases == if a.streams[i].stopped then 1 else 0 {
      if i < |h.streams| { assert a.streams[i] == h.streams[i]; }
    }
  }

  // ---- Every interleaving ----

  datatype Input =
    | Opens(request: Request, now: int)
    | Aborts(id: nat)
    | Expires(id: nat)
    | Cancels(id: nat)
    | Pulls(id: nat, now: int, status: Option<Status>, page: Option<Page>)

  function React(h: Handler, input: Input, keepalive: int, lifetime: int): Handler {
    match input
    case Opens(r, now) => Open(h, r, now, lifetime)
    case Aborts(id) => if id < |h.streams| then Close(h, id) else h
    case Expires(id) => if id < |h.streams| then Close(h, id) else h
    case Cancels(id) => if id < |h.streams| then Cleanup(h, id) else h
    case Pulls(id, now, status, page) => if id < |h.streams| then Pull(h, id, now, keepalive, status, page) else h
  }

  lemma ClosingKeepsSlots(h: Handler, id: nat)
    requires SlotsHold(h) && id < |h.streams|
    ensures SlotsHold(Close(h, id)) && SlotsHold(Cleanup(h, id))
  {
    var s := h.streams[id];
    if !s.stopped {
      ReleaseKeepsSlots(h, id, Stopped(s));
      ReleaseKeepsSlots(h, id, Stopped(s).(closed := true));
    }
  }

  lemma ReactKeepsSlots(h: Handler, input: Input, keepalive: int, lifetime: int)
    requires SlotsHold(h)
    ensures SlotsHold(React(h, input, keepalive, lifetime))
  {
    match input
    case Opens(r, now) =>
      if Refusal(h, r, now).None? {
        var s := NewStream(r, Paginate(r.query, r.lastEventId).value, now, lifetime);
        AdmittingKeepsSlots(h, s);
        ClosingKeepsSlots(Admit(h, s), |h.streams|);
      }
    case Aborts(id) => if id < |h.streams| { ClosingKeepsSlots(h, id); }
    case Expires(id) => if id < |h.streams| { ClosingKeepsSlots(h, id); }
    case Cancels(id) => if id < |h.streams| { ClosingKeepsSlots(h, id); }
    case Pulls(id, now, status, page) =>
      if id < |h.streams| && !h.streams[id].stopped {
        var t := Turn(h.streams[id], now, keepalive, status, page);
        if t.stopped { ReleaseKeepsSlots(h, id, t); } else { RunningKeepsSlots(h, id, t); }
      }
  }

  function After(h: Handler, inputs: seq<Input>, keepalive: int, lifetime: int): Handler
    decreases |inputs|
  {
    if inputs == [] then h else After(React(h, inputs[0], keepalive, lifetime), inputs[1..], keepalive, lifetime)
  }

  lemma {:induction false} AfterKeepsSlots(h: Handler, inputs: seq<Input>, keepalive: int, lifetime: int)
    requires SlotsHold(h)
    ensures SlotsHold(After(h, inputs, keepalive, lifetime))
    decreases |inputs|
  {
    if inputs != [] {
      ReactKeepsSlots(h, inputs[0], keepalive, lifetime);
      AfterKeepsSlots(React(h, inputs[0], keepalive, lifetime), inputs[1..], keepalive, lifetime);
    }
  }

  /** In every interleaving the counters are exact, within their limits, and each stream gave back at most one slot. */
  lemma SlotsAreExact(inputs: seq<Input>, keepalive: int, lifetime: int)
    ensures var h := After(NO_STREAMS, inputs, keepalive, lifetime);
            && h.active == OpenCount(h.streams) == Total(h.owners) <= MAX_ACTIVE
            && (forall o :: o in h.owners ==> 1 <= h.owners[o] == OpenCountOf(h.streams, o) <= MAX_PER_OWNER)
            && (forall i :: 0 <= i < |h.streams| ==> h.streams[i].releases == if h.streams[i].stopped then 1 else 0)
  {
    assert SlotsHold(NO_STREAMS);
    AfterKeepsSlots(NO_STREAMS, inputs, keepalive, lifetime);
    var h := After(NO_STREAMS, inputs, keepalive, lifetime);
    assert forall o :: o in h.owners ==> h.owners[o] == Get(h.owners, o, 0);
  }

  /** A new stream is refused for want of a slot exactly when all slots, or all of that owner's, are held by open streams. */
  lemma RefusedOnlyWhenFull(inputs: seq<Input>, keepalive: int, lifetime: int, r: Request, now: int)
    requires Paginate(r.query, r.lastEventId).Some? && r.runFound && r.expiresAt > now
    ensures var h := After(NO_STREAMS, inputs, keepalive, lifetime);
            Refusal(h, r, now) == Some(429) <==> OpenCount(h.streams) == MAX_ACTIVE || OpenCountOf(h.streams, r.owner) == MAX_PER_OWNER
  {
    assert SlotsHold(NO_STREAMS);
    AfterKeepsSlots(NO_STREAMS, inputs, keepalive, lifetime);
    var h := After(NO_STREAMS, inputs, keepalive, lifetime);
    assert Get(h.owners, r.owner, 0) == OpenCountOf(h.streams, r.owner);
  }

  /** Once stopped, a stream is never touched again: nothing more is enqueued. */
  lemma {:induction false} NothingAfterStop(h: Handler, inputs: seq<Input>, keepalive: int, lifetime: int, id: nat)
    requires id < |h.streams| && h.streams[id].stopped
    ensures var d := After(h, inputs, keepalive, lifetime); id < |d.streams| && d.streams[id] == h.streams[id]
    decreases |inputs|
  {
    if inputs != [] {
      NothingAfterStop(React(h, inputs[0], keepalive, lifetime), inputs[1..], keepalive, lifetime, id);
    }
  }

  // ---- The handler as the object it is ----

  class StreamHandler {
    const keepaliveMs: int
    const lifetimeMs: int
    var streams: seq<Stream>
    var active: int
    var owners: map<Id, nat>

    ghost function View(): Handler
      reads this
    {
      Handler(streams, active, owners)
    }

    ghost predicate Valid()
      reads this
    {
      SlotsHold(View())
    }

    constructor (keepaliveMs: int, lifetimeMs: int)
      ensures Valid() && View() == NO_STREAMS
      ensures this.keepaliveMs == keepaliveMs && this.lifetimeMs == lifetimeMs
    {
      this.keepaliveMs, this.lifetimeMs := keepaliveMs, lifetimeMs;
      streams, active, owners := [], 0, map[];
    }

    method CleanupStream(id: nat)
      requires Valid() && id < |streams|
      modifies this
      ensures Valid() && View() == Cleanup(old(View()), id)
      ensures if old(streams)[id].stopped then View() == old(View())
              else streams == old(streams)[id := old(streams)[id].(stopped := true, releases := 1)] && active == old(active) - 1
    {
      ClosingKeepsSlots(View(), id);
      if streams[id].stopped { return; }
      var owner := streams[id].owner;
      streams := streams[id := streams[id].(stopped := true, releases := streams[id].releases + 1)];
      active := active - 1;
      var remaining: int := Get(owners, owner, 1) - 1;
      if remaining > 0 { owners := owners[owner := remaining]; } else { owners := owners - {owner}; }
    }

    method CloseStream(id: nat)
      requires Valid() && id < |streams|
      modifies this
      ensures Valid() && View() == Close(old(View()), id)
      ensures if old(streams)[id].stopped then View() == old(View())
              else streams == old(streams)[id := old(streams)[id].(stopped := true, closed := true, releases := 1)]
                   && active == old(active) - 1
    {
      ClosingKeepsSlots(View(), id);
      if streams[id].stopped { return; }
      CleanupStream(id);
      streams := streams[id := streams[id].(closed := true)];
      assert View() == Close(old(View()), id);
    }

    method TakeSlot(s: Stream)
      requires Valid() && !s.stopped && s.releases == 0
      requires active < MAX_ACTIVE && Get(owners, s.owner, 0) < MAX_PER_OWNER
      modifies this
      ensures Valid() && View() == Admit(old(View()), s)
    {
      ghost var before := View();
      AdmittingKeepsSlots(before, s);
      active := active + 1;
      owners := owners[s.owner := Get(owners, s.owner, 0) + 1];
      streams := streams + [s];
      assert View() == Admit(before, s);
    }

    method OpenStream(r: Request, now: int) returns (status: nat)
      requires Valid()
      modifies this
      ensures Valid() && View() == Open(old(View()), r, now, lifetimeMs)
      ensures status == if Refusal(old(View()), r, now).Some? then Refusal(old(View()), r, now).value else 200
      ensures Answers(old(View()), View(), r, now, lifetimeMs, status)
    {
      OpenAnswers(View(), r, now, lifetimeMs);
      var refusal := CheckRequest(r, now);
      if refusal.Some? { return refusal.value; }
      var s := MakeStream(r, Paginate(r.query, r.lastEventId).value, now);
      EnterStream(s, r.aborted);
      status := 200;
    }

    method MakeStream(r: Request, page: Pagination, now: int) returns (s: Stream)
      ensures s == NewStream(r, page, now, lifetimeMs)
    {
      var deadline := if r.expiresAt < now + lifetimeMs then r.expiresAt else now + lifetimeMs;
      s := Stream(r.owner, r.runId, page.after, page.limit, deadline, now, false, false, [], 0);
    }

    method EnterStream(s: Stream, aborted: bool)
      requires Valid() && !s.stopped && s.releases == 0
      requires active < MAX_ACTIVE && Get(owners, s.owner, 0) < MAX_PER_OWNER
      modifies this
      ensures Valid() && View() == Enter(old(View()), s, aborted)
    {
      TakeSlot(s);
      if aborted { CloseStream(|streams| - 1); }
    }

    /** The refusals, in their order. */
    method CheckRequest(r: Request, now: int) returns (refusal: Option<nat>)
      requires Valid()
      ensures refusal == Refusal(View(), r, now)
      ensures Replies(streams, r, now, if refusal.Some? then refusal.value else 200)
    {
      OpenAnswers(View(), r, now, lifetimeMs);
      if Paginate(r.query, r.lastEventId).None? { return Some(400); }
      if !r.runFound { return Some(404); }
      if r.expiresAt <= now { return Some(401); }
      if active >= MAX_ACTIVE || Get(owners, r.owner, 0) >= MAX_PER_OWNER { return Some(429); }
      refusal := None;
    }

    /** The frame loop of one turn: `next` follows the page, and one bad event throws the whole page away. */
    method BuildFrames(items: seq<Event>, runId: Id, after: nat) returns (valid: bool, next: nat)
      ensures valid == ValidFrom(items, runId, after) == Follows(items, runId, after)
      ensures valid ==> next == if items == [] then after else items[|items| - 1].sequence
    {
      ValidPagesFollow(items, runId, after);
      next := after;
      for i := 0 to |items|
        invariant forall j :: 0 <= j < i ==> ValidAt(items, j, runId, after)
        invariant next == Last(items[..i], after)
      {
        var e := items[i];
        if e.runId != runId || e.sequence > MAX_SAFE_INTEGER || e.sequence <= next {
          assert !ValidAt(items, i, runId, after);
          return false, next;
        }
        next := e.sequence;
      }
      assert items[..|items|] == items;
      valid := true;
    }

    /** Writes the variables of a running stream. */
    method Assign(id: nat, s: Stream)
      requires Valid() && id < |streams| && !streams[id].stopped
      requires !s.stopped && s.owner == streams[id].owner && s.releases == 0
      modifies this`streams
      ensures Valid() && streams == old(streams)[id := s]
    {
      RunningKeepsSlots(View(), id, s);
      streams := streams[id := s];
    }

    method AssignAndClose(id: nat, s: Stream)
      requires Valid() && id < |streams| && !streams[id].stopped
      requires !s.stopped && s.owner == streams[id].owner && s.releases == 0
      modifies this
      ensures Valid() && View() == Release(old(View()).(streams := old(streams)[id := Shut(s)]), s.owner)
    {
      Assign(id, s);
      CloseStream(id);
      assert old(streams)[id := s][id := Shut(s)] == old(streams)[id := Shut(s)];
    }

    method PullTurn(id: nat, now: int, status: Option<Status>, page: Option<Page>)
      requires Valid() && id < |streams|
      modifies this
      ensures Valid() && View() == Pull(old(View()), id, now, keepaliveMs, status, page)
      ensures |streams| == |old(streams)| && forall i :: 0 <= i < |streams| && i != id ==> streams[i] == old(streams)[i]
      ensures if old(streams)[id].stopped then View() == old(View())
              else TookTurn(old(streams)[id], streams[id], now, keepaliveMs, status, page)
    {
      if streams[id].stopped { return; }
      TurnIsTaken(streams[id], now, keepaliveMs, status, page);
      var s := streams[id];
      assert s.releases == 0;
      if now >= s.deadline {
        AssignAndClose(id, s);
        return;
      }
      var valid, next := false, s.after;
      if status.Some? && page.Some? && |page.value.items| <= s.limit {
        valid, next := BuildFrames(page.value.items, s.runId, s.after);
      }
      if !valid {
        AssignAndClose(id, s.(sent := s.sent + [FailureEvent]));
        return;
      }
      var terminal := IsTerminal(status.value) && page.value.nextCursor.None?;
      if page.value.items != [] {
        var told := s.(after := next, lastWrite := now, sent := s.sent + [Frames(page.value.items)]);
        if terminal { AssignAndClose(id, told); } else { Assign(id, told); }
      } else if terminal {
        AssignAndClose(id, s);
      } else if now - s.lastWrite >= keepaliveMs {
        Assign(id, s.(lastWrite := now, sent := s.sent + [KeepaliveComment]));
      } else {
        assert streams[id := s] == streams;
      }
    }
  }
}
