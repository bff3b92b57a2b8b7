/** The shared vocabulary of the wall: runs, attempts and the append-only event log. */
module RunLog {

  datatype Option<+T> = None | Some(value: T)

  datatype Result<+T, +E> = Ok(value: T) | Err(error: E)

  type Id = string
  type Timestamp = string

  /** Sequences are positive integers. */
  type Sequence = n: int | 1 <= n witness 1

  datatype Status =
    | Queued | Running
    | Succeeded | GaveUp | Cancelled | Blocked | LimitReached | InfrastructureFailed | TargetFailed

  predicate IsTerminal(status: Status) {
    status != Queued && status != Running
  }

  datatype EventKind =
    | RunCreated | RunCancelRequested | RunFinished
    | AttemptStarted | AttemptFinished | EvidenceRecorded | FindingRecorded
    | AttemptObservation | AttemptDecision | AttemptAction | AttemptRecovering | AttemptControl

  /** `status` is the one data field the wall reads; every other one is kept in `detail`. */
  datatype Event = Event(
    runId: Id,
    sequence: Sequence,
    attemptId: Option<Id>,
    timestamp: Timestamp,
    kind: EventKind,
    status: Option<Status>,
    detail: string)

  /** The event carries the terminal status that its run or attempt ends with. */
  predicate CarriesOutcome(e: Event) {
    e.status.Some? && IsTerminal(e.status.value)
  }

  predicate IsTerminalKind(e: Event) {
    e.kind == RunFinished || e.kind == AttemptFinished
  }

  /** A committed log numbers its events 1, 2, 3, ... */
  predicate IsLog(log: seq<Event>, runId: Id) {
    forall i :: 0 <= i < |log| ==> log[i].sequence == i + 1 && log[i].runId == runId
  }

  predicate StrictlySorted(events: seq<Event>) {
    forall i, j :: 0 <= i < j < |events| ==> events[i].sequence < events[j].sequence
  }

  /** `events` is a strictly sorted selection of the log. */
  predicate Selects(events: seq<Event>, log: seq<Event>) {
    && StrictlySorted(events)
    && forall e :: e in events ==> e.sequence <= |log| && e == log[e.sequence - 1]
  }

  /** A page of the log: the first `limit` events above `after`, and the last of them when more remain. */
  datatype Page = Page(items: seq<Event>, nextCursor: Option<Sequence>)

  function Min(a: int, b: int): int { if a <= b then a else b }

  function Max(a: int, b: int): int { if a <= b then b else a }

  function ReadPage(log: seq<Event>, after: nat, limit: nat): Page
    requires limit >= 1
  {
    var first := Min(after, |log|);
    var last := Min(first + limit, |log|);
    Page(log[first..last], if last < |log| then Some(last) else None)
  }
}
