/** The sweep over session edges that reports how many browsers were ever live at once (scripts/advanced-proof.ts). */
module PeakConcurrency {
  import opened RunLog

  datatype SessionStatus = Completed | Error | TimedOut | OtherStatus

  /** A provider's session with finite timestamps, in milliseconds. */
  datatype Session = Session(
    correlationToken: Id, sessionId: Id, status: SessionStatus,
    startedAt: real, endedAt: real, actualBrowserSeconds: real)

  // ---- What is meant: sessions live at an instant ----

  predicate Live(s: Session, t: real) {
    s.startedAt <= t < s.endedAt
  }

  function LiveAt(sessions: seq<Session>, t: real): nat {
    if sessions == [] then 0 else (if Live(sessions[0], t) then 1 else 0) + LiveAt(sessions[1..], t)
  }

  /** Sessions that began before `t` and end after it. */
  function LiveAround(sessions: seq<Session>, t: real): nat {
    if sessions == [] then 0
    else (if sessions[0].startedAt < t < sessions[0].endedAt then 1 else 0) + LiveAround(sessions[1..], t)
  }

  // ---- How it is computed ----

  datatype Edge = Edge(at: real, delta: int)

  function EdgesOf(sessions: seq<Session>): seq<Edge> {
    if sessions == [] then []
    else
      var s := sessions[0];
      (if s.endedAt > s.startedAt then [Edge(s.startedAt, 1), Edge(s.endedAt, -1)] else []) + EdgesOf(sessions[1..])
  }

  /** The order of the sweep: by time, and ends before starts. */
  predicate Before(a: Edge, b: Edge) {
    a.at < b.at || (a.at == b.at && a.delta <= b.delta)
  }

  predicate Ordered(edges: seq<Edge>) {
    forall i, j :: 0 <= i < j < |edges| ==> Before(edges[i], edges[j])
  }

  function InsertEdge(e: Edge, sorted: seq<Edge>): (r: seq<Edge>)
    requires Ordered(sorted)
    ensures Ordered(r)
    ensures forall x :: x in r <==> x == e || x in sorted
  {
    if sorted == [] || Before(e, sorted[0]) then [e] + sorted
    else
      assert sorted == [sorted[0]] + sorted[1..];
      var rest := InsertEdge(e, sorted[1..]);
      assert forall i :: 0 <= i < |rest| ==> rest[i] in rest;
      [sorted[0]] + rest
  }

  function SortEdges(edges: seq<Edge>): (r: seq<Edge>)
    ensures Ordered(r)
    ensures forall x :: x in r <==> x in edges
  {
    if edges == [] then []
    else
      assert edges == [edges[0]] + edges[1..];
      InsertEdge(edges[0], SortEdges(edges[1..]))
  }

  lemma {:induction false} SortingPermutes(edges: seq<Edge>)
    ensures multiset(SortEdges(edges)) == multiset(edges)
  {
    if edges != [] {
      SortingPermutes(edges[1..]);
      InsertingAdds(edges[0], SortEdges(edges[1..]));
      assert edges == [edges[0]] + edges[1..];
    }
  }

  lemma {:induction false} InsertingAdds(e: Edge, sorted: seq<Edge>)
    requires Ordered(sorted)
    ensures multiset(InsertEdge(e, sorted)) == multiset(sorted) + multiset{e}
  {
    if sorted != [] && !Before(e, sorted[0]) {
      InsertingAdds(e, sorted[1..]);
      assert sorted == [sorted[0]] + sorted[1..];
    }
  }

  function Net(edges: seq<Edge>): int {
    if edges == [] then 0 else edges[0].delta + Net(edges[1..])
  }

  /** The running count after the first `k` edges. */
  function Running(edges: seq<Edge>, k: nat): int
    requires k <= |edges|
  {
    Net(edges[..k])
  }

  method ObservedPeakConcurrency(sessions: seq<Session>) returns (peak: nat)
    ensures forall t: real :: LiveAt(sessions, t) <= peak
    ensures peak > 0 ==> exists s :: s in sessions && LiveAt(sessions, s.startedAt) == peak
  {
    var edges := SortEdges(EdgesOf(sessions));
    var current := 0;
    peak := 0;
    ghost var top := 0;
    for i := 0 to |edges|
      invariant current == Running(edges, i)
      invariant forall k :: 0 <= k <= i ==> Running(edges, k) <= peak
      invariant 0 <= top <= i && peak == Running(edges, top)
    {
      NetAdds(edges, i);
      current := current + edges[i].delta;
      if current > peak {
        peak := current;
        top := i + 1;
      }
    }
    forall t: real ensures LiveAt(sessions, t) <= peak {
      LiveIsRunning(sessions, t);
    }
    if peak > 0 { PeakIsAtAStart(sessions, top, peak); }
  }

  // ---- Sums ----

  lemma {:induction false} NetAdds(edges: seq<Edge>, k: nat)
    requires k < |edges|
    ensures Running(edges, k + 1) == Running(edges, k) + edges[k].delta
  {
    if k == 0 {
      assert edges[..1][1..] == [];
    } else {
      NetAdds(edges[1..], k - 1);
      assert edges[..k + 1][1..] == edges[1..][..k] && edges[..k][1..] == edges[1..][..k - 1];
    }
  }

  /** The sum of the edges up to (t, d) in the order of the sweep. */
  function Through(edges: seq<Edge>, t: real, d: int): int {
    if edges == [] then 0
    else (if Before(edges[0], Edge(t, d)) then edges[0].delta else 0) + Through(edges[1..], t, d)
  }

  lemma {:induction false} ThroughInsert(e: Edge, sorted: seq<Edge>, t: real, d: int)
    requires Ordered(sorted)
    ensures Through(InsertEdge(e, sorted), t, d) == Through([e], t, d) + Through(sorted, t, d)
    ensures Net(InsertEdge(e, sorted)) == e.delta + Net(sorted)
  {
    if sorted == [] || Before(e, sorted[0]) {
      assert ([e] + sorted)[1..] == sorted;
    } else {
      ThroughInsert(e, sorted[1..], t, d);
      assert ([sorted[0]] + InsertEdge(e, sorted[1..]))[1..] == InsertEdge(e, sorted[1..]);
    }
  }

  lemma {:induction false} ThroughSort(edges: seq<Edge>, t: real, d: int)
    ensures Through(SortEdges(edges), t, d) == Through(edges, t, d)
    ensures Net(SortEdges(edges)) == Net(edges)
  {
    if edges != [] {
      ThroughSort(edges[1..], t, d);
      ThroughInsert(edges[0], SortEdges(edges[1..]), t, d);
    }
  }

  lemma {:induction false} ThroughAppend(a: seq<Edge>, b: seq<Edge>, t: real, d: int)
    ensures Through(a + b, t, d) == Through(a, t, d) + Through(b, t, d)
    ensures Net(a + b) == Net(a) + Net(b)
  {
    if a == [] {
      assert a + b == b;
    } else {
      ThroughAppend(a[1..], b, t, d);
      assert (a + b)[1..] == a[1..] + b;
    }
  }

  lemma PairThrough(a: Edge, b: Edge, t: real, d: int)
    ensures Net([a, b]) == a.delta + b.delta
    ensures Through([a, b], t, d) ==
      (if Before(a, Edge(t, d)) then a.delta else 0) + (if Before(b, Edge(t, d)) then b.delta else 0)
  {
    assert [a] + [b] == [a, b];
    ThroughAppend([a], [b], t, d);
    assert [a][1..] == [] && [b][1..] == [];
  }

  /** The edges up to an instant count the sessions live at it; without its starts, those live around it. */
  lemma {:induction false} ThroughCounts(sessions: seq<Session>, t: real)
    ensures Through(EdgesOf(sessions), t, 1) == LiveAt(sessions, t)
    ensures Through(EdgesOf(sessions), t, -1) == LiveAround(sessions, t)
    ensures Net(EdgesOf(sessions)) == 0
  {
    if sessions != [] {
      var s := sessions[0];
      ThroughCounts(sessions[1..], t);
      if s.endedAt > s.startedAt {
        var pair := [Edge(s.startedAt, 1), Edge(s.endedAt, -1)];
        PairThrough(pair[0], pair[1], t, 1);
        PairThrough(pair[0], pair[1], t, -1);
        ThroughAppend(pair, EdgesOf(sessions[1..]), t, 1);
        ThroughAppend(pair, EdgesOf(sessions[1..]), t, -1);
      } else {
        assert EdgesOf(sessions) == EdgesOf(sessions[1..]);
      }
    }
  }

  predicate Units(edges: seq<Edge>) {
    forall e :: e in edges ==> e.delta == 1 || e.delta == -1
  }

  lemma {:induction false} EdgesAreUnits(sessions: seq<Session>)
    ensures Units(EdgesOf(sessions)) && Units(SortEdges(EdgesOf(sessions)))
  {
    if sessions != [] { EdgesAreUnits(sessions[1..]); }
    forall e | e in SortEdges(EdgesOf(sessions)) ensures e in EdgesOf(sessions) {
    }
  }

  // ---- The sweep visits every instant ----

  /** How many edges of a sorted sequence lie up to (t, d). */
  function CountThrough(edges: seq<Edge>, t: real, d: int): (n: nat)
    ensures n <= |edges|
  {
    if edges == [] || !Before(edges[0], Edge(t, d)) then 0 else 1 + CountThrough(edges[1..], t, d)
  }

  lemma {:induction false} ThroughIsPrefix(edges: seq<Edge>, t: real, d: int)
    requires Ordered(edges)
    ensures Through(edges, t, d) == Running(edges, CountThrough(edges, t, d))
  {
    if edges == [] {
    } else if Before(edges[0], Edge(t, d)) {
      ThroughIsPrefix(edges[1..], t, d);
      var n := CountThrough(edges[1..], t, d);
      assert edges[..n + 1][1..] == edges[1..][..n];
    } else {
      NothingThrough(edges, t, d);
    }
  }

  lemma {:induction false} NothingThrough(edges: seq<Edge>, t: real, d: int)
    requires forall e :: e in edges ==> !Before(e, Edge(t, d))
    ensures Through(edges, t, d) == 0
  {
    if edges != [] { NothingThrough(edges[1..], t, d); }
  }

  /** The number live at any instant is one of the sweep's running counts. */
  lemma LiveIsRunning(sessions: seq<Session>, t: real)
    ensures var edges := SortEdges(EdgesOf(sessions));
            LiveAt(sessions, t) == Running(edges, CountThrough(edges, t, 1))
  {
    ThroughCounts(sessions, t);
    ThroughSort(EdgesOf(sessions), t, 1);
    ThroughIsPrefix(SortEdges(EdgesOf(sessions)), t, 1);
  }

  // ---- A running count is never more than what was live ----

  lemma {:induction false} EverythingThrough(edges: seq<Edge>, t: real, d: int)
    requires forall e :: e in edges ==> Before(e, Edge(t, d))
    ensures Through(edges, t, d) == Net(edges)
  {
    if edges != [] { EverythingThrough(edges[1..], t, d); }
  }

  /** What is left at (t, d) of edges at or after it repeats that very edge. */
  lemma {:induction false} TiesThrough(edges: seq<Edge>, t: real, d: int)
    requires forall e :: e in edges ==> Before(Edge(t, d), e)
    ensures d >= 0 ==> Through(edges, t, d) >= 0
    ensures d <= 0 ==> Through(edges, t, d) <= 0
  {
    if edges != [] {
      assert edges[0] in edges;
      TiesThrough(edges[1..], t, d);
    }
  }

  lemma RunningAgainstLive(sessions: seq<Session>, k: nat)
    requires var edges := SortEdges(EdgesOf(sessions)); 0 < k <= |edges|
    ensures var edges := SortEdges(EdgesOf(sessions));
            var e := edges[k - 1];
            && (e.delta == 1 || e.delta == -1)
            && (e.delta == 1 ==> Running(edges, k) <= LiveAt(sessions, e.at))
            && (e.delta == -1 ==> Running(edges, k) >= LiveAround(sessions, e.at))
  {
    var edges := SortEdges(EdgesOf(sessions));
    var e := edges[k - 1];
    EdgesAreUnits(sessions);
    assert e in edges;
    ThroughCounts(sessions, e.at);
    ThroughSort(EdgesOf(sessions), e.at, e.delta);
    RunningAgainstThrough(edges, k);
  }

  lemma RunningAgainstThrough(edges: seq<Edge>, k: nat)
    requires Ordered(edges) && 0 < k <= |edges|
    ensures var e := edges[k - 1];
            && (e.delta >= 0 ==> Running(edges, k) <= Through(edges, e.at, e.delta))
            && (e.delta <= 0 ==> Running(edges, k) >= Through(edges, e.at, e.delta))
  {
    var e := edges[k - 1];
    assert edges == edges[..k] + edges[k..];
    ThroughAppend(edges[..k], edges[k..], e.at, e.delta);
    EverythingThrough(edges[..k], e.at, e.delta);
    TiesThrough(edges[k..], e.at, e.delta);
  }

  /** The running count is never negative, and ends at zero. */
  lemma {:induction false} RunningCountStaysNatural(sessions: seq<Session>, k: nat)
    requires k <= |SortEdges(EdgesOf(sessions))|
    ensures var edges := SortEdges(EdgesOf(sessions));
            Running(edges, k) >= 0 && Running(edges, |edges|) == 0
  {
    var edges := SortEdges(EdgesOf(sessions));
    ThroughCounts(sessions, 0.0);
    ThroughSort(EdgesOf(sessions), 0.0, 1);
    assert edges[..|edges|] == edges;
    if k > 0 {
      RunningAgainstLive(sessions, k);
      RunningCountStaysNatural(sessions, k - 1);
      NetAdds(edges, k - 1);
    }
  }

  lemma {:induction false} StartsBelongToSessions(sessions: seq<Session>, e: Edge)
    requires e in EdgesOf(sessions) && e.delta == 1
    ensures exists s :: s in sessions && s.startedAt == e.at
  {
    var s := sessions[0];
    if s.endedAt > s.startedAt && e == Edge(s.startedAt, 1) {
    } else {
      StartsBelongToSessions(sessions[1..], e);
    }
  }

  /** The largest running count is reached on a start edge, by sessions live together at that start. */
  lemma PeakIsAtAStart(sessions: seq<Session>, k: nat, peak: int)
    requires var edges := SortEdges(EdgesOf(sessions)); k <= |edges| && peak == Running(edges, k) > 0
    requires var edges := SortEdges(EdgesOf(sessions)); forall i :: 0 <= i <= |edges| ==> Running(edges, i) <= peak
    ensures exists s :: s in sessions && LiveAt(sessions, s.startedAt) == peak
  {
    var edges := SortEdges(EdgesOf(sessions));
    var e := edges[k - 1];
    NetAdds(edges, k - 1);
    RunningAgainstLive(sessions, k);
    assert Running(edges, k - 1) <= peak;
    StartsBelongToSessions(sessions, e);
    LiveIsRunning(sessions, e.at);
  }
}
