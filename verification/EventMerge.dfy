/** Merging pages and stream frames into one buffer with a contiguous cursor (src/lib/live-wall.ts). */
module EventMerge {
  import opened RunLog

  datatype Merged = Merged(events: seq<Event>, cursor: nat, gap: bool)

  // ---- What a merge means: a map from sequence to event ----

  ghost predicate Keyed(held: map<Sequence, Event>) {
    forall k :: k in held ==> held[k].sequence == k
  }

  /** The buffer as a map; a repeated sequence keeps its last entry. */
  ghost function Index(current: seq<Event>): (held: map<Sequence, Event>)
    ensures Keyed(held)
  {
    if current == [] then map[]
    else var last := |current| - 1; Index(current[..last])[current[last].sequence := current[last]]
  }

  /** Incoming events of this run fill empty places only. */
  ghost function Admit(held: map<Sequence, Event>, incoming: seq<Event>, runId: Id): (r: map<Sequence, Event>)
    requires Keyed(held)
    ensures Keyed(r)
  {
    if incoming == [] then held
    else
      var last := |incoming| - 1;
      var e := incoming[last];
      var rest := Admit(held, incoming[..last], runId);
      if e.runId == runId && e.sequence !in rest then rest[e.sequence := e] else rest
  }

  /** The entries of a map in ascending order of sequence. */
  ghost function Ascending(held: map<Sequence, Event>): (r: seq<Event>)
    requires Keyed(held)
    ensures StrictlySorted(r)
    ensures forall e :: e in r <==> e.sequence in held && held[e.sequence] == e
    decreases |held|
  {
    if held == map[] then []
    else
      LargestKey(held.Keys);
      var top :| top in held && forall k :: k in held ==> k <= top;
      var rest := map k | k in held && k != top :: held[k];
      assert rest.Keys == held.Keys - {top};
      Ascending(rest) + [held[top]]
  }

  lemma LargestKey(keys: set<Sequence>)
    requires keys != {}
    ensures exists top :: top in keys && forall k :: k in keys ==> k <= top
  {
    var some :| some in keys;
    if keys != {some} {
      LargestKey(keys - {some});
      var top :| top in keys - {some} && forall k :: k in keys - {some} ==> k <= top;
      assert forall k :: k in keys ==> k == some || k in keys - {some};
      assert Max(some, top) in keys;
    }
  }

  /** The number of events that continue 1, 2, 3, ... from position `from`. */
  function CursorFrom(events: seq<Event>, from: nat): (cursor: nat)
    requires from <= |events|
    ensures from <= cursor <= |events|
    ensures forall i :: from <= i < cursor ==> events[i].sequence == i + 1
    ensures cursor < |events| ==> events[cursor].sequence != cursor + 1
    decreases |events| - from
  {
    if from < |events| && events[from].sequence == from + 1 then CursorFrom(events, from + 1) else from
  }

  function Cursor(events: seq<Event>): nat {
    CursorFrom(events, 0)
  }

  ghost function Merge(current: seq<Event>, incoming: seq<Event>, runId: Id): Merged {
    var events := Ascending(Admit(Index(current), incoming, runId));
    var cursor := Cursor(events);
    Merged(events, cursor, exists e :: e in events && e.sequence > cursor)
  }

  // ---- How the wall computes it ----

  /** An insertion-ordered map, as a `Map` object keeps one. */
  datatype Ordered = Ordered(keys: seq<Sequence>, entries: map<Sequence, Event>) {
    ghost predicate Valid() {
      && (forall k :: k in keys <==> k in entries)
      && (forall i, j :: 0 <= i < j < |keys| ==> keys[i] != keys[j])
      && Keyed(entries)
    }

    function Set(e: Event): (r: Ordered)
      requires Valid()
      ensures r.Valid() && r.entries == entries[e.sequence := e]
    {
      Ordered(if e.sequence in entries then keys else keys + [e.sequence], entries[e.sequence := e])
    }

    function Values(): (r: seq<Event>)
      requires Valid()
      ensures |r| == |keys| && forall i :: 0 <= i < |r| ==> r[i] == entries[keys[i]]
    {
      seq(|keys|, i requires 0 <= i < |keys| => entries[keys[i]])
    }
  }

  function Insert(e: Event, sorted: seq<Event>): (r: seq<Event>)
    requires StrictlySorted(sorted)
    requires forall o :: o in sorted ==> o.sequence != e.sequence
    ensures StrictlySorted(r)
    ensures forall o :: o in r <==> o == e || o in sorted
  {
    if sorted == [] then [e]
    else if e.sequence < sorted[0].sequence then [e] + sorted
    else
      assert sorted == [sorted[0]] + sorted[1..];
      var rest := Insert(e, sorted[1..]);
      assert forall i :: 0 <= i < |rest| ==> rest[i] in rest;
      [sorted[0]] + rest
  }

  function SortBySequence(values: seq<Event>): (r: seq<Event>)
    requires forall i, j :: 0 <= i < j < |values| ==> values[i].sequence != values[j].sequence
    ensures StrictlySorted(r)
    ensures forall e :: e in r <==> e in values
  {
    if values == [] then []
    else
      assert values == [values[0]] + values[1..];
      Insert(values[0], SortBySequence(values[1..]))
  }

  method MapBySequence(current: seq<Event>, incoming: seq<Event>, runId: Id) returns (bySequence: Ordered)
    ensures bySequence.Valid() && bySequence.entries == Admit(Index(current), incoming, runId)
  {
    bySequence := Ordered([], map[]);
    for i := 0 to |current|
      invariant bySequence.Valid() && bySequence.entries == Index(current[..i])
    {
      assert current[..i + 1][..i] == current[..i];
      bySequence := bySequence.Set(current[i]);
    }
    assert current[..|current|] == current;
    for i := 0 to |incoming|
      invariant bySequence.Valid() && bySequence.entries == Admit(Index(current), incoming[..i], runId)
    {
      assert incoming[..i + 1][..i] == incoming[..i];
      if incoming[i].runId == runId && incoming[i].sequence !in bySequence.entries {
        bySequence := bySequence.Set(incoming[i]);
      }
    }
    assert incoming[..|incoming|] == incoming;
  }

  method FollowCursor(events: seq<Event>) returns (cursor: nat)
    ensures cursor == Cursor(events)
  {
    cursor := 0;
    for i := 0 to |events|
      invariant cursor == i
      invariant Cursor(events) == CursorFrom(events, i)
    {
      if events[i].sequence != cursor + 1 { break; }
      cursor := events[i].sequence;
    }
  }

  method MergeEvents(current: seq<Event>, incoming: seq<Event>, runId: Id) returns (merged: Merged)
    ensures merged == Merge(current, incoming, runId)
  {
    var bySequence := MapBySequence(current, incoming, runId);
    SortingIsAscending(bySequence);
    var events := SortBySequence(bySequence.Values());
    var cursor := FollowCursor(events);
    merged := Merged(events, cursor, exists e :: e in events && e.sequence > cursor);
  }

  lemma ValuesAreEntries(m: Ordered, e: Event)
    requires m.Valid()
    ensures e in m.Values() <==> e.sequence in m.entries && m.entries[e.sequence] == e
  {
    var values := m.Values();
    if e.sequence in m.entries && m.entries[e.sequence] == e {
      assert e.sequence in m.keys;
      var i :| 0 <= i < |m.keys| && m.keys[i] == e.sequence;
      assert values[i] == e;
    }
    if e in values {
      var i :| 0 <= i < |values| && values[i] == e;
      assert m.keys[i] in m.keys;
    }
  }

  /** The insertion order of the map is lost by sorting: only its entries count. */
  lemma SortingIsAscending(m: Ordered)
    requires m.Valid()
    ensures SortBySequence(m.Values()) == Ascending(m.entries)
  {
    var values := m.Values();
    forall e ensures e in SortBySequence(values) <==> e in Ascending(m.entries) {
      ValuesAreEntries(m, e);
    }
    SortedUnique(SortBySequence(values), Ascending(m.entries));
  }

  // ---- What the buffer promises ----

  /** A strictly sorted sequence is determined by its members. */
  lemma {:induction false} SortedUnique(a: seq<Event>, b: seq<Event>)
    requires StrictlySorted(a) && StrictlySorted(b)
    requires forall e :: e in a <==> e in b
    ensures a == b
  {
    assert b != [] ==> b[|b| - 1] in b;
    if a != [] {
      var n, m := |a| - 1, |b| - 1;
      assert a[n] in b;
      assert b[m] in a;
      assert a[n] == b[m];
      forall e ensures e in a[..n] <==> e in b[..m] {
        if e in a[..n] { assert e in a && e != a[n]; assert e in b; }
        if e in b[..m] { assert e in b && e != b[m]; assert e in a; }
      }
      SortedUnique(a[..n], b[..m]);
      assert a == a[..n] + [a[n]] && b == b[..m] + [b[m]];
    }
  }

  ghost predicate Holds(events: seq<Event>, sequence: int) {
    exists e :: e in events && e.sequence == sequence
  }

  /** In a sorted buffer the entry at position i has a sequence of at least i + 1. */
  lemma {:induction false} SortedAtLeast(events: seq<Event>, i: nat)
    requires StrictlySorted(events) && i < |events|
    ensures events[i].sequence >= i + 1
  {
    if i > 0 { SortedAtLeast(events, i - 1); }
  }

  /** The cursor is the longest prefix 1..cursor the buffer holds, and nothing is held at cursor + 1. */
  lemma {:induction false} CursorIsLongestPrefix(events: seq<Event>, n: nat)
    requires StrictlySorted(events)
    ensures n <= Cursor(events) <==> forall k :: 1 <= k <= n ==> Holds(events, k)
    ensures !Holds(events, Cursor(events) + 1)
  {
    var c := Cursor(events);
    forall k | 1 <= k <= c ensures Holds(events, k) {
      assert events[k - 1] in events;
    }
    if Holds(events, c + 1) {
      var e :| e in events && e.sequence == c + 1;
      var i :| 0 <= i < |events| && events[i] == e;
      SortedAtLeast(events, i);
      assert false;
    }
  }

  /** There is no gap exactly when the held sequences are 1..cursor. */
  lemma {:induction false} NoGapMeansComplete(current: seq<Event>, incoming: seq<Event>, runId: Id)
    ensures var m := Merge(current, incoming, runId);
            && StrictlySorted(m.events)
            && m.cursor == Cursor(m.events)
            && (!m.gap <==> forall k :: Holds(m.events, k) <==> 1 <= k <= m.cursor)
  {
    var m := Merge(current, incoming, runId);
    CursorIsLongestPrefix(m.events, m.cursor);
    if !m.gap {
      forall k ensures Holds(m.events, k) <==> 1 <= k <= m.cursor {}
    } else {
      var e :| e in m.events && e.sequence > m.cursor;
      assert Holds(m.events, e.sequence);
    }
  }

  lemma {:induction false} IndexOfSorted(events: seq<Event>)
    requires StrictlySorted(events)
    ensures forall e :: e in events <==> e.sequence in Index(events) && Index(events)[e.sequence] == e
  {
    if events != [] {
      var n := |events| - 1;
      IndexOfSorted(events[..n]);
      assert events == events[..n] + [events[n]];
      forall e ensures e in events <==> e.sequence in Index(events) && Index(events)[e.sequence] == e {
        if e in events[..n] { assert e.sequence < events[n].sequence; }
      }
    }
  }

  lemma HoldsOneMore(events: seq<Event>, k: int)
    requires events != []
    ensures Holds(events, k) <==> Holds(events[..|events| - 1], k) || events[|events| - 1].sequence == k
  {
    var n := |events| - 1;
    assert events == events[..n] + [events[n]];
    if Holds(events, k) && k != events[n].sequence {
      var e :| e in events && e.sequence == k;
      assert e in events[..n];
    }
    if Holds(events[..n], k) {
      var e :| e in events[..n] && e.sequence == k;
      assert e in events;
    }
  }

  lemma {:induction false} IndexInLog(events: seq<Event>, log: seq<Event>)
    requires forall e :: e in events ==> e.sequence <= |log| && e == log[e.sequence - 1]
    ensures forall k :: k in Index(events) <==> Holds(events, k)
    ensures forall k :: k in Index(events) ==> k <= |log| && Index(events)[k] == log[k - 1]
  {
    if events != [] {
      var n := |events| - 1;
      assert events == events[..n] + [events[n]];
      IndexInLog(events[..n], log);
      assert Index(events) == Index(events[..n])[events[n].sequence := events[n]];
      forall k ensures k in Index(events) <==> Holds(events, k) {
        HoldsOneMore(events, k);
      }
    }
  }

  lemma {:induction false} AdmitAt(held: map<Sequence, Event>, incoming: seq<Event>, runId: Id, k: Sequence)
    requires Keyed(held) && forall e :: e in incoming ==> e.runId == runId
    ensures var r := Admit(held, incoming, runId);
            && (k in r <==> k in held || Holds(incoming, k))
            && (k in r ==> if k in held then r[k] == held[k] else r[k] in incoming)
  {
    if incoming != [] {
      var n := |incoming| - 1;
      assert incoming == incoming[..n] + [incoming[n]];
      AdmitAt(held, incoming[..n], runId, k);
      HoldsOneMore(incoming, k);
    }
  }

  lemma AdmitInLog(held: map<Sequence, Event>, incoming: seq<Event>, log: seq<Event>, runId: Id)
    requires Keyed(held) && IsLog(log, runId)
    requires forall k :: k in held ==> k <= |log| && held[k] == log[k - 1]
    requires forall e :: e in incoming ==> e.sequence <= |log| && e == log[e.sequence - 1]
    ensures var r := Admit(held, incoming, runId);
            && (forall k :: k in r <==> k in held || Holds(incoming, k))
            && (forall k :: k in r ==> k <= |log| && r[k] == log[k - 1])
  {
    forall k: Sequence ensures var r := Admit(held, incoming, runId);
      (k in r <==> k in held || Holds(incoming, k)) && (k in r ==> k <= |log| && r[k] == log[k - 1])
    {
      AdmitAt(held, incoming, runId, k);
    }
  }

  /** The event is the one the log has at its sequence. */
  ghost predicate InLog(e: Event, log: seq<Event>) {
    e.sequence <= |log| && e == log[e.sequence - 1]
  }

  lemma UnionMember(a: seq<Event>, b: seq<Event>, held: map<Sequence, Event>, log: seq<Event>, e: Event)
    requires forall o :: o in a || o in b ==> InLog(o, log)
    requires forall k :: k in held <==> Holds(a, k) || Holds(b, k)
    requires forall k :: k in held ==> k <= |log| && held[k] == log[k - 1]
    ensures e.sequence in held && held[e.sequence] == e <==> e in a || e in b
  {
    var k := e.sequence;
    if e in a { assert Holds(a, k); }
    if e in b { assert Holds(b, k); }
    if k in held {
      var o :| (o in a || o in b) && o.sequence == k;
    }
  }

  lemma MergedMember(current: seq<Event>, incoming: seq<Event>, log: seq<Event>, runId: Id, e: Event)
    requires IsLog(log, runId) && Selects(current, log)
    requires forall o :: o in incoming ==> o.sequence <= |log| && o == log[o.sequence - 1]
    ensures e in Merge(current, incoming, runId).events <==> e in current || e in incoming
  {
    IndexInLog(current, log);
    AdmitInLog(Index(current), incoming, log, runId);
    UnionMember(current, incoming, Admit(Index(current), incoming, runId), log, e);
  }

  /** For batches of one log, a merge is the union of what was held and what came in. */
  lemma {:induction false} MergeIsUnion(current: seq<Event>, incoming: seq<Event>, log: seq<Event>, runId: Id)
    requires IsLog(log, runId) && Selects(current, log)
    requires forall e :: e in incoming ==> e.sequence <= |log| && e == log[e.sequence - 1]
    ensures var m := Merge(current, incoming, runId);
            && Selects(m.events, log)
            && (forall e :: e in m.events <==> e in current || e in incoming)
            && m.cursor == Cursor(m.events)
            && Cursor(current) <= m.cursor <= |log|
  {
    var events := Merge(current, incoming, runId).events;
    forall e ensures e in events <==> e in current || e in incoming {
      MergedMember(current, incoming, log, runId, e);
    }
    CursorGrows(current, events);
    CursorWithin(events, log);
  }

  lemma CursorWithin(events: seq<Event>, log: seq<Event>)
    requires Selects(events, log)
    ensures Cursor(events) <= |log|
  {
    var c := Cursor(events);
    if c > 0 { assert events[c - 1] in events; }
  }

  lemma CursorGrows(smaller: seq<Event>, larger: seq<Event>)
    requires StrictlySorted(smaller) && StrictlySorted(larger)
    requires forall e :: e in smaller ==> e in larger
    ensures Cursor(smaller) <= Cursor(larger)
  {
    CursorIsLongestPrefix(smaller, Cursor(smaller));
    forall k | 1 <= k <= Cursor(smaller) ensures Holds(larger, k) {
      assert Holds(smaller, k);
      var e :| e in smaller && e.sequence == k;
      assert e in larger;
    }
    CursorIsLongestPrefix(larger, Cursor(smaller));
  }

  lemma IndexInverts(held: map<Sequence, Event>, events: seq<Event>)
    requires Keyed(held) && StrictlySorted(events)
    requires forall e :: e in events <==> e.sequence in held && held[e.sequence] == e
    ensures Index(events) == held
  {
    IndexOfSorted(events);
    forall k ensures k in Index(events) <==> k in held {
      if k in Index(events) { assert Index(events)[k] in events; }
      if k in held { assert held[k] in events; }
    }
    forall k | k in held ensures Index(events)[k] == held[k] {
      assert held[k] in events;
    }
  }

  /** Merging what is already held changes nothing. */
  lemma {:induction false} MergeIsIdempotent(current: seq<Event>, incoming: seq<Event>, runId: Id)
    ensures var m := Merge(current, incoming, runId);
            Merge(m.events, incoming, runId) == m
  {
    var m := Merge(current, incoming, runId);
    var held := Admit(Index(current), incoming, runId);
    IndexInverts(held, m.events);
    AdmitCovers(Index(current), incoming, runId);
    AdmitNothingNew(held, incoming, runId);
  }

  lemma {:induction false} AdmitCovers(held: map<Sequence, Event>, incoming: seq<Event>, runId: Id)
    requires Keyed(held)
    ensures forall e :: e in incoming && e.runId == runId ==> e.sequence in Admit(held, incoming, runId)
  {
    if incoming != [] {
      var n := |incoming| - 1;
      AdmitCovers(held, incoming[..n], runId);
      assert incoming == incoming[..n] + [incoming[n]];
    }
  }

  lemma {:induction false} AdmitNothingNew(held: map<Sequence, Event>, incoming: seq<Event>, runId: Id)
    requires Keyed(held)
    requires forall e :: e in incoming && e.runId == runId ==> e.sequence in held
    ensures Admit(held, incoming, runId) == held
  {
    if incoming != [] {
      var n := |incoming| - 1;
      assert incoming[n] in incoming;
      AdmitNothingNew(held, incoming[..n], runId);
    }
  }

  /** Receiving batches one after the other. */
  ghost function MergeAll(current: seq<Event>, batches: seq<seq<Event>>, runId: Id): seq<Event> {
    if batches == [] then current
    else var last := |batches| - 1; Merge(MergeAll(current, batches[..last], runId), batches[last], runId).events
  }

  ghost predicate Carries(batches: seq<seq<Event>>, e: Event) {
    exists b :: b in batches && e in b
  }

  lemma {:induction false} MergeAllIsUnion(batches: seq<seq<Event>>, log: seq<Event>, runId: Id)
    requires IsLog(log, runId)
    requires forall e :: Carries(batches, e) ==> e.sequence <= |log| && e == log[e.sequence - 1]
    ensures var r := MergeAll([], batches, runId);
            Selects(r, log) && forall e :: e in r <==> Carries(batches, e)
  {
    if batches != [] {
      var n := |batches| - 1;
      var before := batches[..n];
      assert batches == before + [batches[n]];
      forall e ensures Carries(batches, e) <==> Carries(before, e) || e in batches[n] {
        if Carries(before, e) { var b :| b in before && e in b; assert b in batches; }
        if e in batches[n] { assert batches[n] in batches; }
      }
      MergeAllIsUnion(before, log, runId);
      MergeIsUnion(MergeAll([], before, runId), batches[n], log, runId);
    }
  }

  /** The order, grouping and repetition of batches of one log do not matter: only what they carry does. */
  lemma {:induction false} MergeIsJoin(first: seq<seq<Event>>, second: seq<seq<Event>>, log: seq<Event>, runId: Id)
    requires IsLog(log, runId)
    requires forall e :: Carries(first, e) ==> e.sequence <= |log| && e == log[e.sequence - 1]
    requires forall e :: Carries(second, e) ==> e.sequence <= |log| && e == log[e.sequence - 1]
    ensures MergeAll([], first, runId) == MergeAll([], second, runId)
            <==> forall e :: Carries(first, e) <==> Carries(second, e)
  {
    MergeAllIsUnion(first, log, runId);
    MergeAllIsUnion(second, log, runId);
    var a, b := MergeAll([], first, runId), MergeAll([], second, runId);
    if forall e :: Carries(first, e) <==> Carries(second, e) {
      forall e ensures e in a <==> e in b {
        assert Carries(first, e) <==> Carries(second, e);
      }
      SortedUnique(a, b);
    } else {
      var e :| Carries(first, e) != Carries(second, e);
      assert (e in a) != (e in b);
    }
  }

  /** An entry that is already held is never replaced. */
  lemma {:induction false} FirstHeldStays(current: seq<Event>, incoming: seq<Event>, runId: Id, e: Event)
    requires StrictlySorted(current) && e in current
    ensures e in Merge(current, incoming, runId).events
  {
    IndexOfSorted(current);
    AdmitKeeps(Index(current), incoming, runId, e.sequence);
  }

  lemma {:induction false} AdmitKeeps(held: map<Sequence, Event>, incoming: seq<Event>, runId: Id, k: Sequence)
    requires Keyed(held) && k in held
    ensures var r := Admit(held, incoming, runId); k in r && r[k] == held[k]
  {
    if incoming != [] {
      AdmitKeeps(held, incoming[..|incoming| - 1], runId, k);
    }
  }

  /** Whatever came in for this run has its sequence held afterwards. */
  lemma IncomingIsHeld(current: seq<Event>, incoming: seq<Event>, runId: Id, e: Event)
    requires e in incoming && e.runId == runId
    ensures Holds(Merge(current, incoming, runId).events, e.sequence)
  {
    var held := Admit(Index(current), incoming, runId);
    AdmitHolds(Index(current), incoming, runId, e);
    assert held[e.sequence] in Ascending(held);
  }

  lemma {:induction false} AdmitHolds(held: map<Sequence, Event>, incoming: seq<Event>, runId: Id, e: Event)
    requires Keyed(held) && e in incoming && e.runId == runId
    ensures e.sequence in Admit(held, incoming, runId)
  {
    var last := |incoming| - 1;
    assert incoming == incoming[..last] + [incoming[last]];
    if e != incoming[last] { AdmitHolds(held, incoming[..last], runId, e); }
  }

  /** What is held afterwards was held before, or came in for this run. */
  lemma {:induction false} NewcomersAreOwn(current: seq<Event>, incoming: seq<Event>, runId: Id, e: Event)
    requires e in Merge(current, incoming, runId).events
    ensures e in current || (e in incoming && e.runId == runId)
  {
    AdmitTakes(Index(current), incoming, runId, e.sequence);
    if e !in incoming || e.runId != runId { IndexHolds(current, e.sequence); }
  }

  lemma {:induction false} AdmitTakes(held: map<Sequence, Event>, incoming: seq<Event>, runId: Id, k: Sequence)
    requires Keyed(held) && k in Admit(held, incoming, runId)
    ensures var e := Admit(held, incoming, runId)[k]; (k in held && e == held[k]) || (e in incoming && e.runId == runId)
  {
    if incoming != [] {
      var n := |incoming| - 1;
      assert incoming == incoming[..n] + [incoming[n]];
      if k in Admit(held, incoming[..n], runId) { AdmitTakes(held, incoming[..n], runId, k); }
    }
  }

  lemma {:induction false} IndexHolds(current: seq<Event>, k: Sequence)
    requires k in Index(current)
    ensures Index(current)[k] in current
  {
    var n := |current| - 1;
    assert current == current[..n] + [current[n]];
    if current[n].sequence != k { IndexHolds(current[..n], k); }
  }
}
