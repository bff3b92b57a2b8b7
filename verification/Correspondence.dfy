/** How counting and uniqueness turn a check in one direction into an exact correspondence. */
module Correspondence {
  import opened RunLog

  predicate Distinct<T(==)>(s: seq<T>) {
    forall i, j :: 0 <= i < j < |s| ==> s[i] != s[j]
  }

  function SetOf<T>(s: seq<T>): set<T> {
    set x | x in s
  }

  function Map<T, U>(f: T -> U, s: seq<T>): (r: seq<U>)
    ensures |r| == |s| && forall i :: 0 <= i < |s| ==> r[i] == f(s[i])
  {
    seq(|s|, i requires 0 <= i < |s| => f(s[i]))
  }

  /** `new Set(s).size === s.length` says that no two entries are equal. */
  lemma {:induction false} DistinctBySize<T>(s: seq<T>)
    ensures |SetOf(s)| <= |s|
    ensures |SetOf(s)| == |s| <==> Distinct(s)
  {
    if s != [] {
      var n := |s| - 1;
      DistinctBySize(s[..n]);
      assert SetOf(s) == SetOf(s[..n]) + {s[n]} by {
        assert s == s[..n] + [s[n]];
      }
      if s[n] in s[..n] {
        assert SetOf(s) == SetOf(s[..n]);
        var i :| 0 <= i < n && s[..n][i] == s[n];
        assert s[i] == s[n];
      } else {
        assert |SetOf(s)| == |SetOf(s[..n])| + 1;
        assert forall i :: 0 <= i < n ==> s[i] == s[..n][i];
      }
    }
  }

  /** The values that are present, in order. */
  function Present<T>(options: seq<Option<T>>): seq<T> {
    if options == [] then []
    else (if options[0].Some? then [options[0].value] else []) + Present(options[1..])
  }

  /** No two entries hold the same value. */
  predicate ValuesDiffer<T(==)>(options: seq<Option<T>>) {
    forall i, j :: 0 <= i < j < |options| && options[i].Some? ==> options[i] != options[j]
  }

  lemma {:induction false} PresentHas<T>(options: seq<Option<T>>, x: T)
    ensures x in Present(options) <==> Some(x) in options
  {
    if options != [] {
      PresentHas(options[1..], x);
      assert options == [options[0]] + options[1..];
    }
  }

  lemma {:induction false} DistinctPresent<T>(options: seq<Option<T>>)
    ensures Distinct(Present(options)) <==> ValuesDiffer(options)
  {
    if options != [] {
      var first, rest := options[0], options[1..];
      DistinctPresent(rest);
      assert options == [first] + rest;
      ValuesDifferCons(first, rest);
      if first.Some? {
        PresentHas(rest, first.value);
        DistinctCons(first.value, Present(rest));
      } else {
        assert Present(options) == Present(rest);
      }
    }
  }

  lemma DistinctCons<T>(x: T, s: seq<T>)
    ensures Distinct([x] + s) <==> x !in s && Distinct(s)
  {
    var all := [x] + s;
    assert forall i :: 0 <= i < |s| ==> all[i + 1] == s[i];
    if Distinct(all) {
      forall i, j | 0 <= i < j < |s| ensures s[i] != s[j] {
        assert all[i + 1] != all[j + 1];
      }
      forall i | 0 <= i < |s| ensures s[i] != x {
        assert all[0] != all[i + 1];
      }
    }
  }

  lemma ValuesDifferCons<T>(first: Option<T>, rest: seq<Option<T>>)
    ensures ValuesDiffer([first] + rest) <==> ValuesDiffer(rest) && !(first.Some? && first in rest)
  {
    var all := [first] + rest;
    assert forall i :: 0 <= i < |rest| ==> all[i + 1] == rest[i];
    if ValuesDiffer(all) {
      forall i, j | 0 <= i < j < |rest| && rest[i].Some? ensures rest[i] != rest[j] {
        assert all[i + 1] == rest[i] && all[j + 1] == rest[j];
      }
      forall i | 0 <= i < |rest| && first.Some? ensures rest[i] != first {
        assert all[0] == first && all[i + 1] == rest[i];
      }
    }
  }

  /** Two lists without repetition that share nothing. */
  lemma {:induction false} DistinctAppend<T>(a: seq<T>, b: seq<T>)
    ensures Distinct(a + b) <==> Distinct(a) && Distinct(b) && forall x :: x in a ==> x !in b
  {
    if a == [] {
      assert a + b == b;
    } else {
      var rest := a[1..];
      assert a == [a[0]] + rest && a + b == [a[0]] + (rest + b);
      DistinctCons(a[0], rest + b);
      DistinctCons(a[0], rest);
      DistinctAppend(rest, b);
    }
  }

  lemma SubsetBySize<T>(a: set<T>, b: set<T>)
    requires a <= b && |a| >= |b|
    ensures a == b
  {
    assert b == a + (b - a);
  }

  /** Distinct keys that all occur among as many keys are exactly those keys, each once. */
  lemma Pigeonhole<T>(a: seq<T>, b: seq<T>)
    requires Distinct(a) && |a| == |b| && forall i :: 0 <= i < |a| ==> a[i] in b
    ensures SetOf(a) == SetOf(b) && Distinct(b)
  {
    DistinctBySize(a);
    DistinctBySize(b);
    SubsetBySize(SetOf(a), SetOf(b));
  }

  /** Exactly one y matches x. */
  ghost predicate HasOnePartner<A(!new), B(!new)>(x: A, ys: seq<B>, matches: (A, B) -> bool) {
    exists j :: 0 <= j < |ys| && matches(x, ys[j]) && forall k :: 0 <= k < |ys| && matches(x, ys[k]) ==> k == j
  }

  /** Exactly one x matches y. */
  ghost predicate HasOneSource<A(!new), B(!new)>(xs: seq<A>, y: B, matches: (A, B) -> bool) {
    exists i :: 0 <= i < |xs| && matches(xs[i], y) && forall k :: 0 <= k < |xs| && matches(xs[k], y) ==> k == i
  }

  ghost predicate OneToOne<A(!new), B(!new)>(xs: seq<A>, ys: seq<B>, matches: (A, B) -> bool) {
    && |xs| == |ys|
    && (forall i :: 0 <= i < |xs| ==> HasOnePartner(xs[i], ys, matches))
    && (forall j :: 0 <= j < |ys| ==> HasOneSource(xs, ys[j], matches))
  }

  /** Matches agree on keys. */
  ghost predicate Keyed<A(!new), B(!new), K>(matches: (A, B) -> bool, key: A -> K, tag: B -> K) {
    forall x, y :: matches(x, y) ==> key(x) == tag(y)
  }

  ghost predicate HasPartner<A(!new), B(!new)>(x: A, ys: seq<B>, matches: (A, B) -> bool) {
    exists j :: 0 <= j < |ys| && matches(x, ys[j])
  }

  /** One direction, equal counts and distinct keys on the checked side give a one-to-one correspondence. */
  lemma CountedIsOneToOne<A(!new), B(!new), K>(xs: seq<A>, ys: seq<B>, matches: (A, B) -> bool, key: A -> K, tag: B -> K)
    requires Keyed(matches, key, tag) && |xs| == |ys| && Distinct(Map(key, xs))
    requires forall i :: 0 <= i < |xs| ==> HasPartner(xs[i], ys, matches)
    ensures OneToOne(xs, ys, matches) && Distinct(Map(tag, ys))
  {
    var keys, tags := Map(key, xs), Map(tag, ys);
    forall i | 0 <= i < |keys| ensures keys[i] in tags {
      var j :| 0 <= j < |ys| && matches(xs[i], ys[j]);
      assert tags[j] == keys[i];
    }
    Pigeonhole(keys, tags);
    forall i | 0 <= i < |xs| ensures HasOnePartner(xs[i], ys, matches) {
      var j :| 0 <= j < |ys| && matches(xs[i], ys[j]);
      forall k | 0 <= k < |ys| && matches(xs[i], ys[k]) ensures k == j {
        assert tags[k] == tags[j];
      }
    }
    forall j | 0 <= j < |ys| ensures HasOneSource(xs, ys[j], matches) {
      assert tags[j] in SetOf(tags);
      var i :| 0 <= i < |keys| && keys[i] == tags[j];
      var k :| 0 <= k < |ys| && matches(xs[i], ys[k]);
      assert tags[k] == tags[j];
      forall l | 0 <= l < |xs| && matches(xs[l], ys[j]) ensures l == i {
        assert keys[l] == keys[i];
      }
    }
  }

  /** A one-to-one correspondence carries distinct keys over to the other side. */
  lemma OneToOneKeepsDistinct<A(!new), B(!new), K>(xs: seq<A>, ys: seq<B>, matches: (A, B) -> bool, key: A -> K, tag: B -> K)
    requires OneToOne(xs, ys, matches) && Keyed(matches, key, tag) && Distinct(Map(key, xs))
    ensures Distinct(Map(tag, ys))
  {
    var keys, tags := Map(key, xs), Map(tag, ys);
    forall j, k | 0 <= j < |ys| && 0 <= k < |ys| && tags[j] == tags[k] ensures j == k {
      var i := SourceOf(xs, ys[j], matches);
      var l := SourceOf(xs, ys[k], matches);
      assert keys[i] == tags[j] && keys[l] == tags[k];
      PartnerIsUnique(xs[i], ys, matches, j, k);
    }
  }

  /** Relations that hold of the same pairs. */
  ghost predicate SamePairs<A(!new), B(!new)>(some: (A, B) -> bool, others: (A, B) -> bool) {
    forall x, y :: some(x, y) == others(x, y)
  }

  lemma SamePairsSamePartners<A(!new), B(!new)>(xs: seq<A>, ys: seq<B>, some: (A, B) -> bool, others: (A, B) -> bool)
    requires SamePairs(some, others) && OneToOne(xs, ys, some)
    ensures OneToOne(xs, ys, others)
  {
    forall i | 0 <= i < |xs| ensures HasOnePartner(xs[i], ys, others) {
      assert HasOnePartner(xs[i], ys, some);
      var j :| 0 <= j < |ys| && some(xs[i], ys[j]);
      assert others(xs[i], ys[j]);
    }
    forall j | 0 <= j < |ys| ensures HasOneSource(xs, ys[j], others) {
      assert HasOneSource(xs, ys[j], some);
      var i :| 0 <= i < |xs| && some(xs[i], ys[j]);
      assert others(xs[i], ys[j]);
    }
  }

  lemma SourceOf<A(!new), B(!new)>(xs: seq<A>, y: B, matches: (A, B) -> bool) returns (i: nat)
    requires HasOneSource(xs, y, matches)
    ensures i < |xs| && matches(xs[i], y)
  {
    i :| 0 <= i < |xs| && matches(xs[i], y);
  }

  lemma PartnerIsUnique<A(!new), B(!new)>(x: A, ys: seq<B>, matches: (A, B) -> bool, j: nat, k: nat)
    requires HasOnePartner(x, ys, matches) && j < |ys| && k < |ys| && matches(x, ys[j]) && matches(x, ys[k])
    ensures j == k
  {
  }

  // ---- Permutations ----

  lemma PermutedMembers<T>(a: seq<T>, b: seq<T>)
    requires multiset(a) == multiset(b)
    ensures forall i :: 0 <= i < |a| ==> a[i] in b
    ensures forall x :: x in b ==> x in a
  {
    forall x ensures x in a <==> x in b {
      assert x in multiset(a) <==> x in multiset(b);
    }
  }

  lemma DistinctByKey<T, K>(key: T -> K, s: seq<T>)
    requires Distinct(Map(key, s))
    ensures Distinct(s)
  {
    var keys := Map(key, s);
    forall i, j | 0 <= i < j < |s| ensures s[i] != s[j] {
      assert keys[i] != keys[j];
    }
  }

  /** Distinct keys stay distinct in any order. */
  lemma KeysStayDistinct<T, K>(key: T -> K, before: seq<T>, after: seq<T>)
    requires Distinct(Map(key, before)) && multiset(before) == multiset(after)
    ensures Distinct(Map(key, after))
  {
    assert |before| == |multiset(before)| == |after|;
    DistinctByKey(key, before);
    PermutedMembers(before, after);
    Pigeonhole(before, after);
    var keys := Map(key, before);
    forall i, j | 0 <= i < j < |after| ensures key(after[i]) != key(after[j]) {
      assert after[i] in after && after[j] in after;
      var k :| 0 <= k < |before| && before[k] == after[i];
      var l :| 0 <= l < |before| && before[l] == after[j];
      assert keys[k] != keys[l];
    }
  }
}
