/** Decimal sequence numbers: printing them as ids and parsing the resume cursor (src/server/event-stream.ts). */
module Decimal {
  import opened RunLog

  const MAX_SAFE_INTEGER: nat := 0x1F_FFFF_FFFF_FFFF

  predicate IsDigit(c: char) {
    '0' <= c <= '9'
  }

  function DigitChar(d: nat): char
    requires d < 10
  {
    ('0' as int + d) as char
  }

  function DigitValue(c: char): nat
    requires IsDigit(c)
  {
    c as int - '0' as int
  }

  function Print(n: nat): (s: string)
    ensures |s| > 0 && forall i :: 0 <= i < |s| ==> IsDigit(s[i])
  {
    if n < 10 then [DigitChar(n)] else Print(n / 10) + [DigitChar(n % 10)]
  }

  function Number(digits: string): nat
    requires forall i :: 0 <= i < |digits| ==> IsDigit(digits[i])
  {
    if digits == "" then 0 else 10 * Number(digits[..|digits| - 1]) + DigitValue(digits[|digits| - 1])
  }

  /** The expression ^(0|[1-9]\d*)$ */
  predicate IsCanonical(s: string) {
    && |s| > 0
    && (forall i :: 0 <= i < |s| ==> IsDigit(s[i]))
    && (s[0] == '0' ==> |s| == 1)
  }

  function ParseCursor(value: string): Option<nat> {
    if IsCanonical(value) && Number(value) <= MAX_SAFE_INTEGER then Some(Number(value)) else None
  }

  lemma {:induction false} PrintIsCanonical(n: nat)
    ensures IsCanonical(Print(n)) && Number(Print(n)) == n
    ensures n > 0 ==> Print(n)[0] != '0'
  {
    if n >= 10 {
      PrintIsCanonical(n / 10);
      assert Print(n)[..|Print(n)| - 1] == Print(n / 10);
    }
  }

  lemma {:induction false} CanonicalIsPrinted(s: string)
    requires IsCanonical(s)
    ensures s == Print(Number(s))
  {
    var n := |s| - 1;
    if n > 0 {
      var rest := s[..n];
      CanonicalIsPrinted(rest);
      NonzeroHead(rest);
      assert Number(s) / 10 == Number(rest) && Number(s) % 10 == DigitValue(s[n]);
      assert s == rest + [s[n]];
    } else {
      assert Number(s[..0]) == 0;
    }
  }

  lemma {:induction false} NonzeroHead(s: string)
    requires IsCanonical(s) && s[0] != '0'
    ensures Number(s) > 0
  {
    if |s| > 1 { NonzeroHead(s[..|s| - 1]); }
  }

  /** The parser accepts exactly the printed form of every safe integer, and inverts printing. */
  lemma {:induction false} ParsingInvertsPrinting(s: string, n: nat)
    ensures ParseCursor(s) == Some(n) <==> n <= MAX_SAFE_INTEGER && s == Print(n)
  {
    PrintIsCanonical(n);
    if IsCanonical(s) { CanonicalIsPrinted(s); }
  }

  lemma PrintingIsInjective(a: nat, b: nat)
    ensures Print(a) == Print(b) <==> a == b
  {
    PrintIsCanonical(a);
    PrintIsCanonical(b);
  }

  // ---- The query of a stream or page request ----

  datatype Pagination = Pagination(after: nat, limit: nat)

  function CountKey(query: seq<(string, string)>, key: string): nat {
    if query == [] then 0 else (if query[0].0 == key then 1 else 0) + CountKey(query[1..], key)
  }

  function FirstValue(query: seq<(string, string)>, key: string): Option<string> {
    if query == [] then None
    else if query[0].0 == key then Some(query[0].1)
    else FirstValue(query[1..], key)
  }

  function GetOr(value: Option<string>, default: string): string {
    if value.Some? then value.value else default
  }

  /** `None` is the 400 reply. Both cursor sources are validated even though the header takes precedence. */
  function Paginate(query: seq<(string, string)>, lastEventId: Option<string>): Option<Pagination> {
    if exists p :: p in query && (p.0 !in {"after", "limit"} || CountKey(query, p.0) != 1) then None
    else
      var queryAfter := ParseCursor(GetOr(FirstValue(query, "after"), "0"));
      var after := if lastEventId.None? then queryAfter else ParseCursor(lastEventId.value);
      var limit := ParseCursor(GetOr(FirstValue(query, "limit"), "50"));
      if queryAfter.None? || after.None? || limit.None? || limit.value < 1 || limit.value > 100 then None
      else Some(Pagination(after.value, limit.value))
  }

  /** A reconnect that names the id of the last frame resumes right after it, whatever valid query it repeats. */
  lemma ResumesFromLastEventId(query: seq<(string, string)>, sequence: nat)
    requires Paginate(query, None).Some? && sequence <= MAX_SAFE_INTEGER
    ensures Paginate(query, Some(Print(sequence))) == Some(Paginate(query, None).value.(after := sequence))
  {
    ParsingInvertsPrinting(Print(sequence), sequence);
  }

  lemma DefaultLimit()
    ensures ParseCursor("50") == Some(50)
  {
    assert DigitChar(5) == '5' && DigitChar(0) == '0';
    assert Print(5) == "5";
    assert Print(50) == Print(50 / 10) + [DigitChar(50 % 10)] == "50";
    ParsingInvertsPrinting("50", 50);
  }

  /** The client's own query is read back as the cursor it was built from, with the default page size. */
  lemma ReadsBackTheCursor(cursor: nat)
    requires cursor <= MAX_SAFE_INTEGER
    ensures Paginate([("after", Print(cursor))], None) == Some(Pagination(cursor, 50))
  {
    var text := Print(cursor);
    ParsingInvertsPrinting(text, cursor);
    DefaultLimit();
    ReadsBackText(text);
  }

  lemma ReadsBackText(text: string)
    requires ParseCursor(text).Some? && ParseCursor("50") == Some(50)
    ensures Paginate([("after", text)], None) == Some(Pagination(ParseCursor(text).value, 50))
  {
    var query := [("after", text)];
    assert query[1..] == [];
    assert CountKey(query, "after") == 1;
    assert FirstValue(query, "after") == Some(text);
    assert FirstValue(query[1..], "limit").None?;
    assert "after" != "limit";
    assert FirstValue(query, "limit").None?;
  }

  // ---- What a request asks for ----

  predicate KeysDiffer(query: seq<(string, string)>) {
    forall i, j :: 0 <= i < j < |query| ==> query[i].0 != query[j].0
  }

  /** The query gives the number in print, or not at all and then it is the default. */
  predicate Gives(query: seq<(string, string)>, key: string, n: nat, default: nat) {
    (key, Print(n)) in query || (n == default && forall p :: p in query ==> p.0 != key)
  }

  /** A query of at most one `after` and one `limit`, each a printed number up to 2^53 - 1, a limit of 1 to 100, by default
      50, and a cursor that the header, if there is one, overrides. */
  ghost predicate Asks(query: seq<(string, string)>, lastEventId: Option<string>, after: nat, limit: nat) {
    && (forall p :: p in query ==> p.0 == "after" || p.0 == "limit") && KeysDiffer(query)
    && after <= 9_007_199_254_740_991 && Gives(query, "limit", limit, 50) && 1 <= limit <= 100
    && if lastEventId.None? then Gives(query, "after", after, 0)
       else lastEventId.value == Print(after) && exists n: nat :: n <= 9_007_199_254_740_991 && Gives(query, "after", n, 0)
  }

  lemma {:induction false} AbsentKey(query: seq<(string, string)>, key: string)
    ensures CountKey(query, key) == 0 <==> forall p :: p in query ==> p.0 != key
    ensures FirstValue(query, key).None? <==> forall p :: p in query ==> p.0 != key
  {
    if query != [] {
      AbsentKey(query[1..], key);
      assert query == [query[0]] + query[1..];
    }
  }

  lemma KeysDifferCons(query: seq<(string, string)>)
    requires query != []
    ensures KeysDiffer(query) <==> KeysDiffer(query[1..]) && forall p :: p in query[1..] ==> p.0 != query[0].0
  {
    var q, rest := query[0], query[1..];
    assert query == [q] + rest;
    if KeysDiffer(query) {
      forall p | p in rest ensures p.0 != q.0 {
        var i :| 0 <= i < |rest| && rest[i] == p;
        assert query[i + 1] == p;
      }
    }
    if KeysDiffer(rest) && forall p :: p in rest ==> p.0 != q.0 {
      forall i, j | 0 <= i < j < |query| ensures query[i].0 != query[j].0 {
        assert query[j] == rest[j - 1] && query[j] in rest;
        if i > 0 { assert query[i] == rest[i - 1]; }
      }
    }
  }

  ghost predicate OneOfEach(query: seq<(string, string)>) {
    forall p :: p in query ==> CountKey(query, p.0) == 1
  }

  lemma OneOfEachCons(query: seq<(string, string)>)
    requires query != []
    ensures OneOfEach(query) <==> OneOfEach(query[1..]) && forall p :: p in query[1..] ==> p.0 != query[0].0
  {
    var q, rest := query[0], query[1..];
    assert query == [q] + rest;
    AbsentKey(rest, q.0);
    forall p | p in rest ensures CountKey(rest, p.0) >= 1 { AbsentKey(rest, p.0); }
    assert CountKey(query, q.0) == 1 + CountKey(rest, q.0);
  }

  lemma {:induction false} EachKeyOnce(query: seq<(string, string)>)
    ensures OneOfEach(query) <==> KeysDiffer(query)
    decreases |query|
  {
    if query != [] {
      KeysDifferCons(query);
      OneOfEachCons(query);
      EachKeyOnce(query[1..]);
    }
  }

  lemma {:induction false} FirstValueIs(query: seq<(string, string)>, key: string, v: string)
    requires KeysDiffer(query)
    ensures FirstValue(query, key) == Some(v) <==> (key, v) in query
    decreases |query|
  {
    if query != [] {
      var q, rest := query[0], query[1..];
      assert query == [q] + rest;
      assert forall i :: 0 <= i < |rest| ==> rest[i] == query[i + 1];
      FirstValueIs(rest, key, v);
      if q.0 == key {
        forall p | p in rest ensures p.0 != key {
          var i :| 0 <= i < |rest| && rest[i] == p;
          assert query[i + 1] == p;
        }
      }
    }
  }

  lemma ReadsNumber(query: seq<(string, string)>, key: string, text: string, default: nat, n: nat)
    requires KeysDiffer(query) && ParseCursor(text) == Some(default)
    ensures ParseCursor(GetOr(FirstValue(query, key), text)) == Some(n) <==> n <= MAX_SAFE_INTEGER && Gives(query, key, n, default)
  {
    AbsentKey(query, key);
    FirstValueIs(query, key, Print(n));
    ParsingInvertsPrinting(text, n);
    if FirstValue(query, key).Some? {
      ParsingInvertsPrinting(FirstValue(query, key).value, n);
      FirstValueIs(query, key, FirstValue(query, key).value);
    }
  }

  lemma DefaultCursor()
    ensures ParseCursor("0") == Some(0)
  {
    assert Print(0) == "0";
    ParsingInvertsPrinting("0", 0);
  }

  /** The parser answers with exactly what was asked for. */
  lemma PaginatesWhatIsAsked(query: seq<(string, string)>, lastEventId: Option<string>, after: nat, limit: nat)
    ensures Paginate(query, lastEventId) == Some(Pagination(after, limit)) <==> Asks(query, lastEventId, after, limit)
  {
    EachKeyOnce(query);
    if KeysDiffer(query) {
      DefaultCursor();
      DefaultLimit();
      ReadsNumber(query, "after", "0", 0, after);
      ReadsNumber(query, "limit", "50", 50, limit);
      if lastEventId.Some? {
        ParsingInvertsPrinting(lastEventId.value, after);
        var first := ParseCursor(GetOr(FirstValue(query, "after"), "0"));
        if first.Some? { ReadsNumber(query, "after", "0", 0, first.value); }
        forall n: nat | n <= MAX_SAFE_INTEGER && Gives(query, "after", n, 0) ensures first == Some(n) {
          ReadsNumber(query, "after", "0", 0, n);
        }
      }
    }
  }

  /** A request is refused as malformed exactly when there is nothing that it asks for. */
  lemma RefusesWhatAsksForNothing(query: seq<(string, string)>, lastEventId: Option<string>)
    ensures Paginate(query, lastEventId).Some? <==> exists after, limit :: Asks(query, lastEventId, after, limit)
  {
    var p := Paginate(query, lastEventId);
    if p.Some? { PaginatesWhatIsAsked(query, lastEventId, p.value.after, p.value.limit); }
    if after, limit :| Asks(query, lastEventId, after, limit) { PaginatesWhatIsAsked(query, lastEventId, after, limit); }
  }

  /** Whoever asks with just a printed cursor asks for that cursor and the default page size. */
  lemma OwnQueryAsks(cursor: nat, after: nat, limit: nat)
    requires Asks([("after", Print(cursor))], None, after, limit)
    ensures after == cursor && limit == 50
  {
    var query := [("after", Print(cursor))];
    assert query[0] in query && "after" != "limit";
    PrintingIsInjective(cursor, after);
  }
}
