/** The text the stream sends and the events a client reads from it, whatever the chunks.
    Reading follows section 9.2.6 of the WHATWG HTML Standard. */
module ServerSentEvents {
  import opened RunLog
  import opened Decimal

  // ---- What the server writes (src/server/event-stream.ts) ----

  /** `json` is the encoded event: one line of text. */
  datatype Sent = Frame(sequence: nat, kind: EventKind, json: string) | Keepalive | Failure

  function KindName(kind: EventKind): string {
    match kind
    case RunCreated => "run.created"
    case RunCancelRequested => "run.cancel_requested"
    case RunFinished => "run.finished"
    case AttemptStarted => "attempt.started"
    case AttemptFinished => "attempt.finished"
    case EvidenceRecorded => "evidence.recorded"
    case FindingRecorded => "finding.recorded"
    case AttemptObservation => "attempt.observation"
    case AttemptDecision => "attempt.decision"
    case AttemptAction => "attempt.action"
    case AttemptRecovering => "attempt.recovering"
    case AttemptControl => "attempt.control"
  }

  const FAILURE_DATA := "{\"code\":\"unavailable\"}"

  function Line(name: string, value: string): string {
    name + ": " + value + "\n"
  }

  function Text(item: Sent): string {
    match item
    case Frame(sequence, kind, json) =>
      Line("id", Print(sequence)) + Line("event", KindName(kind)) + Line("data", json) + "\n"
    case Keepalive => Line("", "keepalive") + "\n"
    case Failure => Line("event", "error") + Line("data", FAILURE_DATA) + "\n"
  }

  function Concat(parts: seq<string>): string {
    if parts == [] then "" else parts[0] + Concat(parts[1..])
  }

  function Texts(items: seq<Sent>): string {
    if items == [] then "" else Text(items[0]) + Texts(items[1..])
  }

  // ---- What the client reads ----

  datatype Message = Message(kind: string, data: string, lastEventId: string)

  datatype Reader = Reader(line: string, afterReturn: bool, data: string, kind: string, lastEventId: string, messages: seq<Message>)

  const START := Reader("", false, "", "", "", [])

  predicate OneLine(s: string) {
    '\n' !in s && '\r' !in s
  }

  function IndexOf(s: string, c: char): (i: nat)
    ensures i <= |s|
  {
    if s == "" || s[0] == c then 0 else 1 + IndexOf(s[1..], c)
  }

  function Field(r: Reader, name: string, value: string): Reader {
    if name == "event" then r.(kind := value)
    else if name == "data" then r.(data := r.data + value + "\n")
    else if name == "id" && '\0' !in value then r.(lastEventId := value)
    else r
  }

  function Dispatch(r: Reader): Reader {
    if r.data == "" then r.(kind := "")
    else
      r.(data := "", kind := "",
         messages := r.messages + [Message(if r.kind == "" then "message" else r.kind, r.data[..|r.data| - 1], r.lastEventId)])
  }

  function EndLine(r: Reader, line: string): Reader {
    if line == "" then Dispatch(r)
    else
      var colon := IndexOf(line, ':');
      if colon == 0 then r
      else if colon == |line| then Field(r, line, "")
      else
        var value := line[colon + 1..];
        Field(r, line[..colon], if value != "" && value[0] == ' ' then value[1..] else value)
  }

  function Step(r: Reader, c: char): Reader {
    if c == '\n' && r.afterReturn then r.(afterReturn := false)
    else if c == '\n' || c == '\r' then EndLine(r.(line := "", afterReturn := c == '\r'), r.line)
    else r.(line := r.line + [c], afterReturn := false)
  }

  function Feed(r: Reader, chunk: string): Reader
    decreases |chunk|, r
  {
    if chunk == "" then r else Feed(Step(r, chunk[0]), chunk[1..])
  }

  function FeedAll(r: Reader, chunks: seq<string>): Reader
    decreases |chunks|
  {
    if chunks == [] then r else FeedAll(Feed(r, chunks[0]), chunks[1..])
  }

  // ---- Chunks do not matter ----

  lemma {:induction false} FeedInTwo(r: Reader, a: string, b: string)
    ensures Feed(r, a + b) == Feed(Feed(r, a), b)
    decreases |a|
  {
    if a == "" {
      assert a + b == b;
    } else {
      assert (a + b)[1..] == a[1..] + b;
      FeedInTwo(Step(r, a[0]), a[1..], b);
    }
  }

  lemma {:induction false} ChunksDoNotMatter(r: Reader, chunks: seq<string>)
    ensures FeedAll(r, chunks) == Feed(r, Concat(chunks))
    decreases |chunks|
  {
    if chunks != [] {
      FeedInTwo(r, chunks[0], Concat(chunks[1..]));
      ChunksDoNotMatter(Feed(r, chunks[0]), chunks[1..]);
    }
  }

  // ---- Lines ----

  ghost predicate AtLineStart(r: Reader) {
    r.line == "" && !r.afterReturn
  }

  lemma {:induction false} FeedWithinLine(r: Reader, s: string)
    requires OneLine(s) && !r.afterReturn
    ensures Feed(r, s) == r.(line := r.line + s)
    decreases |s|
  {
    if s != "" {
      FeedWithinLine(Step(r, s[0]), s[1..]);
      assert r.line + s == r.line + [s[0]] + s[1..];
    } else {
      assert r.line + s == r.line;
    }
  }

  lemma FeedLine(r: Reader, s: string)
    requires OneLine(s) && AtLineStart(r)
    ensures Feed(r, s + "\n") == EndLine(r, s)
  {
    FeedInTwo(r, s, "\n");
    FeedWithinLine(r, s);
    var mid := Feed(r, s);
    assert "\n"[1..] == "";
    assert Feed(mid, "\n") == Step(mid, '\n');
    assert mid.line == s && mid.(line := "", afterReturn := false) == r;
  }

  lemma {:induction false} IndexOfAfter(name: string, c: char, rest: string)
    requires c !in name
    ensures IndexOf(name + [c] + rest, c) == |name|
    decreases |name|
  {
    var s := name + [c] + rest;
    if name != "" {
      assert s[1..] == name[1..] + [c] + rest;
      IndexOfAfter(name[1..], c, rest);
    }
  }

  /** A line "name: value" sets the field to the value, exactly one leading space removed. */
  lemma FeedField(r: Reader, name: string, value: string)
    requires AtLineStart(r) && name != "" && ':' !in name && OneLine(name) && OneLine(value)
    ensures Feed(r, Line(name, value)) == Field(r, name, value)
  {
    var line := name + ": " + value;
    assert line == name + [':'] + (" " + value);
    IndexOfAfter(name, ':', " " + value);
    assert line[..|name|] == name && line[|name| + 1..] == " " + value;
    assert (" " + value)[1..] == value;
    FeedLine(r, line);
  }

  // ---- Round trip ----

  predicate SendsLines(items: seq<Sent>) {
    forall i :: 0 <= i < |items| && items[i].Frame? ==> OneLine(items[i].json)
  }

  /** What one item means to a client whose last id was `lastId`. */
  function Expected(item: Sent, lastId: string): seq<Message> {
    match item
    case Frame(sequence, kind, json) => [Message(KindName(kind), json, Print(sequence))]
    case Keepalive => []
    case Failure => [Message("error", FAILURE_DATA, lastId)]
  }

  function LastId(item: Sent, lastId: string): string {
    if item.Frame? then Print(item.sequence) else lastId
  }

  function AllExpected(items: seq<Sent>, lastId: string): seq<Message> {
    if items == [] then [] else Expected(items[0], lastId) + AllExpected(items[1..], LastId(items[0], lastId))
  }

  function FinalId(items: seq<Sent>, lastId: string): string {
    if items == [] then lastId else FinalId(items[1..], LastId(items[0], lastId))
  }

  predicate OfRun(kind: EventKind) {
    kind in {RunCreated, RunCancelRequested, RunFinished, AttemptStarted, EvidenceRecorded, FindingRecorded}
  }

  lemma RunKindNamesAreLines(kind: EventKind)
    requires OfRun(kind)
    ensures KindName(kind) != "" && OneLine(KindName(kind))
  {
  }

  lemma AttemptKindNamesAreLines(kind: EventKind)
    requires !OfRun(kind)
    ensures KindName(kind) != "" && OneLine(KindName(kind))
  {
  }

  lemma KindNamesAreLines(kind: EventKind)
    ensures KindName(kind) != "" && OneLine(KindName(kind))
  {
    if OfRun(kind) { RunKindNamesAreLines(kind); } else { AttemptKindNamesAreLines(kind); }
  }

  /** What a name stands for. */
  function KindOf(name: string): Option<EventKind> {
    if name == "run.created" then Some(RunCreated)
    else if name == "run.cancel_requested" then Some(RunCancelRequested)
    else if name == "run.finished" then Some(RunFinished)
    else if name == "attempt.started" then Some(AttemptStarted)
    else if name == "attempt.finished" then Some(AttemptFinished)
    else if name == "evidence.recorded" then Some(EvidenceRecorded)
    else if name == "finding.recorded" then Some(FindingRecorded)
    else if name == "attempt.observation" then Some(AttemptObservation)
    else if name == "attempt.decision" then Some(AttemptDecision)
    else if name == "attempt.action" then Some(AttemptAction)
    else if name == "attempt.recovering" then Some(AttemptRecovering)
    else if name == "attempt.control" then Some(AttemptControl)
    else None
  }

  /** A listener is called under the name of the kind, and no other kind has that name. */
  lemma NamesTellKindsApart(kind: EventKind)
    ensures KindOf(KindName(kind)) == Some(kind)
  {
  }

  lemma PrintIsLine(n: nat)
    ensures OneLine(Print(n)) && '\0' !in Print(n)
  {
    assert forall i :: 0 <= i < |Print(n)| ==> IsDigit(Print(n)[i]);
  }

  lemma FeedBlank(r: Reader)
    requires AtLineStart(r)
    ensures Feed(r, "\n") == Dispatch(r)
  {
    assert "" + "\n" == "\n";
    FeedLine(r, "");
  }

  /** Between items: nothing half read, and no field waiting for its blank line. */
  ghost predicate AtRest(r: Reader) {
    AtLineStart(r) && r.data == "" && r.kind == ""
  }

  predicate IsName(name: string) {
    name != "" && ':' !in name && OneLine(name)
  }

  lemma FeedTwoFields(r: Reader, name: string, value: string, name': string, value': string)
    requires AtLineStart(r) && IsName(name) && IsName(name') && OneLine(value) && OneLine(value')
    ensures Feed(r, Line(name, value) + Line(name', value') + "\n") == Dispatch(Field(Field(r, name, value), name', value'))
  {
    var a, b := Line(name, value), Line(name', value');
    assert a + b + "\n" == a + (b + "\n");
    FeedInTwo(r, a, b + "\n");
    FeedField(r, name, value);
    FeedInTwo(Field(r, name, value), b, "\n");
    FeedField(Field(r, name, value), name', value');
    FeedBlank(Field(Field(r, name, value), name', value'));
  }

  lemma FeedThreeFields(r: Reader, name: string, value: string, name': string, value': string, name'': string, value'': string)
    requires AtLineStart(r) && IsName(name) && IsName(name') && IsName(name'')
    requires OneLine(value) && OneLine(value') && OneLine(value'')
    ensures Feed(r, Line(name, value) + Line(name', value') + Line(name'', value'') + "\n") ==
            Dispatch(Field(Field(Field(r, name, value), name', value'), name'', value''))
  {
    var a, b, c := Line(name, value), Line(name', value'), Line(name'', value'');
    assert a + b + c + "\n" == a + (b + c + "\n");
    FeedInTwo(r, a, b + c + "\n");
    FeedField(r, name, value);
    FeedTwoFields(Field(r, name, value), name', value', name'', value'');
  }

  lemma WithoutLast(text: string)
    ensures (text + "\n")[..|text + "\n"| - 1] == text
  {
  }

  lemma FrameDispatches(r: Reader, id: string, name: string, json: string)
    requires AtRest(r) && '\0' !in id && name != ""
    ensures Dispatch(Field(Field(Field(r, "id", id), "event", name), "data", json)) ==
            r.(lastEventId := id, messages := r.messages + [Message(name, json, id)])
  {
    assert "" + json + "\n" == json + "\n";
    WithoutLast(json);
  }

  lemma FeedFrame(r: Reader, sequence: nat, kind: EventKind, json: string)
    requires AtRest(r) && OneLine(json)
    ensures Feed(r, Text(Frame(sequence, kind, json))) ==
            r.(lastEventId := Print(sequence), messages := r.messages + [Message(KindName(kind), json, Print(sequence))])
  {
    KindNamesAreLines(kind);
    PrintIsLine(sequence);
    var id, name := Print(sequence), KindName(kind);
    FeedThreeFields(r, "id", id, "event", name, "data", json);
    FrameDispatches(r, id, name, json);
  }

  lemma FeedFailure(r: Reader)
    requires AtRest(r)
    ensures Feed(r, Text(Failure)) == r.(messages := r.messages + [Message("error", FAILURE_DATA, r.lastEventId)])
  {
    FeedTwoFields(r, "event", "error", "data", FAILURE_DATA);
    var data := FAILURE_DATA;
    assert "" + data + "\n" == data + "\n" && (data + "\n")[..|data|] == data;
  }

  /** A line that starts with a colon is a comment. */
  lemma FeedComment(r: Reader, comment: string)
    requires AtRest(r) && OneLine(comment)
    ensures Feed(r, Line("", comment) + "\n") == r
  {
    FeedInTwo(r, Line("", comment), "\n");
    var line := "" + ": " + comment;
    assert line[0] == ':' && Line("", comment) == line + "\n";
    FeedLine(r, line);
    FeedBlank(r);
  }

  lemma FeedItem(r: Reader, item: Sent)
    requires AtRest(r) && (item.Frame? ==> OneLine(item.json))
    ensures Feed(r, Text(item)) == After(r, item)
  {
    match item
    case Frame(sequence, kind, json) => FeedFrame(r, sequence, kind, json);
    case Keepalive => FeedComment(r, "keepalive"); assert r.messages + [] == r.messages;
    case Failure => FeedFailure(r);
  }

  ghost function After(r: Reader, item: Sent): Reader {
    r.(lastEventId := LastId(item, r.lastEventId), messages := r.messages + Expected(item, r.lastEventId))
  }

  lemma FeedItemThen(r: Reader, item: Sent, rest: string)
    requires AtRest(r) && (item.Frame? ==> OneLine(item.json))
    ensures Feed(r, Text(item) + rest) == Feed(After(r, item), rest)
  {
    FeedInTwo(r, Text(item), rest);
    FeedItem(r, item);
  }

  ghost function AfterAll(r: Reader, items: seq<Sent>): Reader
    decreases |items|
  {
    if items == [] then r else AfterAll(After(r, items[0]), items[1..])
  }

  lemma {:induction false} FeedItems(r: Reader, items: seq<Sent>)
    requires AtRest(r) && SendsLines(items)
    ensures Feed(r, Texts(items)) == AfterAll(r, items)
    decreases |items|
  {
    if items != [] {
      FeedItemThen(r, items[0], Texts(items[1..]));
      FeedItems(After(r, items[0]), items[1..]);
    }
  }

  lemma {:induction false} AfterAllIs(r: Reader, items: seq<Sent>)
    ensures AfterAll(r, items) ==
      r.(lastEventId := FinalId(items, r.lastEventId), messages := r.messages + AllExpected(items, r.lastEventId))
    decreases |items|
  {
    if items == [] {
      assert r.messages + [] == r.messages;
    } else {
      var item, rest := items[0], items[1..];
      AfterAllIs(After(r, item), rest);
      var more := AllExpected(rest, LastId(item, r.lastEventId));
      assert r.messages + Expected(item, r.lastEventId) + more == r.messages + (Expected(item, r.lastEventId) + more);
    }
  }

  // ---- A text that stops anywhere ----

  /** How many items have wholly arrived in the first `length` characters. */
  function Arrived(items: seq<Sent>, length: nat): (n: nat)
    ensures n <= |items|
    ensures length >= |Texts(items)| ==> n == |items|
  {
    if items == [] || length < |Text(items[0])| then 0 else 1 + Arrived(items[1..], length - |Text(items[0])|)
  }

  lemma EndLineGrows(r: Reader, line: string)
    ensures r.messages <= EndLine(r, line).messages
  {
  }

  lemma {:induction false} FeedGrows(r: Reader, text: string)
    ensures r.messages <= Feed(r, text).messages
    decreases |text|
  {
    if text != "" {
      EndLineGrows(r.(line := "", afterReturn := text[0] == '\r'), r.line);
      FeedGrows(Step(r, text[0]), text[1..]);
    }
  }

  /** Whatever has arrived, the messages are among those that will be there when the rest has. */
  lemma FeedPrefixGrows(r: Reader, text: string, whole: string)
    requires text <= whole
    ensures Feed(r, text).messages <= Feed(r, whole).messages
  {
    assert whole == text + whole[|text|..];
    FeedInTwo(r, text, whole[|text|..]);
    FeedGrows(Feed(r, text), whole[|text|..]);
  }

  /** Only the blank line that ends an item gives a message. */
  lemma FeedAllButLast(r: Reader, item: Sent)
    requires AtRest(r) && (item.Frame? ==> OneLine(item.json))
    ensures Feed(r, Text(item)[..|Text(item)| - 1]).messages == r.messages
  {
    match item
    case Frame(sequence, kind, json) => FeedUnendedFrame(r, sequence, kind, json);
    case Keepalive => FeedUnendedComment(r, "keepalive");
    case Failure => FeedUnendedFailure(r);
  }

  lemma FeedUnendedFrame(r: Reader, sequence: nat, kind: EventKind, json: string)
    requires AtRest(r) && OneLine(json)
    ensures var text := Text(Frame(sequence, kind, json)); Feed(r, text[..|text| - 1]).messages == r.messages
  {
    KindNamesAreLines(kind);
    PrintIsLine(sequence);
    var name, a, b, c := KindName(kind), Line("id", Print(sequence)), Line("event", KindName(kind)), Line("data", json);
    WithoutLast(a + b + c);
    assert a + b + c == a + (b + c);
    FeedInTwo(r, a, b + c);
    FeedField(r, "id", Print(sequence));
    FeedTwoFieldsOnly(Field(r, "id", Print(sequence)), "event", name, "data", json);
  }

  lemma FeedUnendedComment(r: Reader, comment: string)
    requires AtRest(r) && OneLine(comment)
    ensures var text := Line("", comment) + "\n"; Feed(r, text[..|text| - 1]).messages == r.messages
  {
    WithoutLast(Line("", comment));
    var line := "" + ": " + comment;
    assert line[0] == ':' && Line("", comment) == line + "\n";
    FeedLine(r, line);
  }

  lemma FeedUnendedFailure(r: Reader)
    requires AtRest(r)
    ensures Feed(r, Text(Failure)[..|Text(Failure)| - 1]).messages == r.messages
  {
    var data := FAILURE_DATA;
    WithoutLast(Line("event", "error") + Line("data", data));
    FeedTwoFieldsOnly(r, "event", "error", "data", data);
  }

  lemma FeedTwoFieldsOnly(r: Reader, name: string, value: string, name': string, value': string)
    requires AtLineStart(r) && IsName(name) && IsName(name') && OneLine(value) && OneLine(value')
    ensures Feed(r, Line(name, value) + Line(name', value')).messages == r.messages
  {
    FeedInTwo(r, Line(name, value), Line(name', value'));
    FeedField(r, name, value);
    FeedField(Field(r, name, value), name', value');
  }

  lemma FeedPart(r: Reader, item: Sent, text: string)
    requires AtRest(r) && (item.Frame? ==> OneLine(item.json)) && text <= Text(item) && |text| < |Text(item)|
    ensures Feed(r, text).messages == r.messages
  {
    FeedGrows(r, text);
    FeedPrefixGrows(r, text, Text(item)[..|Text(item)| - 1]);
    FeedAllButLast(r, item);
  }

  lemma ExpectedOfArrived(items: seq<Sent>, length: nat, lastId: string)
    requires items != [] && length >= |Text(items[0])|
    ensures var n := Arrived(items[1..], length - |Text(items[0])|);
            AllExpected(items[..Arrived(items, length)], lastId) ==
            Expected(items[0], lastId) + AllExpected(items[1..][..n], LastId(items[0], lastId))
  {
    var n := Arrived(items[1..], length - |Text(items[0])|);
    assert items[..n + 1][0] == items[0] && items[..n + 1][1..] == items[1..][..n];
  }

  lemma PrefixInTwo(text: string, a: string, b: string)
    requires text <= a + b
    ensures if |text| < |a| then text <= a else text == a + text[|a|..] && text[|a|..] <= b
  {
  }

  lemma Assoc<T>(a: seq<T>, b: seq<T>, c: seq<T>)
    ensures a + b + c == a + (b + c)
  {
  }

  /** A text that stops anywhere has given exactly the messages of the items that wholly arrived. */
  lemma {:induction false} FeedPrefix(r: Reader, items: seq<Sent>, text: string)
    requires AtRest(r) && SendsLines(items) && text <= Texts(items)
    ensures Feed(r, text).messages == r.messages + AllExpected(items[..Arrived(items, |text|)], r.lastEventId)
    decreases |items|
  {
    if items == [] {
    } else if |text| < |Text(items[0])| {
      PrefixInTwo(text, Text(items[0]), Texts(items[1..]));
      FeedPart(r, items[0], text);
      assert r.messages + [] == r.messages;
    } else {
      var rest := text[|Text(items[0])|..];
      PrefixInTwo(text, Text(items[0]), Texts(items[1..]));
      FeedItemThen(r, items[0], rest);
      FeedPrefix(After(r, items[0]), items[1..], rest);
      ExpectedOfArrived(items, |text|, r.lastEventId);
      Assoc(r.messages, Expected(items[0], r.lastEventId),
            AllExpected(items[1..][..Arrived(items[1..], |rest|)], LastId(items[0], r.lastEventId)));
    }
  }

  lemma {:induction false} ExpectedOfPrefix(items: seq<Sent>, n: nat, lastId: string)
    requires n <= |items|
    ensures AllExpected(items[..n], lastId) <= AllExpected(items, lastId)
    decreases n
  {
    if n > 0 {
      assert items[..n][0] == items[0] && items[..n][1..] == items[1..][..n - 1];
      ExpectedOfPrefix(items[1..], n - 1, LastId(items[0], lastId));
    }
  }

  /** However the sent text is cut into chunks, and wherever it stops, the client has read exactly the messages of the
      items that wholly arrived, each with its own id: all of them when nothing is missing. */
  lemma RoundTrip(items: seq<Sent>, chunks: seq<string>)
    requires SendsLines(items) && Concat(chunks) <= Texts(items)
    ensures FeedAll(START, chunks).messages == AllExpected(items[..Arrived(items, |Concat(chunks)|)], "")
    ensures FeedAll(START, chunks).messages <= AllExpected(items, "")
    ensures Concat(chunks) == Texts(items) ==>
              FeedAll(START, chunks).messages == AllExpected(items, "") && AtRest(FeedAll(START, chunks))
  {
    ChunksDoNotMatter(START, chunks);
    FeedPrefix(START, items, Concat(chunks));
    ExpectedOfPrefix(items, Arrived(items, |Concat(chunks)|), "");
    if Concat(chunks) == Texts(items) {
      FeedItems(START, items);
      AfterAllIs(START, items);
    }
  }

  function FramesOnly(items: seq<Sent>): (r: seq<Sent>) {
    if items == [] then []
    else (if items[0].Frame? then [items[0]] else []) + FramesOnly(items[1..])
  }

  /** Without a failure, the messages are the frames one for one; comments leave no trace. */
  lemma {:induction false} MessagesAreFrames(items: seq<Sent>, lastId: string, i: nat)
    requires Failure !in items && i < |AllExpected(items, lastId)|
    ensures |AllExpected(items, lastId)| == |FramesOnly(items)|
    ensures var f := FramesOnly(items)[i]; var m := AllExpected(items, lastId)[i];
            f.Frame? && m == Message(KindName(f.kind), f.json, Print(f.sequence)) &&
            forall n: nat :: m.lastEventId == Print(n) <==> n == f.sequence
    decreases |items|
  {
    var head := Expected(items[0], lastId);
    var rest := AllExpected(items[1..], LastId(items[0], lastId));
    if |rest| > 0 {
      MessagesAreFrames(items[1..], LastId(items[0], lastId), if i < |head| then 0 else i - |head|);
    } else {
      NoMessagesNoFrames(items[1..], LastId(items[0], lastId));
    }
    var f := FramesOnly(items)[i];
    assert f.Frame?;
    forall n: nat ensures Print(f.sequence) == Print(n) <==> n == f.sequence { PrintingIsInjective(f.sequence, n); }
  }

  lemma {:induction false} NoMessagesNoFrames(items: seq<Sent>, lastId: string)
    requires Failure !in items && AllExpected(items, lastId) == []
    ensures FramesOnly(items) == []
    decreases |items|
  {
    if items != [] { NoMessagesNoFrames(items[1..], LastId(items[0], lastId)); }
  }
}
