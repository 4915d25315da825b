/**
 * The event stream reader (api.js, `openDashboardSyncStream` and `dispatchSyncEvent`), and the
 * frames the server writes for it (dashboard-sync-service.cjs, `writeEvent`).
 *
 * Input is decoded text, in chunks cut anywhere. `parse` stands for `JSON.parse`.
 */
module SseStream {
  import opened Options
  import opened Text

  /** Length of a match of `\r?\n` at `p`, 0 for none. */
  function NewlineAt(t: string, p: nat): (len: nat)
    ensures len > 0 ==> p + len <= |t|
  {
    if p < |t| && t[p] == '\n' then 1
    else if p + 1 < |t| && t[p] == '\r' && t[p + 1] == '\n' then 2
    else 0
  }

  /** Length of a match of `\r?\n\r?\n` at `p`, 0 for none. */
  function BoundaryAt(t: string, p: nat): (len: nat)
    ensures len > 0 ==> 2 <= len <= 4 && p + len <= |t|
  {
    var first := NewlineAt(t, p);
    var second := NewlineAt(t, p + first);
    if first == 0 || second == 0 then 0 else first + second
  }

  function FirstBoundary(t: string, p: nat): (q: Option<nat>)
    requires p <= |t|
    ensures q.Some? ==> p <= q.value && BoundaryAt(t, q.value) > 0
    ensures q.Some? ==> forall i :: p <= i < q.value ==> BoundaryAt(t, i) == 0
    ensures q.None? ==> forall i :: p <= i ==> BoundaryAt(t, i) == 0
    decreases |t| - p
  {
    if BoundaryAt(t, p) > 0 then Some(p)
    else if p == |t| then None
    else FirstBoundary(t, p + 1)
  }

  datatype Parts = Parts(blocks: seq<string>, rest: string)

  /** `split(/\r?\n\r?\n/)`, with the last piece set apart. */
  function Split(t: string): Parts
    decreases |t|
  {
    match FirstBoundary(t, 0)
    case None => Parts([], t)
    case Some(q) =>
      var tail := Split(t[q + BoundaryAt(t, q)..]);
      Parts([t[..q]] + tail.blocks, tail.rest)
  }

  function FirstNewline(t: string, p: nat): (q: Option<nat>)
    requires p <= |t|
    ensures q.Some? ==> p <= q.value && NewlineAt(t, q.value) > 0
    ensures q.Some? ==> forall i :: p <= i < q.value ==> NewlineAt(t, i) == 0
    ensures q.None? ==> forall i :: p <= i ==> NewlineAt(t, i) == 0
    decreases |t| - p
  {
    if NewlineAt(t, p) > 0 then Some(p)
    else if p == |t| then None
    else FirstNewline(t, p + 1)
  }

  /** `split(/\r?\n/)` */
  function Lines(t: string): seq<string>
    decreases |t|
  {
    match FirstNewline(t, 0)
    case None => [t]
    case Some(q) => [t[..q]] + Lines(t[q + NewlineAt(t, q)..])
  }

  datatype Data<+J> = Parsed(value: J) | Raw(text: string)

  datatype Event<+J> = Event(name: string, data: Data<J>)

  predicate StartsWith(s: string, prefix: string) { prefix <= s }

  /** The name of the last `event:` line, `message` without one. */
  function NameOf(lines: seq<string>): string {
    if lines == [] then "message"
    else
      var last := lines[|lines| - 1];
      if StartsWith(last, "event:") then Trim(last[6..]) else NameOf(lines[..|lines| - 1])
  }

  function DataLines(lines: seq<string>): seq<string> {
    if lines == [] then []
    else
      var last := lines[|lines| - 1];
      DataLines(lines[..|lines| - 1]) +
      if StartsWith(last, "data:") then [TrimStart(last[5..])] else []
  }

  function EventOf<J>(parse: string -> Option<J>, block: string): Option<Event<J>> {
    var data := DataLines(Lines(block));
    if data == [] then None
    else
      var text := Join(data, "\n");
      Some(Event(NameOf(Lines(block)), if parse(text).Some? then Parsed(parse(text).value) else Raw(text)))
  }

  // ----- line endings and lines -----

  /** A line of text: no LF in it, and no CR at its end that would join one. */
  predicate IsLine(s: string) { '\n' !in s && (s != "" ==> s[|s| - 1] != '\r') }

  function NewlineOf(crlf: bool): string { if crlf then "\r\n" else "\n" }

  /** Lines with a line ending between any two, each of either kind. */
  function Ended(lines: seq<string>, crlf: seq<bool>): string
    requires |lines| == |crlf| + 1
  {
    if |lines| == 1 then lines[0] else lines[0] + NewlineOf(crlf[0]) + Ended(lines[1..], crlf[1..])
  }

  lemma LineStops(line: string, crlf: bool, rest: string)
    requires IsLine(line)
    ensures var t := line + NewlineOf(crlf) + rest;
      FirstNewline(t, 0) == Some(|line|) && NewlineAt(t, |line|) == |NewlineOf(crlf)|
  {
    var t := line + NewlineOf(crlf) + rest;
    assert forall i :: 0 <= i < |line| ==> t[i] == line[i] && line[i] in line;
    assert t[|line|] == NewlineOf(crlf)[0];
    assert crlf ==> t[|line| + 1] == NewlineOf(crlf)[1];
    assert line != "" ==> t[|line| - 1] == line[|line| - 1];
    FirstNewlineIs(t, |line|);
  }

  lemma LoneLine(line: string)
    requires IsLine(line)
    ensures Lines(line) == [line]
  {
    assert forall i :: 0 <= i < |line| ==> line[i] in line;
    assert FirstNewline(line, 0) == None;
  }

  lemma LinesStep(line: string, crlf: bool, rest: string)
    requires IsLine(line)
    ensures Lines(line + NewlineOf(crlf) + rest) == [line] + Lines(rest)
  {
    hide IsLine, NewlineOf, NewlineAt, FirstNewline;
    var t := line + NewlineOf(crlf) + rest;
    LineStops(line, crlf, rest);
    assert t[..|line|] == line && t[|line| + |NewlineOf(crlf)|..] == rest;
  }

  /** Lines are read back whichever ending each has. */
  lemma {:induction false} LinesReadBack(lines: seq<string>, crlf: seq<bool>)
    requires |lines| == |crlf| + 1 && forall line <- lines :: IsLine(line)
    ensures Lines(Ended(lines, crlf)) == lines
  {
    hide IsLine, NewlineOf, Lines;
    assert lines[0] in lines;
    if |lines| == 1 {
      LoneLine(lines[0]);
    } else {
      assert forall l <- lines[1..] :: l in lines;
      LinesReadBack(lines[1..], crlf[1..]);
      LinesStep(lines[0], crlf[0], Ended(lines[1..], crlf[1..]));
      assert [lines[0]] + lines[1..] == lines;
    }
  }

  lemma OneMoreLine(lines: seq<string>, line: string)
    ensures NameOf(lines + [line]) == if StartsWith(line, "event:") then Trim(line[6..]) else NameOf(lines)
    ensures DataLines(lines + [line]) ==
        DataLines(lines) + if StartsWith(line, "data:") then [TrimStart(line[5..])] else []
  {
    assert (lines + [line])[..|lines|] == lines;
  }

  lemma NoLines()
    ensures NameOf([]) == "message" && DataLines([]) == []
  {
  }

  lemma EventLine(n: string)
    ensures StartsWith("event:" + n, "event:") && !StartsWith("event:" + n, "data:") && ("event:" + n)[6..] == n
  {
    assert ("event:" + n)[0] == 'e' && "data:"[0] == 'd';
  }

  lemma DataLine(a: string)
    ensures StartsWith("data:" + a, "data:") && !StartsWith("data:" + a, "event:") && ("data:" + a)[5..] == a
  {
    assert ("data:" + a)[0] == 'd' && "event:"[0] == 'e';
  }

  lemma FourLinesSay(em: string, da: string, en: string, db: string)
    requires StartsWith(em, "event:") && !StartsWith(em, "data:")
    requires StartsWith(da, "data:") && !StartsWith(da, "event:")
    requires StartsWith(en, "event:") && !StartsWith(en, "data:")
    requires StartsWith(db, "data:") && !StartsWith(db, "event:")
    ensures NameOf([em, da, en, db]) == Trim(en[6..])
    ensures DataLines([em, da, en, db]) == [TrimStart(da[5..]), TrimStart(db[5..])]
  {
    hide Trim, TrimStart, NameOf, DataLines;
    NoLines();
    OneMoreLine([], em);
    OneMoreLine([em], da);
    OneMoreLine([em, da], en);
    OneMoreLine([em, da, en], db);
    assert [] + [em] == [em] && [em] + [da] == [em, da] && [em, da] + [en] == [em, da, en];
    assert [em, da, en] + [db] == [em, da, en, db];
  }

  lemma JoinTwo(a: string, b: string, mark: string)
    ensures Join([a, b], mark) == a + mark + b
  {
    assert [a, b][1..] == [b];
  }

  /** Of several names the last counts, and data lines are joined by LF, whatever the line endings. */
  lemma BlockReads<J>(parse: string -> Option<J>, m: string, a: string, n: string, b: string, crlf: seq<bool>)
    requires |crlf| == 3 && IsLine(m) && IsLine(a) && IsLine(n) && IsLine(b)
    ensures var block := Ended(["event:" + m, "data:" + a, "event:" + n, "data:" + b], crlf);
      var text := TrimStart(a) + "\n" + TrimStart(b);
      EventOf(parse, block) ==
        Some(Event(Trim(n), if parse(text).Some? then Parsed(parse(text).value) else Raw(text)))
  {
    hide Trim, TrimStart, Lines, IsLine, NameOf, DataLines, StartsWith, Ended, Join;
    PrefixedIsLine("event:", m);
    PrefixedIsLine("data:", a);
    PrefixedIsLine("event:", n);
    PrefixedIsLine("data:", b);
    LinesReadBack(["event:" + m, "data:" + a, "event:" + n, "data:" + b], crlf);
    EventLine(m);
    DataLine(a);
    EventLine(n);
    DataLine(b);
    FourLinesSay("event:" + m, "data:" + a, "event:" + n, "data:" + b);
    JoinTwo(TrimStart(a), TrimStart(b), "\n");
  }

  lemma PrefixedIsLine(prefix: string, s: string)
    requires prefix in ["event:", "data:"] && IsLine(s)
    ensures IsLine(prefix + s)
  {
  }

  /** Without a name it is `message`, and without data no event. */
  lemma {:induction false} UnnamedIsMessage(lines: seq<string>)
    requires forall line <- lines :: !StartsWith(line, "event:")
    ensures NameOf(lines) == "message"
  {
    if lines != [] {
      assert lines[|lines| - 1] in lines && forall line <- lines[..|lines| - 1] :: line in lines;
      UnnamedIsMessage(lines[..|lines| - 1]);
    }
  }

  function EventsOf<J>(parse: string -> Option<J>, blocks: seq<string>): seq<Event<J>> {
    if blocks == [] then []
    else
      EventsOf(parse, blocks[..|blocks| - 1]) +
      match EventOf(parse, blocks[|blocks| - 1]) case Some(e) => [e] case None => []
  }

  function Concat(chunks: seq<string>): string {
    if chunks == [] then "" else Concat(chunks[..|chunks| - 1]) + chunks[|chunks| - 1]
  }

  // ----- chunks do not matter -----

  lemma FirstBoundaryIs(t: string, q: nat)
    requires BoundaryAt(t, q) > 0 && forall i: nat :: i < q ==> BoundaryAt(t, i) == 0
    ensures FirstBoundary(t, 0) == Some(q)
  {
    var first := FirstBoundary(t, 0);
    assert first.Some?;
    assert BoundaryAt(t, first.value) > 0;
  }

  lemma FirstNewlineIs(t: string, q: nat)
    requires NewlineAt(t, q) > 0 && forall i: nat :: i < q ==> NewlineAt(t, i) == 0
    ensures FirstNewline(t, 0) == Some(q)
  {
    var first := FirstNewline(t, 0);
    assert first.Some?;
    assert NewlineAt(t, first.value) > 0;
  }

  /** One step of the split, seen from the text's first boundary. */
  lemma SplitAt(head: string, boundary: string, tail: string)
    requires FirstBoundary(head + boundary + tail, 0) == Some(|head|)
    requires BoundaryAt(head + boundary + tail, |head|) == |boundary|
    ensures Split(head + boundary + tail) == Parts([head] + Split(tail).blocks, Split(tail).rest)
  {
    var t := head + boundary + tail;
    assert t[..|head|] == head && t[|head| + |boundary|..] == tail;
  }

  /** A boundary found in a prefix is the first one of any longer text. */
  lemma BoundarySurvives(a: string, b: string)
    requires FirstBoundary(a, 0).Some?
    ensures FirstBoundary(a + b, 0) == FirstBoundary(a, 0)
    ensures BoundaryAt(a + b, FirstBoundary(a, 0).value) == BoundaryAt(a, FirstBoundary(a, 0).value)
  {
    var t, q := a + b, FirstBoundary(a, 0).value;
    assert forall i | 0 <= i < |a| :: t[i] == a[i];
    forall p | 0 <= p < q ensures BoundaryAt(t, p) == 0 {
      assert BoundaryAt(a, p) == 0;
    }
    FirstBoundaryIs(t, q);
  }

  function Resume(parts: Parts, b: string): Parts {
    var second := Split(parts.rest + b);
    Parts(parts.blocks + second.blocks, second.rest)
  }

  lemma ResumeAfterBlock(head: string, boundary: string, tail: string, b: string)
    requires var a := head + boundary + tail;
      FirstBoundary(a, 0) == Some(|head|) && BoundaryAt(a, |head|) == |boundary|
    requires Split(tail + b) == Resume(Split(tail), b)
    ensures Split(head + boundary + tail + b) == Resume(Split(head + boundary + tail), b)
  {
    hide Split, BoundaryAt, FirstBoundary;
    var a := head + boundary + tail;
    BoundarySurvives(a, b);
    assert a + b == head + boundary + (tail + b);
    SplitAt(head, boundary, tail);
    SplitAt(head, boundary, tail + b);
    var first := Split(tail);
    assert [head] + (first.blocks + Split(first.rest + b).blocks) ==
        [head] + first.blocks + Split(first.rest + b).blocks;
  }

  lemma BoundaryFits(t: string, q: nat)
    ensures q <= |t| ==> q + BoundaryAt(t, q) <= |t|
  {
  }

  lemma NoBoundaryYet(a: string, b: string)
    requires FirstBoundary(a, 0) == None
    ensures Split(a + b) == Resume(Split(a), b)
  {
    hide BoundaryAt, FirstBoundary;
    assert Split(a) == Parts([], a);
  }

  /** Splitting a text, and splitting its unterminated rest again with what arrives next, is
      splitting the whole. */
  lemma {:induction false} SplitResumes(a: string, b: string)
    ensures Split(a + b) == Resume(Split(a), b)
    decreases |a|
  {
    match FirstBoundary(a, 0)
    case None => NoBoundaryYet(a, b);
    case Some(q) =>
      hide Split, Resume, BoundaryAt;
      var len := BoundaryAt(a, q);
      BoundaryFits(a, q);
      var head, boundary, tail := a[..q], a[q..q + len], a[q + len..];
      SplitResumes(tail, b);
      assert a == head + boundary + tail && |head| == q && |boundary| == len;
      ResumeAfterBlock(head, boundary, tail, b);
  }

  /** The unterminated rest holds no boundary: nothing of it is ever dispatched. */
  lemma {:induction false} RestIsUnterminated(t: string)
    ensures forall p: nat :: BoundaryAt(Split(t).rest, p) == 0
    decreases |t|
  {
    match FirstBoundary(t, 0)
    case None =>
    case Some(q) => RestIsUnterminated(t[q + BoundaryAt(t, q)..]);
  }

  lemma {:induction false} EventsOfConcat<J>(parse: string -> Option<J>, a: seq<string>, b: seq<string>)
    ensures EventsOf(parse, a + b) == EventsOf(parse, a) + EventsOf(parse, b)
  {
    if b == [] {
      assert a + b == a;
    } else {
      assert (a + b)[..|a + b| - 1] == a + b[..|b| - 1];
      EventsOfConcat(parse, a, b[..|b| - 1]);
    }
  }

  /** What the reader has dispatched and kept after `chunks`, chunk by chunk. */
  function Read<J>(parse: string -> Option<J>, chunks: seq<string>): (seq<Event<J>>, string) {
    if chunks == [] then ([], "")
    else
      var (events, buffer) := Read(parse, chunks[..|chunks| - 1]);
      var parts := Split(buffer + chunks[|chunks| - 1]);
      (events + EventsOf(parse, parts.blocks), parts.rest)
  }

  /** However the text is cut, the events are those of the whole text parsed at once. */
  lemma {:induction false} ChunkedIsWhole<J>(parse: string -> Option<J>, chunks: seq<string>)
    ensures var whole := Split(Concat(chunks));
      Read(parse, chunks) == (EventsOf(parse, whole.blocks), whole.rest)
  {
    if chunks == [] {
      assert Split("") == Parts([], "");
    } else {
      var before, last := chunks[..|chunks| - 1], chunks[|chunks| - 1];
      ChunkedIsWhole(parse, before);
      SplitResumes(Concat(before), last);
      EventsOfConcat(parse, Split(Concat(before)).blocks, Split(Split(Concat(before)).rest + last).blocks);
    }
  }

  // ----- the server's frames come back -----

  datatype Frame = Frame(name: string, payload: string)

  function Block(f: Frame): string { ("event: " + f.name) + "\n" + ("data: " + f.payload) }

  function Print(f: Frame): string { Block(f) + "\n\n" }

  function PrintAll(frames: seq<Frame>): string {
    if frames == [] then "" else Print(frames[0]) + PrintAll(frames[1..])
  }

  predicate OneLine(s: string) { '\n' !in s && '\r' !in s }

  /** What `JSON.stringify` and the fixed event names guarantee. */
  predicate IsFrame<J>(parse: string -> Option<J>, f: Frame) {
    && OneLine(f.name) && Trimmed(f.name)
    && OneLine(f.payload) && TrimStart(f.payload) == f.payload && parse(f.payload).Some?
  }

  function EventOfFrame<J>(parse: string -> Option<J>, f: Frame): Event<J>
    requires IsFrame(parse, f)
  {
    Event(f.name, Parsed(parse(f.payload).value))
  }

  function EventsOfFrames<J>(parse: string -> Option<J>, frames: seq<Frame>): (events: seq<Event<J>>)
    requires forall f <- frames :: IsFrame(parse, f)
    ensures |events| == |frames| && forall i :: 0 <= i < |frames| ==> events[i] == EventOfFrame(parse, frames[i])
  {
    if frames == [] then [] else [EventOfFrame(parse, frames[0])] + EventsOfFrames(parse, frames[1..])
  }

  lemma NoNewlineInside(s: string, t: string, p: nat)
    requires OneLine(s) && s <= t && p < |s|
    ensures NewlineAt(t, p) == 0
  {
    assert t[p] == s[p] && s[p] in s;
  }

  lemma LinesOfFrame(f: Frame)
    requires OneLine(f.name) && OneLine(f.payload)
    ensures Lines(Block(f)) == ["event: " + f.name, "data: " + f.payload]
  {
    var head, tail := "event: " + f.name, "data: " + f.payload;
    var t := head + "\n" + tail;
    forall p | 0 <= p < |head| ensures NewlineAt(t, p) == 0 { NoNewlineInside(head, t, p); }
    assert t[|head|] == '\n' && NewlineAt(t, |head|) == 1;
    FirstNewlineIs(t, |head|);
    assert t[..|head|] == head && t[|head| + NewlineAt(t, |head|)..] == tail;
    forall p: nat ensures NewlineAt(tail, p) == 0 {
      if p < |tail| { NoNewlineInside(tail, tail, p); }
    }
    assert FirstNewline(tail, 0).None? && Lines(tail) == [tail];
  }

  lemma SplitOfFrame(f: Frame, rest: string)
    requires OneLine(f.name) && OneLine(f.payload)
    ensures Split(Print(f) + rest) ==
      Parts([Block(f)] + Split(rest).blocks, Split(rest).rest)
  {
    var head, tail := "event: " + f.name, "data: " + f.payload;
    var block := head + "\n" + tail;
    var t := Print(f) + rest;
    assert t == block + ("\n\n" + rest);
    assert t[|head| + 1..] == tail + ("\n\n" + rest);
    forall p | 0 <= p < |block| ensures BoundaryAt(t, p) == 0 {
      if p < |head| {
        assert t == head + t[|head|..];
        NoNewlineInside(head, t, p);
      } else if p == |head| {
        assert t[p + 1] == 'd';
      } else {
        assert t[p] == tail[p - |head| - 1];
        assert tail[p - |head| - 1] in tail;
      }
    }
    assert t[|block|] == '\n' && t[|block| + 1] == '\n' && BoundaryAt(t, |block|) == 2;
    FirstBoundaryIs(t, |block|);
    assert t == block + "\n\n" + rest;
    SplitAt(block, "\n\n", rest);
  }

  lemma {:induction false} PrintedFramesComeBack<J>(parse: string -> Option<J>, frames: seq<Frame>)
    requires forall f <- frames :: IsFrame(parse, f)
    ensures var parts := Split(PrintAll(frames));
      parts.rest == "" && EventsOf(parse, parts.blocks) == EventsOfFrames(parse, frames)
  {
    if frames == [] {
      assert Split("") == Parts([], "");
    } else {
      hide Split, EventOf, Print;
      var f, rest := frames[0], frames[1..];
      assert IsFrame(parse, f);
      PrintedFramesComeBack(parse, rest);
      SplitOfFrame(f, PrintAll(rest));
      var block := Block(f);
      EventOfPrinted(parse, f);
      EventsOfConcat(parse, [block], Split(PrintAll(rest)).blocks);
      var one: seq<string> := [block];
      assert one[..0] == [];
      assert EventsOf(parse, [block]) == [EventOfFrame(parse, f)];
    }
  }

  lemma EventOfPrinted<J>(parse: string -> Option<J>, f: Frame)
    requires IsFrame(parse, f)
    ensures EventOf(parse, Block(f)) == Some(EventOfFrame(parse, f))
  {
    LinesOfFrame(f);
    var first, second := "event: " + f.name, "data: " + f.payload;
    var lines := [first, second];
    assert lines[..1] == [first] && lines[..1][..0] == [];
    assert second[5..] == " " + f.payload && (" " + f.payload)[1..] == f.payload;
    assert TrimStart(second[5..]) == f.payload;
    assert second[0] == 'd' && first[0] == 'e';
    assert !StartsWith(second, "event:") && !StartsWith(first, "data:") by {
      assert "event:"[0] == 'e' && "data:"[0] == 'd';
    }
    assert DataLines([first]) == [] && DataLines(lines) == [f.payload];
    assert first[6..] == " " + f.name && (" " + f.name)[1..] == f.name;
    TrimTrims(f.name);
    assert Trim(first[6..]) == Trim(f.name) == f.name by {
      assert TrimStart(" " + f.name) == TrimStart(f.name);
    }
    assert NameOf([first]) == f.name && NameOf(lines) == f.name;
  }

  /** End to end: whatever the server writes, cut up anywhere on the way, is dispatched frame by
      frame, and nothing is left over. */
  lemma FramesSurviveChunking<J>(parse: string -> Option<J>, frames: seq<Frame>, chunks: seq<string>)
    requires (forall f <- frames :: IsFrame(parse, f)) && Concat(chunks) == PrintAll(frames)
    ensures Read(parse, chunks) == (EventsOfFrames(parse, frames), "")
  {
    ChunkedIsWhole(parse, chunks);
    PrintedFramesComeBack(parse, frames);
  }

  // ----- the reader of the source -----

  class Reader<J(0)> {
    const parse: string -> Option<J>
    var buffer: string
    var dispatched: seq<Event<J>>    // the calls of `onEvent`, in order

    constructor (parse: string -> Option<J>)
      ensures this.parse == parse && buffer == "" && dispatched == []
    {
      this.parse := parse;
      buffer, dispatched := "", [];
    }

    method DispatchSyncEvent(block: string)
      modifies this`dispatched
      ensures dispatched == old(dispatched) + match EventOf(parse, block) case Some(e) => [e] case None => []
    {
      var lines := Lines(block);
      var eventName, dataLines := "message", [];
      for i := 0 to |lines|
        invariant eventName == NameOf(lines[..i]) && dataLines == DataLines(lines[..i])
        invariant dispatched == old(dispatched)
      {
        var line := lines[i];
        assert lines[..i + 1][..i] == lines[..i];
        if StartsWith(line, "event:") {
          assert "event:"[0] == 'e' && "data:"[0] == 'd';
          eventName := Trim(line[6..]);
        } else if StartsWith(line, "data:") {
          dataLines := dataLines + [TrimStart(line[5..])];
        }
      }
      assert lines[..|lines|] == lines;
      if dataLines == [] { return; }
      var text := Join(dataLines, "\n");
      var value := parse(text);
      dispatched := dispatched + [Event(eventName, if value.Some? then Parsed(value.value) else Raw(text))];
    }

    /** One turn of the read loop. */
    method Push(chunk: string)
      modifies this
      ensures var parts := Split(old(buffer) + chunk);
        buffer == parts.rest && dispatched == old(dispatched) + EventsOf(parse, parts.blocks)
    {
      hide Split, EventOf;
      var parts := Split(buffer + chunk);
      buffer := parts.rest;
      var blocks := parts.blocks;
      for i := 0 to |blocks|
        invariant dispatched == old(dispatched) + EventsOf(parse, blocks[..i]) && buffer == parts.rest
      {
        assert blocks[..i + 1][..i] == blocks[..i];
        DispatchSyncEvent(blocks[i]);
      }
      assert blocks[..|blocks|] == blocks;
    }

    /** The whole stream, from a fresh reader. */
    method ReadAll(chunks: seq<string>)
      requires buffer == "" && dispatched == []
      modifies this
      ensures var whole := Split(Concat(chunks));
        buffer == whole.rest && dispatched == EventsOf(parse, whole.blocks)
    {
      for i := 0 to |chunks|
        invariant (dispatched, buffer) == Read(parse, chunks[..i])
      {
        assert chunks[..i + 1][..i] == chunks[..i];
        Push(chunks[i]);
      }
      assert chunks[..|chunks|] == chunks;
      ChunkedIsWhole(parse, chunks);
    }
  }
}
