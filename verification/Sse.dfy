/** chatClient.ts: the chunked event-stream readers of streamChat and resumeStream. */
module Sse {
  import opened Prelude
  import Text

  const END_OF_INPUT := "Unexpected end of JSON input"

  /** A decoder in streaming mode: it may hold back bytes of an unfinished character. */
  datatype Decoder<!S, !B> = Decoder(start: S, step: (S, B) -> (S, string))

  datatype Usage = Usage(prompt: nat, completion: nat, total: nat)

  /** What the JSON of one data line turns out to be; "" stands for a field that is absent or empty. */
  datatype Payload =
    | Malformed(message: string)
    | ErrorPayload(message: string)
    | Chunk(content: string, finish: string, usage: Option<Usage>)

  datatype Delta = Delta(content: string, finish: string, usage: Option<Usage>, traceId: string)

  /** streamChat is strict: it throws where resumeStream skips. */
  datatype Mode = Mode(strict: bool, traceId: string, parse: string -> Payload)

  datatype End = Done | Threw(message: string)

  datatype Out = Out(deltas: seq<Delta>, emitted: bool, end: Option<End>)

  const NOTHING := Out([], false, None)

  // ---------------------------------------------------------------------------------------------
  // Lines
  // ---------------------------------------------------------------------------------------------

  /** The lines of a text that are complete, that is, up to its last newline. */
  function Lines(t: string): seq<string> {
    if t == "" then []
    else if t[|t| - 1] == '\n' then Lines(t[..|t| - 1]) + [Tail(t[..|t| - 1])]
    else Lines(t[..|t| - 1])
  }

  /** The rest of the text after its last newline. */
  function Tail(t: string): string {
    if t == "" || t[|t| - 1] == '\n' then "" else Tail(t[..|t| - 1]) + [t[|t| - 1]]
  }

  /** t.split("\n"); its last piece is what lines.pop() removes. */
  function Split(t: string): seq<string> {
    Lines(t) + [Tail(t)]
  }

  function Join(pieces: seq<string>): string {
    if pieces == [] then ""
    else if |pieces| == 1 then pieces[0]
    else Join(pieces[..|pieces| - 1]) + "\n" + pieces[|pieces| - 1]
  }

  /** The pieces hold no newline, and joined by newlines they are the text again. */
  lemma {:induction false} SplitMeaning(t: string)
    ensures Join(Split(t)) == t
    ensures '\n' !in Tail(t) && forall line :: line in Lines(t) ==> '\n' !in line
  {
    if t != "" {
      var init, c := t[..|t| - 1], t[|t| - 1];
      SplitMeaning(init);
      assert t == init + [c];
      assert Split(t)[..|Split(t)| - 1] == Lines(t);
      assert Split(init)[..|Split(init)| - 1] == Lines(init);
      if c == '\n' {
        assert Lines(t) == Split(init);
      }
    }
  }

  lemma {:induction false} NoNewline(t: string)
    requires '\n' !in t
    ensures Lines(t) == [] && Tail(t) == t
  {
    if t != "" {
      NoNewline(t[..|t| - 1]);
    }
  }

  lemma AppendChar(t: string, c: char)
    ensures Lines(t + [c]) == Lines(t) + if c == '\n' then [Tail(t)] else []
    ensures Tail(t + [c]) == if c == '\n' then "" else Tail(t) + [c]
  {
    assert (t + [c])[..|t|] == t;
  }

  /** Cutting a text anywhere: the later part continues the unfinished line of the earlier one. */
  lemma {:induction false} LinesAppend(a: string, b: string)
    ensures Lines(a + b) == Lines(a) + Lines(Tail(a) + b)
    ensures Tail(a + b) == Tail(Tail(a) + b)
  {
    if b == "" {
      NothingAppended(a);
      assert a + b == a && Tail(a) + b == Tail(a);
    } else {
      var init, c := b[..|b| - 1], b[|b| - 1];
      LinesAppend(a, init);
      LastChar(a, b);
      LastChar(Tail(a), b);
      SameCharAppended(Lines(a), a + init, Tail(a) + init, c);
    }
  }

  lemma NothingAppended(a: string)
    ensures Lines(a) == Lines(a) + Lines(Tail(a)) && Tail(a) == Tail(Tail(a))
  {
    SplitMeaning(a);
    NoNewline(Tail(a));
  }

  lemma LastChar(a: string, b: string)
    requires b != ""
    ensures a + b == a + b[..|b| - 1] + [b[|b| - 1]]
  {
  }

  lemma SameCharAppended(before: seq<string>, p: string, q: string, c: char)
    requires Lines(p) == before + Lines(q) && Tail(p) == Tail(q)
    ensures Lines(p + [c]) == before + Lines(q + [c]) && Tail(p + [c]) == Tail(q + [c])
  {
    AppendChar(p, c);
    AppendChar(q, c);
    var more := if c == '\n' then [Tail(q)] else [];
    assert before + Lines(q) + more == before + (Lines(q) + more);
  }

  // ---------------------------------------------------------------------------------------------
  // One line
  // ---------------------------------------------------------------------------------------------

  /** The payload text of a data line. */
  function DataOf(line: string): Option<string> {
    var trimmed := Text.Trim(Text.JsSpace, line);
    if |trimmed| < 5 || trimmed[..5] != "data:" then None else Some(Text.Trim(Text.JsSpace, trimmed[5..]))
  }

  ghost predicate DataLine(line: string, a: string, b: string, data: string, c: string) {
    Text.Blank(Text.JsSpace, a) && Text.Blank(Text.JsSpace, b) && Text.Blank(Text.JsSpace, c) && line == a + "data:" + b + data + c
  }

  /** A line carries a payload exactly when it is "data:" and the trimmed payload with any whitespace around them. */
  lemma DataLineMeaning(line: string, data: string)
    ensures DataOf(line) == Some(data) <==>
            Text.Trimmed(Text.JsSpace, data) && exists a, b, c :: DataLine(line, a, b, data, c)
  {
    if DataOf(line) == Some(data) {
      var a, b, c := DataParts(line, data);
      assert DataLine(line, a, b, data, c);
    }
    if Text.Trimmed(Text.JsSpace, data) && exists a, b, c :: DataLine(line, a, b, data, c) {
      var a, b, c :| DataLine(line, a, b, data, c);
      PaddedDataLine(line, a, b, data, c);
    }
  }

  lemma DataParts(line: string, data: string) returns (a: string, b: string, c: string)
    requires DataOf(line) == Some(data)
    ensures Text.Trimmed(Text.JsSpace, data) && DataLine(line, a, b, data, c)
  {
    var trimmed := Text.Trim(Text.JsSpace, line);
    var rest := trimmed[5..];
    Text.TrimIsTrimmed(Text.JsSpace, rest);
    var d, e;
    a, d := Text.TrimSplit(Text.JsSpace, line);
    b, e := Text.TrimSplit(Text.JsSpace, rest);
    c := e + d;
    assert trimmed == "data:" + rest;
    Regroup(a, "data:", b, data, e, d);
  }

  lemma Regroup(a: string, p: string, b: string, data: string, e: string, d: string)
    ensures a + (p + (b + data + e)) + d == a + p + b + data + (e + d)
  {
    assert p + (b + data + e) == p + b + data + e;
    assert a + (p + b + data + e) == a + p + b + data + e;
    assert a + p + b + data + e + d == a + p + b + data + (e + d);
  }

  lemma PaddedDataLine(line: string, a: string, b: string, data: string, c: string)
    requires DataLine(line, a, b, data, c) && Text.Trimmed(Text.JsSpace, data)
    ensures DataOf(line) == Some(data)
  {
    if data == "" {
      assert line == a + "data:" + (b + c);
      assert Text.Blank(Text.JsSpace, b + c);
      Text.TrimPadded(Text.JsSpace, a, "data:", b + c);
      assert "data:"[5..] == "";
    } else {
      var body := "data:" + b + data;
      assert line == a + body + c;
      assert body[|body| - 1] == data[|data| - 1];
      Text.TrimPadded(Text.JsSpace, a, body, c);
      assert body[..5] == "data:" && body[5..] == b + data + "";
      Text.TrimPadded(Text.JsSpace, b, data, "");
    }
  }

  predicate Worth(d: Delta) {
    d.content != "" || d.finish != "" || d.usage.Some? || d.traceId != ""
  }

  /** The end a payload that cannot be used brings about: the message decides, not the kind of error. */
  function Caught(mode: Mode, message: string): Option<End> {
    if mode.strict && message != END_OF_INPUT then Some(Threw(message)) else None
  }

  function OnPayload(mode: Mode, o: Out, p: Payload): Out {
    match p
    case Malformed(message) => o.(end := Caught(mode, message))
    case ErrorPayload(message) => o.(end := Caught(mode, message))
    case Chunk(content, finish, usage) =>
      var d := Delta(content, finish, usage, if o.emitted then "" else mode.traceId);
      Out(if Worth(d) then o.deltas + [d] else o.deltas, o.emitted || mode.traceId != "", None)
  }

  function OnLine(mode: Mode, o: Out, line: string): Out {
    if o.end.Some? || DataOf(line).None? then o
    else if DataOf(line).value == "[DONE]" then o.(end := Some(Done))
    else OnPayload(mode, o, mode.parse(DataOf(line).value))
  }

  function OnLines(mode: Mode, o: Out, lines: seq<string>): Out {
    if lines == [] then o else OnLine(mode, OnLines(mode, o, lines[..|lines| - 1]), lines[|lines| - 1])
  }

  /** The reference: decode everything, cut it into lines, and go through them once. */
  function WholeText<S, B>(d: Decoder<S, B>, mode: Mode, bytes: seq<B>): Out {
    OnLines(mode, NOTHING, Lines(Decoded(d, d.start, bytes).1))
  }

  // ---------------------------------------------------------------------------------------------
  // Chunks
  // ---------------------------------------------------------------------------------------------

  function Decoded<S, B>(d: Decoder<S, B>, s: S, bytes: seq<B>): (S, string) {
    if bytes == [] then (s, "")
    else
      var (s1, text) := Decoded(d, s, bytes[..|bytes| - 1]);
      var (s2, more) := d.step(s1, bytes[|bytes| - 1]);
      (s2, text + more)
  }

  lemma {:induction false} DecodedAppend<S, B>(d: Decoder<S, B>, s: S, a: seq<B>, b: seq<B>)
    ensures Decoded(d, s, a + b) ==
            (Decoded(d, Decoded(d, s, a).0, b).0, Decoded(d, s, a).1 + Decoded(d, Decoded(d, s, a).0, b).1)
  {
    if b == [] {
      assert a + b == a;
      assert Decoded(d, s, a).1 + "" == Decoded(d, s, a).1;
    } else {
      var n := |b| - 1;
      DecodedAppend(d, s, a, b[..n]);
      assert (a + b)[..|a| + n] == a + b[..n];
      var (s1, first) := Decoded(d, s, a);
      var (s2, second) := Decoded(d, s1, b[..n]);
      var (s3, more) := d.step(s2, b[n]);
      assert Decoded(d, s, a + b) == (s3, (first + second) + more);
      assert (first + second) + more == first + (second + more);
    }
  }

  function Flat<B>(chunks: seq<seq<B>>): seq<B> {
    if chunks == [] then [] else Flat(chunks[..|chunks| - 1]) + chunks[|chunks| - 1]
  }

  datatype Reader<S> = Reader(decoder: S, buffer: string, out: Out)

  /** One turn of the reading loop. */
  function Feed<S, B>(d: Decoder<S, B>, mode: Mode, r: Reader<S>, chunk: seq<B>): Reader<S> {
    if r.out.end.Some? then r
    else
      var (s, text) := Decoded(d, r.decoder, chunk);
      Reader(s, Tail(r.buffer + text), OnLines(mode, r.out, Lines(r.buffer + text)))
  }

  function FeedAll<S, B>(d: Decoder<S, B>, mode: Mode, chunks: seq<seq<B>>): Reader<S> {
    if chunks == [] then Reader(d.start, "", NOTHING)
    else Feed(d, mode, FeedAll(d, mode, chunks[..|chunks| - 1]), chunks[|chunks| - 1])
  }

  lemma {:induction false} OnLinesAppend(mode: Mode, o: Out, a: seq<string>, b: seq<string>)
    ensures OnLines(mode, o, a + b) == OnLines(mode, OnLines(mode, o, a), b)
  {
    if b == [] {
      assert a + b == a;
    } else {
      OnLinesAppend(mode, o, a, b[..|b| - 1]);
      assert (a + b)[..|a| + |b| - 1] == a + b[..|b| - 1];
    }
  }

  lemma {:induction false} EndedStays(mode: Mode, o: Out, lines: seq<string>)
    requires o.end.Some?
    ensures OnLines(mode, o, lines) == o
  {
    if lines != [] {
      EndedStays(mode, o, lines[..|lines| - 1]);
    }
  }

  /**
   Chunk independence: however the bytes are cut, the incremental reader yields the deltas of the whole
   text, and stops or throws at the same line; while it goes on, its buffer is the unfinished last line.
   */
  lemma {:induction false} ChunkIndependence<S, B>(d: Decoder<S, B>, mode: Mode, chunks: seq<seq<B>>)
    ensures FeedAll(d, mode, chunks).out == WholeText(d, mode, Flat(chunks))
    ensures FeedAll(d, mode, chunks).out.end.None? ==>
              && FeedAll(d, mode, chunks).decoder == Decoded(d, d.start, Flat(chunks)).0
              && FeedAll(d, mode, chunks).buffer == Tail(Decoded(d, d.start, Flat(chunks)).1)
  {
    if chunks != [] {
      var before, chunk := chunks[..|chunks| - 1], chunks[|chunks| - 1];
      var r := FeedAll(d, mode, before);
      ChunkIndependence(d, mode, before);
      var (s, text) := Decoded(d, d.start, Flat(before));
      var (s2, more) := Decoded(d, s, chunk);
      DecodedAppend(d, d.start, Flat(before), chunk);
      LinesAppend(text, more);
      OnLinesAppend(mode, NOTHING, Lines(text), Lines(Tail(text) + more));
      if r.out.end.Some? {
        EndedStays(mode, r.out, Lines(Tail(text) + more));
      }
    }
  }

  /** Two cuttings of the same bytes cannot be told apart. */
  lemma SameBytesSameDeltas<S, B>(d: Decoder<S, B>, mode: Mode, a: seq<seq<B>>, b: seq<seq<B>>)
    requires Flat(a) == Flat(b)
    ensures FeedAll(d, mode, a).out == FeedAll(d, mode, b).out
  {
    ChunkIndependence(d, mode, a);
    ChunkIndependence(d, mode, b);
  }

  /** A last line without its newline is never looked at, not even a final [DONE]. */
  lemma UnfinishedLineIgnored(mode: Mode, text: string, rest: string)
    requires '\n' !in rest
    ensures OnLines(mode, NOTHING, Lines(text + rest)) == OnLines(mode, NOTHING, Lines(text))
  {
    LinesAppend(text, rest);
    SplitMeaning(text);
    NoNewline(Tail(text) + rest);
    assert Lines(text) + [] == Lines(text);
  }

  /** read(): the generator's loop, over the chunks that reader.read() returns before it is done. */
  method Read<S, B>(d: Decoder<S, B>, mode: Mode, chunks: seq<seq<B>>) returns (out: Out)
    ensures out == WholeText(d, mode, Flat(chunks))
  {
    ChunkIndependence(d, mode, chunks);
    var decoder, buffer := d.start, "";
    out := NOTHING;
    var k := 0;
    while k < |chunks|
      invariant 0 <= k <= |chunks| && out.end == None
      invariant FeedAll(d, mode, chunks[..k]) == Reader(decoder, buffer, out)
    {
      assert chunks[..k + 1][..k] == chunks[..k];
      var (s, text) := Decoded(d, decoder, chunks[k]);
      decoder := s;
      var lines := Lines(buffer + text);
      buffer := Tail(buffer + text);
      out := ReadLines(mode, out, lines);
      k := k + 1;
      if out.end.Some? {
        LaterChunksIgnored(d, mode, chunks, k);
        return;
      }
    }
    assert chunks[..|chunks|] == chunks;
  }

  /** The inner loop, over the complete lines of one chunk; it returns or throws at the first line that ends the stream. */
  method ReadLines(mode: Mode, before: Out, lines: seq<string>) returns (out: Out)
    requires before.end == None
    ensures out == OnLines(mode, before, lines)
  {
    var deltas, traceIdEmitted := before.deltas, before.emitted;
    for i := 0 to |lines|
      invariant OnLines(mode, before, lines[..i]) == Out(deltas, traceIdEmitted, None)
    {
      assert lines[..i + 1][..i] == lines[..i];
      var data := DataOf(lines[i]);
      if data.Some? {
        var end: Option<End> := None;
        if data.value == "[DONE]" {
          end := Some(Done);
        } else {
          match mode.parse(data.value)
          case Chunk(content, finish, usage) =>
            var delta := Delta(content, finish, usage, if mode.traceId != "" && !traceIdEmitted then mode.traceId else "");
            traceIdEmitted := traceIdEmitted || mode.traceId != "";
            if Worth(delta) {
              deltas := deltas + [delta];
            }
          case Malformed(message) => end := Caught(mode, message);
          case ErrorPayload(message) => end := Caught(mode, message);
        }
        if end.Some? {
          LaterLinesIgnored(mode, before, lines, i + 1);
          return Out(deltas, traceIdEmitted, end);
        }
      }
    }
    assert lines[..|lines|] == lines;
    return Out(deltas, traceIdEmitted, None);
  }

  /** Once a line has ended the stream, neither the other lines of its chunk nor later chunks matter. */
  lemma LaterLinesIgnored(mode: Mode, o: Out, lines: seq<string>, i: nat)
    requires i <= |lines| && OnLines(mode, o, lines[..i]).end.Some?
    ensures OnLines(mode, o, lines) == OnLines(mode, o, lines[..i])
  {
    assert lines == lines[..i] + lines[i..];
    OnLinesAppend(mode, o, lines[..i], lines[i..]);
    EndedStays(mode, OnLines(mode, o, lines[..i]), lines[i..]);
  }

  lemma {:induction false} LaterChunksIgnored<S, B>(d: Decoder<S, B>, mode: Mode, chunks: seq<seq<B>>, k: nat)
    requires k <= |chunks| && FeedAll(d, mode, chunks[..k]).out.end.Some?
    ensures FeedAll(d, mode, chunks).out == FeedAll(d, mode, chunks[..k]).out
  {
    if k == |chunks| {
      assert chunks[..k] == chunks;
    } else {
      assert chunks[..|chunks| - 1][..k] == chunks[..k];
      LaterChunksIgnored(d, mode, chunks[..|chunks| - 1], k);
    }
  }

  // ---------------------------------------------------------------------------------------------
  // The trace id, and the two readers compared
  // ---------------------------------------------------------------------------------------------

  /** The first delta carries the trace id and no other does; a delta without one is worth yielding by itself. */
  predicate TraceOnFirst(mode: Mode, o: Out) {
    && (o.emitted <==> mode.traceId != "" && o.deltas != [])
    && (forall i :: 0 <= i < |o.deltas| ==> Worth(o.deltas[i]) && o.deltas[i].traceId == if i == 0 then mode.traceId else "")
  }

  lemma {:induction false} TraceIdOnFirstDelta(mode: Mode, lines: seq<string>)
    ensures TraceOnFirst(mode, OnLines(mode, NOTHING, lines))
  {
    if lines != [] {
      TraceIdOnFirstDelta(mode, lines[..|lines| - 1]);
    }
  }

  /** With a trace id even a payload that carries nothing else is yielded when it comes first. */
  lemma FirstPayloadYields(mode: Mode, o: Out, content: string, finish: string, usage: Option<Usage>)
    requires TraceOnFirst(mode, o) && mode.traceId != "" && o.deltas == []
    ensures OnPayload(mode, o, Chunk(content, finish, usage)).deltas == [Delta(content, finish, usage, mode.traceId)]
  {
  }

  /** What the strict reader throws at. */
  predicate Throws(parse: string -> Payload, line: string) {
    && DataOf(line).Some? && DataOf(line).value != "[DONE]"
    && !parse(DataOf(line).value).Chunk?
    && parse(DataOf(line).value).message != END_OF_INPUT
  }

  predicate IsDone(line: string) {
    DataOf(line) == Some("[DONE]")
  }

  predicate DoneAmong(lines: seq<string>, n: nat)
    requires n <= |lines|
  {
    exists j :: 0 <= j < n && IsDone(lines[j])
  }

  /** Every line that would make the strict reader throw stands behind a [DONE] line. */
  predicate ThrowsOnlyAfterDone(parse: string -> Payload, lines: seq<string>) {
    forall i :: 0 <= i < |lines| && Throws(parse, lines[i]) ==> DoneAmong(lines, i)
  }

  lemma {:induction false} NeverDoneWithout(mode: Mode, lines: seq<string>)
    ensures var o := OnLines(mode, NOTHING, lines);
            && (o.end == Some(Done) ==> DoneAmong(lines, |lines|))
            && (o.end.None? ==> !DoneAmong(lines, |lines|))
  {
    if lines != [] {
      var n := |lines| - 1;
      NeverDoneWithout(mode, lines[..n]);
      DoneAmongPrefix(lines, n, n);
      assert DoneAmong(lines, |lines|) <==> DoneAmong(lines, n) || IsDone(lines[n]);
    }
  }

  /** One line read by both: they part exactly at a line the strict one throws at, and for good. */
  lemma SameLine(mode: Mode, strict: Out, lax: Out, line: string)
    requires strict == lax || (strict.end.Some? && strict.end.value.Threw?)
    requires strict.deltas <= lax.deltas && (lax.end.Some? ==> lax.end == Some(Done))
    ensures var s, l := OnLine(mode.(strict := true), strict, line), OnLine(mode.(strict := false), lax, line);
            && (s == l <==> strict == lax && (lax.end.Some? || !Throws(mode.parse, line)))
            && (s != l ==> s.end.Some? && s.end.value.Threw?)
            && s.deltas <= l.deltas && (l.end.Some? ==> l.end == Some(Done))
  {
  }

  /**
   streamChat and resumeStream read the same bytes to the same deltas and the same end exactly when no
   error payload or malformed JSON comes before [DONE], apart from those with the end-of-input message;
   otherwise streamChat throws, having yielded a prefix of what resumeStream yields.
   */
  lemma {:induction false} ReadersAgreeIff(mode: Mode, lines: seq<string>)
    ensures var strict, lax := OnLines(mode.(strict := true), NOTHING, lines), OnLines(mode.(strict := false), NOTHING, lines);
            && (strict == lax <==> ThrowsOnlyAfterDone(mode.parse, lines))
            && (strict != lax ==> strict.end.Some? && strict.end.value.Threw?)
            && strict.deltas <= lax.deltas
            && (lax.end.Some? ==> lax.end == Some(Done))
  {
    if lines != [] {
      var n := |lines| - 1;
      ReadersAgreeIff(mode, lines[..n]);
      SameLine(mode, OnLines(mode.(strict := true), NOTHING, lines[..n]), OnLines(mode.(strict := false), NOTHING, lines[..n]), lines[n]);
      DoneBehind(mode, lines);
      NeverDoneWithout(mode.(strict := false), lines[..n]);
      DoneAmongPrefix(lines, n, n);
    }
  }

  /** Whether the last line may be thrown at is the only thing it adds. */
  lemma DoneBehind(mode: Mode, lines: seq<string>)
    requires lines != []
    ensures var n := |lines| - 1;
            ThrowsOnlyAfterDone(mode.parse, lines) <==>
            ThrowsOnlyAfterDone(mode.parse, lines[..n]) && (Throws(mode.parse, lines[n]) ==> DoneAmong(lines, n))
  {
    var n := |lines| - 1;
    forall i | 0 <= i <= n
      ensures DoneAmong(lines, i) <==> (i <= |lines[..n]| && DoneAmong(lines[..n], i))
    {
      DoneAmongPrefix(lines, n, i);
    }
    assert forall i :: 0 <= i < n ==> lines[..n][i] == lines[i];
  }

  lemma DoneAmongPrefix(lines: seq<string>, n: nat, i: nat)
    requires i <= n <= |lines|
    ensures DoneAmong(lines, i) <==> DoneAmong(lines[..n], i)
  {
    assert forall j :: 0 <= j < n ==> lines[..n][j] == lines[j];
    if DoneAmong(lines, i) {
      var j :| 0 <= j < i && IsDone(lines[j]);
      assert IsDone(lines[..n][j]);
    }
    if DoneAmong(lines[..n], i) {
      var j :| 0 <= j < i && IsDone(lines[..n][j]);
      assert IsDone(lines[j]);
    }
  }

  /** One data line whose JSON is malformed in any but one way: streamChat throws, resumeStream goes on. */
  lemma MalformedParts(traceId: string, message: string)
    requires message != END_OF_INPUT
    ensures var mode := Mode(true, traceId, _ => Malformed(message));
            && OnLines(mode, NOTHING, ["data:x"]).end == Some(Threw(message))
            && OnLines(mode.(strict := false), NOTHING, ["data:x"]) == NOTHING
  {
    var mode := Mode(true, traceId, _ => Malformed(message));
    assert DataLine("data:x", "", "", "x", "");
    PaddedDataLine("data:x", "", "", "x", "");
    assert ["data:x"][..0] == [];
    assert OnLines(mode, NOTHING, []) == NOTHING && OnLines(mode.(strict := false), NOTHING, []) == NOTHING;
  }

  /** An error payload that happens to carry the end-of-input message is skipped even by streamChat. */
  lemma ErrorPayloadSkipped(traceId: string)
    ensures OnLines(Mode(true, traceId, _ => ErrorPayload(END_OF_INPUT)), NOTHING, ["data:x"]) == NOTHING
  {
    assert DataLine("data:x", "", "", "x", "");
    PaddedDataLine("data:x", "", "", "x", "");
    assert ["data:x"][..0] == [];
  }

  // ---------------------------------------------------------------------------------------------
  // Exactly what is yielded
  // ---------------------------------------------------------------------------------------------

  /** The usable payloads of the lines, in order. */
  function Usable(parse: string -> Payload, lines: seq<string>): seq<Payload> {
    if lines == [] then []
    else
      var before, data := Usable(parse, lines[..|lines| - 1]), DataOf(lines[|lines| - 1]);
      if data.Some? && data.value != "[DONE]" && parse(data.value).Chunk? then before + [parse(data.value)] else before
  }

  /**
   The deltas for these payloads: one for each that has content, a finish reason or usage, with these and
   nothing else; the first payload's delta has the trace id too, and with one it is yielded in any case.
   */
  function Yields(traceId: string, payloads: seq<Payload>): seq<Delta> {
    if payloads == [] then []
    else
      var before, p := Yields(traceId, payloads[..|payloads| - 1]), payloads[|payloads| - 1];
      if !p.Chunk? then before
      else
        var own := if |payloads| == 1 then traceId else "";
        if p.content == "" && p.finish == "" && p.usage.None? && own == "" then before
        else before + [Delta(p.content, p.finish, p.usage, own)]
  }

  /** The line ends the stream: [DONE], or what the strict reader throws at. */
  predicate EndsStream(mode: Mode, line: string) {
    IsDone(line) || (mode.strict && Throws(mode.parse, line))
  }

  /** While no line ends the stream, exactly the deltas of the usable payloads are yielded, in order. */
  lemma {:induction false} YieldsAllUsable(mode: Mode, lines: seq<string>)
    requires forall line :: line in lines ==> !EndsStream(mode, line)
    ensures var o, payloads := OnLines(mode, NOTHING, lines), Usable(mode.parse, lines);
            o.end.None? && o.deltas == Yields(mode.traceId, payloads) && (o.emitted <==> mode.traceId != "" && payloads != [])
  {
    if lines != [] {
      var n := |lines| - 1;
      YieldsAllUsable(mode, lines[..n]);
      assert lines[n] in lines && !EndsStream(mode, lines[n]);
      var before, after := Usable(mode.parse, lines[..n]), Usable(mode.parse, lines);
      if after != before {
        assert after[..|after| - 1] == before;
      }
    }
  }

  /** The first line that ends the stream ends it: with the deltas of the lines before, as done or with the error thrown. */
  lemma FirstEndDecides(mode: Mode, lines: seq<string>, k: nat)
    requires k < |lines| && EndsStream(mode, lines[k]) && forall i :: 0 <= i < k ==> !EndsStream(mode, lines[i])
    ensures var o := OnLines(mode, NOTHING, lines);
            && o.deltas == Yields(mode.traceId, Usable(mode.parse, lines[..k]))
            && (IsDone(lines[k]) ==> o.end == Some(Done))
            && (!IsDone(lines[k]) ==> o.end == Some(Threw(mode.parse(DataOf(lines[k]).value).message)))
  {
    YieldsAllUsable(mode, lines[..k]);
    assert lines[..k + 1][..k] == lines[..k];
    LaterLinesIgnored(mode, NOTHING, lines, k + 1);
  }

  /** The decoder is run byte by byte, from its start, and its outputs are joined. */
  lemma DecodedOne<S, B>(d: Decoder<S, B>, s: S, b: B)
    ensures Decoded(d, s, []) == (s, "") && Decoded(d, s, [b]) == d.step(s, b)
  {
    assert [b][..0] == [];
    assert "" + d.step(s, b).1 == d.step(s, b).1;
  }
}
