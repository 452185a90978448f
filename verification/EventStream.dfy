/** The browser runner's event stream, read chunk by chunk. */
module EventStream {
  import opened Wrappers
  import opened Text

  // What a frame's data decodes to. A field is present when it has the type the
  // reader asks for.
  datatype Decoded =
    | NotJson
    | Null
    | Event(kind: string, caption: Option<string>, result: Option<string>, message: Option<string>)

  type Decoder = string -> Decoded

  datatype Parsed = Parsed(actions: seq<string>, result: string, error: Option<string>)

  const START := Parsed([], "", None)
  const NULL_EVENT_ERROR := "null is not an object"
  const RUN_FAILED := "browser run failed"
  const DATA_PREFIX := "data: "

  // ------------------------------------------------------------------
  // Frames
  // ------------------------------------------------------------------

  predicate BlankAt(text: string, i: nat) {
    i + 1 < |text| && text[i] == '\n' && text[i + 1] == '\n'
  }

  // Leftmost blank line at or after `from`: `indexOf("\n\n")`.
  function FirstBlank(text: string, from: nat): (i: Option<nat>)
    ensures i.Some? ==> from <= i.value && BlankAt(text, i.value) && forall k | from <= k < i.value :: !BlankAt(text, k)
    ensures i.None? ==> forall k | from <= k :: !BlankAt(text, k)
    decreases |text| - from
  {
    if from >= |text| then None
    else if BlankAt(text, from) then Some(from)
    else FirstBlank(text, from + 1)
  }

  // The whole text split at blank lines: complete frames and what follows the last.
  function Frames(text: string): (seq<string>, string)
    decreases |text|
  {
    var i := FirstBlank(text, 0);
    if i.None? then ([], text)
    else
      var (frames, tail) := Frames(text[i.value + 2..]);
      ([text[..i.value]] + frames, tail)
  }

  function DataLines(lines: seq<string>): string {
    if lines == [] then ""
    else (if StartsWith(lines[0], DATA_PREFIX) then lines[0][|DATA_PREFIX|..] else "") + DataLines(lines[1..])
  }

  // The frame's `data: ` lines joined with nothing between them.
  function DataOf(frame: string): string {
    DataLines(Split(frame, '\n'))
  }

  function Nonempty(s: Option<string>): bool {
    s.Some? && s.value != ""
  }

  function Apply(p: Parsed, d: Decoded): Parsed {
    match d
    case NotJson => p
    case Null => p.(error := Some(NULL_EVENT_ERROR))
    case Event(kind, caption, result, message) =>
      if kind == "action" && Nonempty(caption) then p.(actions := p.actions + [caption.value])
      else if kind == "done" && result.Some? then p.(result := result.value)
      else if kind == "error" then p.(error := Some(if Nonempty(message) then message.value else RUN_FAILED))
      else p
  }

  // A thrown error ends the reading.
  function Handle(decode: Decoder, p: Parsed, frame: string): Parsed {
    if p.error.Some? || DataOf(frame) == "" then p else Apply(p, decode(DataOf(frame)))
  }

  function HandleAll(decode: Decoder, p: Parsed, frames: seq<string>): Parsed
    decreases |frames|
  {
    if frames == [] then p else HandleAll(decode, Handle(decode, p, frames[0]), frames[1..])
  }

  // Reading the whole text at once, then flushing a tail that is not blank.
  function Outcome(decode: Decoder, blank: string -> bool, text: string): Parsed {
    var (frames, tail) := Frames(text);
    var p := HandleAll(decode, START, frames);
    if blank(tail) then p else Handle(decode, p, tail)
  }

  function Concat(chunks: seq<string>): string {
    if chunks == [] then "" else chunks[0] + Concat(chunks[1..])
  }

  // ------------------------------------------------------------------
  // Chunking does not matter
  // ------------------------------------------------------------------

  lemma FirstBlankOfPrefix(a: string, b: string)
    requires FirstBlank(a, 0).Some?
    ensures FirstBlank(a + b, 0) == FirstBlank(a, 0)
  {
    var i := FirstBlank(a, 0).value;
    assert BlankAt(a + b, i);
    forall k | 0 <= k < i ensures !BlankAt(a + b, k) {
      assert !BlankAt(a, k);
    }
    var j := FirstBlank(a + b, 0).value;
  }

  lemma FramesFirst(text: string, i: nat)
    requires FirstBlank(text, 0) == Some(i)
    ensures Frames(text) == ([text[..i]] + Frames(text[i + 2..]).0, Frames(text[i + 2..]).1)
  {
  }

  lemma FramesFirstOfMore(a: string, b: string, i: nat)
    requires FirstBlank(a, 0) == Some(i)
    ensures Frames(a + b) == ([a[..i]] + Frames(a[i + 2..] + b).0, Frames(a[i + 2..] + b).1)
  {
    FirstBlankOfPrefix(a, b);
    assert (a + b)[i + 2..] == a[i + 2..] + b;
    assert (a + b)[..i] == a[..i];
    FramesFirst(a + b, i);
  }

  lemma Ahead(frame: string, f: seq<string>, g: seq<string>)
    ensures [frame] + (f + g) == ([frame] + f) + g
  {
  }

  // Frames complete in a prefix stay complete; the rest is framed from its tail on.
  lemma {:induction false} FramesAppend(a: string, b: string)
    ensures Frames(a + b) == (Frames(a).0 + Frames(Frames(a).1 + b).0, Frames(Frames(a).1 + b).1)
    decreases |a|
  {
    var i := FirstBlank(a, 0);
    if i.Some? {
      var frame, rest := a[..i.value], a[i.value + 2..];
      FramesFirst(a, i.value);
      FramesFirstOfMore(a, b, i.value);
      FramesAppend(rest, b);
      Ahead(frame, Frames(rest).0, Frames(Frames(rest).1 + b).0);
    } else {
      assert Frames(a) == ([], a);
      assert [] + Frames(a + b).0 == Frames(a + b).0;
    }
  }

  lemma {:induction false} HandleAllAppend(decode: Decoder, p: Parsed, a: seq<string>, b: seq<string>)
    ensures HandleAll(decode, p, a + b) == HandleAll(decode, HandleAll(decode, p, a), b)
    decreases |a|
  {
    if a == [] {
      assert a + b == b;
    } else {
      assert (a + b)[1..] == a[1..] + b;
      HandleAllAppend(decode, Handle(decode, p, a[0]), a[1..], b);
    }
  }

  lemma {:induction false} FailedStays(decode: Decoder, p: Parsed, frames: seq<string>)
    requires p.error.Some?
    ensures HandleAll(decode, p, frames) == p
    decreases |frames|
  {
    if frames != [] { FailedStays(decode, p, frames[1..]); }
  }

  lemma {:induction false} ConcatSnoc(chunks: seq<string>, c: string)
    ensures Concat(chunks + [c]) == Concat(chunks) + c
  {
    if chunks == [] {
      assert (chunks + [c])[1..] == [];
    } else {
      assert (chunks + [c])[1..] == chunks[1..] + [c];
      ConcatSnoc(chunks[1..], c);
    }
  }

  // The reader's state after some text: frames handled, the unfinished one buffered.
  ghost predicate ReadSoFar(decode: Decoder, text: string, p: Parsed, buf: string) {
    var (frames, tail) := Frames(text);
    p == HandleAll(decode, START, frames) && buf == tail
  }

  lemma ReadMore(decode: Decoder, text: string, p: Parsed, buf: string, chunk: string)
    requires ReadSoFar(decode, text, p, buf)
    ensures Frames(text + chunk).0 == Frames(text).0 + Frames(buf + chunk).0
    ensures Frames(text + chunk).1 == Frames(buf + chunk).1
    ensures HandleAll(decode, START, Frames(text + chunk).0) == HandleAll(decode, p, Frames(buf + chunk).0)
  {
    FramesAppend(text, chunk);
    HandleAllAppend(decode, START, Frames(text).0, Frames(buf + chunk).0);
  }

  // An error thrown while reading a prefix is the error of the whole.
  lemma PrefixFails(decode: Decoder, blank: string -> bool, text: string, more: string)
    requires HandleAll(decode, START, Frames(text).0).error.Some?
    ensures Outcome(decode, blank, text + more) == HandleAll(decode, START, Frames(text).0)
  {
    var p := HandleAll(decode, START, Frames(text).0);
    FramesAppend(text, more);
    HandleAllAppend(decode, START, Frames(text).0, Frames(Frames(text).1 + more).0);
    FailedStays(decode, p, Frames(Frames(text).1 + more).0);
  }

  // Takes the complete frames out of the buffer, one by one.
  method Drain(decode: Decoder, p: Parsed, full: string) returns (q: Parsed, buf: string)
    ensures q == HandleAll(decode, p, Frames(full).0)
    ensures q.error.None? ==> buf == Frames(full).1
  {
    q, buf := p, full;
    var idx := FirstBlank(buf, 0);
    while idx.Some? && q.error.None?
      invariant idx == FirstBlank(buf, 0)
      invariant HandleAll(decode, q, Frames(buf).0) == HandleAll(decode, p, Frames(full).0)
      invariant Frames(buf).1 == Frames(full).1
      decreases |buf|
    {
      var frame := buf[..idx.value];
      assert Frames(buf).0[1..] == Frames(buf[idx.value + 2..]).0;
      q := Handle(decode, q, frame);
      buf := buf[idx.value + 2..];
      idx := FirstBlank(buf, 0);
    }
    if q.error.Some? { FailedStays(decode, q, Frames(buf).0); }
  }

  // For every way the stream is cut into chunks, the reader ends with the actions,
  // the result or the error of reading the whole text at once.
  method ReadStream(decode: Decoder, blank: string -> bool, chunks: seq<string>) returns (p: Parsed)
    ensures p == Outcome(decode, blank, Concat(chunks))
  {
    p := START;
    var buf := "";
    assert Frames("") == ([], "");
    for i := 0 to |chunks|
      invariant ReadSoFar(decode, Concat(chunks[..i]), p, buf)
      invariant p.error.None?
    {
      ghost var text := Concat(chunks[..i]);
      assert chunks[..i + 1] == chunks[..i] + [chunks[i]];
      ConcatSnoc(chunks[..i], chunks[i]);
      ReadMore(decode, text, p, buf, chunks[i]);
      p, buf := Drain(decode, p, buf + chunks[i]);
      if p.error.Some? {
        ConcatSplit(chunks, i + 1);
        PrefixFails(decode, blank, text + chunks[i], Concat(chunks[i + 1..]));
        return;
      }
    }
    assert chunks[..|chunks|] == chunks;
    if !blank(buf) { p := Handle(decode, p, buf); }
  }

  lemma {:induction false} ConcatSplit(chunks: seq<string>, i: nat)
    requires i <= |chunks|
    ensures Concat(chunks) == Concat(chunks[..i]) + Concat(chunks[i..])
  {
    if i > 0 {
      ConcatSplit(chunks[1..], i - 1);
      assert chunks[..i][1..] == chunks[1..][..i - 1];
    }
  }

  // ------------------------------------------------------------------
  // Printed events come back
  // ------------------------------------------------------------------

  function Sse(name: string, data: string): string {
    "event: " + name + "\ndata: " + data + "\n\n"
  }

  ghost predicate Printable(e: (string, string)) {
    '\n' !in e.0 && '\n' !in e.1 && e.1 != ""
  }

  function Print(events: seq<(string, string)>): string {
    if events == [] then "" else Sse(events[0].0, events[0].1) + Print(events[1..])
  }

  function Body(e: (string, string)): string {
    "event: " + e.0 + "\ndata: " + e.1
  }

  function Bodies(events: seq<(string, string)>): seq<string> {
    seq(|events|, i requires 0 <= i < |events| => Body(events[i]))
  }

  lemma BodyData(e: (string, string))
    requires Printable(e)
    ensures DataOf(Body(e)) == e.1
  {
    var first: string, second: string := "event: " + e.0, "data: " + e.1;
    assert Body(e) == first + ['\n'] + second;
    SplitAtFirst(first, second, '\n');
    SplitAtFirst(second, "", '\n');
    assert Split(Body(e), '\n') == [first, second];
    assert second[|DATA_PREFIX|..] == e.1;
    assert first[0] == 'e';
    var lines: seq<string> := [first, second];
    assert lines[1..] == [second] && lines[1..][1..] == [];
    assert !StartsWith(first, DATA_PREFIX) by {
      if |DATA_PREFIX| <= |first| { assert first[..|DATA_PREFIX|][0] == 'e'; }
    }
    assert second[..|DATA_PREFIX|] == DATA_PREFIX;
    assert DataLines(lines[1..]) == e.1;
  }

  lemma BodyBlank(e: (string, string), rest: string)
    requires Printable(e)
    ensures FirstBlank(Sse(e.0, e.1) + rest, 0) == Some(|Body(e)|)
    ensures (Sse(e.0, e.1) + rest)[..|Body(e)|] == Body(e)
    ensures (Sse(e.0, e.1) + rest)[|Body(e)| + 2..] == rest
  {
    var text, n, brk := Sse(e.0, e.1) + rest, |Body(e)|, |"event: " + e.0|;
    assert text == Body(e) + "\n\n" + rest;
    assert BlankAt(text, n);
    forall k | 0 <= k < n ensures !BlankAt(text, k) {
      if k < brk {
        assert text[k] == ("event: " + e.0)[k];
      } else if k == brk {
        assert text[k + 1] == 'd';
      } else {
        assert text[k] == ("data: " + e.1)[k - brk - 1];
      }
    }
  }

  lemma PrintedFirst(e: (string, string), rest: string)
    requires Printable(e)
    ensures Frames(Sse(e.0, e.1) + rest) == ([Body(e)] + Frames(rest).0, Frames(rest).1)
  {
    BodyBlank(e, rest);
    FramesFirst(Sse(e.0, e.1) + rest, |Body(e)|);
  }

  lemma {:induction false} PrintedFrames(events: seq<(string, string)>)
    requires forall e <- events :: Printable(e)
    ensures Frames(Print(events)) == (Bodies(events), "")
    decreases |events|
  {
    if events != [] {
      assert events[0] in events && forall e <- events[1..] :: e in events;
      var rest := Print(events[1..]);
      PrintedFrames(events[1..]);
      PrintedFirst(events[0], rest);
      assert Bodies(events) == [Body(events[0])] + Bodies(events[1..]);
    }
  }

  function ApplyAll(decode: Decoder, p: Parsed, events: seq<(string, string)>): Parsed
    decreases |events|
  {
    if events == [] || p.error.Some? then p else ApplyAll(decode, Apply(p, decode(events[0].1)), events[1..])
  }

  lemma {:induction false} BodiesApply(decode: Decoder, p: Parsed, events: seq<(string, string)>)
    requires forall e <- events :: Printable(e)
    ensures HandleAll(decode, p, Bodies(events)) == ApplyAll(decode, p, events)
    decreases |events|
  {
    var bodies := Bodies(events);
    if p.error.Some? {
      FailedStays(decode, p, bodies);
    } else if events != [] {
      assert events[0] in events && forall e <- events[1..] :: e in events;
      BodyData(events[0]);
      BodiesApply(decode, Apply(p, decode(events[0].1)), events[1..]);
      assert bodies[1..] == Bodies(events[1..]);
    }
  }

  // Events printed as the service prints them, cut into any chunks, are read back as
  // the same events in order, up to the first error.
  lemma PrintedEventsComeBack(decode: Decoder, blank: string -> bool, events: seq<(string, string)>, chunks: seq<string>)
    requires forall e <- events :: Printable(e)
    requires Concat(chunks) == Print(events) && blank("")
    ensures Outcome(decode, blank, Concat(chunks)) == ApplyAll(decode, START, events)
  {
    PrintedFrames(events);
    BodiesApply(decode, START, events);
  }

  // ------------------------------------------------------------------
  // What fails a stream
  // ------------------------------------------------------------------

  // A frame that throws: its data is null, or an error event.
  predicate Failing(decode: Decoder, frame: string) {
    DataOf(frame) != "" &&
    match decode(DataOf(frame))
    case Null => true
    case Event(kind, _, _, _) => kind == "error"
    case NotJson => false
  }

  lemma {:induction false} FramesFailExactly(decode: Decoder, p: Parsed, frames: seq<string>)
    ensures HandleAll(decode, p, frames).error.Some? <==> p.error.Some? || exists f <- frames :: Failing(decode, f)
    decreases |frames|
  {
    if frames != [] {
      var rest := frames[1..];
      FramesFailExactly(decode, Handle(decode, p, frames[0]), rest);
      assert frames == [frames[0]] + rest;
      assert frames[0] in frames && forall f <- rest :: f in frames;
      if f :| f in frames && Failing(decode, f) {
        assert f == frames[0] || f in rest;
      }
    }
  }

  // Reading fails exactly when a frame, or a tail that is not blank, holds null or an
  // error event as its data.
  lemma StreamFailsExactly(decode: Decoder, blank: string -> bool, text: string)
    ensures Outcome(decode, blank, text).error.Some? <==>
            || (exists f <- Frames(text).0 :: Failing(decode, f))
            || (!blank(Frames(text).1) && Failing(decode, Frames(text).1))
  {
    FramesFailExactly(decode, START, Frames(text).0);
  }

  // A null frame before any failing one is where the reading ends.
  lemma NullFrameFails(decode: Decoder, before: seq<string>, frame: string, rest: seq<string>)
    requires DataOf(frame) != "" && decode(DataOf(frame)) == Null
    requires forall f <- before :: !Failing(decode, f)
    ensures var p := HandleAll(decode, START, before);
      HandleAll(decode, START, before + [frame] + rest) == p.(error := Some(NULL_EVENT_ERROR))
  {
    var p := HandleAll(decode, START, before);
    FramesFailExactly(decode, START, before);
    assert before + [frame] + rest == before + ([frame] + rest);
    HandleAllAppend(decode, START, before, [frame] + rest);
    assert ([frame] + rest)[1..] == rest;
    FailedStays(decode, Handle(decode, p, frame), rest);
  }

  // ------------------------------------------------------------------
  // What a stream ends with
  // ------------------------------------------------------------------

  // The labels of the "action" events, the empty ones left out.
  function Captions(decode: Decoder, frames: seq<string>): seq<string> {
    if frames == [] then []
    else
      var init, last := frames[..|frames| - 1], frames[|frames| - 1];
      Captions(decode, init) +
      match decode(DataOf(last))
      case Event(kind, caption, _, _) =>
        if DataOf(last) != "" && kind == "action" && caption.Some? && caption.value != "" then [caption.value] else []
      case _ => []
  }

  // The result of the last "done" event that carries a string; "" when none does.
  function LastResult(decode: Decoder, frames: seq<string>): string {
    if frames == [] then ""
    else
      var init, last := frames[..|frames| - 1], frames[|frames| - 1];
      match decode(DataOf(last))
      case Event(kind, _, result, _) =>
        if DataOf(last) != "" && kind == "done" && result.Some? then result.value else LastResult(decode, init)
      case _ => LastResult(decode, init)
  }

  // What one more frame that does not fail adds.
  lemma FrameTells(decode: Decoder, p: Parsed, f: string)
    requires p.error.None? && !Failing(decode, f)
    ensures var q := Handle(decode, p, f);
      match decode(DataOf(f))
      case Event(kind, caption, result, _) =>
        && q.error.None?
        && q.actions == (if DataOf(f) != "" && kind == "action" && caption.Some? && caption.value != ""
                         then p.actions + [caption.value] else p.actions)
        && q.result == (if DataOf(f) != "" && kind == "done" && result.Some? then result.value else p.result)
      case _ => q == p
  {
  }

  // Until one fails, the frames handled leave exactly these.
  lemma {:induction false} FramesTell(decode: Decoder, frames: seq<string>)
    requires forall f <- frames :: !Failing(decode, f)
    ensures HandleAll(decode, START, frames) == Parsed(Captions(decode, frames), LastResult(decode, frames), None)
  {
    if frames != [] {
      var init, last := frames[..|frames| - 1], frames[|frames| - 1];
      assert frames == init + [last] && last in frames && forall f <- init :: f in frames;
      FramesTell(decode, init);
      HandleAllAppend(decode, START, init, [last]);
      HandleFirst(decode, HandleAll(decode, START, init), last, []);
      assert [last] + [] == [last];
      FrameTells(decode, HandleAll(decode, START, init), last);
      assert Captions(decode, init) + [] == Captions(decode, init);
    }
  }

  // Everything the reader handles: the complete frames, and a tail that is not blank.
  function Handled(blank: string -> bool, text: string): seq<string> {
    Frames(text).0 + (if blank(Frames(text).1) then [] else [Frames(text).1])
  }

  // The first frame that fails is number k; all go through when it is the end.
  ghost predicate FirstFailure(decode: Decoder, frames: seq<string>, k: nat) {
    && k <= |frames| && (forall i | 0 <= i < k :: !Failing(decode, frames[i]))
    && (k < |frames| ==> Failing(decode, frames[k]))
  }

  // What a failing frame throws: the message an error event carries, or "browser run failed".
  ghost predicate Throws(d: Decoded, error: string) {
    match d
    case Event(_, _, _, message) =>
      error == (if message.Some? && message.value != "" then message.value else "browser run failed")
    case _ => true
  }

  // The outcome: captions and result of the frames before the first that fails, and what
  // that one throws.
  lemma OutcomeTells(decode: Decoder, blank: string -> bool, text: string, k: nat)
    requires FirstFailure(decode, Handled(blank, text), k)
    ensures var frames, p := Handled(blank, text), Outcome(decode, blank, text);
      && p.actions == Captions(decode, frames[..k]) && p.result == LastResult(decode, frames[..k])
      && (p.error.None? <==> k == |frames|)
      && (k < |frames| ==> Throws(decode(DataOf(frames[k])), p.error.value))
  {
    var frames := Handled(blank, text);
    OutcomeIsHandled(decode, blank, text);
    if k == |frames| {
      assert frames[..k] == frames;
      FramesTell(decode, frames);
    } else {
      SplitAt(frames, k);
      FailureTells(decode, frames[..k], frames[k], frames[k + 1..]);
    }
  }

  lemma SplitAt(frames: seq<string>, k: nat)
    requires k < |frames|
    ensures frames[..k] + ([frames[k]] + frames[k + 1..]) == frames
  {
  }

  lemma FailureTells(decode: Decoder, before: seq<string>, frame: string, rest: seq<string>)
    requires Failing(decode, frame) && forall f <- before :: !Failing(decode, f)
    ensures var p := HandleAll(decode, START, before + ([frame] + rest));
      && p.actions == Captions(decode, before) && p.result == LastResult(decode, before)
      && p.error.Some? && Throws(decode(DataOf(frame)), p.error.value)
  {
    EndsAtFailure(decode, before, frame, rest);
    FramesTell(decode, before);
    FailingThrows(decode, Parsed(Captions(decode, before), LastResult(decode, before), None), frame);
  }

  lemma FailingThrows(decode: Decoder, p: Parsed, frame: string)
    requires Failing(decode, frame) && p.error.None?
    ensures var q := Handle(decode, p, frame);
      q.actions == p.actions && q.result == p.result && q.error.Some? && Throws(decode(DataOf(frame)), q.error.value)
  {
  }

  lemma EndsAtFailure(decode: Decoder, before: seq<string>, frame: string, rest: seq<string>)
    requires Failing(decode, frame)
    ensures HandleAll(decode, START, before + ([frame] + rest)) == Handle(decode, HandleAll(decode, START, before), frame)
  {
    var p, later := HandleAll(decode, START, before), [frame] + rest;
    HandleAllAppend(decode, START, before, later);
    FailsAtFirst(decode, p, frame, rest);
  }

  lemma FailsAtFirst(decode: Decoder, p: Parsed, frame: string, rest: seq<string>)
    requires Failing(decode, frame)
    ensures HandleAll(decode, p, [frame] + rest) == Handle(decode, p, frame)
  {
    HandleFirst(decode, p, frame, rest);
    FailedStays(decode, Handle(decode, p, frame), rest);
  }

  lemma HandleFirst(decode: Decoder, p: Parsed, frame: string, rest: seq<string>)
    ensures HandleAll(decode, p, [frame] + rest) == HandleAll(decode, Handle(decode, p, frame), rest)
  {
    assert ([frame] + rest)[1..] == rest;
  }

  lemma OutcomeIsHandled(decode: Decoder, blank: string -> bool, text: string)
    ensures Outcome(decode, blank, text) == HandleAll(decode, START, Handled(blank, text))
  {
    var frames, tail := Frames(text).0, Frames(text).1;
    HandleAllAppend(decode, START, frames, [tail]);
    assert [tail][1..] == [];
    assert frames + [] == frames;
  }

  // The data of a frame: what follows "data: " on each of its lines that starts so, run
  // together.
  lemma {:induction false} DataLinesAppend(a: seq<string>, b: seq<string>)
    ensures DataLines(a + b) == DataLines(a) + DataLines(b)
  {
    if a == [] {
      assert a + b == b;
    } else {
      assert (a + b)[1..] == a[1..] + b && (a + b)[0] == a[0];
      DataLinesAppend(a[1..], b);
      Regroup(if StartsWith(a[0], DATA_PREFIX) then a[0][|DATA_PREFIX|..] else "", DataLines(a[1..]), DataLines(b));
    }
  }

  lemma DataLine(line: string)
    ensures DataLines(["data: " + line]) == line
    ensures !StartsWith(line, "data: ") ==> DataLines([line]) == ""
  {
    assert ["data: " + line][1..] == [] && [line][1..] == [];
    assert ("data: " + line)[..6] == "data: " && ("data: " + line)[6..] == line;
    assert DataLines([]) == "";
  }

  // Every frame back with its blank line, and the tail, are the text; no blank line is left
  // in the tail.
  lemma {:induction false} FramesRejoin(text: string)
    ensures Concat(Ended(Frames(text).0)) + Frames(text).1 == text
    ensures FirstBlank(Frames(text).1, 0) == None
    decreases |text|
  {
    var i := FirstBlank(text, 0);
    if i.Some? {
      FramesRejoin(text[i.value + 2..]);
      FramesFirst(text, i.value);
      RejoinFirst(text, i.value, Frames(text[i.value + 2..]).0, Frames(text[i.value + 2..]).1);
    }
  }

  lemma RejoinFirst(text: string, i: nat, frames: seq<string>, tail: string)
    requires BlankAt(text, i) && Concat(Ended(frames)) + tail == text[i + 2..]
    ensures Concat(Ended([text[..i]] + frames)) + tail == text
  {
    EndedCons(text[..i], frames);
    Regroup(text[..i] + "\n\n", Concat(Ended(frames)), tail);
    assert text == (text[..i] + "\n\n") + text[i + 2..];
  }

  lemma Regroup(a: string, b: string, c: string)
    ensures a + b + c == a + (b + c)
  {
  }

  lemma EndedCons(frame: string, frames: seq<string>)
    ensures Concat(Ended([frame] + frames)) == (frame + "\n\n") + Concat(Ended(frames))
  {
    assert Ended([frame] + frames)[1..] == Ended(frames);
  }

  function Ended(frames: seq<string>): seq<string> {
    seq(|frames|, i requires 0 <= i < |frames| => frames[i] + "\n\n")
  }
}
