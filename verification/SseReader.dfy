/** The incremental reader of the chat stream (browser_extension/utils/corvos-api.ts), a part of the
    event stream format of section 9.2.6 of the WHATWG HTML Standard. The decoder's output is given as
    text chunks and JSON parsing as a partial function. */
module SseReader {
  import opened Common
  import opened ExcludeLists
  import opened Splitting

  // ---- what a stretch of text yields ---------------------------------------------------

  /** The payload of a data line, unless it is empty or the end marker. */
  function LineData(line: string): Option<string> {
    if !StartsWith(line, "data: ") then None
    else
      var data := Trim(line[6..]);
      if data == "" || data == "[DONE]" then None else Some(data)
  }

  /** Which lines carry data, and what: those that start with the field name, a colon and a space, with what follows
      trimmed, unless that is nothing or the end marker. */
  lemma DataLines(line: string)
    ensures |line| >= 6 && line[..6] == "data: " ==>
              LineData(line) == if Trim(line[6..]) in ["", "[DONE]"] then None else Some(Trim(line[6..]))
    ensures |line| < 6 || line[..6] != "data: " ==> LineData(line) == None
  {}

  function LineYields<E>(line: string, parse: string -> Option<E>): seq<E> {
    match LineData(line)
    case None => []
    case Some(data) => match parse(data) case None => [] case Some(e) => [e]
  }

  function FlatMap<E>(texts: seq<string>, f: string -> seq<E>): seq<E> {
    if texts == [] then [] else FlatMap(texts[..|texts| - 1], f) + f(texts[|texts| - 1])
  }

  function LinesYield<E>(lines: seq<string>, parse: string -> Option<E>): seq<E> {
    FlatMap(lines, line => LineYields(line, parse))
  }

  /** The data lines of a text, parsed. */
  function Yields<E>(text: string, parse: string -> Option<E>): seq<E> {
    LinesYield(Split(LineBreak, text), parse)
  }

  function EventsYield<E>(events: seq<string>, parse: string -> Option<E>): seq<E> {
    FlatMap(events, event => Yields(event, parse))
  }

  // ---- the reader -------------------------------------------------------------------------

  function Concat(chunks: seq<string>): string {
    if chunks == [] then "" else Concat(chunks[..|chunks| - 1]) + chunks[|chunks| - 1]
  }

  /** All pieces but the unterminated last one. */
  function Complete(text: string): seq<string> {
    Split(BlankLine, text)[..|Split(BlankLine, text)| - 1]
  }

  function Tail(text: string): string {
    Split(BlankLine, text)[|Split(BlankLine, text)| - 1]
  }

  lemma {:induction false} FlatMapConcat<E>(a: seq<string>, b: seq<string>, f: string -> seq<E>)
    ensures FlatMap(a + b, f) == FlatMap(a, f) + FlatMap(b, f)
  {
    if b == [] {
      assert a + b == a;
    } else {
      assert (a + b)[..|a + b| - 1] == a + b[..|b| - 1];
      FlatMapConcat(a, b[..|b| - 1], f);
    }
  }

  lemma FlatMapOne<E>(x: string, f: string -> seq<E>)
    ensures FlatMap([x], f) == f(x)
  {
    assert [x][..0] == [];
  }

  lemma FlatMapTake<E>(texts: seq<string>, k: nat, f: string -> seq<E>)
    requires k < |texts|
    ensures FlatMap(texts[..k + 1], f) == FlatMap(texts[..k], f) + f(texts[k])
  {
    assert texts[..k + 1][..k] == texts[..k];
  }

  lemma LinesConcat<E>(a: seq<string>, b: seq<string>, parse: string -> Option<E>)
    ensures LinesYield(a + b, parse) == LinesYield(a, parse) + LinesYield(b, parse)
  {
    FlatMapConcat(a, b, line => LineYields(line, parse));
  }

  lemma EventsConcat<E>(a: seq<string>, b: seq<string>, parse: string -> Option<E>)
    ensures EventsYield(a + b, parse) == EventsYield(a, parse) + EventsYield(b, parse)
  {
    FlatMapConcat(a, b, event => Yields(event, parse));
  }

  lemma EventsOne<E>(x: string, parse: string -> Option<E>)
    ensures EventsYield([x], parse) == Yields(x, parse)
  {
    FlatMapOne(x, event => Yields(event, parse));
  }

  lemma LinesOne<E>(x: string, parse: string -> Option<E>)
    ensures LinesYield([x], parse) == LineYields(x, parse)
  {
    FlatMapOne(x, line => LineYields(line, parse));
  }

  lemma LinesTake<E>(lines: seq<string>, k: nat, parse: string -> Option<E>)
    requires k < |lines|
    ensures LinesYield(lines[..k + 1], parse) == LinesYield(lines[..k], parse) + LineYields(lines[k], parse)
  {
    FlatMapTake(lines, k, line => LineYields(line, parse));
  }

  lemma EventsTake<E>(events: seq<string>, k: nat, parse: string -> Option<E>)
    requires k < |events|
    ensures EventsYield(events[..k + 1], parse) == EventsYield(events[..k], parse) + Yields(events[k], parse)
  {
    FlatMapTake(events, k, event => Yields(event, parse));
  }

  /** One more chunk completes exactly the events cut from the old tail with the chunk appended. */
  lemma ChunkArrives<E>(text: string, chunk: string, parse: string -> Option<E>)
    ensures Tail(text + chunk) == Tail(Tail(text) + chunk)
    ensures Complete(text + chunk) == Complete(text) + Complete(Tail(text) + chunk)
    ensures EventsYield(Complete(text + chunk), parse)
            == EventsYield(Complete(text), parse) + EventsYield(Complete(Tail(text) + chunk), parse)
  {
    SplitGrows(BlankLine, text, chunk);
    var more := Split(BlankLine, Tail(text) + chunk);
    assert Split(BlankLine, text + chunk) == Complete(text) + more;
    assert Complete(text + chunk) == Complete(text) + more[..|more| - 1];
    EventsConcat(Complete(text), Complete(Tail(text) + chunk), parse);
  }

  /** What the loop has yielded and what it holds back after the chunks, one chunk at a time. */
  function Feed<E>(chunks: seq<string>, parse: string -> Option<E>): (seq<E>, string) {
    if chunks == [] then ([], "")
    else
      var (out, buffer) := Feed(chunks[..|chunks| - 1], parse);
      var text := buffer + chunks[|chunks| - 1];
      (out + EventsYield(Complete(text), parse), Tail(text))
  }

  /** Fed piecemeal, the reader yields what cutting the whole text once yields, without its
      unterminated tail, which it holds back. */
  lemma {:induction false} FeedReadsWhole<E>(chunks: seq<string>, parse: string -> Option<E>)
    ensures Feed(chunks, parse) == (EventsYield(Complete(Concat(chunks)), parse), Tail(Concat(chunks)))
  {
    if chunks == [] {
      assert Split(BlankLine, "") == [""];
    } else {
      FeedReadsWhole(chunks[..|chunks| - 1], parse);
      ChunkArrives(Concat(chunks[..|chunks| - 1]), chunks[|chunks| - 1], parse);
    }
  }

  /** Two ways of cutting the same text yield the same events and leave the same tail. */
  lemma {:induction false} ChunksDoNotMatter<E>(chunks: seq<string>, chunks': seq<string>, parse: string -> Option<E>)
    requires Concat(chunks) == Concat(chunks')
    ensures Feed(chunks, parse) == Feed(chunks', parse)
  {
    FeedReadsWhole(chunks, parse);
    FeedReadsWhole(chunks', parse);
  }

  /** Reads the chunks, cutting complete events off the buffer as they arrive. */
  method StreamChatTurn<E>(chunks: seq<string>, parse: string -> Option<E>) returns (out: seq<E>, buffer: string)
    ensures (out, buffer) == Feed(chunks, parse)
    ensures out == EventsYield(Complete(Concat(chunks)), parse)
    ensures buffer == Tail(Concat(chunks))
  {
    out, buffer := [], "";
    var i := 0;
    while i < |chunks|
      invariant 0 <= i <= |chunks|
      invariant (out, buffer) == Feed(chunks[..i], parse)
    {
      assert chunks[..i + 1][..i] == chunks[..i];
      buffer := buffer + chunks[i];
      var events := Split(BlankLine, buffer);
      buffer := events[|events| - 1];
      events := events[..|events| - 1];
      out := YieldEvents(events, parse, out);
      i := i + 1;
    }
    assert chunks[..|chunks|] == chunks;
    FeedReadsWhole(chunks, parse);
  }

  lemma AppendAssociates<E>(a: seq<E>, b: seq<E>, c: seq<E>)
    ensures a + b + c == a + (b + c)
  {}

  method YieldEvents<E>(events: seq<string>, parse: string -> Option<E>, sofar: seq<E>) returns (out: seq<E>)
    ensures out == sofar + EventsYield(events, parse)
  {
    out := sofar;
    for k := 0 to |events|
      invariant out == sofar + EventsYield(events[..k], parse)
    {
      EventsTake(events, k, parse);
      AppendAssociates(sofar, EventsYield(events[..k], parse), Yields(events[k], parse));
      out := YieldLines(Split(LineBreak, events[k]), parse, out);
    }
    assert events[..|events|] == events;
  }

  method YieldLines<E>(lines: seq<string>, parse: string -> Option<E>, sofar: seq<E>) returns (out: seq<E>)
    ensures out == sofar + LinesYield(lines, parse)
  {
    out := sofar;
    for j := 0 to |lines|
      invariant out == sofar + LinesYield(lines[..j], parse)
    {
      LinesTake(lines, j, parse);
      if !StartsWith(lines[j], "data: ") {
        continue;
      }
      var data := Trim(lines[j][6..]);
      if data == "" || data == "[DONE]" {
        continue;
      }
      var event := parse(data);
      if event.None? {
        continue;
      }
      out := out + [event.value];
    }
    assert lines[..|lines|] == lines;
  }

  // ---- the reference: data lines of the whole text -----------------------------------------

  function NonBlank(lines: seq<string>): seq<string> {
    if lines == [] then []
    else (if lines[0] == "" then [] else [lines[0]]) + NonBlank(lines[1..])
  }

  /** The non-blank lines of all events, in order. */
  function EventLines(events: seq<string>): seq<string> {
    if events == [] then [] else NonBlank(Split(LineBreak, events[0])) + EventLines(events[1..])
  }

  lemma {:induction false} NonBlankConcat(a: seq<string>, b: seq<string>)
    ensures NonBlank(a + b) == NonBlank(a) + NonBlank(b)
  {
    if a == [] {
      assert a + b == b;
    } else {
      assert (a + b)[1..] == a[1..] + b;
      NonBlankConcat(a[1..], b);
    }
  }

  /** Blank lines yield nothing. */
  lemma {:induction false} NonBlankYields<E>(lines: seq<string>, parse: string -> Option<E>)
    ensures LinesYield(NonBlank(lines), parse) == LinesYield(lines, parse)
  {
    if lines != [] {
      var x, rest := lines[0], lines[1..];
      NonBlankYields(rest, parse);
      assert lines == [x] + rest;
      LinesConcat([x], rest, parse);
      LinesOne(x, parse);
      LinesConcat(if x == "" then [] else [x], NonBlank(rest), parse);
      if x == "" {
        assert LineYields(x, parse) == [];
      }
    }
  }

  lemma {:induction false} EventLinesYield<E>(events: seq<string>, parse: string -> Option<E>)
    ensures LinesYield(EventLines(events), parse) == EventsYield(events, parse)
  {
    if events != [] {
      var x, rest := events[0], events[1..];
      EventLinesYield(rest, parse);
      assert events == [x] + rest;
      EventsConcat([x], rest, parse);
      EventsOne(x, parse);
      NonBlankYields(Split(LineBreak, x), parse);
      LinesConcat(NonBlank(Split(LineBreak, x)), EventLines(rest), parse);
    }
  }

  /** The first line of the text is the first line of its first event, and the other non-blank lines
      are those of the first event's rest and of the later events. */
  ghost predicate Aligned(s: string) {
    var events, lines := Split(BlankLine, s), Split(LineBreak, s);
    var first := Split(LineBreak, events[0]);
    first[0] == lines[0] && NonBlank(first[1..]) + EventLines(events[1..]) == NonBlank(lines[1..])
  }

  lemma {:induction false} EventsAlign(s: string)
    ensures Aligned(s)
    decreases |s|
  {
    if s == "" {
      assert Split(BlankLine, s) == [""] && Split(LineBreak, s) == [""];
    } else if Length(BlankLine, s) > 0 {
      EventsAlign(s[Length(BlankLine, s)..]);
      AlignBlank(s);
    } else if Length(LineBreak, s) > 0 {
      EventsAlign(s[Length(LineBreak, s)..]);
      AlignBreak(s);
    } else {
      EventsAlign(s[1..]);
      AlignChar(s);
    }
  }

  lemma {:induction false} AlignedLines(s: string)
    requires Aligned(s)
    ensures EventLines(Split(BlankLine, s)) == NonBlank(Split(LineBreak, s))
  {
    var events := Split(BlankLine, s);
    SameFirstLine(Split(LineBreak, events[0]), Split(LineBreak, s), EventLines(events[1..]));
  }

  lemma {:induction false} SameFirstLine(first: seq<string>, lines: seq<string>, more: seq<string>)
    requires |first| > 0 && |lines| > 0 && first[0] == lines[0]
    requires NonBlank(first[1..]) + more == NonBlank(lines[1..])
    ensures NonBlank(first) + more == NonBlank(lines)
  {
    var x := if first[0] == "" then [] else [first[0]];
    AppendAssociates(x, NonBlank(first[1..]), more);
  }

  lemma AlignBlank(s: string)
    requires Length(BlankLine, s) > 0 && Aligned(s[Length(BlankLine, s)..])
    ensures Aligned(s)
  {
    var a := BreakLength(s);
    var b := BreakLength(s[a..]);
    var rest := s[a + b..];
    assert s[a..][b..] == rest;
    SplitSeparator(BlankLine, s);
    SplitSeparator(LineBreak, s);
    SplitSeparator(LineBreak, s[a..]);
    var lines := Split(LineBreak, rest);
    assert Split(LineBreak, s) == [""] + ([""] + lines);
    assert Split(LineBreak, "") == [""];
    AlignedLines(rest);
    assert Split(LineBreak, s)[1..] == [""] + lines;
    NonBlankConcat([""], lines);
    assert NonBlank([""]) == [];
    assert Split(BlankLine, s)[1..] == Split(BlankLine, rest);
  }

  /** The break that is not part of a blank line stays inside the first event. */
  lemma {:induction false} BreakInEvent(s: string)
    requires Length(BlankLine, s) == 0 && Length(LineBreak, s) > 0
    ensures var n := Length(LineBreak, s);
            var qs := Split(BlankLine, s[n..]);
            Split(BlankLine, s) == [s[..n] + qs[0]] + qs[1..]
  {
    SplitChar(BlankLine, s);
    if Length(LineBreak, s) == 2 {
      NoBlankInside(s);
      SplitChar(BlankLine, s[1..]);
      assert s[1..][0] == s[1] && s[1..][1..] == s[2..];
      TwoChars(s, Split(BlankLine, s[2..]));
    } else {
      assert s[..1] == [s[0]];
    }
  }

  lemma NoBlankInside(s: string)
    requires Length(BlankLine, s) == 0 && Length(LineBreak, s) == 2
    ensures Length(BlankLine, s[1..]) == 0
  {
    var t := s[1..];
    BlankLength(s);
    BlankLength(t);
    assert t[0] == s[1] && (|t| > 1 ==> t[1] == s[2]) && (|t| > 2 ==> t[2] == s[3]);
  }

  lemma TwoChars(s: string, qs: seq<string>)
    requires |s| > 1 && |qs| > 0
    ensures var rs := [[s[1]] + qs[0]] + qs[1..];
            [[s[0]] + rs[0]] + rs[1..] == [s[..2] + qs[0]] + qs[1..]
  {
    assert [s[0]] + ([s[1]] + qs[0]) == s[..2] + qs[0];
    assert ([[s[1]] + qs[0]] + qs[1..])[1..] == qs[1..];
  }

  lemma AlignBreak(s: string)
    requires Length(BlankLine, s) == 0 && Length(LineBreak, s) > 0 && Aligned(s[Length(LineBreak, s)..])
    ensures Aligned(s)
  {
    var n := Length(LineBreak, s);
    var rest := s[n..];
    var qs, lines := Split(BlankLine, rest), Split(LineBreak, rest);
    BreakInEvent(s);
    SplitSeparator(LineBreak, s);
    PrefixLength(LineBreak, s[..n], qs[0]);
    assert Length(LineBreak, s[..n]) == n;
    SplitSeparator(LineBreak, s[..n] + qs[0]);
    assert (s[..n] + qs[0])[n..] == qs[0];
    var first := Split(LineBreak, qs[0]);
    assert Split(LineBreak, s[..n] + qs[0]) == [""] + first;
    AlignedLines(rest);
    assert ([""] + first)[1..] == first && ([""] + lines)[1..] == lines;
    assert qs == [qs[0]] + qs[1..];
    assert Split(BlankLine, s)[1..] == qs[1..];
  }

  lemma AlignChar(s: string)
    requires s != "" && Length(LineBreak, s) == 0 && Aligned(s[1..])
    ensures Aligned(s)
  {
    var c, rest := s[0], s[1..];
    var qs, lines := Split(BlankLine, rest), Split(LineBreak, rest);
    var first := Split(LineBreak, qs[0]);
    SplitChar(BlankLine, s);
    SplitChar(LineBreak, s);
    FirstPieceIsPrefix(BlankLine, rest);
    var event := [c] + qs[0];
    assert event[1..] == qs[0];
    assert |qs[0]| > 0 ==> event[1] == s[1];
    assert Length(LineBreak, event) == 0;
    SplitChar(LineBreak, event);
    assert ([[c] + first[0]] + first[1..])[1..] == first[1..];
    assert ([[c] + lines[0]] + lines[1..])[1..] == lines[1..];
    assert ([event] + qs[1..])[1..] == qs[1..];
  }

  /** Conservation: what has been yielded, followed by what the rest of the buffer would yield as
      lines, is what the data lines of the whole text so far yield. */
  lemma YieldedPlusBuffered<E>(text: string, parse: string -> Option<E>)
    ensures EventsYield(Complete(text), parse) + Yields(Tail(text), parse) == Yields(text, parse)
  {
    EventsMeanLines(text, parse);
    CompleteThenTail(Complete(text), Tail(text), parse);
    LastPiece(Split(BlankLine, text));
  }

  lemma LastPiece<T>(pieces: seq<T>)
    requires |pieces| > 0
    ensures pieces[..|pieces| - 1] + [pieces[|pieces| - 1]] == pieces
  {}

  lemma CompleteThenTail<E>(events: seq<string>, tail: string, parse: string -> Option<E>)
    ensures EventsYield(events + [tail], parse) == EventsYield(events, parse) + Yields(tail, parse)
  {
    EventsConcat(events, [tail], parse);
    EventsOne(tail, parse);
  }

  lemma {:induction false} EventsMeanLines<E>(text: string, parse: string -> Option<E>)
    ensures EventsYield(Split(BlankLine, text), parse) == Yields(text, parse)
  {
    EventsAlign(text);
    AlignedLines(text);
    NonBlankYields(Split(LineBreak, text), parse);
    EventLinesYield(Split(BlankLine, text), parse);
  }
}
