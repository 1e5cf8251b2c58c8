/**
 * The reader of control requests.  It hands on each line that fits the limit and skips any other,
 * resuming at the next newline; a skipped line that looks like a control request fails the session.
 */
module QuestionReader {
  import opened Framing

  const LIMIT: nat := 256 * 1024

  datatype Event = Handled(line: Bytes) | FailedOversized

  /** The line under way, whether its rest is being dropped, and what was done so far. */
  datatype Reader = Reader(line: Bytes, dropping: bool, events: seq<Event>)

  const FRESH := Reader([], false, [])

  /** `control` tells whether a line looks like a control request. */
  function Observe(r: Reader, control: Bytes -> bool, b: bv8): Reader {
    if b == NEWLINE then
      Reader([], false, if r.dropping then r.events else r.events + [Handled(r.line)])
    else if r.dropping then r
    else if |r.line| == LIMIT then
      Reader([], true, if control(r.line) then r.events + [FailedOversized] else r.events)
    else r.(line := r.line + [b])
  }

  function ObserveAll(r: Reader, control: Bytes -> bool, bytes: Bytes): Reader {
    if bytes == [] then r else Observe(ObserveAll(r, control, bytes[..|bytes| - 1]), control, bytes[|bytes| - 1])
  }

  // ---------------------------------------------------------------- what should happen

  function EventsOf(line: Bytes, control: Bytes -> bool): seq<Event> {
    if |line| <= 262_144 then [Handled(line)] else if control(line[..262_144]) then [FailedOversized] else []
  }

  function EventsOfAll(lines: seq<Bytes>, control: Bytes -> bool): seq<Event> {
    if lines == [] then [] else EventsOfAll(lines[..|lines| - 1], control) + EventsOf(lines[|lines| - 1], control)
  }

  /** A tail is not handled yet, but may already have grown too long. */
  function EventsOfTail(tail: Bytes, control: Bytes -> bool): seq<Event> {
    if |tail| <= 262_144 then [] else EventsOf(tail, control)
  }

  ghost predicate Matches(r: Reader, control: Bytes -> bool, stream: Bytes) {
    && r.events == EventsOfAll(Lines(stream), control) + EventsOfTail(Tail(stream), control)
    && r.dropping == (|Tail(stream)| > 262_144)
    && r.line == if |Tail(stream)| <= 262_144 then Tail(stream) else []
  }

  lemma NewlineEndsLine(before: Bytes)
    ensures Lines(before + [NEWLINE]) == Lines(before) + [Tail(before)] && Tail(before + [NEWLINE]) == []
  {
    assert (before + [NEWLINE])[..|before|] == before;
  }

  lemma EventsSnoc(lines: seq<Bytes>, line: Bytes, control: Bytes -> bool)
    ensures EventsOfAll(lines + [line], control) == EventsOfAll(lines, control) + EventsOf(line, control)
  {
    assert (lines + [line])[..|lines|] == lines;
  }

  lemma NewlineMatches(r: Reader, control: Bytes -> bool, before: Bytes, stream: Bytes)
    requires Matches(r, control, before) && stream == before + [NEWLINE]
    ensures Matches(Observe(r, control, NEWLINE), control, stream)
  {
    NewlineEndsLine(before);
    EventsSnoc(Lines(before), Tail(before), control);
  }

  lemma ByteMatches(r: Reader, control: Bytes -> bool, before: Bytes, b: bv8, stream: Bytes)
    requires Matches(r, control, before) && stream == before + [b] && b != NEWLINE
    ensures Matches(Observe(r, control, b), control, stream)
  {
    assert stream[..|stream| - 1] == before;
    var tail := Tail(before) + [b];
    if |tail| > LIMIT {
      assert tail[..LIMIT] == Tail(before)[..LIMIT];
    }
    if |Tail(before)| == LIMIT {
      assert Tail(before)[..LIMIT] == Tail(before);
    }
  }

  lemma StepMatches(r: Reader, control: Bytes -> bool, before: Bytes, b: bv8, stream: Bytes)
    requires Matches(r, control, before) && stream == before + [b]
    ensures Matches(Observe(r, control, b), control, stream)
  {
    if b == NEWLINE {
      NewlineMatches(r, control, before, stream);
    } else {
      ByteMatches(r, control, before, b, stream);
    }
  }

  /**
   * Whatever lines come between, the reader handles exactly the terminated lines within the limit,
   * in order, and fails once for each longer line that looks like a control request.
   */
  lemma {:induction false} ReaderResynchronises(control: Bytes -> bool, stream: Bytes)
    ensures Matches(ObserveAll(FRESH, control, stream), control, stream)
  {
    if stream != [] {
      var before, b := stream[..|stream| - 1], stream[|stream| - 1];
      ReaderResynchronises(control, before);
      assert stream == before + [b];
      StepMatches(ObserveAll(FRESH, control, before), control, before, b, stream);
    }
  }

  lemma {:induction false} ObserveConcat(r: Reader, control: Bytes -> bool, a: Bytes, b: Bytes)
    ensures ObserveAll(r, control, a + b) == ObserveAll(ObserveAll(r, control, a), control, b)
  {
    if b == [] {
      assert a + b == a;
    } else {
      assert (a + b)[..|a + b| - 1] == a + b[..|b| - 1];
      ObserveConcat(r, control, a, b[..|b| - 1]);
    }
  }

  function ObserveChunks(control: Bytes -> bool, chunks: seq<Bytes>): Reader {
    if chunks == [] then FRESH
    else ObserveAll(ObserveChunks(control, chunks[..|chunks| - 1]), control, chunks[|chunks| - 1])
  }

  /** The same for any split of the stream into reads. */
  lemma {:induction false} ReadsResynchronise(control: Bytes -> bool, chunks: seq<Bytes>)
    ensures Matches(ObserveChunks(control, chunks), control, Flatten(chunks))
  {
    ChunksAreOneStream(control, chunks);
    ReaderResynchronises(control, Flatten(chunks));
  }

  lemma {:induction false} ChunksAreOneStream(control: Bytes -> bool, chunks: seq<Bytes>)
    ensures ObserveChunks(control, chunks) == ObserveAll(FRESH, control, Flatten(chunks))
  {
    if chunks != [] {
      ChunksAreOneStream(control, chunks[..|chunks| - 1]);
      ObserveConcat(FRESH, control, Flatten(chunks[..|chunks| - 1]), chunks[|chunks| - 1]);
    }
  }

  class ClaudeQuestionReader {
    var line: Bytes
    var dropping: bool
    var events: seq<Event>

    ghost function View(): Reader
      reads this
    {
      Reader(line, dropping, events)
    }

    constructor ()
      ensures View() == FRESH
    {
      line, dropping, events := [], false, [];
    }

    method Read(control: Bytes -> bool, bytes: Bytes)
      modifies this
      ensures View() == ObserveAll(old(View()), control, bytes)
    {
      var i := 0;
      while i < |bytes|
        invariant i <= |bytes| && View() == ObserveAll(old(View()), control, bytes[..i])
      {
        assert bytes[..i + 1][..i] == bytes[..i];
        var b := bytes[i];
        if b == NEWLINE {
          if !dropping {
            events := events + [Handled(line)];
          }
          line := [];
          dropping := false;
        } else if !dropping {
          if |line| == LIMIT {
            if control(line) {
              events := events + [FailedOversized];
            }
            line := [];
            dropping := true;
          } else {
            line := line + [b];
          }
        }
        i := i + 1;
      }
      assert bytes[..i] == bytes;
    }
  }
}
