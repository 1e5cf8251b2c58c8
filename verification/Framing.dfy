/**
 * Line framing of a provider's output.  The bytes arrive in chunks of any size; lines longer than
 * a limit are refused.
 */
module Framing {
  import opened Wrappers

  type Bytes = seq<bv8>

  const NEWLINE: bv8 := 10

  // ---------------------------------------------------------------- lines of a stream

  /** The lines that end in a newline, without it. */
  function Lines(stream: Bytes): seq<Bytes> {
    if stream == [] then []
    else if stream[|stream| - 1] == NEWLINE then Lines(stream[..|stream| - 1]) + [Tail(stream[..|stream| - 1])]
    else Lines(stream[..|stream| - 1])
  }

  /** What follows the last newline. */
  function Tail(stream: Bytes): Bytes {
    if stream == [] || stream[|stream| - 1] == NEWLINE then []
    else Tail(stream[..|stream| - 1]) + [stream[|stream| - 1]]
  }

  /** Every line, complete or not, keeps to the limit. */
  predicate Fits(stream: Bytes, limit: nat) {
    |Tail(stream)| <= limit && forall i :: 0 <= i < |Lines(stream)| ==> |Lines(stream)[i]| <= limit
  }

  /** The lines, each ended again. */
  function Unlines(lines: seq<Bytes>): Bytes {
    if lines == [] then [] else Unlines(lines[..|lines| - 1]) + lines[|lines| - 1] + [NEWLINE]
  }

  /** Lines and tail are the stream cut at its newlines, and nothing else. */
  lemma {:induction false} LinesReassemble(stream: Bytes)
    ensures Unlines(Lines(stream)) + Tail(stream) == stream
    ensures NEWLINE !in Tail(stream) && forall line :: line in Lines(stream) ==> NEWLINE !in line
  {
    if stream != [] {
      var before, b := stream[..|stream| - 1], stream[|stream| - 1];
      LinesReassemble(before);
      assert stream == before + [b];
      if b == NEWLINE {
        var lines := Lines(before) + [Tail(before)];
        assert lines[..|lines| - 1] == Lines(before);
      }
    }
  }

  // ---------------------------------------------------------------- the framer

  datatype Framed = Framed(lines: seq<Bytes>, pending: Bytes)

  function FrameByte(limit: nat, f: Framed, b: bv8): Option<Framed> {
    if b == NEWLINE then Some(Framed(f.lines + [f.pending], []))
    else if |f.pending| + 1 > limit then None
    else Some(Framed(f.lines, f.pending + [b]))
  }

  /** What framing these bytes after pending ones gives, or nothing once a line is too long. */
  function Frame(limit: nat, pending: Bytes, bytes: Bytes): Option<Framed> {
    if bytes == [] then Some(Framed([], pending))
    else
      match Frame(limit, pending, bytes[..|bytes| - 1])
      case None => None
      case Some(f) => FrameByte(limit, f, bytes[|bytes| - 1])
  }

  /** First the one, then the other. */
  function After(f: Framed, g: Option<Framed>): Option<Framed> {
    if g.None? then None else Some(Framed(f.lines + g.value.lines, g.value.pending))
  }

  lemma AfterNothing(f: Framed, pending: Bytes)
    ensures After(f, Some(Framed([], pending))) == Some(Framed(f.lines, pending))
  {
    assert f.lines + [] == f.lines;
  }

  lemma AfterByte(limit: nat, f: Framed, g: Framed, b: bv8)
    ensures FrameByte(limit, Framed(f.lines + g.lines, g.pending), b) == After(f, FrameByte(limit, g, b))
  {
    if b == NEWLINE {
      assert f.lines + g.lines + [g.pending] == f.lines + (g.lines + [g.pending]);
    }
  }

  /** Framing in two parts is framing the whole. */
  lemma {:induction false} FrameConcat(limit: nat, pending: Bytes, a: Bytes, b: Bytes)
    ensures Frame(limit, pending, a + b) ==
            match Frame(limit, pending, a)
            case None => None
            case Some(f) => After(f, Frame(limit, f.pending, b))
  {
    if b == [] {
      assert a + b == a;
      if Frame(limit, pending, a).Some? {
        AfterNothing(Frame(limit, pending, a).value, Frame(limit, pending, a).value.pending);
      }
    } else {
      var before, last := b[..|b| - 1], b[|b| - 1];
      assert (a + b)[..|a + b| - 1] == a + before;
      FrameConcat(limit, pending, a, before);
      if Frame(limit, pending, a).Some? {
        var f := Frame(limit, pending, a).value;
        if Frame(limit, f.pending, before).Some? {
          AfterByte(limit, f, Frame(limit, f.pending, before).value, last);
        }
      }
    }
  }

  /** Framing from the start gives the lines of the stream, exactly when all of them fit. */
  lemma {:induction false} FrameIsLines(limit: nat, stream: Bytes)
    ensures Frame(limit, [], stream) == if Fits(stream, limit) then Some(Framed(Lines(stream), Tail(stream))) else None
  {
    if stream != [] {
      var before, b := stream[..|stream| - 1], stream[|stream| - 1];
      FrameIsLines(limit, before);
      if b == NEWLINE {
        forall i | 0 <= i < |Lines(stream)|
          ensures Lines(stream)[i] == if i < |Lines(before)| then Lines(before)[i] else Tail(before)
        {
        }
        assert Fits(stream, limit) <==> Fits(before, limit) by {
          FitsNewline(before, stream, limit);
        }
      }
    }
  }

  lemma FitsNewline(before: Bytes, stream: Bytes, limit: nat)
    requires stream == before + [NEWLINE]
    ensures Fits(stream, limit) <==> Fits(before, limit)
  {
    assert stream[..|stream| - 1] == before;
    var all := Lines(before) + [Tail(before)];
    assert Lines(stream) == all && Tail(stream) == [];
    assert all[|Lines(before)|] == Tail(before);
    assert forall i :: 0 <= i < |Lines(before)| ==> all[i] == Lines(before)[i];
  }

  /** Bytes without a newline extend the pending line, if there is room. */
  lemma {:induction false} FrameBody(limit: nat, pending: Bytes, body: Bytes)
    requires |pending| <= limit && forall i :: 0 <= i < |body| ==> body[i] != NEWLINE
    ensures Frame(limit, pending, body) == if |pending| + |body| <= limit then Some(Framed([], pending + body)) else None
  {
    if body == [] {
      assert pending + body == pending;
    } else {
      FrameBody(limit, pending, body[..|body| - 1]);
      assert pending + body == pending + body[..|body| - 1] + [body[|body| - 1]];
    }
  }

  /** One piece of a push: a body without newline, and the newline that may end it. */
  lemma FramePiece(limit: nat, start: Bytes, bytes: Bytes, at: nat, end: nat, f: Framed)
    requires at <= end <= |bytes| && Frame(limit, start, bytes[..at]) == Some(f) && |f.pending| <= limit
    requires forall i :: at <= i < end ==> bytes[i] != NEWLINE
    ensures var line := f.pending + bytes[at..end];
            if |line| > limit then Frame(limit, start, bytes) == None
            else
              && Frame(limit, start, bytes[..end]) == Some(Framed(f.lines, line))
              && (end < |bytes| && bytes[end] == NEWLINE ==>
                    Frame(limit, start, bytes[..end + 1]) == Some(Framed(f.lines + [line], [])))
  {
    var body := bytes[at..end];
    FrameBody(limit, f.pending, body);
    FrameConcat(limit, start, bytes[..at], body);
    assert bytes[..at] + body == bytes[..end];
    AfterNothing(f, f.pending + body);
    if |f.pending| + |body| > limit {
      FrameConcat(limit, start, bytes[..end], bytes[end..]);
      assert bytes[..end] + bytes[end..] == bytes;
    } else if end < |bytes| {
      assert bytes[..end + 1][..end] == bytes[..end];
    }
  }

  datatype Error = LineTooLong

  class BoundedLines {
    const limit: nat
    var pending: Bytes
    var overflowed: bool

    constructor (limit: nat)
      ensures this.limit == limit && pending == [] && !overflowed
    {
      this.limit := limit;
      pending, overflowed := [], false;
    }

    predicate Valid()
      reads this
    {
      |pending| <= limit
    }

    /** A push that overflows loses the lines it completed; after that every push fails. */
    method Push(bytes: Bytes) returns (result: Result<seq<Bytes>, Error>)
      requires Valid()
      modifies this
      ensures Valid()
      ensures old(overflowed) ==> result == Err(LineTooLong) && overflowed && pending == old(pending)
      ensures !old(overflowed) ==>
                match Frame(limit, old(pending), bytes)
                case None => result == Err(LineTooLong) && overflowed && pending == []
                case Some(f) => result == Ok(f.lines) && !overflowed && pending == f.pending
    {
      if overflowed {
        return Err(LineTooLong);
      }
      var lines: seq<Bytes> := [];
      var at := 0;
      while at < |bytes|
        invariant at <= |bytes| && Valid() && !overflowed
        invariant Frame(limit, old(pending), bytes[..at]) == Some(Framed(lines, pending))
      {
        var end := NextNewline(bytes, at);
        var body := bytes[at..end];
        FramePiece(limit, old(pending), bytes, at, end, Framed(lines, pending));
        if |pending| + |body| > limit {
          overflowed := true;
          pending := [];
          return Err(LineTooLong);
        }
        pending := pending + body;
        at := end;
        if end < |bytes| {
          lines := lines + [pending];
          pending := [];
          at := end + 1;
        }
      }
      assert bytes[..at] == bytes;
      result := Ok(lines);
    }
  }

  function NextNewline(bytes: Bytes, from: nat): (at: nat)
    requires from <= |bytes|
    ensures from <= at <= |bytes|
    ensures at < |bytes| ==> bytes[at] == NEWLINE
    ensures forall i :: from <= i < at ==> bytes[i] != NEWLINE
    decreases |bytes| - from
  {
    if from == |bytes| || bytes[from] == NEWLINE then from else NextNewline(bytes, from + 1)
  }

  // ---------------------------------------------------------------- any split into chunks

  function Flatten(chunks: seq<Bytes>): Bytes {
    if chunks == [] then [] else Flatten(chunks[..|chunks| - 1]) + chunks[|chunks| - 1]
  }

  /** The framer's state after pushes, and all the lines they returned; nothing once it overflowed. */
  function PushAll(limit: nat, chunks: seq<Bytes>): Option<Framed> {
    if chunks == [] then Some(Framed([], []))
    else
      match PushAll(limit, chunks[..|chunks| - 1])
      case None => None
      case Some(f) => After(f, Frame(limit, f.pending, chunks[|chunks| - 1]))
  }

  /**
   * Framing does not depend on the chunks: the pushes overflow exactly when some line of the whole
   * stream is too long, and otherwise return its lines and hold its tail.
   */
  lemma {:induction false} FramingIsChunkIndependent(limit: nat, chunks: seq<Bytes>)
    ensures PushAll(limit, chunks) ==
            if Fits(Flatten(chunks), limit) then Some(Framed(Lines(Flatten(chunks)), Tail(Flatten(chunks)))) else None
  {
    PushAllIsFrame(limit, chunks);
    FrameIsLines(limit, Flatten(chunks));
  }

  lemma {:induction false} PushAllIsFrame(limit: nat, chunks: seq<Bytes>)
    ensures PushAll(limit, chunks) == Frame(limit, [], Flatten(chunks))
  {
    if chunks != [] {
      PushAllIsFrame(limit, chunks[..|chunks| - 1]);
      FrameConcat(limit, [], Flatten(chunks[..|chunks| - 1]), chunks[|chunks| - 1]);
    }
  }
}
