/**
 * A machine that observes a provider's lines behind a line framer.  Its output arrives in chunks;
 * the theorems say what difference the cut into chunks makes.
 */
module ChunkObserver {
  import opened Framing
  import opened Wrappers

  // ---------------------------------------------------------------- observing chunks

  /** A phase machine behind a line framer. */
  datatype Observer<P> = Observer(core: P, pending: Bytes, overflowed: bool)

  function HandleAll<P>(handle: (P, Bytes) -> P, core: P, lines: seq<Bytes>): P {
    if lines == [] then core else handle(HandleAll(handle, core, lines[..|lines| - 1]), lines[|lines| - 1])
  }

  /** One chunk: nothing once ended; too long a line fails the machine and loses the chunk's lines. */
  function ObserveChunk<P>(
      limit: nat, handle: (P, Bytes) -> P, ended: P -> bool, fail: P -> P, o: Observer<P>, bytes: Bytes): Observer<P>
  {
    if ended(o.core) then o
    else if o.overflowed then o.(core := fail(o.core))
    else
      match Frame(limit, o.pending, bytes)
      case None => Observer(fail(o.core), [], true)
      case Some(f) => Observer(HandleAll(handle, o.core, f.lines), f.pending, false)
  }

  function ObserveChunks<P>(
      limit: nat, handle: (P, Bytes) -> P, ended: P -> bool, fail: P -> P, o: Observer<P>, chunks: seq<Bytes>): Observer<P>
  {
    if chunks == [] then o
    else ObserveChunk(limit, handle, ended, fail, ObserveChunks(limit, handle, ended, fail, o, chunks[..|chunks| - 1]), chunks[|chunks| - 1])
  }

  /** Once ended, a machine ignores every line. */
  ghost predicate EndIsFinal<P(!new)>(handle: (P, Bytes) -> P, ended: P -> bool) {
    forall p, line :: ended(p) ==> handle(p, line) == p
  }

  lemma {:induction false} HandleConcat<P>(handle: (P, Bytes) -> P, core: P, a: seq<Bytes>, b: seq<Bytes>)
    ensures HandleAll(handle, core, a + b) == HandleAll(handle, HandleAll(handle, core, a), b)
  {
    if b == [] {
      assert a + b == a;
    } else {
      assert (a + b)[..|a + b| - 1] == a + b[..|b| - 1];
      HandleConcat(handle, core, a, b[..|b| - 1]);
    }
  }

  lemma {:induction false} HandleAfterEnd<P(!new)>(handle: (P, Bytes) -> P, ended: P -> bool, core: P, lines: seq<Bytes>)
    requires EndIsFinal(handle, ended) && ended(core)
    ensures HandleAll(handle, core, lines) == core
  {
    if lines != [] {
      HandleAfterEnd(handle, ended, core, lines[..|lines| - 1]);
    }
  }

  /** Where chunks lead while no line is too long: all lines so far handled, the tail pending. */
  lemma {:induction false} ChunksTrackStream<P(!new)>(
      limit: nat, handle: (P, Bytes) -> P, ended: P -> bool, fail: P -> P, o: Observer<P>, chunks: seq<Bytes>, f: Framed)
    requires EndIsFinal(handle, ended) && !o.overflowed
    requires Frame(limit, o.pending, Flatten(chunks)) == Some(f)
    ensures var r := ObserveChunks(limit, handle, ended, fail, o, chunks);
            r.core == HandleAll(handle, o.core, f.lines) && (!ended(r.core) ==> r.pending == f.pending && !r.overflowed)
  {
    if chunks != [] {
      var before, last := chunks[..|chunks| - 1], chunks[|chunks| - 1];
      FrameConcat(limit, o.pending, Flatten(before), last);
      var g := Frame(limit, o.pending, Flatten(before)).value;
      var h := Frame(limit, g.pending, last).value;
      ChunksTrackStream(limit, handle, ended, fail, o, before, g);
      HandleConcat(handle, o.core, g.lines, h.lines);
      var r := ObserveChunks(limit, handle, ended, fail, o, before);
      if ended(r.core) {
        HandleAfterEnd(handle, ended, r.core, h.lines);
      }
    }
  }

  /**
   * However a stream without oversized lines is cut into chunks, the machine ends up in the same
   * phase and outcome.
   */
  lemma ObservingIsChunkIndependent<P(!new)>(
      limit: nat, handle: (P, Bytes) -> P, ended: P -> bool, fail: P -> P, o: Observer<P>, chunks: seq<Bytes>)
    requires EndIsFinal(handle, ended) && !o.overflowed
    requires Frame(limit, o.pending, Flatten(chunks)).Some?
    ensures ObserveChunks(limit, handle, ended, fail, o, chunks).core == ObserveChunk(limit, handle, ended, fail, o, Flatten(chunks)).core
  {
    var f := Frame(limit, o.pending, Flatten(chunks)).value;
    ChunksTrackStream(limit, handle, ended, fail, o, chunks, f);
    if ended(o.core) {
      HandleAfterEnd(handle, ended, o.core, f.lines);
    }
  }

  // ---------------------------------------------------------------- chunks with an oversized line

  /** Failing ends a machine. */
  ghost predicate FailingEnds<P(!new)>(ended: P -> bool, fail: P -> P) {
    forall p :: ended(fail(p))
  }

  /** The number of chunks before the first one in which a line grows too long. */
  function FittingChunks(limit: nat, pending: Bytes, chunks: seq<Bytes>): (n: nat)
    ensures n <= |chunks| && Frame(limit, pending, Flatten(chunks[..n])).Some?
    ensures n < |chunks| ==> Frame(limit, pending, Flatten(chunks[..n + 1])).None?
  {
    assert chunks[..|chunks|] == chunks;
    if Frame(limit, pending, Flatten(chunks)).Some? then |chunks|
    else
      var before := chunks[..|chunks| - 1];
      var n := FittingChunks(limit, pending, before);
      assert before[..n] == chunks[..n] && (n < |before| ==> before[..n + 1] == chunks[..n + 1]);
      n
  }

  /** The lines completed in the chunks before that one: those a machine gets to see. */
  function SeenLines(limit: nat, pending: Bytes, chunks: seq<Bytes>): seq<Bytes> {
    Frame(limit, pending, Flatten(chunks[..FittingChunks(limit, pending, chunks)])).value.lines
  }

  /** The outcome once a line has grown too long, for a machine that stands at p by then. */
  function Failed<P>(ended: P -> bool, fail: P -> P, p: P): P {
    if ended(p) then p else fail(p)
  }

  /**
   * Where any chunks lead: the lines completed before the chunk with an oversized line are handled,
   * those in it are not, and a machine that has not ended by then fails.
   */
  lemma {:induction false} ChunksOutcome<P(!new)>(
      limit: nat, handle: (P, Bytes) -> P, ended: P -> bool, fail: P -> P, o: Observer<P>, chunks: seq<Bytes>)
    requires EndIsFinal(handle, ended) && FailingEnds(ended, fail) && !o.overflowed
    ensures var p := HandleAll(handle, o.core, SeenLines(limit, o.pending, chunks));
            ObserveChunks(limit, handle, ended, fail, o, chunks).core ==
            if Frame(limit, o.pending, Flatten(chunks)).Some? then p else Failed(ended, fail, p)
  {
    if Frame(limit, o.pending, Flatten(chunks)).Some? {
      assert chunks[..|chunks|] == chunks;
      ChunksTrackStream(limit, handle, ended, fail, o, chunks, Frame(limit, o.pending, Flatten(chunks)).value);
    } else {
      var before, last := chunks[..|chunks| - 1], chunks[|chunks| - 1];
      SeenBefore(limit, o.pending, chunks);
      ChunksOutcome(limit, handle, ended, fail, o, before);
      if Frame(limit, o.pending, Flatten(before)).Some? {
        var f := Frame(limit, o.pending, Flatten(before)).value;
        assert before[..|before|] == before;
        ChunksTrackStream(limit, handle, ended, fail, o, before, f);
        FrameConcat(limit, o.pending, Flatten(before), last);
      }
    }
  }

  lemma SeenBefore(limit: nat, pending: Bytes, chunks: seq<Bytes>)
    requires Frame(limit, pending, Flatten(chunks)).None?
    ensures chunks != [] && SeenLines(limit, pending, chunks) == SeenLines(limit, pending, chunks[..|chunks| - 1])
  {
    var n := FittingChunks(limit, pending, chunks);
    assert chunks[..|chunks| - 1][..n] == chunks[..n];
  }

  /** In one chunk with an oversized line nothing is seen. */
  lemma OneChunkOutcome<P>(limit: nat, handle: (P, Bytes) -> P, ended: P -> bool, fail: P -> P, o: Observer<P>, bytes: Bytes)
    requires !o.overflowed && Frame(limit, o.pending, bytes).None?
    ensures ObserveChunk(limit, handle, ended, fail, o, bytes).core == Failed(ended, fail, o.core)
  {
  }

  /**
   * The exact condition: cutting the stream makes no difference when no line is oversized, or when
   * the lines completed before the chunk with the oversized line make none to the failed machine.
   */
  lemma CutMakesNoDifferenceIff<P(!new)>(
      limit: nat, handle: (P, Bytes) -> P, ended: P -> bool, fail: P -> P, o: Observer<P>, chunks: seq<Bytes>)
    requires EndIsFinal(handle, ended) && FailingEnds(ended, fail) && !o.overflowed
    ensures ObserveChunks(limit, handle, ended, fail, o, chunks).core == ObserveChunk(limit, handle, ended, fail, o, Flatten(chunks)).core
            <==>
            || Frame(limit, o.pending, Flatten(chunks)).Some?
            || Failed(ended, fail, HandleAll(handle, o.core, SeenLines(limit, o.pending, chunks))) == Failed(ended, fail, o.core)
  {
    if Frame(limit, o.pending, Flatten(chunks)).Some? {
      ObservingIsChunkIndependent(limit, handle, ended, fail, o, chunks);
    } else {
      ChunksOutcome(limit, handle, ended, fail, o, chunks);
      OneChunkOutcome(limit, handle, ended, fail, o, Flatten(chunks));
    }
  }
}
