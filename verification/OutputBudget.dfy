/**
 * The output budget that the readers of a login shell's streams share.  Each reader adds what it
 * read to one atomic counter and keeps only the part of it that is still within the budget.
 */
module OutputBudget {
  const LIMIT: nat := 65536
  const BUFFER: nat := 4096

  type Bytes = seq<bv8>

  function Min(a: nat, b: nat): nat { if a <= b then a else b }

  /** How much of a read of this size is kept, given the counter before it. */
  function Accepted(claimed: nat, read: nat): nat {
    Min(if LIMIT + 1 >= claimed then LIMIT + 1 - claimed else 0, read)
  }

  predicate Stops(claimed: nat, read: nat) { claimed + read > LIMIT }

  /** What a reader outputs for its reads and the counter values it was given; and whether it stopped. */
  function Drain(chunks: seq<Bytes>, claims: seq<nat>): (Bytes, bool)
    requires |chunks| == |claims|
  {
    if chunks == [] then ([], false)
    else
      var last := |chunks| - 1;
      var (output, stopped) := Drain(chunks[..last], claims[..last]);
      if stopped then (output, true)
      else (output + chunks[last][..Accepted(claims[last], |chunks[last]|)], Stops(claims[last], |chunks[last]|))
  }

  /** The reader's loop; `claims` are the values fetch_add returns to it. */
  method ReadAll(chunks: seq<Bytes>, claims: seq<nat>) returns (output: Bytes)
    requires |chunks| == |claims|
    ensures output == Drain(chunks, claims).0
  {
    output := [];
    var i := 0;
    while i < |chunks|
      invariant i <= |chunks|
      invariant (output, false) == Drain(chunks[..i], claims[..i])
    {
      assert chunks[..i + 1][..i] == chunks[..i] && claims[..i + 1][..i] == claims[..i];
      var read := |chunks[i]|;
      output := output + chunks[i][..Accepted(claims[i], read)];
      i := i + 1;
      if claims[i - 1] + read > LIMIT {
        DrainStopped(chunks, claims, i, output);
        return;
      }
    }
    assert chunks[..i] == chunks && claims[..i] == claims;
  }

  lemma {:induction false} DrainStopped(chunks: seq<Bytes>, claims: seq<nat>, i: nat, output: Bytes)
    requires |chunks| == |claims| && i <= |chunks|
    requires Drain(chunks[..i], claims[..i]) == (output, true)
    ensures Drain(chunks, claims) == (output, true)
    decreases |chunks|
  {
    if i == |chunks| {
      assert chunks[..i] == chunks && claims[..i] == claims;
    } else {
      var last := |chunks| - 1;
      assert chunks[..last][..i] == chunks[..i] && claims[..last][..i] == claims[..i];
      DrainStopped(chunks[..last], claims[..last], i, output);
    }
  }

  // ---------------------------------------------------------------- any number of readers

  /**
   * One reader: what it read so far and the counter values it got, and what it has kept.  While
   * `holding`, the last read has been claimed but not yet appended.
   */
  datatype Reader = Reader(chunks: seq<Bytes>, claims: seq<nat>, holding: bool, kept: Bytes, ended: bool)

  datatype System = System(counter: nat, readers: seq<Reader>)

  datatype Action =
    | Claim(reader: nat, chunk: Bytes)
    | Keep(reader: nat)
    | EndOfStream(reader: nat)

  const FRESH := Reader([], [], false, [], false)

  function Start(readers: nat): System {
    System(0, seq(readers, i => FRESH))
  }

  predicate Ready(s: System, i: nat) {
    i < |s.readers| && !s.readers[i].holding && !s.readers[i].ended
  }

  function Claimed(r: Reader, chunk: Bytes, counter: nat): Reader {
    r.(chunks := r.chunks + [chunk], claims := r.claims + [counter], holding := true)
  }

  function Appended(r: Reader): Reader
    requires 0 < |r.chunks| == |r.claims|
  {
    var chunk, claim := r.chunks[|r.chunks| - 1], r.claims[|r.claims| - 1];
    r.(kept := r.kept + chunk[..Accepted(claim, |chunk|)], holding := false, ended := Stops(claim, |chunk|))
  }

  function Step(s: System, a: Action): System {
    match a
    case Claim(i, chunk) =>
      if Ready(s, i) && 0 < |chunk| <= BUFFER then
        System(s.counter + |chunk|, s.readers[i := Claimed(s.readers[i], chunk, s.counter)])
      else s
    case Keep(i) =>
      if i < |s.readers| && s.readers[i].holding && 0 < |s.readers[i].chunks| == |s.readers[i].claims| then
        s.(readers := s.readers[i := Appended(s.readers[i])])
      else s
    case EndOfStream(i) =>
      if Ready(s, i) then s.(readers := s.readers[i := s.readers[i].(ended := true)]) else s
  }

  function Run(readers: nat, actions: seq<Action>): System {
    if actions == [] then Start(readers)
    else Step(Run(readers, actions[..|actions| - 1]), actions[|actions| - 1])
  }

  // ---------------------------------------------------------------- sums over readers

  function Sum(readers: seq<Reader>, f: Reader -> nat): nat {
    if readers == [] then 0 else Sum(readers[..|readers| - 1], f) + f(readers[|readers| - 1])
  }

  lemma {:induction false} SumUpdate(readers: seq<Reader>, i: nat, r: Reader, f: Reader -> nat)
    requires i < |readers|
    ensures Sum(readers[i := r], f) + f(readers[i]) == Sum(readers, f) + f(r)
  {
    var last := |readers| - 1;
    if i == last {
      assert readers[i := r][..last] == readers[..last];
    } else {
      assert readers[i := r][..last] == readers[..last][i := r];
      SumUpdate(readers[..last], i, r, f);
    }
  }

  lemma {:induction false} SumOfFresh(readers: seq<Reader>, f: Reader -> nat)
    requires f(FRESH) == 0 && forall i :: 0 <= i < |readers| ==> readers[i] == FRESH
    ensures Sum(readers, f) == 0
  {
    if readers != [] {
      SumOfFresh(readers[..|readers| - 1], f);
    }
  }

  lemma {:induction false} SumOfEqual(readers: seq<Reader>, f: Reader -> nat, g: Reader -> nat)
    requires forall i :: 0 <= i < |readers| ==> f(readers[i]) == g(readers[i])
    ensures Sum(readers, f) == Sum(readers, g)
  {
    if readers != [] {
      SumOfEqual(readers[..|readers| - 1], f, g);
    }
  }

  lemma {:induction false} SumAtMost(readers: seq<Reader>, f: Reader -> nat)
    requires forall i :: 0 <= i < |readers| ==> f(readers[i]) <= 1
    ensures Sum(readers, f) <= |readers|
  {
    if readers != [] {
      SumAtMost(readers[..|readers| - 1], f);
    }
  }

  lemma {:induction false} SumZero(readers: seq<Reader>, f: Reader -> nat, i: nat)
    requires Sum(readers, f) == 0 && i < |readers|
    ensures f(readers[i]) == 0
  {
    if i < |readers| - 1 {
      SumZero(readers[..|readers| - 1], f, i);
    }
  }

  // ---------------------------------------------------------------- invariant

  function Flatten(chunks: seq<Bytes>): Bytes {
    if chunks == [] then [] else Flatten(chunks[..|chunks| - 1]) + chunks[|chunks| - 1]
  }

  /** The reader's last read went past the limit. */
  predicate Over(r: Reader) {
    0 < |r.chunks| == |r.claims| && Stops(r.claims[|r.claims| - 1], |r.chunks[|r.chunks| - 1]|)
  }

  function ReadBy(r: Reader): nat { |Flatten(r.chunks)| }

  /** What the reader has kept or is about to append. */
  function KeptBy(r: Reader): nat {
    |r.kept| + if r.holding && 0 < |r.chunks| == |r.claims| then Accepted(r.claims[|r.claims| - 1], |r.chunks[|r.chunks| - 1]|) else 0
  }

  function OverBy(r: Reader): nat { if Over(r) then 1 else 0 }

  predicate ReaderOk(r: Reader) {
    && |r.chunks| == |r.claims|
    && if r.holding then
         var last := |r.chunks| - 1;
         && r.chunks != [] && !r.ended
         && r.kept == Flatten(r.chunks[..last]) && Drain(r.chunks[..last], r.claims[..last]) == (r.kept, false)
       else
         && r.kept <= Flatten(r.chunks) && r.kept == Drain(r.chunks, r.claims).0
         && (Over(r) ==> r.ended)
         && (!Over(r) ==> r.kept == Flatten(r.chunks) && !Drain(r.chunks, r.claims).1)
  }

  ghost predicate Inv(s: System) {
    && (forall i :: 0 <= i < |s.readers| ==> ReaderOk(s.readers[i]))
    && Sum(s.readers, ReadBy) == s.counter
    && Sum(s.readers, KeptBy) == Min(s.counter, LIMIT + 1)
    && s.counter <= LIMIT + BUFFER * Sum(s.readers, OverBy)
  }

  lemma ClaimKeepsReader(r: Reader, chunk: Bytes, counter: nat, next: Reader)
    requires ReaderOk(r) && !r.holding && !r.ended && next == Claimed(r, chunk, counter)
    ensures ReaderOk(next) && !Over(r)
    ensures ReadBy(next) == ReadBy(r) + |chunk|
    ensures KeptBy(next) == KeptBy(r) + Min(counter + |chunk|, LIMIT + 1) - Min(counter, LIMIT + 1)
    ensures OverBy(next) == if counter + |chunk| > LIMIT then 1 else 0
  {
    assert next.chunks[..|next.chunks| - 1] == r.chunks && next.claims[..|next.claims| - 1] == r.claims;
  }

  lemma KeepKeepsReader(r: Reader, next: Reader)
    requires ReaderOk(r) && r.holding && next == Appended(r)
    ensures ReaderOk(next)
    ensures ReadBy(next) == ReadBy(r) && KeptBy(next) == KeptBy(r) && OverBy(next) == OverBy(r)
  {
    var chunk := r.chunks[|r.chunks| - 1];
    var accepted := Accepted(r.claims[|r.claims| - 1], |chunk|);
    assert Flatten(r.chunks) == r.kept + chunk;
    if !Over(r) {
      assert chunk[..accepted] == chunk;
    }
  }

  lemma UpdateKeepsReaders(s: System, i: nat, r: Reader, next: seq<Reader>)
    requires Inv(s) && i < |s.readers| && ReaderOk(r) && next == s.readers[i := r]
    ensures forall k :: 0 <= k < |next| ==> ReaderOk(next[k])
    ensures Sum(next, ReadBy) + ReadBy(s.readers[i]) == s.counter + ReadBy(r)
    ensures Sum(next, KeptBy) + KeptBy(s.readers[i]) == Min(s.counter, LIMIT + 1) + KeptBy(r)
    ensures Sum(next, OverBy) + OverBy(s.readers[i]) == Sum(s.readers, OverBy) + OverBy(r)
  {
    SumUpdate(s.readers, i, r, ReadBy);
    SumUpdate(s.readers, i, r, KeptBy);
    SumUpdate(s.readers, i, r, OverBy);
  }

  lemma StepKeepsInv(s: System, a: Action, next: System)
    requires Inv(s) && next == Step(s, a)
    ensures Inv(next)
  {
    match a
    case Claim(i, chunk) =>
      if Ready(s, i) && 0 < |chunk| <= BUFFER {
        assert ReaderOk(s.readers[i]);
        ClaimKeepsReader(s.readers[i], chunk, s.counter, next.readers[i]);
        UpdateKeepsReaders(s, i, next.readers[i], next.readers);
      }
    case Keep(i) =>
      if i < |s.readers| && s.readers[i].holding {
        assert ReaderOk(s.readers[i]);
        KeepKeepsReader(s.readers[i], next.readers[i]);
        UpdateKeepsReaders(s, i, next.readers[i], next.readers);
      }
    case EndOfStream(i) =>
      if Ready(s, i) {
        assert ReaderOk(s.readers[i]);
        UpdateKeepsReaders(s, i, next.readers[i], next.readers);
      }
  }

  lemma {:induction false} RunKeepsInv(readers: nat, actions: seq<Action>)
    ensures Inv(Run(readers, actions)) && |Run(readers, actions).readers| == readers
  {
    if actions == [] {
      SumOfFresh(Start(readers).readers, ReadBy);
      SumOfFresh(Start(readers).readers, KeptBy);
      SumOfFresh(Start(readers).readers, OverBy);
    } else {
      RunKeepsInv(readers, actions[..|actions| - 1]);
      StepKeepsInv(Run(readers, actions[..|actions| - 1]), actions[|actions| - 1], Run(readers, actions));
    }
  }

  // ---------------------------------------------------------------- what a reader does next

  /** At first nothing is read, and no reader has ended. */
  lemma ReadersBegin(readers: nat)
    ensures var s := Run(readers, []);
            s.counter == 0 && |s.readers| == readers && forall r :: r in s.readers ==> r == Reader([], [], false, [], false)
  {
  }

  /** A reader that is between reads and has not ended claims whatever it reads next. */
  lemma ReadsAreClaimed(readers: nat, actions: seq<Action>, i: nat, chunk: Bytes)
    requires i < |Run(readers, actions).readers| && 1 <= |chunk| <= 4_096
    requires !Run(readers, actions).readers[i].holding && !Run(readers, actions).readers[i].ended
    ensures var s, next := Run(readers, actions), Run(readers, actions + [Claim(i, chunk)]);
            && |next.readers| == |s.readers| && next.counter == s.counter + |chunk|
            && next.readers[i].chunks == s.readers[i].chunks + [chunk] && next.readers[i].holding
            && next.readers[i].claims == s.readers[i].claims + [s.counter] && next.readers[i].kept == s.readers[i].kept
  {
    assert (actions + [Claim(i, chunk)])[..|actions|] == actions;
  }

  /** What was claimed is kept as far as the limit and one byte more reach, and the reader ends exactly past the limit. */
  lemma ClaimsAreKept(readers: nat, actions: seq<Action>, i: nat)
    requires i < |Run(readers, actions).readers| && Run(readers, actions).readers[i].holding
    ensures var s, next := Run(readers, actions), Run(readers, actions + [Keep(i)]);
            var r := s.readers[i];
            && |r.chunks| == |r.claims| > 0 && |next.readers| == |s.readers| && next.counter == s.counter
            && var chunk, claim := r.chunks[|r.chunks| - 1], r.claims[|r.claims| - 1];
               && (next.readers[i].ended <==> claim + |chunk| > 65_536)
               && !next.readers[i].holding && next.readers[i].chunks == r.chunks
               && next.readers[i].kept ==
                  r.kept + if claim + |chunk| <= 65_537 then chunk else if claim < 65_537 then chunk[..65_537 - claim] else []
  {
    RunKeepsInv(readers, actions);
    assert (actions + [Keep(i)])[..|actions|] == actions;
    assert ReaderOk(Run(readers, actions).readers[i]);
  }

  /** The end of its stream ends a reader between reads. */
  lemma StreamsEnd(readers: nat, actions: seq<Action>, i: nat)
    requires i < |Run(readers, actions).readers| && !Run(readers, actions).readers[i].holding
    ensures var s, next := Run(readers, actions), Run(readers, actions + [EndOfStream(i)]);
            next == s.(readers := s.readers[i := s.readers[i].(ended := true)])
  {
    assert (actions + [EndOfStream(i)])[..|actions|] == actions;
  }

  // ---------------------------------------------------------------- main results

  function Length(r: Reader): nat { |r.kept| }

  predicate Joined(s: System) {
    forall i :: 0 <= i < |s.readers| ==> s.readers[i].ended
  }

  /**
   * Once every reader has ended, the outputs together are as long as all that was read, cut at one
   * byte more than the limit.
   */
  lemma KeptIsWhatFits(readers: nat, actions: seq<Action>)
    requires Joined(Run(readers, actions))
    ensures Sum(Run(readers, actions).readers, Length) == Min(Sum(Run(readers, actions).readers, ReadBy), 65_537)
  {
    var s := Run(readers, actions);
    RunKeepsInv(readers, actions);
    forall i | 0 <= i < |s.readers| ensures KeptBy(s.readers[i]) == Length(s.readers[i]) {
      assert ReaderOk(s.readers[i]);
    }
    SumOfEqual(s.readers, KeptBy, Length);
  }

  /** The final length test rejects exactly the runs that read more than the limit. */
  lemma TestRejectsExactlyTooMuch(readers: nat, actions: seq<Action>)
    requires Joined(Run(readers, actions))
    ensures Sum(Run(readers, actions).readers, Length) > 65_536 <==> Sum(Run(readers, actions).readers, ReadBy) > 65_536
  {
    KeptIsWhatFits(readers, actions);
  }

  /** At any time a reader's output is a prefix of its own stream, and is what its own loop computes. */
  lemma OutputsArePrefixes(readers: nat, actions: seq<Action>, i: nat)
    requires i < readers
    ensures |Run(readers, actions).readers| == readers
    ensures Run(readers, actions).readers[i].kept <= Flatten(Run(readers, actions).readers[i].chunks)
    ensures var r := Run(readers, actions).readers[i];
            |r.chunks| == |r.claims| && (!r.holding ==> r.kept == Drain(r.chunks, r.claims).0)
  {
    RunKeepsInv(readers, actions);
    assert ReaderOk(Run(readers, actions).readers[i]);
  }

  /** An accepted run lost nothing: every output is its whole stream. */
  lemma AcceptedOutputsAreComplete(readers: nat, actions: seq<Action>, i: nat)
    requires i < readers && Joined(Run(readers, actions))
    requires Sum(Run(readers, actions).readers, Length) <= 65_536
    ensures |Run(readers, actions).readers| == readers
    ensures Run(readers, actions).readers[i].kept == Flatten(Run(readers, actions).readers[i].chunks)
  {
    RunKeepsInv(readers, actions);
    KeptIsWhatFits(readers, actions);
    OutputsAreComplete(Run(readers, actions).readers, i);
  }

  lemma {:induction false} OutputsAreComplete(rs: seq<Reader>, i: nat)
    requires forall k :: 0 <= k < |rs| ==> ReaderOk(rs[k]) && !rs[k].holding
    requires Sum(rs, Length) >= Sum(rs, ReadBy) && i < |rs|
    ensures rs[i].kept == Flatten(rs[i].chunks)
  {
    var last := |rs| - 1;
    assert ReaderOk(rs[last]);
    OutputsNoLonger(rs[..last]);
    if i < last {
      OutputsAreComplete(rs[..last], i);
    }
  }

  lemma {:induction false} OutputsNoLonger(rs: seq<Reader>)
    requires forall k :: 0 <= k < |rs| ==> ReaderOk(rs[k]) && !rs[k].holding
    ensures Sum(rs, Length) <= Sum(rs, ReadBy)
  {
    if rs != [] {
      assert ReaderOk(rs[|rs| - 1]);
      OutputsNoLonger(rs[..|rs| - 1]);
    }
  }

  /** The counter passes the limit by at most one buffer for each reader, so it never wraps. */
  lemma CounterStaysBounded(readers: nat, actions: seq<Action>)
    ensures Run(readers, actions).counter <= 65_536 + 4_096 * readers
  {
    RunKeepsInv(readers, actions);
    SumAtMost(Run(readers, actions).readers, OverBy);
  }
}
