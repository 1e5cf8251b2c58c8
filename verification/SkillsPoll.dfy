/**
 * Polling a Codex provider for its skills: the poll ends once the names have not changed for long
 * enough, or at a cap on time and number of polls, and fails when nothing was answered by then.
 */
module SkillsPoll {
  import opened ChunkObserver
  import opened Framing
  import opened Wrappers

  const POLL_INTERVAL: nat := 400
  const STABLE_FOR: nat := 2_000
  const POLL_CAP: nat := 6_000
  const MAX_POLLS: nat := 16

  datatype Failure = LineLimit | Handshake | Request | Catalog | NoResponse

  /** A parsed response: what it answers, and the skill names when the payload is valid. */
  datatype Reply = Reply(id: nat, isError: bool, hasResult: bool, names: Option<seq<string>>)

  datatype Poll = Poll(
    handshake: Option<nat>,
    nextId: nat,
    polls: nat,
    outstanding: Option<nat>,
    lastSent: Option<nat>,
    latest: Option<Reply>,
    names: seq<string>,
    stableSince: Option<nat>,
    failure: Option<Failure>,
    done: bool)

  datatype ProbeStep = Wait | Write(id: nat) | Done | Failed(failure: Failure)

  const NEW := Poll(None, 1, 0, None, None, None, [], None, None, false)

  function Since(now: nat, earlier: nat): nat { if now >= earlier then now - earlier else 0 }

  function Observe(p: Poll, r: Reply, now: nat): Poll {
    if p.done || p.failure.Some? then p
    else if r.id == 0 then
      if r.isError then p.(failure := Some(Handshake))
      else if r.hasResult && p.handshake.None? then p.(handshake := Some(now))
      else p
    else if p.outstanding != Some(r.id) then p
    else
      var answered := p.(outstanding := None);
      if r.isError then answered.(failure := Some(Request))
      else if r.names.None? then answered.(failure := Some(Catalog))
      else
        var changed := p.latest.None? || r.names.value != p.names;
        answered.(names := if changed then r.names.value else p.names,
                  stableSince := if changed then Some(now) else p.stableSince,
                  latest := Some(r))
  }

  function Overflow(p: Poll): Poll {
    if p.done || p.failure.Some? then p else p.(failure := Some(LineLimit))
  }

  predicate Capped(p: Poll, now: nat) {
    (p.handshake.Some? && Since(now, p.handshake.value) >= POLL_CAP) || p.polls >= MAX_POLLS
  }

  predicate IsStable(p: Poll, now: nat) {
    p.stableSince.Some? && Since(now, p.stableSince.value) >= STABLE_FOR
  }

  function Step(p: Poll, now: nat): (Poll, ProbeStep) {
    if p.failure.Some? then (p, Failed(p.failure.value))
    else if p.done then (p, Done)
    else if p.handshake.None? then (p, Wait)
    else if p.latest.Some? && (IsStable(p, now) || Capped(p, now)) then (p.(done := true), Done)
    else if Capped(p, now) then (p.(failure := Some(NoResponse)), Failed(NoResponse))
    else if p.outstanding.Some? || (p.lastSent.Some? && Since(now, p.lastSent.value) < POLL_INTERVAL) then (p, Wait)
    else
      (p.(nextId := p.nextId + 1, polls := p.polls + 1, outstanding := Some(p.nextId), lastSent := Some(now)),
       Write(p.nextId))
  }

  datatype Event = Replied(reply: Reply, now: nat) | Overflowed | Stepped(now: nat)

  datatype Accepted = Accepted(at: nat, reply: Reply, names: seq<string>)

  /** A poll with the times of its writes and the answers it accepted. */
  datatype Run = Run(poll: Poll, writes: seq<nat>, accepted: seq<Accepted>)

  predicate Accepts(p: Poll, r: Reply) {
    !p.done && p.failure.None? && r.id != 0 && p.outstanding == Some(r.id) && !r.isError && r.names.Some?
  }

  function Happen(r: Run, e: Event): Run {
    match e
    case Replied(reply, now) =>
      Run(Observe(r.poll, reply, now), r.writes,
          if Accepts(r.poll, reply) then r.accepted + [Accepted(now, reply, reply.names.value)] else r.accepted)
    case Overflowed => r.(poll := Overflow(r.poll))
    case Stepped(now) =>
      var (next, step) := Step(r.poll, now);
      Run(next, if step.Write? then r.writes + [now] else r.writes, r.accepted)
  }

  function RunAll(events: seq<Event>): Run {
    if events == [] then Run(NEW, [], []) else Happen(RunAll(events[..|events| - 1]), events[|events| - 1])
  }

  // ---------------------------------------------------------------- invariant

  ghost predicate WritesOk(r: Run) {
    && r.poll.polls == |r.writes| <= 16 && r.poll.nextId == |r.writes| + 1
    && (r.poll.outstanding.Some? ==> r.writes != [] && r.poll.outstanding.value == |r.writes|)
    && (r.poll.lastSent == if r.writes == [] then None else Some(r.writes[|r.writes| - 1]))
    && (forall i :: 0 < i < |r.writes| ==> r.writes[i] >= r.writes[i - 1] + 400)
  }

  /** While nothing failed, every poll but the one outstanding has been answered. */
  ghost predicate AnswersOk(r: Run) {
    r.poll.failure.None? ==> |r.accepted| + (if r.poll.outstanding.Some? then 1 else 0) == |r.writes|
  }

  /** From index k on the names were these, and k is where they began. */
  ghost predicate SameFrom(accepted: seq<Accepted>, k: nat, names: seq<string>) {
    && k < |accepted|
    && (forall i :: k <= i < |accepted| ==> accepted[i].names == names)
    && (k > 0 ==> accepted[k - 1].names != names)
  }

  ghost predicate StableOk(r: Run) {
    if r.accepted == [] then r.poll.latest.None? && r.poll.stableSince.None?
    else
      && r.poll.latest == Some(r.accepted[|r.accepted| - 1].reply) && r.poll.names == r.accepted[|r.accepted| - 1].names
      && exists k: nat :: SameFrom(r.accepted, k, r.poll.names) && r.poll.stableSince == Some(r.accepted[k].at)
  }

  ghost predicate Inv(r: Run) {
    WritesOk(r) && AnswersOk(r) && StableOk(r)
  }

  lemma SameGrows(accepted: seq<Accepted>, k: nat, a: Accepted)
    requires SameFrom(accepted, k, a.names)
    ensures SameFrom(accepted + [a], k, a.names) && (accepted + [a])[k] == accepted[k]
  {
  }

  lemma SameStarts(accepted: seq<Accepted>, a: Accepted)
    requires accepted == [] || accepted[|accepted| - 1].names != a.names
    ensures SameFrom(accepted + [a], |accepted|, a.names) && (accepted + [a])[|accepted|] == a
  {
  }

  lemma AcceptKeepsStable(r: Run, reply: Reply, now: nat, next: Run)
    requires StableOk(r) && Accepts(r.poll, reply) && next == Happen(r, Replied(reply, now))
    ensures StableOk(next)
  {
    var a := Accepted(now, reply, reply.names.value);
    if r.poll.latest.Some? && r.poll.names == a.names {
      var k: nat :| SameFrom(r.accepted, k, r.poll.names) && r.poll.stableSince == Some(r.accepted[k].at);
      SameGrows(r.accepted, k, a);
    } else {
      SameStarts(r.accepted, a);
    }
  }

  lemma ReplyKeepsInv(r: Run, reply: Reply, now: nat, next: Run)
    requires Inv(r) && next == Happen(r, Replied(reply, now))
    ensures Inv(next)
  {
    if Accepts(r.poll, reply) {
      AcceptKeepsStable(r, reply, now, next);
    }
  }

  lemma StepKeepsWrites(r: Run, now: nat, next: Run)
    requires WritesOk(r) && next == Happen(r, Stepped(now))
    ensures WritesOk(next)
  {
  }

  /** A step leaves the answers and what is known of them alone. */
  lemma StepKeepsAnswers(r: Run, now: nat, next: Run)
    requires next == Happen(r, Stepped(now))
    ensures next.accepted == r.accepted && next.poll.latest == r.poll.latest && next.poll.names == r.poll.names
    ensures next.poll.stableSince == r.poll.stableSince
    ensures AnswersOk(r) ==> AnswersOk(next)
  {
  }

  lemma StepKeepsInv(r: Run, now: nat, next: Run)
    requires Inv(r) && next == Happen(r, Stepped(now))
    ensures Inv(next)
  {
    StepKeepsWrites(r, now, next);
    StepKeepsAnswers(r, now, next);
  }

  lemma HappenKeepsInv(r: Run, e: Event, next: Run)
    requires Inv(r) && next == Happen(r, e)
    ensures Inv(next)
  {
    match e
    case Replied(reply, now) => ReplyKeepsInv(r, reply, now, next);
    case Overflowed =>
    case Stepped(now) => StepKeepsInv(r, now, next);
  }

  lemma {:induction false} RunKeepsInv(events: seq<Event>)
    ensures Inv(RunAll(events))
  {
    if events != [] {
      RunKeepsInv(events[..|events| - 1]);
      HappenKeepsInv(RunAll(events[..|events| - 1]), events[|events| - 1], RunAll(events));
    }
  }

  // ---------------------------------------------------------------- main results

  /** At most 16 polls, one at a time, spaced by the interval. */
  lemma PollingIsBounded(events: seq<Event>)
    ensures var r := RunAll(events);
            && |r.writes| <= 16
            && (r.poll.outstanding.Some? ==> r.poll.outstanding == Some(|r.writes|))
            && forall i :: 0 < i < |r.writes| ==> r.writes[i] >= r.writes[i - 1] + 400
  {
    RunKeepsInv(events);
  }

  /**
   * A poll gives up without a response exactly when the cap on time has passed with nothing
   * answered; the cap on the number of polls alone never causes it.
   */
  lemma GivesUpOnlyOnTime(events: seq<Event>, now: nat)
    requires RunAll(events).poll.failure.None? && !RunAll(events).poll.done
    ensures var r := RunAll(events);
            Step(r.poll, now).1 == Failed(NoResponse) <==>
            r.accepted == [] && r.poll.handshake.Some? && now >= r.poll.handshake.value + 6_000
  {
    RunKeepsInv(events);
  }

  /** The names have been the same in all answers since one that is old enough by now. */
  ghost predicate Unchanged(r: Run, now: nat) {
    r.accepted != [] && exists k: nat :: SameFrom(r.accepted, k, r.accepted[|r.accepted| - 1].names)
                                         && now >= r.accepted[k].at + 2_000
  }

  /** The cap on time or on polls is reached. */
  ghost predicate Spent(r: Run, now: nat) {
    r.poll.handshake.Some? && (now >= r.poll.handshake.value + 6_000 || |r.writes| == 16)
  }

  lemma StableIffUnchanged(r: Run, now: nat)
    requires StableOk(r)
    ensures r.accepted != [] && IsStable(r.poll, now) <==> Unchanged(r, now)
  {
    if r.accepted != [] {
      var k: nat :| SameFrom(r.accepted, k, r.poll.names) && r.poll.stableSince == Some(r.accepted[k].at);
      if j: nat :| SameFrom(r.accepted, j, r.poll.names) && now >= r.accepted[j].at + 2_000 {
        assert j == k;
      }
    }
  }

  /** A step reports done exactly when something was answered, and it is unchanged or a cap is reached. */
  lemma StepIsDoneIff(events: seq<Event>, now: nat)
    requires RunAll(events).poll.failure.None? && !RunAll(events).poll.done
    ensures var r := RunAll(events);
            Step(r.poll, now).1 == Done <==>
            r.poll.handshake.Some? && r.accepted != [] && (Unchanged(r, now) || Spent(r, now))
  {
    RunKeepsInv(events);
    StableIffUnchanged(RunAll(events), now);
  }

  /** A step polls again exactly when every poll was answered, no end is reached, and it is time. */
  lemma StepWritesIff(events: seq<Event>, now: nat)
    requires RunAll(events).poll.failure.None? && !RunAll(events).poll.done
    ensures var r := RunAll(events);
            Step(r.poll, now).1 == Write(|r.writes| + 1) <==>
            && r.poll.handshake.Some? && |r.accepted| == |r.writes|
            && !Spent(r, now) && !Unchanged(r, now)
            && (r.writes != [] ==> now >= r.writes[|r.writes| - 1] + 400)
  {
    RunKeepsInv(events);
    StableIffUnchanged(RunAll(events), now);
  }

  /**
   * Event k makes the poll fail: a line is too long, the handshake is refused, the answer to the
   * outstanding poll is a refusal or no valid catalog, or the time is up with nothing answered.
   */
  predicate FailsAt(events: seq<Event>, k: nat, f: Failure) {
    k < |events| && FailsBy(RunAll(events[..k]), events[k], f)
  }

  predicate FailsBy(run: Run, e: Event, f: Failure) {
    var p := run.poll;
    && !p.done && p.failure.None?
    && match e
       case Overflowed => f == LineLimit
       case Replied(r, now) =>
         || (r.id == 0 && r.isError && f == Handshake)
         || (r.id != 0 && p.outstanding == Some(r.id) && r.isError && f == Request)
         || (r.id != 0 && p.outstanding == Some(r.id) && !r.isError && r.names.None? && f == Catalog)
       case Stepped(now) =>
         run.accepted == [] && p.handshake.Some? && now >= p.handshake.value + 6_000 && f == NoResponse
  }

  lemma FailsNext(run: Run, e: Event, f: Failure)
    requires Inv(run)
    ensures Happen(run, e).poll.failure == Some(f) <==> run.poll.failure == Some(f) || FailsBy(run, e, f)
  {
  }

  ghost predicate EverFails(events: seq<Event>, f: Failure) {
    exists k: nat :: FailsAt(events, k, f)
  }

  lemma EverFailsGrows(events: seq<Event>, f: Failure)
    requires events != []
    ensures EverFails(events, f) <==> EverFails(events[..|events| - 1], f) || FailsAt(events, |events| - 1, f)
  {
    var before := events[..|events| - 1];
    forall k: nat | k < |before| ensures FailsAt(before, k, f) <==> FailsAt(events, k, f) {
      assert before[..k] == events[..k];
    }
  }

  /** A poll has failed in some way exactly when some event made it, and keeps that failure. */
  lemma {:induction false} FailureIff(events: seq<Event>, f: Failure)
    ensures RunAll(events).poll.failure == Some(f) <==> EverFails(events, f)
  {
    if events != [] {
      var before := events[..|events| - 1];
      FailureIff(before, f);
      EverFailsGrows(events, f);
      RunKeepsInv(before);
      FailsNext(RunAll(before), events[|events| - 1], f);
    }
  }

  /** A step that reports done marks the poll; from then on every step does so, and nothing changes it. */
  lemma DoneIsFinal(events: seq<Event>, now: nat, e: Event, later: nat)
    requires Step(RunAll(events).poll, now).1 == Done
    ensures var done := RunAll(events).poll.(done := true);
            && RunAll(events + [Stepped(now)]).poll == done
            && RunAll(events + [Stepped(now), e]).poll == done && Step(done, later).1 == Done
  {
    RunOne(events, Stepped(now));
    RunOne(events + [Stepped(now)], e);
    assert events + [Stepped(now)] + [e] == events + [Stepped(now), e];
    DoneStays(RunAll(events + [Stepped(now)]), e);
  }

  lemma RunOne(events: seq<Event>, e: Event)
    ensures RunAll(events + [e]) == Happen(RunAll(events), e)
  {
    assert (events + [e])[..|events|] == events;
  }

  lemma DoneStays(r: Run, e: Event)
    requires r.poll.done && r.poll.failure.None?
    ensures Happen(r, e).poll == r.poll
  {
  }

  /** A poll begins with nothing sent, answered or decided. */
  lemma NothingHappenedYet()
    ensures RunAll([]).poll == Poll(None, 1, 0, None, None, None, [], None, None, false)
  {
  }

  /** The handshake is over at its first successful reply; further ones change nothing. */
  lemma HandshakeOnce(events: seq<Event>, reply: Reply, now: nat)
    requires RunAll(events).poll.failure.None? && !RunAll(events).poll.done && reply.id == 0 && !reply.isError
    ensures var p := RunAll(events).poll;
            Observe(p, reply, now) ==
            if p.handshake.None? && reply.hasResult then p.(handshake := Some(now)) else p
  {
  }

  // ---------------------------------------------------------------- lines in chunks

  const MAX_LINE: nat := 2 * 1024 * 1024

  predicate HasEnded(p: Poll) { p.done || p.failure.Some? }

  /** One line at a time, as of one observation. */
  function HandleAt(parse: Bytes -> Option<Reply>, now: nat): (Poll, Bytes) -> Poll {
    (p: Poll, line: Bytes) =>
      match parse(line)
      case None => p
      case Some(r) => Observe(p, r, now)
  }

  function ObserveBytes(parse: Bytes -> Option<Reply>, now: nat, o: Observer<Poll>, bytes: Bytes): Observer<Poll> {
    ObserveChunk(MAX_LINE, HandleAt(parse, now), HasEnded, Overflow, o, bytes)
  }

  function ObserveChunksAt(parse: Bytes -> Option<Reply>, now: nat, o: Observer<Poll>, chunks: seq<Bytes>): Observer<Poll> {
    ObserveChunks(MAX_LINE, HandleAt(parse, now), HasEnded, Overflow, o, chunks)
  }

  lemma EndedStaysEnded(parse: Bytes -> Option<Reply>, now: nat)
    ensures EndIsFinal(HandleAt(parse, now), HasEnded) && FailingEnds(HasEnded, Overflow)
  {
    forall p: Poll, line: Bytes | HasEnded(p) ensures HandleAt(parse, now)(p, line) == p {
      if parse(line).Some? {
        assert Observe(p, parse(line).value, now) == p;
      }
    }
  }

  lemma {:induction false} LinesNeverOverflow(parse: Bytes -> Option<Reply>, now: nat, p: Poll, lines: seq<Bytes>)
    requires !HasEnded(p)
    ensures var q := HandleAll(HandleAt(parse, now), p, lines); !q.done && q.failure != Some(LineLimit)
  {
    if lines != [] {
      LinesNeverOverflow(parse, now, p, lines[..|lines| - 1]);
    }
  }

  /**
   * Output read at one time: how it was cut shows in the next step exactly when a line is too long
   * and a line completed in an earlier chunk had already failed the poll for another reason.
   */
  lemma CutShowsIff(parse: Bytes -> Option<Reply>, now: nat, o: Observer<Poll>, chunks: seq<Bytes>, later: nat)
    requires !o.overflowed && !HasEnded(o.core)
    ensures var p := HandleAll(HandleAt(parse, now), o.core, SeenLines(2_097_152, o.pending, chunks));
            Step(ObserveChunksAt(parse, now, o, chunks).core, later).1 != Step(ObserveBytes(parse, now, o, Flatten(chunks)).core, later).1
            <==> Frame(2_097_152, o.pending, Flatten(chunks)).None? && p.failure.Some?
  {
    EndedStaysEnded(parse, now);
    var seen := SeenLines(MAX_LINE, o.pending, chunks);
    if Frame(MAX_LINE, o.pending, Flatten(chunks)).Some? {
      ObservingIsChunkIndependent(MAX_LINE, HandleAt(parse, now), HasEnded, Overflow, o, chunks);
    } else {
      ChunksOutcome(MAX_LINE, HandleAt(parse, now), HasEnded, Overflow, o, chunks);
      OneChunkOutcome(MAX_LINE, HandleAt(parse, now), HasEnded, Overflow, o, Flatten(chunks));
      LinesNeverOverflow(parse, now, o.core, seen);
    }
  }

  class CodexSkillsPoll {
    var handshake: Option<nat>
    var nextId: nat
    var polls: nat
    var outstanding: Option<nat>
    var lastSent: Option<nat>
    var latest: Option<Reply>
    var names: seq<string>
    var stableSince: Option<nat>
    var failure: Option<Failure>
    var done: bool

    ghost function View(): Poll
      reads this
    {
      Poll(handshake, nextId, polls, outstanding, lastSent, latest, names, stableSince, failure, done)
    }

    constructor ()
      ensures View() == NEW && !done && failure.None? && handshake.None? && polls == 0
    {
      handshake, nextId, polls, outstanding, lastSent := None, 1, 0, None, None;
      latest, names, stableSince, failure, done := None, [], None, None, false;
    }

    method ObserveReply(r: Reply, now: nat)
      modifies this
      ensures View() == Observe(old(View()), r, now)
    {
      if done || failure.Some? {
        return;
      }
      if r.id == 0 {
        if r.isError {
          failure := Some(Handshake);
        } else if r.hasResult && handshake.None? {
          handshake := Some(now);
        }
        return;
      }
      if outstanding != Some(r.id) {
        return;
      }
      outstanding := None;
      if r.isError {
        failure := Some(Request);
        return;
      }
      if r.names.None? {
        failure := Some(Catalog);
        return;
      }
      if latest.None? || r.names.value != names {
        names := r.names.value;
        stableSince := Some(now);
      }
      latest := Some(r);
    }

    method Advance(now: nat) returns (step: ProbeStep)
      modifies this
      ensures (View(), step) == Step(old(View()), now)
    {
      if failure.Some? {
        return Failed(failure.value);
      }
      if done {
        return Done;
      }
      if handshake.None? {
        return Wait;
      }
      var stable := stableSince.Some? && Since(now, stableSince.value) >= STABLE_FOR;
      var capped := Since(now, handshake.value) >= POLL_CAP || polls >= MAX_POLLS;
      if latest.Some? && (stable || capped) {
        done := true;
        return Done;
      }
      if capped {
        failure := Some(NoResponse);
        return Failed(NoResponse);
      }
      var due := lastSent.None? || Since(now, lastSent.value) >= POLL_INTERVAL;
      if outstanding.Some? || !due {
        return Wait;
      }
      var id := nextId;
      nextId := nextId + 1;
      polls := polls + 1;
      outstanding := Some(id);
      lastSent := Some(now);
      step := Write(id);
    }
  }
}
