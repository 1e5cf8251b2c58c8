/**
 * Polling a Claude provider for server status until the answers have been stable for long enough,
 * or a deadline or a budget of polls is spent.
 */
module StatusPoll {
  import opened Wrappers
  import Domain = ServersDomain

  const MAX_POLLS: nat := 48

  datatype Timing = Timing(pollInterval: nat, stableFor: nat, settleDeadline: nat)

  datatype RequestId = Initialize | Status(poll: nat) | Foreign

  /** A parsed control response; the payload is missing when it is no valid snapshot. */
  datatype Reply = Reply(id: RequestId, succeeded: bool, payload: Option<Domain.Snapshot>)

  datatype Failure = LineLimit | Handshake | Request | Payload

  datatype Poll = Poll(
    timing: Timing,
    initializedAt: Option<nat>,
    polls: nat,
    outstanding: Option<RequestId>,
    lastSent: Option<nat>,
    latest: Option<Domain.Snapshot>,
    stableSince: Option<nat>,
    confirmedAt: Option<nat>,
    failure: Option<Failure>,
    done: bool)

  datatype ProbeStep = Wait | Write(id: RequestId) | Done | Failed(failure: Failure)

  function New(timing: Timing): Poll {
    Poll(timing, None, 0, None, None, None, None, None, None, false)
  }

  function Since(now: nat, earlier: nat): nat { if now >= earlier then now - earlier else 0 }

  // ---------------------------------------------------------------- observing replies

  function Accept(p: Poll, snapshot: Domain.Snapshot, now: nat): Poll {
    p.(stableSince := if p.latest == Some(snapshot) then p.stableSince else Some(now),
       confirmedAt := Some(now),
       latest := Some(snapshot))
  }

  predicate Answers(p: Poll, r: Reply) {
    !p.done && p.failure.None? && r.id != Initialize && p.outstanding == Some(r.id)
  }

  function ObserveReply(p: Poll, r: Reply, now: nat): Poll {
    if p.done || p.failure.Some? then p
    else if r.id == Initialize then
      if !r.succeeded then p.(failure := Some(Handshake))
      else p.(initializedAt := if p.initializedAt.Some? then p.initializedAt else Some(now))
    else if p.outstanding != Some(r.id) then p
    else
      var answered := p.(outstanding := None);
      if !r.succeeded then answered.(failure := Some(Request))
      else if r.payload.None? then answered.(failure := Some(Payload))
      else Accept(answered, r.payload.value, now)
  }

  function ObserveOverflow(p: Poll): Poll {
    if p.done || p.failure.Some? then p else p.(failure := Some(LineLimit))
  }

  // ---------------------------------------------------------------- stepping

  predicate HasConnecting(s: Domain.Snapshot) {
    exists i :: 0 <= i < |s.servers| && s.servers[i].status == Domain.Connecting
  }

  predicate IsSettled(p: Poll) {
    && p.latest.Some? && !HasConnecting(p.latest.value)
    && p.stableSince.Some? && p.confirmedAt.Some?
    && Since(p.confirmedAt.value, p.stableSince.value) >= p.timing.stableFor
  }

  predicate IsExpired(p: Poll, initializedAt: nat, now: nat) {
    Since(now, initializedAt) >= p.timing.settleDeadline || (p.polls >= MAX_POLLS && p.outstanding.None?)
  }

  predicate IsPollDue(p: Poll, now: nat) {
    p.lastSent.Some? ==> Since(now, p.lastSent.value) >= p.timing.pollInterval
  }

  function Step(p: Poll, now: nat): (Poll, ProbeStep) {
    if p.failure.Some? then (p, Failed(p.failure.value))
    else if p.done then (p, Done)
    else if p.initializedAt.None? then (p, Wait)
    else
      var expired := IsExpired(p, p.initializedAt.value, now);
      if p.latest.Some? && (expired || IsSettled(p)) then (p.(done := true), Done)
      else if expired || p.outstanding.Some? || !IsPollDue(p, now) then (p, Wait)
      else
        var id := Status(p.polls + 1);
        (p.(polls := p.polls + 1, outstanding := Some(id), lastSent := Some(now)), Write(id))
  }

  // ---------------------------------------------------------------- runs and their history

  datatype Event = Replied(reply: Reply, now: nat) | Overflowed | Stepped(now: nat)

  datatype Accepted = Accepted(at: nat, snapshot: Domain.Snapshot)

  /** A poll with what was written and accepted so far, how many polls were answered, and when it was done. */
  datatype Run = Run(poll: Poll, writes: seq<nat>, answered: nat, accepted: seq<Accepted>, doneAt: Option<nat>)

  function Start(timing: Timing): Run { Run(New(timing), [], 0, [], None) }

  function HappenReply(r: Run, reply: Reply, now: nat): Run {
    var next := ObserveReply(r.poll, reply, now);
    var answers := Answers(r.poll, reply);
    Run(next, r.writes, if answers then r.answered + 1 else r.answered,
        if answers && reply.succeeded && reply.payload.Some? then r.accepted + [Accepted(now, reply.payload.value)] else r.accepted,
        r.doneAt)
  }

  function HappenStep(r: Run, now: nat): Run {
    var (next, step) := Step(r.poll, now);
    Run(next, if step.Write? then r.writes + [now] else r.writes, r.answered, r.accepted,
        if next.done && !r.poll.done then Some(now) else r.doneAt)
  }

  function Happen(r: Run, e: Event): Run {
    match e
    case Replied(reply, now) => HappenReply(r, reply, now)
    case Overflowed => r.(poll := ObserveOverflow(r.poll))
    case Stepped(now) => HappenStep(r, now)
  }

  function RunAll(timing: Timing, events: seq<Event>): Run {
    if events == [] then Start(timing) else Happen(RunAll(timing, events[..|events| - 1]), events[|events| - 1])
  }

  // ---------------------------------------------------------------- invariants

  /** Writes are numbered, within the budget, and each waits for the one before to be answered. */
  ghost predicate WritesOk(r: Run) {
    && |r.writes| == r.poll.polls <= 48
    && r.poll.polls == r.answered + (if r.poll.outstanding.Some? then 1 else 0)
    && (r.poll.outstanding.Some? ==> r.poll.outstanding.value == Status(r.poll.polls))
    && (r.poll.lastSent == if r.writes == [] then None else Some(r.writes[|r.writes| - 1]))
    && forall i :: 0 < i < |r.writes| ==> Since(r.writes[i], r.writes[i - 1]) >= r.poll.timing.pollInterval
  }

  /** From index k on, every accepted snapshot is this one, and k is where the run of them began. */
  ghost predicate StableFrom(accepted: seq<Accepted>, k: nat, snapshot: Domain.Snapshot) {
    && k < |accepted|
    && (forall i :: k <= i < |accepted| ==> accepted[i].snapshot == snapshot)
    && (k > 0 ==> accepted[k - 1].snapshot != snapshot)
  }

  ghost predicate AcceptedOk(r: Run) {
    var n := |r.accepted|;
    if n == 0 then r.poll.latest.None? && r.poll.confirmedAt.None? && r.poll.stableSince.None?
    else
      && r.poll.latest == Some(r.accepted[n - 1].snapshot)
      && r.poll.confirmedAt == Some(r.accepted[n - 1].at)
      && exists k: nat :: StableFrom(r.accepted, k, r.accepted[n - 1].snapshot) && r.poll.stableSince == Some(r.accepted[k].at)
  }

  /** Done was reached with a snapshot, for one of the reasons there are. */
  ghost predicate DoneOk(r: Run) {
    && (r.poll.done <==> r.doneAt.Some?)
    && (r.poll.done ==>
          && r.poll.latest.Some? && r.poll.initializedAt.Some?
          && (IsExpired(r.poll, r.poll.initializedAt.value, r.doneAt.value) || IsSettled(r.poll)))
  }

  ghost predicate Inv(r: Run) { WritesOk(r) && AcceptedOk(r) && DoneOk(r) }

  lemma StableGrows(accepted: seq<Accepted>, k: nat, a: Accepted)
    requires StableFrom(accepted, k, a.snapshot)
    ensures StableFrom(accepted + [a], k, a.snapshot) && (accepted + [a])[k] == accepted[k]
  {
  }

  lemma StableStarts(accepted: seq<Accepted>, a: Accepted)
    requires accepted == [] || accepted[|accepted| - 1].snapshot != a.snapshot
    ensures StableFrom(accepted + [a], |accepted|, a.snapshot) && (accepted + [a])[|accepted|] == a
  {
  }

  lemma AcceptKeepsHistory(r: Run, a: Accepted, next: Run)
    requires AcceptedOk(r) && next.accepted == r.accepted + [a]
    requires next.poll.latest == Some(a.snapshot) && next.poll.confirmedAt == Some(a.at)
    requires next.poll.stableSince == if r.poll.latest == Some(a.snapshot) then r.poll.stableSince else Some(a.at)
    ensures AcceptedOk(next)
  {
    assert next.accepted[|next.accepted| - 1] == a;
    if r.poll.latest == Some(a.snapshot) {
      var k: nat :| StableFrom(r.accepted, k, a.snapshot) && r.poll.stableSince == Some(r.accepted[k].at);
      StableGrows(r.accepted, k, a);
    } else {
      StableStarts(r.accepted, a);
    }
  }

  lemma ReplyKeepsInv(r: Run, reply: Reply, now: nat, next: Run)
    requires Inv(r) && next == HappenReply(r, reply, now)
    ensures Inv(next)
  {
    if Answers(r.poll, reply) && reply.succeeded && reply.payload.Some? {
      AcceptKeepsHistory(r, Accepted(now, reply.payload.value), next);
    }
  }

  lemma StepKeepsInv(r: Run, now: nat, next: Run)
    requires Inv(r) && next == HappenStep(r, now)
    ensures Inv(next)
  {
  }

  lemma HappenKeepsInv(r: Run, e: Event, next: Run)
    requires Inv(r) && next == Happen(r, e)
    ensures Inv(next) && next.poll.timing == r.poll.timing
  {
    match e
    case Replied(reply, now) => ReplyKeepsInv(r, reply, now, next);
    case Overflowed =>
    case Stepped(now) => StepKeepsInv(r, now, next);
  }

  lemma StartIsOk(timing: Timing)
    ensures Inv(Start(timing)) && Start(timing).poll.timing == timing
  {
  }

  lemma {:induction false} RunKeepsInv(timing: Timing, events: seq<Event>)
    ensures Inv(RunAll(timing, events)) && RunAll(timing, events).poll.timing == timing
  {
    if events == [] {
      StartIsOk(timing);
    } else {
      RunKeepsInv(timing, events[..|events| - 1]);
      HappenKeepsInv(RunAll(timing, events[..|events| - 1]), events[|events| - 1], RunAll(timing, events));
    }
  }

  // ---------------------------------------------------------------- main results

  /** At most 48 requests, never two outstanding, and no two closer together than the interval. */
  lemma PollingIsBounded(timing: Timing, events: seq<Event>)
    ensures var r := RunAll(timing, events);
            && |r.writes| <= 48 && r.answered <= |r.writes| <= r.answered + 1
            && forall i :: 0 < i < |r.writes| ==> Since(r.writes[i], r.writes[i - 1]) >= timing.pollInterval
  {
    RunKeepsInv(timing, events);
  }

  /** The accepted answers were stable: one snapshot, no server connecting, over a span of at least stableFor. */
  ghost predicate Stable(r: Run) {
    && r.accepted != []
    && var last := r.accepted[|r.accepted| - 1];
       && (forall s :: s in last.snapshot.servers ==> s.status != Domain.Connecting)
       && exists k: nat :: SpansFrom(r.accepted, k, last, r.poll.timing.stableFor)
  }

  /** From index k to the last answer the snapshots are the same, over at least this span. */
  ghost predicate SpansFrom(accepted: seq<Accepted>, k: nat, last: Accepted, span: nat) {
    StableFrom(accepted, k, last.snapshot) && Since(last.at, accepted[k].at) >= span
  }

  lemma StartIsUnique(accepted: seq<Accepted>, snapshot: Domain.Snapshot, k: nat, j: nat)
    requires StableFrom(accepted, k, snapshot) && StableFrom(accepted, j, snapshot)
    ensures j == k
  {
  }

  lemma NoneConnectingIff(s: Domain.Snapshot)
    ensures HasConnecting(s) <==> !forall server :: server in s.servers ==> server.status != Domain.Connecting
  {
    if i :| 0 <= i < |s.servers| && s.servers[i].status == Domain.Connecting {
      assert s.servers[i] in s.servers;
    }
    if server :| server in s.servers && server.status == Domain.Connecting {
      var i :| 0 <= i < |s.servers| && s.servers[i] == server;
    }
  }

  /** The fields the poll keeps decide stability of the whole history. */
  lemma SettledIffStable(r: Run)
    requires AcceptedOk(r)
    ensures IsSettled(r.poll) <==> Stable(r)
  {
    if r.accepted != [] {
      var last := r.accepted[|r.accepted| - 1];
      NoneConnectingIff(last.snapshot);
      var k: nat :| StableFrom(r.accepted, k, last.snapshot) && r.poll.stableSince == Some(r.accepted[k].at);
      if Stable(r) {
        var j: nat :| SpansFrom(r.accepted, j, last, r.poll.timing.stableFor);
        StartIsUnique(r.accepted, last.snapshot, k, j);
      } else {
        assert !SpansFrom(r.accepted, k, last, r.poll.timing.stableFor) || HasConnecting(last.snapshot);
      }
    }
  }

  /** The deadline or the budget of polls is spent. */
  predicate Spent(r: Run, now: nat) {
    && r.poll.initializedAt.Some?
    && (Since(now, r.poll.initializedAt.value) >= r.poll.timing.settleDeadline || r.answered == 48)
  }

  lemma ExpiredIffSpent(r: Run, now: nat)
    requires WritesOk(r) && r.poll.initializedAt.Some?
    ensures IsExpired(r.poll, r.poll.initializedAt.value, now) <==> Spent(r, now)
  {
  }

  /**
   * Done is reported only with the last accepted snapshot in hand, and only when the deadline or
   * the budget of polls was spent or the answers were stable.
   */
  lemma DoneIsJustified(timing: Timing, events: seq<Event>)
    requires RunAll(timing, events).poll.done
    ensures var r := RunAll(timing, events);
            && r.accepted != [] && r.poll.latest == Some(r.accepted[|r.accepted| - 1].snapshot)
            && r.doneAt.Some? && (Spent(r, r.doneAt.value) || Stable(r))
  {
    RunKeepsInv(timing, events);
    var r := RunAll(timing, events);
    ExpiredIffSpent(r, r.doneAt.value);
    SettledIffStable(r);
  }

  /** A step reports done as soon as there is a snapshot and a reason to stop. */
  lemma StepIsDoneIff(timing: Timing, events: seq<Event>, now: nat)
    requires RunAll(timing, events).poll.failure.None? && !RunAll(timing, events).poll.done
    ensures var r := RunAll(timing, events);
            Step(r.poll, now).1 == Done <==> r.poll.initializedAt.Some? && r.accepted != [] && (Spent(r, now) || Stable(r))
  {
    RunKeepsInv(timing, events);
    var r := RunAll(timing, events);
    if r.poll.initializedAt.Some? {
      ExpiredIffSpent(r, now);
    }
    SettledIffStable(r);
  }

  /**
   * Event k makes the poll fail: a line is too long, the initialization is refused, or the answer to the
   * outstanding poll is a refusal or no valid snapshot.
   */
  predicate FailsAt(timing: Timing, events: seq<Event>, k: nat, f: Failure) {
    && k < |events|
    && var p := RunAll(timing, events[..k]).poll;
       && !p.done && p.failure.None?
       && match events[k]
          case Overflowed => f == LineLimit
          case Replied(r, now) =>
            || (r.id == Initialize && !r.succeeded && f == Handshake)
            || (r.id != Initialize && p.outstanding == Some(r.id) && !r.succeeded && f == Request)
            || (r.id != Initialize && p.outstanding == Some(r.id) && r.succeeded && r.payload.None? && f == Payload)
          case Stepped(now) => false
  }

  ghost predicate EverFails(timing: Timing, events: seq<Event>, f: Failure) {
    exists k: nat :: FailsAt(timing, events, k, f)
  }

  lemma EverFailsGrows(timing: Timing, events: seq<Event>, f: Failure)
    requires events != []
    ensures EverFails(timing, events, f) <==>
            EverFails(timing, events[..|events| - 1], f) || FailsAt(timing, events, |events| - 1, f)
  {
    var before := events[..|events| - 1];
    forall k: nat | k < |before| ensures FailsAt(timing, before, k, f) <==> FailsAt(timing, events, k, f) {
      assert before[..k] == events[..k];
    }
  }

  lemma {:induction false} FailureIff(timing: Timing, events: seq<Event>, f: Failure)
    ensures RunAll(timing, events).poll.failure == Some(f) <==> EverFails(timing, events, f)
  {
    if events != [] {
      FailureIff(timing, events[..|events| - 1], f);
      EverFailsGrows(timing, events, f);
    }
  }

  /** The clock may run backwards: an interval has passed when it is nought, or the later time is reached. */
  lemma SinceIff(now: nat, earlier: nat, interval: nat)
    ensures Since(now, earlier) >= interval <==> interval == 0 || now >= earlier + interval
  {
  }

  /** A step reports a failure exactly when some event has made the poll fail that way, and then for good. */
  lemma StepFailsIff(timing: Timing, events: seq<Event>, now: nat, f: Failure)
    ensures Step(RunAll(timing, events).poll, now).1 == Failed(f) <==> exists k: nat :: FailsAt(timing, events, k, f)
  {
    FailureIff(timing, events, f);
    assert EverFails(timing, events, f) <==> exists k: nat :: FailsAt(timing, events, k, f);
  }

  /** A step that reports done marks the poll, and changes nothing else. */
  lemma DoneIsKept(timing: Timing, events: seq<Event>, now: nat)
    requires Step(RunAll(timing, events).poll, now).1 == Done
    ensures RunAll(timing, events + [Stepped(now)]).poll == RunAll(timing, events).poll.(done := true)
  {
    assert (events + [Stepped(now)])[..|events|] == events;
  }

  /** Once done, a poll reports done for good, and nothing changes it. */
  lemma DoneIsFinal(timing: Timing, events: seq<Event>, e: Event, now: nat)
    requires RunAll(timing, events).poll.done
    ensures Step(RunAll(timing, events).poll, now).1 == Done && RunAll(timing, events + [e]).poll == RunAll(timing, events).poll
  {
    assert (events + [e])[..|events|] == events;
    DoneHasNotFailed(timing, events);
  }

  lemma {:induction false} DoneHasNotFailed(timing: Timing, events: seq<Event>)
    ensures RunAll(timing, events).poll.done ==> RunAll(timing, events).poll.failure.None?
  {
    if events != [] {
      DoneHasNotFailed(timing, events[..|events| - 1]);
    }
  }

  /** The poll counts as initialized from the first successful reply to its initialization. */
  lemma {:induction false} InitializedAtFirstReply(timing: Timing, events: seq<Event>)
    requires RunAll(timing, events).poll.failure.None? && !RunAll(timing, events).poll.done
    ensures match RunAll(timing, events).poll.initializedAt
            case None => forall k :: 0 <= k < |events| ==> !(events[k].Replied? && events[k].reply.id == Initialize)
            case Some(at) => exists k :: 0 <= k < |events| && IsFirstInitialization(events, k) && events[k].now == at
  {
    if events != [] {
      var before, last := events[..|events| - 1], |events| - 1;
      InitializedAtFirstReply(timing, before);
      var p := RunAll(timing, before).poll;
      if p.initializedAt.Some? {
        var k :| 0 <= k < |before| && IsFirstInitialization(before, k) && before[k].now == p.initializedAt.value;
        assert IsFirstInitialization(events, k);
      } else if events[last].Replied? && events[last].reply.id == Initialize {
        assert IsFirstInitialization(events, last);
      }
    }
  }

  predicate IsFirstInitialization(events: seq<Event>, k: nat) {
    && k < |events| && events[k].Replied? && events[k].reply.id == Initialize
    && forall j :: 0 <= j < k ==> !(events[j].Replied? && events[j].reply.id == Initialize)
  }

  /** A step writes the next request exactly when nothing is outstanding, there is no reason to stop, and it is time. */
  lemma StepWritesIff(timing: Timing, events: seq<Event>, now: nat)
    requires RunAll(timing, events).poll.failure.None? && !RunAll(timing, events).poll.done
    ensures var r := RunAll(timing, events);
            Step(r.poll, now).1 == Write(Status(|r.writes| + 1)) <==>
            && r.poll.initializedAt.Some? && r.answered == |r.writes|
            && !Spent(r, now) && !Stable(r)
            && (r.writes != [] ==> Since(now, r.writes[|r.writes| - 1]) >= timing.pollInterval)
  {
    RunKeepsInv(timing, events);
    var r := RunAll(timing, events);
    if r.poll.initializedAt.Some? {
      ExpiredIffSpent(r, now);
    }
    SettledIffStable(r);
  }

  /** A reply to any poll but the one outstanding changes nothing. */
  lemma StaleReplyIsIgnored(timing: Timing, events: seq<Event>, reply: Reply, now: nat)
    requires reply.id.Status? && reply.id.poll != RunAll(timing, events).answered + 1
    ensures ObserveReply(RunAll(timing, events).poll, reply, now) == RunAll(timing, events).poll
  {
    RunKeepsInv(timing, events);
  }

  // ---------------------------------------------------------------- the poll object

  class ClaudeMcpStatusPoll {
    const timing: Timing
    var initializedAt: Option<nat>
    var polls: nat
    var outstanding: Option<RequestId>
    var lastSent: Option<nat>
    var latest: Option<Domain.Snapshot>
    var stableSince: Option<nat>
    var confirmedAt: Option<nat>
    var failure: Option<Failure>
    var done: bool

    ghost function View(): Poll
      reads this
    {
      Poll(timing, initializedAt, polls, outstanding, lastSent, latest, stableSince, confirmedAt, failure, done)
    }

    constructor (timing: Timing)
      ensures View() == New(timing)
    {
      this.timing := timing;
      initializedAt, polls, outstanding, lastSent := None, 0, None, None;
      latest, stableSince, confirmedAt, failure, done := None, None, None, None, false;
    }

    method Observe(r: Reply, now: nat)
      modifies this
      ensures View() == ObserveReply(old(View()), r, now)
    {
      if done || failure.Some? {
        return;
      }
      if r.id == Initialize {
        if !r.succeeded {
          failure := Some(Handshake);
        } else if initializedAt.None? {
          initializedAt := Some(now);
        }
        return;
      }
      if outstanding != Some(r.id) {
        return;
      }
      outstanding := None;
      if !r.succeeded {
        failure := Some(Request);
      } else if r.payload.None? {
        failure := Some(Payload);
      } else {
        if latest != r.payload {
          stableSince := Some(now);
        }
        confirmedAt := Some(now);
        latest := r.payload;
      }
    }

    method Advance(now: nat) returns (step: ProbeStep)
      modifies this
      ensures (View(), step) == Step(old(View()), now)
    {
      if failure.Some? {
        return Failed(failure.value);
      }
      if done {
        return Done;
      }
      if initializedAt.None? {
        return Wait;
      }
      var expired := Since(now, initializedAt.value) >= timing.settleDeadline || (polls >= MAX_POLLS && outstanding.None?);
      var settled := latest.Some? && !HasConnecting(latest.value) && stableSince.Some? && confirmedAt.Some?
                     && Since(confirmedAt.value, stableSince.value) >= timing.stableFor;
      if latest.Some? && (expired || settled) {
        done := true;
        return Done;
      }
      var due := lastSent.None? || Since(now, lastSent.value) >= timing.pollInterval;
      if expired || outstanding.Some? || !due {
        return Wait;
      }
      polls := polls + 1;
      outstanding := Some(Status(polls));
      lastSent := Some(now);
      step := Write(Status(polls));
    }
  }
}
