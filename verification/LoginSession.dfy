/**
 * One login session: the announcement it hands out at most once, its recorded result, and the
 * flags other threads wait for.  Every operation is one critical section over the same lock.
 */
module LoginSession {
  import opened Wrappers

  datatype Failure = Unavailable | Inactive | TimedOut

  datatype Announcement = Announced(step: string) | Failed(failure: Failure)

  datatype StepSlot = Unknown | Known(announcement: Announcement) | Taken

  datatype Finish = Finish(succeeded: bool, at: nat)

  datatype Session = Session(step: StepSlot, finished: Option<Finish>, settled: bool, cancelled: bool)

  datatype LoginState = Pending | Succeeded | FailedState

  /** What one turn of the wait for the announcement ends in; Waiting means another turn follows. */
  datatype Look = Got(announcement: Announcement) | Waiting

  datatype Op =
    | StepKnown(announcement: Announcement)
    | WaitStep(expired: bool)
    | Finished(succeeded: bool, now: nat)
    | Settled(now: nat)
    | Cancelled

  const NEW := Session(Unknown, None, false, false)

  function FinishOnce(finished: Option<Finish>, succeeded: bool, now: nat): Option<Finish> {
    if finished.Some? then finished else Some(Finish(succeeded, now))
  }

  function Announce(s: Session, a: Announcement): Session {
    if s.step.Unknown? then s.(step := Known(a)) else s
  }

  function SettleAt(s: Session, now: nat): Session {
    Announce(s, Failed(Unavailable)).(finished := FinishOnce(s.finished, false, now), settled := true)
  }

  /** One turn of the loop: the state it leaves, what it found, and whether that came out of the slot. */
  function LookForStep(s: Session, expired: bool): (Session, Look, bool) {
    if s.cancelled then (s, Got(Failed(Inactive)), false)
    else
      match s.step
      case Known(a) => (s.(step := Taken), Got(a), true)
      case Taken => (s, Got(Failed(Unavailable)), false)
      case Unknown => (s, if expired then Got(Failed(TimedOut)) else Waiting, false)
  }

  function Apply(s: Session, op: Op): Session {
    match op
    case StepKnown(a) => Announce(s, a)
    case WaitStep(expired) => LookForStep(s, expired).0
    case Finished(succeeded, now) => s.(finished := FinishOnce(s.finished, succeeded, now))
    case Settled(now) => SettleAt(s, now)
    case Cancelled => s.(cancelled := true)
  }

  function Run(ops: seq<Op>): Session {
    if ops == [] then NEW else Apply(Run(ops[..|ops| - 1]), ops[|ops| - 1])
  }

  /** Turn i of the run took the announcement out of the slot. */
  predicate TookAt(ops: seq<Op>, i: nat)
    requires i < |ops|
  {
    ops[i].WaitStep? && LookForStep(Run(ops[..i]), ops[i].expired).2
  }

  function StateAt(s: Session, now: nat, retention: nat): Option<LoginState> {
    match s.finished
    case None => Some(Pending)
    case Some(f) =>
      if (if now >= f.at then now - f.at else 0) >= retention then None
      else Some(if f.succeeded then Succeeded else FailedState)
  }

  // ---------------------------------------------------------------- what the history says

  /** The announcement an operation would publish on a fresh session. */
  function Offer(op: Op): Option<Announcement> {
    match op
    case StepKnown(a) => Some(a)
    case Settled(_) => Some(Failed(Unavailable))
    case _ => None
  }

  function Result(op: Op): Option<Finish> {
    match op
    case Finished(succeeded, now) => Some(Finish(succeeded, now))
    case Settled(now) => Some(Finish(false, now))
    case _ => None
  }

  /** Operation i is the first that offers an announcement, and it offers a. */
  ghost predicate FirstOffer(ops: seq<Op>, i: nat, a: Announcement) {
    i < |ops| && Offer(ops[i]) == Some(a) && forall j :: 0 <= j < i ==> Offer(ops[j]).None?
  }

  ghost predicate FirstResult(ops: seq<Op>, i: nat, f: Finish) {
    i < |ops| && Result(ops[i]) == Some(f) && forall j :: 0 <= j < i ==> Result(ops[j]).None?
  }

  /** Operation i waits for the step, after an announcement and before any cancel. */
  ghost predicate Collects(ops: seq<Op>, i: nat) {
    && i < |ops| && ops[i].WaitStep?
    && (exists j :: 0 <= j < i && Offer(ops[j]).Some?)
    && (forall j :: 0 <= j < i ==> !ops[j].Cancelled?)
  }

  ghost predicate StepMatches(ops: seq<Op>, step: StepSlot) {
    match step
    case Unknown => forall i :: 0 <= i < |ops| ==> Offer(ops[i]).None?
    case Known(a) => (exists i :: FirstOffer(ops, i, a)) && forall i :: !Collects(ops, i)
    case Taken => exists i :: Collects(ops, i)
  }

  ghost predicate FinishMatches(ops: seq<Op>, finished: Option<Finish>) {
    match finished
    case None => forall i :: 0 <= i < |ops| ==> Result(ops[i]).None?
    case Some(f) => exists i :: FirstResult(ops, i, f)
  }

  ghost predicate FlagsMatch(ops: seq<Op>, s: Session) {
    && (s.cancelled <==> exists i :: 0 <= i < |ops| && ops[i].Cancelled?)
    && (s.settled <==> exists i :: 0 <= i < |ops| && ops[i].Settled?)
  }

  lemma FirstOfferGrows(before: seq<Op>, op: Op, i: nat, a: Announcement)
    requires FirstOffer(before, i, a)
    ensures FirstOffer(before + [op], i, a)
  {
    assert forall j :: 0 <= j < i ==> (before + [op])[j] == before[j];
  }

  lemma FirstResultGrows(before: seq<Op>, op: Op, i: nat, f: Finish)
    requires FirstResult(before, i, f)
    ensures FirstResult(before + [op], i, f)
  {
    assert forall j :: 0 <= j < i ==> (before + [op])[j] == before[j];
  }

  /** Below the last operation, collecting depends on the earlier history alone. */
  lemma CollectsBefore(before: seq<Op>, op: Op, i: nat)
    requires i < |before|
    ensures Collects(before + [op], i) <==> Collects(before, i)
  {
    var ops := before + [op];
    assert forall j :: 0 <= j < |before| ==> ops[j] == before[j];
    if Collects(before, i) {
      var j :| 0 <= j < i && Offer(before[j]).Some?;
      assert Offer(ops[j]).Some?;
    }
    if Collects(ops, i) {
      var j :| 0 <= j < i && Offer(ops[j]).Some?;
      assert Offer(before[j]).Some?;
    }
  }

  /** The last operation collects exactly when it waits on an uncancelled session with an announcement. */
  lemma CollectsLast(before: seq<Op>, op: Op, s: Session)
    requires FlagsMatch(before, s) && StepMatches(before, s.step)
    ensures Collects(before + [op], |before|) <==> op.WaitStep? && !s.cancelled && !s.step.Unknown?
  {
    var ops := before + [op];
    assert forall j :: 0 <= j < |before| ==> ops[j] == before[j];
    if !s.step.Unknown? {
      SomeOffer(before, s.step);
      var j :| 0 <= j < |before| && Offer(before[j]).Some?;
      assert Offer(ops[j]).Some?;
    }
    if s.cancelled {
      var j :| 0 <= j < |before| && before[j].Cancelled?;
      assert ops[j].Cancelled?;
    }
  }

  lemma SomeOffer(ops: seq<Op>, step: StepSlot)
    requires StepMatches(ops, step) && !step.Unknown?
    ensures exists j :: 0 <= j < |ops| && Offer(ops[j]).Some?
  {
    if step.Known? {
      var i: nat :| FirstOffer(ops, i, step.announcement);
      assert Offer(ops[i]).Some?;
    } else {
      var i :| Collects(ops, i);
      var j :| 0 <= j < i && Offer(ops[j]).Some?;
    }
  }

  lemma ApplyKeepsFlags(before: seq<Op>, op: Op, s: Session, next: Session)
    requires FlagsMatch(before, s) && next == Apply(s, op)
    ensures FlagsMatch(before + [op], next)
  {
    var ops := before + [op];
    assert forall j :: 0 <= j < |before| ==> ops[j] == before[j];
    assert ops[|before|] == op;
    if s.cancelled {
      var i :| 0 <= i < |before| && before[i].Cancelled?;
      assert ops[i].Cancelled?;
    }
    if s.settled {
      var i :| 0 <= i < |before| && before[i].Settled?;
      assert ops[i].Settled?;
    }
  }

  lemma ApplyKeepsFinish(before: seq<Op>, op: Op, s: Session, next: Session)
    requires FinishMatches(before, s.finished) && next == Apply(s, op)
    ensures FinishMatches(before + [op], next.finished)
  {
    match s.finished
    case Some(f) =>
      var i :| FirstResult(before, i, f);
      FirstResultGrows(before, op, i, f);
    case None =>
      if next.finished.Some? {
        assert FirstResult(before + [op], |before|, next.finished.value);
      }
  }

  lemma ApplyKeepsStep(before: seq<Op>, op: Op, s: Session, next: Session)
    requires FlagsMatch(before, s) && StepMatches(before, s.step) && next == Apply(s, op)
    ensures StepMatches(before + [op], next.step)
  {
    var ops := before + [op];
    CollectsLast(before, op, s);
    match s.step
    case Unknown =>
      if next.step.Known? {
        assert FirstOffer(ops, |before|, next.step.announcement);
        forall i: nat ensures !Collects(ops, i) {}
      }
    case Known(a) =>
      var i :| FirstOffer(before, i, a);
      FirstOfferGrows(before, op, i, a);
      if next.step.Known? {
        forall i: nat ensures !Collects(ops, i) {
          if i < |before| { CollectsBefore(before, op, i); }
        }
      }
    case Taken =>
      var i :| Collects(before, i);
      CollectsBefore(before, op, i);
  }

  /**
   * The whole state as a function of the history: the first announcement is kept until the first
   * wait that is not cancelled takes it, and the first result is kept for good.
   */
  lemma {:induction false} StateFollowsHistory(ops: seq<Op>)
    ensures StepMatches(ops, Run(ops).step)
    ensures FinishMatches(ops, Run(ops).finished)
    ensures FlagsMatch(ops, Run(ops))
  {
    if ops != [] {
      var before, op := ops[..|ops| - 1], ops[|ops| - 1];
      assert ops == before + [op];
      StateFollowsHistory(before);
      ApplyKeepsFlags(before, op, Run(before), Run(ops));
      ApplyKeepsFinish(before, op, Run(before), Run(ops));
      ApplyKeepsStep(before, op, Run(before), Run(ops));
    }
  }

  /** Dropping later operations changes nothing about what an earlier wait collects. */
  lemma {:induction false} CollectsPrefix(ops: seq<Op>, n: nat, i: nat)
    requires i < n <= |ops|
    ensures Collects(ops[..n], i) <==> Collects(ops, i)
    decreases |ops|
  {
    if n == |ops| {
      assert ops[..n] == ops;
    } else {
      var before := ops[..|ops| - 1];
      CollectsPrefix(before, n, i);
      assert before[..n] == ops[..n];
      CollectsBefore(before, ops[|ops| - 1], i);
      assert before + [ops[|ops| - 1]] == ops;
    }
  }

  /** A wait takes the announcement exactly when it is the first that collects. */
  lemma TakenExactlyByFirstCollector(ops: seq<Op>, i: nat)
    requires i < |ops|
    ensures TookAt(ops, i) <==> Collects(ops, i) && forall k: nat :: k < i ==> !Collects(ops, k)
  {
    var before := ops[..i];
    StateFollowsHistory(before);
    CollectsLast(before, ops[i], Run(before));
    assert before + [ops[i]] == ops[..i + 1];
    CollectsPrefix(ops, i + 1, i);
    forall k: nat | k < i ensures Collects(before, k) <==> Collects(ops, k) {
      CollectsPrefix(ops, i, k);
    }
  }

  /** The announcement is handed out at most once. */
  lemma AnnouncementIsHandedOutOnce(ops: seq<Op>, i: nat, k: nat)
    requires i < |ops| && k < |ops| && TookAt(ops, i) && TookAt(ops, k)
    ensures i == k
  {
    TakenExactlyByFirstCollector(ops, i);
    TakenExactlyByFirstCollector(ops, k);
  }

  /** What is handed out is the first announcement ever offered, whatever is offered later. */
  lemma FirstAnnouncementIsHandedOut(ops: seq<Op>, i: nat)
    requires i < |ops| && TookAt(ops, i)
    ensures exists j: nat, a :: j < i && FirstOffer(ops, j, a) && LookForStep(Run(ops[..i]), ops[i].expired).1 == Got(a)
  {
    var before := ops[..i];
    StateFollowsHistory(before);
    var a := Run(before).step.announcement;
    var j :| FirstOffer(before, j, a);
    assert FirstOffer(ops, j, a);
  }

  /** The result a session reports never changes once recorded, up to its expiry. */
  lemma ResultIsFinal(ops: seq<Op>, more: seq<Op>)
    requires Run(ops).finished.Some?
    ensures Run(ops + more).finished == Run(ops).finished
    decreases |more|
  {
    if more == [] {
      assert ops + more == ops;
    } else {
      ResultIsFinal(ops, more[..|more| - 1]);
      assert (ops + more)[..|ops + more| - 1] == ops + more[..|more| - 1];
    }
  }

  /** After run_session, with or without a panic in the body, everybody waiting gets an answer. */
  lemma SettledSessionsAnswer(ops: seq<Op>, expired: bool)
    requires exists i :: 0 <= i < |ops| && ops[i].Settled?
    ensures Run(ops).settled && Run(ops).finished.Some? && !Run(ops).step.Unknown?
    ensures LookForStep(Run(ops), expired).1.Got?
  {
    StateFollowsHistory(ops);
    var i :| 0 <= i < |ops| && ops[i].Settled?;
    assert Offer(ops[i]).Some? && Result(ops[i]).Some?;
  }

  /**
   * What a turn of the wait answers, by the history alone: a cancel comes before everything else,
   * then a step that was taken already, then the first step offered, and only then the deadline.
   */
  lemma WaitAnswers(ops: seq<Op>, expired: bool, look: Look)
    requires look == LookForStep(Run(ops), expired).1
    ensures (exists i :: 0 <= i < |ops| && ops[i].Cancelled?) ==> look == Got(Failed(Inactive))
    ensures (forall i :: 0 <= i < |ops| ==> !ops[i].Cancelled?) ==>
              && ((exists i :: Collects(ops, i)) ==> look == Got(Failed(Unavailable)))
              && (forall i, a :: FirstOffer(ops, i, a) && (forall k :: !Collects(ops, k)) ==> look == Got(a))
              && ((forall i :: 0 <= i < |ops| ==> Offer(ops[i]).None?) ==>
                    look == if expired then Got(Failed(TimedOut)) else Waiting)
  {
    StateFollowsHistory(ops);
    match Run(ops).step
    case Unknown =>
    case Known(a) =>
      var j: nat :| FirstOffer(ops, j, a);
      assert Offer(ops[j]).Some?;
    case Taken =>
      var i: nat :| Collects(ops, i);
      var j :| 0 <= j < i && Offer(ops[j]).Some?;
  }

  /** A session reports success exactly when its first result was one and is younger than the retention. */
  lemma SucceededIff(ops: seq<Op>, now: nat, retention: nat)
    ensures StateAt(Run(ops), now, retention) == Some(Succeeded) <==>
            exists i: nat, at: nat :: FirstResult(ops, i, Finish(true, at)) && 0 < retention && now < at + retention
  {
    StateFollowsHistory(ops);
    if StateAt(Run(ops), now, retention) == Some(Succeeded) {
      var f := Run(ops).finished.value;
      var i :| FirstResult(ops, i, f);
      assert FirstResult(ops, i, Finish(true, f.at));
    }
    if i: nat, at: nat :| FirstResult(ops, i, Finish(true, at)) && 0 < retention && now < at + retention {
      assert Result(ops[i]).Some?;
      var f := Run(ops).finished.value;
      var k :| FirstResult(ops, k, f);
      assert k == i;
    }
  }

  // ---------------------------------------------------------------- the session object

  class McpLoginSession {
    var step: StepSlot
    var finished: Option<Finish>
    var settled: bool
    var cancelled: bool

    ghost function View(): Session
      reads this
    {
      Session(step, finished, settled, cancelled)
    }

    constructor ()
      ensures View() == NEW
    {
      step, finished, settled, cancelled := Unknown, None, false, false;
    }

    method Cancel()
      modifies this
      ensures View() == Apply(old(View()), Cancelled)
    {
      cancelled := true;
    }

    method RecordFinish(succeeded: bool, now: nat)
      modifies this
      ensures View() == Apply(old(View()), Finished(succeeded, now))
    {
      if finished.None? {
        finished := Some(Finish(succeeded, now));
      }
    }

    method PublishStep(announcement: Announcement)
      modifies this
      ensures View() == Apply(old(View()), StepKnown(announcement))
    {
      if !step.Unknown? {
        return;
      }
      step := Known(announcement);
    }

    method Settle(now: nat)
      modifies this
      ensures View() == Apply(old(View()), Settled(now))
    {
      if step.Unknown? {
        step := Known(Failed(Unavailable));
      }
      if finished.None? {
        finished := Some(Finish(false, now));
      }
      settled := true;
    }

    /** One turn of the wait; the original swaps Taken in first and puts Unknown back. */
    method TakeStep(expired: bool) returns (look: Look)
      modifies this
      ensures (View(), look) == (LookForStep(old(View()), expired).0, LookForStep(old(View()), expired).1)
    {
      if cancelled {
        return Got(Failed(Inactive));
      }
      var found := step;
      step := Taken;
      match found {
        case Known(a) => return Got(a);
        case Taken => return Got(Failed(Unavailable));
        case Unknown => step := Unknown;
      }
      look := if expired then Got(Failed(TimedOut)) else Waiting;
    }
  }
}
