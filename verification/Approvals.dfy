/**
 * The approval registry.  Answering is two critical sections with an unlocked call of the
 * responder between them, so it races with timeouts, cancellation, finish and close.
 */
module Approvals {
  import opened Wrappers

  const MAX_PENDING := 16
  const MAX_RETAINED := 32

  datatype RequestId = RequestId(text: string)

  datatype Decision = AllowOnce | AllowForSession | Deny

  datatype Status = Pending | Approved | Denied | Cancelled | Expired | TimedOut

  /** `held` says whether the entry still owns its responder. */
  datatype Entry = Entry(
    id: RequestId,
    decisions: set<Decision>,
    status: Status,
    decision: Option<Decision>,
    held: bool,
    submitting: bool,
    deadline: nat)

  datatype Registry = Registry(entries: seq<Entry>, closed: bool, timerRunning: bool)

  datatype RegisterError = InvalidApproval | SessionUnavailable | TooManyPending | LimitReached

  datatype AnswerError = UnknownApproval | NotOffered | NoLongerPending | ApprovalExpired | ResponseFailed

  /** What the first critical section of an answer decides. */
  datatype Admission = Submit | Replay | Refuse(error: AnswerError)

  // ---------------------------------------------------------------- searching

  function FindFrom(entries: seq<Entry>, id: RequestId, start: nat): (r: Option<nat>)
    requires start <= |entries|
    ensures r.Some? ==> start <= r.value < |entries| && entries[r.value].id == id
    decreases |entries| - start
  {
    if start == |entries| then None
    else if entries[start].id == id then Some(start)
    else FindFrom(entries, id, start + 1)
  }

  function Find(entries: seq<Entry>, id: RequestId): (r: Option<nat>)
    ensures r.Some? ==> r.value < |entries| && entries[r.value].id == id
  {
    FindFrom(entries, id, 0)
  }

  function Lookup(entries: seq<Entry>, id: RequestId): Option<Entry> {
    match Find(entries, id)
    case None => None
    case Some(i) => Some(entries[i])
  }

  function FirstSettled(entries: seq<Entry>, start: nat): (r: Option<nat>)
    requires start <= |entries|
    ensures r.Some? ==> start <= r.value < |entries| && !entries[r.value].status.Pending?
    decreases |entries| - start
  {
    if start == |entries| then None
    else if !entries[start].status.Pending? then Some(start)
    else FirstSettled(entries, start + 1)
  }

  function CountPending(entries: seq<Entry>): nat {
    if entries == [] then 0
    else CountPending(entries[..|entries| - 1]) + if entries[|entries| - 1].status.Pending? then 1 else 0
  }

  predicate Awaiting(e: Entry) { e.status.Pending? && !e.submitting }

  predicate Overdue(e: Entry, now: nat) { Awaiting(e) && e.deadline <= now }

  // ---------------------------------------------------------------- critical sections

  function Remove(entries: seq<Entry>, i: nat): seq<Entry>
    requires i < |entries|
  {
    entries[..i] + entries[i + 1..]
  }

  function NewEntry(id: RequestId, decisions: set<Decision>, deadline: nat): Entry {
    Entry(id, decisions, Pending, None, true, false, deadline)
  }

  /** At capacity the oldest settled entry makes room, if there is one. */
  function MakeRoom(entries: seq<Entry>): Option<seq<Entry>> {
    if |entries| < MAX_RETAINED then Some(entries)
    else match FirstSettled(entries, 0)
         case None => None
         case Some(i) => Some(Remove(entries, i))
  }

  /** On success the flag says whether the timer has to be started. */
  function Register(r: Registry, id: RequestId, decisions: set<Decision>, deadline: nat)
    : Result<(Registry, bool), RegisterError>
  {
    if Deny !in decisions then Err(InvalidApproval)
    else if r.closed || Find(r.entries, id).Some? then Err(SessionUnavailable)
    else if CountPending(r.entries) >= MAX_PENDING then Err(TooManyPending)
    else match MakeRoom(r.entries)
         case None => Err(LimitReached)
         case Some(kept) =>
           Ok((Registry(kept + [NewEntry(id, decisions, deadline)], r.closed, true), !r.timerRunning))
  }

  function SettleEntry(r: Registry, id: RequestId, status: Status, includeSubmitting: bool): (Registry, bool) {
    match Find(r.entries, id)
    case None => (r, false)
    case Some(i) =>
      var e := r.entries[i];
      if !e.status.Pending? || (e.submitting && !includeSubmitting) then (r, false)
      else (r.(entries := r.entries[i := e.(status := status, held := false)]), true)
  }

  function Settled(e: Entry, includeSubmitting: bool): Entry {
    if e.status.Pending? && (includeSubmitting || !e.submitting)
    then e.(status := Expired, held := false) else e
  }

  function SettleEach(entries: seq<Entry>, includeSubmitting: bool): (r: seq<Entry>)
    ensures |r| == |entries|
    ensures forall j :: 0 <= j < |r| ==> r[j] == Settled(entries[j], includeSubmitting)
  {
    seq(|entries|, i requires 0 <= i < |entries| => Settled(entries[i], includeSubmitting))
  }

  function SettleAll(r: Registry, includeSubmitting: bool): (Registry, bool) {
    var settled := SettleEach(r.entries, includeSubmitting);
    (r.(closed := true, entries := settled), !r.closed || settled != r.entries)
  }

  function TimedOutEntry(e: Entry, now: nat): Entry {
    if Overdue(e, now) then e.(status := TimedOut, held := false) else e
  }

  function ExpireEach(entries: seq<Entry>, now: nat): (r: seq<Entry>)
    ensures |r| == |entries|
    ensures forall j :: 0 <= j < |r| ==> r[j] == TimedOutEntry(entries[j], now)
  {
    seq(|entries|, i requires 0 <= i < |entries| => TimedOutEntry(entries[i], now))
  }

  /** The requests whose responders a timeout takes out of the registry, in order. */
  function TakenOverdue(entries: seq<Entry>, now: nat): seq<RequestId> {
    if entries == [] then []
    else
      var e := entries[|entries| - 1];
      TakenOverdue(entries[..|entries| - 1], now) + if Overdue(e, now) && e.held then [e.id] else []
  }

  function ExpireOverdue(r: Registry, now: nat): (Registry, seq<RequestId>) {
    (r.(entries := ExpireEach(r.entries, now)), TakenOverdue(r.entries, now))
  }

  function BeginAnswer(r: Registry, id: RequestId, d: Decision): (Registry, Admission) {
    match Find(r.entries, id)
    case None => (r, Refuse(UnknownApproval))
    case Some(i) =>
      var e := r.entries[i];
      if d !in e.decisions then (r, Refuse(NotOffered))
      else if e.decision == Some(d) then (r, Replay)
      else if r.closed || !e.status.Pending? || e.submitting then (r, Refuse(NoLongerPending))
      else (r.(entries := r.entries[i := e.(submitting := true, held := false)]),
            if e.held then Submit else Refuse(NoLongerPending))
  }

  function StatusFor(d: Decision): Status {
    if d.Deny? then Denied else Approved
  }

  /** The entry after the responder returned. */
  function Recorded(e: Entry, d: Decision, delivered: bool): Entry {
    if delivered then e.(submitting := false, status := StatusFor(d), decision := Some(d))
    else e.(submitting := false, status := if e.status.Pending? then Expired else e.status)
  }

  function EndAnswer(r: Registry, id: RequestId, d: Decision, delivered: bool)
    : (Registry, Result<Entry, AnswerError>)
  {
    match Find(r.entries, id)
    case None => (r, Err(ApprovalExpired))
    case Some(i) =>
      var e := Recorded(r.entries[i], d, delivered);
      (r.(entries := r.entries[i := e]), if delivered then Ok(e) else Err(ResponseFailed))
  }

  // ---------------------------------------------------------------- the concurrent system

  /** An answer between its two critical sections: before and after its responder returned. */
  datatype Call = Calling(decision: Decision) | Returned(decision: Decision, delivered: bool)

  /** One invocation of a responder. */
  datatype Delivery = Delivery(id: RequestId, decision: Decision, delivered: bool, byAnswer: bool)

  /**
   * `calls` are the answers in flight by the request they answer; `overlapped` records that two
   * of them ever met on one request.  `denials` are responders that a timeout took out and has
   * not invoked yet, `offered` records every request ever registered, and `log` every invocation
   * of a responder.
   */
  datatype System = System(
    reg: Registry,
    offered: map<RequestId, set<Decision>>,
    calls: map<RequestId, Call>,
    overlapped: bool,
    denials: seq<RequestId>,
    log: seq<Delivery>,
    clock: nat)

  const START := System(Registry([], false, false), map[], map[], false, [], [], 0)

  datatype Action =
    | Registering(id: RequestId, decisions: set<Decision>, spawned: bool)
    | Cancelling(id: RequestId)
    | Expiring(id: RequestId)
    | Finishing
    | Closing
    | Ticking(elapsed: nat)
    | Overdueing
    | Denying(index: nat, delivered: bool)
    | BeginningAnswer(id: RequestId, decision: Decision)
    | Responding(id: RequestId, delivered: bool)
    | EndingAnswer(id: RequestId)
    | StoppingTimer

  function Registered(s: System, id: RequestId, decisions: set<Decision>, reg: Registry): System {
    s.(reg := reg, offered := s.offered[id := decisions])
  }

  function ExpireAt(s: System, now: nat): System {
    var (reg, taken) := ExpireOverdue(s.reg, now);
    s.(reg := reg, denials := s.denials + taken)
  }

  /** A timer that cannot be spawned expires every entry in the same step. */
  function AfterFailedSpawn(s: System, timeout: nat): System {
    ExpireAt(s.(reg := s.reg.(timerRunning := false)), s.clock + timeout)
  }

  function AfterRegister(s: System, id: RequestId, decisions: set<Decision>, spawned: bool, timeout: nat): System {
    if id in s.offered then s
    else match Register(s.reg, id, decisions, s.clock + timeout)
         case Err(_) => s
         case Ok((reg, startTimer)) =>
           if !startTimer || spawned then Registered(s, id, decisions, reg)
           else AfterFailedSpawn(Registered(s, id, decisions, reg), timeout)
  }

  function AfterDenial(s: System, i: nat, delivered: bool): System {
    if i >= |s.denials| then s
    else s.(denials := s.denials[..i] + s.denials[i + 1..],
            log := s.log + [Delivery(s.denials[i], Deny, delivered, false)])
  }

  function AfterBegin(s: System, id: RequestId, d: Decision): System {
    var (reg, admission) := BeginAnswer(s.reg, id, d);
    if admission.Submit?
    then s.(reg := reg, calls := s.calls[id := Calling(d)], overlapped := s.overlapped || id in s.calls)
    else s.(reg := reg)
  }

  function AfterResponse(s: System, id: RequestId, delivered: bool): System {
    if id !in s.calls || !s.calls[id].Calling? then s
    else s.(calls := s.calls[id := Returned(s.calls[id].decision, delivered)],
            log := s.log + [Delivery(id, s.calls[id].decision, delivered, true)])
  }

  function AfterEnd(s: System, id: RequestId): System {
    if id !in s.calls || !s.calls[id].Returned? then s
    else s.(calls := s.calls - {id},
            reg := EndAnswer(s.reg, id, s.calls[id].decision, s.calls[id].delivered).0)
  }

  function AfterTimerLook(s: System): System {
    if s.reg.closed || forall e | e in s.reg.entries :: !Awaiting(e)
    then s.(reg := s.reg.(timerRunning := false)) else s
  }

  /**
   * One atomic step; an action that is not enabled changes nothing.  A request id is registered
   * at most once.
   */
  function Step(s: System, a: Action, timeout: nat): System {
    match a
    case Registering(id, decisions, spawned) => AfterRegister(s, id, decisions, spawned, timeout)
    case Cancelling(id) => s.(reg := SettleEntry(s.reg, id, Cancelled, true).0)
    case Expiring(id) => s.(reg := SettleEntry(s.reg, id, Expired, false).0)
    case Finishing => s.(reg := SettleAll(s.reg, false).0)
    case Closing => s.(reg := SettleAll(s.reg, true).0)
    case Ticking(elapsed) => s.(clock := s.clock + elapsed)
    case Overdueing => ExpireAt(s, s.clock)
    case Denying(i, delivered) => AfterDenial(s, i, delivered)
    case BeginningAnswer(id, d) => AfterBegin(s, id, d)
    case Responding(id, delivered) => AfterResponse(s, id, delivered)
    case EndingAnswer(id) => AfterEnd(s, id)
    case StoppingTimer => AfterTimerLook(s)
  }

  function Run(s: System, actions: seq<Action>, timeout: nat): System {
    if actions == [] then s
    else Step(Run(s, actions[..|actions| - 1], timeout), actions[|actions| - 1], timeout)
  }

  // ---------------------------------------------------------------- invariants

  ghost predicate DistinctIds(entries: seq<Entry>) {
    forall i, j :: 0 <= i < j < |entries| ==> entries[i].id != entries[j].id
  }

  /** A responder is held exactly while the entry awaits an answer or a timeout. */
  predicate EntryOk(e: Entry) {
    && (e.held <==> Awaiting(e))
    && (e.decision.Some? <==> e.status.Approved? || e.status.Denied?)
    && (e.decision.Some? ==> e.status == StatusFor(e.decision.value) && !e.submitting)
    && (e.status.TimedOut? ==> !e.submitting)
  }

  ghost predicate RegistryOk(r: Registry) {
    && DistinctIds(r.entries)
    && (forall j :: 0 <= j < |r.entries| ==> EntryOk(r.entries[j]))
    && CountPending(r.entries) <= MAX_PENDING
    && |r.entries| <= MAX_RETAINED
  }

  ghost predicate TimerOk(r: Registry) {
    !r.closed && !r.timerRunning ==> forall j :: 0 <= j < |r.entries| ==> !Awaiting(r.entries[j])
  }

  /** How often the responder registered for x was invoked. */
  function Invocations(log: seq<Delivery>, x: RequestId): nat {
    if log == [] then 0
    else Invocations(log[..|log| - 1], x) + if log[|log| - 1].id == x then 1 else 0
  }

  function Occurrences(ids: seq<RequestId>, x: RequestId): nat {
    if ids == [] then 0
    else Occurrences(ids[..|ids| - 1], x) + if ids[|ids| - 1] == x then 1 else 0
  }

  predicate Holds(o: Option<Entry>) { o.Some? && o.value.held }

  predicate IsCalling(calls: map<RequestId, Call>, x: RequestId) { x in calls && calls[x].Calling? }

  /**
   * The responder registered for x is in at most one place: held by its entry, in an answer
   * call, in a denial queue, or already invoked.
   */
  ghost predicate Once(o: Option<Entry>, calls: map<RequestId, Call>, queued: nat, invoked: nat, x: RequestId) {
    && invoked + queued + (if Holds(o) then 1 else 0) + (if IsCalling(calls, x) then 1 else 0) <= 1
    && (x in calls ==> queued == 0 && !Holds(o) && (o.Some? ==> o.value.submitting))
  }

  /** What is shown for x was offered, and delivered by an answer. */
  ghost predicate Truthful(s: System, x: RequestId, timeout: nat) {
    var o := Lookup(s.reg.entries, x);
    && (o.Some? ==>
          && x in s.offered
          && o.value.decisions == s.offered[x]
          && o.value.deadline <= s.clock + timeout
          && (o.value.decision.Some? ==>
                && o.value.decision.value in s.offered[x]
                && Delivery(x, o.value.decision.value, true, true) in s.log))
    && (x in s.calls ==>
          && x in s.offered
          && s.calls[x].decision in s.offered[x]
          && (s.calls[x].Returned? ==> Delivery(x, s.calls[x].decision, s.calls[x].delivered, true) in s.log))
    && (Occurrences(s.denials, x) + Invocations(s.log, x) > 0 ==> x in s.offered)
  }

  ghost predicate InvFor(s: System, x: RequestId, timeout: nat) {
    && Once(Lookup(s.reg.entries, x), s.calls, Occurrences(s.denials, x), Invocations(s.log, x), x)
    && Truthful(s, x, timeout)
  }

  ghost predicate Inv(s: System, timeout: nat) {
    && RegistryOk(s.reg)
    && TimerOk(s.reg)
    && !s.overlapped
    && forall x :: InvFor(s, x, timeout)
  }

  // ---------------------------------------------------------------- counting

  lemma {:induction false} CountBounded(entries: seq<Entry>)
    ensures CountPending(entries) <= |entries|
    ensures CountPending(entries) == |entries| ==> forall j :: 0 <= j < |entries| ==> entries[j].status.Pending?
    ensures (forall j :: 0 <= j < |entries| ==> entries[j].status.Pending?) ==> CountPending(entries) == |entries|
  {
    if entries != [] {
      var before := entries[..|entries| - 1];
      CountBounded(before);
      assert forall j :: 0 <= j < |before| ==> before[j] == entries[j];
    }
  }

  /** Fewer entries of the result are pending when each pending one was pending before. */
  lemma {:induction false} CountShrinks(a: seq<Entry>, b: seq<Entry>)
    requires |a| == |b|
    requires forall j :: 0 <= j < |a| && b[j].status.Pending? ==> a[j].status.Pending?
    ensures CountPending(b) <= CountPending(a)
  {
    if a != [] {
      CountShrinks(a[..|a| - 1], b[..|b| - 1]);
    }
  }

  lemma {:induction false} CountRemove(entries: seq<Entry>, i: nat)
    requires i < |entries|
    ensures CountPending(Remove(entries, i))
            == CountPending(entries) - if entries[i].status.Pending? then 1 else 0
  {
    var n := |entries|;
    var removed := Remove(entries, i);
    if i == n - 1 {
      assert removed == entries[..n - 1];
    } else {
      CountRemove(entries[..n - 1], i);
      assert removed[..|removed| - 1] == Remove(entries[..n - 1], i);
    }
  }

  lemma {:induction false} OccurrencesAppend(a: seq<RequestId>, b: seq<RequestId>, x: RequestId)
    ensures Occurrences(a + b, x) == Occurrences(a, x) + Occurrences(b, x)
  {
    if b == [] {
      assert a + b == a;
    } else {
      assert (a + b)[..|a + b| - 1] == a + b[..|b| - 1];
      OccurrencesAppend(a, b[..|b| - 1], x);
    }
  }

  lemma {:induction false} OccurrencesRemove(ids: seq<RequestId>, i: nat, x: RequestId)
    requires i < |ids|
    ensures Occurrences(ids[..i] + ids[i + 1..], x) == Occurrences(ids, x) - if ids[i] == x then 1 else 0
  {
    var before := ids[..|ids| - 1];
    var removed := ids[..i] + ids[i + 1..];
    if i == |before| {
      assert removed == before;
    } else {
      OccurrencesRemove(before, i, x);
      assert removed[..|removed| - 1] == before[..i] + before[i + 1..];
    }
  }

  lemma InvocationsExtend(log: seq<Delivery>, d: Delivery, x: RequestId)
    ensures Invocations(log + [d], x) == Invocations(log, x) + if d.id == x then 1 else 0
  {
    assert (log + [d])[..|log|] == log;
  }

  // ---------------------------------------------------------------- what a lookup sees afterwards

  lemma {:induction false} FindsFirst(entries: seq<Entry>, id: RequestId, start: nat)
    requires start <= |entries|
    ensures match FindFrom(entries, id, start)
            case None => forall j :: start <= j < |entries| ==> entries[j].id != id
            case Some(i) => forall j :: start <= j < i ==> entries[j].id != id
    decreases |entries| - start
  {
    if start < |entries| && entries[start].id != id {
      FindsFirst(entries, id, start + 1);
    }
  }

  /** The eviction search skips nothing: it fails only when every entry is pending. */
  lemma {:induction false} SearchesAllSettled(entries: seq<Entry>, start: nat)
    requires start <= |entries|
    ensures match FirstSettled(entries, start)
            case None => forall j :: start <= j < |entries| ==> entries[j].status.Pending?
            case Some(i) => forall j :: start <= j < i ==> entries[j].status.Pending?
    decreases |entries| - start
  {
    if start < |entries| && entries[start].status.Pending? {
      SearchesAllSettled(entries, start + 1);
    }
  }

  lemma LookupIs(entries: seq<Entry>, i: nat)
    requires DistinctIds(entries) && i < |entries|
    ensures Find(entries, entries[i].id) == Some(i)
  {
    FindsFirst(entries, entries[i].id, 0);
  }

  lemma LookupEach(a: seq<Entry>, b: seq<Entry>, x: RequestId)
    requires |a| == |b| && DistinctIds(a)
    requires forall j :: 0 <= j < |a| ==> a[j].id == b[j].id
    ensures Find(a, x) == Find(b, x)
  {
    FindsFirst(a, x, 0);
    FindsFirst(b, x, 0);
    if Find(a, x).Some? {
      assert b[Find(a, x).value].id == x;
    }
  }

  lemma RemoveKeeps(entries: seq<Entry>, i: nat)
    requires DistinctIds(entries) && i < |entries|
    ensures DistinctIds(Remove(entries, i))
    ensures forall e :: e in Remove(entries, i) ==> e in entries
    ensures forall x :: Lookup(Remove(entries, i), x).None? || Lookup(Remove(entries, i), x) == Lookup(entries, x)
  {
    var kept := Remove(entries, i);
    assert forall j :: 0 <= j < |kept| ==> kept[j] == entries[if j < i then j else j + 1];
    forall x ensures Lookup(kept, x).None? || Lookup(kept, x) == Lookup(entries, x) {
      if Find(kept, x).Some? {
        var j := Find(kept, x).value;
        LookupIs(entries, if j < i then j else j + 1);
      }
    }
  }

  /** Making room forgets one settled entry at most, and always succeeds. */
  lemma MakeRoomKeeps(r: Registry)
    requires RegistryOk(r) && CountPending(r.entries) < MAX_PENDING
    ensures MakeRoom(r.entries).Some?
    ensures var kept := MakeRoom(r.entries).value;
            && RegistryOk(r.(entries := kept)) && |kept| < MAX_RETAINED
            && CountPending(kept) < MAX_PENDING
            && forall x :: Lookup(kept, x).None? || Lookup(kept, x) == Lookup(r.entries, x)
  {
    if |r.entries| >= MAX_RETAINED {
      CountBounded(r.entries);
      SearchesAllSettled(r.entries, 0);
      var i := FirstSettled(r.entries, 0).value;
      CountRemove(r.entries, i);
      RemoveKeeps(r.entries, i);
    }
  }

  lemma AppendKeeps(r: Registry, e: Entry)
    requires RegistryOk(r) && |r.entries| < MAX_RETAINED && CountPending(r.entries) < MAX_PENDING
    requires EntryOk(e) && Lookup(r.entries, e.id).None?
    ensures RegistryOk(r.(entries := r.entries + [e]))
    ensures forall x :: Lookup(r.entries + [e], x) == if x == e.id then Some(e) else Lookup(r.entries, x)
  {
    var b := r.entries + [e];
    assert b[..|b| - 1] == r.entries;
    FindsFirst(r.entries, e.id, 0);
    assert DistinctIds(b);
    forall x ensures Lookup(b, x) == if x == e.id then Some(e) else Lookup(r.entries, x) {
      LookupLast(b, x);
    }
  }

  lemma RegisterKeepsRegistryOk(r: Registry, id: RequestId, decisions: set<Decision>, deadline: nat)
    requires RegistryOk(r)
    ensures Register(r, id, decisions, deadline) != Err(LimitReached)
    ensures Register(r, id, decisions, deadline).Ok? ==>
              var next := Register(r, id, decisions, deadline).value.0;
              && RegistryOk(next)
              && Lookup(r.entries, id).None?
              && Lookup(next.entries, id) == Some(NewEntry(id, decisions, deadline))
              && forall x :: x != id ==> Lookup(next.entries, x).None? || Lookup(next.entries, x) == Lookup(r.entries, x)
  {
    if CountPending(r.entries) < MAX_PENDING {
      MakeRoomKeeps(r);
      var kept := r.(entries := MakeRoom(r.entries).value);
      if Register(r, id, decisions, deadline).Ok? {
        AppendKeeps(kept, NewEntry(id, decisions, deadline));
        var next := Register(r, id, decisions, deadline).value.0;
        assert next.entries == kept.entries + [NewEntry(id, decisions, deadline)];
      }
    }
  }

  lemma UpdateKeepsRegistryOk(r: Registry, i: nat, e: Entry, closed: bool)
    requires RegistryOk(r) && i < |r.entries| && EntryOk(e)
    requires e.id == r.entries[i].id && (e.status.Pending? ==> r.entries[i].status.Pending?)
    ensures RegistryOk(r.(entries := r.entries[i := e], closed := closed))
    ensures forall x :: Lookup(r.entries[i := e], x) == if x == e.id then Some(e) else Lookup(r.entries, x)
  {
    var b := r.entries[i := e];
    CountShrinks(r.entries, b);
    LookupIs(r.entries, i);
    forall x ensures Lookup(b, x) == if x == e.id then Some(e) else Lookup(r.entries, x) {
      LookupEach(r.entries, b, x);
    }
  }

  lemma EachKeepsRegistryOk(r: Registry, b: seq<Entry>, closed: bool)
    requires RegistryOk(r) && |b| == |r.entries|
    requires forall j :: 0 <= j < |b| ==> EntryOk(b[j]) && b[j].id == r.entries[j].id
    requires forall j :: 0 <= j < |b| && b[j].status.Pending? ==> r.entries[j].status.Pending?
    ensures RegistryOk(r.(entries := b, closed := closed))
    ensures forall x :: Find(b, x) == Find(r.entries, x)
  {
    CountShrinks(r.entries, b);
    forall x ensures Find(b, x) == Find(r.entries, x) {
      LookupEach(r.entries, b, x);
    }
  }

  lemma {:induction false} TakenOccurrences(entries: seq<Entry>, now: nat, x: RequestId)
    requires DistinctIds(entries)
    ensures Occurrences(TakenOverdue(entries, now), x)
            == match Lookup(entries, x)
               case None => 0
               case Some(e) => if Overdue(e, now) && e.held then 1 else 0
  {
    if entries != [] {
      var before, e := entries[..|entries| - 1], entries[|entries| - 1];
      TakenOccurrences(before, now, x);
      var taken := if Overdue(e, now) && e.held then [e.id] else [];
      OccurrencesAppend(TakenOverdue(before, now), taken, x);
      assert taken == [] || (taken[..0] == [] && Occurrences(taken, x) == if e.id == x then 1 else 0);
      LookupLast(entries, x);
    }
  }

  lemma LookupLast(entries: seq<Entry>, x: RequestId)
    requires DistinctIds(entries) && entries != []
    ensures var before, e := entries[..|entries| - 1], entries[|entries| - 1];
            && (e.id == x ==> Lookup(entries, x) == Some(e) && Lookup(before, x).None?)
            && (e.id != x ==> Lookup(entries, x) == Lookup(before, x))
  {
    var before, e := entries[..|entries| - 1], entries[|entries| - 1];
    FindsFirst(before, x, 0);
    FindsFirst(entries, x, 0);
    if e.id == x {
      LookupIs(entries, |entries| - 1);
    } else if Find(before, x).Some? {
      LookupIs(entries, Find(before, x).value);
    } else {
      assert forall j :: 0 <= j < |before| ==> before[j] == entries[j];
      assert Find(entries, x).None?;
    }
  }

  // ---------------------------------------------------------------- each step keeps the invariant

  lemma RegisteredKeepsInv(s: System, id: RequestId, decisions: set<Decision>, timeout: nat,
                           reg: Registry, startTimer: bool, next: System)
    requires Inv(s, timeout) && id !in s.offered
    requires Register(s.reg, id, decisions, s.clock + timeout) == Ok((reg, startTimer))
    requires next == Registered(s, id, decisions, reg)
    ensures Inv(next, timeout)
  {
    AcceptedLookup(s.reg, id, decisions, s.clock + timeout, reg, startTimer);
    forall x ensures InvFor(next, x, timeout) {
      assert InvFor(s, x, timeout);
    }
  }

  lemma AcceptedLookup(r: Registry, id: RequestId, decisions: set<Decision>, deadline: nat,
                       reg: Registry, startTimer: bool)
    requires RegistryOk(r) && Register(r, id, decisions, deadline) == Ok((reg, startTimer))
    ensures RegistryOk(reg) && reg.timerRunning
    ensures Lookup(reg.entries, id) == Some(NewEntry(id, decisions, deadline))
    ensures forall x :: x != id ==> Lookup(reg.entries, x).None? || Lookup(reg.entries, x) == Lookup(r.entries, x)
  {
    RegisterKeepsRegistryOk(r, id, decisions, deadline);
  }

  lemma FailedSpawnKeepsInv(s: System, timeout: nat, next: System)
    requires Inv(s, timeout) && next == AfterFailedSpawn(s, timeout)
    ensures Inv(next, timeout)
  {
    var failed := s.(reg := s.reg.(timerRunning := false));
    forall x ensures InvFor(failed, x, timeout) {
      assert InvFor(s, x, timeout);
    }
    ExpireKeepsInv(failed, s.clock + timeout, timeout, next);
  }

  /** A registration that is accepted either ends there or expires everything right away. */
  lemma RegisterSplits(s: System, id: RequestId, decisions: set<Decision>, spawned: bool, timeout: nat,
                       reg: Registry, startTimer: bool, next: System)
    requires id !in s.offered && Register(s.reg, id, decisions, s.clock + timeout) == Ok((reg, startTimer))
    requires next == AfterRegister(s, id, decisions, spawned, timeout)
    ensures next == if !startTimer || spawned then Registered(s, id, decisions, reg)
                    else AfterFailedSpawn(Registered(s, id, decisions, reg), timeout)
  {
  }

  lemma AcceptedRegisterKeepsInv(s: System, id: RequestId, decisions: set<Decision>, spawned: bool, timeout: nat,
                                 reg: Registry, startTimer: bool, next: System)
    requires Inv(s, timeout)
    requires id !in s.offered && Register(s.reg, id, decisions, s.clock + timeout) == Ok((reg, startTimer))
    requires next == AfterRegister(s, id, decisions, spawned, timeout)
    ensures Inv(next, timeout)
  {
    RegisterSplits(s, id, decisions, spawned, timeout, reg, startTimer, next);
    var registered := Registered(s, id, decisions, reg);
    RegisteredKeepsInv(s, id, decisions, timeout, reg, startTimer, registered);
    if startTimer && !spawned {
      FailedSpawnKeepsInv(registered, timeout, next);
    }
  }

  lemma RegisterKeepsInv(s: System, id: RequestId, decisions: set<Decision>, timeout: nat, spawned: bool, next: System)
    requires Inv(s, timeout) && next == AfterRegister(s, id, decisions, spawned, timeout)
    ensures Inv(next, timeout)
  {
    match Register(s.reg, id, decisions, s.clock + timeout)
    case Err(_) =>
    case Ok((reg, startTimer)) =>
      if id !in s.offered {
        AcceptedRegisterKeepsInv(s, id, decisions, spawned, timeout, reg, startTimer, next);
      }
  }

  /** An expiry keeps the invariant, and needs no timer when it is late enough for every entry. */
  lemma ExpireKeepsInv(s: System, now: nat, timeout: nat, next: System)
    requires RegistryOk(s.reg) && forall x :: InvFor(s, x, timeout)
    requires !s.overlapped && (TimerOk(s.reg) || now >= s.clock + timeout)
    requires next == ExpireAt(s, now)
    ensures Inv(next, timeout)
  {
    EachKeepsRegistryOk(s.reg, next.reg.entries, s.reg.closed);
    forall x ensures InvFor(next, x, timeout) {
      assert InvFor(s, x, timeout);
      TakenOccurrences(s.reg.entries, now, x);
      OccurrencesAppend(s.denials, TakenOverdue(s.reg.entries, now), x);
    }
    forall j | 0 <= j < |next.reg.entries| && now >= s.clock + timeout
      ensures !Awaiting(next.reg.entries[j])
    {
      LookupIs(s.reg.entries, j);
      assert InvFor(s, s.reg.entries[j].id, timeout);
    }
  }

  lemma SettleEntryKeepsInv(s: System, id: RequestId, status: Status, includeSubmitting: bool, timeout: nat, next: System)
    requires Inv(s, timeout) && (status.Cancelled? || status.Expired?)
    requires next == s.(reg := SettleEntry(s.reg, id, status, includeSubmitting).0)
    ensures Inv(next, timeout)
  {
    if SettleEntry(s.reg, id, status, includeSubmitting).1 {
      var i := Find(s.reg.entries, id).value;
      UpdateKeepsRegistryOk(s.reg, i, next.reg.entries[i], s.reg.closed);
      forall x ensures InvFor(next, x, timeout) {
        assert InvFor(s, x, timeout);
      }
    }
  }

  lemma SettleAllKeepsInv(s: System, includeSubmitting: bool, timeout: nat, next: System)
    requires Inv(s, timeout) && next == s.(reg := SettleAll(s.reg, includeSubmitting).0)
    ensures Inv(next, timeout)
  {
    EachKeepsRegistryOk(s.reg, next.reg.entries, true);
    forall x ensures InvFor(next, x, timeout) {
      assert InvFor(s, x, timeout);
    }
  }

  lemma DenyKeepsInv(s: System, i: nat, delivered: bool, timeout: nat, next: System)
    requires Inv(s, timeout) && i < |s.denials| && next == AfterDenial(s, i, delivered)
    ensures Inv(next, timeout)
  {
    forall x ensures InvFor(next, x, timeout) {
      assert InvFor(s, x, timeout);
      OccurrencesRemove(s.denials, i, x);
      InvocationsExtend(s.log, Delivery(s.denials[i], Deny, delivered, false), x);
      assert forall d :: d in s.log ==> d in next.log;
    }
  }

  lemma BeginAnswerKeepsInv(s: System, id: RequestId, d: Decision, timeout: nat, next: System)
    requires Inv(s, timeout) && next == AfterBegin(s, id, d)
    ensures Inv(next, timeout)
  {
    assert InvFor(s, id, timeout);
    if next.reg != s.reg {
      var i := Find(s.reg.entries, id).value;
      var e := s.reg.entries[i];
      assert EntryOk(e);
      UpdateKeepsRegistryOk(s.reg, i, e.(submitting := true, held := false), s.reg.closed);
      forall x ensures InvFor(next, x, timeout) {
        assert InvFor(s, x, timeout);
      }
    }
  }

  lemma RespondKeepsInv(s: System, id: RequestId, delivered: bool, timeout: nat, next: System)
    requires Inv(s, timeout) && id in s.calls && s.calls[id].Calling?
    requires next == AfterResponse(s, id, delivered)
    ensures Inv(next, timeout)
  {
    var d := s.calls[id].decision;
    forall x ensures InvFor(next, x, timeout) {
      assert InvFor(s, x, timeout);
      InvocationsExtend(s.log, Delivery(id, d, delivered, true), x);
      assert forall d :: d in s.log ==> d in next.log;
    }
  }

  /** Recording an answer changes only the entry that was answered. */
  lemma RecordKeepsRegistry(r: Registry, id: RequestId, d: Decision, delivered: bool)
    requires RegistryOk(r) && TimerOk(r)
    requires Lookup(r.entries, id).Some? ==> Lookup(r.entries, id).value.submitting
    ensures var next := EndAnswer(r, id, d, delivered).0;
            && RegistryOk(next) && TimerOk(next)
            && forall x :: Lookup(next.entries, x)
                 == if x == id && Lookup(r.entries, x).Some? then Some(Recorded(Lookup(r.entries, x).value, d, delivered))
                    else Lookup(r.entries, x)
  {
    if Find(r.entries, id).Some? {
      var i := Find(r.entries, id).value;
      assert EntryOk(r.entries[i]);
      UpdateKeepsRegistryOk(r, i, Recorded(r.entries[i], d, delivered), r.closed);
    }
  }

  lemma EndAnswerKeepsInv(s: System, id: RequestId, timeout: nat, next: System)
    requires Inv(s, timeout) && id in s.calls && s.calls[id].Returned? && next == AfterEnd(s, id)
    ensures Inv(next, timeout)
  {
    assert InvFor(s, id, timeout);
    RecordKeepsRegistry(s.reg, id, s.calls[id].decision, s.calls[id].delivered);
    forall x ensures InvFor(next, x, timeout) {
      assert InvFor(s, x, timeout);
    }
  }

  lemma TimerLookKeepsInv(s: System, timeout: nat, next: System)
    requires Inv(s, timeout) && next == AfterTimerLook(s)
    ensures Inv(next, timeout)
  {
    forall x ensures InvFor(next, x, timeout) {
      assert InvFor(s, x, timeout);
    }
  }

  lemma StepKeepsInv(s: System, a: Action, timeout: nat, next: System)
    requires Inv(s, timeout) && next == Step(s, a, timeout)
    ensures Inv(next, timeout)
  {
    match a
    case Registering(id, decisions, spawned) =>
      RegisterKeepsInv(s, id, decisions, timeout, spawned, next);
    case Cancelling(id) => SettleEntryKeepsInv(s, id, Cancelled, true, timeout, next);
    case Expiring(id) => SettleEntryKeepsInv(s, id, Expired, false, timeout, next);
    case Finishing => SettleAllKeepsInv(s, false, timeout, next);
    case Closing => SettleAllKeepsInv(s, true, timeout, next);
    case Ticking(elapsed) =>
      forall x ensures InvFor(next, x, timeout) {
        assert InvFor(s, x, timeout);
      }
    case Overdueing => ExpireKeepsInv(s, s.clock, timeout, next);
    case Denying(i, delivered) => if i < |s.denials| { DenyKeepsInv(s, i, delivered, timeout, next); }
    case BeginningAnswer(id, d) => BeginAnswerKeepsInv(s, id, d, timeout, next);
    case Responding(id, delivered) =>
      if id in s.calls && s.calls[id].Calling? { RespondKeepsInv(s, id, delivered, timeout, next); }
    case EndingAnswer(id) =>
      if id in s.calls && s.calls[id].Returned? { EndAnswerKeepsInv(s, id, timeout, next); }
    case StoppingTimer => TimerLookKeepsInv(s, timeout, next);
  }

  lemma {:induction false} RunKeepsInv(actions: seq<Action>, timeout: nat)
    ensures Inv(Run(START, actions, timeout), timeout)
  {
    if actions == [] {
      forall x ensures InvFor(START, x, timeout) {
        assert Find([], x).None?;
      }
    } else {
      RunKeepsInv(actions[..|actions| - 1], timeout);
      StepKeepsInv(Run(START, actions[..|actions| - 1], timeout), actions[|actions| - 1], timeout,
                   Run(START, actions, timeout));
    }
  }

  // ---------------------------------------------------------------- what every run guarantees

  lemma {:induction false} InvocationsCount(log: seq<Delivery>, i: nat, j: nat)
    requires i < |log| && j < |log|
    ensures Invocations(log, log[i].id) >= 1
    ensures i != j && log[i].id == log[j].id ==> Invocations(log, log[i].id) >= 2
  {
    var before := log[..|log| - 1];
    if i < |before| && j < |before| {
      InvocationsCount(before, i, j);
    } else if i < |before| {
      InvocationsCount(before, i, i);
    } else if j < |before| {
      InvocationsCount(before, j, j);
    }
  }

  /** No responder is ever invoked twice, whichever of answers and timeouts race for it. */
  lemma RespondersAreInvokedAtMostOnce(actions: seq<Action>, timeout: nat)
    ensures var log := Run(START, actions, timeout).log;
            forall i, j :: 0 <= i < j < |log| ==> log[i].id != log[j].id
  {
    RunKeepsInv(actions, timeout);
    var s := Run(START, actions, timeout);
    forall i, j | 0 <= i < j < |s.log| ensures s.log[i].id != s.log[j].id {
      assert InvFor(s, s.log[i].id, timeout);
      InvocationsCount(s.log, i, j);
    }
  }

  /** Approved or Denied is shown exactly with an offered decision that an answer delivered. */
  lemma ShownDecisionsWereDelivered(actions: seq<Action>, timeout: nat, e: Entry)
    requires e in Run(START, actions, timeout).reg.entries
    ensures e.status.Approved? || e.status.Denied? <==> e.decision.Some?
    ensures e.decision.Some? ==>
              var d := e.decision.value;
              && e.status == (if d.Deny? then Denied else Approved)
              && d in e.decisions
              && Delivery(e.id, d, true, true) in Run(START, actions, timeout).log
  {
    RunKeepsInv(actions, timeout);
    var s := Run(START, actions, timeout);
    var i :| 0 <= i < |s.reg.entries| && s.reg.entries[i] == e;
    LookupIs(s.reg.entries, i);
    assert InvFor(s, e.id, timeout);
  }

  /** The bounds of the registry, the responder discipline and the timer discipline. */
  lemma RegistryStaysBounded(actions: seq<Action>, timeout: nat, id: RequestId, decisions: set<Decision>, deadline: nat)
    ensures var r := Run(START, actions, timeout).reg;
            && DistinctIds(r.entries)
            && CountPending(r.entries) <= 16 && |r.entries| <= 32
            && (forall e :: e in r.entries ==> (e.held <==> e.status.Pending? && !e.submitting))
            && (!r.closed && (exists e :: e in r.entries && Awaiting(e)) ==> r.timerRunning)
            && Register(r, id, decisions, deadline) != Err(LimitReached)
  {
    RunKeepsInv(actions, timeout);
    var r := Run(START, actions, timeout).reg;
    RegisterKeepsRegistryOk(r, id, decisions, deadline);
    forall e | e in r.entries ensures EntryOk(e) {
      var j :| 0 <= j < |r.entries| && r.entries[j] == e;
    }
  }

  predicate Final(e: Entry) { !e.status.Pending? && !e.submitting }

  /** Settled by a cancellation or a close while its answer is on the way. */
  predicate SettledInFlight(e: Entry) { e.submitting && (e.status.Cancelled? || e.status.Expired?) }

  /** What a settled entry may look like later on: evicted, unchanged, or its answer came back. */
  ghost predicate SettledFate(s: System, x: RequestId, e: Entry) {
    var o := Lookup(s.reg.entries, x);
    || o.None?
    || o == Some(e)
    || (e.submitting && o == Some(e.(submitting := false)))
    || (e.submitting && exists d :: o == Some(Recorded(e, d, true)) && Delivery(x, d, true, true) in s.log)
  }

  /** How one step may change what a lookup of a registered request sees. */
  ghost predicate Evolves(s: System, x: RequestId, before: Option<Entry>, after: Option<Entry>) {
    && (before.None? ==> after.None?)
    && (before.Some? && !before.value.status.Pending? ==>
          || after.None?
          || after == before
          || (x in s.calls && s.calls[x].Returned?
                && after == Some(Recorded(before.value, s.calls[x].decision, s.calls[x].delivered))))
  }

  lemma AcceptedRegisterEvolves(s: System, id: RequestId, decisions: set<Decision>, spawned: bool, timeout: nat,
                                reg: Registry, startTimer: bool, next: System, x: RequestId)
    requires RegistryOk(s.reg) && x != id
    requires id !in s.offered && Register(s.reg, id, decisions, s.clock + timeout) == Ok((reg, startTimer))
    requires next == AfterRegister(s, id, decisions, spawned, timeout)
    ensures Evolves(s, x, Lookup(s.reg.entries, x), Lookup(next.reg.entries, x))
  {
    RegisterSplits(s, id, decisions, spawned, timeout, reg, startTimer, next);
    AcceptedLookup(s.reg, id, decisions, s.clock + timeout, reg, startTimer);
    var between := Lookup(reg.entries, x);
    assert between.None? || between == Lookup(s.reg.entries, x);
    if startTimer && !spawned {
      FailedSpawnLookup(Registered(s, id, decisions, reg), timeout, next, x);
    } else {
      assert Lookup(next.reg.entries, x) == between;
    }
  }

  lemma FailedSpawnLookup(s: System, timeout: nat, next: System, x: RequestId)
    requires RegistryOk(s.reg) && next == AfterFailedSpawn(s, timeout)
    ensures Lookup(next.reg.entries, x)
            == match Lookup(s.reg.entries, x)
               case None => None
               case Some(e) => Some(TimedOutEntry(e, s.clock + timeout))
  {
    ExpireLookup(s.reg, s.clock + timeout, x);
  }

  lemma ExpireLookup(r: Registry, now: nat, x: RequestId)
    requires RegistryOk(r)
    ensures Lookup(ExpireEach(r.entries, now), x)
            == match Lookup(r.entries, x) case None => None case Some(e) => Some(TimedOutEntry(e, now))
  {
    EachKeepsRegistryOk(r, ExpireEach(r.entries, now), r.closed);
  }

  lemma RegisterEvolves(s: System, id: RequestId, decisions: set<Decision>, spawned: bool, timeout: nat,
                        next: System, x: RequestId)
    requires Inv(s, timeout) && x in s.offered
    requires next == AfterRegister(s, id, decisions, spawned, timeout)
    ensures Evolves(s, x, Lookup(s.reg.entries, x), Lookup(next.reg.entries, x))
  {
    match Register(s.reg, id, decisions, s.clock + timeout)
    case Err(_) =>
    case Ok((reg, startTimer)) =>
      if id !in s.offered {
        AcceptedRegisterEvolves(s, id, decisions, spawned, timeout, reg, startTimer, next, x);
      }
  }

  lemma BeginAnswerEvolves(s: System, id: RequestId, d: Decision, timeout: nat, next: System, x: RequestId)
    requires Inv(s, timeout) && x in s.offered && next == AfterBegin(s, id, d)
    ensures Evolves(s, x, Lookup(s.reg.entries, x), Lookup(next.reg.entries, x))
  {
    if next.reg != s.reg {
      var i := Find(s.reg.entries, id).value;
      assert EntryOk(s.reg.entries[i]);
      UpdateKeepsRegistryOk(s.reg, i, next.reg.entries[i], s.reg.closed);
    }
  }

  lemma EndAnswerEvolves(s: System, id: RequestId, timeout: nat, next: System, x: RequestId)
    requires Inv(s, timeout) && x in s.offered && next == AfterEnd(s, id)
    ensures Evolves(s, x, Lookup(s.reg.entries, x), Lookup(next.reg.entries, x))
  {
    if id in s.calls && s.calls[id].Returned? {
      assert InvFor(s, id, timeout);
      RecordKeepsRegistry(s.reg, id, s.calls[id].decision, s.calls[id].delivered);
    }
  }

  lemma EachEvolves(s: System, next: System, closed: bool, x: RequestId)
    requires RegistryOk(s.reg)
    requires || (exists all :: next.reg.entries == SettleEach(s.reg.entries, all))
             || (exists now :: next.reg.entries == ExpireEach(s.reg.entries, now))
    ensures Evolves(s, x, Lookup(s.reg.entries, x), Lookup(next.reg.entries, x))
  {
    EachKeepsRegistryOk(s.reg, next.reg.entries, closed);
  }

  lemma LookupStep(s: System, a: Action, timeout: nat, next: System, x: RequestId)
    requires Inv(s, timeout) && x in s.offered && next == Step(s, a, timeout)
    ensures Evolves(s, x, Lookup(s.reg.entries, x), Lookup(next.reg.entries, x))
  {
    match a
    case Registering(id, decisions, spawned) => RegisterEvolves(s, id, decisions, spawned, timeout, next, x);
    case Cancelling(id) => SettleEntryLookup(s.reg, id, Cancelled, true, x);
    case Expiring(id) => SettleEntryLookup(s.reg, id, Expired, false, x);
    case Finishing => EachEvolves(s, next, true, x);
    case Closing => EachEvolves(s, next, true, x);
    case Ticking(_) =>
    case Overdueing => EachEvolves(s, next, s.reg.closed, x);
    case Denying(_, _) =>
    case BeginningAnswer(id, d) => BeginAnswerEvolves(s, id, d, timeout, next, x);
    case Responding(_, _) =>
    case EndingAnswer(id) => EndAnswerEvolves(s, id, timeout, next, x);
    case StoppingTimer =>
  }

  lemma SettleEntryLookup(r: Registry, id: RequestId, status: Status, includeSubmitting: bool, x: RequestId)
    requires RegistryOk(r) && (status.Cancelled? || status.Expired?)
    ensures var after := Lookup(SettleEntry(r, id, status, includeSubmitting).0.entries, x);
            || after == Lookup(r.entries, x)
            || (x == id && Lookup(r.entries, x).Some? && Lookup(r.entries, x).value.status.Pending?
                && after == Some(Lookup(r.entries, x).value.(status := status, held := false)))
  {
    if SettleEntry(r, id, status, includeSubmitting).1 {
      var i := Find(r.entries, id).value;
      UpdateKeepsRegistryOk(r, i, SettleEntry(r, id, status, includeSubmitting).0.entries[i], r.closed);
    }
  }

  lemma {:induction false} LogGrows(s: System, actions: seq<Action>, timeout: nat, x: RequestId)
    ensures var t := Run(s, actions, timeout);
            && (forall d :: d in s.log ==> d in t.log)
            && (x in s.offered ==> x in t.offered)
  {
    if actions != [] {
      LogGrows(s, actions[..|actions| - 1], timeout, x);
      StepLogs(Run(s, actions[..|actions| - 1], timeout), actions[|actions| - 1], timeout);
    }
  }

  lemma {:induction false} RunKeepsInvFrom(s: System, actions: seq<Action>, timeout: nat)
    requires Inv(s, timeout)
    ensures Inv(Run(s, actions, timeout), timeout)
  {
    if actions != [] {
      RunKeepsInvFrom(s, actions[..|actions| - 1], timeout);
      StepKeepsInv(Run(s, actions[..|actions| - 1], timeout), actions[|actions| - 1], timeout,
                   Run(s, actions, timeout));
    }
  }

  lemma FateStep(s: System, next: System, x: RequestId, e: Entry)
    requires SettledFate(s, x, e) && (Final(e) || SettledInFlight(e))
    requires Evolves(s, x, Lookup(s.reg.entries, x), Lookup(next.reg.entries, x))
    requires forall d :: d in s.log ==> d in next.log
    requires x in s.calls ==>
               && (Lookup(s.reg.entries, x).Some? ==> Lookup(s.reg.entries, x).value.submitting)
               && (s.calls[x].Returned? ==> Delivery(x, s.calls[x].decision, s.calls[x].delivered, true) in s.log)
    ensures SettledFate(next, x, e)
  {
    var before, after := Lookup(s.reg.entries, x), Lookup(next.reg.entries, x);
    if before.Some? && after.Some? && after != before {
      assert before == Some(e);
      if s.calls[x].delivered {
        assert after == Some(Recorded(e, s.calls[x].decision, true));
      }
    }
  }

  /**
   * Over the rest of any run, an entry that is settled and not being answered never changes
   * until it is evicted, and one settled in flight is only overwritten by a delivered decision.
   */
  lemma {:induction false} SettledEntriesKeepTheirFate(s: System, actions: seq<Action>, timeout: nat, x: RequestId)
    requires Inv(s, timeout)
    requires Lookup(s.reg.entries, x).Some?
    requires var e := Lookup(s.reg.entries, x).value; Final(e) || SettledInFlight(e)
    ensures SettledFate(Run(s, actions, timeout), x, Lookup(s.reg.entries, x).value)
  {
    if actions != [] {
      var before, a := actions[..|actions| - 1], actions[|actions| - 1];
      SettledEntriesKeepTheirFate(s, before, timeout, x);
      RunKeepsInvFrom(s, before, timeout);
      assert InvFor(s, x, timeout);
      LogGrows(s, before, timeout, x);
      var t := Run(s, before, timeout);
      assert InvFor(t, x, timeout);
      LookupStep(t, a, timeout, Run(s, actions, timeout), x);
      StepLogs(t, a, timeout);
      FateStep(t, Run(s, actions, timeout), x, Lookup(s.reg.entries, x).value);
    }
  }

  lemma StepLogs(s: System, a: Action, timeout: nat)
    ensures forall d :: d in s.log ==> d in Step(s, a, timeout).log
    ensures forall x :: x in s.offered ==> x in Step(s, a, timeout).offered
  {
  }

  // ---------------------------------------------------------------- when an approval times out

  /** The deadline of an entry that awaits an answer has come. */
  predicate Due(e: Entry, now: nat) { e.status == Pending && !e.submitting && e.deadline <= now }

  /** In every run, looking for overdue entries times out exactly those whose deadline has come, and changes no other. */
  lemma TimesOutIffDue(actions: seq<Action>, timeout: nat, j: nat)
    requires j < |Run(START, actions, timeout).reg.entries|
    ensures var s := Run(START, actions, timeout);
            var next := Step(s, Overdueing, timeout);
            var e := s.reg.entries[j];
            && |next.reg.entries| == |s.reg.entries|
            && next.reg.entries[j] == (if Due(e, s.clock) then e.(status := TimedOut, held := false) else e)
            && (Due(e, s.clock) ==> e.id in next.denials)
  {
    RunKeepsInv(actions, timeout);
    var s := Run(START, actions, timeout);
    var e := s.reg.entries[j];
    assert EntryOk(e);
    if Due(e, s.clock) {
      LookupIs(s.reg.entries, j);
      TakenOccurrences(s.reg.entries, s.clock, e.id);
      OccurrencesAppend(s.denials, TakenOverdue(s.reg.entries, s.clock), e.id);
      OccursIff(Step(s, Overdueing, timeout).denials, e.id);
    }
  }

  lemma {:induction false} OccursIff(ids: seq<RequestId>, x: RequestId)
    ensures Occurrences(ids, x) > 0 <==> x in ids
  {
    if ids != [] {
      OccursIff(ids[..|ids| - 1], x);
      assert ids == ids[..|ids| - 1] + [ids[|ids| - 1]];
    }
  }

  /** At action k request x was registered. */
  predicate RegisteredAt(actions: seq<Action>, timeout: nat, k: nat, x: RequestId) {
    && k < |actions| && actions[k].Registering? && actions[k].id == x
    && x !in Run(START, actions[..k], timeout).offered
  }

  /** Request x was registered, and at action k the registry looked for overdue entries after the whole timeout. */
  ghost predicate WaitedOut(actions: seq<Action>, timeout: nat, k: nat, x: RequestId) {
    && k < |actions| && actions[k] == Overdueing
    && exists i: nat :: i < k && RegisteredAt(actions, timeout, i, x)
                        && Run(START, actions[..k], timeout).clock >= Run(START, actions[..i], timeout).clock + timeout
  }

  /** At action k a registration had to start the timer and could not. */
  predicate TimerFailedAt(actions: seq<Action>, timeout: nat, k: nat) {
    && k < |actions| && actions[k].Registering? && !actions[k].spawned
    && !Run(START, actions[..k], timeout).reg.timerRunning
  }

  /** Request x had waited for the whole timeout, or there was no timer to wait with. */
  ghost predicate HadCause(actions: seq<Action>, timeout: nat, x: RequestId) {
    exists k: nat :: WaitedOut(actions, timeout, k, x) || TimerFailedAt(actions, timeout, k)
  }

  /** An entry's deadline is the whole timeout after its registration. */
  ghost predicate DeadlineOk(actions: seq<Action>, timeout: nat, e: Entry) {
    exists i: nat :: RegisteredAt(actions, timeout, i, e.id) && e.deadline == Run(START, actions[..i], timeout).clock + timeout
  }

  ghost predicate CausesOk(actions: seq<Action>, timeout: nat, x: RequestId) {
    var s := Run(START, actions, timeout);
    && (Lookup(s.reg.entries, x).Some? ==>
          && DeadlineOk(actions, timeout, Lookup(s.reg.entries, x).value)
          && (Lookup(s.reg.entries, x).value.status == TimedOut ==> HadCause(actions, timeout, x)))
    && (x in s.denials ==> HadCause(actions, timeout, x))
    && ((exists d :: d in s.log && d.id == x && !d.byAnswer) ==> HadCause(actions, timeout, x))
  }

  lemma CauseGrows(before: seq<Action>, actions: seq<Action>, timeout: nat, x: RequestId)
    requires actions != [] && before == actions[..|actions| - 1] && HadCause(before, timeout, x)
    ensures HadCause(actions, timeout, x)
  {
    var k: nat :| WaitedOut(before, timeout, k, x) || TimerFailedAt(before, timeout, k);
    assert before[..k] == actions[..k];
    if WaitedOut(before, timeout, k, x) {
      var i: nat :| i < k && RegisteredAt(before, timeout, i, x)
                    && Run(START, before[..k], timeout).clock >= Run(START, before[..i], timeout).clock + timeout;
      assert before[..i] == actions[..i];
      assert RegisteredAt(actions, timeout, i, x);
      assert WaitedOut(actions, timeout, k, x);
    } else {
      assert TimerFailedAt(actions, timeout, k);
    }
  }

  lemma DeadlineGrows(before: seq<Action>, actions: seq<Action>, timeout: nat, e: Entry, f: Entry)
    requires actions != [] && before == actions[..|actions| - 1] && DeadlineOk(before, timeout, e)
    requires f.id == e.id && f.deadline == e.deadline
    ensures DeadlineOk(actions, timeout, f)
  {
    var i: nat :| RegisteredAt(before, timeout, i, e.id) && e.deadline == Run(START, before[..i], timeout).clock + timeout;
    assert before[..i] == actions[..i];
    assert RegisteredAt(actions, timeout, i, f.id);
  }

  /** What has been registered in a run so far has been in every longer one. */
  lemma RegisteredBefore(before: seq<Action>, actions: seq<Action>, timeout: nat, i: nat, x: RequestId)
    requires before <= actions && RegisteredAt(before, timeout, i, x)
    ensures RegisteredAt(actions, timeout, i, x) && before[..i] == actions[..i]
  {
    assert before[..i] == actions[..i];
  }

  lemma LookedAfter(actions: seq<Action>, timeout: nat, i: nat, k: nat, x: RequestId)
    requires i < k < |actions| && actions[k] == Overdueing && RegisteredAt(actions, timeout, i, x)
    requires Run(START, actions[..k], timeout).clock >= Run(START, actions[..i], timeout).clock + timeout
    ensures HadCause(actions, timeout, x)
  {
    assert WaitedOut(actions, timeout, k, x);
  }

  /** An entry that is overdue when the registry looks has waited for the whole timeout. */
  lemma DueWaitedOut(before: seq<Action>, actions: seq<Action>, timeout: nat, e: Entry)
    requires actions != [] && before == actions[..|actions| - 1] && actions[|before|] == Overdueing
    requires DeadlineOk(before, timeout, e) && e.deadline <= Run(START, before, timeout).clock
    ensures HadCause(actions, timeout, e.id)
  {
    var i: nat :| RegisteredAt(before, timeout, i, e.id) && e.deadline == Run(START, before[..i], timeout).clock + timeout;
    assert before == actions[..|before|];
    RegisteredBefore(before, actions, timeout, i, e.id);
    LookedAfter(actions, timeout, i, |before|, e.id);
  }

  predicate Unspawned(s: System, a: Action) { a.Registering? && !a.spawned && !s.reg.timerRunning }

  /** A reason why the entry e of a request may time out in one step. */
  predicate StepCause(s: System, a: Action, e: Entry) {
    (a == Overdueing && Due(e, s.clock)) || Unspawned(s, a)
  }

  /** What one step may do to an entry, and where a new one comes from. */
  ghost predicate Changed(s: System, a: Action, timeout: nat, x: RequestId, before: Option<Entry>, after: Option<Entry>) {
    after.Some? ==>
      var f := after.value;
      if before.Some? then
        && f.id == before.value.id && f.deadline == before.value.deadline
        && (f.status == TimedOut ==> before.value.status == TimedOut || StepCause(s, a, before.value))
      else
        && a.Registering? && a.id == x && x !in s.offered && f.id == x && f.deadline == s.clock + timeout
        && (f.status == TimedOut ==> Unspawned(s, a))
  }

  /** An accepted registration, before the timer is started. */
  lemma AcceptedChanges(s: System, id: RequestId, decisions: set<Decision>, spawned: bool, timeout: nat,
                        reg: Registry, startTimer: bool, x: RequestId)
    requires Inv(s, timeout) && id !in s.offered
    requires Register(s.reg, id, decisions, s.clock + timeout) == Ok((reg, startTimer))
    ensures Changed(s, Registering(id, decisions, spawned), timeout, x, Lookup(s.reg.entries, x), Lookup(reg.entries, x))
    ensures startTimer <==> !s.reg.timerRunning
  {
    RegisterKeepsRegistryOk(s.reg, id, decisions, s.clock + timeout);
    AcceptedLookup(s.reg, id, decisions, s.clock + timeout, reg, startTimer);
  }

  /** Expiring everything on top of what a step did, when no timer could be spawned. */
  lemma TimingOutChanges(s: System, a: Action, timeout: nat, x: RequestId, before: Option<Entry>, between: Entry, now: nat)
    requires Changed(s, a, timeout, x, before, Some(between)) && Unspawned(s, a)
    ensures Changed(s, a, timeout, x, before, Some(TimedOutEntry(between, now)))
  {
  }

  lemma FailedSpawnChanges(s: System, id: RequestId, decisions: set<Decision>, timeout: nat, reg: Registry, next: System, x: RequestId)
    requires Inv(s, timeout) && id !in s.offered && !s.reg.timerRunning
    requires Register(s.reg, id, decisions, s.clock + timeout) == Ok((reg, true))
    requires next == AfterFailedSpawn(Registered(s, id, decisions, reg), timeout)
    ensures Changed(s, Registering(id, decisions, false), timeout, x, Lookup(s.reg.entries, x), Lookup(next.reg.entries, x))
  {
    AcceptedChanges(s, id, decisions, false, timeout, reg, true, x);
    AcceptedLookup(s.reg, id, decisions, s.clock + timeout, reg, true);
    FailedSpawnLookup(Registered(s, id, decisions, reg), timeout, next, x);
    if Lookup(reg.entries, x).Some? {
      TimingOutChanges(s, Registering(id, decisions, false), timeout, x, Lookup(s.reg.entries, x),
                       Lookup(reg.entries, x).value, s.clock + timeout);
    }
  }

  lemma RegisteringChanges(s: System, id: RequestId, decisions: set<Decision>, spawned: bool, timeout: nat, next: System, x: RequestId)
    requires Inv(s, timeout) && next == AfterRegister(s, id, decisions, spawned, timeout)
    ensures Changed(s, Registering(id, decisions, spawned), timeout, x, Lookup(s.reg.entries, x), Lookup(next.reg.entries, x))
    ensures next.denials != s.denials ==> Unspawned(s, Registering(id, decisions, spawned))
  {
    match Register(s.reg, id, decisions, s.clock + timeout)
    case Err(_) =>
    case Ok((reg, startTimer)) =>
      if id !in s.offered {
        AcceptedChanges(s, id, decisions, spawned, timeout, reg, startTimer, x);
        RegisterSplits(s, id, decisions, spawned, timeout, reg, startTimer, next);
        if startTimer && !spawned {
          FailedSpawnChanges(s, id, decisions, timeout, reg, next, x);
        }
      }
  }

  lemma OverdueingChanges(s: System, timeout: nat, next: System, x: RequestId)
    requires Inv(s, timeout) && next == ExpireAt(s, s.clock)
    ensures Changed(s, Overdueing, timeout, x, Lookup(s.reg.entries, x), Lookup(next.reg.entries, x))
    ensures x in next.denials ==>
              x in s.denials || (Lookup(s.reg.entries, x).Some? && Due(Lookup(s.reg.entries, x).value, s.clock))
  {
    ExpireLookup(s.reg, s.clock, x);
    TakenOccurrences(s.reg.entries, s.clock, x);
    OccursIff(TakenOverdue(s.reg.entries, s.clock), x);
  }

  lemma SettlingChanges(s: System, a: Action, timeout: nat, id: RequestId, status: Status, all: bool, x: RequestId)
    requires RegistryOk(s.reg) && (status.Cancelled? || status.Expired?)
    ensures Changed(s, a, timeout, x, Lookup(s.reg.entries, x), Lookup(SettleEntry(s.reg, id, status, all).0.entries, x))
  {
    SettleEntryLookup(s.reg, id, status, all, x);
  }

  /** A step that keeps every entry's identity and deadline and times nothing out. */
  lemma KeepingChanges(s: System, a: Action, timeout: nat, b: seq<Entry>, x: RequestId)
    requires DistinctIds(s.reg.entries) && |b| == |s.reg.entries|
    requires forall j :: 0 <= j < |b| ==>
                           && b[j].id == s.reg.entries[j].id && b[j].deadline == s.reg.entries[j].deadline
                           && (b[j].status == TimedOut ==> s.reg.entries[j].status == TimedOut)
    ensures Changed(s, a, timeout, x, Lookup(s.reg.entries, x), Lookup(b, x))
  {
    LookupEach(s.reg.entries, b, x);
  }

  lemma EndingChanges(s: System, id: RequestId, timeout: nat, next: System, x: RequestId)
    requires Inv(s, timeout) && next == AfterEnd(s, id)
    ensures Changed(s, EndingAnswer(id), timeout, x, Lookup(s.reg.entries, x), Lookup(next.reg.entries, x))
  {
    KeepingChanges(s, EndingAnswer(id), timeout, next.reg.entries, x);
  }

  lemma FinishingChanges(s: System, a: Action, timeout: nat, all: bool, x: RequestId)
    requires Inv(s, timeout)
    ensures Changed(s, a, timeout, x, Lookup(s.reg.entries, x), Lookup(SettleAll(s.reg, all).0.entries, x))
  {
    KeepingChanges(s, a, timeout, SettleEach(s.reg.entries, all), x);
  }

  lemma BeginningChanges(s: System, a: Action, timeout: nat, id: RequestId, d: Decision, x: RequestId)
    requires Inv(s, timeout)
    ensures Changed(s, a, timeout, x, Lookup(s.reg.entries, x), Lookup(BeginAnswer(s.reg, id, d).0.entries, x))
  {
    KeepingChanges(s, a, timeout, BeginAnswer(s.reg, id, d).0.entries, x);
  }

  lemma StepChanges(s: System, a: Action, timeout: nat, next: System, x: RequestId)
    requires Inv(s, timeout) && next == Step(s, a, timeout)
    ensures Changed(s, a, timeout, x, Lookup(s.reg.entries, x), Lookup(next.reg.entries, x))
  {
    match a
    case Registering(id, decisions, spawned) => RegisteringChanges(s, id, decisions, spawned, timeout, next, x);
    case Cancelling(id) => SettlingChanges(s, a, timeout, id, Cancelled, true, x);
    case Expiring(id) => SettlingChanges(s, a, timeout, id, Expired, false, x);
    case Overdueing => OverdueingChanges(s, timeout, next, x);
    case Finishing => FinishingChanges(s, a, timeout, false, x);
    case Closing => FinishingChanges(s, a, timeout, true, x);
    case BeginningAnswer(id, d) => BeginningChanges(s, a, timeout, id, d, x);
    case EndingAnswer(id) => EndingChanges(s, id, timeout, next, x);
    case _ => KeepingChanges(s, a, timeout, s.reg.entries, x);
  }

  /** What a step queues for a denial, and what it denies. */
  lemma StepDenies(s: System, a: Action, timeout: nat, next: System, x: RequestId)
    requires Inv(s, timeout) && next == Step(s, a, timeout)
    ensures x in next.denials ==>
              || x in s.denials || Unspawned(s, a)
              || (a == Overdueing && Lookup(s.reg.entries, x).Some? && Due(Lookup(s.reg.entries, x).value, s.clock))
    ensures forall d :: d in next.log && d.id == x && !d.byAnswer ==> d in s.log || x in s.denials
  {
    if a.Registering? {
      RegisteringChanges(s, a.id, a.decisions, a.spawned, timeout, next, x);
    } else if a.Overdueing? {
      OverdueingChanges(s, timeout, next, x);
    }
  }

  lemma StepCausesHold(before: seq<Action>, actions: seq<Action>, timeout: nat, x: RequestId)
    requires actions != [] && before == actions[..|actions| - 1]
    requires CausesOk(before, timeout, x) && Inv(Run(START, before, timeout), timeout)
    ensures CausesOk(actions, timeout, x)
  {
    var s, a, next := Run(START, before, timeout), actions[|before|], Run(START, actions, timeout);
    StepChanges(s, a, timeout, next, x);
    StepDenies(s, a, timeout, next, x);
    if HadCause(before, timeout, x) {
      CauseGrows(before, actions, timeout, x);
    }
    if Unspawned(s, a) {
      assert TimerFailedAt(actions, timeout, |before|);
    }
    if Lookup(s.reg.entries, x).Some? {
      var e := Lookup(s.reg.entries, x).value;
      if a == Overdueing && Due(e, s.clock) {
        DueWaitedOut(before, actions, timeout, e);
      }
      if Lookup(next.reg.entries, x).Some? {
        DeadlineGrows(before, actions, timeout, e, Lookup(next.reg.entries, x).value);
      }
    } else if Lookup(next.reg.entries, x).Some? {
      assert RegisteredAt(actions, timeout, |before|, x);
    }
  }

  lemma {:induction false} RunCausesHold(actions: seq<Action>, timeout: nat, x: RequestId)
    ensures CausesOk(actions, timeout, x)
  {
    if actions == [] {
      assert Find([], x).None?;
    } else {
      RunCausesHold(actions[..|actions| - 1], timeout, x);
      RunKeepsInv(actions[..|actions| - 1], timeout);
      StepCausesHold(actions[..|actions| - 1], actions, timeout, x);
    }
  }

  /**
   * Over every run, no approval times out early: an entry shown as timed out, and a responder that
   * was denied without an answer, are of a request that was registered at least the whole timeout
   * before the registry looked, unless the timer could not be spawned.
   */
  lemma NothingTimesOutEarly(actions: seq<Action>, timeout: nat, x: RequestId)
    requires var s := Run(START, actions, timeout);
             || (exists e :: e in s.reg.entries && e.id == x && e.status == TimedOut)
             || (exists d :: d in s.log && d.id == x && !d.byAnswer)
    ensures exists k: nat :: WaitedOut(actions, timeout, k, x) || TimerFailedAt(actions, timeout, k)
  {
    RunCausesHold(actions, timeout, x);
    RunKeepsInv(actions, timeout);
    var s := Run(START, actions, timeout);
    if e :| e in s.reg.entries && e.id == x && e.status == TimedOut {
      var j :| 0 <= j < |s.reg.entries| && s.reg.entries[j] == e;
      LookupIs(s.reg.entries, j);
    }
    assert HadCause(actions, timeout, x);
  }

  // ---------------------------------------------------------------- what each operation decides

  lemma {:induction false} PendingCountIs(entries: seq<Entry>)
    ensures CountPending(entries) == |set j | 0 <= j < |entries| && entries[j].status.Pending?|
  {
    if entries != [] {
      var n := |entries| - 1;
      var before := entries[..n];
      PendingCountIs(before);
      var all := set j | 0 <= j < |entries| && entries[j].status.Pending?;
      var earlier := set j | 0 <= j < |before| && before[j].status.Pending?;
      assert forall j :: 0 <= j < n ==> before[j] == entries[j];
      assert all == if entries[n].status.Pending? then earlier + {n} else earlier;
    }
  }

  /** What remains to register in: everything, or at capacity all but the oldest settled entry. */
  ghost predicate MadeRoom(entries: seq<Entry>, kept: seq<Entry>) {
    if |entries| < 32 then kept == entries
    else exists i :: && 0 <= i < |entries| && !entries[i].status.Pending?
                     && (forall j :: 0 <= j < i ==> entries[j].status.Pending?)
                     && kept == entries[..i] + entries[i + 1..]
  }

  lemma RoomIsMade(r: Registry)
    requires RegistryOk(r) && CountPending(r.entries) < 16
    ensures MakeRoom(r.entries).Some? && MadeRoom(r.entries, MakeRoom(r.entries).value)
  {
    MakeRoomKeeps(r);
    SearchesAllSettled(r.entries, 0);
  }

  /** The refusals of a registration, in their order; and what an accepted one appends. */
  lemma RegistrationDecides(actions: seq<Action>, timeout: nat, id: RequestId, decisions: set<Decision>, deadline: nat)
    ensures var r := Run(START, actions, timeout).reg;
            var refused := r.closed || exists e :: e in r.entries && e.id == id;
            var full := |set j | 0 <= j < |r.entries| && r.entries[j].status.Pending?| >= 16;
            var result := Register(r, id, decisions, deadline);
            && (result == Err(InvalidApproval) <==> Deny !in decisions)
            && (result == Err(SessionUnavailable) <==> Deny in decisions && refused)
            && (result == Err(TooManyPending) <==> Deny in decisions && !refused && full)
            && (result.Ok? <==> Deny in decisions && !refused && !full)
    ensures var r := Run(START, actions, timeout).reg;
            var result := Register(r, id, decisions, deadline);
            result.Ok? ==>
              var (next, start) := result.value;
              && next.timerRunning && !next.closed && (start <==> !r.timerRunning) && |next.entries| > 0
              && next.entries[|next.entries| - 1] == Entry(id, decisions, Pending, None, true, false, deadline)
              && MadeRoom(r.entries, next.entries[..|next.entries| - 1])
  {
    RunKeepsInv(actions, timeout);
    var r := Run(START, actions, timeout).reg;
    PendingCountIs(r.entries);
    RetainedIff(Run(START, actions, timeout), id);
    if CountPending(r.entries) < 16 {
      RoomIsMade(r);
      var kept := MakeRoom(r.entries).value;
      assert (kept + [NewEntry(id, decisions, deadline)])[..|kept|] == kept;
    }
  }

  /** An answer to a request that is not retained is refused and changes nothing. */
  lemma UnknownAnswerIsRefused(r: Registry, id: RequestId, d: Decision)
    requires forall e :: e in r.entries ==> e.id != id
    ensures BeginAnswer(r, id, d) == (r, Refuse(UnknownApproval))
  {
  }

  /**
   * An answer reaches the responder exactly when its decision is offered by an entry that awaits one
   * in an open registry; repeating the decision shown is replayed, and anything else changes nothing.
   */
  lemma AnswerIsSubmittedIff(actions: seq<Action>, timeout: nat, j: nat, d: Decision)
    requires j < |Run(START, actions, timeout).reg.entries|
    ensures var r := Run(START, actions, timeout).reg;
            var e := r.entries[j];
            var (next, admission) := BeginAnswer(r, e.id, d);
            && (admission == Submit <==> d in e.decisions && e.status == Pending && !e.submitting && !r.closed)
            && (admission == Replay <==> e.decision == Some(d))
            && (admission == Refuse(NotOffered) <==> d !in e.decisions)
            && (admission.Submit? || admission.Replay? || admission.error in {NotOffered, NoLongerPending})
            && next == if admission.Submit? then r.(entries := r.entries[j := e.(submitting := true, held := false)]) else r
  {
    RunKeepsInv(actions, timeout);
    var s := Run(START, actions, timeout);
    LookupIs(s.reg.entries, j);
    assert EntryOk(s.reg.entries[j]);
    assert InvFor(s, s.reg.entries[j].id, timeout);
  }

  /** What an entry becomes when its responder has returned: its decision is shown, or it expires if it still waited. */
  predicate AnswerSettles(e: Entry, f: Entry, d: Decision, delivered: bool) {
    && f.(status := e.status, decision := e.decision, submitting := e.submitting) == e && !f.submitting
    && (delivered ==> f.decision == Some(d) && (f.status == Denied <==> d == Deny) && (f.status == Approved <==> d != Deny))
    && (!delivered ==> f.decision == e.decision && f.status == if e.status == Pending then Expired else e.status)
  }

  lemma AnswerEnds(actions: seq<Action>, timeout: nat, j: nat, d: Decision, delivered: bool)
    requires j < |Run(START, actions, timeout).reg.entries|
    ensures var r := Run(START, actions, timeout).reg;
            var (next, result) := EndAnswer(r, r.entries[j].id, d, delivered);
            && |next.entries| == |r.entries| && next == r.(entries := r.entries[j := next.entries[j]])
            && AnswerSettles(r.entries[j], next.entries[j], d, delivered)
            && result == if delivered then Ok(next.entries[j]) else Err(ResponseFailed)
  {
    RunKeepsInv(actions, timeout);
    LookupIs(Run(START, actions, timeout).reg.entries, j);
  }

  /** Which entries an operation settles: a finish spares those being answered, as an expiry does. */
  predicate Hits(a: Action, e: Entry) {
    match a
    case Cancelling(id) => e.id == id && e.status == Pending
    case Expiring(id) => e.id == id && e.status == Pending && !e.submitting
    case Finishing => e.status == Pending && !e.submitting
    case Closing => e.status == Pending
    case _ => false
  }

  /** The entries that the operation reaches are cancelled or expired and lose their responders; all others stay. */
  ghost predicate Reaches(r: Registry, next: Registry, a: Action) {
    && |next.entries| == |r.entries| && next.timerRunning == r.timerRunning
    && (next.closed <==> r.closed || a == Finishing || a == Closing)
    && forall j :: 0 <= j < |r.entries| ==>
         next.entries[j] == if !Hits(a, r.entries[j]) then r.entries[j]
                            else r.entries[j].(status := if a.Cancelling? then Cancelled else Expired, held := false)
  }

  lemma SettlingOneReaches(r: Registry, a: Action)
    requires DistinctIds(r.entries) && (a.Cancelling? || a.Expiring?)
    ensures Reaches(r, SettleEntry(r, a.id, if a.Cancelling? then Cancelled else Expired, a.Cancelling?).0, a)
  {
    FindsFirst(r.entries, a.id, 0);
  }

  lemma SettlingAllReaches(r: Registry, a: Action)
    requires a == Finishing || a == Closing
    ensures Reaches(r, SettleAll(r, a == Closing).0, a)
  {
  }

  lemma SettlingReaches(actions: seq<Action>, timeout: nat, a: Action)
    requires a.Cancelling? || a.Expiring? || a.Finishing? || a.Closing?
    ensures Reaches(Run(START, actions, timeout).reg, Run(START, actions + [a], timeout).reg, a)
  {
    assert (actions + [a])[..|actions|] == actions;
    RunKeepsInv(actions, timeout);
    var r := Run(START, actions, timeout).reg;
    if a.Cancelling? || a.Expiring? {
      SettlingOneReaches(r, a);
    } else {
      SettlingAllReaches(r, a);
    }
  }

  /** A registry begins open and empty, and nobody has been answered. */
  lemma RegistryBegins(timeout: nat)
    ensures var s := Run(START, [], timeout);
            && s.reg == Registry([], false, false) && s.offered == map[] && s.calls == map[]
            && s.denials == [] && s.log == []
  {
  }

  /** A responder taken out by a timeout is told to deny, once, and that leaves the registry alone. */
  lemma TimeoutsDeny(actions: seq<Action>, timeout: nat, i: nat, delivered: bool)
    requires i < |Run(START, actions, timeout).denials|
    ensures var s, next := Run(START, actions, timeout), Run(START, actions + [Denying(i, delivered)], timeout);
            && next.reg == s.reg && next.denials == s.denials[..i] + s.denials[i + 1..]
            && next.log == s.log + [Delivery(s.denials[i], Deny, delivered, false)]
  {
    assert (actions + [Denying(i, delivered)])[..|actions|] == actions;
  }

  /** An operation reports a change exactly when it made one. */
  lemma ChangesAreReported(r: Registry, id: RequestId, status: Status, all: bool)
    requires status != Pending
    ensures SettleEntry(r, id, status, all).1 <==> SettleEntry(r, id, status, all).0 != r
    ensures SettleAll(r, all).1 <==> SettleAll(r, all).0 != r
  {
  }

  /** The timer stops exactly when the registry is closed or nothing awaits a timeout. */
  lemma TimerStopsIff(actions: seq<Action>, timeout: nat)
    ensures var r, next := Run(START, actions, timeout).reg, Run(START, actions + [StoppingTimer], timeout).reg;
            && next.entries == r.entries && next.closed == r.closed
            && (next.timerRunning <==>
                  r.timerRunning && !r.closed && exists e :: e in r.entries && e.status == Pending && !e.submitting)
  {
    assert (actions + [StoppingTimer])[..|actions|] == actions;
    var r := Run(START, actions, timeout).reg;
    assert forall e :: Awaiting(e) <==> e.status == Pending && !e.submitting;
  }

  // ---------------------------------------------------------------- whether a delivered answer is recorded

  ghost predicate Retained(s: System, x: RequestId) { exists e :: e in s.reg.entries && e.id == x }

  ghost predicate Shows(s: System, x: RequestId, d: Decision) {
    exists e :: e in s.reg.entries && e.id == x && e.decision == Some(d) && e.status == StatusFor(d)
  }

  lemma RetainedIff(s: System, x: RequestId)
    requires DistinctIds(s.reg.entries)
    ensures Retained(s, x) <==> Lookup(s.reg.entries, x).Some?
  {
    if e :| e in s.reg.entries && e.id == x {
      var i :| 0 <= i < |s.reg.entries| && s.reg.entries[i] == e;
      LookupIs(s.reg.entries, i);
    }
  }

  /**
   * When a responder has accepted the decision, the decision ends up shown exactly when the entry
   * is still retained at the second half of the answer; otherwise the answer reports an expired
   * approval although the decision was delivered.
   */
  lemma DeliveredAnswerIsRecordedIff(actions: seq<Action>, timeout: nat, x: RequestId, d: Decision)
    requires x in Run(START, actions, timeout).calls
    requires Run(START, actions, timeout).calls[x] == Returned(d, true)
    ensures var s := Run(START, actions, timeout);
            var next := Step(s, EndingAnswer(x), timeout);
            && Delivery(x, d, true, true) in s.log
            && (Shows(next, x, d) <==> Retained(s, x))
            && (EndAnswer(s.reg, x, d, true).1 == Err(ApprovalExpired) <==> !Retained(s, x))
  {
    RunKeepsInv(actions, timeout);
    var s := Run(START, actions, timeout);
    var next := Step(s, EndingAnswer(x), timeout);
    assert InvFor(s, x, timeout);
    RecordKeepsRegistry(s.reg, x, d, true);
    RetainedIff(s, x);
    RetainedIff(next, x);
    if Retained(s, x) {
      assert next.reg.entries[Find(next.reg.entries, x).value] == Recorded(Lookup(s.reg.entries, x).value, d, true);
    }
    assert Shows(next, x, d) ==> Retained(next, x);
  }

  /** Removing an entry forgets no other. */
  lemma RemoveForgetsOne(entries: seq<Entry>, i: nat, x: RequestId)
    requires DistinctIds(entries) && i < |entries| && entries[i].id != x && Find(entries, x).Some?
    ensures Find(Remove(entries, i), x).Some?
  {
    var j, kept := Find(entries, x).value, Remove(entries, i);
    FindsFirst(kept, x, 0);
    assert kept[if j < i then j else j - 1] == entries[j];
  }

  /** Registering forgets a settled entry at most. */
  lemma RegisterForgetsSettled(r: Registry, id: RequestId, decisions: set<Decision>, deadline: nat,
                               reg: Registry, startTimer: bool, x: RequestId)
    requires RegistryOk(r) && Register(r, id, decisions, deadline) == Ok((reg, startTimer))
    requires Find(r.entries, x).Some? && r.entries[Find(r.entries, x).value].status.Pending?
    ensures Find(reg.entries, x).Some?
  {
    var kept := MakeRoom(r.entries).value;
    MakeRoomKeeps(r);
    if |r.entries| >= MAX_RETAINED {
      var i := FirstSettled(r.entries, 0).value;
      LookupIs(r.entries, i);
      RemoveForgetsOne(r.entries, i, x);
    }
    var more := kept + [NewEntry(id, decisions, deadline)];
    FindsFirst(more, x, 0);
    assert more[Find(kept, x).value].id == x;
  }

  lemma RegisteringForgetsSettled(s: System, id: RequestId, decisions: set<Decision>, spawned: bool, timeout: nat,
                                  next: System, x: RequestId)
    requires Inv(s, timeout) && next == AfterRegister(s, id, decisions, spawned, timeout)
    requires Lookup(s.reg.entries, x).Some? && Lookup(s.reg.entries, x).value.status.Pending?
    ensures Lookup(next.reg.entries, x).Some?
  {
    match Register(s.reg, id, decisions, s.clock + timeout)
    case Err(_) =>
    case Ok((reg, startTimer)) =>
      if id !in s.offered {
        RegisterForgetsSettled(s.reg, id, decisions, s.clock + timeout, reg, startTimer, x);
        AcceptedLookup(s.reg, id, decisions, s.clock + timeout, reg, startTimer);
        RegisterSplits(s, id, decisions, spawned, timeout, reg, startTimer, next);
        if startTimer && !spawned {
          FailedSpawnLookup(Registered(s, id, decisions, reg), timeout, next, x);
        }
      }
  }

  lemma StepForgetsSettled(s: System, a: Action, timeout: nat, next: System, x: RequestId)
    requires Inv(s, timeout) && next == Step(s, a, timeout)
    requires Lookup(s.reg.entries, x).Some? && Lookup(s.reg.entries, x).value.status.Pending?
    ensures Lookup(next.reg.entries, x).Some?
  {
    match a
    case Registering(id, decisions, spawned) => RegisteringForgetsSettled(s, id, decisions, spawned, timeout, next, x);
    case Cancelling(id) => SettleEntryLookup(s.reg, id, Cancelled, true, x);
    case Expiring(id) => SettleEntryLookup(s.reg, id, Expired, false, x);
    case Finishing => EachForgetsNothing(s.reg, next.reg.entries, x);
    case Closing => EachForgetsNothing(s.reg, next.reg.entries, x);
    case Ticking(_) =>
    case Overdueing => EachForgetsNothing(s.reg, next.reg.entries, x);
    case Denying(_, _) =>
    case BeginningAnswer(id, d) => BeginForgetsNothing(s.reg, id, d, x);
    case Responding(_, _) =>
    case EndingAnswer(id) => EndForgetsNothing(s, id, timeout, next, x);
    case StoppingTimer =>
  }

  lemma EachForgetsNothing(r: Registry, b: seq<Entry>, x: RequestId)
    requires DistinctIds(r.entries) && |b| == |r.entries| && forall j :: 0 <= j < |b| ==> b[j].id == r.entries[j].id
    ensures Find(b, x) == Find(r.entries, x)
  {
    LookupEach(r.entries, b, x);
  }

  lemma BeginForgetsNothing(r: Registry, id: RequestId, d: Decision, x: RequestId)
    requires RegistryOk(r)
    ensures Find(BeginAnswer(r, id, d).0.entries, x) == Find(r.entries, x)
  {
    EachForgetsNothing(r, BeginAnswer(r, id, d).0.entries, x);
  }

  lemma EndForgetsNothing(s: System, id: RequestId, timeout: nat, next: System, x: RequestId)
    requires Inv(s, timeout) && next == AfterEnd(s, id)
    ensures Find(next.reg.entries, x) == Find(s.reg.entries, x)
  {
    EachForgetsNothing(s.reg, next.reg.entries, x);
  }

  /**
   * Over any run, an entry that is pending, so one being answered too, is forgotten only after it
   * was settled: an answer finds its entry gone only when something settled it on the way.
   */
  lemma {:induction false} OnlySettledEntriesAreForgotten(s: System, actions: seq<Action>, timeout: nat, x: RequestId) returns (k: nat)
    requires Inv(s, timeout)
    requires Lookup(s.reg.entries, x).Some? && Lookup(s.reg.entries, x).value.status.Pending?
    requires Lookup(Run(s, actions, timeout).reg.entries, x).None?
    ensures k < |actions|
    ensures var seen := Lookup(Run(s, actions[..k], timeout).reg.entries, x); seen.Some? && !seen.value.status.Pending?
  {
    var last := |actions| - 1;
    var before := actions[..last];
    var seen := Lookup(Run(s, before, timeout).reg.entries, x);
    RunKeepsInvFrom(s, before, timeout);
    if seen.None? {
      k := OnlySettledEntriesAreForgotten(s, before, timeout, x);
      assert before[..k] == actions[..k];
    } else {
      k := last;
      if seen.value.status.Pending? {
        StepForgetsSettled(Run(s, before, timeout), actions[last], timeout, Run(s, actions, timeout), x);
      }
    }
  }

  lemma Then(actions: seq<Action>, a: Action, timeout: nat) returns (more: seq<Action>)
    ensures more == actions + [a] && Run(START, more, timeout) == Step(Run(START, actions, timeout), a, timeout)
  {
    more := actions + [a];
    assert more[..|more| - 1] == actions;
  }

  // Requests are told apart by the length of their text.

  function RequestOf(n: nat): RequestId {
    RequestId(seq(n, i requires 0 <= i < n => 'a'))
  }

  lemma RequestsDiffer(n: nat, m: nat)
    requires n != m
    ensures RequestOf(n) != RequestOf(m)
  {
    assert |RequestOf(n).text| == n && |RequestOf(m).text| == m;
  }

  function CancelledEntry(n: nat, timeout: nat): Entry {
    Entry(RequestOf(n), {Deny}, Cancelled, None, false, n == 0, timeout)
  }

  /** The first n requests, all cancelled; the first of them while it was being answered. */
  function CancelledEntries(n: nat, timeout: nat): seq<Entry> {
    seq(n, i requires 0 <= i < n => CancelledEntry(i, timeout))
  }

  function OfferedTo(n: nat): map<RequestId, set<Decision>> {
    map i: nat | 0 <= i < n :: RequestOf(i) := {Deny}
  }

  /** The first of n cancelled requests is still being answered. */
  function CrowdedBy(n: nat, timeout: nat): System {
    System(Registry(CancelledEntries(n, timeout), false, true), OfferedTo(n), map[RequestOf(0) := Calling(Deny)], false, [], [], 0)
  }

  lemma {:induction false} NoneIsPending(entries: seq<Entry>)
    requires forall j :: 0 <= j < |entries| ==> !entries[j].status.Pending?
    ensures CountPending(entries) == 0
  {
    if entries != [] {
      NoneIsPending(entries[..|entries| - 1]);
    }
  }

  lemma NextIsUnknown(n: nat, timeout: nat)
    ensures Find(CancelledEntries(n, timeout), RequestOf(n)).None? && RequestOf(n) !in OfferedTo(n)
    ensures CountPending(CancelledEntries(n, timeout)) == 0
  {
    forall i | 0 <= i < n ensures RequestOf(i) != RequestOf(n) {
      RequestsDiffer(i, n);
    }
    FindsFirst(CancelledEntries(n, timeout), RequestOf(n), 0);
    NoneIsPending(CancelledEntries(n, timeout));
  }

  lemma OfferedGrows(n: nat)
    ensures OfferedTo(n)[RequestOf(n) := {Deny}] == OfferedTo(n + 1)
  {
    assert OfferedTo(n)[RequestOf(n) := {Deny}].Keys == OfferedTo(n + 1).Keys;
  }

  /** What cancelling the last of the entries does. */
  lemma LastIsCancelled(r: Registry, before: seq<Entry>, e: Entry)
    requires r.entries == before + [e] && Find(before, e.id).None? && e.status.Pending?
    ensures SettleEntry(r, e.id, Cancelled, true).0 == r.(entries := before + [e.(status := Cancelled, held := false)])
  {
    FindsFirst(before, e.id, 0);
    FindsFirst(r.entries, e.id, 0);
    assert r.entries[|before|] == e;
    assert forall j :: 0 <= j < |before| ==> r.entries[j] == before[j];
    assert r.entries[|before| := e.(status := Cancelled, held := false)] == before + [e.(status := Cancelled, held := false)];
  }

  /** The system with one more request, still pending. */
  function WithNext(n: nat, timeout: nat): System {
    CrowdedBy(n, timeout).(
      reg := Registry(CancelledEntries(n, timeout) + [NewEntry(RequestOf(n), {Deny}, timeout)], false, true),
      offered := OfferedTo(n + 1))
  }

  lemma NextRegisters(n: nat, timeout: nat)
    requires n < MAX_RETAINED
    ensures Step(CrowdedBy(n, timeout), Registering(RequestOf(n), {Deny}, true), timeout) == WithNext(n, timeout)
  {
    NextIsUnknown(n, timeout);
    OfferedGrows(n);
  }

  lemma NextCancels(n: nat, timeout: nat)
    requires n > 0
    ensures Step(WithNext(n, timeout), Cancelling(RequestOf(n)), timeout) == CrowdedBy(n + 1, timeout)
  {
    NextIsUnknown(n, timeout);
    LastIsCancelled(WithNext(n, timeout).reg, CancelledEntries(n, timeout), NewEntry(RequestOf(n), {Deny}, timeout));
    assert CancelledEntries(n, timeout) + [CancelledEntry(n, timeout)] == CancelledEntries(n + 1, timeout);
  }

  lemma CanCrowdOneMore(actions: seq<Action>, n: nat, timeout: nat) returns (more: seq<Action>)
    requires 0 < n < MAX_RETAINED && Run(START, actions, timeout) == CrowdedBy(n, timeout)
    ensures Run(START, more, timeout) == CrowdedBy(n + 1, timeout)
  {
    more := Then(actions, Registering(RequestOf(n), {Deny}, true), timeout);
    NextRegisters(n, timeout);
    more := Then(more, Cancelling(RequestOf(n)), timeout);
    NextCancels(n, timeout);
  }

  lemma CanCancelInFlight(timeout: nat) returns (actions: seq<Action>)
    ensures Run(START, actions, timeout) == CrowdedBy(1, timeout)
  {
    var e := NewEntry(RequestOf(0), {Deny}, timeout);
    var submitted := e.(submitting := true, held := false);
    var registered := Then([], Registering(RequestOf(0), {Deny}, true), timeout);
    assert Run(START, registered, timeout).reg == Registry([e], false, true);
    var begun := Then(registered, BeginningAnswer(RequestOf(0), Deny), timeout);
    assert Run(START, begun, timeout).reg == Registry([submitted], false, true);
    assert [] + [submitted] == [submitted];
    LastIsCancelled(Registry([submitted], false, true), [], submitted);
    actions := Then(begun, Cancelling(RequestOf(0)), timeout);
    OfferedGrows(0);
    assert CancelledEntries(1, timeout) == [CancelledEntry(0, timeout)];
  }

  lemma {:induction false} CanCrowd(n: nat, timeout: nat) returns (actions: seq<Action>)
    requires 0 < n <= MAX_RETAINED
    ensures Run(START, actions, timeout) == CrowdedBy(n, timeout)
  {
    if n == 1 {
      actions := CanCancelInFlight(timeout);
    } else {
      actions := CanCrowd(n - 1, timeout);
      actions := CanCrowdOneMore(actions, n - 1, timeout);
    }
  }

  lemma FirstIsForgotten(n: nat, timeout: nat)
    requires n > 0
    ensures var entries := CancelledEntries(n, timeout);
            FirstSettled(entries, 0) == Some(0) && Find(entries[1..] + [NewEntry(RequestOf(n), {Deny}, timeout)], RequestOf(0)).None?
  {
    var entries := CancelledEntries(n, timeout);
    var left := entries[1..] + [NewEntry(RequestOf(n), {Deny}, timeout)];
    forall i | 0 <= i < |left| ensures left[i].id != RequestOf(0) {
      RequestsDiffer(i + 1, 0);
    }
    FindsFirst(left, RequestOf(0), 0);
  }

  /**
   * A cancel and thirty-two further requests can overtake an answer: its responder accepts the
   * decision, and the answer reports an expired approval.
   */
  lemma DeliveredAnswerMayBeLost(timeout: nat) returns (actions: seq<Action>)
    ensures var s := Run(START, actions, timeout);
            && Delivery(RequestOf(0), Deny, true, true) in s.log
            && RequestOf(0) in s.calls && s.calls[RequestOf(0)] == Returned(Deny, true)
            && Find(s.reg.entries, RequestOf(0)).None?
            && EndAnswer(s.reg, RequestOf(0), Deny, true).1 == Err(ApprovalExpired)
  {
    actions := CanCrowd(MAX_RETAINED, timeout);
    actions := Then(actions, Registering(RequestOf(MAX_RETAINED), {Deny}, true), timeout);
    NextEvictsFirst(timeout, Run(START, actions, timeout));
    actions := Then(actions, Responding(RequestOf(0), true), timeout);
  }

  lemma NextEvictsFirst(timeout: nat, next: System)
    requires next == Step(CrowdedBy(MAX_RETAINED, timeout), Registering(RequestOf(MAX_RETAINED), {Deny}, true), timeout)
    ensures Find(next.reg.entries, RequestOf(0)).None? && next.calls == map[RequestOf(0) := Calling(Deny)]
  {
    NextIsUnknown(MAX_RETAINED, timeout);
    FirstIsForgotten(MAX_RETAINED, timeout);
    assert Remove(CancelledEntries(MAX_RETAINED, timeout), 0) == CancelledEntries(MAX_RETAINED, timeout)[1..];
  }

  // ---------------------------------------------------------------- the mutable registry

  class ApprovalRegistry {
    var entries: seq<Entry>
    var closed: bool
    var timerRunning: bool

    ghost function View(): Registry
      reads this
    {
      Registry(entries, closed, timerRunning)
    }

    constructor ()
      ensures View() == START.reg
    {
      entries, closed, timerRunning := [], false, false;
    }

    /** On success the result says whether the caller has to start the timer. */
    method Add(id: RequestId, decisions: set<Decision>, deadline: nat) returns (r: Result<bool, RegisterError>)
      modifies this
      ensures match Register(old(View()), id, decisions, deadline)
              case Ok((next, startTimer)) => r == Ok(startTimer) && View() == next
              case Err(e) => r == Err(e) && View() == old(View())
    {
      if Deny !in decisions {
        return Err(InvalidApproval);
      }
      if closed || Find(entries, id).Some? {
        return Err(SessionUnavailable);
      }
      if CountPending(entries) >= MAX_PENDING {
        return Err(TooManyPending);
      }
      if |entries| >= MAX_RETAINED {
        match FirstSettled(entries, 0)
        case None => return Err(LimitReached);
        case Some(i) => entries := entries[..i] + entries[i + 1..];
      }
      entries := entries + [Entry(id, decisions, Pending, None, true, false, deadline)];
      var startTimer := !timerRunning;
      timerRunning := true;
      return Ok(startTimer);
    }

    method Settle(id: RequestId, status: Status, includeSubmitting: bool) returns (changed: bool)
      modifies this`entries
      ensures (View(), changed) == SettleEntry(old(View()), id, status, includeSubmitting)
    {
      match Find(entries, id)
      case None => return false;
      case Some(i) =>
        var e := entries[i];
        if !e.status.Pending? || (e.submitting && !includeSubmitting) {
          return false;
        }
        entries := entries[i := e.(status := status, held := false)];
        return true;
    }

    method Close(includeSubmitting: bool) returns (changed: bool)
      modifies this
      ensures (View(), changed) == SettleAll(old(View()), includeSubmitting)
    {
      changed := !closed;
      closed := true;
      ghost var target := SettleEach(entries, includeSubmitting);
      for i := 0 to |entries|
        invariant |entries| == |target| == |old(entries)|
        invariant forall j :: 0 <= j < i ==> entries[j] == target[j]
        invariant forall j :: i <= j < |entries| ==> entries[j] == old(entries)[j]
        invariant changed <==> !old(closed) || exists j :: 0 <= j < i && target[j] != old(entries)[j]
        invariant closed && timerRunning == old(timerRunning)
      {
        var e := entries[i];
        if e.status.Pending? && (includeSubmitting || !e.submitting) {
          entries := entries[i := e.(status := Expired, held := false)];
          changed := true;
          assert target[i] != old(entries)[i];
        }
      }
      assert entries == target;
    }

    method TakeOverdue(now: nat) returns (taken: seq<RequestId>)
      modifies this`entries
      ensures (View(), taken) == ExpireOverdue(old(View()), now)
    {
      taken := [];
      ghost var target := ExpireEach(entries, now);
      for i := 0 to |entries|
        invariant |entries| == |target| == |old(entries)|
        invariant forall j :: 0 <= j < i ==> entries[j] == target[j]
        invariant forall j :: i <= j < |entries| ==> entries[j] == old(entries)[j]
        invariant taken == TakenOverdue(old(entries)[..i], now)
      {
        var e := entries[i];
        assert old(entries)[..i + 1][..i] == old(entries)[..i];
        if e.status.Pending? && !e.submitting && e.deadline <= now {
          entries := entries[i := e.(status := TimedOut, held := false)];
          if e.held {
            taken := taken + [e.id];
          }
        }
      }
      assert entries == target;
      assert old(entries)[..|old(entries)|] == old(entries);
    }

    method StartAnswer(id: RequestId, d: Decision) returns (admission: Admission)
      modifies this`entries
      ensures (View(), admission) == BeginAnswer(old(View()), id, d)
    {
      match Find(entries, id)
      case None => return Refuse(UnknownApproval);
      case Some(i) =>
        var e := entries[i];
        if d !in e.decisions {
          return Refuse(NotOffered);
        }
        if e.decision == Some(d) {
          return Replay;
        }
        if closed || !e.status.Pending? || e.submitting {
          return Refuse(NoLongerPending);
        }
        entries := entries[i := e.(submitting := true, held := false)];
        return if e.held then Submit else Refuse(NoLongerPending);
    }

    method FinishAnswer(id: RequestId, d: Decision, delivered: bool) returns (r: Result<Entry, AnswerError>)
      modifies this`entries
      ensures (View(), r) == EndAnswer(old(View()), id, d, delivered)
    {
      match Find(entries, id)
      case None => return Err(ApprovalExpired);
      case Some(i) =>
        var e := entries[i].(submitting := false);
        if !delivered {
          if e.status.Pending? {
            e := e.(status := Expired);
          }
          entries := entries[i := e];
          return Err(ResponseFailed);
        }
        e := e.(status := if d.Deny? then Denied else Approved, decision := Some(d));
        entries := entries[i := e];
        return Ok(e);
    }

    /** One look of the timer at the registry: it stops when closed or when nothing waits. */
    method StopTimerWhenIdle() returns (stopped: bool)
      modifies this`timerRunning
      ensures stopped <==> closed || forall e :: e in entries ==> !Awaiting(e)
      ensures timerRunning == (old(timerRunning) && !stopped)
    {
      var waiting := false;
      for i := 0 to |entries|
        invariant waiting <==> exists j :: 0 <= j < i && Awaiting(entries[j])
      {
        if entries[i].status.Pending? && !entries[i].submitting {
          waiting := true;
        }
      }
      stopped := closed || !waiting;
      if stopped {
        timerRunning := false;
      }
    }
  }
}
