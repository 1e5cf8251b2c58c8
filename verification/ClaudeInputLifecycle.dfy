/**
 * The ledger that correlates inputs accepted on Claude's standard input with the
 * lifecycle events the provider reports about them.  Events arrive in any order, and an
 * interrupt may be opened and withdrawn again around any of them.
 */
module ClaudeInputLifecycle {
  import opened Wrappers

  const MAX_REMEMBERED_ABANDONED := 64
  const MAX_PENDING := 32
  const MAX_RESULTS := 0xFFFF_FFFF_FFFF_FFFF

  datatype CommandId = CommandId(text: string)

  datatype Phase = Queued | Started | Completed | Cancelled | Discarded | Refused | OtherPhase

  /** A provider message, reduced to the fields the ledger reads. */
  datatype Message = ResultMessage | Lifecycle(id: CommandId, phase: Phase) | OtherMessage

  datatype Progress = Progress(startedAfter: Option<nat>, completed: bool)

  datatype Rejection = Stopping | NotSteerable

  const FRESH := Progress(None, false)

  datatype Ledger = Ledger(
    supported: bool,
    closed: bool,
    results: nat,
    pending: map<CommandId, Progress>,
    interrupted: seq<CommandId>,
    interrupting: bool,
    withdrawable: map<CommandId, Progress>)

  const INITIAL := Ledger(false, false, 0, map[], [], false, map[])

  // ---------------------------------------------------------------- single operations

  predicate Finished(p: Progress, results: nat) {
    p.completed && p.startedAfter.Some? && results > p.startedAfter.value
  }

  function Discharge(pending: map<CommandId, Progress>, results: nat): map<CommandId, Progress> {
    map id | id in pending && !Finished(pending[id], results) :: pending[id]
  }

  /** None when the phase says that the provider will not complete the input. */
  function Advance(p: Progress, phase: Phase, results: nat): Option<Progress> {
    match phase
    case Started => Some(if p.startedAfter.None? then p.(startedAfter := Some(results)) else p)
    case Completed => Some(p.(completed := true))
    case Cancelled => None
    case Discarded => None
    case Refused => None
    case Queued => Some(p)
    case OtherPhase => Some(p)
  }

  ghost predicate Enumerates(order: seq<CommandId>, ids: set<CommandId>) {
    |order| == |ids| && forall id :: id in order <==> id in ids
  }

  function Remember(queue: seq<CommandId>, id: CommandId): seq<CommandId> {
    (if |queue| == MAX_REMEMBERED_ABANDONED then queue[1..] else queue) + [id]
  }

  function RememberAll(queue: seq<CommandId>, order: seq<CommandId>): seq<CommandId> {
    if order == [] then queue
    else Remember(RememberAll(queue, order[..|order| - 1]), order[|order| - 1])
  }

  function Without(queue: seq<CommandId>, ids: set<CommandId>): seq<CommandId> {
    if queue == [] then []
    else (if queue[0] in ids then [] else [queue[0]]) + Without(queue[1..], ids)
  }

  function Reserve(l: Ledger, id: CommandId): Result<Ledger, Rejection> {
    if l.interrupting && !l.closed then Err(Stopping)
    else if !l.supported || l.closed || |l.pending| >= MAX_PENDING then Err(NotSteerable)
    else Ok(l.(pending := l.pending[id := FRESH]))
  }

  function AbandonAll(l: Ledger, order: seq<CommandId>): Ledger {
    l.(pending := map[], interrupted := RememberAll(l.interrupted, order))
  }

  function BeginInterrupt(l: Ledger, order: seq<CommandId>): Ledger {
    l.(interrupting := true,
       withdrawable := l.pending,
       pending := map[],
       interrupted := RememberAll(l.interrupted, order))
  }

  function WithdrawInterrupt(l: Ledger): Ledger {
    if !l.interrupting then l
    else l.(interrupting := false,
            withdrawable := map[],
            interrupted := Without(l.interrupted, l.withdrawable.Keys),
            pending := Discharge(l.pending + l.withdrawable, l.results))
  }

  function Abandon(l: Ledger, id: CommandId): Ledger {
    l.(pending := l.pending - {id})
  }

  /** The new ledger, and whether the message was accepted. */
  function Observe(l: Ledger, initialId: CommandId, m: Message): (Ledger, bool) {
    match m
    case OtherMessage => (l.(pending := Discharge(l.pending, l.results)), true)
    case ResultMessage =>
      var results := if l.results < MAX_RESULTS then l.results + 1 else l.results;
      (l.(results := results, pending := Discharge(l.pending, results)), true)
    case Lifecycle(id, phase) =>
      var supported := l.supported || (id == initialId && (phase.Queued? || phase.Started?));
      if id in l.pending && Advance(l.pending[id], phase, l.results).None? then
        (l.(supported := supported), false)
      else
        var pending := if id in l.pending
                       then l.pending[id := Advance(l.pending[id], phase, l.results).value]
                       else l.pending;
        (l.(supported := supported,
            withdrawable := AdvanceWithdrawable(l.withdrawable, id, phase, l.results),
            pending := Discharge(pending, l.results)), true)
  }

  function AdvanceWithdrawable(w: map<CommandId, Progress>, id: CommandId, phase: Phase, results: nat)
    : map<CommandId, Progress>
  {
    if id !in w then w
    else match Advance(w[id], phase, results)
         case None => w - {id}
         case Some(p) => w[id := p]
  }

  function CloseIfSettled(l: Ledger): (Ledger, bool) {
    if l.pending != map[] then (l, false) else (l.(closed := true), true)
  }

  predicate NamesCommand(l: Ledger, initialId: CommandId, id: CommandId) {
    id != CommandId("") && (id == initialId || id in l.pending || id in l.interrupted)
  }

  // ---------------------------------------------------------------- what an event does, by its phase

  /** The provider says that it will not complete the input. */
  predicate GivesUp(phase: Phase) { phase == Cancelled || phase == Discarded || phase == Refused }

  /**
   * A message is refused exactly when it gives up an input that is pending, and then nothing is
   * changed but that commands may now be known to be supported.
   */
  lemma RefusedIff(l: Ledger, initialId: CommandId, m: Message)
    ensures !Observe(l, initialId, m).1 <==> m.Lifecycle? && m.id in l.pending && GivesUp(m.phase)
    ensures !Observe(l, initialId, m).1 ==> Observe(l, initialId, m).0 == l.(supported := Observe(l, initialId, m).0.supported)
  {
  }

  /** Commands are known to be supported once the initial command is queued or started, and for good. */
  lemma SupportedIff(l: Ledger, initialId: CommandId, m: Message)
    ensures Observe(l, initialId, m).0.supported <==>
            l.supported || m == Lifecycle(initialId, Queued) || m == Lifecycle(initialId, Started)
  {
  }

  /** The ledger closes exactly when nothing is pending, and says so; nothing else changes. */
  lemma ClosesIffSettled(l: Ledger)
    ensures CloseIfSettled(l).1 <==> forall id :: id !in l.pending
    ensures CloseIfSettled(l).0 == l.(closed := l.closed || forall id :: id !in l.pending)
  {
  }

  /** An event names a command of the session by any id it has and still remembers, never by the empty one. */
  lemma NamesCommandIff(l: Ledger, initialId: CommandId, id: CommandId)
    ensures NamesCommand(l, initialId, id) <==> |id.text| > 0 && (id in l.pending || id in l.interrupted || id == initialId)
  {
  }

  /** A withdrawable input is dropped exactly by an accepted event that gives it up. */
  lemma WithdrawableDroppedIff(l: Ledger, initialId: CommandId, m: Message, id: CommandId)
    requires id in l.withdrawable
    ensures id !in Observe(l, initialId, m).0.withdrawable <==>
            m.Lifecycle? && m.id == id && GivesUp(m.phase) && id !in l.pending
  {
  }

  /** What a progress becomes: the first start notes the results so far, a completion is kept. */
  predicate Progresses(before: Progress, after: Progress, phase: Phase, results: nat) {
    && (after.completed <==> before.completed || phase == Completed)
    && after.startedAfter == (if before.startedAfter.None? && phase == Started then Some(results) else before.startedAfter)
  }

  /** An input that stays in the ledger has taken note of the event if it was its own, and of nothing else. */
  lemma OwnEventsAreNoted(l: Ledger, initialId: CommandId, m: Message, id: CommandId)
    ensures var (next, accepted) := Observe(l, initialId, m);
            && next.interrupted == l.interrupted && next.interrupting == l.interrupting && next.closed == l.closed
            && (id in next.pending ==>
                  && id in l.pending
                  && if accepted && m.Lifecycle? && m.id == id
                     then Progresses(l.pending[id], next.pending[id], m.phase, l.results) else next.pending[id] == l.pending[id])
            && (id in next.withdrawable ==>
                  && id in l.withdrawable
                  && if accepted && m.Lifecycle? && m.id == id
                     then Progresses(l.withdrawable[id], next.withdrawable[id], m.phase, l.results)
                     else next.withdrawable[id] == l.withdrawable[id])
  {
  }

  /** A pending input leaves the ledger exactly when it has completed and a result has come since it started. */
  lemma LeavesPendingIff(l: Ledger, initialId: CommandId, m: Message, id: CommandId)
    requires id in l.pending && Observe(l, initialId, m).1
    ensures var next := Observe(l, initialId, m).0;
            id !in next.pending <==>
            var p := l.pending[id];
            var own := m.Lifecycle? && m.id == id;
            && (p.completed || (own && m.phase == Completed))
            && p.startedAfter.Some? && next.results > p.startedAfter.value
  {
  }

  /** Admission: the reason for a refusal, and what an admitted input begins with. */
  lemma ReservedIff(l: Ledger, id: CommandId)
    ensures Reserve(l, id) == Err(Stopping) <==> l.interrupting && !l.closed
    ensures Reserve(l, id) == Err(NotSteerable) <==> l.closed || (!l.interrupting && (!l.supported || |l.pending| >= 32))
    ensures Reserve(l, id).Ok? ==> Reserve(l, id).value == l.(pending := l.pending[id := Progress(None, false)])
  {
  }

  // ---------------------------------------------------------------- whole runs

  /** One call on the ledger.  The order in which a hash map is drained is part of the call. */
  datatype Op =
    | ReserveOp(newId: CommandId)
    | AbandonAllOp(order: seq<CommandId>)
    | BeginInterruptOp(order: seq<CommandId>)
    | WithdrawInterruptOp
    | AbandonOp(id: CommandId)
    | ObserveOp(message: Message)
    | CloseIfSettledOp

  function Apply(l: Ledger, initialId: CommandId, op: Op): Ledger {
    match op
    case ReserveOp(id) => (match Reserve(l, id) case Ok(next) => next case Err(_) => l)
    case AbandonAllOp(order) => AbandonAll(l, order)
    case BeginInterruptOp(order) => BeginInterrupt(l, order)
    case WithdrawInterruptOp => WithdrawInterrupt(l)
    case AbandonOp(id) => Abandon(l, id)
    case ObserveOp(m) => Observe(l, initialId, m).0
    case CloseIfSettledOp => CloseIfSettled(l).0
  }

  function Run(l: Ledger, initialId: CommandId, ops: seq<Op>): Ledger {
    if ops == [] then l
    else Apply(Run(l, initialId, ops[..|ops| - 1]), initialId, ops[|ops| - 1])
  }

  function Issued(issued: set<CommandId>, ops: seq<Op>): set<CommandId> {
    if ops == [] then issued
    else
      var before := Issued(issued, ops[..|ops| - 1]);
      var last := ops[|ops| - 1];
      if last.ReserveOp? then before + {last.newId} else before
  }

  /** Reserved ids are new and drains visit every key once. */
  ghost predicate LegalOp(l: Ledger, issued: set<CommandId>, op: Op) {
    && (op.ReserveOp? ==> op.newId !in issued && op.newId != CommandId(""))
    && (op.AbandonAllOp? || op.BeginInterruptOp? ==> Enumerates(op.order, l.pending.Keys))
  }

  ghost predicate Legal(initialId: CommandId, ops: seq<Op>) {
    ops == []
    || (var before := ops[..|ops| - 1];
        && Legal(initialId, before)
        && LegalOp(Run(INITIAL, initialId, before), Issued({}, before), ops[|ops| - 1]))
  }

  ghost predicate Inv(l: Ledger, issued: set<CommandId>) {
    && (l.interrupting ==> l.pending == map[])
    && (!l.interrupting ==> l.withdrawable == map[])
    && l.results <= 0xFFFF_FFFF_FFFF_FFFF
    && |l.pending| <= 32
    && |l.withdrawable| <= 32
    && |l.interrupted| <= 64
    && (forall id :: id in l.pending ==> id !in l.interrupted)
    && (forall id :: id in l.withdrawable ==> id in l.interrupted)
    && (forall id :: id in l.pending ==> !Finished(l.pending[id], l.results))
    && (forall id :: id in l.pending ==> id in issued)
    && (forall id :: id in l.withdrawable ==> id in issued)
    && (forall id :: id in l.interrupted ==> id in issued)
    && CommandId("") !in issued
  }

  lemma RememberKeeps(queue: seq<CommandId>, id: CommandId, n: nat)
    requires n <= |queue| <= 64 && n < 64
    ensures var r := Remember(queue, id);
            && n + 1 <= |r| <= 64 && r[|r| - n - 1..] == queue[|queue| - n..] + [id]
            && forall x :: x in r ==> x in queue || x == id
  {
    var r := Remember(queue, id);
    if |queue| == 64 {
      assert r == queue[1..] + [id];
    }
  }

  /** Forgetting the oldest ids never forgets one of at most 64 ids remembered last. */
  lemma {:induction false} RememberAllKeepsLatest(queue: seq<CommandId>, order: seq<CommandId>)
    requires |queue| <= 64 && |order| <= 64
    ensures var r := RememberAll(queue, order);
            && |order| <= |r| <= 64
            && r[|r| - |order|..] == order
            && (forall id :: id in r ==> id in queue || id in order)
  {
    if order != [] {
      var n := |order| - 1;
      RememberAllKeepsLatest(queue, order[..n]);
      RememberKeeps(RememberAll(queue, order[..n]), order[n], n);
      assert order == order[..n] + [order[n]];
    }
  }

  lemma {:induction false} WithoutMembers(queue: seq<CommandId>, ids: set<CommandId>)
    ensures |Without(queue, ids)| <= |queue|
    ensures forall id :: id in Without(queue, ids) <==> id in queue && id !in ids
  {
    if queue != [] {
      WithoutMembers(queue[1..], ids);
      assert queue == [queue[0]] + queue[1..];
    }
  }

  lemma SubmapSize<K, V>(small: map<K, V>, big: map<K, V>)
    requires small.Keys <= big.Keys
    ensures |small| <= |big|
  {
    SubsetSize(small.Keys, big.Keys);
    assert |small| == |small.Keys| && |big| == |big.Keys|;
  }

  lemma {:induction false} SubsetSize<T>(a: set<T>, b: set<T>)
    requires a <= b
    ensures |a| <= |b|
  {
    if a != {} {
      var x :| x in a;
      SubsetSize(a - {x}, b - {x});
    }
  }

  lemma ObserveKeepsInvariant(l: Ledger, initialId: CommandId, issued: set<CommandId>, m: Message)
    requires Inv(l, issued)
    ensures Inv(Observe(l, initialId, m).0, issued)
  {
    var next := Observe(l, initialId, m).0;
    match m
    case OtherMessage =>
      SubmapSize(next.pending, l.pending);
    case ResultMessage =>
      SubmapSize(next.pending, l.pending);
    case Lifecycle(id, phase) =>
      assert next.pending.Keys <= l.pending.Keys;
      assert next.withdrawable.Keys <= l.withdrawable.Keys;
      SubmapSize(next.pending, l.pending);
      SubmapSize(next.withdrawable, l.withdrawable);
  }

  lemma RestoreKeepsInvariant(l: Ledger, issued: set<CommandId>)
    requires Inv(l, issued)
    ensures Inv(WithdrawInterrupt(l), issued)
  {
    if l.interrupting {
      WithoutMembers(l.interrupted, l.withdrawable.Keys);
      SubmapSize(WithdrawInterrupt(l).pending, l.withdrawable);
    }
  }

  lemma DrainKeepsInvariant(l: Ledger, issued: set<CommandId>, order: seq<CommandId>)
    requires Inv(l, issued) && Enumerates(order, l.pending.Keys)
    ensures Inv(AbandonAll(l, order), issued)
    ensures Inv(BeginInterrupt(l, order), issued)
  {
    assert |order| == |l.pending.Keys| == |l.pending|;
    RememberAllKeepsLatest(l.interrupted, order);
    var r := RememberAll(l.interrupted, order);
    assert forall id :: id in order ==> id in r[|r| - |order|..] && id in r;
    if l.interrupting {
      assert order == [];
    }
  }

  lemma ReserveKeepsInvariant(l: Ledger, issued: set<CommandId>, id: CommandId)
    requires Inv(l, issued) && id !in issued && id != CommandId("")
    ensures match Reserve(l, id)
            case Ok(next) => Inv(next, issued + {id})
            case Err(_) => Inv(l, issued + {id})
  {
    assert |l.pending[id := FRESH]| <= |l.pending| + 1;
  }

  lemma AbandonKeepsInvariant(l: Ledger, issued: set<CommandId>, id: CommandId)
    requires Inv(l, issued)
    ensures Inv(Abandon(l, id), issued)
  {
    SubmapSize(l.pending - {id}, l.pending);
  }

  lemma ApplyKeepsInvariant(l: Ledger, initialId: CommandId, issued: set<CommandId>, op: Op)
    requires Inv(l, issued) && LegalOp(l, issued, op)
    ensures Inv(Apply(l, initialId, op), if op.ReserveOp? then issued + {op.newId} else issued)
  {
    match op
    case ReserveOp(id) =>
      ReserveKeepsInvariant(l, issued, id);
    case AbandonAllOp(order) => DrainKeepsInvariant(l, issued, order);
    case BeginInterruptOp(order) => DrainKeepsInvariant(l, issued, order);
    case WithdrawInterruptOp => RestoreKeepsInvariant(l, issued);
    case AbandonOp(id) => AbandonKeepsInvariant(l, issued, id);
    case ObserveOp(m) => ObserveKeepsInvariant(l, initialId, issued, m);
    case CloseIfSettledOp =>
  }

  /** What every run with fresh ids keeps. */
  lemma {:induction false} RunKeepsInvariant(initialId: CommandId, ops: seq<Op>)
    requires Legal(initialId, ops)
    ensures Inv(Run(INITIAL, initialId, ops), Issued({}, ops))
  {
    if ops != [] {
      var before := ops[..|ops| - 1];
      RunKeepsInvariant(initialId, before);
      ApplyKeepsInvariant(Run(INITIAL, initialId, before), initialId, Issued({}, before), ops[|ops| - 1]);
    }
  }

  /** Every input that can still be awaited stays recognisable, whatever was forgotten meanwhile. */
  lemma AwaitedInputsAreNamed(initialId: CommandId, ops: seq<Op>, id: CommandId)
    requires Legal(initialId, ops)
    requires var l := Run(INITIAL, initialId, ops); id in l.pending || id in l.withdrawable
    ensures NamesCommand(Run(INITIAL, initialId, ops), initialId, id)
  {
    RunKeepsInvariant(initialId, ops);
  }

  /**
   * A settled, closed ledger does not stay settled in general: exactly the withdrawal of an
   * interrupt with an unfinished input brings pending inputs back.
   */
  lemma ClosedLedgerReopensIff(l: Ledger, initialId: CommandId, issued: set<CommandId>, op: Op)
    requires Inv(l, issued) && l.closed && l.pending == map[]
    ensures Apply(l, initialId, op).closed
    ensures Apply(l, initialId, op).pending != map[]
            <==> (op.WithdrawInterruptOp? && l.interrupting
                  && exists id :: id in l.withdrawable && !Finished(l.withdrawable[id], l.results))
  {
    var next := Apply(l, initialId, op);
    if op.WithdrawInterruptOp? && l.interrupting {
      assert l.pending + l.withdrawable == l.withdrawable;
      if id :| id in l.withdrawable && !Finished(l.withdrawable[id], l.results) {
        assert id in next.pending;
      } else {
        assert next.pending == map[];
      }
    }
  }

  lemma RunExtends(initialId: CommandId, ops: seq<Op>, op: Op)
    requires Legal(initialId, ops) && LegalOp(Run(INITIAL, initialId, ops), Issued({}, ops), op)
    ensures Legal(initialId, ops + [op])
    ensures Run(INITIAL, initialId, ops + [op]) == Apply(Run(INITIAL, initialId, ops), initialId, op)
    ensures Issued({}, ops + [op])
            == Issued({}, ops) + if op.ReserveOp? then {op.newId} else {}
  {
    assert (ops + [op])[..|ops|] == ops;
  }

  /** A concrete run that ends closed with an input pending. */
  lemma ClosedWithPendingInput()
    ensures exists initialId, ops :: Legal(initialId, ops)
              && Run(INITIAL, initialId, ops).closed && Run(INITIAL, initialId, ops).pending != map[]
  {
    var i, a := CommandId("i"), CommandId("a");
    var support := [ObserveOp(Lifecycle(i, Started))];
    RunExtends(i, [], support[0]);
    assert [] + support == support;
    assert Discharge(map[], 0) == map[];
    var reserve := support + [ReserveOp(a)];
    RunExtends(i, support, ReserveOp(a));
    var interrupt := reserve + [BeginInterruptOp([a])];
    RunExtends(i, reserve, BeginInterruptOp([a]));
    var close := interrupt + [CloseIfSettledOp];
    RunExtends(i, interrupt, CloseIfSettledOp);
    var withdraw := close + [WithdrawInterruptOp];
    RunExtends(i, close, WithdrawInterruptOp);
    assert a in Run(INITIAL, i, withdraw).pending;
  }

  // ---------------------------------------------------------------- interrupt transparency

  function ObserveAll(l: Ledger, initialId: CommandId, ms: seq<Message>): Ledger {
    if ms == [] then l
    else Observe(ObserveAll(l, initialId, ms[..|ms| - 1]), initialId, ms[|ms| - 1]).0
  }

  /** The caller's reaction outside an interrupt: an input whose phase is refused is abandoned. */
  function ObserveOrAbandon(l: Ledger, initialId: CommandId, m: Message): Ledger {
    var (next, accepted) := Observe(l, initialId, m);
    if accepted || !m.Lifecycle? then next else Abandon(next, m.id)
  }

  function ObserveOrAbandonAll(l: Ledger, initialId: CommandId, ms: seq<Message>): Ledger {
    if ms == [] then l
    else ObserveOrAbandon(ObserveOrAbandonAll(l, initialId, ms[..|ms| - 1]), initialId, ms[|ms| - 1])
  }

  /** a is inside an interrupt, b is the same history without it. */
  ghost predicate Mirrors(a: Ledger, b: Ledger) {
    && a.interrupting && a.pending == map[]
    && a.results == b.results && a.supported == b.supported && a.closed == b.closed
    && b.pending == Discharge(a.withdrawable, a.results)
  }

  lemma MirrorAdvance(w: map<CommandId, Progress>, p: map<CommandId, Progress>, id: CommandId, phase: Phase, results: nat)
    requires p == Discharge(w, results)
    ensures Discharge(AdvanceWithdrawable(w, id, phase, results), results)
            == if id !in p then p
               else match Advance(p[id], phase, results)
                    case None => p - {id}
                    case Some(q) => Discharge(p[id := q], results)
  {
    var after := Discharge(AdvanceWithdrawable(w, id, phase, results), results);
    if id in w {
      if Finished(w[id], results) {
        assert id !in after;
        assert after == p;
      } else {
        assert p[id] == w[id];
      }
    }
  }

  lemma MirrorLifecycle(a: Ledger, b: Ledger, initialId: CommandId, id: CommandId, phase: Phase)
    requires Mirrors(a, b)
    ensures Mirrors(Observe(a, initialId, Lifecycle(id, phase)).0,
                    ObserveOrAbandon(b, initialId, Lifecycle(id, phase)))
  {
    MirrorAdvance(a.withdrawable, b.pending, id, phase, a.results);
    var (a', ok) := Observe(a, initialId, Lifecycle(id, phase));
    assert ok && a'.pending == map[];
    if id !in b.pending {
      assert Discharge(b.pending, b.results) == b.pending;
    }
  }

  lemma MirrorStep(a: Ledger, b: Ledger, initialId: CommandId, m: Message)
    requires Mirrors(a, b)
    ensures Mirrors(Observe(a, initialId, m).0, ObserveOrAbandon(b, initialId, m))
  {
    var a', b' := Observe(a, initialId, m).0, ObserveOrAbandon(b, initialId, m);
    match m
    case OtherMessage =>
      assert b'.pending == Discharge(a'.withdrawable, a'.results);
    case ResultMessage =>
      assert b'.pending == Discharge(a'.withdrawable, a'.results);
    case Lifecycle(id, phase) =>
      MirrorLifecycle(a, b, initialId, id, phase);
  }

  lemma {:induction false} MirrorRun(a: Ledger, b: Ledger, initialId: CommandId, ms: seq<Message>)
    requires Mirrors(a, b)
    ensures Mirrors(ObserveAll(a, initialId, ms), ObserveOrAbandonAll(b, initialId, ms))
  {
    if ms != [] {
      var before := ms[..|ms| - 1];
      MirrorRun(a, b, initialId, before);
      MirrorStep(ObserveAll(a, initialId, before), ObserveOrAbandonAll(b, initialId, before),
                 initialId, ms[|ms| - 1]);
    }
  }

  /** A withdrawn interrupt leaves no trace in what is awaited, counted or supported. */
  lemma WithdrawnInterruptIsTransparent(l: Ledger, issued: set<CommandId>, initialId: CommandId,
                                        order: seq<CommandId>, ms: seq<Message>)
    requires Inv(l, issued) && !l.interrupting
    ensures var a := WithdrawInterrupt(ObserveAll(BeginInterrupt(l, order), initialId, ms));
            var b := ObserveOrAbandonAll(l, initialId, ms);
            && a.pending == b.pending
            && a.results == b.results
            && a.supported == b.supported
            && a.closed == b.closed
            && !a.interrupting && a.withdrawable == map[]
  {
    var inside := BeginInterrupt(l, order);
    assert l.pending == Discharge(l.pending, l.results);
    MirrorRun(inside, l, initialId, ms);
    var a := ObserveAll(inside, initialId, ms);
    assert a.pending + a.withdrawable == a.withdrawable;
  }

  // ---------------------------------------------------------------- trace characterisation

  ghost predicate StartedAt(t: seq<Op>, id: CommandId, i: int) {
    0 <= i < |t| && t[i] == ObserveOp(Lifecycle(id, Started))
  }

  ghost predicate CompletedAt(t: seq<Op>, id: CommandId, i: int) {
    0 <= i < |t| && t[i] == ObserveOp(Lifecycle(id, Completed))
  }

  predicate ResultAt(t: seq<Op>, i: int) {
    0 <= i < |t| && t[i] == ObserveOp(ResultMessage)
  }

  function CountResults(t: seq<Op>): nat {
    if t == [] then 0
    else CountResults(t[..|t| - 1]) + if ResultAt(t, |t| - 1) then 1 else 0
  }

  ghost predicate HasStart(t: seq<Op>, id: CommandId) { exists i :: StartedAt(t, id, i) }

  ghost predicate HasCompleted(t: seq<Op>, id: CommandId) { exists i :: CompletedAt(t, id, i) }

  /** Some start was recorded while the result counter, beginning at base, could still grow. */
  ghost predicate HasCountedStart(t: seq<Op>, id: CommandId, base: nat) {
    exists i :: StartedAt(t, id, i) && base + CountResults(t[..i]) < 0xFFFF_FFFF_FFFF_FFFF
  }

  ghost predicate HasResultAfterCountedStart(t: seq<Op>, id: CommandId, base: nat) {
    exists i, j :: StartedAt(t, id, i) && ResultAt(t, j) && i < j
                   && base + CountResults(t[..i]) < 0xFFFF_FFFF_FFFF_FFFF
  }

  ghost predicate HasResultAfterStart(t: seq<Op>, id: CommandId) {
    exists i, j :: StartedAt(t, id, i) && ResultAt(t, j) && i < j
  }

  /** No interrupt, no abandonment, and the id is not reserved a second time. */
  ghost predicate Quiet(op: Op, id: CommandId) {
    op.ObserveOp? || op.CloseIfSettledOp? || (op.ReserveOp? && op.newId != id)
  }

  /**
   * What the ledger knows about one input, in terms of what its trace holds: the number of
   * results, a start, a completion, a start the counter could see, and a result after one.
   */
  predicate Knows(l: Ledger, id: CommandId, base: nat, count: nat,
                  started: bool, completed: bool, counted: bool, answered: bool)
  {
    && l.results == (if base + count <= MAX_RESULTS then base + count else MAX_RESULTS)
    && (id in l.pending <==> !(completed && answered))
    && (id in l.pending ==>
          var p := l.pending[id];
          && (p.completed <==> completed)
          && (p.startedAfter.Some? <==> started)
          && (p.startedAfter.Some? ==>
                p.startedAfter.value <= l.results && (p.startedAfter.value < MAX_RESULTS <==> counted))
          && (answered <==> p.startedAfter.Some? && p.startedAfter.value < l.results))
    && (answered ==> counted) && (counted ==> started)
  }

  ghost predicate Tracks(l: Ledger, t: seq<Op>, id: CommandId, base: nat) {
    Knows(l, id, base, CountResults(t), HasStart(t, id), HasCompleted(t, id),
          HasCountedStart(t, id, base), HasResultAfterCountedStart(t, id, base))
  }

  lemma KnowsResult(l: Ledger, initialId: CommandId, id: CommandId, base: nat, count: nat,
                    started: bool, completed: bool, counted: bool, answered: bool)
    requires Knows(l, id, base, count, started, completed, counted, answered)
    ensures Knows(Observe(l, initialId, ResultMessage).0, id, base, count + 1,
                  started, completed, counted, counted)
  {
  }

  lemma KnowsPhase(l: Ledger, initialId: CommandId, other: CommandId, phase: Phase,
                   id: CommandId, base: nat, count: nat,
                   started: bool, completed: bool, counted: bool, answered: bool)
    requires Knows(l, id, base, count, started, completed, counted, answered) && base <= MAX_RESULTS
    ensures Knows(Observe(l, initialId, Lifecycle(other, phase)).0, id, base, count,
                  started || (other == id && phase.Started?),
                  completed || (other == id && phase.Completed?),
                  counted || (other == id && phase.Started? && base + count < MAX_RESULTS),
                  answered)
  {
    var next := Observe(l, initialId, Lifecycle(other, phase)).0;
    if other != id {
      ForeignInputIsUntouched(l, initialId, other, phase, id);
    } else {
      OwnInputAdvances(l, initialId, id, phase);
    }
  }

  lemma KnowsStep(l: Ledger, initialId: CommandId, op: Op, id: CommandId, base: nat, count: nat,
                  started: bool, completed: bool, counted: bool, answered: bool)
    requires Knows(l, id, base, count, started, completed, counted, answered)
    requires Quiet(op, id) && base <= MAX_RESULTS
    ensures Knows(Apply(l, initialId, op), id, base,
                  if op == ObserveOp(ResultMessage) then count + 1 else count,
                  started || op == ObserveOp(Lifecycle(id, Started)),
                  completed || op == ObserveOp(Lifecycle(id, Completed)),
                  counted || (op == ObserveOp(Lifecycle(id, Started)) && base + count < MAX_RESULTS),
                  answered || (op == ObserveOp(ResultMessage) && counted))
  {
    if op.ObserveOp? && op.message.Lifecycle? {
      KnowsPhase(l, initialId, op.message.id, op.message.phase, id, base, count,
                 started, completed, counted, answered);
    } else if op == ObserveOp(ResultMessage) {
      KnowsResult(l, initialId, id, base, count, started, completed, counted, answered);
    }
  }

  lemma OwnInputAdvances(l: Ledger, initialId: CommandId, id: CommandId, phase: Phase)
    ensures var next := Observe(l, initialId, Lifecycle(id, phase)).0;
            && next.results == l.results
            && (id !in l.pending ==> id !in next.pending)
            && (id in l.pending ==>
                  match Advance(l.pending[id], phase, l.results)
                  case None => id in next.pending && next.pending[id] == l.pending[id]
                  case Some(p) =>
                    && (id in next.pending <==> !Finished(p, l.results))
                    && (id in next.pending ==> next.pending[id] == p))
  {
  }

  /** A phase reported for another input neither advances nor discharges this one. */
  lemma ForeignInputIsUntouched(l: Ledger, initialId: CommandId, other: CommandId, phase: Phase, id: CommandId)
    requires other != id
    requires id in l.pending ==> !Finished(l.pending[id], l.results)
    ensures var next := Observe(l, initialId, Lifecycle(other, phase)).0;
            && (id in next.pending <==> id in l.pending)
            && (id in l.pending ==> next.pending[id] == l.pending[id])
            && next.results == l.results
  {
  }

  lemma TraceExtends(t: seq<Op>, op: Op, id: CommandId, base: nat)
    ensures var t' := t + [op];
            && CountResults(t') == CountResults(t) + (if op == ObserveOp(ResultMessage) then 1 else 0)
            && (HasStart(t', id) <==> HasStart(t, id) || op == ObserveOp(Lifecycle(id, Started)))
            && (HasCompleted(t', id) <==> HasCompleted(t, id) || op == ObserveOp(Lifecycle(id, Completed)))
            && (HasCountedStart(t', id, base) <==>
                  || HasCountedStart(t, id, base)
                  || (op == ObserveOp(Lifecycle(id, Started)) && base + CountResults(t) < MAX_RESULTS))
            && (HasResultAfterCountedStart(t', id, base) <==>
                  || HasResultAfterCountedStart(t, id, base)
                  || (op == ObserveOp(ResultMessage) && HasCountedStart(t, id, base)))
  {
    var t' := t + [op];
    var n := |t|;
    assert t'[..n] == t;
    assert forall i :: 0 <= i <= n ==> t'[..i] == t[..i];
    assert forall i :: StartedAt(t, id, i) ==> StartedAt(t', id, i);
    assert forall i :: StartedAt(t', id, i) ==> StartedAt(t, id, i) || i == n;
    assert forall i :: CompletedAt(t, id, i) ==> CompletedAt(t', id, i);
    assert forall i :: CompletedAt(t', id, i) ==> CompletedAt(t, id, i) || i == n;
    assert forall i :: ResultAt(t, i) ==> ResultAt(t', i);
    assert forall i :: ResultAt(t', i) ==> ResultAt(t, i) || i == n;
    if op == ObserveOp(Lifecycle(id, Started)) { assert StartedAt(t', id, n); }
    if op == ObserveOp(Lifecycle(id, Completed)) { assert CompletedAt(t', id, n); }
    if op == ObserveOp(ResultMessage) { assert ResultAt(t', n); }
  }

  lemma TrackStep(l: Ledger, initialId: CommandId, t: seq<Op>, op: Op, id: CommandId, base: nat)
    requires Tracks(l, t, id, base) && Quiet(op, id) && base <= MAX_RESULTS
    ensures Tracks(Apply(l, initialId, op), t + [op], id, base)
  {
    TraceExtends(t, op, id, base);
    KnowsStep(l, initialId, op, id, base, CountResults(t), HasStart(t, id), HasCompleted(t, id),
              HasCountedStart(t, id, base), HasResultAfterCountedStart(t, id, base));
  }

  lemma {:induction false} TrackRun(l: Ledger, initialId: CommandId, t: seq<Op>, id: CommandId)
    requires id in l.pending && l.pending[id] == FRESH && l.results <= MAX_RESULTS
    requires forall i :: 0 <= i < |t| ==> Quiet(t[i], id)
    ensures Tracks(Run(l, initialId, t), t, id, l.results)
  {
    if t != [] {
      var before, op := t[..|t| - 1], t[|t| - 1];
      TrackRun(l, initialId, before, id);
      assert t == before + [op];
      TrackStep(Run(l, initialId, before), initialId, before, op, id, l.results);
    }
  }

  /**
   * A reserved input stops being awaited exactly when its trace holds a completion (anywhere)
   * and a result after a start that the counter could still see; nothing else discharges it.
   */
  lemma DischargedIff(l: Ledger, initialId: CommandId, t: seq<Op>, id: CommandId)
    requires id !in l.pending && l.results <= MAX_RESULTS && Reserve(l, id).Ok?
    requires forall i :: 0 <= i < |t| ==> Quiet(t[i], id)
    ensures id !in Run(Reserve(l, id).value, initialId, t).pending
            <==> HasCompleted(t, id) && HasResultAfterCountedStart(t, id, l.results)
  {
    TrackRun(Reserve(l, id).value, initialId, t, id);
  }

  lemma {:induction false} CountResultsGrows(t: seq<Op>, i: nat, j: nat)
    requires i <= j && ResultAt(t, j)
    ensures CountResults(t[..i]) < CountResults(t)
  {
    var before := t[..|t| - 1];
    if j < |before| {
      assert before[..i] == t[..i] && ResultAt(before, j);
      CountResultsGrows(before, i, j);
    } else {
      assert before[..i] == t[..i];
      CountResultsMonotone(before, i);
    }
  }

  lemma {:induction false} CountResultsMonotone(t: seq<Op>, i: nat)
    requires i <= |t|
    ensures CountResults(t[..i]) <= CountResults(t)
  {
    if i < |t| {
      var before := t[..|t| - 1];
      assert before[..i] == t[..i];
      CountResultsMonotone(before, i);
    } else {
      assert t[..i] == t;
    }
  }

  /** Below saturation of the counter the condition is simply: a result strictly after a start. */
  lemma DischargedIffBelowSaturation(l: Ledger, initialId: CommandId, t: seq<Op>, id: CommandId)
    requires id !in l.pending && Reserve(l, id).Ok?
    requires forall i :: 0 <= i < |t| ==> Quiet(t[i], id)
    requires l.results + CountResults(t) <= 0xFFFF_FFFF_FFFF_FFFF
    ensures id !in Run(Reserve(l, id).value, initialId, t).pending
            <==> HasCompleted(t, id) && HasResultAfterStart(t, id)
  {
    DischargedIff(l, initialId, t, id);
    if HasResultAfterStart(t, id) {
      var i, j :| StartedAt(t, id, i) && ResultAt(t, j) && i < j;
      CountResultsGrows(t, i, j);
      assert HasResultAfterCountedStart(t, id, l.results);
    }
  }

  // ---------------------------------------------------------------- the mutable ledger

  class InputLifecycle {
    const initialId: CommandId
    var supported: bool
    var closed: bool
    var results: nat
    var pending: map<CommandId, Progress>
    var interrupted: seq<CommandId>
    var interrupting: bool
    var withdrawable: map<CommandId, Progress>

    ghost function View(): Ledger
      reads this
    {
      Ledger(supported, closed, results, pending, interrupted, interrupting, withdrawable)
    }

    constructor (initialId: CommandId)
      ensures View() == INITIAL && this.initialId == initialId
      ensures !supported && !closed && results == 0 && !interrupting
      ensures pending == map[] && interrupted == [] && withdrawable == map[]
    {
      this.initialId := initialId;
      supported, closed, results := false, false, 0;
      pending, interrupted, interrupting, withdrawable := map[], [], false, map[];
    }

    method RememberInterrupted(id: CommandId)
      modifies this`interrupted
      ensures interrupted == Remember(old(interrupted), id)
    {
      if |interrupted| == MAX_REMEMBERED_ABANDONED {
        interrupted := interrupted[1..];
      }
      interrupted := interrupted + [id];
    }

    method DischargeFinished()
      modifies this`pending
      ensures pending == Discharge(old(pending), results)
    {
      pending := map id | id in pending && !Finished(pending[id], results) :: pending[id];
    }

    /** The id stands for the identifier that the source draws at random. */
    method TryReserve(id: CommandId) returns (r: Result<CommandId, Rejection>)
      modifies this`pending
      ensures match Reserve(old(View()), id)
              case Ok(next) => r == Ok(id) && View() == next
              case Err(e) => r == Err(e) && View() == old(View())
    {
      if interrupting && !closed {
        return Err(Stopping);
      }
      if !supported || closed || |pending| >= MAX_PENDING {
        return Err(NotSteerable);
      }
      pending := pending[id := FRESH];
      return Ok(id);
    }

    method DropAllPending() returns (ghost order: seq<CommandId>)
      modifies this`pending, this`interrupted
      ensures Enumerates(order, old(pending).Keys)
      ensures View() == AbandonAll(old(View()), order)
    {
      var abandoned := pending.Keys;
      pending := map[];
      order := RememberEach(abandoned);
    }

    /** Moves ids to the remembered queue in an arbitrary order, as draining a hash map does. */
    method RememberEach(ids: set<CommandId>) returns (ghost order: seq<CommandId>)
      modifies this`interrupted
      ensures Enumerates(order, ids)
      ensures interrupted == RememberAll(old(interrupted), order)
    {
      var left := ids;
      ghost var done: set<CommandId> := {};
      order := [];
      while left != {}
        invariant done !! left && done + left == ids
        invariant Enumerates(order, done)
        invariant interrupted == RememberAll(old(interrupted), order)
        decreases left
      {
        var id :| id in left;
        RememberInterrupted(id);
        EnumeratesMore(order, done, id);
        RememberMore(old(interrupted), order, id);
        order := order + [id];
        done := done + {id};
        left := left - {id};
      }
    }

    method OpenInterrupt() returns (ghost order: seq<CommandId>)
      modifies this
      ensures Enumerates(order, old(pending).Keys)
      ensures View() == BeginInterrupt(old(View()), order)
    {
      interrupting := true;
      withdrawable := map[];
      var abandoned := pending;
      pending := map[];
      order := RememberEach(abandoned.Keys);
      withdrawable := abandoned;
    }

    method RetractInterrupt()
      modifies this
      ensures View() == WithdrawInterrupt(old(View()))
    {
      if !interrupting {
        return;
      }
      interrupting := false;
      var restored := withdrawable;
      withdrawable := map[];
      RestoreEach(restored);
      DischargeFinished();
    }

    /** Moves the inputs back into pending and out of the remembered queue, in an arbitrary order. */
    method RestoreEach(restored: map<CommandId, Progress>)
      modifies this`pending, this`interrupted
      ensures pending == old(pending) + restored
      ensures interrupted == Without(old(interrupted), restored.Keys)
    {
      var left := restored.Keys;
      WithoutNothing(interrupted);
      assert restored.Keys - left == {};
      while left != {}
        invariant left <= restored.Keys
        invariant interrupted == Without(old(interrupted), restored.Keys - left)
        invariant pending == old(pending) + map id | id in restored && id !in left :: restored[id]
        decreases left
      {
        var id :| id in left;
        WithoutMore(old(interrupted), restored.Keys - left, id);
        interrupted := Without(interrupted, {id});
        pending := pending[id := restored[id]];
        assert restored.Keys - (left - {id}) == restored.Keys - left + {id};
        left := left - {id};
      }
      assert restored.Keys - {} == restored.Keys;
      assert pending == old(pending) + restored;
    }

    method DropPending(id: CommandId)
      modifies this`pending
      ensures View() == Abandon(old(View()), id)
    {
      pending := pending - {id};
    }

    method Receive(m: Message) returns (accepted: bool)
      modifies this
      ensures (View(), accepted) == Observe(old(View()), initialId, m)
    {
      if m.ResultMessage? && results < MAX_RESULTS {
        results := results + 1;
      }
      if m.Lifecycle? {
        var id, phase := m.id, m.phase;
        if id == initialId && (phase.Queued? || phase.Started?) {
          supported := true;
        }
        if id in pending {
          match Advance(pending[id], phase, results)
          case None => return false;
          case Some(p) => pending := pending[id := p];
        }
        if id in withdrawable {
          match Advance(withdrawable[id], phase, results)
          case None => withdrawable := withdrawable - {id};
          case Some(p) => withdrawable := withdrawable[id := p];
        }
      }
      DischargeFinished();
      return true;
    }

    method TryClose() returns (settled: bool)
      modifies this`closed
      ensures (View(), settled) == CloseIfSettled(old(View()))
    {
      if pending != map[] {
        return false;
      }
      closed := true;
      return true;
    }

    method Names(id: CommandId) returns (named: bool)
      ensures named == NamesCommand(View(), initialId, id)
    {
      named := id != CommandId("") && (id == initialId || id in pending || id in interrupted);
    }
  }

  lemma EnumeratesMore(order: seq<CommandId>, ids: set<CommandId>, id: CommandId)
    requires Enumerates(order, ids) && id !in ids
    ensures Enumerates(order + [id], ids + {id})
  {
  }

  lemma RememberMore(queue: seq<CommandId>, order: seq<CommandId>, id: CommandId)
    ensures RememberAll(queue, order + [id]) == Remember(RememberAll(queue, order), id)
  {
    assert (order + [id])[..|order|] == order;
  }

  lemma {:induction false} WithoutNothing(queue: seq<CommandId>)
    ensures Without(queue, {}) == queue
  {
    if queue != [] {
      WithoutNothing(queue[1..]);
    }
  }

  lemma {:induction false} WithoutMore(queue: seq<CommandId>, ids: set<CommandId>, id: CommandId)
    ensures Without(Without(queue, ids), {id}) == Without(queue, ids + {id})
  {
    if queue != [] {
      WithoutMore(queue[1..], ids, id);
      var rest := Without(queue[1..], ids);
      if queue[0] !in ids {
        assert ([queue[0]] + rest)[1..] == rest;
      } else {
        assert [] + rest == rest;
      }
    }
  }
}
