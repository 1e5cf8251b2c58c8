/**
 * Observers of a task's interactions, and the numbers its snapshots carry.  An observer that is
 * released while an answer is being settled stays until the last settlement is over.
 */
module Interactions {
  import opened Wrappers

  type Observer = nat

  datatype Subscription = Subscription(observer: Option<Observer>, settling: nat, released: bool)

  const FRESH := Subscription(None, 0, false)

  /** The subscription once a released observer has been taken, if nothing is being settled. */
  function Taken(s: Subscription): Subscription {
    if !s.released || s.settling > 0 then s else s.(observer := None)
  }

  datatype Op = Observe(observer: Observer) | Release | Settling | Settled

  /** Settled is the drop of a settlement guard. */
  function Apply(s: Subscription, op: Op): Subscription {
    match op
    case Observe(o) => s.(released := false, observer := Some(o))
    case Release => Taken(s.(released := true))
    case Settling => s.(settling := s.settling + 1)
    case Settled => Taken(s.(settling := if s.settling > 0 then s.settling - 1 else 0))
  }

  function Run(ops: seq<Op>): Subscription {
    if ops == [] then FRESH else Apply(Run(ops[..|ops| - 1]), ops[|ops| - 1])
  }

  // ---------------------------------------------------------------- how long an observer stays

  /** Settlements under way: a guard that is dropped was taken before. */
  function Guards(ops: seq<Op>): int {
    if ops == [] then 0
    else Guards(ops[..|ops| - 1]) + (match ops[|ops| - 1] case Settling => 1 case Settled => -1 case _ => 0)
  }

  /** No guard is dropped twice. */
  ghost predicate Balanced(ops: seq<Op>) {
    forall n :: 0 <= n <= |ops| ==> Guards(ops[..n]) >= 0
  }

  /** The observer has been released since it was installed as operation i, and nothing is being settled. */
  ghost predicate QuietAfter(ops: seq<Op>, i: nat) {
    (exists k :: i < k < |ops| && ops[k].Release?) && Guards(ops) == 0
  }

  ghost predicate LastObserve(ops: seq<Op>, i: nat, o: Observer) {
    i < |ops| && ops[i] == Observe(o) && forall k :: i < k < |ops| ==> !ops[k].Observe?
  }

  lemma BalancedPrefix(ops: seq<Op>)
    requires Balanced(ops) && ops != []
    ensures Balanced(ops[..|ops| - 1]) && Guards(ops) >= 0
  {
    var before := ops[..|ops| - 1];
    forall n | 0 <= n <= |before| ensures Guards(before[..n]) >= 0 {
      assert before[..n] == ops[..n];
    }
    assert ops[..|ops|] == ops;
  }

  lemma {:induction false} SettlingCountsGuards(ops: seq<Op>)
    requires Balanced(ops)
    ensures Run(ops).settling == Guards(ops)
  {
    if ops != [] {
      BalancedPrefix(ops);
      SettlingCountsGuards(ops[..|ops| - 1]);
    }
  }

  lemma {:induction false} ReleasedSince(ops: seq<Op>, i: nat, o: Observer)
    requires LastObserve(ops, i, o)
    ensures Run(ops).released <==> exists k :: i < k < |ops| && ops[k].Release?
  {
    var last := |ops| - 1;
    if i < last {
      var before := ops[..last];
      assert LastObserve(before, i, o);
      ReleasedSince(before, i, o);
      assert forall k :: i < k < last ==> before[k] == ops[k];
    }
  }

  /** At some point after its installation the observer was released with nothing being settled. */
  ghost predicate EverQuiet(ops: seq<Op>, i: nat) {
    exists n :: i < n <= |ops| && QuietAfter(ops[..n], i)
  }

  /**
   * An installed observer stays exactly until the first moment at which it has been released and
   * no settlement is under way, whatever the order of releases and settlements.
   */
  lemma {:induction false} ObserverStaysUntilQuiet(ops: seq<Op>, i: nat, o: Observer)
    requires Balanced(ops) && LastObserve(ops, i, o)
    ensures Run(ops).observer == if EverQuiet(ops, i) then None else Some(o)
  {
    var last := |ops| - 1;
    var before := ops[..last];
    SettlingCountsGuards(ops);
    ReleasedSince(ops, i, o);
    assert ops[..|ops|] == ops;
    if i < last {
      assert LastObserve(before, i, o);
      BalancedPrefix(ops);
      ObserverStaysUntilQuiet(before, i, o);
      QuietGrows(ops, i);
      StepOfObserver(ops, i, o);
    } else {
      NotQuietAtOnce(ops, i);
    }
  }

  lemma NotQuietAtOnce(ops: seq<Op>, i: nat)
    requires i + 1 == |ops|
    ensures !EverQuiet(ops, i)
  {
  }

  lemma QuietGrows(ops: seq<Op>, i: nat)
    requires i + 1 < |ops|
    ensures EverQuiet(ops, i) <==> EverQuiet(ops[..|ops| - 1], i) || QuietAfter(ops, i)
  {
    var before := ops[..|ops| - 1];
    assert forall n :: 0 <= n <= |before| ==> before[..n] == ops[..n];
    assert ops[..|ops|] == ops;
    if n :| i < n <= |ops| && QuietAfter(ops[..n], i) {
      if n < |ops| { assert QuietAfter(before[..n], i); }
    }
    if n :| i < n <= |before| && QuietAfter(before[..n], i) {
      assert QuietAfter(ops[..n], i);
    }
  }

  /** One operation that installs nothing takes the observer exactly when it leaves the subscription quiet. */
  lemma StepOfObserver(ops: seq<Op>, i: nat, o: Observer)
    requires Balanced(ops) && LastObserve(ops, i, o) && i + 1 < |ops|
    ensures Run(ops).observer == if QuietAfter(ops, i) then None else Run(ops[..|ops| - 1]).observer
  {
    var before := ops[..|ops| - 1];
    SettlingCountsGuards(ops);
    ReleasedSince(ops, i, o);
    BalancedPrefix(ops);
    SettlingCountsGuards(before);
  }

  class AgentInteractionChanges {
    var observer: Option<Observer>
    var settling: nat
    var released: bool

    ghost function View(): Subscription
      reads this
    {
      Subscription(observer, settling, released)
    }

    constructor ()
      ensures View() == FRESH && observer.None? && settling == 0 && !released
    {
      observer, settling, released := None, 0, false;
    }

    method Install(o: Observer)
      modifies this
      ensures View() == Apply(old(View()), Observe(o))
    {
      released := false;
      observer := Some(o);
    }

    method TakeReleased()
      modifies this
      ensures View() == Taken(old(View()))
    {
      if !released || settling > 0 {
        return;
      }
      observer := None;
    }

    method LetGo()
      modifies this
      ensures View() == Apply(old(View()), Release)
    {
      released := true;
      TakeReleased();
    }

    method BeginSettling()
      modifies this
      ensures View() == Apply(old(View()), Settling)
    {
      settling := settling + 1;
    }

    method DropSettlement()
      modifies this
      ensures View() == Apply(old(View()), Settled)
      ensures old(settling) > 0 ==> settling == old(settling) - 1
      ensures old(settling) == 0 ==> settling == 0
    {
      if settling > 0 {
        settling := settling - 1;
      }
      TakeReleased();
    }
  }

  // ---------------------------------------------------------------- sequence numbers

  /** The shared counter, and for each task's sequence its last number and whether it shares. */
  datatype Sequences = Sequences(shared: nat, last: map<nat, nat>, sharing: set<nat>)

  datatype Number = Number(task: nat, value: nat, shared: bool)

  datatype Step = Share(task: nat) | Advance(task: nat)

  function LastOf(s: Sequences, task: nat): nat {
    if task in s.last then s.last[task] else 0
  }

  /** Sharing raises the shared counter to what the sequence has already issued. */
  function ShareOne(s: Sequences, task: nat): Sequences {
    s.(shared := if LastOf(s, task) > s.shared then LastOf(s, task) else s.shared, sharing := s.sharing + {task})
  }

  function AdvanceOne(s: Sequences, task: nat): (Sequences, Number) {
    if task in s.sharing then
      var value := s.shared + 1;
      (s.(shared := value, last := s.last[task := value]), Number(task, value, true))
    else
      var value := LastOf(s, task) + 1;
      (s.(last := s.last[task := value]), Number(task, value, false))
  }

  datatype Issued = Issued(sequences: Sequences, numbers: seq<Number>)

  function Issue(steps: seq<Step>): Issued {
    if steps == [] then Issued(Sequences(0, map[], {}), [])
    else
      var before := Issue(steps[..|steps| - 1]);
      match steps[|steps| - 1]
      case Share(task) => before.(sequences := ShareOne(before.sequences, task))
      case Advance(task) =>
        var (next, number) := AdvanceOne(before.sequences, task);
        Issued(next, before.numbers + [number])
  }

  ghost predicate NumbersOk(r: Issued) {
    && (forall task :: task in r.sequences.sharing ==> LastOf(r.sequences, task) <= r.sequences.shared)
    && (forall i :: 0 <= i < |r.numbers| ==> r.numbers[i].value <= LastOf(r.sequences, r.numbers[i].task))
    && (forall i :: 0 <= i < |r.numbers| && r.numbers[i].shared ==> r.numbers[i].value <= r.sequences.shared)
  }

  ghost predicate Increasing(numbers: seq<Number>) {
    forall i, j :: 0 <= i < j < |numbers| ==>
                     (numbers[i].task == numbers[j].task || (numbers[i].shared && numbers[j].shared) ==>
                        numbers[i].value < numbers[j].value)
  }

  /**
   * The numbers of one task strictly increase, also across the moment it starts to share; and the
   * numbers issued by all sharing tasks together strictly increase, so no two are the same.
   */
  lemma {:induction false} NumbersIncrease(steps: seq<Step>)
    ensures NumbersOk(Issue(steps)) && Increasing(Issue(steps).numbers)
  {
    if steps != [] {
      NumbersIncrease(steps[..|steps| - 1]);
    }
  }
}
