/**
 * The hand-off between login sessions.  Any number of threads begin sessions; each new session
 * takes the one slot and reaps the session it replaced before its own body may start.  Sessions
 * are numbered in the order in which they are installed.
 */
module LoginRegistry {
  import opened Wrappers

  /** Where a thread stands.  Between two program points lies one atomic access to shared state. */
  datatype Pc =
    // begin
    | Entered
    | Admitted
    | Reaping(own: nat, previous: Option<nat>)
    | Waiting(own: nat, predecessor: nat)
    | Reaped(own: nat)
    | Uncancelled(own: nat)
    | Aborting(own: nat)
    | Discarding(own: nat)
    | Refused
    // the worker that begin spawned
    | Spawned(own: nat)
    | Running(own: nat)
    | Returned(own: nat)
    | Finished
    // shutdown
    | ShutEntered
    | ShutClosed
    | ShutReaping(taken: Option<nat>)
    | ShutWaiting(target: nat)
    | ShutDone
    // cancel, and the discard of a session whose owner is gone
    | CancelEntered(target: nat)
    | CancelReaping(target: nat)
    | CancelWaiting(target: nat)
    | CancelDone

  /**
   * The slot and the sessions.  `orphans` are the sessions taken out of the slot without being
   * replaced, `byCancel` those taken out by a cancel.  `firstShutdown` is the first thread whose
   * shutdown emptied the slot, and `cut` the number of sessions installed before it did.
   */
  datatype Sessions = Sessions(
    slot: Option<nat>,
    installed: nat,
    settled: set<nat>,
    orphans: set<nat>,
    byCancel: set<nat>,
    firstShutdown: Option<nat>,
    cut: nat)

  datatype System = System(ss: Sessions, cancelled: set<nat>, closed: bool, threads: map<nat, Pc>)

  const START := System(Sessions(None, 0, {}, {}, {}, None, 0), {}, false, map[])

  datatype Action =
    | Begin(thread: nat)
    | Shutdown(thread: nat)
    | Cancel(thread: nat, target: nat)
    | Advance(thread: nat, spawned: bool)

  // ---------------------------------------------------------------- accesses to the slot

  /** Puts next into the slot and hands out what was there. */
  function Replace(slot: Option<nat>, next: Option<nat>): (Option<nat>, Option<nat>) {
    (next, slot)
  }

  /** Empties the slot when it holds the target. */
  function TakeIf(slot: Option<nat>, target: nat): (Option<nat>, bool) {
    if slot == Some(target) then (None, true) else (slot, false)
  }

  function OrphanOf(taken: Option<nat>): set<nat> {
    match taken
    case None => {}
    case Some(p) => {p}
  }

  // ---------------------------------------------------------------- one step

  function Goto(s: System, t: nat, pc: Pc): System {
    s.(threads := s.threads[t := pc])
  }

  function Enter(s: System, t: nat, pc: Pc): System {
    if t in s.threads then s else Goto(s, t, pc)
  }

  function Install(s: System, t: nat): System {
    var own := s.ss.installed;
    var (slot, previous) := Replace(s.ss.slot, Some(own));
    Goto(s.(ss := s.ss.(installed := own + 1, slot := slot)), t, Reaping(own, previous))
  }

  function Settle(s: System, t: nat, own: nat, pc: Pc): System {
    Goto(s.(ss := s.ss.(settled := s.ss.settled + {own})), t, pc)
  }

  function Discard(s: System, t: nat, own: nat): System {
    var (slot, taken) := TakeIf(s.ss.slot, own);
    Goto(s.(ss := s.ss.(slot := slot), cancelled := if taken then s.cancelled + {own} else s.cancelled),
         t, Refused)
  }

  function StepBegin(s: System, t: nat, pc: Pc, spawned: bool): System {
    match pc
    case Entered => Goto(s, t, if s.closed then Refused else Admitted)
    case Admitted => Install(s, t)
    case Reaping(own, previous) =>
      (match previous
       case None => Goto(s, t, Reaped(own))
       case Some(p) => Goto(s.(cancelled := s.cancelled + {p}), t, Waiting(own, p)))
    case Waiting(own, p) => if p in s.ss.settled then Goto(s, t, Reaped(own)) else s
    case Reaped(own) => Goto(s, t, if own in s.cancelled then Aborting(own) else Uncancelled(own))
    case Uncancelled(own) =>
      Goto(s, t, if s.closed || !spawned then Aborting(own) else Spawned(own))
    case Aborting(own) => Settle(s, t, own, Discarding(own))
    case Discarding(own) => Discard(s, t, own)
    case Spawned(own) => Goto(s, t, Running(own))
    case Running(own) => Goto(s, t, Returned(own))
    case Returned(own) => Settle(s, t, own, Finished)
    case _ => s
  }

  /** Shutdown by thread t empties the slot. */
  function Vacated(ss: Sessions, t: nat): Sessions {
    var (slot, taken) := Replace(ss.slot, None);
    var first := ss.firstShutdown.None?;
    ss.(slot := slot, orphans := ss.orphans + OrphanOf(taken),
        firstShutdown := if first then Some(t) else ss.firstShutdown,
        cut := if first then ss.installed else ss.cut)
  }

  function Vacate(s: System, t: nat): System {
    Goto(s.(ss := Vacated(s.ss, t)), t, ShutReaping(s.ss.slot))
  }

  function StepShutdown(s: System, t: nat, pc: Pc): System {
    match pc
    case ShutEntered => Goto(s.(closed := true), t, ShutClosed)
    case ShutClosed => Vacate(s, t)
    case ShutReaping(taken) =>
      (match taken
       case None => Goto(s, t, ShutDone)
       case Some(p) => Goto(s.(cancelled := s.cancelled + {p}), t, ShutWaiting(p)))
    case ShutWaiting(p) => if p in s.ss.settled then Goto(s, t, ShutDone) else s
    case _ => s
  }

  /** A cancel takes the target out of the slot. */
  function Withdrawn(ss: Sessions, target: nat): Sessions {
    ss.(slot := None, orphans := ss.orphans + {target}, byCancel := ss.byCancel + {target})
  }

  function Take(s: System, t: nat, target: nat): System {
    if TakeIf(s.ss.slot, target).1 then Goto(s.(ss := Withdrawn(s.ss, target)), t, CancelReaping(target))
    else Goto(s, t, CancelDone)
  }

  function StepCancel(s: System, t: nat, pc: Pc): System {
    match pc
    case CancelEntered(target) => Take(s, t, target)
    case CancelReaping(p) => Goto(s.(cancelled := s.cancelled + {p}), t, CancelWaiting(p))
    case CancelWaiting(p) => if p in s.ss.settled then Goto(s, t, CancelDone) else s
    case _ => s
  }

  predicate IsShutdown(pc: Pc) {
    pc.ShutEntered? || pc.ShutClosed? || pc.ShutReaping? || pc.ShutWaiting? || pc.ShutDone?
  }

  predicate IsCancel(pc: Pc) {
    pc.CancelEntered? || pc.CancelReaping? || pc.CancelWaiting? || pc.CancelDone?
  }

  function Step(s: System, a: Action): System {
    match a
    case Begin(t) => Enter(s, t, Entered)
    case Shutdown(t) => Enter(s, t, ShutEntered)
    case Cancel(t, target) => Enter(s, t, CancelEntered(target))
    case Advance(t, spawned) =>
      if t !in s.threads then s
      else
        var pc := s.threads[t];
        if IsShutdown(pc) then StepShutdown(s, t, pc)
        else if IsCancel(pc) then StepCancel(s, t, pc)
        else StepBegin(s, t, pc, spawned)
  }

  function Run(actions: seq<Action>): System {
    if actions == [] then START
    else Step(Run(actions[..|actions| - 1]), actions[|actions| - 1])
  }

  // ---------------------------------------------------------------- invariants

  /** The thread still owes its own session a settlement. */
  predicate Owes(pc: Pc) {
    || pc.Reaping? || pc.Waiting? || pc.Reaped? || pc.Uncancelled? || pc.Aborting?
    || pc.Spawned? || pc.Running? || pc.Returned?
  }

  /** The thread has passed the check of the closed flag after reaping: its body may run. */
  predicate Cleared(pc: Pc) { pc.Spawned? || pc.Running? || pc.Returned? }

  /** Session j is at or below an unsettled orphan below k. */
  ghost predicate Covered(orphans: set<nat>, settled: set<nat>, j: nat, k: nat) {
    exists o :: o in orphans && j <= o < k && o !in settled
  }

  /** Every session installed before k has settled, but for those an unsettled orphan covers. */
  ghost predicate Clear(orphans: set<nat>, settled: set<nat>, k: nat) {
    forall j: nat {:trigger Covered(orphans, settled, j, k)} ::
      j < k && j !in settled ==> Covered(orphans, settled, j, k)
  }

  ghost predicate ThreadOk(ss: Sessions, pc: Pc) {
    && (Owes(pc) ==> pc.own < ss.installed && pc.own !in ss.settled)
    && (pc.Reaping? ==> match pc.previous
                        case None => Clear(ss.orphans, ss.settled, pc.own)
                        case Some(p) => p + 1 == pc.own)
    && (pc.Waiting? ==> pc.predecessor + 1 == pc.own)
    && (pc.Reaped? || pc.Uncancelled? || pc.Aborting? || Cleared(pc) ==> Clear(ss.orphans, ss.settled, pc.own))
    && (pc.Discarding? ==> pc.own in ss.settled)
    && (Cleared(pc) ==>
          && (forall o :: o in ss.orphans && o < pc.own ==> o in ss.byCancel)
          && (ss.firstShutdown.Some? ==> pc.own < ss.cut))
  }

  ghost predicate ThreadsOk(ss: Sessions, threads: map<nat, Pc>) {
    && (forall t :: t in threads ==> ThreadOk(ss, threads[t]))
    && (forall t, u :: t in threads && u in threads && t != u && Owes(threads[t]) && Owes(threads[u])
                       ==> threads[t].own != threads[u].own)
  }

  ghost predicate SlotOk(ss: Sessions) {
    && (ss.slot.Some? ==> ss.slot.value + 1 == ss.installed)
    && (ss.slot.None? ==> Clear(ss.orphans, ss.settled, ss.installed))
    && (forall p :: p in ss.settled ==> p < ss.installed && Clear(ss.orphans, ss.settled, p))
    && (forall o :: o in ss.orphans ==> o < ss.installed)
    && ss.byCancel <= ss.orphans
    && (ss.firstShutdown.None? ==> ss.orphans == ss.byCancel)
    && (ss.firstShutdown.Some? ==>
          && ss.cut <= ss.installed
          && (ss.slot.Some? ==> ss.slot.value >= ss.cut)
          && (forall o :: o in ss.orphans && o + 1 < ss.cut ==> o in ss.byCancel))
  }

  /** The last session below the cut was orphaned by the first shutdown. */
  predicate TookLast(ss: Sessions) {
    ss.cut > 0 && ss.cut - 1 in ss.orphans && ss.cut - 1 !in ss.byCancel
  }

  /** What holds while the first shutdown is at pc. */
  ghost predicate FirstOk(ss: Sessions, pc: Pc) {
    match pc
    case ShutReaping(None) => Clear(ss.orphans, ss.settled, ss.cut) && !TookLast(ss)
    case ShutReaping(Some(p)) => p + 1 == ss.cut
    case ShutWaiting(p) => p + 1 == ss.cut
    case ShutDone => Clear(ss.orphans, ss.settled, ss.cut) && (TookLast(ss) ==> ss.cut - 1 in ss.settled)
    case _ => false
  }

  ghost predicate Inv(s: System) {
    && SlotOk(s.ss)
    && ThreadsOk(s.ss, s.threads)
    && (forall t :: t in s.threads && s.threads[t].ShutClosed? ==> s.closed)
    && (s.ss.firstShutdown.Some? ==>
          && s.closed
          && s.ss.firstShutdown.value in s.threads
          && FirstOk(s.ss, s.threads[s.ss.firstShutdown.value]))
  }

  // ---------------------------------------------------------------- clearance is kept

  /** Settling a session that is clear itself keeps everything else clear. */
  lemma SettlingKeepsClear(orphans: set<nat>, settled: set<nat>, own: nat, k: nat)
    requires Clear(orphans, settled, own) && Clear(orphans, settled, k)
    ensures Clear(orphans, settled + {own}, k)
  {
    forall j: nat | j < k && j !in settled + {own}
      ensures Covered(orphans, settled + {own}, j, k)
    {
      SettlingKeepsCovered(orphans, settled, own, j, k);
    }
  }

  lemma SettlingKeepsCovered(orphans: set<nat>, settled: set<nat>, own: nat, j: nat, k: nat)
    requires Clear(orphans, settled, own) && Covered(orphans, settled, j, k)
    requires j !in settled && j != own
    ensures Covered(orphans, settled + {own}, j, k)
  {
    var o :| o in orphans && j <= o < k && o !in settled;
    if o == own {
      assert Covered(orphans, settled, j, own);
      var lower :| lower in orphans && j <= lower < own && lower !in settled;
      assert lower !in settled + {own};
    } else {
      assert o !in settled + {own};
    }
  }

  /** More orphans never uncover anything. */
  lemma OrphansKeepClear(orphans: set<nat>, more: set<nat>, settled: set<nat>, k: nat)
    requires Clear(orphans, settled, k) && orphans <= more
    ensures Clear(more, settled, k)
  {
    forall j: nat | j < k && j !in settled
      ensures Covered(more, settled, j, k)
    {
      assert Covered(orphans, settled, j, k);
    }
  }

  /** Directly above a session that is orphaned, or settled, everything is clear. */
  lemma ClearAbove(orphans: set<nat>, settled: set<nat>, p: nat)
    requires if p in settled then Clear(orphans, settled, p) else p in orphans
    ensures Clear(orphans, settled, p + 1)
  {
    forall j: nat | j < p + 1 && j !in settled
      ensures Covered(orphans, settled, j, p + 1)
    {
      if p in settled {
        assert Covered(orphans, settled, j, p);
      }
    }
  }

  // ---------------------------------------------------------------- each access keeps the invariant

  /** One thread moves to pc while every other thread keeps what it relies on. */
  lemma MoveKeepsThreads(ss: Sessions, threads: map<nat, Pc>, t: nat, pc: Pc, after: Sessions)
    requires ThreadsOk(ss, threads) && ThreadOk(after, pc)
    requires forall u :: u in threads && u != t ==> ThreadOk(after, threads[u])
    requires Owes(pc) ==> forall u :: u in threads && u != t && Owes(threads[u]) ==> threads[u].own != pc.own
    ensures ThreadsOk(after, threads[t := pc])
  {
  }

  /** A thread moves on; of the shared state at most the closed flag is set or a session cancelled. */
  lemma GotoKeepsInv(s: System, t: nat, pc: Pc, next: System)
    requires Inv(s)
    requires next.ss == s.ss && next.threads == s.threads[t := pc]
    requires s.closed ==> next.closed
    requires pc.ShutClosed? ==> next.closed
    requires ThreadOk(s.ss, pc)
    requires Owes(pc) ==> t in s.threads && Owes(s.threads[t]) && s.threads[t].own == pc.own
    requires s.ss.firstShutdown == Some(t) ==> FirstOk(s.ss, pc)
    ensures Inv(next)
  {
    MoveKeepsThreads(s.ss, s.threads, t, pc, s.ss);
  }

  lemma InstallKeepsInv(s: System, t: nat, next: System)
    requires Inv(s) && t in s.threads && s.threads[t].Admitted? && next == Install(s, t)
    ensures Inv(next)
  {
    forall u | u in s.threads && u != t ensures ThreadOk(next.ss, s.threads[u]) {
      assert ThreadOk(s.ss, s.threads[u]);
    }
    MoveKeepsThreads(s.ss, s.threads, t, next.threads[t], next.ss);
  }

  lemma SettlingKeepsThread(ss: Sessions, own: nat, after: Sessions, pc: Pc)
    requires ThreadOk(ss, pc) && Clear(ss.orphans, ss.settled, own)
    requires Owes(pc) ==> pc.own != own
    requires after == ss.(settled := ss.settled + {own})
    ensures ThreadOk(after, pc)
  {
    if Owes(pc) && Clear(ss.orphans, ss.settled, pc.own) {
      SettlingKeepsClear(ss.orphans, ss.settled, own, pc.own);
    }
  }

  lemma SettlingKeepsSlot(ss: Sessions, own: nat, after: Sessions)
    requires SlotOk(ss) && Clear(ss.orphans, ss.settled, own) && own < ss.installed
    requires after == ss.(settled := ss.settled + {own})
    ensures SlotOk(after)
  {
    if ss.slot.None? { SettlingKeepsClear(ss.orphans, ss.settled, own, ss.installed); }
    forall p | p in after.settled ensures Clear(after.orphans, after.settled, p) {
      SettlingKeepsClear(ss.orphans, ss.settled, own, p);
    }
  }

  lemma SettlingKeepsFirst(ss: Sessions, own: nat, after: Sessions, pc: Pc)
    requires FirstOk(ss, pc) && Clear(ss.orphans, ss.settled, own)
    requires after == ss.(settled := ss.settled + {own})
    ensures FirstOk(after, pc)
  {
    if Clear(ss.orphans, ss.settled, ss.cut) {
      SettlingKeepsClear(ss.orphans, ss.settled, own, ss.cut);
    }
  }

  lemma SettleKeepsInv(s: System, t: nat, own: nat, pc: Pc, next: System)
    requires Inv(s) && t in s.threads
    requires (s.threads[t] == Aborting(own) && pc == Discarding(own)) || (s.threads[t] == Returned(own) && pc == Finished)
    requires next == Settle(s, t, own, pc)
    ensures Inv(next)
  {
    assert ThreadOk(s.ss, s.threads[t]);
    SettlingKeepsSlot(s.ss, own, next.ss);
    forall u | u in s.threads && u != t ensures ThreadOk(next.ss, s.threads[u]) {
      SettlingKeepsThread(s.ss, own, next.ss, s.threads[u]);
    }
    MoveKeepsThreads(s.ss, s.threads, t, pc, next.ss);
    if s.ss.firstShutdown.Some? {
      SettlingKeepsFirst(s.ss, own, next.ss, s.threads[s.ss.firstShutdown.value]);
    }
  }

  /** Taking a settled session out of the slot leaves everything clear. */
  lemma DiscardKeepsSlot(ss: Sessions, own: nat, after: Sessions)
    requires SlotOk(ss) && own in ss.settled && after == ss.(slot := TakeIf(ss.slot, own).0)
    ensures SlotOk(after)
  {
    if ss.slot == Some(own) {
      ClearAbove(ss.orphans, ss.settled, own);
    }
  }

  lemma DiscardKeepsInv(s: System, t: nat, own: nat, next: System)
    requires Inv(s) && t in s.threads && s.threads[t] == Discarding(own) && next == Discard(s, t, own)
    ensures Inv(next)
  {
    assert ThreadOk(s.ss, s.threads[t]);
    DiscardKeepsSlot(s.ss, own, next.ss);
    forall u | u in s.threads && u != t ensures ThreadOk(next.ss, s.threads[u]) {
      assert ThreadOk(s.ss, s.threads[u]);
    }
    MoveKeepsThreads(s.ss, s.threads, t, Refused, next.ss);
  }

  /** `after` differs from ss in that the slot was emptied and what it held became an orphan. */
  ghost predicate Orphaned(ss: Sessions, p: nat, after: Sessions) {
    && ss.slot == Some(p)
    && after.slot.None?
    && after.installed == ss.installed && after.settled == ss.settled
    && after.orphans == ss.orphans + {p}
    && ss.byCancel <= after.byCancel
    && (ss.firstShutdown.Some? ==> after.firstShutdown == ss.firstShutdown && after.cut == ss.cut)
    && (ss.firstShutdown.None? && after.firstShutdown.Some? ==> after.cut == ss.installed)
  }

  lemma OrphaningKeepsThread(ss: Sessions, p: nat, after: Sessions, pc: Pc)
    requires SlotOk(ss) && ThreadOk(ss, pc) && Orphaned(ss, p, after)
    ensures ThreadOk(after, pc)
  {
    if Owes(pc) && Clear(ss.orphans, ss.settled, pc.own) {
      OrphansKeepClear(ss.orphans, after.orphans, ss.settled, pc.own);
    }
  }

  lemma OrphaningClears(ss: Sessions, p: nat, after: Sessions)
    requires SlotOk(ss) && Orphaned(ss, p, after)
    ensures Clear(after.orphans, after.settled, after.installed)
    ensures forall q :: q in after.settled ==> Clear(after.orphans, after.settled, q)
  {
    forall q | q in after.settled ensures Clear(after.orphans, after.settled, q) {
      OrphansKeepClear(ss.orphans, after.orphans, ss.settled, q);
    }
    ClearAbove(after.orphans, after.settled, p);
  }

  lemma VacatedSlotOk(ss: Sessions, t: nat, p: nat, after: Sessions)
    requires SlotOk(ss) && ss.slot == Some(p) && after == Vacated(ss, t)
    ensures Orphaned(ss, p, after) && SlotOk(after)
  {
    OrphaningClears(ss, p, after);
  }

  lemma VacatedEmptySlotOk(ss: Sessions, t: nat, after: Sessions)
    requires SlotOk(ss) && ss.slot.None? && after == Vacated(ss, t)
    ensures after.orphans == ss.orphans && SlotOk(after)
  {
    assert after.orphans == ss.orphans;
  }

  lemma WithdrawnSlotOk(ss: Sessions, p: nat, after: Sessions)
    requires SlotOk(ss) && ss.slot == Some(p) && after == Withdrawn(ss, p)
    ensures Orphaned(ss, p, after) && SlotOk(after)
  {
    OrphaningClears(ss, p, after);
  }

  lemma OrphaningKeepsThreads(s: System, t: nat, p: nat, after: Sessions, pc: Pc)
    requires SlotOk(s.ss) && ThreadsOk(s.ss, s.threads) && Orphaned(s.ss, p, after)
    requires pc.ShutReaping? || pc.CancelReaping?
    ensures ThreadsOk(after, s.threads[t := pc])
  {
    forall u | u in s.threads && u != t ensures ThreadOk(after, s.threads[u]) {
      OrphaningKeepsThread(s.ss, p, after, s.threads[u]);
    }
    MoveKeepsThreads(s.ss, s.threads, t, pc, after);
  }

  /** Orphaning another session leaves the first shutdown where it stands. */
  lemma OrphaningKeepsFirst(ss: Sessions, p: nat, after: Sessions, pc: Pc)
    requires SlotOk(ss) && ss.firstShutdown.Some? && FirstOk(ss, pc)
    requires after == Withdrawn(ss, p) || (exists t :: after == Vacated(ss, t))
    requires Orphaned(ss, p, after)
    ensures FirstOk(after, pc)
  {
    if Clear(ss.orphans, ss.settled, ss.cut) {
      OrphansKeepClear(ss.orphans, after.orphans, ss.settled, ss.cut);
    }
    assert p >= ss.cut;
    assert TookLast(after) ==> TookLast(ss);
  }

  lemma VacateFullKeepsInv(s: System, t: nat, p: nat, next: System)
    requires Inv(s) && t in s.threads && s.threads[t].ShutClosed? && s.ss.slot == Some(p)
    requires next == Vacate(s, t)
    ensures Inv(next)
  {
    VacatedSlotOk(s.ss, t, p, next.ss);
    OrphaningKeepsThreads(s, t, p, next.ss, ShutReaping(Some(p)));
    if s.ss.firstShutdown.Some? {
      OrphaningKeepsFirst(s.ss, p, next.ss, s.threads[s.ss.firstShutdown.value]);
    }
  }

  lemma VacateEmptyKeepsInv(s: System, t: nat, next: System)
    requires Inv(s) && t in s.threads && s.threads[t].ShutClosed? && s.ss.slot.None?
    requires next == Vacate(s, t)
    ensures Inv(next)
  {
    VacatedEmptySlotOk(s.ss, t, next.ss);
    forall u | u in s.threads && u != t ensures ThreadOk(next.ss, s.threads[u]) {
      assert ThreadOk(s.ss, s.threads[u]);
    }
    MoveKeepsThreads(s.ss, s.threads, t, ShutReaping(None), next.ss);
    if s.ss.firstShutdown.None? {
      assert next.ss.orphans == next.ss.byCancel;
    }
  }

  lemma TakeKeepsInv(s: System, t: nat, p: nat, next: System)
    requires Inv(s) && t in s.threads && s.threads[t] == CancelEntered(p) && s.ss.slot == Some(p)
    requires next == Take(s, t, p)
    ensures Inv(next)
  {
    WithdrawnSlotOk(s.ss, p, next.ss);
    OrphaningKeepsThreads(s, t, p, next.ss, CancelReaping(p));
    if s.ss.firstShutdown.Some? {
      OrphaningKeepsFirst(s.ss, p, next.ss, s.threads[s.ss.firstShutdown.value]);
    }
  }

  lemma ReapKeepsInv(s: System, t: nat, own: nat, previous: Option<nat>, next: System)
    requires Inv(s) && t in s.threads && s.threads[t] == Reaping(own, previous)
    requires next == StepBegin(s, t, Reaping(own, previous), false)
    ensures Inv(next)
  {
    assert ThreadOk(s.ss, Reaping(own, previous));
    match previous
    case None => GotoKeepsInv(s, t, Reaped(own), next);
    case Some(p) => GotoKeepsInv(s, t, Waiting(own, p), next);
  }

  lemma WaitedKeepsInv(s: System, t: nat, own: nat, p: nat, next: System)
    requires Inv(s) && t in s.threads && s.threads[t] == Waiting(own, p) && p in s.ss.settled
    requires next == Goto(s, t, Reaped(own))
    ensures Inv(next)
  {
    assert ThreadOk(s.ss, Waiting(own, p));
    ClearAbove(s.ss.orphans, s.ss.settled, p);
    GotoKeepsInv(s, t, Reaped(own), next);
  }

  /** A thread past the check that finds neither cancel nor shutdown may run its body. */
  lemma ClearedIsOk(s: System, own: nat)
    requires Inv(s) && ThreadOk(s.ss, Uncancelled(own)) && !s.closed
    ensures ThreadOk(s.ss, Spawned(own))
  {
  }

  lemma CheckKeepsInv(s: System, t: nat, pc: Pc, spawned: bool, next: System)
    requires Inv(s) && t in s.threads && s.threads[t] == pc && (pc.Reaped? || pc.Uncancelled?)
    requires next == StepBegin(s, t, pc, spawned)
    ensures Inv(next)
  {
    assert ThreadOk(s.ss, pc);
    if pc.Uncancelled? && !s.closed { ClearedIsOk(s, pc.own); }
    GotoKeepsInv(s, t, next.threads[t], next);
  }

  lemma BodyKeepsInv(s: System, t: nat, pc: Pc, next: System)
    requires Inv(s) && t in s.threads && s.threads[t] == pc && (pc.Spawned? || pc.Running?)
    requires next == StepBegin(s, t, pc, false)
    ensures Inv(next)
  {
    assert ThreadOk(s.ss, pc);
    GotoKeepsInv(s, t, if pc.Spawned? then Running(pc.own) else Returned(pc.own), next);
  }

  lemma StepBeginKeepsInv(s: System, t: nat, pc: Pc, spawned: bool, next: System)
    requires Inv(s) && t in s.threads && s.threads[t] == pc && !IsShutdown(pc) && !IsCancel(pc)
    requires next == StepBegin(s, t, pc, spawned)
    ensures Inv(next)
  {
    if pc.Entered? { GotoKeepsInv(s, t, if s.closed then Refused else Admitted, next); }
    else if pc.Admitted? { InstallKeepsInv(s, t, next); }
    else if pc.Reaping? { ReapKeepsInv(s, t, pc.own, pc.previous, next); }
    else if pc.Waiting? { if pc.predecessor in s.ss.settled { WaitedKeepsInv(s, t, pc.own, pc.predecessor, next); } }
    else if pc.Reaped? || pc.Uncancelled? { CheckKeepsInv(s, t, pc, spawned, next); }
    else if pc.Aborting? { SettleKeepsInv(s, t, pc.own, Discarding(pc.own), next); }
    else if pc.Discarding? { DiscardKeepsInv(s, t, pc.own, next); }
    else if pc.Spawned? || pc.Running? { BodyKeepsInv(s, t, pc, next); }
    else if pc.Returned? { SettleKeepsInv(s, t, pc.own, Finished, next); }
  }

  /** What the first shutdown knows once it has reaped what it took. */
  lemma FirstReaped(ss: Sessions, pc: Pc)
    requires SlotOk(ss) && ss.firstShutdown.Some? && FirstOk(ss, pc)
    requires pc == ShutReaping(None) || (pc.ShutWaiting? && pc.target in ss.settled)
    ensures FirstOk(ss, ShutDone)
  {
    if pc.ShutWaiting? {
      ClearAbove(ss.orphans, ss.settled, pc.target);
    }
  }

  lemma StepShutdownKeepsInv(s: System, t: nat, pc: Pc, next: System)
    requires Inv(s) && t in s.threads && s.threads[t] == pc && IsShutdown(pc)
    requires next == StepShutdown(s, t, pc)
    ensures Inv(next)
  {
    match pc
    case ShutEntered => GotoKeepsInv(s, t, ShutClosed, next);
    case ShutClosed =>
      if s.ss.slot.None? { VacateEmptyKeepsInv(s, t, next); }
      else { VacateFullKeepsInv(s, t, s.ss.slot.value, next); }
    case ShutReaping(None) =>
      if s.ss.firstShutdown == Some(t) { FirstReaped(s.ss, pc); }
      GotoKeepsInv(s, t, ShutDone, next);
    case ShutReaping(Some(p)) => GotoKeepsInv(s, t, ShutWaiting(p), next);
    case ShutWaiting(p) =>
      if p in s.ss.settled {
        if s.ss.firstShutdown == Some(t) { FirstReaped(s.ss, pc); }
        GotoKeepsInv(s, t, ShutDone, next);
      }
    case ShutDone =>
  }

  lemma StepCancelKeepsInv(s: System, t: nat, pc: Pc, next: System)
    requires Inv(s) && t in s.threads && s.threads[t] == pc && IsCancel(pc)
    requires next == StepCancel(s, t, pc)
    ensures Inv(next)
  {
    match pc
    case CancelEntered(target) =>
      if s.ss.slot == Some(target) { TakeKeepsInv(s, t, target, next); }
      else { GotoKeepsInv(s, t, CancelDone, next); }
    case CancelReaping(p) => GotoKeepsInv(s, t, CancelWaiting(p), next);
    case CancelWaiting(p) => if p in s.ss.settled { GotoKeepsInv(s, t, CancelDone, next); }
    case CancelDone =>
  }

  lemma StepKeepsInv(s: System, a: Action, next: System)
    requires Inv(s) && next == Step(s, a)
    ensures Inv(next)
  {
    match a
    case Begin(t) => if t !in s.threads { GotoKeepsInv(s, t, Entered, next); }
    case Shutdown(t) => if t !in s.threads { GotoKeepsInv(s, t, ShutEntered, next); }
    case Cancel(t, target) => if t !in s.threads { GotoKeepsInv(s, t, CancelEntered(target), next); }
    case Advance(t, spawned) =>
      if t in s.threads {
        var pc := s.threads[t];
        if IsShutdown(pc) { StepShutdownKeepsInv(s, t, pc, next); }
        else if IsCancel(pc) { StepCancelKeepsInv(s, t, pc, next); }
        else { StepBeginKeepsInv(s, t, pc, spawned, next); }
      }
  }

  // ---------------------------------------------------------------- every session is accounted for

  /** The session a thread is waiting to see settled. */
  function WaitsFor(pc: Pc): Option<nat> {
    match pc
    case Waiting(_, p) => Some(p)
    case ShutWaiting(p) => Some(p)
    case CancelWaiting(p) => Some(p)
    case _ => None
  }

  /** The session a thread has taken out of the slot and is about to reap. */
  function Reaps(pc: Pc): Option<nat> {
    match pc
    case Reaping(_, previous) => previous
    case ShutReaping(taken) => taken
    case CancelReaping(p) => Some(p)
    case _ => None
  }

  predicate Blocked(s: System, t: nat)
    requires t in s.threads
  {
    WaitsFor(s.threads[t]).Some? && WaitsFor(s.threads[t]).value !in s.ss.settled
  }

  ghost predicate Owned(threads: map<nat, Pc>, j: nat) {
    exists t :: t in threads && Owes(threads[t]) && threads[t].own == j
  }

  predicate TargetsOk(s: System, pc: Pc) {
    && (WaitsFor(pc).Some? ==> WaitsFor(pc).value < s.ss.installed && WaitsFor(pc).value in s.cancelled)
    && (Reaps(pc).Some? ==> Reaps(pc).value < s.ss.installed)
  }

  /** Every session is settled or owed a settlement, and whoever is waited for has been cancelled. */
  ghost predicate Accounted(s: System) {
    && (s.ss.slot.Some? ==> s.ss.slot.value < s.ss.installed)
    && (forall j: nat :: j < s.ss.installed && j !in s.ss.settled ==> Owned(s.threads, j))
    && (forall t :: t in s.threads ==> TargetsOk(s, s.threads[t]))
  }

  /** A thread moves without dropping the session it owes. */
  lemma MoveKeepsOwned(threads: map<nat, Pc>, t: nat, pc: Pc, j: nat)
    requires Owned(threads, j)
    requires t in threads && Owes(threads[t]) && threads[t].own == j ==> Owes(pc) && pc.own == j
    ensures Owned(threads[t := pc], j)
  {
    var u :| u in threads && Owes(threads[u]) && threads[u].own == j;
    assert u in threads[t := pc] && Owes(threads[t := pc][u]) && threads[t := pc][u].own == j;
  }

  /** A step by which thread t goes to pc, installing or settling at most its own session. */
  lemma MoveKeepsAccounts(s: System, t: nat, pc: Pc, next: System)
    requires Accounted(s) && next.threads == s.threads[t := pc]
    requires s.ss.installed <= next.ss.installed <= s.ss.installed + 1 && s.ss.settled <= next.ss.settled
    requires s.cancelled <= next.cancelled
    requires next.ss.slot.Some? ==> next.ss.slot.value < next.ss.installed
    requires TargetsOk(next, pc)
    requires next.ss.installed > s.ss.installed ==> Owes(pc) && pc.own == s.ss.installed
    requires t in s.threads && Owes(s.threads[t]) ==>
               s.threads[t].own in next.ss.settled || (Owes(pc) && pc.own == s.threads[t].own)
    ensures Accounted(next)
  {
    forall j: nat | j < next.ss.installed && j !in next.ss.settled ensures Owned(next.threads, j) {
      if j < s.ss.installed {
        MoveKeepsOwned(s.threads, t, pc, j);
      } else {
        assert t in next.threads && Owes(next.threads[t]) && next.threads[t].own == j;
      }
    }
  }

  lemma BeginKeepsAccounts(s: System, t: nat, pc: Pc, spawned: bool, next: System)
    requires Accounted(s) && t in s.threads && s.threads[t] == pc && !IsShutdown(pc) && !IsCancel(pc)
    requires next == StepBegin(s, t, pc, spawned) && next != s
    ensures Accounted(next)
  {
    assert TargetsOk(s, pc);
    MoveKeepsAccounts(s, t, next.threads[t], next);
  }

  lemma ShutdownKeepsAccounts(s: System, t: nat, pc: Pc, next: System)
    requires Accounted(s) && t in s.threads && s.threads[t] == pc && IsShutdown(pc)
    requires next == StepShutdown(s, t, pc) && next != s
    ensures Accounted(next)
  {
    assert TargetsOk(s, pc);
    MoveKeepsAccounts(s, t, next.threads[t], next);
  }

  lemma CancelKeepsAccounts(s: System, t: nat, pc: Pc, next: System)
    requires Accounted(s) && t in s.threads && s.threads[t] == pc && IsCancel(pc)
    requires next == StepCancel(s, t, pc) && next != s
    ensures Accounted(next)
  {
    assert TargetsOk(s, pc);
    MoveKeepsAccounts(s, t, next.threads[t], next);
  }

  lemma StepKeepsAccounts(s: System, a: Action, next: System)
    requires Accounted(s) && next == Step(s, a)
    ensures Accounted(next)
  {
    var t := a.thread;
    if next != s {
      if !a.Advance? {
        MoveKeepsAccounts(s, t, next.threads[t], next);
      } else {
        var pc := s.threads[t];
        if IsShutdown(pc) { ShutdownKeepsAccounts(s, t, pc, next); }
        else if IsCancel(pc) { CancelKeepsAccounts(s, t, pc, next); }
        else { BeginKeepsAccounts(s, t, pc, a.spawned, next); }
      }
    }
  }

  lemma {:induction false} RunKeepsInv(actions: seq<Action>)
    ensures Inv(Run(actions)) && Accounted(Run(actions))
  {
    if actions != [] {
      var before, a := actions[..|actions| - 1], actions[|actions| - 1];
      RunKeepsInv(before);
      StepKeepsInv(Run(before), a, Run(actions));
      StepKeepsAccounts(Run(before), a, Run(actions));
    }
  }

  // ---------------------------------------------------------------- main results

  /**
   * In every run, a session that has not settled when a later session's body may run was cut off
   * by a cancel: some session from it up to, but below, the later one was taken out of the slot by
   * a cancel and has not settled either.
   */
  lemma OnlyCancelsLetSessionsOverlap(actions: seq<Action>, t: nat, j: nat)
    requires t in Run(actions).threads && Cleared(Run(actions).threads[t])
    requires j < Run(actions).threads[t].own && j !in Run(actions).ss.settled
    ensures exists o :: o in Run(actions).ss.byCancel && j <= o < Run(actions).threads[t].own && o !in Run(actions).ss.settled
  {
    RunKeepsInv(actions);
    var s := Run(actions);
    var own := s.threads[t].own;
    assert ThreadOk(s.ss, s.threads[t]);
    assert Covered(s.ss.orphans, s.ss.settled, j, own);
    var o :| o in s.ss.orphans && j <= o < own && o !in s.ss.settled;
    assert o in s.ss.byCancel;
  }

  /**
   * The exact condition: some earlier session has not settled when a body may run exactly when some
   * earlier session taken out of the slot by a cancel has not.
   */
  lemma SessionsOverlapIff(actions: seq<Action>, t: nat)
    requires t in Run(actions).threads && Cleared(Run(actions).threads[t])
    ensures var ss, own := Run(actions).ss, Run(actions).threads[t].own;
            (exists j: nat :: j < own && j !in ss.settled) <==> (exists o :: o in ss.byCancel && o < own && o !in ss.settled)
  {
    var ss, own := Run(actions).ss, Run(actions).threads[t].own;
    if j: nat :| j < own && j !in ss.settled {
      OnlyCancelsLetSessionsOverlap(actions, t, j);
    }
  }

  predicate WithoutCancels(actions: seq<Action>) {
    forall i :: 0 <= i < |actions| ==> !actions[i].Cancel?
  }

  ghost predicate NoCancelYet(s: System) {
    s.ss.byCancel == {} && forall t :: t in s.threads ==> !IsCancel(s.threads[t])
  }

  lemma StepWithoutCancel(s: System, a: Action, next: System)
    requires NoCancelYet(s) && !a.Cancel? && next == Step(s, a)
    ensures NoCancelYet(next)
  {
  }

  lemma {:induction false} RunWithoutCancels(actions: seq<Action>)
    requires WithoutCancels(actions)
    ensures NoCancelYet(Run(actions))
  {
    if actions != [] {
      RunWithoutCancels(actions[..|actions| - 1]);
      StepWithoutCancel(Run(actions[..|actions| - 1]), actions[|actions| - 1], Run(actions));
    }
  }

  /** When begin and shutdown alone vacate the slot, a body runs only once every earlier session has settled. */
  lemma BodiesRunAfterAllEarlierSessions(actions: seq<Action>, t: nat, j: nat)
    requires WithoutCancels(actions)
    requires t in Run(actions).threads && Cleared(Run(actions).threads[t]) && j < Run(actions).threads[t].own
    ensures j in Run(actions).ss.settled
  {
    RunWithoutCancels(actions);
    if j !in Run(actions).ss.settled {
      OnlyCancelsLetSessionsOverlap(actions, t, j);
    }
  }

  /** Mutual exclusion: at most one thread is between its final check and its settlement. */
  lemma BodiesNeverOverlap(actions: seq<Action>, t: nat, u: nat)
    requires WithoutCancels(actions)
    requires t in Run(actions).threads && Cleared(Run(actions).threads[t])
    requires u in Run(actions).threads && Cleared(Run(actions).threads[u])
    ensures t == u
  {
    RunKeepsInv(actions);
    var s := Run(actions);
    assert ThreadOk(s.ss, s.threads[t]) && ThreadOk(s.ss, s.threads[u]);
    if s.threads[t].own < s.threads[u].own {
      BodiesRunAfterAllEarlierSessions(actions, u, s.threads[t].own);
    } else if s.threads[u].own < s.threads[t].own {
      BodiesRunAfterAllEarlierSessions(actions, t, s.threads[u].own);
    }
  }

  /** The shutdown that first emptied the slot has returned. */
  predicate ShutDown(s: System) {
    && s.ss.firstShutdown.Some?
    && s.ss.firstShutdown.value in s.threads
    && s.threads[s.ss.firstShutdown.value].ShutDone?
  }

  lemma StepKeepsShutDown(s: System, a: Action, next: System)
    requires ShutDown(s) && next == Step(s, a)
    ensures ShutDown(next) && next.ss.cut == s.ss.cut
  {
  }

  lemma {:induction false} RunKeepsShutDown(before: seq<Action>, after: seq<Action>)
    requires ShutDown(Run(before))
    ensures ShutDown(Run(before + after))
  {
    if after == [] {
      assert before + after == before;
    } else {
      var last := |after| - 1;
      RunKeepsShutDown(before, after[..last]);
      assert (before + after)[..|before + after| - 1] == before + after[..last];
      StepKeepsShutDown(Run(before + after[..last]), after[last], Run(before + after));
    }
  }

  lemma EarlierSessionsSettled(orphans: set<nat>, settled: set<nat>, cut: nat, j: nat)
    requires Clear(orphans, settled, cut)
    requires forall o :: o in orphans && o < cut ==> o in settled
    ensures j < cut ==> j in settled
  {
    assert j < cut && j !in settled ==> Covered(orphans, settled, j, cut);
  }

  lemma EarlierOrphansSettled(ss: Sessions, o: nat)
    requires o + 1 < ss.cut ==> o in ss.byCancel
    requires TookLast(ss) ==> ss.cut - 1 in ss.settled
    requires ss.byCancel == {} && o in ss.orphans && o < ss.cut
    ensures o in ss.settled
  {
    assert o + 1 == ss.cut;
  }

  lemma SettledBelowTheCut(ss: Sessions, j: nat)
    requires SlotOk(ss) && ss.firstShutdown.Some? && FirstOk(ss, ShutDone) && ss.byCancel == {}
    ensures j < ss.cut ==> j in ss.settled
  {
    forall o | o in ss.orphans && o < ss.cut ensures o in ss.settled {
      EarlierOrphansSettled(ss, o);
    }
    EarlierSessionsSettled(ss.orphans, ss.settled, ss.cut, j);
  }

  /**
   * Once the first shutdown has returned, every session installed before it took the slot has
   * settled, and whatever happens afterwards no body is about to run, running or unsettled.
   */
  lemma ShutdownIsFinal(before: seq<Action>, after: seq<Action>)
    requires WithoutCancels(before + after) && ShutDown(Run(before))
    ensures forall j: nat :: j < Run(before + after).ss.cut ==> j in Run(before + after).ss.settled
    ensures forall t :: t in Run(before + after).threads ==> !Cleared(Run(before + after).threads[t])
  {
    var s := Run(before + after);
    RunKeepsShutDown(before, after);
    RunKeepsInv(before + after);
    RunWithoutCancels(before + after);
    forall j: nat | j < s.ss.cut ensures j in s.ss.settled {
      SettledBelowTheCut(s.ss, j);
    }
    forall t | t in s.threads ensures !Cleared(s.threads[t]) {
      assert ThreadOk(s.ss, s.threads[t]);
      if Cleared(s.threads[t]) {
        SettledBelowTheCut(s.ss, s.threads[t].own);
      }
    }
  }

  /** The last session installed before the first shutdown took the slot has settled, if there was one. */
  predicate LastSettled(ss: Sessions) {
    ss.cut == 0 || ss.cut - 1 in ss.settled
  }

  lemma SettledBelowLast(ss: Sessions, j: nat)
    requires SlotOk(ss) && ss.firstShutdown.Some? && ss.byCancel == {}
    requires ss.cut > 0 && ss.cut - 1 in ss.settled && j < ss.cut
    ensures j in ss.settled
  {
    EarlierSessionsSettled(ss.orphans, ss.settled, ss.cut - 1, j);
  }

  /**
   * When a shutdown leaves nothing behind, whichever shutdown it is: all sessions installed before
   * the first one took the slot have settled exactly when the last of them has.
   */
  lemma AllSettledIff(actions: seq<Action>)
    requires WithoutCancels(actions) && Run(actions).ss.firstShutdown.Some?
    ensures var ss := Run(actions).ss;
            (forall j: nat :: j < ss.cut ==> j in ss.settled) <==> LastSettled(ss)
  {
    RunKeepsInv(actions);
    RunWithoutCancels(actions);
    var ss := Run(actions).ss;
    if ss.cut > 0 && ss.cut - 1 in ss.settled {
      forall j: nat | j < ss.cut ensures j in ss.settled {
        SettledBelowLast(ss, j);
      }
    }
  }

  /** A body that is still running is of such a session, and the last of them has not settled. */
  lemma RunningKeepsLastUnsettled(actions: seq<Action>, t: nat)
    requires WithoutCancels(actions) && Run(actions).ss.firstShutdown.Some?
    requires t in Run(actions).threads && Cleared(Run(actions).threads[t])
    ensures Run(actions).threads[t].own < Run(actions).ss.cut && !LastSettled(Run(actions).ss)
  {
    RunKeepsInv(actions);
    var s := Run(actions);
    assert ThreadOk(s.ss, s.threads[t]);
    AllSettledIff(actions);
  }

  lemma StepKeepsLastSettled(s: System, a: Action, next: System)
    requires s.ss.firstShutdown.Some? && LastSettled(s.ss) && next == Step(s, a)
    ensures next.ss.firstShutdown.Some? && LastSettled(next.ss)
  {
  }

  lemma {:induction false} RunKeepsLastSettled(before: seq<Action>, after: seq<Action>)
    requires Run(before).ss.firstShutdown.Some? && LastSettled(Run(before).ss)
    ensures Run(before + after).ss.firstShutdown.Some? && LastSettled(Run(before + after).ss)
  {
    if after == [] {
      assert before + after == before;
    } else {
      var last := |after| - 1;
      RunKeepsLastSettled(before, after[..last]);
      assert (before + after)[..|before + after| - 1] == before + after[..last];
      StepKeepsLastSettled(Run(before + after[..last]), after[last], Run(before + after));
    }
  }

  /**
   * Any shutdown is final from the moment on at which that last session has settled: then and
   * whatever happens afterwards all those sessions have settled and no body may run.
   */
  lemma FinalOnceLastSettled(before: seq<Action>, after: seq<Action>)
    requires WithoutCancels(before + after)
    requires Run(before).ss.firstShutdown.Some? && LastSettled(Run(before).ss)
    ensures forall j: nat :: j < Run(before + after).ss.cut ==> j in Run(before + after).ss.settled
    ensures forall t :: t in Run(before + after).threads ==> !Cleared(Run(before + after).threads[t])
  {
    RunKeepsLastSettled(before, after);
    AllSettledIff(before + after);
    forall t | t in Run(before + after).threads ensures !Cleared(Run(before + after).threads[t]) {
      if Cleared(Run(before + after).threads[t]) {
        RunningKeepsLastUnsettled(before + after, t);
      }
    }
  }

  /** The lowest session not settled yet, from j downwards. */
  lemma {:induction false} LowestUnsettled(settled: set<nat>, j: nat) returns (low: nat)
    requires j !in settled
    ensures low <= j && low !in settled && forall k: nat :: k < low ==> k in settled
    decreases j
  {
    if k: nat :| k < j && k !in settled {
      low := LowestUnsettled(settled, k);
    } else {
      low := j;
    }
  }

  /**
   * No reaping ever deadlocks: whenever some thread waits for a session, that session has been
   * cancelled, and some thread that owes a settlement can go on.
   */
  lemma WaitingNeverDeadlocks(actions: seq<Action>, t: nat) returns (u: nat)
    requires t in Run(actions).threads && Blocked(Run(actions), t)
    ensures WaitsFor(Run(actions).threads[t]).value in Run(actions).cancelled
    ensures u in Run(actions).threads && Owes(Run(actions).threads[u]) && !Blocked(Run(actions), u)
  {
    RunKeepsInv(actions);
    var s := Run(actions);
    assert TargetsOk(s, s.threads[t]);
    var low := LowestUnsettled(s.ss.settled, WaitsFor(s.threads[t]).value);
    assert Owned(s.threads, low);
    u :| u in s.threads && Owes(s.threads[u]) && s.threads[u].own == low;
    WaitsBelow(s, u);
  }

  lemma WaitsBelow(s: System, u: nat)
    requires Inv(s) && u in s.threads && Owes(s.threads[u])
    ensures WaitsFor(s.threads[u]).Some? ==> WaitsFor(s.threads[u]).value < s.threads[u].own
  {
    assert ThreadOk(s.ss, s.threads[u]);
  }

  // ---------------------------------------------------------------- who may start

  /** Something that every step of a run keeps holds after the run if it held before. */
  lemma RunSplits(before: seq<Action>, after: seq<Action>)
    requires after != []
    ensures Run(before + after) == Step(Run(before + after[..|after| - 1]), after[|after| - 1])
  {
    assert (before + after)[..|before + after| - 1] == before + after[..|after| - 1];
  }

  /** The thread's session was cancelled before its check, or its start has failed: no body will run. */
  predicate Doomed(s: System, t: nat, own: nat) {
    && t in s.threads
    && var pc := s.threads[t];
       || (own in s.cancelled && (pc.Reaping? || pc.Waiting? || pc.Reaped?) && pc.own == own)
       || pc == Aborting(own)
       || (own in s.ss.settled && (pc == Discarding(own) || pc == Refused))
  }

  /** What others do leaves a thread where it stands; cancelled and settled sessions stay so. */
  lemma OthersLeaveThread(s: System, a: Action, t: nat, next: System)
    requires t in s.threads && next == Step(s, a) && (!a.Advance? || a.thread != t)
    ensures t in next.threads && next.threads[t] == s.threads[t]
    ensures s.cancelled <= next.cancelled && s.ss.settled <= next.ss.settled
  {
  }

  lemma DoomedGoesOn(s: System, t: nat, own: nat, spawned: bool, next: System)
    requires Doomed(s, t, own) && next == Step(s, Advance(t, spawned))
    ensures Doomed(next, t, own)
  {
  }

  lemma StepKeepsDoomed(s: System, a: Action, t: nat, own: nat, next: System)
    requires Doomed(s, t, own) && next == Step(s, a)
    ensures Doomed(next, t, own)
  {
    if a.Advance? && a.thread == t {
      DoomedGoesOn(s, t, own, a.spawned, next);
    } else {
      OthersLeaveThread(s, a, t, next);
    }
  }

  lemma {:induction false} RunKeepsDoomed(before: seq<Action>, after: seq<Action>, t: nat, own: nat)
    requires Doomed(Run(before), t, own)
    ensures Doomed(Run(before + after), t, own)
  {
    if after == [] {
      assert before + after == before;
    } else {
      RunKeepsDoomed(before, after[..|after| - 1], t, own);
      RunSplits(before, after);
      StepKeepsDoomed(Run(before + after[..|after| - 1]), after[|after| - 1], t, own, Run(before + after));
    }
  }

  /**
   * Whatever happens afterwards, a session that is cancelled by the time of its check never runs
   * its body; its thread can only settle it and give up.
   */
  lemma CancelledSessionsNeverRun(before: seq<Action>, after: seq<Action>, t: nat, own: nat)
    requires t in Run(before).threads && own in Run(before).cancelled
    requires var pc := Run(before).threads[t]; (pc.Reaping? || pc.Waiting? || pc.Reaped?) && pc.own == own
    ensures t in Run(before + after).threads && !Cleared(Run(before + after).threads[t])
    ensures Run(before + after).threads[t] in {Discarding(own), Refused} ==> own in Run(before + after).ss.settled
  {
    RunKeepsDoomed(before, after, t, own);
  }

  /** Nor does a session whose worker could not be spawned, or that finds the registry closed at its last check. */
  lemma UnspawnedSessionsNeverRun(before: seq<Action>, after: seq<Action>, t: nat, own: nat, spawned: bool)
    requires t in Run(before).threads && Run(before).threads[t] == Uncancelled(own)
    requires !spawned || Run(before).closed
    ensures var s := Run(before + [Advance(t, spawned)] + after);
            t in s.threads && !Cleared(s.threads[t])
  {
    RunOne(before, Advance(t, spawned));
    RunKeepsDoomed(before + [Advance(t, spawned)], after, t, own);
  }

  /** Once the registry is closed, this thread neither runs a body nor will. */
  predicate Locked(s: System, t: nat) {
    s.closed && (t in s.threads ==> !Cleared(s.threads[t]))
  }

  lemma StepKeepsLocked(s: System, a: Action, t: nat, next: System)
    requires Locked(s, t) && next == Step(s, a)
    ensures Locked(next, t)
    ensures next.ss.installed > s.ss.installed && a.thread == t ==> t in s.threads && s.threads[t] == Admitted
  {
  }

  /** Once the registry is closed, no thread that is not past its last check ever runs a body. */
  lemma {:induction false} ClosedRegistryStartsNothing(before: seq<Action>, after: seq<Action>, t: nat)
    requires Run(before).closed && (t in Run(before).threads ==> !Cleared(Run(before).threads[t]))
    ensures Run(before + after).closed
    ensures t in Run(before + after).threads ==> !Cleared(Run(before + after).threads[t])
  {
    if after == [] {
      assert before + after == before;
    } else {
      ClosedRegistryStartsNothing(before, after[..|after| - 1], t);
      RunSplits(before, after);
      StepKeepsLocked(Run(before + after[..|after| - 1]), after[|after| - 1], t, Run(before + after));
    }
  }

  /** The check of the cancelled flag. */
  lemma FirstCheck(s: System, t: nat, own: nat, spawned: bool, next: System)
    requires t in s.threads && s.threads[t] == Reaped(own) && next == Step(s, Advance(t, spawned))
    ensures t in next.threads && next.threads[t] == (if own in s.cancelled then Aborting(own) else Uncancelled(own))
    ensures next.closed == s.closed
  {
  }

  /** The check of the closed flag, and the start of the worker; or the settlement of a cancelled session. */
  lemma SecondCheck(s: System, t: nat, own: nat, spawned: bool, next: System)
    requires t in s.threads && next == Step(s, Advance(t, spawned))
    ensures s.threads[t] == Uncancelled(own) ==>
              t in next.threads && next.threads[t] == (if s.closed || !spawned then Aborting(own) else Spawned(own))
    ensures s.threads[t] == Aborting(own) ==>
              t in next.threads && next.threads[t] == Discarding(own) && own in next.ss.settled
  {
  }

  lemma ThirdStep(s: System, t: nat, own: nat, spawned: bool, next: System)
    requires t in s.threads && next == Step(s, Advance(t, spawned))
    requires s.threads[t] in {Aborting(own), Spawned(own)} || (s.threads[t] == Discarding(own) && own in s.ss.settled)
    ensures t in next.threads && (next.threads[t] == Running(own) <==> s.threads[t] == Spawned(own))
    ensures next.threads[t] != Running(own) ==> own in next.ss.settled
  {
  }

  /**
   * A session that has reaped its predecessor, when its thread goes on alone: its body starts
   * exactly when it is not cancelled, the registry is open and the worker can be spawned; if not,
   * the session settles.
   */
  lemma BodyStartsIff(actions: seq<Action>, t: nat, own: nat, spawned: bool)
    requires t in Run(actions).threads && Run(actions).threads[t] == Reaped(own)
    ensures var s, a := Run(actions), Advance(t, spawned);
            var later := Run(actions + [a, a, a]);
            && t in later.threads
            && (later.threads[t] == Running(own) <==> own !in s.cancelled && !s.closed && spawned)
            && (later.threads[t] != Running(own) ==> own in later.ss.settled)
  {
    var a := Advance(t, spawned);
    var one, two, three := actions + [a], actions + [a, a], actions + [a, a, a];
    assert two == one + [a] && three == two + [a];
    RunOne(actions, a);
    RunOne(one, a);
    RunOne(two, a);
    FirstCheck(Run(actions), t, own, spawned, Run(one));
    SecondCheck(Run(one), t, own, spawned, Run(two));
    ThirdStep(Run(two), t, own, spawned, Run(three));
  }

  lemma RunOne(actions: seq<Action>, a: Action)
    ensures Run(actions + [a]) == Step(Run(actions), a)
  {
    assert (actions + [a])[..|actions|] == actions;
  }

  /** A call that begins while the registry is open is admitted; one that begins later is refused at once. */
  lemma AdmittedIffOpen(actions: seq<Action>, t: nat, spawned: bool)
    requires t in Run(actions).threads && Run(actions).threads[t] == Entered
    ensures var s, next := Run(actions), Run(actions + [Advance(t, spawned)]);
            && next.ss == s.ss && t in next.threads
            && (next.threads[t] == Admitted <==> !s.closed) && (next.threads[t] == Refused <==> s.closed)
  {
    RunOne(actions, Advance(t, spawned));
  }

  /** A refused session leaves the slot if it is still there, and is cancelled by that; no other session is touched. */
  lemma RefusedSessionLeavesSlot(actions: seq<Action>, t: nat, own: nat, spawned: bool)
    requires t in Run(actions).threads && Run(actions).threads[t] == Discarding(own)
    ensures var s, next := Run(actions), Run(actions + [Advance(t, spawned)]);
            && t in next.threads && next.threads[t] == Refused && next.closed == s.closed
            && next.ss == (if s.ss.slot == Some(own) then s.ss.(slot := None) else s.ss)
            && forall j :: j in next.cancelled <==> j in s.cancelled || (j == own && s.ss.slot == Some(own))
  {
    RunOne(actions, Advance(t, spawned));
  }

  /** What a cancel does next: it takes out only its target, marks it, and returns once that has settled. */
  ghost predicate CancelAdvances(s: System, next: System, target: nat, from: Pc, to: Pc) {
    && (from == CancelEntered(target) ==>
          if s.ss.slot == Some(target) then next.ss.slot.None? && to == CancelReaping(target)
          else next.ss == s.ss && to == CancelDone)
    && (from == CancelReaping(target) ==>
          next.ss == s.ss && to == CancelWaiting(target) && forall j :: j in next.cancelled <==> j in s.cancelled || j == target)
    && (from == CancelWaiting(target) ==>
          next.ss == s.ss && next.cancelled == s.cancelled && (to == CancelDone <==> target in s.ss.settled))
  }

  lemma CancelWaitsForItsTarget(actions: seq<Action>, t: nat, target: nat, spawned: bool)
    requires t in Run(actions).threads
    ensures var s, next := Run(actions), Run(actions + [Advance(t, spawned)]);
            t in next.threads && CancelAdvances(s, next, target, s.threads[t], next.threads[t])
  {
    RunOne(actions, Advance(t, spawned));
  }

  // ---------------------------------------------------------------- what does not hold

  lemma Then(actions: seq<Action>, a: Action) returns (more: seq<Action>)
    ensures more == actions + [a] && Run(more) == Step(Run(actions), a)
  {
    more := actions + [a];
    assert more[..|more| - 1] == actions;
  }

  /** Thread t advances from one program point to another. */
  lemma ThenAdvance(actions: seq<Action>, s: System, t: nat, pc: Pc, to: Pc) returns (more: seq<Action>)
    requires Run(actions) == Goto(s, t, pc) && !IsShutdown(pc) && !IsCancel(pc)
    requires StepBegin(Goto(s, t, pc), t, pc, true) == Goto(Goto(s, t, pc), t, to)
    ensures more == actions + [Advance(t, true)] && Run(more) == Goto(s, t, to)
  {
    more := Then(actions, Advance(t, true));
    assert s.threads[t := pc][t := to] == s.threads[t := to];
  }

  function Installed(s: System): System {
    s.(ss := s.ss.(installed := s.ss.installed + 1, slot := Some(s.ss.installed)))
  }

  lemma SessionCanInstall(actions: seq<Action>, s: System, t: nat) returns (more: seq<Action>)
    requires Run(actions) == s && t !in s.threads && s.ss.slot.None? && !s.closed
    ensures Run(more) == Goto(Installed(s), t, Reaping(s.ss.installed, None))
    ensures WithoutCancels(actions) ==> WithoutCancels(more)
  {
    var begun := Then(actions, Begin(t));
    var admitted := ThenAdvance(begun, s, t, Entered, Admitted);
    more := Then(admitted, Advance(t, true));
    assert s.threads[t := Admitted][t := Reaping(s.ss.installed, None)] == s.threads[t := Reaping(s.ss.installed, None)];
  }

  lemma CheckCanPass(actions: seq<Action>, s: System, t: nat, own: nat) returns (more: seq<Action>)
    requires Run(actions) == Goto(s, t, Reaped(own)) && own !in s.cancelled && !s.closed
    ensures Run(more) == Goto(s, t, Running(own))
    ensures WithoutCancels(actions) ==> WithoutCancels(more)
  {
    var checked := ThenAdvance(actions, s, t, Reaped(own), Uncancelled(own));
    var spawned := ThenAdvance(checked, s, t, Uncancelled(own), Spawned(own));
    more := ThenAdvance(spawned, s, t, Spawned(own), Running(own));
  }

  /** With the slot free and the registry open, a new session reaches its body. */
  lemma BodyCanStart(actions: seq<Action>, s: System, t: nat) returns (more: seq<Action>)
    requires Run(actions) == s && t !in s.threads && s.ss.slot.None? && !s.closed
    requires s.ss.installed !in s.cancelled
    ensures Run(more) == Goto(Installed(s), t, Running(s.ss.installed))
    ensures WithoutCancels(actions) ==> WithoutCancels(more)
  {
    var own := s.ss.installed;
    var reaping := SessionCanInstall(actions, s, t);
    var reaped := ThenAdvance(reaping, Installed(s), t, Reaping(own, None), Reaped(own));
    more := CheckCanPass(reaped, Installed(s), t, own);
  }

  /** A cancel empties the slot before it reaps, so two bodies can run at once. */
  lemma CancelLetsBodiesOverlap() returns (actions: seq<Action>)
    ensures 0 in Run(actions).threads && Run(actions).threads[0] == Running(0)
    ensures 2 in Run(actions).threads && Run(actions).threads[2] == Running(1)
  {
    var first := BodyCanStart([], START, 0);
    var entered := Then(first, Cancel(1, 0));
    var emptied := Then(entered, Advance(1, true));
    actions := BodyCanStart(emptied, Run(emptied), 2);
  }

  /** Thread t runs a shutdown up to the point where it has emptied the slot. */
  lemma ShutdownCanVacate(actions: seq<Action>, s: System, t: nat) returns (more: seq<Action>)
    requires Run(actions) == s && t !in s.threads
    ensures Run(more) == Vacate(Goto(s.(closed := true), t, ShutClosed), t)
    ensures WithoutCancels(actions) ==> WithoutCancels(more)
  {
    var entered := Then(actions, Shutdown(t));
    var closed := Then(entered, Advance(t, true));
    assert s.threads[t := ShutEntered][t := ShutClosed] == s.threads[t := ShutClosed];
    more := Then(closed, Advance(t, true));
  }

  /** Only the first shutdown reaps: a second one may return while a body is still running. */
  lemma SecondShutdownMayReturnEarly() returns (actions: seq<Action>)
    ensures WithoutCancels(actions)
    ensures 2 in Run(actions).threads && Run(actions).threads[2].ShutDone?
    ensures 0 in Run(actions).threads && Run(actions).threads[0] == Running(0)
    ensures Run(actions).ss.firstShutdown == Some(1) && !LastSettled(Run(actions).ss)
  {
    var first := BodyCanStart([], START, 0);
    var emptied := ShutdownCanVacate(first, Run(first), 1);
    var again := ShutdownCanVacate(emptied, Run(emptied), 2);
    actions := Then(again, Advance(2, true));
  }

  // ---------------------------------------------------------------- the registry's own fields

  /** The slot and the closed flag; sessions are named by their number. */
  class AgentMcpLoginRegistry {
    var slot: Option<nat>
    var closed: bool

    constructor ()
      ensures slot == START.ss.slot && closed == START.closed
    {
      slot, closed := None, false;
    }

    method Exchange(next: Option<nat>) returns (previous: Option<nat>)
      modifies this`slot
      ensures (slot, previous) == Replace(old(slot), next)
    {
      previous := slot;
      slot := next;
    }

    method TakeWhenHolding(target: nat) returns (taken: bool)
      modifies this`slot
      ensures (slot, taken) == TakeIf(old(slot), target)
    {
      if slot != Some(target) {
        return false;
      }
      slot := None;
      taken := true;
    }

    method Close() returns (active: Option<nat>)
      modifies this
      ensures closed && (slot, active) == Replace(old(slot), None)
    {
      closed := true;
      active := Exchange(None);
    }
  }
}
