/**
 * Claims and releases of staged attachments that run at the same time.  Records are taken, given
 * back and recorded under the lock; files are renamed one by one outside it.
 */
module AttachmentRaces {
  import opened Wrappers
  import opened AttachmentClaim

  /** What the system does to one access to the files. */
  datatype Fault = NoFault | BadTarget | Refused

  /**
   * Where a call stands; between two points lies one atomic access.  `start` remembers the files of
   * the reserved attachments at the time of the reservation.
   */
  datatype Pc =
    // claim
    | Entered(workspace: nat, thread: Thread, ids: seq<Id>)
    | Holding(thread: Thread, reserved: seq<Reserved>, start: Files)
    | Renaming(thread: Thread, reserved: seq<Reserved>, start: Files, moved: nat)
    | RollingBack(thread: Thread, reserved: seq<Reserved>, start: Files, moved: nat, left: nat, error: Error)
    | Restoring(thread: Thread, reserved: seq<Reserved>, start: Files, moved: nat, error: Error)
    | Recording(thread: Thread, reserved: seq<Reserved>, start: Files)
    | Succeeded
    | Failed(error: Error)
    // release
    | Releasing(workspace: nat, id: Id)
    | Removing(id: Id, record: Record)
    | Released

  /** `gone` are the attachments that were claimed or released. */
  datatype System = System(store: Store, threads: map<nat, Pc>, gone: set<Id>)

  datatype Action =
    | Claiming(call: nat, workspace: nat, thread: Thread, ids: seq<Id>)
    | ReleasingOne(call: nat, workspace: nat, id: Id)
    | Advance(call: nat, fault: Fault, listing: seq<Aged>)

  function Start(store: Store): System { System(store, map[], {}) }

  predicate Claims(pc: Pc) {
    pc.Holding? || pc.Renaming? || pc.RollingBack? || pc.Restoring? || pc.Recording?
  }

  function IdsOf(reserved: seq<Reserved>): set<Id> {
    set r | r in reserved :: r.id
  }

  /** The attachments that a call has taken out of the pending map. */
  function HeldIds(pc: Pc): set<Id> {
    if Claims(pc) then IdsOf(pc.reserved) else if pc.Removing? then {pc.id} else {}
  }

  /** The files of these attachments. */
  function Local(files: Files, ids: set<Id>): Files {
    map p | p in files && p.id in ids :: files[p]
  }

  // ---------------------------------------------------------------- one step

  function Goto(s: System, t: nat, store: Store, pc: Pc): System {
    s.(store := store, threads := s.threads[t := pc])
  }

  function ReserveStep(s: System, t: nat, pc: Pc): System
    requires pc.Entered?
  {
    var checked, available := EnsureIdSet(pc.ids), CheckPending(s.store.pending, pc.workspace, pc.ids, 0);
    if checked.Err? then Goto(s, t, s.store, Failed(checked.error))
    else if available.Err? then Goto(s, t, s.store, Failed(available.error))
    else
      var reserved := Reserve(s.store.pending, pc.ids);
      Goto(s, t, s.store.(pending := Without(s.store.pending, pc.ids)),
           Holding(pc.thread, reserved, Local(s.store.files, IdsOf(reserved))))
  }

  function RenameStep(s: System, t: nat, pc: Pc, fault: Fault): System
    requires pc.Renaming?
  {
    if pc.moved >= |pc.reserved| then Goto(s, t, s.store, Recording(pc.thread, pc.reserved, pc.start))
    else
      var r := pc.reserved[pc.moved];
      if fault.BadTarget? then Goto(s, t, s.store, RollingBack(pc.thread, pc.reserved, pc.start, pc.moved, pc.moved, BadPath))
      else if SourceOf(r) !in s.store.files || fault.Refused? then
        var error := if SourceOf(r) !in s.store.files then Unavailable else RenameRefused;
        Goto(s, t, s.store, RollingBack(pc.thread, pc.reserved, pc.start, pc.moved, pc.moved, error))
      else
        Goto(s, t, s.store.(files := Rename(s.store.files, SourceOf(r), TargetOf(pc.thread, r))),
             Renaming(pc.thread, pc.reserved, pc.start, pc.moved + 1))
  }

  function RollBackStep(s: System, t: nat, pc: Pc): System
    requires pc.RollingBack?
  {
    if pc.left == 0 || pc.left > |pc.reserved| then
      Goto(s, t, s.store, Restoring(pc.thread, pc.reserved, pc.start, pc.moved, pc.error))
    else
      var r := pc.reserved[pc.left - 1];
      Goto(s, t, s.store.(files := Rename(s.store.files, TargetOf(pc.thread, r), SourceOf(r))),
           RollingBack(pc.thread, pc.reserved, pc.start, pc.moved, pc.left - 1, pc.error))
  }

  function TakeStep(s: System, t: nat, pc: Pc): System
    requires pc.Releasing?
  {
    var pending := s.store.pending;
    if !ValidId(pc.id) then Goto(s, t, s.store, Failed(BadId))
    else if pc.id !in pending then Goto(s, t, s.store, Released)
    else if pending[pc.id].workspace != pc.workspace then Goto(s, t, s.store, Failed(WrongWorkspace))
    else Goto(s, t, s.store.(pending := pending - {pc.id}), Removing(pc.id, pending[pc.id]))
  }

  /** `listing` is the traversal order of the claimed map, when it is one. */
  ghost function AdvanceStep(s: System, t: nat, pc: Pc, fault: Fault, listing: seq<Aged>): System {
    match pc
    case Entered(_, _, _) => ReserveStep(s, t, pc)
    case Holding(thread, reserved, start) =>
      Goto(s, t, s.store,
           if fault.NoFault? then Renaming(thread, reserved, start, 0) else Restoring(thread, reserved, start, 0, DirectoryRefused))
    case Renaming(_, _, _, _) => RenameStep(s, t, pc, fault)
    case RollingBack(_, _, _, _, _, _) => RollBackStep(s, t, pc)
    case Restoring(_, reserved, _, _, error) =>
      Goto(s, t, s.store.(pending := Restore(s.store.pending, reserved)), Failed(error))
    case Recording(thread, reserved, _) =>
      if !Lists(listing, s.store.claimed) then s
      else
        Goto(s, t, s.store.(claimed := RecordClaimed(s.store.claimed, thread, reserved, listing)), Succeeded)
        .(gone := s.gone + IdsOf(reserved))
    case Releasing(_, _) => TakeStep(s, t, pc)
    case Removing(id, record) =>
      Goto(s, t, s.store.(files := s.store.files - {PendingFile(id, record.extension)}), Released).(gone := s.gone + {id})
    case _ => s
  }

  ghost function Step(s: System, a: Action): System {
    match a
    case Claiming(t, workspace, thread, ids) =>
      if t in s.threads then s else Goto(s, t, s.store, Entered(workspace, thread, ids))
    case ReleasingOne(t, workspace, id) => if t in s.threads then s else Goto(s, t, s.store, Releasing(workspace, id))
    case Advance(t, fault, listing) => if t in s.threads then AdvanceStep(s, t, s.threads[t], fault, listing) else s
  }

  ghost function Run(store: Store, actions: seq<Action>): System {
    if actions == [] then Start(store) else Step(Run(store, actions[..|actions| - 1]), actions[|actions| - 1])
  }

  // ---------------------------------------------------------------- who holds what

  /** A call holds records as they were staged, each once. */
  ghost predicate HoldsOriginals(staged: map<Id, Record>, pc: Pc) {
    && (Claims(pc) ==>
          && UniqueReserved(pc.reserved) && |pc.reserved| <= MAX_TURN_ATTACHMENTS
          && forall i :: 0 <= i < |pc.reserved| ==>
                           pc.reserved[i].id in staged && pc.reserved[i].record == staged[pc.reserved[i].id])
    && (pc.Removing? ==> pc.id in staged && pc.record == staged[pc.id])
  }

  ghost predicate HeldBySome(threads: map<nat, Pc>, id: Id) {
    exists t :: t in threads && id in HeldIds(threads[t])
  }

  /** Each staged attachment is pending, held by one call, or gone. */
  ghost predicate Accounted(staged: map<Id, Record>, s: System) {
    && (forall id :: id in s.store.pending ==>
                       id in staged && s.store.pending[id] == staged[id] && id !in s.gone && !HeldBySome(s.threads, id))
    && (forall t :: t in s.threads ==> HoldsOriginals(staged, s.threads[t]) && HeldIds(s.threads[t]) !! s.gone)
    && (forall t, u :: t in s.threads && u in s.threads && t != u ==> HeldIds(s.threads[t]) !! HeldIds(s.threads[u]))
    && (forall id :: id in staged ==> id in s.store.pending || id in s.gone || HeldBySome(s.threads, id))
  }

  lemma HeldAfterMove(threads: map<nat, Pc>, t: nat, pc: Pc, id: Id)
    ensures HeldBySome(threads[t := pc], id) <==>
            id in HeldIds(pc) || exists u :: u in threads && u != t && id in HeldIds(threads[u])
  {
    var after := threads[t := pc];
    if id in HeldIds(pc) {
      assert t in after && id in HeldIds(after[t]);
    }
    if u :| u in threads && u != t && id in HeldIds(threads[u]) {
      assert u in after && id in HeldIds(after[u]);
    }
  }

  function HeldAt(threads: map<nat, Pc>, t: nat): set<Id> {
    if t in threads then HeldIds(threads[t]) else {}
  }

  /** A step by which call t takes records out of the pending map, gives them back or is done with them. */
  lemma MoveKeepsAccounts(staged: map<Id, Record>, s: System, t: nat, pc: Pc, next: System)
    requires Accounted(staged, s) && next.threads == s.threads[t := pc] && HoldsOriginals(staged, pc)
    requires forall id :: id in next.store.pending ==> id in staged && next.store.pending[id] == staged[id]
    requires s.gone <= next.gone
    requires next.store.pending.Keys !! HeldIds(pc) && next.store.pending.Keys !! next.gone && HeldIds(pc) !! next.gone
    requires next.store.pending.Keys + HeldIds(pc) + next.gone == s.store.pending.Keys + HeldAt(s.threads, t) + s.gone
    ensures Accounted(staged, next)
  {
    OthersStayApart(staged, s, t, pc, next);
    forall id | id in next.store.pending ensures !HeldBySome(next.threads, id) {
      HeldAfterMove(s.threads, t, pc, id);
    }
    forall id | id in staged && id !in next.store.pending && id !in next.gone ensures HeldBySome(next.threads, id) {
      HeldAfterMove(s.threads, t, pc, id);
      if id !in HeldIds(pc) {
        assert HeldBySome(s.threads, id);
        var u :| u in s.threads && id in HeldIds(s.threads[u]);
      }
    }
  }

  lemma OthersStayApart(staged: map<Id, Record>, s: System, t: nat, pc: Pc, next: System)
    requires Accounted(staged, s)
    requires next.store.pending.Keys + HeldIds(pc) + next.gone == s.store.pending.Keys + HeldAt(s.threads, t) + s.gone
    ensures forall u :: u in s.threads && u != t ==>
                          HeldIds(s.threads[u]) !! next.store.pending.Keys + HeldIds(pc) + next.gone
  {
    forall u | u in s.threads && u != t
      ensures HeldIds(s.threads[u]) !! next.store.pending.Keys + HeldIds(pc) + next.gone
    {
      forall id | id in HeldIds(s.threads[u]) ensures id !in s.store.pending && id !in HeldAt(s.threads, t) && id !in s.gone {
        assert HeldBySome(s.threads, id);
      }
    }
  }

  /** What a reservation takes is exactly what leaves the pending map. */
  lemma ReserveTakes(pending: map<Id, Record>, workspace: nat, ids: seq<Id>)
    requires EnsureIdSet(ids).Ok? && CheckPending(pending, workspace, ids, 0).Ok?
    ensures var reserved := Reserve(pending, ids);
            && UniqueReserved(reserved) && |reserved| <= MAX_TURN_ATTACHMENTS
            && IdsOf(reserved) == (set id | id in ids) && IdsOf(reserved) <= pending.Keys
            && forall i :: 0 <= i < |reserved| ==> reserved[i].id in pending && reserved[i].record == pending[reserved[i].id]
  {
    var reserved := Reserve(pending, ids);
    IdSetAccepted(ids);
    CheckPendingMeans(pending, workspace, ids, 0);
    ReserveAll(pending, ids);
    forall id | id in ids ensures id in IdsOf(reserved) {
      var i :| 0 <= i < |ids| && ids[i] == id;
      assert reserved[i].id == id;
    }
  }

  lemma ReserveKeepsAccounts(staged: map<Id, Record>, s: System, t: nat, pc: Pc, next: System)
    requires Accounted(staged, s) && t in s.threads && s.threads[t] == pc && pc.Entered? && next == ReserveStep(s, t, pc)
    ensures Accounted(staged, next)
  {
    if next.threads[t].Holding? {
      ReserveTakes(s.store.pending, pc.workspace, pc.ids);
      assert s.store.pending.Keys == next.store.pending.Keys + HeldIds(next.threads[t]);
    }
    MoveKeepsAccounts(staged, s, t, next.threads[t], next);
  }

  /** Restoring puts exactly the reserved records in. */
  lemma {:induction false} RestoreGivesBack(pending: map<Id, Record>, reserved: seq<Reserved>)
    requires UniqueReserved(reserved)
    ensures Restore(pending, reserved).Keys == pending.Keys + IdsOf(reserved)
    ensures forall i :: 0 <= i < |reserved| ==> Restore(pending, reserved)[reserved[i].id] == reserved[i].record
    ensures forall id :: id in pending && id !in IdsOf(reserved) ==> Restore(pending, reserved)[id] == pending[id]
  {
    if reserved != [] {
      var before, last := reserved[..|reserved| - 1], reserved[|reserved| - 1];
      RestoreGivesBack(pending, before);
      IdsOfSnoc(before, last);
      assert reserved == before + [last];
    }
  }

  lemma IdsOfSnoc(before: seq<Reserved>, last: Reserved)
    ensures IdsOf(before + [last]) == IdsOf(before) + {last.id}
  {
    assert last in before + [last];
  }

  lemma RestoreKeepsAccounts(staged: map<Id, Record>, s: System, t: nat, pc: Pc, next: System)
    requires Accounted(staged, s) && t in s.threads && s.threads[t] == pc && pc.Restoring?
    requires next == Goto(s, t, s.store.(pending := Restore(s.store.pending, pc.reserved)), Failed(pc.error))
    ensures Accounted(staged, next)
  {
    RestoreGivesBack(s.store.pending, pc.reserved);
    assert HoldsOriginals(staged, pc);
    forall id | id in next.store.pending ensures id in staged && next.store.pending[id] == staged[id] {
      if id in IdsOf(pc.reserved) {
        var i :| 0 <= i < |pc.reserved| && pc.reserved[i].id == id;
      }
    }
    MoveKeepsAccounts(staged, s, t, Failed(pc.error), next);
  }

  /** A step that leaves the records and what its call holds alone. */
  lemma QuietKeepsAccounts(staged: map<Id, Record>, s: System, t: nat, next: System)
    requires Accounted(staged, s) && t in next.threads && next.threads == s.threads[t := next.threads[t]]
    requires next.store.pending == s.store.pending && next.gone == s.gone
    requires HeldIds(next.threads[t]) == HeldAt(s.threads, t) && HoldsOriginals(staged, next.threads[t])
    ensures Accounted(staged, next)
  {
    forall id | id in HeldAt(s.threads, t) ensures id !in s.store.pending {
      assert HeldBySome(s.threads, id);
    }
    MoveKeepsAccounts(staged, s, t, next.threads[t], next);
  }

  /** A call that is done with what it holds. */
  lemma DoneKeepsAccounts(staged: map<Id, Record>, s: System, t: nat, next: System)
    requires Accounted(staged, s) && t in s.threads && t in next.threads && next.threads == s.threads[t := next.threads[t]]
    requires next.store.pending == s.store.pending && next.gone == s.gone + HeldIds(s.threads[t])
    requires HeldIds(next.threads[t]) == {} && HoldsOriginals(staged, next.threads[t])
    ensures Accounted(staged, next)
  {
    forall id | id in HeldIds(s.threads[t]) ensures id !in s.store.pending {
      assert HeldBySome(s.threads, id);
    }
    MoveKeepsAccounts(staged, s, t, next.threads[t], next);
  }

  /** Between reservation and outcome a claim keeps what it holds. */
  lemma ClaimGoesOn(s: System, t: nat, pc: Pc, fault: Fault, listing: seq<Aged>, next: System)
    requires pc.Holding? || pc.Renaming? || pc.RollingBack?
    requires next == AdvanceStep(s, t, pc, fault, listing)
    ensures t in next.threads && next.threads == s.threads[t := next.threads[t]]
    ensures next.store.pending == s.store.pending && next.gone == s.gone
    ensures Claims(next.threads[t]) && next.threads[t].reserved == pc.reserved
  {
  }

  lemma AdvanceKeepsAccounts(staged: map<Id, Record>, s: System, t: nat, pc: Pc, fault: Fault, listing: seq<Aged>, next: System)
    requires Accounted(staged, s) && t in s.threads && s.threads[t] == pc
    requires next == AdvanceStep(s, t, pc, fault, listing) && next != s
    ensures Accounted(staged, next)
  {
    assert HoldsOriginals(staged, pc);
    if pc.Holding? || pc.Renaming? || pc.RollingBack? {
      ClaimGoesOn(s, t, pc, fault, listing, next);
      QuietKeepsAccounts(staged, s, t, next);
    }
    else if pc.Entered? { ReserveKeepsAccounts(staged, s, t, pc, next); }
    else if pc.Restoring? { RestoreKeepsAccounts(staged, s, t, pc, next); }
    else if pc.Releasing? { MoveKeepsAccounts(staged, s, t, next.threads[t], next); }
    else { DoneKeepsAccounts(staged, s, t, next); }
  }

  lemma StepKeepsAccounts(staged: map<Id, Record>, s: System, a: Action, next: System)
    requires Accounted(staged, s) && next == Step(s, a)
    ensures Accounted(staged, next)
  {
    if next != s {
      if a.Advance? {
        AdvanceKeepsAccounts(staged, s, a.call, s.threads[a.call], a.fault, a.listing, next);
      } else {
        QuietKeepsAccounts(staged, s, a.call, next);
      }
    }
  }

  lemma {:induction false} RunKeepsAccounts(store: Store, actions: seq<Action>)
    ensures Accounted(store.pending, Run(store, actions))
  {
    if actions != [] {
      RunKeepsAccounts(store, actions[..|actions| - 1]);
      StepKeepsAccounts(store.pending, Run(store, actions[..|actions| - 1]), actions[|actions| - 1], Run(store, actions));
    }
  }

  // ---------------------------------------------------------------- whose files change

  /** What a call has done to the files of its own attachments. */
  ghost predicate FilesOk(files: Files, pc: Pc) {
    var mine := HeldIds(pc);
    match pc
    case Holding(_, _, start) => Local(files, mine) == start
    case Renaming(thread, reserved, start, moved) =>
      moved <= |reserved| && SourcesIn(start, reserved[..moved]) && Local(files, mine) == MoveAll(start, thread, reserved[..moved])
    case RollingBack(thread, reserved, start, moved, left, _) =>
      && left <= moved <= |reserved|
      && RollBack(Local(files, mine), thread, reserved[..left]) == start - Targets(thread, reserved[..moved])
    case Restoring(thread, reserved, start, moved, _) =>
      moved <= |reserved| && Local(files, mine) == start - Targets(thread, reserved[..moved])
    case Recording(thread, reserved, start) => SourcesIn(start, reserved) && Local(files, mine) == MoveAll(start, thread, reserved)
    case _ => true
  }

  ghost predicate AllFilesOk(s: System) {
    forall t :: t in s.threads ==> FilesOk(s.store.files, s.threads[t])
  }

  lemma LocalRename(files: Files, ids: set<Id>, from: Path, to: Path)
    requires from.id == to.id
    ensures Local(Rename(files, from, to), ids) == if from.id in ids then Rename(Local(files, ids), from, to) else Local(files, ids)
  {
  }

  /** What one call does to its own files leaves those of all others alone. */
  lemma OthersKeepFiles(staged: map<Id, Record>, s: System, t: nat, next: System, own: Id)
    requires Accounted(staged, s) && AllFilesOk(s) && t in s.threads && own in HeldIds(s.threads[t])
    requires t in next.threads && next.threads == s.threads[t := next.threads[t]]
    requires forall ids :: own !in ids ==> Local(next.store.files, ids) == Local(s.store.files, ids)
    requires FilesOk(next.store.files, next.threads[t])
    ensures AllFilesOk(next)
  {
    forall u | u in next.threads ensures FilesOk(next.store.files, next.threads[u]) {
      if u != t {
        assert own !in HeldIds(s.threads[u]);
        assert FilesOk(s.store.files, s.threads[u]);
      }
    }
  }

  lemma RenamedIsOk(files: Files, pc: Pc, r: Reserved)
    requires pc.Renaming? && UniqueReserved(pc.reserved) && FilesOk(files, pc)
    requires pc.moved < |pc.reserved| && r == pc.reserved[pc.moved] && SourceOf(r) in files
    ensures FilesOk(Rename(files, SourceOf(r), TargetOf(pc.thread, r)),
                    Renaming(pc.thread, pc.reserved, pc.start, pc.moved + 1))
  {
    var done, more := pc.reserved[..pc.moved], pc.reserved[..pc.moved + 1];
    assert r.id in IdsOf(pc.reserved);
    assert more[..pc.moved] == done;
    LocalRename(files, IdsOf(pc.reserved), SourceOf(r), TargetOf(pc.thread, r));
    NextSource(pc.start, pc.thread, more);
    assert SourceOf(r) in Local(files, IdsOf(pc.reserved));
  }

  lemma RenameKeepsFiles(staged: map<Id, Record>, s: System, t: nat, pc: Pc, next: System)
    requires Accounted(staged, s) && AllFilesOk(s) && t in s.threads && s.threads[t] == pc && pc.Renaming?
    requires pc.moved < |pc.reserved| && SourceOf(pc.reserved[pc.moved]) in s.store.files
    requires next == RenameStep(s, t, pc, NoFault)
    ensures AllFilesOk(next)
  {
    var r := pc.reserved[pc.moved];
    assert HoldsOriginals(staged, pc) && FilesOk(s.store.files, pc) && r.id in HeldIds(pc);
    forall ids: set<Id> ensures r.id !in ids ==> Local(next.store.files, ids) == Local(s.store.files, ids) {
      LocalRename(s.store.files, ids, SourceOf(r), TargetOf(pc.thread, r));
    }
    RenamedIsOk(s.store.files, pc, r);
    OthersKeepFiles(staged, s, t, next, r.id);
  }

  lemma RollBackKeepsFiles(staged: map<Id, Record>, s: System, t: nat, pc: Pc, next: System)
    requires Accounted(staged, s) && AllFilesOk(s) && t in s.threads && s.threads[t] == pc && pc.RollingBack?
    requires next == RollBackStep(s, t, pc) && pc.left > 0
    ensures AllFilesOk(next)
  {
    assert FilesOk(s.store.files, pc);
    var r := pc.reserved[pc.left - 1];
    assert r.id in HeldIds(pc);
    assert pc.reserved[..pc.left][..pc.left - 1] == pc.reserved[..pc.left - 1];
    forall ids: set<Id> ensures r.id !in ids ==> Local(next.store.files, ids) == Local(s.store.files, ids) {
      LocalRename(s.store.files, ids, TargetOf(pc.thread, r), SourceOf(r));
    }
    LocalRename(s.store.files, HeldIds(pc), TargetOf(pc.thread, r), SourceOf(r));
    OthersKeepFiles(staged, s, t, next, r.id);
  }

  lemma RemoveKeepsFiles(staged: map<Id, Record>, s: System, t: nat, next: System)
    requires Accounted(staged, s) && AllFilesOk(s) && t in s.threads && s.threads[t].Removing?
    requires next.store.files == s.store.files - {PendingFile(s.threads[t].id, s.threads[t].record.extension)}
    requires next.threads == s.threads[t := Released]
    ensures AllFilesOk(next)
  {
    var id := s.threads[t].id;
    forall ids: set<Id> ensures id !in ids ==> Local(next.store.files, ids) == Local(s.store.files, ids) {
    }
    OthersKeepFiles(staged, s, t, next, id);
  }

  /** A step that touches no file. */
  lemma QuietKeepsFiles(s: System, t: nat, next: System)
    requires AllFilesOk(s) && next.store.files == s.store.files
    requires t in next.threads && next.threads == s.threads[t := next.threads[t]]
    requires FilesOk(next.store.files, next.threads[t])
    ensures AllFilesOk(next)
  {
  }

  /** A claim that gives up begins to roll back what it has moved. */
  lemma GivingUpIsOk(staged: map<Id, Record>, files: Files, pc: Pc, error: Error)
    requires HoldsOriginals(staged, pc) && pc.Renaming? && FilesOk(files, pc)
    ensures FilesOk(files, RollingBack(pc.thread, pc.reserved, pc.start, pc.moved, pc.moved, error))
  {
    RollBackUndoesMoves(pc.start, pc.thread, pc.reserved[..pc.moved]);
  }

  /** A claim whose renames are about to begin, or not to. */
  lemma BeginningIsOk(files: Files, pc: Pc, error: Error)
    requires pc.Holding? && FilesOk(files, pc)
    ensures FilesOk(files, Renaming(pc.thread, pc.reserved, pc.start, 0))
    ensures FilesOk(files, Restoring(pc.thread, pc.reserved, pc.start, 0, error))
  {
    assert pc.reserved[..0] == [];
    assert pc.start - Targets(pc.thread, []) == pc.start;
  }

  lemma RolledBackIsOk(files: Files, pc: Pc)
    requires pc.RollingBack? && pc.left == 0 && FilesOk(files, pc)
    ensures FilesOk(files, Restoring(pc.thread, pc.reserved, pc.start, pc.moved, pc.error))
  {
    assert pc.reserved[..0] == [];
  }

  lemma AllRenamedIsOk(files: Files, pc: Pc)
    requires pc.Renaming? && pc.moved == |pc.reserved| && FilesOk(files, pc)
    ensures FilesOk(files, Recording(pc.thread, pc.reserved, pc.start))
  {
    assert pc.reserved[..pc.moved] == pc.reserved;
  }

  lemma RenamingKeepsFiles(staged: map<Id, Record>, s: System, t: nat, pc: Pc, fault: Fault, next: System)
    requires Accounted(staged, s) && AllFilesOk(s) && t in s.threads && s.threads[t] == pc && pc.Renaming?
    requires next == RenameStep(s, t, pc, fault)
    ensures AllFilesOk(next)
  {
    assert HoldsOriginals(staged, pc) && FilesOk(s.store.files, pc);
    if next.threads[t].Renaming? {
      RenameKeepsFiles(staged, s, t, pc, next);
    } else {
      if next.threads[t].Recording? {
        AllRenamedIsOk(s.store.files, pc);
      } else {
        GivingUpIsOk(staged, s.store.files, pc, next.threads[t].error);
      }
      QuietKeepsFiles(s, t, next);
    }
  }

  lemma ReservingIsOk(s: System, t: nat, pc: Pc, next: System)
    requires pc.Entered? && next == ReserveStep(s, t, pc)
    ensures next.store.files == s.store.files
    ensures t in next.threads && next.threads == s.threads[t := next.threads[t]] && FilesOk(s.store.files, next.threads[t])
  {
  }

  lemma TakingIsOk(s: System, t: nat, pc: Pc, next: System)
    requires pc.Releasing? && next == TakeStep(s, t, pc)
    ensures next.store.files == s.store.files
    ensures t in next.threads && next.threads == s.threads[t := next.threads[t]] && FilesOk(s.store.files, next.threads[t])
  {
  }

  /** The steps between the accesses to files. */
  lemma PauseKeepsFiles(s: System, t: nat, pc: Pc, fault: Fault, listing: seq<Aged>, next: System)
    requires AllFilesOk(s) && FilesOk(s.store.files, pc) && next == AdvanceStep(s, t, pc, fault, listing) && next != s
    requires !pc.Renaming? && !pc.Removing? && (pc.RollingBack? ==> pc.left == 0)
    ensures AllFilesOk(next)
  {
    if pc.Holding? {
      BeginningIsOk(s.store.files, pc, DirectoryRefused);
    } else if pc.RollingBack? {
      RolledBackIsOk(s.store.files, pc);
    } else if pc.Entered? {
      ReservingIsOk(s, t, pc, next);
    } else if pc.Releasing? {
      TakingIsOk(s, t, pc, next);
    }
    QuietKeepsFiles(s, t, next);
  }

  lemma AdvanceKeepsFiles(staged: map<Id, Record>, s: System, t: nat, pc: Pc, fault: Fault, listing: seq<Aged>, next: System)
    requires Accounted(staged, s) && AllFilesOk(s) && t in s.threads && s.threads[t] == pc
    requires next == AdvanceStep(s, t, pc, fault, listing) && next != s
    ensures AllFilesOk(next)
  {
    assert FilesOk(s.store.files, pc);
    if pc.RollingBack? && pc.left > 0 {
      RollBackKeepsFiles(staged, s, t, pc, next);
    } else if pc.Renaming? {
      RenamingKeepsFiles(staged, s, t, pc, fault, next);
    } else if pc.Removing? {
      RemoveKeepsFiles(staged, s, t, next);
    } else {
      PauseKeepsFiles(s, t, pc, fault, listing, next);
    }
  }

  lemma {:induction false} RunKeepsFiles(store: Store, actions: seq<Action>)
    ensures AllFilesOk(Run(store, actions))
  {
    if actions != [] {
      var before, a := actions[..|actions| - 1], actions[|actions| - 1];
      var s, next := Run(store, before), Run(store, actions);
      RunKeepsFiles(store, before);
      RunKeepsAccounts(store, before);
      if next != s {
        if a.Advance? {
          AdvanceKeepsFiles(store.pending, s, a.call, s.threads[a.call], a.fault, a.listing, next);
        } else {
          QuietKeepsFiles(s, a.call, next);
        }
      }
    }
  }

  // ---------------------------------------------------------------- main results

  /** However claims and releases overlap, no attachment is in the hands of two of them. */
  lemma NoAttachmentIsTakenTwice(store: Store, actions: seq<Action>, t: nat, u: nat)
    requires t in Run(store, actions).threads && u in Run(store, actions).threads && t != u
    ensures HeldIds(Run(store, actions).threads[t]) !! HeldIds(Run(store, actions).threads[u])
    ensures HeldIds(Run(store, actions).threads[t]) !! Run(store, actions).store.pending.Keys
  {
    RunKeepsAccounts(store, actions);
    var s := Run(store, actions);
    forall id | id in HeldIds(s.threads[t]) ensures id !in s.store.pending {
      assert HeldBySome(s.threads, id);
    }
  }

  /** No record is lost or made up: each is pending as it was staged, held as it was staged, or gone. */
  lemma EveryAttachmentIsAccountedFor(store: Store, actions: seq<Action>, id: Id)
    requires id in store.pending
    ensures var s := Run(store, actions);
            && (id in s.store.pending ==> s.store.pending[id] == store.pending[id])
            && (if id in s.store.pending then id !in s.gone && !HeldBySome(s.threads, id)
                else HeldBySome(s.threads, id) <==> id !in s.gone)
  {
    RunKeepsAccounts(store, actions);
    var s := Run(store, actions);
    if HeldBySome(s.threads, id) {
      var t :| t in s.threads && id in HeldIds(s.threads[t]);
    }
  }

  /**
   * A claim works as if it were alone.  When it records, each of its files is where the claim was to
   * bring it, with the contents it had at the reservation; when it gives up, the files of its
   * attachments are those of the reservation, but for targets it had overwritten.
   */
  lemma ClaimsAreIsolated(store: Store, actions: seq<Action>, t: nat)
    requires t in Run(store, actions).threads
    ensures var s := Run(store, actions);
            var pc := s.threads[t];
            && (pc.Recording? ==>
                  forall i :: 0 <= i < |pc.reserved| ==>
                                && SourceOf(pc.reserved[i]) in pc.start && SourceOf(pc.reserved[i]) !in s.store.files
                                && TargetOf(pc.thread, pc.reserved[i]) in s.store.files
                                && s.store.files[TargetOf(pc.thread, pc.reserved[i])] == pc.start[SourceOf(pc.reserved[i])])
            && (pc.Restoring? ==>
                  && pc.moved <= |pc.reserved|
                  && Local(s.store.files, IdsOf(pc.reserved)) == pc.start - Targets(pc.thread, pc.reserved[..pc.moved]))
  {
    RunKeepsAccounts(store, actions);
    RunKeepsFiles(store, actions);
    var s := Run(store, actions);
    var pc := s.threads[t];
    assert HoldsOriginals(store.pending, pc) && FilesOk(s.store.files, pc);
    if pc.Recording? {
      forall i | 0 <= i < |pc.reserved|
        ensures SourceOf(pc.reserved[i]) in pc.start && SourceOf(pc.reserved[i]) !in s.store.files
        ensures TargetOf(pc.thread, pc.reserved[i]) in s.store.files
        ensures s.store.files[TargetOf(pc.thread, pc.reserved[i])] == pc.start[SourceOf(pc.reserved[i])]
      {
        MovedFile(pc, s.store.files, i);
      }
    }
  }

  lemma MovedFile(pc: Pc, files: Files, i: nat)
    requires pc.Recording? && UniqueReserved(pc.reserved) && FilesOk(files, pc) && i < |pc.reserved|
    ensures SourceOf(pc.reserved[i]) in pc.start && SourceOf(pc.reserved[i]) !in files
    ensures TargetOf(pc.thread, pc.reserved[i]) in files
    ensures files[TargetOf(pc.thread, pc.reserved[i])] == pc.start[SourceOf(pc.reserved[i])]
  {
    var r := pc.reserved[i];
    assert r.id in HeldIds(pc);
    MovesRelocate(pc.start, pc.thread, pc.reserved, i);
    assert TargetOf(pc.thread, r) in Local(files, HeldIds(pc)) && SourceOf(r) !in Local(files, HeldIds(pc));
  }

  /** What `start` remembers: the files of the attachments at the very step that reserved them. */
  lemma StartIsReservation(s: System, t: nat, fault: Fault, listing: seq<Aged>, next: System)
    requires t in s.threads && next == Step(s, Advance(t, fault, listing))
    requires t in next.threads && Claims(next.threads[t])
    ensures if s.threads[t].Entered? then next.threads[t].start == Local(s.store.files, HeldIds(next.threads[t]))
            else Claims(s.threads[t]) && next.threads[t].start == s.threads[t].start
                 && next.threads[t].reserved == s.threads[t].reserved
  {
  }

  /** The claimed map keeps to its bound whatever overlaps. */
  lemma {:induction false} ClaimedKeepsItsBound(store: Store, actions: seq<Action>)
    requires |store.claimed| <= 512
    ensures |Run(store, actions).store.claimed| <= 512
  {
    if actions != [] {
      var before, a := actions[..|actions| - 1], actions[|actions| - 1];
      var s := Run(store, before);
      ClaimedKeepsItsBound(store, before);
      RunKeepsAccounts(store, before);
      if a.Advance? && a.call in s.threads && s.threads[a.call].Recording? && Lists(a.listing, s.store.claimed) {
        var pc := s.threads[a.call];
        assert HoldsOriginals(store.pending, pc);
        ClaimedStaysBounded(s.store.claimed, pc.thread, pc.reserved, a.listing);
      }
    }
  }

  // ---------------------------------------------------------------- a call that is not interrupted

  /** What one access meets, when these are the faults of the whole claim. */
  ghost function FaultAt(pc: Pc, faults: Faults): Fault {
    if pc.Holding? then (if faults.directory then Refused else NoFault)
    else if pc.Renaming? && pc.moved < |pc.reserved| then
      if TargetOf(pc.thread, pc.reserved[pc.moved]) in faults.badPaths then BadTarget
      else if SourceOf(pc.reserved[pc.moved]) in faults.refused then Refused
      else NoFault
    else NoFault
  }

  /** Call t goes on, and no other does. */
  ghost function Going(t: nat, faults: Faults, listing: seq<Aged>): System -> System {
    (s: System) => if t in s.threads then AdvanceStep(s, t, s.threads[t], FaultAt(s.threads[t], faults), listing) else s
  }

  ghost function Repeated<T>(f: T -> T, x: T, n: nat): T {
    if n == 0 then x else Repeated(f, f(x), n - 1)
  }

  lemma {:induction false} RepeatedMore<T>(f: T -> T, x: T, n: nat, m: nat)
    ensures Repeated(f, Repeated(f, x, n), m) == Repeated(f, x, n + m)
  {
    if n > 0 {
      RepeatedMore(f, f(x), n - 1, m);
    }
  }

  /** How f goes on with renaming: one file further, or back from an obstacle. */
  ghost predicate Renames(f: System -> System, t: nat, faults: Faults) {
    forall s: System :: RenamesFrom(s, t, faults, f(s))
  }

  ghost predicate RenamesFrom(s: System, t: nat, faults: Faults, next: System) {
    t in s.threads && s.threads[t].Renaming? && s.threads[t].moved < |s.threads[t].reserved| ==>
      t in next.threads && RenamedOne(s.store, s.threads[t], faults, next.store, next.threads[t])
  }

  predicate RenamedOne(store: Store, pc: Pc, faults: Faults, next: Store, to: Pc)
    requires pc.Renaming? && pc.moved < |pc.reserved|
  {
    var r := pc.reserved[pc.moved];
    match Obstacle(store.files, pc.thread, r, faults)
    case None =>
      && next == store.(files := Rename(store.files, SourceOf(r), TargetOf(pc.thread, r)))
      && to == Renaming(pc.thread, pc.reserved, pc.start, pc.moved + 1)
    case Some(error) =>
      next == store && to == RollingBack(pc.thread, pc.reserved, pc.start, pc.moved, pc.moved, error)
  }

  /** How f rolls back: one file, or nothing is left to put back. */
  ghost predicate RollsBack(f: System -> System, t: nat) {
    forall s: System :: RollsBackFrom(s, t, f(s))
  }

  ghost predicate RollsBackFrom(s: System, t: nat, next: System) {
    t in s.threads && s.threads[t].RollingBack? && s.threads[t].left <= |s.threads[t].reserved| ==>
      t in next.threads && RolledBackOne(s.store, s.threads[t], next.store, next.threads[t])
  }

  predicate RolledBackOne(store: Store, pc: Pc, next: Store, to: Pc)
    requires pc.RollingBack? && pc.left <= |pc.reserved|
  {
    if pc.left == 0 then next == store && to == Restoring(pc.thread, pc.reserved, pc.start, pc.moved, pc.error)
    else
      var r := pc.reserved[pc.left - 1];
      && next == store.(files := Rename(store.files, TargetOf(pc.thread, r), SourceOf(r)))
      && to == RollingBack(pc.thread, pc.reserved, pc.start, pc.moved, pc.left - 1, pc.error)
  }

  /** How f ends a claim whose files are where they belong. */
  ghost predicate Finishes(f: System -> System, t: nat, listing: seq<Aged>) {
    forall s: System :: FinishesFrom(s, t, listing, f(s))
  }

  ghost predicate FinishesFrom(s: System, t: nat, listing: seq<Aged>, next: System) {
    t in s.threads ==> t in next.threads && FinishedOne(s.store, s.threads[t], listing, next.store, next.threads[t])
  }

  ghost predicate FinishedOne(store: Store, pc: Pc, listing: seq<Aged>, next: Store, to: Pc) {
    && (pc.Renaming? && pc.moved >= |pc.reserved| ==> next == store && to == Recording(pc.thread, pc.reserved, pc.start))
    && (pc.Restoring? ==> next == store.(pending := Restore(store.pending, pc.reserved)) && to == Failed(pc.error))
    && (pc.Recording? && Lists(listing, store.claimed) ==>
          next == store.(claimed := RecordClaimed(store.claimed, pc.thread, pc.reserved, listing)) && to == Succeeded)
  }

  lemma GoingRenames(t: nat, faults: Faults, listing: seq<Aged>)
    ensures Renames(Going(t, faults, listing), t, faults)
  {
  }

  lemma GoingRollsBack(t: nat, faults: Faults, listing: seq<Aged>)
    ensures RollsBack(Going(t, faults, listing), t)
  {
  }

  lemma GoingFinishes(t: nat, faults: Faults, listing: seq<Aged>)
    ensures Finishes(Going(t, faults, listing), t, listing)
  {
  }

  /** Left alone, a claim renames up to the first reservation with an obstacle. */
  lemma {:induction false} RenamesAlone(f: System -> System, s: System, t: nat, pc: Pc, faults: Faults, files: Files, last: nat)
    returns (n: nat)
    requires t in s.threads && s.threads[t] == pc && pc.Renaming? && pc.moved <= last <= |pc.reserved| && Renames(f, t, faults)
    requires forall k :: pc.moved <= k < last ==>
                           Obstacle(MoveAll(files, pc.thread, pc.reserved[..k]), pc.thread, pc.reserved[k], faults).None?
    requires s.store.files == MoveAll(files, pc.thread, pc.reserved[..pc.moved])
    ensures var next := Repeated(f, s, n);
            && next.store == s.store.(files := MoveAll(files, pc.thread, pc.reserved[..last]))
            && t in next.threads && next.threads[t] == Renaming(pc.thread, pc.reserved, pc.start, last)
    decreases last - pc.moved
  {
    if pc.moved == last {
      n := 0;
    } else {
      assert pc.reserved[..pc.moved + 1][..pc.moved] == pc.reserved[..pc.moved];
      assert RenamesFrom(s, t, faults, f(s));
      n := RenamesAlone(f, f(s), t, Renaming(pc.thread, pc.reserved, pc.start, pc.moved + 1), faults, files, last);
      n := n + 1;
    }
  }

  /** Left alone, a claim that gives up puts back what it has moved, last first. */
  lemma {:induction false} RollBackAlone(f: System -> System, s: System, t: nat, pc: Pc) returns (n: nat)
    requires t in s.threads && s.threads[t] == pc && pc.RollingBack? && pc.left <= |pc.reserved| && RollsBack(f, t)
    ensures var next := Repeated(f, s, n);
            && next.store == s.store.(files := RollBack(s.store.files, pc.thread, pc.reserved[..pc.left]))
            && t in next.threads && next.threads[t] == Restoring(pc.thread, pc.reserved, pc.start, pc.moved, pc.error)
    decreases pc.left
  {
    assert RollsBackFrom(s, t, f(s));
    if pc.left == 0 {
      assert Repeated(f, s, 1) == f(s);
      n := 1;
    } else {
      assert pc.reserved[..pc.left][..pc.left - 1] == pc.reserved[..pc.left - 1];
      n := RollBackAlone(f, f(s), t, RollingBack(pc.thread, pc.reserved, pc.start, pc.moved, pc.left - 1, pc.error));
      n := n + 1;
    }
  }

  /** The next reservation has an obstacle: everything is put back. */
  lemma GivesUpAlone(f: System -> System, s: System, t: nat, pc: Pc, faults: Faults, listing: seq<Aged>) returns (n: nat)
    requires t in s.threads && s.threads[t] == pc && pc.Renaming? && pc.moved < |pc.reserved|
    requires Renames(f, t, faults) && RollsBack(f, t) && Finishes(f, t, listing)
    requires Obstacle(s.store.files, pc.thread, pc.reserved[pc.moved], faults).Some?
    ensures var next := Repeated(f, s, n);
            && next.store == s.store.(files := RollBack(s.store.files, pc.thread, pc.reserved[..pc.moved]),
                                      pending := Restore(s.store.pending, pc.reserved))
            && t in next.threads
            && next.threads[t] == Failed(Obstacle(s.store.files, pc.thread, pc.reserved[pc.moved], faults).value)
  {
    assert RenamesFrom(s, t, faults, f(s));
    n := RollBackAlone(f, f(s), t, f(s).threads[t]);
    var back := Repeated(f, f(s), n);
    assert FinishesFrom(back, t, listing, f(back));
    assert Repeated(f, back, 1) == f(back);
    RepeatedMore(f, f(s), n, 1);
    n := n + 2;
  }

  /** Everything has been renamed: the claim is recorded. */
  lemma RecordsAlone(f: System -> System, s: System, t: nat, pc: Pc, listing: seq<Aged>)
    requires t in s.threads && s.threads[t] == pc && pc.Renaming? && pc.moved == |pc.reserved|
    requires Lists(listing, s.store.claimed) && Finishes(f, t, listing)
    ensures var next := Repeated(f, s, 2);
            && next.store == s.store.(claimed := RecordClaimed(s.store.claimed, pc.thread, pc.reserved, listing))
            && t in next.threads && next.threads[t] == Succeeded
  {
    assert FinishesFrom(s, t, listing, f(s)) && FinishesFrom(f(s), t, listing, f(f(s)));
    assert Repeated(f, s, 2) == f(f(s));
  }

  /** The claim after its renames: recorded, or put back. */
  ghost predicate Ends(store: Store, thread: Thread, reserved: seq<Reserved>, faults: Faults, listing: seq<Aged>, next: Store, to: Pc) {
    var (files, renamed) := RenameReserved(store.files, thread, reserved, faults);
    if renamed.Ok? then
      && next == store.(files := files, claimed := RecordClaimed(store.claimed, thread, reserved, listing))
      && to == Succeeded
    else next == store.(files := files, pending := Restore(store.pending, reserved)) && to == Failed(renamed.error)
  }

  lemma NoObstacleBefore(files: Files, thread: Thread, reserved: seq<Reserved>, faults: Faults, last: nat)
    requires UniqueReserved(reserved) && last == FirstObstacle(files, thread, reserved, faults, 0)
    ensures forall k :: 0 <= k < last ==> Obstacle(MoveAll(files, thread, reserved[..k]), thread, reserved[k], faults).None?
    ensures last < |reserved| ==> Obstacle(MoveAll(files, thread, reserved[..last]), thread, reserved[last], faults).Some?
  {
    FirstObstacleIsFirst(files, thread, reserved, faults, 0);
    forall k | 0 <= k < last ensures Obstacle(MoveAll(files, thread, reserved[..k]), thread, reserved[k], faults).None? {
      ObstacleUnchanged(files, thread, reserved, faults, k);
    }
    if last < |reserved| {
      ObstacleUnchanged(files, thread, reserved, faults, last);
    }
  }

  lemma RenamingEndsAlone(f: System -> System, s: System, t: nat, pc: Pc, faults: Faults, listing: seq<Aged>) returns (n: nat)
    requires t in s.threads && s.threads[t] == pc && pc.Renaming? && pc.moved == 0 && UniqueReserved(pc.reserved)
    requires Renames(f, t, faults) && RollsBack(f, t) && Finishes(f, t, listing) && Lists(listing, s.store.claimed)
    ensures var next := Repeated(f, s, n);
            t in next.threads && Ends(s.store, pc.thread, pc.reserved, faults, listing, next.store, next.threads[t])
  {
    var files, last := s.store.files, FirstObstacle(s.store.files, pc.thread, pc.reserved, faults, 0);
    NoObstacleBefore(files, pc.thread, pc.reserved, faults, last);
    assert pc.reserved[..0] == [];
    n := RenamesAlone(f, s, t, pc, faults, files, last);
    var moved, at := Repeated(f, s, n), Renaming(pc.thread, pc.reserved, pc.start, last);
    var m := 2;
    if last == |pc.reserved| {
      RecordsAlone(f, moved, t, at, listing);
    } else {
      m := GivesUpAlone(f, moved, t, at, faults, listing);
    }
    RepeatedMore(f, s, n, m);
    n := n + m;
  }

  /** The first two steps of a claim: refused for its ids or their records, or holding what it reserved. */
  lemma ClaimBegins(s: System, t: nat, pc: Pc, faults: Faults, listing: seq<Aged>, next: System)
    requires t in s.threads && s.threads[t] == pc && next == Going(t, faults, listing)(s)
    ensures t in next.threads
    ensures pc.Entered? ==>
              var checked, available := EnsureIdSet(pc.ids), CheckPending(s.store.pending, pc.workspace, pc.ids, 0);
              && (checked.Err? ==> next.store == s.store && next.threads[t] == Failed(checked.error))
              && (checked.Ok? && available.Err? ==> next.store == s.store && next.threads[t] == Failed(available.error))
              && (checked.Ok? && available.Ok? ==>
                    && next.store == s.store.(pending := Without(s.store.pending, pc.ids)) && next.threads[t].Holding?
                    && next.threads[t].thread == pc.thread && next.threads[t].reserved == Reserve(s.store.pending, pc.ids))
    ensures pc.Holding? ==>
              && next.store == s.store
              && next.threads[t] == if faults.directory then Restoring(pc.thread, pc.reserved, pc.start, 0, DirectoryRefused)
                                    else Renaming(pc.thread, pc.reserved, pc.start, 0)
  {
  }

  /** What the whole claim does, and where it leaves the call. */
  ghost predicate Done(store: Store, workspace: nat, thread: Thread, ids: seq<Id>, faults: Faults, listing: seq<Aged>, next: Store, to: Pc) {
    var (after, result) := Claim(store, workspace, thread, ids, faults, listing);
    next == after && to == if result.Ok? then Succeeded else Failed(result.error)
  }

  /** From the reservation on, the claim is the rest of the whole claim. */
  lemma HeldIsDone(store: Store, workspace: nat, thread: Thread, ids: seq<Id>, faults: Faults, listing: seq<Aged>, next: Store, to: Pc)
    requires EnsureIdSet(ids).Ok? && CheckPending(store.pending, workspace, ids, 0).Ok?
    requires var held, reserved := store.(pending := Without(store.pending, ids)), Reserve(store.pending, ids);
             if faults.directory then next == held.(pending := Restore(held.pending, reserved)) && to == Failed(DirectoryRefused)
             else Ends(held, thread, reserved, faults, listing, next, to)
    ensures Done(store, workspace, thread, ids, faults, listing, next, to)
  {
  }

  lemma HoldingEndsAlone(s: System, t: nat, pc: Pc, faults: Faults, listing: seq<Aged>) returns (n: nat)
    requires t in s.threads && s.threads[t] == pc && pc.Holding? && UniqueReserved(pc.reserved) && Lists(listing, s.store.claimed)
    ensures var next := Repeated(Going(t, faults, listing), s, n);
            && t in next.threads
            && if faults.directory then
                 next.store == s.store.(pending := Restore(s.store.pending, pc.reserved)) && next.threads[t] == Failed(DirectoryRefused)
               else Ends(s.store, pc.thread, pc.reserved, faults, listing, next.store, next.threads[t])
  {
    var f := Going(t, faults, listing);
    ClaimBegins(s, t, pc, faults, listing, f(s));
    if faults.directory {
      GoingFinishes(t, faults, listing);
      assert FinishesFrom(f(s), t, listing, f(f(s)));
      assert Repeated(f, s, 2) == f(f(s));
      n := 2;
    } else {
      GoingRenames(t, faults, listing);
      GoingRollsBack(t, faults, listing);
      GoingFinishes(t, faults, listing);
      n := RenamingEndsAlone(f, f(s), t, f(s).threads[t], faults, listing);
      n := n + 1;
    }
  }

  /** A claim refused for its ids or their records ends at once. */
  lemma RefusedEndsAlone(s: System, t: nat, pc: Pc, faults: Faults, listing: seq<Aged>)
    requires t in s.threads && s.threads[t] == pc && pc.Entered?
    requires EnsureIdSet(pc.ids).Err? || CheckPending(s.store.pending, pc.workspace, pc.ids, 0).Err?
    ensures var next := Repeated(Going(t, faults, listing), s, 1);
            t in next.threads && Done(s.store, pc.workspace, pc.thread, pc.ids, faults, listing, next.store, next.threads[t])
  {
    var f := Going(t, faults, listing);
    ClaimBegins(s, t, pc, faults, listing, f(s));
    assert Repeated(f, s, 1) == f(s);
  }

  lemma AcceptedEndsAlone(s: System, t: nat, pc: Pc, faults: Faults, listing: seq<Aged>, held: System) returns (n: nat)
    requires t in s.threads && s.threads[t] == pc && pc.Entered? && held == Going(t, faults, listing)(s)
    requires EnsureIdSet(pc.ids).Ok? && CheckPending(s.store.pending, pc.workspace, pc.ids, 0).Ok? && Lists(listing, s.store.claimed)
    ensures var next := Repeated(Going(t, faults, listing), held, n);
            t in next.threads && Done(s.store, pc.workspace, pc.thread, pc.ids, faults, listing, next.store, next.threads[t])
  {
    ClaimBegins(s, t, pc, faults, listing, held);
    ReservedForRenames(s.store, pc.workspace, pc.ids);
    n := HoldingEndsAlone(held, t, held.threads[t], faults, listing);
    var next := Repeated(Going(t, faults, listing), held, n);
    HeldIsDone(s.store, pc.workspace, pc.thread, pc.ids, faults, listing, next.store, next.threads[t]);
  }

  /**
   * Step by step and uninterrupted, a claim does exactly what the claim as a whole does, whatever
   * other calls have come to before it.
   */
  lemma UninterruptedClaimIsClaim(s: System, t: nat, workspace: nat, thread: Thread, ids: seq<Id>, faults: Faults, listing: seq<Aged>)
    returns (n: nat)
    requires t in s.threads && s.threads[t] == Entered(workspace, thread, ids) && Lists(listing, s.store.claimed)
    ensures var next := Repeated(Going(t, faults, listing), s, n);
            t in next.threads && Done(s.store, workspace, thread, ids, faults, listing, next.store, next.threads[t])
  {
    if EnsureIdSet(ids).Ok? && CheckPending(s.store.pending, workspace, ids, 0).Ok? {
      n := AcceptedEndsAlone(s, t, s.threads[t], faults, listing, Going(t, faults, listing)(s));
      n := n + 1;
    } else {
      RefusedEndsAlone(s, t, s.threads[t], faults, listing);
      n := 1;
    }
  }

  /** A release: of another workspace's it is refused, of nothing pending it does nothing, else the record goes first and then the file. */
  lemma ReleaseGoesOn(s: System, t: nat, pc: Pc, fault: Fault, listing: seq<Aged>, next: System)
    requires t in s.threads && s.threads[t] == pc && next == Step(s, Advance(t, fault, listing))
    ensures t in next.threads
    ensures pc.Releasing? ==>
              && (!ValidId(pc.id) ==> next.store == s.store && next.threads[t] == Failed(BadId))
              && (ValidId(pc.id) && pc.id !in s.store.pending ==> next.store == s.store && next.threads[t] == Released)
              && (ValidId(pc.id) && pc.id in s.store.pending ==>
                    if s.store.pending[pc.id].workspace == pc.workspace then
                      && next.store == s.store.(pending := s.store.pending - {pc.id})
                      && next.threads[t] == Removing(pc.id, s.store.pending[pc.id])
                    else next.store == s.store && next.threads[t] == Failed(WrongWorkspace))
    ensures pc.Removing? ==>
              && next.store == s.store.(files := s.store.files - {PendingFile(pc.id, pc.record.extension)})
              && next.threads[t] == Released && next.gone == s.gone + {pc.id}
  {
  }
}
