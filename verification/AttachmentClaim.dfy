/**
 * Claiming staged attachments for a thread: the records leave the pending map, the files are
 * renamed into the thread's directory, and the records enter the bounded claimed map.  A failure
 * on the way puts everything back.
 */
module AttachmentClaim {
  import opened Wrappers
  import opened Sorting

  const MAX_TURN_ATTACHMENTS: nat := 8
  const MAX_CLAIMED: nat := 512
  const ID_LENGTH: nat := 32

  datatype Id = Id(text: string)

  datatype Thread = Thread(text: string)

  datatype Path = PendingFile(id: Id, extension: string) | ThreadFile(thread: Thread, id: Id, extension: string)

  datatype Record = Record(workspace: nat, thread: Option<Thread>, extension: string, sequence: nat, details: nat)

  datatype Reserved = Reserved(id: Id, record: Record)

  datatype Claimed = Claimed(id: Id, stored: Path)

  type Files = map<Path, nat>

  datatype Store = Store(pending: map<Id, Record>, claimed: map<Id, Record>, files: Files)

  datatype Error =
    | TooMany | BadId | Duplicate | Unavailable | WrongWorkspace | DirectoryRefused | BadPath | RenameRefused

  /** What the system refuses during one claim. */
  datatype Faults = Faults(directory: bool, badPaths: set<Path>, refused: set<Path>)

  // ---------------------------------------------------------------- checks and reservation

  predicate ValidId(id: Id) {
    && |id.text| == ID_LENGTH
    && forall i :: 0 <= i < |id.text| ==> '0' <= id.text[i] <= '9' || 'a' <= id.text[i] <= 'f'
  }

  predicate Unique(ids: seq<Id>) {
    forall i, j :: 0 <= i < j < |ids| ==> ids[i] != ids[j]
  }

  /** The first refusal among the identifiers from index i on. */
  function CheckIds(ids: seq<Id>, i: nat): Result<(), Error>
    requires i <= |ids|
    decreases |ids| - i
  {
    if i == |ids| then Ok(())
    else if !ValidId(ids[i]) then Err(BadId)
    else if ids[i] in ids[..i] then Err(Duplicate)
    else CheckIds(ids, i + 1)
  }

  function EnsureIdSet(ids: seq<Id>): Result<(), Error> {
    if |ids| > MAX_TURN_ATTACHMENTS then Err(TooMany) else CheckIds(ids, 0)
  }

  function CheckPending(pending: map<Id, Record>, workspace: nat, ids: seq<Id>, i: nat): Result<(), Error>
    requires i <= |ids|
    decreases |ids| - i
  {
    if i == |ids| then Ok(())
    else if ids[i] !in pending then Err(Unavailable)
    else if pending[ids[i]].workspace != workspace then Err(WrongWorkspace)
    else CheckPending(pending, workspace, ids, i + 1)
  }

  ghost predicate AllPending(pending: map<Id, Record>, ids: seq<Id>) {
    forall i :: 0 <= i < |ids| ==> ids[i] in pending
  }

  function Reserve(pending: map<Id, Record>, ids: seq<Id>): seq<Reserved> {
    if ids == [] then []
    else
      var last := ids[|ids| - 1];
      var rest := Reserve(pending, ids[..|ids| - 1]);
      if last in pending then rest + [Reserved(last, pending[last])] else rest
  }

  function Without(pending: map<Id, Record>, ids: seq<Id>): map<Id, Record> {
    map id | id in pending && id !in ids :: pending[id]
  }

  function Restore(pending: map<Id, Record>, reserved: seq<Reserved>): map<Id, Record> {
    if reserved == [] then pending
    else
      var last := reserved[|reserved| - 1];
      Restore(pending, reserved[..|reserved| - 1])[last.id := last.record]
  }

  // ---------------------------------------------------------------- renames

  function SourceOf(r: Reserved): Path { PendingFile(r.id, r.record.extension) }

  function TargetOf(thread: Thread, r: Reserved): Path { ThreadFile(thread, r.id, r.record.extension) }

  function Rename(files: Files, from: Path, to: Path): Files {
    if from in files then (files - {from})[to := files[from]] else files
  }

  /** The files after renaming all of these into the thread. */
  function MoveAll(files: Files, thread: Thread, moved: seq<Reserved>): Files {
    if moved == [] then files
    else
      var last := moved[|moved| - 1];
      Rename(MoveAll(files, thread, moved[..|moved| - 1]), SourceOf(last), TargetOf(thread, last))
  }

  /** Renames back, last one first; a rename that finds nothing is ignored. */
  function RollBack(files: Files, thread: Thread, moved: seq<Reserved>): Files
    decreases |moved|
  {
    if moved == [] then files
    else
      var last := moved[|moved| - 1];
      RollBack(Rename(files, TargetOf(thread, last), SourceOf(last)), thread, moved[..|moved| - 1])
  }

  /** Why the rename of r cannot be done on these files, if so. */
  function Obstacle(files: Files, thread: Thread, r: Reserved, faults: Faults): Option<Error> {
    if TargetOf(thread, r) in faults.badPaths then Some(BadPath)
    else if SourceOf(r) !in files then Some(Unavailable)
    else if SourceOf(r) in faults.refused then Some(RenameRefused)
    else None
  }

  /** The first reservation that cannot be renamed once all before it have been. */
  function FirstObstacle(files: Files, thread: Thread, reserved: seq<Reserved>, faults: Faults, i: nat): (r: nat)
    requires i <= |reserved|
    ensures i <= r <= |reserved|
    decreases |reserved| - i
  {
    if i == |reserved| || Obstacle(MoveAll(files, thread, reserved[..i]), thread, reserved[i], faults).Some? then i
    else FirstObstacle(files, thread, reserved, faults, i + 1)
  }

  function ClaimedOf(thread: Thread, reserved: seq<Reserved>): seq<Claimed> {
    seq(|reserved|, i requires 0 <= i < |reserved| => Claimed(reserved[i].id, TargetOf(thread, reserved[i])))
  }

  function RenameReserved(files: Files, thread: Thread, reserved: seq<Reserved>, faults: Faults): (Files, Result<seq<Claimed>, Error>) {
    var n := FirstObstacle(files, thread, reserved, faults, 0);
    var moved := MoveAll(files, thread, reserved[..n]);
    if n == |reserved| then (moved, Ok(ClaimedOf(thread, reserved)))
    else
      var obstacle := Obstacle(moved, thread, reserved[n], faults);
      (RollBack(moved, thread, reserved[..n]), Err(if obstacle.Some? then obstacle.value else Unavailable))
  }

  // ---------------------------------------------------------------- the claimed map

  datatype Aged = Aged(id: Id, sequence: nat)

  /** By sequence, then by identifier. */
  predicate Older(a: Aged, b: Aged) {
    a.sequence < b.sequence || (a.sequence == b.sequence && TextLeq(a.id.text, b.id.text))
  }

  /** `listing` is the order in which the hash map was traversed. */
  ghost predicate Lists(listing: seq<Aged>, claimed: map<Id, Record>) {
    && (forall i :: 0 <= i < |listing| ==> listing[i].id in claimed && claimed[listing[i].id].sequence == listing[i].sequence)
    && (forall id :: id in claimed ==> Aged(id, claimed[id].sequence) in listing)
    && DistinctIds(listing)
  }

  ghost predicate DistinctIds(listing: seq<Aged>) {
    forall i, j :: 0 <= i < j < |listing| ==> listing[i].id != listing[j].id
  }

  function Excess(claimed: map<Id, Record>, room: nat): nat {
    if |claimed| + room > MAX_CLAIMED then |claimed| + room - MAX_CLAIMED else 0
  }

  function First(ordered: seq<Aged>, n: nat): seq<Aged> {
    if n <= |ordered| then ordered[..n] else ordered
  }

  function Drop(claimed: map<Id, Record>, dropped: seq<Aged>): map<Id, Record> {
    if dropped == [] then claimed
    else Drop(claimed, dropped[..|dropped| - 1]) - {dropped[|dropped| - 1].id}
  }

  function EvictOldest(claimed: map<Id, Record>, room: nat, listing: seq<Aged>): map<Id, Record> {
    Drop(claimed, First(Sort(listing, Older), Excess(claimed, room)))
  }

  function Enter(claimed: map<Id, Record>, thread: Thread, reserved: seq<Reserved>): map<Id, Record> {
    if reserved == [] then claimed
    else
      var last := reserved[|reserved| - 1];
      Enter(claimed, thread, reserved[..|reserved| - 1])[last.id := last.record.(thread := Some(thread))]
  }

  function RecordClaimed(claimed: map<Id, Record>, thread: Thread, reserved: seq<Reserved>, listing: seq<Aged>): map<Id, Record> {
    Enter(if |claimed| + |reserved| > MAX_CLAIMED then EvictOldest(claimed, |reserved|, listing) else claimed, thread, reserved)
  }

  // ---------------------------------------------------------------- claim

  function Claim(s: Store, workspace: nat, thread: Thread, ids: seq<Id>, faults: Faults, listing: seq<Aged>)
    : (Store, Result<seq<Claimed>, Error>)
  {
    var checked := EnsureIdSet(ids);
    if checked.Err? then (s, Err(checked.error))
    else
      var available := CheckPending(s.pending, workspace, ids, 0);
      if available.Err? then (s, Err(available.error))
      else
        var reserved := Reserve(s.pending, ids);
        var pending := Without(s.pending, ids);
        if faults.directory then (s.(pending := Restore(pending, reserved)), Err(DirectoryRefused))
        else
          var (files, claimed) := RenameReserved(s.files, thread, reserved, faults);
          if claimed.Err? then (s.(pending := Restore(pending, reserved), files := files), Err(claimed.error))
          else (Store(pending, RecordClaimed(s.claimed, thread, reserved, listing), files), claimed)
  }

  // ---------------------------------------------------------------- what the checks mean

  lemma {:induction false} CheckIdsMeans(ids: seq<Id>, i: nat)
    requires i <= |ids|
    ensures CheckIds(ids, i).Ok? <==> forall k :: i <= k < |ids| ==> ValidId(ids[k]) && ids[k] !in ids[..k]
    decreases |ids| - i
  {
    if i < |ids| {
      CheckIdsMeans(ids, i + 1);
    }
  }

  /** The identifiers are accepted exactly when they are few, well formed and distinct. */
  lemma IdSetAccepted(ids: seq<Id>)
    ensures EnsureIdSet(ids).Ok? <==>
            |ids| <= 8 && (forall k :: 0 <= k < |ids| ==> ValidId(ids[k])) && Unique(ids)
  {
    CheckIdsMeans(ids, 0);
    if EnsureIdSet(ids).Ok? {
      forall i, j | 0 <= i < j < |ids| ensures ids[i] != ids[j] {
        assert ids[i] == ids[..j][i];
      }
    }
  }

  /** An identifier is 32 lower-case hexadecimal digits. */
  lemma ValidIdIff(id: Id)
    ensures ValidId(id) <==> |id.text| == 32 && forall i :: 0 <= i < |id.text| ==> id.text[i] in "0123456789abcdef"
  {
    forall c: char ensures '0' <= c <= '9' || 'a' <= c <= 'f' <==> c in "0123456789abcdef" {
      HexDigitIs(c);
    }
  }

  lemma HexDigitIs(c: char)
    ensures '0' <= c <= '9' || 'a' <= c <= 'f' <==> c in "0123456789abcdef"
  {
    var digits := "0123456789abcdef";
    if '0' <= c <= '9' { assert digits[c as int - '0' as int] == c; }
    if 'a' <= c <= 'f' { assert digits[10 + (c as int - 'a' as int)] == c; }
  }

  /** Identifier k is malformed or repeats an earlier one. */
  predicate IdIsBad(ids: seq<Id>, k: nat)
    requires k < |ids|
  {
    !ValidId(ids[k]) || exists j :: 0 <= j < k && ids[j] == ids[k]
  }

  lemma {:induction false} FirstBadIdDecides(ids: seq<Id>, i: nat, k: nat)
    requires i <= k < |ids| && IdIsBad(ids, k) && forall j :: i <= j < k ==> !IdIsBad(ids, j)
    ensures CheckIds(ids, i) == Err(if ValidId(ids[k]) then Duplicate else BadId)
    decreases k - i
  {
    if i < k {
      assert !IdIsBad(ids, i);
      FirstBadIdDecides(ids, i + 1, k);
    } else if j :| 0 <= j < k && ids[j] == ids[k] {
      assert ids[..k][j] == ids[k];
    }
  }

  lemma {:induction false} FirstMissingDecides(pending: map<Id, Record>, workspace: nat, ids: seq<Id>, i: nat, k: nat)
    requires i <= k < |ids| && !(ids[k] in pending && pending[ids[k]].workspace == workspace)
    requires forall j :: i <= j < k ==> ids[j] in pending && pending[ids[j]].workspace == workspace
    ensures CheckPending(pending, workspace, ids, i) == Err(if ids[k] in pending then WrongWorkspace else Unavailable)
    decreases k - i
  {
    if i < k {
      FirstMissingDecides(pending, workspace, ids, i + 1, k);
    }
  }

  lemma {:induction false} CheckPendingMeans(pending: map<Id, Record>, workspace: nat, ids: seq<Id>, i: nat)
    requires i <= |ids|
    ensures CheckPending(pending, workspace, ids, i).Ok? <==>
            forall k :: i <= k < |ids| ==> ids[k] in pending && pending[ids[k]].workspace == workspace
    decreases |ids| - i
  {
    if i < |ids| {
      CheckPendingMeans(pending, workspace, ids, i + 1);
    }
  }

  lemma {:induction false} ReserveAll(pending: map<Id, Record>, ids: seq<Id>)
    requires AllPending(pending, ids)
    ensures |Reserve(pending, ids)| == |ids|
    ensures forall i :: 0 <= i < |ids| ==> Reserve(pending, ids)[i] == Reserved(ids[i], pending[ids[i]])
  {
    if ids != [] {
      ReserveAll(pending, ids[..|ids| - 1]);
    }
  }

  /** Restoring what was reserved undoes the reservation. */
  lemma RestoreUndoesReserve(pending: map<Id, Record>, ids: seq<Id>)
    requires AllPending(pending, ids)
    ensures Restore(Without(pending, ids), Reserve(pending, ids)) == pending
  {
    var reserved := Reserve(pending, ids);
    ReserveAll(pending, ids);
    RestorePrefix(pending, ids, reserved, |ids|);
    assert reserved[..|ids|] == reserved && ids[..|ids|] == ids;
  }

  lemma {:induction false} RestorePrefix(pending: map<Id, Record>, ids: seq<Id>, reserved: seq<Reserved>, n: nat)
    requires |reserved| == |ids| && n <= |ids|
    requires forall i :: 0 <= i < |ids| ==> ids[i] in pending && reserved[i] == Reserved(ids[i], pending[ids[i]])
    ensures Restore(Without(pending, ids), reserved[..n]) ==
            map id | id in pending && (id !in ids || id in ids[..n]) :: pending[id]
  {
    if n > 0 {
      RestorePrefix(pending, ids, reserved, n - 1);
      assert reserved[..n][..n - 1] == reserved[..n - 1];
      assert ids[..n] == ids[..n - 1] + [ids[n - 1]];
    }
  }

  // ---------------------------------------------------------------- what the renames do

  ghost predicate UniqueReserved(reserved: seq<Reserved>) {
    forall i, j :: 0 <= i < j < |reserved| ==> reserved[i].id != reserved[j].id
  }

  ghost predicate SourcesIn(files: Files, reserved: seq<Reserved>) {
    forall i :: 0 <= i < |reserved| ==> SourceOf(reserved[i]) in files
  }

  function Targets(thread: Thread, moved: seq<Reserved>): set<Path> {
    set r | r in moved :: TargetOf(thread, r)
  }

  function Sources(moved: seq<Reserved>): set<Path> {
    set r | r in moved :: SourceOf(r)
  }

  /** Paths that are neither source nor target of a move are left alone. */
  lemma {:induction false} MovesElsewhere(files: Files, thread: Thread, moved: seq<Reserved>, p: Path)
    requires p !in Targets(thread, moved) && p !in Sources(moved)
    ensures p in MoveAll(files, thread, moved) <==> p in files
    ensures p in files ==> MoveAll(files, thread, moved)[p] == files[p]
  {
    if moved != [] {
      MovesElsewhere(files, thread, moved[..|moved| - 1], p);
    }
  }

  /** What all the moves together do. */
  lemma {:induction false} MovesRelocate(files: Files, thread: Thread, moved: seq<Reserved>, i: nat)
    requires UniqueReserved(moved) && SourcesIn(files, moved) && i < |moved|
    ensures SourceOf(moved[i]) !in MoveAll(files, thread, moved)
    ensures TargetOf(thread, moved[i]) in MoveAll(files, thread, moved)
    ensures MoveAll(files, thread, moved)[TargetOf(thread, moved[i])] == files[SourceOf(moved[i])]
  {
    var before, last := moved[..|moved| - 1], |moved| - 1;
    NextSource(files, thread, moved);
    if i < last {
      MovesRelocate(files, thread, before, i);
    }
  }

  /** The last source is still where it was after the moves before it. */
  lemma NextSource(files: Files, thread: Thread, moved: seq<Reserved>)
    requires UniqueReserved(moved) && moved != []
    ensures var p := SourceOf(moved[|moved| - 1]);
            var before := MoveAll(files, thread, moved[..|moved| - 1]);
            (p in before <==> p in files) && (p in files ==> before[p] == files[p])
  {
    MovesElsewhere(files, thread, moved[..|moved| - 1], SourceOf(moved[|moved| - 1]));
  }

  lemma {:induction false} RollBackIgnores(files: Files, thread: Thread, moved: seq<Reserved>, p: Path)
    requires p !in Targets(thread, moved) && p !in Sources(moved)
    ensures RollBack(files - {p}, thread, moved) == RollBack(files, thread, moved) - {p}
    decreases |moved|
  {
    if moved != [] {
      var last := moved[|moved| - 1];
      var back := Rename(files, TargetOf(thread, last), SourceOf(last));
      assert last in moved;
      assert Rename(files - {p}, TargetOf(thread, last), SourceOf(last)) == back - {p};
      RollBackIgnores(back, thread, moved[..|moved| - 1], p);
    }
  }

  /** Rolling back restores every file, but for what the moves overwrote. */
  lemma {:induction false} RollBackUndoesMoves(files: Files, thread: Thread, moved: seq<Reserved>)
    requires UniqueReserved(moved) && SourcesIn(files, moved)
    ensures RollBack(MoveAll(files, thread, moved), thread, moved) == files - Targets(thread, moved)
  {
    if moved != [] {
      var before, last := moved[..|moved| - 1], moved[|moved| - 1];
      var from, to := SourceOf(last), TargetOf(thread, last);
      var m := MoveAll(files, thread, before);
      NextSource(files, thread, moved);
      assert Rename(Rename(m, from, to), to, from) == m - {to};
      RollBackIgnores(m, thread, before, to);
      RollBackUndoesMoves(files, thread, before);
      assert Targets(thread, moved) == Targets(thread, before) + {to} by {
        assert moved == before + [last];
      }
    }
  }

  /** Moving the others changes nothing about whether a reservation can be moved. */
  lemma ObstacleUnchanged(files: Files, thread: Thread, reserved: seq<Reserved>, faults: Faults, i: nat)
    requires UniqueReserved(reserved) && i < |reserved|
    ensures Obstacle(MoveAll(files, thread, reserved[..i]), thread, reserved[i], faults) == Obstacle(files, thread, reserved[i], faults)
  {
    MovesElsewhere(files, thread, reserved[..i], SourceOf(reserved[i]));
  }

  lemma {:induction false} FirstObstacleIsFirst(files: Files, thread: Thread, reserved: seq<Reserved>, faults: Faults, i: nat)
    requires UniqueReserved(reserved) && i <= |reserved|
    ensures var n := FirstObstacle(files, thread, reserved, faults, i);
            && (forall k :: i <= k < n ==> Obstacle(files, thread, reserved[k], faults).None?)
            && (n < |reserved| ==> Obstacle(files, thread, reserved[n], faults).Some?)
    decreases |reserved| - i
  {
    if i < |reserved| {
      ObstacleUnchanged(files, thread, reserved, faults, i);
      FirstObstacleIsFirst(files, thread, reserved, faults, i + 1);
    }
  }

  /** The batch succeeds exactly when no single rename has an obstacle, and then everything has moved. */
  lemma RenamesSucceedIff(files: Files, thread: Thread, reserved: seq<Reserved>, faults: Faults)
    requires UniqueReserved(reserved)
    ensures RenameReserved(files, thread, reserved, faults).1.Ok? <==>
            forall i :: 0 <= i < |reserved| ==> Obstacle(files, thread, reserved[i], faults).None?
    ensures RenameReserved(files, thread, reserved, faults).1.Ok? ==>
              RenameReserved(files, thread, reserved, faults) == (MoveAll(files, thread, reserved), Ok(ClaimedOf(thread, reserved)))
  {
    FirstObstacleIsFirst(files, thread, reserved, faults, 0);
    assert reserved[..|reserved|] == reserved;
  }

  /**
   * A batch that fails leaves the files as they were exactly when none of the files moved before
   * the failure overwrote one.
   */
  lemma FailedRenamesRestoreIff(files: Files, thread: Thread, reserved: seq<Reserved>, faults: Faults)
    requires UniqueReserved(reserved) && RenameReserved(files, thread, reserved, faults).1.Err?
    ensures var n := FirstObstacle(files, thread, reserved, faults, 0);
            && RenameReserved(files, thread, reserved, faults).0 == files - Targets(thread, reserved[..n])
            && (RenameReserved(files, thread, reserved, faults).0 == files <==>
                forall i :: 0 <= i < n ==> TargetOf(thread, reserved[i]) !in files)
  {
    var n := FirstObstacle(files, thread, reserved, faults, 0);
    FirstObstacleIsFirst(files, thread, reserved, faults, 0);
    RollBackUndoesMoves(files, thread, reserved[..n]);
    forall i | 0 <= i < n ensures TargetOf(thread, reserved[i]) in Targets(thread, reserved[..n]) {
      assert reserved[..n][i] == reserved[i];
    }
    if forall i :: 0 <= i < n ==> TargetOf(thread, reserved[i]) !in files {
      assert files - Targets(thread, reserved[..n]) == files;
    }
  }

  // ---------------------------------------------------------------- claim as a whole

  ghost predicate Claimable(s: Store, workspace: nat, thread: Thread, ids: seq<Id>, faults: Faults) {
    && Accepted(s, workspace, ids) && !faults.directory
    && forall i :: 0 <= i < |ids| ==> !Blocked(s, thread, ids[i], faults)
  }

  /** The identifiers are in order, and all of them pending for the workspace. */
  ghost predicate Accepted(s: Store, workspace: nat, ids: seq<Id>) {
    && |ids| <= 8 && Unique(ids)
    && forall i :: 0 <= i < |ids| ==> ValidId(ids[i]) && ids[i] in s.pending && s.pending[ids[i]].workspace == workspace
  }

  /** The file of a pending attachment cannot be renamed: its target is no path, it is gone, or the system refuses. */
  predicate Blocked(s: Store, thread: Thread, id: Id, faults: Faults)
    requires id in s.pending
  {
    var extension := s.pending[id].extension;
    || ThreadFile(thread, id, extension) in faults.badPaths
    || PendingFile(id, extension) !in s.files
    || PendingFile(id, extension) in faults.refused
  }

  lemma ReservedForRenames(s: Store, workspace: nat, ids: seq<Id>)
    requires EnsureIdSet(ids).Ok? && CheckPending(s.pending, workspace, ids, 0).Ok?
    ensures Unique(ids) && AllPending(s.pending, ids) && UniqueReserved(Reserve(s.pending, ids))
    ensures |Reserve(s.pending, ids)| == |ids|
    ensures forall i :: 0 <= i < |ids| ==> Reserve(s.pending, ids)[i] == Reserved(ids[i], s.pending[ids[i]])
  {
    IdSetAccepted(ids);
    CheckPendingMeans(s.pending, workspace, ids, 0);
    ReserveAll(s.pending, ids);
  }

  lemma AcceptedIff(s: Store, workspace: nat, ids: seq<Id>)
    ensures Accepted(s, workspace, ids) <==> EnsureIdSet(ids).Ok? && CheckPending(s.pending, workspace, ids, 0).Ok?
  {
    IdSetAccepted(ids);
    CheckPendingMeans(s.pending, workspace, ids, 0);
  }

  lemma ObstacleIffBlocked(s: Store, thread: Thread, id: Id, faults: Faults)
    requires id in s.pending
    ensures Obstacle(s.files, thread, Reserved(id, s.pending[id]), faults).Some? <==> Blocked(s, thread, id, faults)
  {
  }

  lemma AcceptedRenamesSucceedIff(s: Store, workspace: nat, thread: Thread, ids: seq<Id>, faults: Faults)
    requires Accepted(s, workspace, ids)
    ensures RenameReserved(s.files, thread, Reserve(s.pending, ids), faults).1.Ok? <==>
            forall i :: 0 <= i < |ids| ==> !Blocked(s, thread, ids[i], faults)
  {
    AcceptedIff(s, workspace, ids);
    ReservedForRenames(s, workspace, ids);
    var reserved := Reserve(s.pending, ids);
    RenamesSucceedIff(s.files, thread, reserved, faults);
    forall i | 0 <= i < |ids|
      ensures Obstacle(s.files, thread, reserved[i], faults).None? <==> !Blocked(s, thread, ids[i], faults)
    {
      ObstacleIffBlocked(s, thread, ids[i], faults);
    }
  }

  /** A claim succeeds exactly when nothing stands in the way of any of its attachments. */
  lemma ClaimSucceedsIff(s: Store, workspace: nat, thread: Thread, ids: seq<Id>, faults: Faults, listing: seq<Aged>)
    ensures Claim(s, workspace, thread, ids, faults, listing).1.Ok? <==> Claimable(s, workspace, thread, ids, faults)
  {
    AcceptedIff(s, workspace, ids);
    if Accepted(s, workspace, ids) {
      AcceptedRenamesSucceedIff(s, workspace, thread, ids, faults);
    }
  }

  /** Too many identifiers, or the first one that is bad, refuse the claim before anything is touched. */
  lemma ClaimRefusedForIds(s: Store, workspace: nat, thread: Thread, ids: seq<Id>, faults: Faults, listing: seq<Aged>, k: nat)
    ensures Claim(s, workspace, thread, ids, faults, listing).1 == Err(TooMany) <==> |ids| > 8
    ensures |ids| > 8 ==> Claim(s, workspace, thread, ids, faults, listing).0 == s
    ensures |ids| <= 8 && k < |ids| && IdIsBad(ids, k) && (forall j :: 0 <= j < k ==> !IdIsBad(ids, j)) ==>
              Claim(s, workspace, thread, ids, faults, listing) == (s, Err(if ValidId(ids[k]) then Duplicate else BadId))
  {
    IdErrors(ids, 0);
    PendingErrors(s.pending, workspace, ids, 0);
    if |ids| <= 8 && k < |ids| && IdIsBad(ids, k) && forall j :: 0 <= j < k ==> !IdIsBad(ids, j) {
      FirstBadIdDecides(ids, 0, k);
    }
    if EnsureIdSet(ids).Ok? && CheckPending(s.pending, workspace, ids, 0).Ok? && !faults.directory {
      RenameErrors(s.files, thread, Reserve(s.pending, ids), faults);
    }
  }

  lemma {:induction false} IdErrors(ids: seq<Id>, i: nat)
    requires i <= |ids|
    ensures CheckIds(ids, i).Ok? || CheckIds(ids, i).error in {BadId, Duplicate}
    decreases |ids| - i
  {
    if i < |ids| {
      IdErrors(ids, i + 1);
    }
  }

  lemma {:induction false} PendingErrors(pending: map<Id, Record>, workspace: nat, ids: seq<Id>, i: nat)
    requires i <= |ids|
    ensures CheckPending(pending, workspace, ids, i).Ok? || CheckPending(pending, workspace, ids, i).error in {Unavailable, WrongWorkspace}
    decreases |ids| - i
  {
    if i < |ids| {
      PendingErrors(pending, workspace, ids, i + 1);
    }
  }

  lemma RenameErrors(files: Files, thread: Thread, reserved: seq<Reserved>, faults: Faults)
    ensures var r := RenameReserved(files, thread, reserved, faults).1; r.Ok? || r.error in {BadPath, Unavailable, RenameRefused}
  {
  }

  /** The first identifier that is not pending for the workspace refuses the claim before anything is touched. */
  lemma ClaimRefusedForRecords(s: Store, workspace: nat, thread: Thread, ids: seq<Id>, faults: Faults, listing: seq<Aged>, k: nat)
    requires |ids| <= 8 && Unique(ids) && forall j :: 0 <= j < |ids| ==> ValidId(ids[j])
    requires k < |ids| && !(ids[k] in s.pending && s.pending[ids[k]].workspace == workspace)
    requires forall j :: 0 <= j < k ==> ids[j] in s.pending && s.pending[ids[j]].workspace == workspace
    ensures Claim(s, workspace, thread, ids, faults, listing) == (s, Err(if ids[k] in s.pending then WrongWorkspace else Unavailable))
  {
    IdSetAccepted(ids);
    FirstMissingDecides(s.pending, workspace, ids, 0, k);
  }

  /** A directory that cannot be made refuses a claim with nothing else against it, and everything is put back. */
  lemma ClaimRefusedByDirectory(s: Store, workspace: nat, thread: Thread, ids: seq<Id>, faults: Faults, listing: seq<Aged>)
    requires Accepted(s, workspace, ids) && faults.directory
    ensures Claim(s, workspace, thread, ids, faults, listing) == (s, Err(DirectoryRefused))
  {
    AcceptedIff(s, workspace, ids);
    ReservedForRenames(s, workspace, ids);
    RestoreUndoesReserve(s.pending, ids);
  }

  /** The first attachment whose file cannot be renamed decides the error, its path being checked before its file. */
  lemma ClaimRefusedByRename(s: Store, workspace: nat, thread: Thread, ids: seq<Id>, faults: Faults, listing: seq<Aged>, k: nat)
    requires Accepted(s, workspace, ids) && !faults.directory
    requires k < |ids| && Blocked(s, thread, ids[k], faults) && forall j :: 0 <= j < k ==> !Blocked(s, thread, ids[j], faults)
    ensures Claim(s, workspace, thread, ids, faults, listing).1 ==
            Err(if ThreadFile(thread, ids[k], s.pending[ids[k]].extension) in faults.badPaths then BadPath
                else if PendingFile(ids[k], s.pending[ids[k]].extension) !in s.files then Unavailable else RenameRefused)
  {
    AcceptedIff(s, workspace, ids);
    ReservedForRenames(s, workspace, ids);
    var reserved := Reserve(s.pending, ids);
    FirstObstacleIsFirst(s.files, thread, reserved, faults, 0);
    var n := FirstObstacle(s.files, thread, reserved, faults, 0);
    assert forall j :: 0 <= j < |ids| ==> (Obstacle(s.files, thread, reserved[j], faults).Some? <==> Blocked(s, thread, ids[j], faults));
    assert n == k;
    ObstacleUnchanged(s.files, thread, reserved, faults, k);
  }

  /** A claim that fails gives every record back, and every file that was not overwritten. */
  lemma FailedClaimRestores(s: Store, workspace: nat, thread: Thread, ids: seq<Id>, faults: Faults, listing: seq<Aged>)
    requires Claim(s, workspace, thread, ids, faults, listing).1.Err?
    requires forall id :: id in ids && id in s.pending ==> ThreadFile(thread, id, s.pending[id].extension) !in s.files
    ensures Claim(s, workspace, thread, ids, faults, listing).0 == s
  {
    if EnsureIdSet(ids).Ok? && CheckPending(s.pending, workspace, ids, 0).Ok? {
      ReservedForRenames(s, workspace, ids);
      RestoreUndoesReserve(s.pending, ids);
      var reserved := Reserve(s.pending, ids);
      if !faults.directory {
        FailedRenamesRestoreIff(s.files, thread, reserved, faults);
        forall i | 0 <= i < |reserved| ensures TargetOf(thread, reserved[i]) !in s.files {
          assert ids[i] in ids;
        }
      }
    }
  }

  /** Two attachments staged, and a file already at the place the first one is to be moved to. */
  function WithFileInTheWay(thread: Thread, staged: Record, a: Id, b: Id): Store {
    Store(map[a := staged, b := staged], map[],
          map[PendingFile(a, staged.extension) := 1, PendingFile(b, staged.extension) := 2,
              ThreadFile(thread, a, staged.extension) := 3])
  }

  lemma BothAreAccepted(s: Store, staged: Record, a: Id, b: Id)
    requires ValidId(a) && ValidId(b) && a != b && s.pending == map[a := staged, b := staged]
    ensures EnsureIdSet([a, b]).Ok? && CheckPending(s.pending, staged.workspace, [a, b], 0).Ok?
  {
    AcceptedIff(s, staged.workspace, [a, b]);
  }

  lemma BothAreReserved(s: Store, staged: Record, a: Id, b: Id)
    requires a != b && s.pending == map[a := staged, b := staged]
    ensures Reserve(s.pending, [a, b]) == [Reserved(a, staged), Reserved(b, staged)]
    ensures Restore(Without(s.pending, [a, b]), Reserve(s.pending, [a, b])) == s.pending
  {
    ReserveAll(s.pending, [a, b]);
    RestoreUndoesReserve(s.pending, [a, b]);
  }

  /**
   * A failed claim can lose a file: the first attachment is renamed over one that was there, the
   * second is refused, everything is put back, and the overwritten file is gone.
   */
  lemma FailedClaimLosesOverwrittenFile(thread: Thread, staged: Record, a: Id, b: Id, listing: seq<Aged>)
    requires ValidId(a) && ValidId(b) && a != b
    ensures var s := WithFileInTheWay(thread, staged, a, b);
            var faults := Faults(false, {}, {PendingFile(b, staged.extension)});
            && ThreadFile(thread, a, staged.extension) in s.files
            && Claim(s, staged.workspace, thread, [a, b], faults, listing) ==
               (s.(files := s.files - {ThreadFile(thread, a, staged.extension)}), Err(RenameRefused))
  {
    var s := WithFileInTheWay(thread, staged, a, b);
    BothAreAccepted(s, staged, a, b);
    BothAreReserved(s, staged, a, b);
    SecondOfTwoIsRefused(s, thread, staged, a, b, Faults(false, {}, {PendingFile(b, staged.extension)}), listing);
  }

  lemma SecondOfTwoIsRefused(s: Store, thread: Thread, staged: Record, a: Id, b: Id, faults: Faults, listing: seq<Aged>)
    requires a != b && !faults.directory
    requires EnsureIdSet([a, b]).Ok? && CheckPending(s.pending, staged.workspace, [a, b], 0).Ok?
    requires Reserve(s.pending, [a, b]) == [Reserved(a, staged), Reserved(b, staged)]
    requires Restore(Without(s.pending, [a, b]), Reserve(s.pending, [a, b])) == s.pending
    requires Obstacle(s.files, thread, Reserved(a, staged), faults).None?
    requires Obstacle(s.files, thread, Reserved(b, staged), faults) == Some(RenameRefused)
    ensures Claim(s, staged.workspace, thread, [a, b], faults, listing) ==
            (s.(files := s.files - {ThreadFile(thread, a, staged.extension)}), Err(RenameRefused))
  {
    SecondIsRefused(s.files, thread, Reserve(s.pending, [a, b]), faults);
  }

  /** An identifier of one digit only. */
  function IdOfDigit(c: char): Id {
    Id(seq(ID_LENGTH, i requires 0 <= i < ID_LENGTH => c))
  }

  /** There are identifiers to fill in. */
  lemma TwoValidIds()
    ensures ValidId(IdOfDigit('a')) && ValidId(IdOfDigit('b')) && IdOfDigit('a') != IdOfDigit('b')
  {
    assert IdOfDigit('a').text[0] != IdOfDigit('b').text[0];
  }

  /** Two reservations of which only the second has an obstacle. */
  lemma SecondIsRefused(files: Files, thread: Thread, reserved: seq<Reserved>, faults: Faults)
    requires UniqueReserved(reserved) && |reserved| == 2
    requires Obstacle(files, thread, reserved[0], faults).None?
    requires Obstacle(files, thread, reserved[1], faults) == Some(RenameRefused)
    ensures RenameReserved(files, thread, reserved, faults) ==
            (files - {TargetOf(thread, reserved[0])}, Err(RenameRefused))
  {
    FirstObstacleIsFirst(files, thread, reserved, faults, 0);
    ObstacleUnchanged(files, thread, reserved, faults, 1);
    FailedRenamesRestoreIff(files, thread, reserved, faults);
    assert reserved[..1] == [reserved[0]];
    assert Targets(thread, reserved[..1]) == {TargetOf(thread, reserved[0])};
  }

  /** A claim that succeeds moves exactly its own records and files, and reports them in order. */
  lemma SuccessfulClaimMoves(s: Store, workspace: nat, thread: Thread, ids: seq<Id>, faults: Faults, listing: seq<Aged>, next: Store)
    requires Claim(s, workspace, thread, ids, faults, listing).1.Ok?
    requires next == Claim(s, workspace, thread, ids, faults, listing).0
    ensures next.pending == Without(s.pending, ids) && AllPending(s.pending, ids)
    ensures next.files == MoveAll(s.files, thread, Reserve(s.pending, ids))
    ensures var report := Claim(s, workspace, thread, ids, faults, listing).1.value;
            |report| == |ids| && forall i :: 0 <= i < |ids| ==>
                                   && report[i] == Claimed(ids[i], ThreadFile(thread, ids[i], s.pending[ids[i]].extension))
                                   && report[i].stored in next.files
                                   && PendingFile(ids[i], s.pending[ids[i]].extension) in s.files
                                   && PendingFile(ids[i], s.pending[ids[i]].extension) !in next.files
                                   && next.files[report[i].stored] == s.files[PendingFile(ids[i], s.pending[ids[i]].extension)]
  {
    var reserved := Reserve(s.pending, ids);
    ReservedForRenames(s, workspace, ids);
    RenamesSucceedIff(s.files, thread, reserved, faults);
    forall i | 0 <= i < |reserved| ensures SourceOf(reserved[i]) in s.files {
      assert Obstacle(s.files, thread, reserved[i], faults).None?;
    }
    forall i | 0 <= i < |reserved|
      ensures SourceOf(reserved[i]) !in next.files && TargetOf(thread, reserved[i]) in next.files
      ensures next.files[TargetOf(thread, reserved[i])] == s.files[SourceOf(reserved[i])]
    {
      MovesRelocate(s.files, thread, reserved, i);
    }
  }

  // ---------------------------------------------------------------- eviction

  lemma OlderIsTotal()
    ensures TotalOrder(Older)
  {
    forall a, b ensures Older(a, b) || Older(b, a) {
      TextTotal(a.id.text, b.id.text);
    }
    forall a, b, c | Older(a, b) && Older(b, c) ensures Older(a, c) {
      if a.sequence == b.sequence == c.sequence {
        TextTransitive(a.id.text, b.id.text, c.id.text);
      }
    }
    forall a, b | Older(a, b) && Older(b, a) ensures a == b {
      TextAntisymmetric(a.id.text, b.id.text);
    }
  }

  /** In a permutation of a listing, no identifier comes twice. */
  lemma SortedListing(claimed: map<Id, Record>, listing: seq<Aged>, ordered: seq<Aged>)
    requires Lists(listing, claimed) && multiset(ordered) == multiset(listing)
    ensures Lists(ordered, claimed)
  {
    forall i | 0 <= i < |ordered| ensures ordered[i] in listing {
      assert ordered[i] in multiset(ordered);
    }
    forall id | id in claimed ensures Aged(id, claimed[id].sequence) in ordered {
      assert Aged(id, claimed[id].sequence) in multiset(listing);
    }
    forall i, j | 0 <= i < j < |ordered| ensures ordered[i].id != ordered[j].id {
      if ordered[i].id == ordered[j].id {
        assert ordered[i] == ordered[j];
        Twice(ordered, i, j);
        Once(listing, ordered[i]);
      }
    }
  }

  lemma {:induction false} Once(listing: seq<Aged>, a: Aged)
    requires DistinctIds(listing)
    ensures multiset(listing)[a] <= 1
  {
    if listing != [] {
      var before, last := listing[..|listing| - 1], listing[|listing| - 1];
      assert listing == before + [last];
      Once(before, a);
      assert last == a ==> a !in before;
    }
  }

  function Ids(listing: seq<Aged>): set<Id> {
    set a | a in listing :: a.id
  }

  lemma {:induction false} IdsCount(listing: seq<Aged>)
    requires DistinctIds(listing)
    ensures |Ids(listing)| == |listing|
  {
    if listing != [] {
      var before, last := listing[..|listing| - 1], listing[|listing| - 1];
      IdsCount(before);
      assert listing == before + [last];
      assert Ids(listing) == Ids(before) + {last.id};
      assert last.id !in Ids(before);
    }
  }

  lemma {:induction false} DropRemoves(claimed: map<Id, Record>, dropped: seq<Aged>)
    ensures Drop(claimed, dropped) == claimed - Ids(dropped)
  {
    if dropped != [] {
      var before, last := dropped[..|dropped| - 1], dropped[|dropped| - 1];
      DropRemoves(claimed, before);
      assert dropped == before + [last];
      assert Ids(dropped) == Ids(before) + {last.id};
    }
  }

  /** A listing names every claimed record once. */
  lemma ListingLength(claimed: map<Id, Record>, listing: seq<Aged>)
    requires Lists(listing, claimed)
    ensures |listing| == |claimed|
  {
    IdsCount(listing);
    forall id | id in claimed ensures id in Ids(listing) {
      assert Aged(id, claimed[id].sequence) in listing;
    }
    assert Ids(listing) == claimed.Keys;
  }

  /** The first n of an ordered listing against the rest. */
  lemma FirstAreOldest(claimed: map<Id, Record>, ordered: seq<Aged>, n: nat, gone: Id, kept: Id)
    requires Lists(ordered, claimed) && SortedBy(ordered, Older) && n <= |ordered|
    requires gone in claimed && kept in claimed && gone in Ids(ordered[..n]) && kept !in Ids(ordered[..n])
    ensures Older(Aged(gone, claimed[gone].sequence), Aged(kept, claimed[kept].sequence))
  {
    var i :| 0 <= i < n && ordered[..n][i].id == gone;
    var k :| 0 <= k < |ordered| && ordered[k] == Aged(kept, claimed[kept].sequence);
    assert Older(ordered[i], ordered[k]);
  }

  lemma FirstCount(claimed: map<Id, Record>, ordered: seq<Aged>, n: nat)
    requires Lists(ordered, claimed) && n <= |ordered|
    ensures |claimed - Ids(ordered[..n])| == |claimed| - n
  {
    IdsCount(ordered[..n]);
    forall a | a in ordered[..n] ensures a.id in claimed {
      assert a in ordered;
    }
    assert (claimed - Ids(ordered[..n])).Keys == claimed.Keys - Ids(ordered[..n]);
  }

  lemma OrderedListing(claimed: map<Id, Record>, listing: seq<Aged>, ordered: seq<Aged>)
    requires Lists(listing, claimed) && ordered == Sort(listing, Older)
    ensures Lists(ordered, claimed) && SortedBy(ordered, Older) && |ordered| == |claimed|
  {
    OlderIsTotal();
    SortSorts(listing, Older);
    SortedListing(claimed, listing, ordered);
    ListingLength(claimed, ordered);
  }

  function EvictedCount(claimed: map<Id, Record>, room: nat): nat {
    if Excess(claimed, room) <= |claimed| then Excess(claimed, room) else |claimed|
  }

  lemma EvictionShape(claimed: map<Id, Record>, room: nat, listing: seq<Aged>, ordered: seq<Aged>)
    requires Lists(listing, claimed) && ordered == Sort(listing, Older) && |ordered| == |claimed|
    ensures EvictOldest(claimed, room, listing) == claimed - Ids(ordered[..EvictedCount(claimed, room)])
  {
    DropRemoves(claimed, First(ordered, Excess(claimed, room)));
    assert ordered[..|ordered|] == ordered;
  }

  /** Eviction removes exactly the excess, and everything it removes is older than all it keeps. */
  lemma EvictionTakesOldest(claimed: map<Id, Record>, room: nat, listing: seq<Aged>, left: map<Id, Record>)
    requires Lists(listing, claimed) && left == EvictOldest(claimed, room, listing)
    ensures |left| == |claimed| - EvictedCount(claimed, room)
    ensures forall id :: id in left ==> id in claimed && left[id] == claimed[id]
    ensures forall gone, kept :: gone in claimed && gone !in left && kept in left ==>
                                   Older(Aged(gone, claimed[gone].sequence), Aged(kept, claimed[kept].sequence))
  {
    var ordered := Sort(listing, Older);
    var n := EvictedCount(claimed, room);
    OrderedListing(claimed, listing, ordered);
    EvictionShape(claimed, room, listing, ordered);
    FirstCount(claimed, ordered, n);
    forall gone, kept | gone in claimed && gone !in left && kept in left
      ensures Older(Aged(gone, claimed[gone].sequence), Aged(kept, claimed[kept].sequence))
    {
      FirstAreOldest(claimed, ordered, n, gone, kept);
    }
  }

  function NewIds(reserved: seq<Reserved>): set<Id> {
    if reserved == [] then {} else NewIds(reserved[..|reserved| - 1]) + {reserved[|reserved| - 1].id}
  }

  lemma {:induction false} EnterKeys(claimed: map<Id, Record>, thread: Thread, reserved: seq<Reserved>)
    ensures Enter(claimed, thread, reserved).Keys == claimed.Keys + NewIds(reserved)
  {
    if reserved != [] {
      EnterKeys(claimed, thread, reserved[..|reserved| - 1]);
    }
  }

  lemma {:induction false} NewIdsCount(reserved: seq<Reserved>)
    ensures |NewIds(reserved)| <= |reserved|
  {
    if reserved != [] {
      NewIdsCount(reserved[..|reserved| - 1]);
    }
  }

  lemma {:induction false} EnterValues(claimed: map<Id, Record>, thread: Thread, reserved: seq<Reserved>, i: nat)
    requires UniqueReserved(reserved) && i < |reserved|
    ensures reserved[i].id in Enter(claimed, thread, reserved)
    ensures Enter(claimed, thread, reserved)[reserved[i].id] == reserved[i].record.(thread := Some(thread))
  {
    if i < |reserved| - 1 {
      EnterValues(claimed, thread, reserved[..|reserved| - 1], i);
    }
  }

  /** The claimed map never holds more than its bound. */
  lemma ClaimedStaysBounded(claimed: map<Id, Record>, thread: Thread, reserved: seq<Reserved>, listing: seq<Aged>)
    requires Lists(listing, claimed) && |claimed| <= MAX_CLAIMED && |reserved| <= MAX_TURN_ATTACHMENTS
    ensures |RecordClaimed(claimed, thread, reserved, listing)| <= MAX_CLAIMED
  {
    var left := if |claimed| + |reserved| > MAX_CLAIMED then EvictOldest(claimed, |reserved|, listing) else claimed;
    if |claimed| + |reserved| > MAX_CLAIMED {
      EvictionTakesOldest(claimed, |reserved|, listing, left);
    }
    EnterKeys(left, thread, reserved);
    NewIdsCount(reserved);
    assert |Enter(left, thread, reserved).Keys| <= |left.Keys| + |NewIds(reserved)|;
  }

  /** After a successful claim every attachment is recorded for the thread, within the bound. */
  lemma SuccessfulClaimRecords(s: Store, workspace: nat, thread: Thread, ids: seq<Id>, faults: Faults, listing: seq<Aged>, i: nat)
    requires Claim(s, workspace, thread, ids, faults, listing).1.Ok? && i < |ids|
    requires Lists(listing, s.claimed) && |s.claimed| <= MAX_CLAIMED
    ensures ids[i] in s.pending
    ensures var claimed := Claim(s, workspace, thread, ids, faults, listing).0.claimed;
            && |claimed| <= MAX_CLAIMED
            && ids[i] in claimed && claimed[ids[i]] == s.pending[ids[i]].(thread := Some(thread))
  {
    var reserved := Reserve(s.pending, ids);
    ReservedForRenames(s, workspace, ids);
    IdSetAccepted(ids);
    ClaimedStaysBounded(s.claimed, thread, reserved, listing);
    EnterValues(if |s.claimed| + |reserved| > MAX_CLAIMED then EvictOldest(s.claimed, |reserved|, listing) else s.claimed,
                thread, reserved, i);
  }

  // ---------------------------------------------------------------- the store object

  class AgentAttachmentStore {
    var pending: map<Id, Record>
    var claimed: map<Id, Record>
    var files: Files

    ghost function View(): Store
      reads this
    {
      Store(pending, claimed, files)
    }

    /** Takes the records out, or nothing at all. */
    method ReservePending(workspace: nat, ids: seq<Id>) returns (result: Result<seq<Reserved>, Error>)
      requires Unique(ids)
      modifies this`pending
      ensures match CheckPending(old(pending), workspace, ids, 0)
              case Err(e) => result == Err(e) && pending == old(pending)
              case Ok(_) => result == Ok(Reserve(old(pending), ids)) && pending == Without(old(pending), ids)
    {
      var i := 0;
      while i < |ids|
        invariant i <= |ids| && pending == old(pending)
        invariant CheckPending(pending, workspace, ids, 0) == CheckPending(pending, workspace, ids, i)
      {
        if ids[i] !in pending {
          return Err(Unavailable);
        }
        if pending[ids[i]].workspace != workspace {
          return Err(WrongWorkspace);
        }
        i := i + 1;
      }
      CheckPendingMeans(pending, workspace, ids, 0);
      var reserved: seq<Reserved> := [];
      i := 0;
      while i < |ids|
        invariant i <= |ids|
        invariant reserved == Reserve(old(pending), ids[..i]) && pending == Without(old(pending), ids[..i])
      {
        assert ids[..i + 1][..i] == ids[..i] && ids[i] !in ids[..i];
        if ids[i] in pending {
          reserved := reserved + [Reserved(ids[i], pending[ids[i]])];
          pending := pending - {ids[i]};
        }
        i := i + 1;
      }
      assert ids[..i] == ids;
      result := Ok(reserved);
    }

    method RestorePending(reserved: seq<Reserved>)
      modifies this`pending
      ensures pending == Restore(old(pending), reserved)
    {
      var i := 0;
      while i < |reserved|
        invariant i <= |reserved| && pending == Restore(old(pending), reserved[..i])
      {
        assert reserved[..i + 1][..i] == reserved[..i];
        pending := pending[reserved[i].id := reserved[i].record];
        i := i + 1;
      }
      assert reserved[..i] == reserved;
    }

    method RollBackRenames(thread: Thread, moved: seq<Reserved>)
      modifies this`files
      ensures files == RollBack(old(files), thread, moved)
    {
      var i := |moved|;
      assert moved[..i] == moved;
      while i > 0
        invariant 0 <= i <= |moved|
        invariant RollBack(files, thread, moved[..i]) == RollBack(old(files), thread, moved)
      {
        assert moved[..i][..i - 1] == moved[..i - 1];
        i := i - 1;
        files := Rename(files, TargetOf(thread, moved[i]), SourceOf(moved[i]));
      }
    }

    method RenameIntoThread(thread: Thread, reserved: seq<Reserved>, faults: Faults) returns (result: Result<seq<Claimed>, Error>)
      modifies this`files
      ensures (files, result) == RenameReserved(old(files), thread, reserved, faults)
    {
      var claims: seq<Claimed> := [];
      var i := 0;
      while i < |reserved|
        invariant i <= |reserved| && files == MoveAll(old(files), thread, reserved[..i])
        invariant FirstObstacle(old(files), thread, reserved, faults, 0) == FirstObstacle(old(files), thread, reserved, faults, i)
        invariant claims == ClaimedOf(thread, reserved[..i])
      {
        assert reserved[..i + 1][..i] == reserved[..i];
        var from, to := SourceOf(reserved[i]), TargetOf(thread, reserved[i]);
        if to in faults.badPaths {
          RollBackRenames(thread, reserved[..i]);
          return Err(BadPath);
        }
        if from !in files || from in faults.refused {
          var failure := if from !in files then Unavailable else RenameRefused;
          RollBackRenames(thread, reserved[..i]);
          return Err(failure);
        }
        files := Rename(files, from, to);
        claims := claims + [Claimed(reserved[i].id, to)];
        i := i + 1;
      }
      assert reserved[..i] == reserved;
      result := Ok(claims);
    }

    method DropEach(dropped: seq<Aged>)
      modifies this`claimed
      ensures claimed == Drop(old(claimed), dropped)
    {
      var i := 0;
      while i < |dropped|
        invariant i <= |dropped| && claimed == Drop(old(claimed), dropped[..i])
      {
        assert dropped[..i + 1][..i] == dropped[..i];
        claimed := claimed - {dropped[i].id};
        i := i + 1;
      }
      assert dropped[..i] == dropped;
    }

    /** Drops the oldest records when room is needed; `listing` is the traversal order of the map. */
    method EvictOldestClaimed(room: nat, listing: seq<Aged>)
      modifies this`claimed
      ensures claimed == EvictOldest(old(claimed), room, listing)
    {
      var ordered := Sort(listing, Older);
      DropEach(First(ordered, Excess(claimed, room)));
    }

    method EnterClaimed(thread: Thread, reserved: seq<Reserved>, listing: seq<Aged>)
      modifies this`claimed
      ensures claimed == RecordClaimed(old(claimed), thread, reserved, listing)
    {
      if |claimed| + |reserved| > MAX_CLAIMED {
        EvictOldestClaimed(|reserved|, listing);
      }
      ghost var start := claimed;
      var i := 0;
      while i < |reserved|
        invariant i <= |reserved| && claimed == Enter(start, thread, reserved[..i])
      {
        assert reserved[..i + 1][..i] == reserved[..i];
        claimed := claimed[reserved[i].id := reserved[i].record.(thread := Some(thread))];
        i := i + 1;
      }
      assert reserved[..i] == reserved;
    }

    method ClaimAttachments(workspace: nat, thread: Thread, ids: seq<Id>, faults: Faults, listing: seq<Aged>)
      returns (result: Result<seq<Claimed>, Error>)
      modifies this
      ensures (View(), result) == Claim(old(View()), workspace, thread, ids, faults, listing)
    {
      IdSetAccepted(ids);
      var checked := EnsureIdSet(ids);
      if checked.Err? {
        return Err(checked.error);
      }
      var reserved := ReservePending(workspace, ids);
      if reserved.Err? {
        return Err(reserved.error);
      }
      if faults.directory {
        RestorePending(reserved.value);
        return Err(DirectoryRefused);
      }
      result := RenameIntoThread(thread, reserved.value, faults);
      if result.Err? {
        RestorePending(reserved.value);
        return;
      }
      EnterClaimed(thread, reserved.value, listing);
    }
  }
}
