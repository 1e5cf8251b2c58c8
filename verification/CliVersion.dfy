/**
 * The version cache: a probe is admitted under a generation, runs outside the locks, and may
 * install its result only while its generation is still the one admitted for its key.
 */
module CliVersion {
  import opened Wrappers
  import opened RecencyQueue

  const MAX_GENERATION: nat := 0xFFFF_FFFF_FFFF_FFFF

  datatype Key = Key(path: nat, identity: nat, fingerprint: nat, effectivePath: Option<nat>)

  datatype Probe = Probe(version: Option<string>, probedAt: nat)

  /** A cached result and the generation of the probe that installed it. */
  datatype Stored = Stored(probe: Probe, writer: nat)

  datatype Registry = Registry(next: nat, admissions: Queue<Key, nat>, entries: Queue<Key, Stored>)

  datatype Admission = Admission(generation: nat, cached: Option<Probe>)

  datatype Error = Exhausted

  const NEW := Registry(1, [], [])

  function Cached(r: Registry, key: Key): Option<Probe> {
    match Find(r.entries, key)
    case None => None
    case Some(stored) => Some(stored.probe)
  }

  /** A probe joins the generation admitted for its key; a forced one always gets a new generation. */
  function Admit(r: Registry, key: Key, force: bool): Result<(Registry, Admission), Error> {
    var existing := Find(r.admissions, key);
    var cached := if force then None else Cached(r, key);
    if !force && existing.Some? then Ok((r, Admission(existing.value, cached)))
    else if r.next >= MAX_GENERATION then Err(Exhausted)
    else Ok((r.(next := r.next + 1, admissions := Push(r.admissions, key, r.next)), Admission(r.next, cached)))
  }

  predicate Current(r: Registry, key: Key, generation: nat) {
    Find(r.admissions, key) == Some(generation)
  }

  function RememberIfCurrent(r: Registry, key: Key, generation: nat, probe: Probe): Registry {
    if Current(r, key, generation) then r.(entries := Push(r.entries, key, Stored(probe, generation))) else r
  }

  // ---------------------------------------------------------------- runs

  /** Probes of any callers, interleaved: admissions, and results handed in under any generation. */
  datatype Op =
    | Admitting(key: Key, force: bool)
    | Remembering(key: Key, generation: nat, probe: Probe)

  function Apply(r: Registry, op: Op): Registry {
    match op
    case Admitting(key, force) => if Admit(r, key, force).Ok? then Admit(r, key, force).value.0 else r
    case Remembering(key, generation, probe) => RememberIfCurrent(r, key, generation, probe)
  }

  function Run(ops: seq<Op>): Registry {
    if ops == [] then NEW else Apply(Run(ops[..|ops| - 1]), ops[|ops| - 1])
  }

  /** The results installed during a run, in order. */
  function Writes(ops: seq<Op>): seq<Entry<Key, Stored>> {
    if ops == [] then []
    else
      var before, op := ops[..|ops| - 1], ops[|ops| - 1];
      if op.Remembering? && Current(Run(before), op.key, op.generation)
      then Writes(before) + [Entry(op.key, Stored(op.probe, op.generation))]
      else Writes(before)
  }

  // ---------------------------------------------------------------- invariant

  /** Nothing at or above the bound has been admitted for the key, and nothing below the floor still is. */
  predicate Above(r: Registry, key: Key, floor: nat) {
    floor < r.next && (Find(r.admissions, key).Some? ==> floor <= Find(r.admissions, key).value)
  }

  ghost predicate AdmissionsOk(r: Registry) {
    && Distinct(r.admissions) && |r.admissions| <= CAPACITY
    && 1 <= r.next <= MAX_GENERATION
    && forall i :: 0 <= i < |r.admissions| ==> 1 <= r.admissions[i].value < r.next
  }

  ghost predicate WritesOk(r: Registry, writes: seq<Entry<Key, Stored>>) {
    && r.entries == PushAll(writes)
    && (forall i :: 0 <= i < |writes| ==> Above(r, writes[i].key, writes[i].value.writer))
    && (forall i, j :: 0 <= i < j < |writes| && writes[i].key == writes[j].key ==>
                         writes[i].value.writer <= writes[j].value.writer)
  }

  lemma AdmitKeepsAdmissions(r: Registry, key: Key, force: bool, next: Registry)
    requires AdmissionsOk(r) && next == Apply(r, Admitting(key, force))
    ensures AdmissionsOk(next)
  {
    if next != r {
      PushShape(r.admissions, key, r.next, next.admissions);
    }
  }

  /** Whatever happens, generations below the floor of a key stay out. */
  lemma ApplyKeepsFloor(r: Registry, op: Op, key: Key, floor: nat, next: Registry)
    requires AdmissionsOk(r) && Above(r, key, floor) && next == Apply(r, op)
    ensures Above(next, key, floor)
  {
    if op.Admitting? && next != r {
      PushFinds(r.admissions, op.key, r.next, key);
    }
  }

  lemma WriteKeepsWrites(r: Registry, writes: seq<Entry<Key, Stored>>, key: Key, generation: nat, probe: Probe,
                         next: Registry, more: seq<Entry<Key, Stored>>)
    requires AdmissionsOk(r) && WritesOk(r, writes) && Current(r, key, generation)
    requires next == RememberIfCurrent(r, key, generation, probe)
    requires more == writes + [Entry(key, Stored(probe, generation))]
    ensures WritesOk(next, more)
  {
    assert more[..|more| - 1] == writes;
    FindLocates(r.admissions, key);
    forall i | 0 <= i < |more| ensures Above(next, more[i].key, more[i].value.writer) {
      if i < |writes| { assert Above(r, writes[i].key, writes[i].value.writer); }
    }
    forall i | 0 <= i < |writes| && writes[i].key == key ensures writes[i].value.writer <= generation {
      assert Above(r, writes[i].key, writes[i].value.writer);
    }
  }

  lemma AdmitKeepsWrites(r: Registry, writes: seq<Entry<Key, Stored>>, key: Key, force: bool, next: Registry)
    requires AdmissionsOk(r) && WritesOk(r, writes) && next == Apply(r, Admitting(key, force))
    ensures WritesOk(next, writes)
  {
    forall i | 0 <= i < |writes| ensures Above(next, writes[i].key, writes[i].value.writer) {
      ApplyKeepsFloor(r, Admitting(key, force), writes[i].key, writes[i].value.writer, next);
    }
  }

  lemma {:induction false} RunKeepsInvariants(ops: seq<Op>)
    ensures AdmissionsOk(Run(ops)) && WritesOk(Run(ops), Writes(ops))
  {
    if ops != [] {
      var before, op := ops[..|ops| - 1], ops[|ops| - 1];
      RunKeepsInvariants(before);
      match op
      case Admitting(key, force) =>
        AdmitKeepsAdmissions(Run(before), key, force, Run(ops));
        AdmitKeepsWrites(Run(before), Writes(before), key, force, Run(ops));
      case Remembering(key, generation, probe) =>
        if Current(Run(before), key, generation) {
          WriteKeepsWrites(Run(before), Writes(before), key, generation, probe, Run(ops), Writes(ops));
        }
    }
  }

  // ---------------------------------------------------------------- main results

  /** For each key, whoever installs a result was admitted no earlier than whoever installed before. */
  lemma WritersNeverGoBack(ops: seq<Op>, i: nat, j: nat)
    requires i < j < |Writes(ops)| && Writes(ops)[i].key == Writes(ops)[j].key
    ensures Writes(ops)[i].value.writer <= Writes(ops)[j].value.writer
  {
    RunKeepsInvariants(ops);
  }

  /** Both queues keep distinct keys within the bound, and the cache holds the latest writes. */
  lemma QueuesStayBounded(ops: seq<Op>)
    ensures Distinct(Run(ops).admissions) && |Run(ops).admissions| <= 16
    ensures Distinct(Run(ops).entries) && |Run(ops).entries| <= 16
    ensures Run(ops).entries == Last(Recent(Writes(ops)), 16)
  {
    RunKeepsInvariants(ops);
    QueueHoldsMostRecent(Writes(ops));
    RecentIsDistinct(Writes(ops));
  }

  /** A floor, once reached, holds for the rest of the run. */
  lemma {:induction false} FloorEndures(before: seq<Op>, after: seq<Op>, key: Key, floor: nat)
    requires Above(Run(before), key, floor)
    ensures Above(Run(before + after), key, floor)
  {
    if after == [] {
      assert before + after == before;
    } else {
      var last := |after| - 1;
      FloorEndures(before, after[..last], key, floor);
      assert (before + after)[..|before + after| - 1] == before + after[..last];
      RunKeepsInvariants(before + after[..last]);
      ApplyKeepsFloor(Run(before + after[..last]), after[last], key, floor, Run(before + after));
    }
  }

  /**
   * A probe admitted before a forced refresh of its key never installs its result once that
   * refresh has been admitted, however the queues evict in between.
   */
  lemma SupersededProbesNeverInstall(before: seq<Op>, after: seq<Op>, key: Key, generation: nat, probe: Probe)
    requires generation < Run(before).next && Admit(Run(before), key, true).Ok?
    ensures var later := Run(before + [Admitting(key, true)] + after);
            RememberIfCurrent(later, key, generation, probe) == later
  {
    var refreshed := before + [Admitting(key, true)];
    assert refreshed[..|refreshed| - 1] == before;
    RunKeepsInvariants(before);
    PushFinds(Run(before).admissions, key, Run(before).next, key);
    FloorEndures(refreshed, after, key, Run(before).next);
  }

  /** A forced refresh that nothing overtook installs its result, and a probe then reads it back. */
  lemma RefreshedResultIsServed(ops: seq<Op>, key: Key, probe: Probe)
    requires Admit(Run(ops), key, true).Ok?
    ensures var (admitted, admission) := Admit(Run(ops), key, true).value;
            var later := RememberIfCurrent(admitted, key, admission.generation, probe);
            Admit(later, key, false) == Ok((later, Admission(admission.generation, Some(probe))))
  {
    RunKeepsInvariants(ops);
    QueuesStayBounded(ops);
    PushFinds(Run(ops).admissions, key, Run(ops).next, key);
    PushFinds(Run(ops).entries, key, Stored(probe, Run(ops).next), key);
  }

  /** An admission is forced or joins: a forced one gets a new generation and no cached result. */
  lemma ForcedAdmissionIsNew(ops: seq<Op>, key: Key)
    ensures Admit(Run(ops), key, true).Ok? <==> Run(ops).next < 0xFFFF_FFFF_FFFF_FFFF
    ensures Admit(Run(ops), key, true).Ok? ==>
            var (r, admission) := Admit(Run(ops), key, true).value;
            && admission == Admission(Run(ops).next, None)
            && Find(r.admissions, key) == Some(admission.generation) && r.entries == Run(ops).entries
            && (forall i :: 0 <= i < |Run(ops).admissions| ==> Run(ops).admissions[i].value < admission.generation)
            && (forall w :: w in Writes(ops) ==> w.value.writer < admission.generation)
  {
    RunKeepsInvariants(ops);
    PushFinds(Run(ops).admissions, key, Run(ops).next, key);
    forall w | w in Writes(ops) ensures w.value.writer < Run(ops).next {
      var i :| 0 <= i < |Writes(ops)| && Writes(ops)[i] == w;
      assert Above(Run(ops), Writes(ops)[i].key, Writes(ops)[i].value.writer);
    }
  }

  /**
   * An admission that is not forced joins the generation of its key when there is one, or else opens
   * the next; either way it sees what is cached for the key.
   */
  lemma UnforcedAdmissionJoins(ops: seq<Op>, key: Key)
    ensures var r, joined := Run(ops), Find(Run(ops).admissions, key);
            var cached := Find(Run(ops).entries, key);
            if joined.None? && r.next >= 0xFFFF_FFFF_FFFF_FFFF then Admit(r, key, false) == Err(Exhausted)
            else
              && Admit(r, key, false).Ok?
              && var (next, admission) := Admit(r, key, false).value;
                 && admission.cached == (if cached.Some? then Some(cached.value.probe) else None)
                 && next.entries == r.entries
                 && (joined.Some? ==> next == r && admission.generation == joined.value)
                 && (joined.None? ==>
                       && admission.generation == r.next && next.next == r.next + 1
                       && Find(next.admissions, key) == Some(r.next))
  {
    RunKeepsInvariants(ops);
    PushFinds(Run(ops).admissions, key, Run(ops).next, key);
  }

  /** A result is installed exactly under the generation admitted for its key, and then found. */
  lemma InstalledIffCurrent(ops: seq<Op>, key: Key, generation: nat, probe: Probe)
    ensures var r := Run(ops);
            var next := Run(ops + [Remembering(key, generation, probe)]);
            if Find(r.admissions, key) == Some(generation)
            then Find(next.entries, key) == Some(Stored(probe, generation)) && next.admissions == r.admissions
            else next == r
  {
    RunKeepsInvariants(ops);
    QueuesStayBounded(ops);
    assert (ops + [Remembering(key, generation, probe)])[..|ops|] == ops;
    PushFinds(Run(ops).entries, key, Stored(probe, generation), key);
  }

  // ---------------------------------------------------------------- the registry object

  class AgentCliVersionRegistry {
    var next: nat
    var admissions: Queue<Key, nat>
    var entries: Queue<Key, Stored>

    ghost function View(): Registry
      reads this
    {
      Registry(next, admissions, entries)
    }

    constructor ()
      ensures View() == NEW && next == 1 && admissions == [] && entries == []
    {
      next, admissions, entries := 1, [], [];
    }

    method AdmitProbe(key: Key, force: bool) returns (admission: Result<Admission, Error>)
      modifies this
      ensures match Admit(old(View()), key, force)
              case Ok((r, a)) => View() == r && admission == Ok(a)
              case Err(e) => View() == old(View()) && admission == Err(e)
    {
      var existing := Find(admissions, key);
      var generation: nat;
      if !force && existing.Some? {
        generation := existing.value;
      } else {
        generation := next;
        if next >= MAX_GENERATION {
          return Err(Exhausted);
        }
        next := next + 1;
        admissions := PushBack(admissions, key, generation);
      }
      var cached: Option<Probe> := None;
      if !force {
        var found := Find(entries, key);
        cached := if found.Some? then Some(found.value.probe) else None;
      }
      admission := Ok(Admission(generation, cached));
    }

    method Remember(key: Key, generation: nat, probe: Probe)
      modifies this
      ensures View() == RememberIfCurrent(old(View()), key, generation, probe)
    {
      if Find(admissions, key) != Some(generation) {
        return;
      }
      entries := PushBack(entries, key, Stored(probe, generation));
    }
  }
}
