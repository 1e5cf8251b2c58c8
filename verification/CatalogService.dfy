/**
 * The command catalog cache.  A caller looks its catalog up, or probes the provider for it outside
 * the lock while a guard keeps others from probing for the same root and provider.
 */
module CatalogService {
  import opened Wrappers

  const TTL: nat := 60_000
  const MAX_CACHED: nat := 16

  datatype Provider = ClaudeCode | Codex

  datatype Owner = Owner(root: nat, workspaceId: nat, provider: Provider)

  datatype Key = Key(root: nat, provider: Provider)

  datatype Error = Unavailable | Loading | ProviderDisabled | ProviderChanged

  /** A catalog, with the owner and the provider generation of the probe that fetched it. */
  datatype Catalog = Catalog(contents: nat, fetchedFor: Owner, generation: nat)

  datatype Entry = Entry(key: Key, workspaceId: nat, generation: nat, fetchedAt: nat, catalog: Catalog)

  datatype State = State(entries: seq<Entry>, inFlight: seq<Key>)

  datatype Lookup = Fresh(catalog: Catalog) | Stale(catalog: Catalog) | StillLoading | Probe(key: Key)

  const EMPTY := State([], [])

  function KeyOf(o: Owner): Key { Key(o.root, o.provider) }

  // ---------------------------------------------------------------- the critical sections

  predicate OwnedBy(e: Entry, o: Owner, generation: nat) {
    e.key == KeyOf(o) && e.workspaceId == o.workspaceId && e.generation == generation
  }

  function Owned(entries: seq<Entry>, o: Owner, generation: nat): Option<Entry> {
    if entries == [] then None
    else if OwnedBy(entries[0], o, generation) then Some(entries[0])
    else Owned(entries[1..], o, generation)
  }

  /** The age of an entry; zero when its time lies ahead. */
  function Age(e: Entry, now: nat): nat {
    if now >= e.fetchedAt then now - e.fetchedAt else 0
  }

  function LookUp(s: State, o: Owner, generation: nat, now: nat): (State, Lookup) {
    var cached := Owned(s.entries, o, generation);
    if cached.Some? && Age(cached.value, now) < TTL then (s, Fresh(cached.value.catalog))
    else if KeyOf(o) in s.inFlight then (s, if cached.Some? then Stale(cached.value.catalog) else StillLoading)
    else (s.(inFlight := s.inFlight + [KeyOf(o)]), Probe(KeyOf(o)))
  }

  function WithoutKey(keys: seq<Key>, key: Key): seq<Key> {
    if keys == [] then []
    else
      var rest := WithoutKey(keys[..|keys| - 1], key);
      if keys[|keys| - 1] == key then rest else rest + [keys[|keys| - 1]]
  }

  function DropGuard(s: State, key: Key): State {
    s.(inFlight := WithoutKey(s.inFlight, key))
  }

  /** The first of the oldest entries. */
  function Oldest(entries: seq<Entry>): (i: nat)
    requires entries != []
    ensures i < |entries|
    ensures forall k :: 0 <= k < |entries| ==> entries[i].fetchedAt <= entries[k].fetchedAt
    ensures forall k :: 0 <= k < i ==> entries[i].fetchedAt < entries[k].fetchedAt
  {
    var last := |entries| - 1;
    if last == 0 then 0
    else
      var i := Oldest(entries[..last]);
      if entries[last].fetchedAt < entries[i].fetchedAt then last else i
  }

  function RemoveAt(entries: seq<Entry>, i: nat): seq<Entry>
    requires i < |entries|
  {
    entries[..i] + entries[i + 1..]
  }

  function Evict(entries: seq<Entry>): seq<Entry> {
    if |entries| <= MAX_CACHED then entries else Evict(RemoveAt(entries, Oldest(entries)))
  }

  function Position(entries: seq<Entry>, key: Key): Option<nat> {
    if entries == [] then None
    else if entries[0].key == key then Some(0)
    else match Position(entries[1..], key)
      case None => None
      case Some(i) => Some(i + 1)
  }

  function Place(entries: seq<Entry>, e: Entry): seq<Entry> {
    var at := Position(entries, e.key);
    if at.Some? && at.value < |entries| then entries[at.value := e] else entries + [e]
  }

  function Install(s: State, o: Owner, generation: nat, now: nat, catalog: Catalog): State {
    s.(entries := Evict(Place(s.entries, Entry(KeyOf(o), o.workspaceId, generation, now, catalog))))
  }

  function EnsureGeneration(current: Option<nat>, generation: nat): Result<(), Error> {
    match current
    case Some(g) => if g == generation then Ok(()) else Err(ProviderChanged)
    case None => Err(ProviderDisabled)
  }

  // ---------------------------------------------------------------- callers of resolve

  /** Where a call of resolve stands; from Probing to Installed it holds the guard of its key. */
  datatype Pc =
    | Entered(owner: Owner, now: nat)
    | LookingUp(owner: Owner, now: nat, generation: nat)
    | Serving(owner: Owner, generation: nat, catalog: Catalog)
    | Probing(owner: Owner, now: nat, generation: nat)
    | Probed(owner: Owner, now: nat, generation: nat, catalog: Catalog)
    | Checked(owner: Owner, now: nat, generation: nat, catalog: Catalog)
    | Installed(owner: Owner, generation: nat, catalog: Catalog)
    | Answered(owner: Owner, generation: nat, result: Result<Catalog, Error>, seen: Option<nat>)
    | Rejected(error: Error)
    | Unwound

  predicate Holds(pc: Pc) { pc.Probing? || pc.Probed? || pc.Checked? || pc.Installed? }

  datatype System = System(state: State, threads: map<nat, Pc>, generations: map<Provider, nat>)

  datatype Action =
    | Resolve(thread: nat, owner: Owner, now: nat)
    | Advance(thread: nat)
    | ProbeReturns(thread: nat, contents: Result<nat, Error>)
    | Unwind(thread: nat)
    | SetGeneration(provider: Provider, generation: Option<nat>)

  const START := System(EMPTY, map[], map[])

  function Current(s: System, p: Provider): Option<nat> {
    if p in s.generations then Some(s.generations[p]) else None
  }

  function Goto(s: System, t: nat, state: State, pc: Pc): System {
    s.(state := state, threads := s.threads[t := pc])
  }

  function Answer(s: System, t: nat, state: State, o: Owner, generation: nat, catalog: Catalog): System {
    var current := Current(s, o.provider);
    match EnsureGeneration(current, generation)
    case Ok(_) => Goto(s, t, state, Answered(o, generation, Ok(catalog), current))
    case Err(e) => Goto(s, t, state, Rejected(e))
  }

  function EnterStep(s: System, t: nat, o: Owner, now: nat): System {
    match Current(s, o.provider)
    case Some(g) => Goto(s, t, s.state, LookingUp(o, now, g))
    case None => Goto(s, t, s.state, Rejected(ProviderDisabled))
  }

  function LookUpStep(s: System, t: nat, o: Owner, now: nat, generation: nat): System {
    var (state, found) := LookUp(s.state, o, generation, now);
    match found
    case Fresh(c) => Goto(s, t, state, Serving(o, generation, c))
    case Stale(c) => Goto(s, t, state, Serving(o, generation, c))
    case StillLoading => Goto(s, t, state, Rejected(Loading))
    case Probe(_) => Goto(s, t, state, Probing(o, now, generation))
  }

  /** The check between parsing and installing; a failure drops the guard. */
  function CheckStep(s: System, t: nat, o: Owner, now: nat, generation: nat, catalog: Catalog): System {
    match EnsureGeneration(Current(s, o.provider), generation)
    case Ok(_) => Goto(s, t, s.state, Checked(o, now, generation, catalog))
    case Err(e) => Goto(s, t, DropGuard(s.state, KeyOf(o)), Rejected(e))
  }

  function AdvanceStep(s: System, t: nat, pc: Pc): System {
    match pc
    case Entered(o, now) => EnterStep(s, t, o, now)
    case LookingUp(o, now, generation) => LookUpStep(s, t, o, now, generation)
    case Serving(o, generation, catalog) => Answer(s, t, s.state, o, generation, catalog)
    case Probed(o, now, generation, catalog) => CheckStep(s, t, o, now, generation, catalog)
    case Checked(o, now, generation, catalog) =>
      Goto(s, t, Install(s.state, o, generation, now, catalog), Installed(o, generation, catalog))
    case Installed(o, generation, catalog) => Goto(s, t, DropGuard(s.state, KeyOf(o)), Serving(o, generation, catalog))
    case _ => s
  }

  /** The probe or the parsing of its output may fail, which drops the guard. */
  function ProbeStep(s: System, t: nat, pc: Pc, contents: Result<nat, Error>): System
    requires pc.Probing?
  {
    match contents
    case Ok(c) => Goto(s, t, s.state, Probed(pc.owner, pc.now, pc.generation, Catalog(c, pc.owner, pc.generation)))
    case Err(e) => Goto(s, t, DropGuard(s.state, KeyOf(pc.owner)), Rejected(e))
  }

  function Step(s: System, a: Action): System {
    match a
    case Resolve(t, o, now) => if t in s.threads then s else Goto(s, t, s.state, Entered(o, now))
    case Advance(t) => if t in s.threads then AdvanceStep(s, t, s.threads[t]) else s
    case ProbeReturns(t, contents) =>
      if t in s.threads && s.threads[t].Probing? then ProbeStep(s, t, s.threads[t], contents) else s
    case Unwind(t) =>
      if t in s.threads && Holds(s.threads[t]) then
        Goto(s, t, DropGuard(s.state, KeyOf(s.threads[t].owner)), Unwound)
      else s
    case SetGeneration(p, g) =>
      s.(generations := if g.Some? then s.generations[p := g.value] else s.generations - {p})
  }

  function Run(actions: seq<Action>): System {
    if actions == [] then START else Step(Run(actions[..|actions| - 1]), actions[|actions| - 1])
  }

  // ---------------------------------------------------------------- invariant

  predicate FetchedFor(c: Catalog, o: Owner, generation: nat) {
    c.fetchedFor == o && c.generation == generation
  }

  predicate EntryOk(e: Entry) {
    FetchedFor(e.catalog, Owner(e.key.root, e.workspaceId, e.key.provider), e.generation)
  }

  ghost predicate WellKept(entries: seq<Entry>) {
    && (forall i :: 0 <= i < |entries| ==> EntryOk(entries[i]))
    && (forall i, j :: 0 <= i < j < |entries| ==> entries[i].key != entries[j].key)
  }

  ghost predicate EntriesOk(entries: seq<Entry>) {
    |entries| <= MAX_CACHED && WellKept(entries)
  }

  predicate PcOk(pc: Pc) {
    match pc
    case Serving(o, generation, catalog) => FetchedFor(catalog, o, generation)
    case Probed(o, _, generation, catalog) => FetchedFor(catalog, o, generation)
    case Checked(o, _, generation, catalog) => FetchedFor(catalog, o, generation)
    case Installed(o, generation, catalog) => FetchedFor(catalog, o, generation)
    case Answered(o, generation, result, seen) =>
      result.Ok? && FetchedFor(result.value, o, generation) && seen == Some(generation)
    case _ => true
  }

  ghost predicate Held(threads: map<nat, Pc>, key: Key) {
    exists t :: t in threads && Holds(threads[t]) && KeyOf(threads[t].owner) == key
  }

  ghost predicate NoRepeats(keys: seq<Key>) {
    forall i, j :: 0 <= i < j < |keys| ==> keys[i] != keys[j]
  }

  /** No two threads hold a guard of the same key. */
  ghost predicate HeldOnce(threads: map<nat, Pc>) {
    forall t, u :: t in threads && u in threads && Holds(threads[t]) && Holds(threads[u]) && t != u ==>
                     KeyOf(threads[t].owner) != KeyOf(threads[u].owner)
  }

  /** The keys in flight are distinct, and are those of the threads that hold a guard, one each. */
  ghost predicate FlightOk(inFlight: seq<Key>, threads: map<nat, Pc>) {
    && NoRepeats(inFlight)
    && (forall t :: t in threads && Holds(threads[t]) ==> KeyOf(threads[t].owner) in inFlight)
    && (forall key :: key in inFlight ==> Held(threads, key))
    && HeldOnce(threads)
  }

  ghost predicate Inv(s: System) {
    && EntriesOk(s.state.entries)
    && FlightOk(s.state.inFlight, s.threads)
    && forall t :: t in s.threads ==> PcOk(s.threads[t])
  }

  // ---------------------------------------------------------------- guards

  lemma {:induction false} WithoutKeyRemoves(keys: seq<Key>, key: Key)
    ensures forall k :: k in WithoutKey(keys, key) <==> k in keys && k != key
    ensures NoRepeats(keys) ==> NoRepeats(WithoutKey(keys, key))
  {
    if keys != [] {
      var before, last := keys[..|keys| - 1], keys[|keys| - 1];
      WithoutKeyRemoves(before, key);
      assert keys == before + [last];
      if NoRepeats(keys) {
        assert last !in before;
        assert last !in WithoutKey(before, key);
      }
    }
  }

  /** Another thread's move does not change which of the remaining keys are held. */
  lemma HeldElsewhere(threads: map<nat, Pc>, t: nat, pc: Pc, key: Key)
    requires Held(threads, key)
    requires t in threads && Holds(threads[t]) && KeyOf(threads[t].owner) == key ==>
               Holds(pc) && KeyOf(pc.owner) == key
    ensures Held(threads[t := pc], key)
  {
    var u :| u in threads && Holds(threads[u]) && KeyOf(threads[u].owner) == key;
    assert u in threads[t := pc] && Holds(threads[t := pc][u]) && KeyOf(threads[t := pc][u].owner) == key;
  }

  /** A thread that keeps what guard it holds, if any, leaves the keys in flight as they are. */
  lemma MoveKeepsFlight(inFlight: seq<Key>, threads: map<nat, Pc>, t: nat, pc: Pc)
    requires FlightOk(inFlight, threads)
    requires Holds(pc) <==> t in threads && Holds(threads[t])
    requires Holds(pc) ==> KeyOf(pc.owner) == KeyOf(threads[t].owner)
    ensures FlightOk(inFlight, threads[t := pc])
  {
    forall key | key in inFlight ensures Held(threads[t := pc], key) {
      HeldElsewhere(threads, t, pc, key);
    }
  }

  lemma AcquireKeepsFlight(inFlight: seq<Key>, threads: map<nat, Pc>, t: nat, pc: Pc)
    requires FlightOk(inFlight, threads) && Holds(pc) && KeyOf(pc.owner) !in inFlight
    requires t in threads && !Holds(threads[t])
    ensures FlightOk(inFlight + [KeyOf(pc.owner)], threads[t := pc])
  {
    var more := inFlight + [KeyOf(pc.owner)];
    assert t in threads[t := pc] && Holds(threads[t := pc][t]);
    forall key | key in more ensures Held(threads[t := pc], key) {
      if key in inFlight { HeldElsewhere(threads, t, pc, key); }
    }
  }

  lemma ReleaseKeepsFlight(inFlight: seq<Key>, threads: map<nat, Pc>, t: nat, pc: Pc)
    requires FlightOk(inFlight, threads) && !Holds(pc)
    requires t in threads && Holds(threads[t])
    ensures FlightOk(WithoutKey(inFlight, KeyOf(threads[t].owner)), threads[t := pc])
  {
    var key := KeyOf(threads[t].owner);
    WithoutKeyRemoves(inFlight, key);
    forall k | k in WithoutKey(inFlight, key) ensures Held(threads[t := pc], k) {
      HeldElsewhere(threads, t, pc, k);
    }
  }

  // ---------------------------------------------------------------- entries

  lemma {:induction false} OwnedIsOwned(entries: seq<Entry>, o: Owner, generation: nat)
    ensures match Owned(entries, o, generation)
            case Some(e) => e in entries && OwnedBy(e, o, generation)
            case None => forall i :: 0 <= i < |entries| ==> !OwnedBy(entries[i], o, generation)
  {
    if entries != [] && !OwnedBy(entries[0], o, generation) {
      OwnedIsOwned(entries[1..], o, generation);
      forall i | 0 <= i < |entries| && Owned(entries, o, generation).None? ensures !OwnedBy(entries[i], o, generation) {
        if i > 0 { assert entries[i] == entries[1..][i - 1]; }
      }
    }
  }

  lemma {:induction false} PositionFinds(entries: seq<Entry>, key: Key)
    ensures match Position(entries, key)
            case Some(i) => i < |entries| && entries[i].key == key
            case None => forall i :: 0 <= i < |entries| ==> entries[i].key != key
  {
    if entries != [] && entries[0].key != key {
      PositionFinds(entries[1..], key);
      forall i | 0 <= i < |entries| && Position(entries, key).None? ensures entries[i].key != key {
        if i > 0 { assert entries[i] == entries[1..][i - 1]; }
      }
    }
  }

  lemma EvictOne(entries: seq<Entry>)
    requires |entries| <= MAX_CACHED + 1
    ensures Evict(entries) == if |entries| <= MAX_CACHED then entries else RemoveAt(entries, Oldest(entries))
  {
  }

  lemma PlaceKeepsEntries(entries: seq<Entry>, e: Entry, next: seq<Entry>)
    requires EntriesOk(entries) && EntryOk(e) && next == Place(entries, e)
    ensures |next| <= MAX_CACHED + 1 && WellKept(next)
  {
    PositionFinds(entries, e.key);
  }

  /** Placing an entry replaces the one of its key, if any, and leaves every other as it was. */
  lemma PlaceReplacesItsKey(entries: seq<Entry>, e: Entry, other: Entry)
    requires WellKept(entries)
    ensures other in Place(entries, e) <==> other == e || (other in entries && other.key != e.key)
  {
    PositionFinds(entries, e.key);
    var at := Position(entries, e.key);
    var placed := Place(entries, e);
    if at.Some? {
      assert placed[at.value] == e;
      if other in entries && other.key != e.key {
        var i :| 0 <= i < |entries| && entries[i] == other;
        assert placed[i] == other;
      }
    }
  }

  lemma InstallKeepsEntries(entries: seq<Entry>, e: Entry)
    requires EntriesOk(entries) && EntryOk(e)
    ensures EntriesOk(Evict(Place(entries, e)))
  {
    var placed := Place(entries, e);
    PlaceKeepsEntries(entries, e, placed);
    EvictOne(placed);
    if |placed| > MAX_CACHED {
      RemoveKeepsRest(placed, Oldest(placed), Evict(placed));
    }
  }

  lemma RemoveKeepsRest(entries: seq<Entry>, i: nat, rest: seq<Entry>)
    requires WellKept(entries) && i < |entries| && rest == RemoveAt(entries, i)
    ensures WellKept(rest) && |rest| == |entries| - 1
  {
    assert forall k :: 0 <= k < |rest| ==> rest[k] == entries[if k < i then k else k + 1];
  }

  /** What eviction drops is no younger than anything it keeps. */
  lemma {:induction false} EvictDropsOldest(entries: seq<Entry>, dropped: Entry, kept: Entry)
    requires dropped in entries && dropped !in Evict(entries) && kept in Evict(entries)
    ensures dropped.fetchedAt <= kept.fetchedAt && |Evict(entries)| == MAX_CACHED
    decreases |entries|
  {
    var i := Oldest(entries);
    var rest := RemoveAt(entries, i);
    EvictKeepsPart(rest, kept);
    if dropped in rest {
      EvictDropsOldest(rest, dropped, kept);
    } else {
      EvictFills(rest);
    }
  }

  lemma {:induction false} EvictFills(entries: seq<Entry>)
    requires |entries| >= MAX_CACHED
    ensures |Evict(entries)| == MAX_CACHED
    decreases |entries|
  {
    if |entries| > MAX_CACHED {
      EvictFills(RemoveAt(entries, Oldest(entries)));
    }
  }

  lemma {:induction false} EvictKeepsPart(entries: seq<Entry>, kept: Entry)
    requires kept in Evict(entries)
    ensures kept in entries
    decreases |entries|
  {
    if |entries| > MAX_CACHED {
      EvictKeepsPart(RemoveAt(entries, Oldest(entries)), kept);
    }
  }

  // ---------------------------------------------------------------- steps keep the invariant

  lemma LookUpKeepsInv(s: System, t: nat, o: Owner, now: nat, generation: nat, next: System)
    requires Inv(s) && t in s.threads && s.threads[t] == LookingUp(o, now, generation)
    requires next == LookUpStep(s, t, o, now, generation)
    ensures Inv(next)
  {
    OwnedIsOwned(s.state.entries, o, generation);
    if next.threads[t].Probing? {
      AcquireKeepsFlight(s.state.inFlight, s.threads, t, next.threads[t]);
    } else {
      QuietKeepsInv(s, t, next.threads[t], next);
    }
  }

  lemma QuietKeepsInv(s: System, t: nat, pc: Pc, next: System)
    requires Inv(s) && PcOk(pc) && next == Goto(s, t, s.state, pc)
    requires Holds(pc) <==> t in s.threads && Holds(s.threads[t])
    requires Holds(pc) ==> KeyOf(pc.owner) == KeyOf(s.threads[t].owner)
    ensures Inv(next)
  {
    MoveKeepsFlight(s.state.inFlight, s.threads, t, pc);
  }

  lemma ReleaseKeepsInv(s: System, t: nat, pc: Pc, next: System)
    requires Inv(s) && PcOk(pc) && !Holds(pc) && t in s.threads && Holds(s.threads[t])
    requires next == Goto(s, t, DropGuard(s.state, KeyOf(s.threads[t].owner)), pc)
    ensures Inv(next)
  {
    ReleaseKeepsFlight(s.state.inFlight, s.threads, t, pc);
  }

  lemma InstallKeepsInv(s: System, t: nat, pc: Pc, next: System)
    requires Inv(s) && t in s.threads && s.threads[t] == pc && pc.Checked? && next == AdvanceStep(s, t, pc)
    ensures Inv(next)
  {
    InstallKeepsEntries(s.state.entries, Entry(KeyOf(pc.owner), pc.owner.workspaceId, pc.generation, pc.now, pc.catalog));
    MoveKeepsFlight(s.state.inFlight, s.threads, t, next.threads[t]);
  }

  lemma AdvanceKeepsInv(s: System, t: nat, pc: Pc, next: System)
    requires Inv(s) && t in s.threads && s.threads[t] == pc && next == AdvanceStep(s, t, pc)
    ensures Inv(next)
  {
    match pc
    case Entered(o, now) => QuietKeepsInv(s, t, next.threads[t], next);
    case LookingUp(o, now, generation) => LookUpKeepsInv(s, t, o, now, generation, next);
    case Serving(o, generation, catalog) => QuietKeepsInv(s, t, next.threads[t], next);
    case Probed(o, now, generation, catalog) =>
      if next.threads[t].Checked? { QuietKeepsInv(s, t, next.threads[t], next); }
      else { ReleaseKeepsInv(s, t, next.threads[t], next); }
    case Checked(o, now, generation, catalog) => InstallKeepsInv(s, t, pc, next);
    case Installed(o, generation, catalog) => ReleaseKeepsInv(s, t, next.threads[t], next);
    case _ =>
  }

  lemma StepKeepsInv(s: System, a: Action, next: System)
    requires Inv(s) && next == Step(s, a)
    ensures Inv(next)
  {
    match a
    case Resolve(t, o, now) => if t !in s.threads { QuietKeepsInv(s, t, Entered(o, now), next); }
    case Advance(t) => if t in s.threads { AdvanceKeepsInv(s, t, s.threads[t], next); }
    case ProbeReturns(t, contents) =>
      if t in s.threads && s.threads[t].Probing? {
        if contents.Ok? { QuietKeepsInv(s, t, next.threads[t], next); }
        else { ReleaseKeepsInv(s, t, next.threads[t], next); }
      }
    case Unwind(t) =>
      if t in s.threads && Holds(s.threads[t]) { ReleaseKeepsInv(s, t, Unwound, next); }
    case SetGeneration(_, _) =>
  }

  lemma {:induction false} RunKeepsInv(actions: seq<Action>)
    ensures Inv(Run(actions))
  {
    if actions != [] {
      RunKeepsInv(actions[..|actions| - 1]);
      StepKeepsInv(Run(actions[..|actions| - 1]), actions[|actions| - 1], Run(actions));
    }
  }

  // ---------------------------------------------------------------- main results

  /** At most one probe per root and provider; a key is in flight exactly while a caller holds its guard. */
  lemma OneProbePerKey(actions: seq<Action>, key: Key)
    ensures key in Run(actions).state.inFlight <==> Held(Run(actions).threads, key)
    ensures HeldOnce(Run(actions).threads)
  {
    RunKeepsInv(actions);
  }

  /** An answer was fetched for exactly its caller, under the generation seen at the last check. */
  lemma AnswersBelongToTheirCaller(actions: seq<Action>, t: nat)
    requires t in Run(actions).threads && Run(actions).threads[t].Answered?
    ensures var pc := Run(actions).threads[t];
            pc.result.Ok? && FetchedFor(pc.result.value, pc.owner, pc.generation) && pc.seen == Some(pc.generation)
  {
    RunKeepsInv(actions);
    assert PcOk(Run(actions).threads[t]);
  }

  lemma StepAnswersWhileCurrent(s: System, a: Action, t: nat, next: System)
    requires next == Step(s, a) && t in next.threads && next.threads[t].Answered?
    requires t in s.threads ==> !s.threads[t].Answered?
    ensures var pc := next.threads[t];
            Current(s, pc.owner.provider) == Some(pc.generation) == Current(next, pc.owner.provider)
  {
  }

  /** The last check and the answer are one step: the generation is the provider's at that moment. */
  lemma AnsweredWhileCurrent(before: seq<Action>, a: Action, t: nat)
    requires t in Run(before + [a]).threads && Run(before + [a]).threads[t].Answered?
    requires t in Run(before).threads ==> !Run(before).threads[t].Answered?
    ensures var pc := Run(before + [a]).threads[t];
            Current(Run(before), pc.owner.provider) == Some(pc.generation) == Current(Run(before + [a]), pc.owner.provider)
  {
    assert (before + [a])[..|before + [a]| - 1] == before;
    StepAnswersWhileCurrent(Run(before), a, t, Run(before + [a]));
  }

  ghost predicate CachedWithin(entries: seq<Entry>, c: Catalog, now: nat) {
    exists e :: e in entries && e.catalog == c && Age(e, now) < TTL
  }

  /** What may be found: fresh within the time to live, or stale while another caller probes for the key. */
  ghost predicate MayFind(s: System, o: Owner, generation: nat, now: nat, found: Lookup) {
    match found
    case Fresh(c) => FetchedFor(c, o, generation) && CachedWithin(s.state.entries, c, now)
    case Stale(c) => FetchedFor(c, o, generation) && Held(s.threads, KeyOf(o))
    case StillLoading => Held(s.threads, KeyOf(o)) && Owned(s.state.entries, o, generation).None?
    case Probe(key) => key == KeyOf(o) && !Held(s.threads, key)
  }

  /** Stale catalogs are found only while a probe for the key runs, and probes start only when none does. */
  lemma LookUpServes(actions: seq<Action>, o: Owner, generation: nat, now: nat)
    ensures MayFind(Run(actions), o, generation, now, LookUp(Run(actions).state, o, generation, now).1)
  {
    RunKeepsInv(actions);
    OwnedIsOwned(Run(actions).state.entries, o, generation);
    var cached := Owned(Run(actions).state.entries, o, generation);
    if cached.Some? {
      assert EntryOk(cached.value);
    }
  }

  /** Thread t stood at pc before action k. */
  predicate StoodAt(actions: seq<Action>, k: nat, t: nat, pc: Pc)
    requires k < |actions|
  {
    t in Run(actions[..k]).threads && Run(actions[..k]).threads[t] == pc
  }

  /** At action k the probe of thread t, for this owner and generation, returned what was parsed to the catalog. */
  predicate ProbeSucceededAt(actions: seq<Action>, k: nat, t: nat, o: Owner, now: nat, generation: nat, c: Catalog)
    requires k < |actions|
  {
    actions[k] == ProbeReturns(t, Ok(c.contents)) && StoodAt(actions, k, t, Probing(o, now, generation))
  }

  /** At action k thread t found that generation still current after the probe. */
  predicate CheckPassedAt(actions: seq<Action>, k: nat, t: nat, o: Owner, now: nat, generation: nat, c: Catalog)
    requires k < |actions|
  {
    && actions[k] == Advance(t) && StoodAt(actions, k, t, Probed(o, now, generation, c))
    && Current(Run(actions[..k]), o.provider) == Some(generation)
  }

  ghost predicate ProbeSucceeded(actions: seq<Action>, t: nat, o: Owner, now: nat, generation: nat, c: Catalog) {
    exists k: nat :: k < |actions| && ProbeSucceededAt(actions, k, t, o, now, generation, c)
  }

  ghost predicate CheckPassed(actions: seq<Action>, t: nat, o: Owner, now: nat, generation: nat, c: Catalog) {
    exists k: nat :: k < |actions| && CheckPassedAt(actions, k, t, o, now, generation, c)
  }

  /** How a thread came to where it stands. */
  ghost predicate CameBy(actions: seq<Action>, t: nat, pc: Pc) {
    match pc
    case Probed(o, now, generation, c) => ProbeSucceeded(actions, t, o, now, generation, c)
    case Checked(o, now, generation, c) =>
      ProbeSucceeded(actions, t, o, now, generation, c) && CheckPassed(actions, t, o, now, generation, c)
    case _ => true
  }

  lemma CameByGrows(before: seq<Action>, actions: seq<Action>, t: nat, pc: Pc)
    requires actions != [] && before == actions[..|actions| - 1] && CameBy(before, t, pc)
    ensures CameBy(actions, t, pc)
  {
    if pc.Probed? || pc.Checked? {
      var k: nat :| k < |before| && ProbeSucceededAt(before, k, t, pc.owner, pc.now, pc.generation, pc.catalog);
      assert before[..k] == actions[..k];
      assert ProbeSucceededAt(actions, k, t, pc.owner, pc.now, pc.generation, pc.catalog);
    }
    if pc.Checked? {
      var k: nat :| k < |before| && CheckPassedAt(before, k, t, pc.owner, pc.now, pc.generation, pc.catalog);
      assert before[..k] == actions[..k];
      assert CheckPassedAt(actions, k, t, pc.owner, pc.now, pc.generation, pc.catalog);
    }
  }

  /** What a step that takes a thread to Probed or Checked was. */
  lemma StepArrives(s: System, a: Action, t: nat, pc: Pc)
    requires t in Step(s, a).threads && Step(s, a).threads[t] == pc
    requires t in s.threads ==> s.threads[t] != pc
    ensures pc.Probed? ==>
              && t in s.threads && s.threads[t] == Probing(pc.owner, pc.now, pc.generation)
              && a == ProbeReturns(t, Ok(pc.catalog.contents))
    ensures pc.Checked? ==>
              && t in s.threads && s.threads[t] == Probed(pc.owner, pc.now, pc.generation, pc.catalog)
              && a == Advance(t) && Current(s, pc.owner.provider) == Some(pc.generation)
  {
  }

  lemma {:induction false} RunCameBy(actions: seq<Action>, t: nat)
    requires t in Run(actions).threads
    ensures CameBy(actions, t, Run(actions).threads[t])
  {
    var last := |actions| - 1;
    var before, a, pc := actions[..last], actions[last], Run(actions).threads[t];
    if t in Run(before).threads {
      RunCameBy(before, t);
      CameByGrows(before, actions, t, Run(before).threads[t]);
    }
    if !(t in Run(before).threads && Run(before).threads[t] == pc) {
      StepArrives(Run(before), a, t, pc);
      if pc.Probed? {
        assert ProbeSucceededAt(actions, last, t, pc.owner, pc.now, pc.generation, pc.catalog);
      } else if pc.Checked? {
        var k: nat :| k < |actions| && ProbeSucceededAt(actions, k, t, pc.owner, pc.now, pc.generation, pc.catalog);
        assert CheckPassedAt(actions, last, t, pc.owner, pc.now, pc.generation, pc.catalog);
      }
    }
  }

  lemma StepChangesEntries(s: System, a: Action)
    requires Step(s, a).state.entries != s.state.entries
    ensures a.Advance? && a.thread in s.threads && s.threads[a.thread].Checked?
    ensures var pc := s.threads[a.thread];
            Step(s, a).state == Install(s.state, pc.owner, pc.generation, pc.now, pc.catalog)
  {
  }

  /**
   * Over every run, a step that changes the cache is that of a caller whose probe returned, whose
   * output was parsed and whose generation was then still current; and it installs that very
   * catalog.  So failed probes, failed parses and outdated generations never touch the cache.
   */
  lemma FailuresLeaveCacheAlone(before: seq<Action>, a: Action)
    requires Run(before + [a]).state.entries != Run(before).state.entries
    ensures a.Advance? && a.thread in Run(before).threads && Run(before).threads[a.thread].Checked?
    ensures var pc := Run(before).threads[a.thread];
            && ProbeSucceeded(before, a.thread, pc.owner, pc.now, pc.generation, pc.catalog)
            && CheckPassed(before, a.thread, pc.owner, pc.now, pc.generation, pc.catalog)
            && Run(before + [a]).state == Install(Run(before).state, pc.owner, pc.generation, pc.now, pc.catalog)
  {
    assert (before + [a])[..|before + [a]| - 1] == before;
    StepChangesEntries(Run(before), a);
    RunCameBy(before, a.thread);
  }

  // ---------------------------------------------------------------- what a caller gets, by what is cached

  /** The entry was fetched for this caller, under this generation. */
  predicate Matches(e: Entry, o: Owner, generation: nat) {
    && e.key.root == o.root && e.key.provider == o.provider
    && e.workspaceId == o.workspaceId && e.generation == generation
  }

  /** It is younger than a minute. */
  predicate Young(e: Entry, now: nat) { now < e.fetchedAt + 60_000 }

  ghost predicate HasMatch(entries: seq<Entry>, o: Owner, generation: nat) {
    exists e :: e in entries && Matches(e, o, generation)
  }

  lemma {:induction false} OwnedMatches(entries: seq<Entry>, o: Owner, generation: nat)
    ensures match Owned(entries, o, generation)
            case None => !HasMatch(entries, o, generation)
            case Some(e) => e in entries && Matches(e, o, generation)
  {
    if entries != [] && !OwnedBy(entries[0], o, generation) {
      OwnedMatches(entries[1..], o, generation);
      assert entries == [entries[0]] + entries[1..];
    }
  }

  lemma OneMatch(entries: seq<Entry>, o: Owner, generation: nat, e: Entry)
    requires WellKept(entries) && e in entries && Matches(e, o, generation)
    ensures Owned(entries, o, generation) == Some(e)
  {
    OwnedMatches(entries, o, generation);
    assert HasMatch(entries, o, generation);
    var found := Owned(entries, o, generation).value;
    var i :| 0 <= i < |entries| && entries[i] == e;
    var j :| 0 <= j < |entries| && entries[j] == found;
  }

  /**
   * In every run: a catalog cached for the caller less than a minute ago is served as it is; an older
   * one, while a probe for its root and provider runs; without one the caller waits for that probe, or
   * is the one to probe.
   */
  lemma LookUpDecides(actions: seq<Action>, o: Owner, generation: nat, now: nat)
    ensures var s := Run(actions).state;
            var (next, found) := LookUp(s, o, generation, now);
            && (forall e :: e in s.entries && Matches(e, o, generation) ==>
                              && (Young(e, now) ==> found == Fresh(e.catalog))
                              && (!Young(e, now) && KeyOf(o) in s.inFlight ==> found == Stale(e.catalog))
                              && (!Young(e, now) && KeyOf(o) !in s.inFlight ==> found == Probe(KeyOf(o))))
            && (!HasMatch(s.entries, o, generation) ==>
                  found == if KeyOf(o) in s.inFlight then StillLoading else Probe(KeyOf(o)))
            && next.entries == s.entries
            && next.inFlight == (if found.Probe? then s.inFlight + [Key(o.root, o.provider)] else s.inFlight)
  {
    RunKeepsInv(actions);
    var s := Run(actions).state;
    OwnedMatches(s.entries, o, generation);
    forall e | e in s.entries && Matches(e, o, generation) ensures Owned(s.entries, o, generation) == Some(e) {
      OneMatch(s.entries, o, generation, e);
    }
  }

  /** A catalog that has just been installed and was not evicted is served to its owner for a minute. */
  lemma InstalledIsServed(actions: seq<Action>, t: nat, now: nat)
    requires t in Run(actions).threads && Run(actions).threads[t].Checked?
    ensures var pc := Run(actions).threads[t];
            var s := Run(actions + [Advance(t)]).state;
            var e := Entry(KeyOf(pc.owner), pc.owner.workspaceId, pc.generation, pc.now, pc.catalog);
            && (e in s.entries && now < pc.now + 60_000 ==>
                  LookUp(s, pc.owner, pc.generation, now) == (s, Fresh(pc.catalog)))
            && t in Run(actions + [Advance(t)]).threads
            && Run(actions + [Advance(t)]).threads[t] == Installed(pc.owner, pc.generation, pc.catalog)
  {
    var pc := Run(actions).threads[t];
    assert (actions + [Advance(t)])[..|actions|] == actions;
    LookUpDecides(actions + [Advance(t)], pc.owner, pc.generation, now);
  }

  /** Why a caller is turned away when the provider is not of its generation any more. */
  predicate TurnedAway(s: System, o: Owner, pc: Pc) {
    pc == Rejected(if o.provider in s.generations then ProviderChanged else ProviderDisabled)
  }

  predicate IsCurrent(s: System, o: Owner, generation: nat) {
    o.provider in s.generations && s.generations[o.provider] == generation
  }

  /** A caller goes on under the current generation, is turned away when there is none, and looks up for itself. */
  lemma EnteringDecides(s: System, t: nat, o: Owner, now: nat)
    requires t in s.threads && s.threads[t] == Entered(o, now)
    ensures Step(s, Advance(t)) ==
            s.(threads := s.threads[t := if o.provider in s.generations then LookingUp(o, now, s.generations[o.provider])
                                         else Rejected(ProviderDisabled)])
  {
  }

  lemma LookingUpDecides(s: System, t: nat, o: Owner, now: nat, generation: nat)
    requires t in s.threads && s.threads[t] == LookingUp(o, now, generation)
    ensures var (state, found) := LookUp(s.state, o, generation, now);
            Step(s, Advance(t)) ==
            s.(state := state,
               threads := s.threads[t := if found.Fresh? || found.Stale? then Serving(o, generation, found.catalog)
                                         else if found.Probe? then Probing(o, now, generation) else Rejected(Loading)])
  {
  }

  /** What is served at last is answered exactly while its generation is current. */
  lemma ServingDecides(s: System, t: nat, o: Owner, generation: nat, catalog: Catalog)
    requires t in s.threads && s.threads[t] == Serving(o, generation, catalog)
    ensures var next := Step(s, Advance(t));
            && next.state == s.state && t in next.threads
            && if IsCurrent(s, o, generation) then next.threads[t].Answered? && next.threads[t].result == Ok(catalog)
               else TurnedAway(s, o, next.threads[t])
  {
  }

  /** A probe that returns goes on with its catalog; one that fails is rejected with its error and frees its key. */
  lemma ProbeReturnDecides(s: System, t: nat, o: Owner, now: nat, generation: nat, contents: Result<nat, Error>)
    requires t in s.threads && s.threads[t] == Probing(o, now, generation)
    ensures var next := Step(s, ProbeReturns(t, contents));
            && t in next.threads && next.state.entries == s.state.entries
            && (contents.Ok? ==>
                  && next.threads[t] == Probed(o, now, generation, Catalog(contents.value, o, generation))
                  && next.state == s.state)
            && (contents.Err? ==> next.threads[t] == Rejected(contents.error) && KeyOf(o) !in next.state.inFlight)
  {
    WithoutKeyRemoves(s.state.inFlight, KeyOf(o));
  }

  /** The check after the probe: go on under the current generation, or be turned away and free the key. */
  lemma CheckDecides(s: System, t: nat, o: Owner, now: nat, generation: nat, catalog: Catalog)
    requires t in s.threads && s.threads[t] == Probed(o, now, generation, catalog)
    ensures var next := Step(s, Advance(t));
            && t in next.threads && next.state.entries == s.state.entries
            && if IsCurrent(s, o, generation) then next.threads[t] == Checked(o, now, generation, catalog) && next.state == s.state
               else TurnedAway(s, o, next.threads[t]) && KeyOf(o) !in next.state.inFlight
  {
    WithoutKeyRemoves(s.state.inFlight, KeyOf(o));
  }

  /** A caller that unwinds frees its key. */
  lemma UnwindingFrees(s: System, t: nat)
    requires t in s.threads && Holds(s.threads[t])
    ensures var next := Step(s, Unwind(t));
            && t in next.threads && next.threads[t] == Unwound && next.state.entries == s.state.entries
            && KeyOf(s.threads[t].owner) !in next.state.inFlight
            && forall key :: key != KeyOf(s.threads[t].owner) ==> (key in next.state.inFlight <==> key in s.state.inFlight)
  {
    WithoutKeyRemoves(s.state.inFlight, KeyOf(s.threads[t].owner));
  }

  /** With this action thread t passes the check after its probe. */
  predicate PassesBy(s: System, a: Action, t: nat) {
    && a == Advance(t) && t in s.threads && s.threads[t].Probed?
    && Current(s, s.threads[t].owner.provider) == Some(s.threads[t].generation)
  }

  /** With this action thread t installs its catalog. */
  predicate InstallsBy(s: System, a: Action, t: nat) {
    a == Advance(t) && t in s.threads && s.threads[t].Checked?
  }

  predicate PassesAt(actions: seq<Action>, k: nat, t: nat) {
    k < |actions| && PassesBy(Run(actions[..k]), actions[k], t)
  }

  predicate InstallsAt(actions: seq<Action>, k: nat, t: nat) {
    k < |actions| && InstallsBy(Run(actions[..k]), actions[k], t)
  }

  ghost predicate Passes(actions: seq<Action>, t: nat) { exists k: nat :: PassesAt(actions, k, t) }

  ghost predicate Installs(actions: seq<Action>, t: nat) { exists k: nat :: InstallsAt(actions, k, t) }

  lemma PassingGrows(before: seq<Action>, actions: seq<Action>, t: nat)
    requires actions != [] && before == actions[..|actions| - 1]
    ensures Passes(actions, t) <==> Passes(before, t) || PassesAt(actions, |before|, t)
    ensures Installs(actions, t) <==> Installs(before, t) || InstallsAt(actions, |before|, t)
  {
    forall k: nat | k < |before| ensures PassesAt(actions, k, t) <==> PassesAt(before, k, t)
    {
      assert before[..k] == actions[..k];
    }
    forall k: nat | k < |before| ensures InstallsAt(actions, k, t) <==> InstallsAt(before, k, t)
    {
      assert before[..k] == actions[..k];
    }
  }

  /** A thread arrives at Checked by passing the check, and only so. */
  lemma CheckedByPassing(s: System, a: Action, t: nat, next: System)
    requires next == Step(s, a) && t in next.threads && !(t in s.threads && s.threads[t].Checked?)
    ensures next.threads[t].Checked? <==> PassesBy(s, a, t)
  {
  }

  /** It leaves Checked by installing or unwinding. */
  lemma CheckedInstalls(s: System, a: Action, t: nat, next: System)
    requires next == Step(s, a) && t in s.threads && (s.threads[t].Checked? || s.threads[t].Unwound?)
    ensures t in next.threads
    ensures next.threads[t] == s.threads[t] || next.threads[t].Unwound? || InstallsBy(s, a, t)
  {
  }

  lemma {:induction false} PassedOrInstalled(actions: seq<Action>, t: nat)
    requires t in Run(actions).threads
    ensures var pc := Run(actions).threads[t];
            && (Passes(actions, t) ==> Installs(actions, t) || pc.Checked? || pc.Unwound?)
            && (Installs(actions, t) || pc.Checked? ==> Passes(actions, t))
  {
    var before := actions[..|actions| - 1];
    PassingGrows(before, actions, t);
    if t in Run(before).threads {
      PassedOrInstalled(before, t);
    } else {
      NeverStarted(before, t);
    }
    if t in Run(before).threads && (Run(before).threads[t].Checked? || Run(before).threads[t].Unwound?) {
      CheckedInstalls(Run(before), actions[|before|], t, Run(actions));
    } else {
      CheckedByPassing(Run(before), actions[|before|], t, Run(actions));
    }
  }

  lemma {:induction false} NeverStarted(actions: seq<Action>, t: nat)
    requires t !in Run(actions).threads
    ensures !Passes(actions, t) && !Installs(actions, t)
  {
    if actions != [] {
      var before := actions[..|actions| - 1];
      NeverStarted(before, t);
      PassingGrows(before, actions, t);
    }
  }

  /**
   * A caller that ends with an answer or a refusal has changed the cache exactly when it passed the
   * check after its probe; so one whose probe or parse failed, or whose generation had moved on by
   * then, never has.
   */
  lemma ChangedCacheIff(actions: seq<Action>, t: nat)
    requires t in Run(actions).threads && (Run(actions).threads[t].Rejected? || Run(actions).threads[t].Answered?)
    ensures Installs(actions, t) <==> Passes(actions, t)
  {
    PassedOrInstalled(actions, t);
  }

  /** The cached keys stay distinct and bounded. */
  lemma CacheStaysBounded(actions: seq<Action>)
    ensures EntriesOk(Run(actions).state.entries)
  {
    RunKeepsInv(actions);
  }

  /**
   * A catalog just installed is cached unless it is itself the one evicted: its key was new, the
   * cache was full, and everything cached is younger.
   */
  lemma InstalledIsCachedUnlessOldest(entries: seq<Entry>, e: Entry)
    requires EntriesOk(entries) && EntryOk(e)
    ensures e in Evict(Place(entries, e)) <==>
            || Position(entries, e.key).Some? || |entries| < MAX_CACHED
            || exists i :: 0 <= i < |entries| && entries[i].fetchedAt <= e.fetchedAt
  {
    var placed := Place(entries, e);
    PositionFinds(entries, e.key);
    PlaceKeepsEntries(entries, e, placed);
    EvictOne(placed);
    if |placed| <= MAX_CACHED {
      var at := Position(entries, e.key);
      assert placed[if at.Some? then at.value else |entries|] == e;
    } else {
      EvictsNewcomer(entries, e, placed);
    }
  }

  lemma EvictsNewcomer(entries: seq<Entry>, e: Entry, placed: seq<Entry>)
    requires |entries| > 0 && placed == entries + [e]
    requires forall i :: 0 <= i < |entries| ==> entries[i].key != e.key
    ensures e in RemoveAt(placed, Oldest(placed)) <==> exists i :: 0 <= i < |entries| && entries[i].fetchedAt <= e.fetchedAt
  {
    var oldest := Oldest(placed);
    var left := RemoveAt(placed, oldest);
    if oldest < |entries| {
      assert left[|left| - 1] == e;
      assert placed[oldest].fetchedAt <= placed[|entries|].fetchedAt;
    } else {
      assert left == entries;
      forall i | 0 <= i < |entries| ensures entries[i].fetchedAt > e.fetchedAt {
        assert placed[i] == entries[i];
      }
    }
  }

  // ---------------------------------------------------------------- a newcomer that is not kept

  lemma Then(actions: seq<Action>, a: Action) returns (more: seq<Action>)
    ensures more == actions + [a] && Run(more) == Step(Run(actions), a)
  {
    more := actions + [a];
    assert more[..|more| - 1] == actions;
  }

  lemma ProbeCanStart(actions: seq<Action>, s: System, t: nat, o: Owner, now: nat, g: nat) returns (more: seq<Action>)
    requires Run(actions) == s && t !in s.threads && s.state.inFlight == []
    requires Current(s, o.provider) == Some(g) && Owned(s.state.entries, o, g).None?
    ensures Run(more) == Goto(s, t, s.state.(inFlight := [KeyOf(o)]), Probing(o, now, g))
  {
    var entered := Then(actions, Resolve(t, o, now));
    var looking := Then(entered, Advance(t));
    assert Run(looking) == Goto(s, t, s.state, LookingUp(o, now, g));
    more := Then(looking, Advance(t));
    assert s.threads[t := LookingUp(o, now, g)][t := Probing(o, now, g)] == s.threads[t := Probing(o, now, g)];
    assert s.state.inFlight + [KeyOf(o)] == [KeyOf(o)];
  }

  /** A probe that returns while its generation is current passes the check. */
  lemma ProbeCanPass(actions: seq<Action>, s: System, t: nat, o: Owner, now: nat, g: nat, c: Catalog)
    returns (more: seq<Action>)
    requires Run(actions) == s && t !in s.threads && s.state.inFlight == []
    requires Current(s, o.provider) == Some(g) && Owned(s.state.entries, o, g).None? && FetchedFor(c, o, g)
    ensures Run(more) == Goto(s, t, s.state.(inFlight := [KeyOf(o)]), Checked(o, now, g, c))
  {
    var probing := ProbeCanStart(actions, s, t, o, now, g);
    var guarded := s.state.(inFlight := [KeyOf(o)]);
    var probed := Then(probing, ProbeReturns(t, Ok(c.contents)));
    assert Run(probed) == Goto(s, t, guarded, Probed(o, now, g, c));
    more := Then(probed, Advance(t));
    assert Run(more).threads == s.threads[t := Checked(o, now, g, c)];
  }

  /** What passed the check is installed, and the guard dropped. */
  lemma CheckedCanInstall(actions: seq<Action>, s: System, t: nat, o: Owner, now: nat, g: nat, c: Catalog)
    returns (more: seq<Action>)
    requires s.state.inFlight == []
    requires Run(actions) == Goto(s, t, s.state.(inFlight := [KeyOf(o)]), Checked(o, now, g, c))
    ensures Run(more) == Goto(s, t, Install(s.state, o, g, now, c), Serving(o, g, c))
  {
    var guarded := s.state.(inFlight := [KeyOf(o)]);
    var installed := Then(actions, Advance(t));
    assert Run(installed) == Goto(s, t, Install(guarded, o, g, now, c), Installed(o, g, c));
    more := Then(installed, Advance(t));
    assert WithoutKey([KeyOf(o)], KeyOf(o)) == WithoutKey([], KeyOf(o)) == [];
    assert Run(more).threads == s.threads[t := Serving(o, g, c)];
  }

  /** The catalog of repository i, and its cache entry when fetched at time `now`. */
  function OwnerOf(i: nat): Owner { Owner(i, 0, ClaudeCode) }

  function CatalogOf(i: nat): Catalog { Catalog(0, OwnerOf(i), 0) }

  function EntryOf(i: nat, now: nat): Entry { Entry(KeyOf(OwnerOf(i)), 0, 0, now, CatalogOf(i)) }

  /** The first n repositories, all fetched at time 1. */
  function Filled(n: nat): seq<Entry> {
    seq(n, i requires 0 <= i < n => EntryOf(i, 1))
  }

  /** The callers that fetched them. */
  function Served(n: nat): map<nat, Pc> {
    map t: nat | 0 <= t < n :: Serving(OwnerOf(t), 0, CatalogOf(t))
  }

  lemma {:induction false} OwnedElsewhere(entries: seq<Entry>, o: Owner, g: nat)
    requires forall i :: 0 <= i < |entries| ==> entries[i].key != KeyOf(o)
    ensures Owned(entries, o, g).None? && Position(entries, KeyOf(o)).None?
  {
    if entries != [] {
      OwnedElsewhere(entries[1..], o, g);
    }
  }

  /** The system in which n callers have fetched the first n repositories. */
  function Cached(n: nat): System {
    System(State(Filled(n), []), Served(n), map[ClaudeCode := 0])
  }

  lemma OneMoreIsCached(n: nat)
    requires n < MAX_CACHED
    ensures var s := Cached(n);
            Goto(s, n, Install(s.state, OwnerOf(n), 0, 1, CatalogOf(n)), Serving(OwnerOf(n), 0, CatalogOf(n))) == Cached(n + 1)
  {
    OwnedElsewhere(Filled(n), OwnerOf(n), 0);
    assert Filled(n) + [EntryOf(n, 1)] == Filled(n + 1);
    assert Served(n)[n := Serving(OwnerOf(n), 0, CatalogOf(n))] == Served(n + 1);
  }

  lemma CanFetchOneMore(actions: seq<Action>, n: nat) returns (more: seq<Action>)
    requires n < MAX_CACHED && Run(actions) == Cached(n)
    ensures Run(more) == Cached(n + 1)
  {
    OwnedElsewhere(Filled(n), OwnerOf(n), 0);
    more := ProbeCanPass(actions, Cached(n), n, OwnerOf(n), 1, 0, CatalogOf(n));
    more := CheckedCanInstall(more, Cached(n), n, OwnerOf(n), 1, 0, CatalogOf(n));
    OneMoreIsCached(n);
  }

  lemma {:induction false} CacheCanFill(n: nat) returns (actions: seq<Action>)
    requires n <= MAX_CACHED
    ensures Run(actions) == Cached(n)
  {
    if n == 0 {
      actions := Then([], SetGeneration(ClaudeCode, Some(0)));
      assert Filled(0) == [] && Served(0) == map[];
    } else {
      actions := CacheCanFill(n - 1);
      actions := CanFetchOneMore(actions, n - 1);
    }
  }

  /** Caller 16 passed the check, and its installation leaves a full cache as it was, without its catalog. */
  predicate InstallsInVain(before: seq<Action>) {
    var s, next := Run(before), Run(before + [Advance(16)]);
    && 16 in s.threads && s.threads[16] == Checked(OwnerOf(16), 0, 0, CatalogOf(16))
    && 16 in next.threads && next.threads[16] == Installed(OwnerOf(16), 0, CatalogOf(16))
    && |next.state.entries| == MAX_CACHED && next.state.entries == s.state.entries
    && Position(next.state.entries, KeyOf(OwnerOf(16))).None?
  }

  /** What a caller that has passed its check before all n others installs is refused by a full cache. */
  lemma FullCacheRefuses(before: seq<Action>, n: nat)
    requires n == MAX_CACHED
    requires Run(before) == Goto(Cached(n), n, Cached(n).state.(inFlight := [KeyOf(OwnerOf(n))]), Checked(OwnerOf(n), 0, 0, CatalogOf(n)))
    ensures InstallsInVain(before)
  {
    assert (before + [Advance(n)])[..|before|] == before;
    OldestIsRefused(EntryOf(n, 0));
    OwnedElsewhere(Filled(n), OwnerOf(n), 0);
  }

  /**
   * With sixteen catalogs cached, a caller that came in before all of them were fetched installs
   * its own, and that step leaves the cache as it was: the newcomer is the one evicted.
   */
  lemma NewcomerIsEvictedAtOnce() returns (before: seq<Action>)
    ensures InstallsInVain(before)
  {
    var n := MAX_CACHED;
    var full := CacheCanFill(n);
    OwnedElsewhere(Filled(n), OwnerOf(n), 0);
    before := ProbeCanPass(full, Cached(n), n, OwnerOf(n), 0, 0, CatalogOf(n));
    FullCacheRefuses(before, n);
  }

  /** A caller may even be rejected after it has changed the cache, if its generation moves on after the check. */
  lemma InstallerMayBeRejected() returns (actions: seq<Action>)
    ensures 0 in Run(actions).threads && Run(actions).threads[0] == Rejected(ProviderChanged)
    ensures Run(actions).state.entries == [EntryOf(0, 1)]
  {
    var cached := CacheCanFill(1);
    var moved := Then(cached, SetGeneration(ClaudeCode, Some(1)));
    actions := Then(moved, Advance(0));
  }

  lemma OldestIsRefused(e: Entry)
    requires e == EntryOf(16, 0)
    ensures Evict(Place(Filled(MAX_CACHED), e)) == Filled(MAX_CACHED)
  {
    var entries := Filled(MAX_CACHED);
    OwnedElsewhere(entries, OwnerOf(16), 0);
    var placed := entries + [e];
    assert placed[16] == e && placed[..16] == entries;
    assert RemoveAt(placed, 16) == entries;
  }

  // ---------------------------------------------------------------- the service object

  class AgentCommandCatalogService {
    var entries: seq<Entry>
    var inFlight: seq<Key>

    ghost function View(): State
      reads this
    {
      State(entries, inFlight)
    }

    constructor ()
      ensures View() == EMPTY
    {
      entries, inFlight := [], [];
    }

    method Find(owner: Owner, generation: nat, now: nat) returns (found: Lookup)
      modifies this
      ensures (View(), found) == LookUp(old(View()), owner, generation, now)
    {
      var cached := Owned(entries, owner, generation);
      if cached.Some? && Age(cached.value, now) < TTL {
        return Fresh(cached.value.catalog);
      }
      if KeyOf(owner) in inFlight {
        return if cached.Some? then Stale(cached.value.catalog) else StillLoading;
      }
      inFlight := inFlight + [KeyOf(owner)];
      found := Probe(KeyOf(owner));
    }

    method Store(owner: Owner, generation: nat, now: nat, catalog: Catalog)
      modifies this
      ensures View() == Install(old(View()), owner, generation, now, catalog)
    {
      var cached := Entry(KeyOf(owner), owner.workspaceId, generation, now, catalog);
      var at := Position(entries, cached.key);
      PositionFinds(entries, cached.key);
      if at.Some? {
        entries := entries[at.value := cached];
      } else {
        entries := entries + [cached];
      }
      while |entries| > MAX_CACHED
        invariant inFlight == old(inFlight)
        invariant Evict(entries) == Evict(Place(old(entries), cached))
        decreases |entries|
      {
        entries := RemoveAt(entries, Oldest(entries));
      }
    }

    method Release(key: Key)
      modifies this
      ensures View() == DropGuard(old(View()), key)
    {
      var kept: seq<Key> := [];
      var i := 0;
      while i < |inFlight|
        invariant i <= |inFlight| && inFlight == old(inFlight) && entries == old(entries)
        invariant kept == WithoutKey(inFlight[..i], key)
      {
        assert inFlight[..i + 1][..i] == inFlight[..i];
        if inFlight[i] != key {
          kept := kept + [inFlight[i]];
        }
        i := i + 1;
      }
      assert inFlight[..i] == inFlight;
      inFlight := kept;
    }
  }
}
