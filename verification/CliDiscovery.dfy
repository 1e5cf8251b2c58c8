/**
 * The discovery cache: one snapshot of the effective environment, rebuilt by one thread at a time
 * and thrown away by invalidation.  Building happens outside the lock, so invalidations and other
 * callers interleave with it freely.
 */
module CliDiscovery {
  import opened Wrappers

  const MAX_GENERATION: nat := 0xFFFF_FFFF_FFFF_FFFF

  datatype Error = EffectivePathUnavailable | GenerationExhausted

  /** A built environment; `begun` is the time at which its build was admitted. */
  datatype Environment = Environment(contents: nat, generation: nat, begun: nat)

  type Outcome = Result<Environment, Error>

  datatype Cache = Cache(
    generation: nat,
    building: Option<nat>,
    snapshot: Option<Environment>,
    previous: Option<Environment>)

  datatype Guard = Guard(generation: nat, previous: Option<Environment>)

  datatype Admission = Cached(environment: Environment) | Build(guard: Guard) | Wait

  const EMPTY := Cache(0, None, None, None)

  // ---------------------------------------------------------------- the critical sections

  function BeginBuild(c: Cache): (Cache, Admission) {
    if c.snapshot.Some? then (c, Cached(c.snapshot.value))
    else if c.building.None? then (c.(building := Some(c.generation)), Build(Guard(c.generation, c.previous)))
    else (c, Wait)
  }

  function Release(c: Cache, g: Guard): Cache {
    if c.building == Some(g.generation) then c.(building := None) else c
  }

  /** Hands in a build.  No answer means the caller has to start over. */
  function Settle(c: Cache, g: Guard, built: Outcome): (Cache, Option<Outcome>) {
    if c.snapshot.Some? then (Release(c, g), Some(Ok(c.snapshot.value)))
    else if c.generation != g.generation then (Release(c, g), None)
    else if built.Ok? then (Release(c.(snapshot := Some(built.value)), g), Some(built))
    else (Release(c, g), Some(built))
  }

  function Invalidate(c: Cache): Result<Cache, Error> {
    if c.generation >= MAX_GENERATION then Err(GenerationExhausted)
    else Ok(c.(generation := c.generation + 1, snapshot := None,
               previous := if c.snapshot.Some? then c.snapshot else c.previous))
  }

  // ---------------------------------------------------------------- threads

  /**
   * A call of effective_environment; `start` is the generation when it began, `since` the time its
   * build was admitted, `asOf` the time of the last invalidation before it was answered.
   */
  datatype Pc =
    | Wanting(start: nat)
    | Building(start: nat, guard: Guard, since: nat)
    | Built(start: nat, guard: Guard, since: nat, built: Outcome)
    | Answered(start: nat, answer: Outcome, asOf: nat)
    | Unwound

  /** `lastInvalidation` is the time of the last invalidation that took effect. */
  datatype System = System(cache: Cache, threads: map<nat, Pc>, now: nat, lastInvalidation: nat)

  datatype Action =
    | Call(thread: nat)
    | Admit(thread: nat)
    | FinishBuild(thread: nat, contents: Option<nat>)
    | HandIn(thread: nat)
    | Unwind(thread: nat)
    | Discard

  const START := System(EMPTY, map[], 1, 0)

  predicate Holds(pc: Pc) { pc.Building? || pc.Built? }

  function Goto(s: System, t: nat, cache: Cache, pc: Pc): System {
    s.(cache := cache, threads := s.threads[t := pc])
  }

  function AdmitStep(s: System, t: nat, start: nat): System {
    var (cache, admission) := BeginBuild(s.cache);
    match admission
    case Cached(e) => Goto(s, t, cache, Answered(start, Ok(e), s.lastInvalidation))
    case Build(g) => Goto(s, t, cache, Building(start, g, s.now))
    case Wait => s
  }

  /** A build that succeeds carries the generation it was admitted with. */
  function BuildResult(g: Guard, since: nat, contents: Option<nat>): Outcome {
    match contents
    case Some(c) => Ok(Environment(c, g.generation, since))
    case None => Err(EffectivePathUnavailable)
  }

  function HandInStep(s: System, t: nat, pc: Pc): System
    requires pc.Built?
  {
    var (cache, answer) := Settle(s.cache, pc.guard, pc.built);
    Goto(s, t, cache, if answer.Some? then Answered(pc.start, answer.value, s.lastInvalidation) else Wanting(pc.start))
  }

  function DiscardStep(s: System): System {
    match Invalidate(s.cache)
    case Ok(cache) => s.(cache := cache, lastInvalidation := s.now)
    case Err(_) => s
  }

  function Perform(s: System, a: Action): System {
    match a
    case Call(t) => if t in s.threads then s else Goto(s, t, s.cache, Wanting(s.cache.generation))
    case Admit(t) =>
      if t in s.threads && s.threads[t].Wanting? then AdmitStep(s, t, s.threads[t].start) else s
    case FinishBuild(t, contents) =>
      if t in s.threads && s.threads[t].Building? then
        var pc := s.threads[t];
        Goto(s, t, s.cache, Built(pc.start, pc.guard, pc.since, BuildResult(pc.guard, pc.since, contents)))
      else s
    case HandIn(t) => if t in s.threads && s.threads[t].Built? then HandInStep(s, t, s.threads[t]) else s
    case Unwind(t) =>
      if t in s.threads && Holds(s.threads[t]) then Goto(s, t, Release(s.cache, s.threads[t].guard), Unwound) else s
    case Discard => DiscardStep(s)
  }

  function Step(s: System, a: Action): System {
    Perform(s, a).(now := s.now + 1)
  }

  function Run(actions: seq<Action>): System {
    if actions == [] then START else Step(Run(actions[..|actions| - 1]), actions[|actions| - 1])
  }

  // ---------------------------------------------------------------- invariant

  /** The environment is of the current generation and no invalidation took effect since its build began. */
  predicate Fresh(e: Environment, generation: nat, lastInvalidation: nat) {
    e.generation == generation && lastInvalidation <= e.begun
  }

  predicate PcOk(c: Cache, lastInvalidation: nat, pc: Pc) {
    match pc
    case Wanting(start) => start <= c.generation
    case Building(start, g, since) => GuardOk(c, lastInvalidation, start, g, since)
    case Built(start, g, since, built) =>
      && GuardOk(c, lastInvalidation, start, g, since)
      && (built.Ok? ==> built.value.generation == g.generation && built.value.begun == since)
    case Answered(start, answer, asOf) =>
      answer.Ok? ==> start <= answer.value.generation && asOf <= answer.value.begun
    case Unwound => true
  }

  /** An outstanding guard is the one the cache knows of, and nothing is stored meanwhile. */
  predicate GuardOk(c: Cache, lastInvalidation: nat, start: nat, g: Guard, since: nat) {
    && c.building == Some(g.generation) && c.snapshot.None?
    && start <= g.generation <= c.generation
    && (g.generation == c.generation ==> lastInvalidation <= since)
  }

  predicate CacheOk(c: Cache, lastInvalidation: nat) {
    && c.generation <= MAX_GENERATION
    && (c.snapshot.Some? ==> Fresh(c.snapshot.value, c.generation, lastInvalidation) && c.building.None?)
    && (c.previous.Some? ==> c.previous.value.generation < c.generation)
  }

  ghost predicate HeldOnce(threads: map<nat, Pc>) {
    forall t, u :: t in threads && u in threads && Holds(threads[t]) && Holds(threads[u]) ==> t == u
  }

  ghost predicate SomeHolder(threads: map<nat, Pc>) {
    exists t :: t in threads && Holds(threads[t])
  }

  ghost predicate Inv(s: System) {
    && CacheOk(s.cache, s.lastInvalidation)
    && s.lastInvalidation < s.now
    && (forall t :: t in s.threads ==> PcOk(s.cache, s.lastInvalidation, s.threads[t]))
    && HeldOnce(s.threads)
    && (s.cache.building.Some? <==> SomeHolder(s.threads))
  }

  /** No thread but t can be holding a guard once t held it or the cache knows of none. */
  lemma MoveKeepsHolders(s: System, t: nat, pc: Pc)
    requires Inv(s)
    requires (t in s.threads && Holds(s.threads[t])) || s.cache.building.None?
    ensures HeldOnce(s.threads[t := pc])
    ensures SomeHolder(s.threads[t := pc]) <==> Holds(pc)
    ensures forall u :: u in s.threads && u != t ==> !Holds(s.threads[u])
  {
    assert forall u :: u in s.threads && u != t ==> !Holds(s.threads[u]);
    if Holds(pc) {
      assert t in s.threads[t := pc] && Holds(s.threads[t := pc][t]);
    }
  }

  /** A thread without a guard, before and after, leaves the guards as they are. */
  lemma BystanderKeepsHolders(s: System, t: nat, pc: Pc)
    requires Inv(s) && !Holds(pc) && (t in s.threads ==> !Holds(s.threads[t]))
    ensures HeldOnce(s.threads[t := pc])
    ensures SomeHolder(s.threads[t := pc]) <==> SomeHolder(s.threads)
  {
    if SomeHolder(s.threads) {
      var u :| u in s.threads && Holds(s.threads[u]);
      assert u in s.threads[t := pc] && Holds(s.threads[t := pc][u]);
    }
    if SomeHolder(s.threads[t := pc]) {
      var u :| u in s.threads[t := pc] && Holds(s.threads[t := pc][u]);
      assert u in s.threads && Holds(s.threads[u]);
    }
  }

  lemma AdmitKeepsInv(s: System, t: nat, start: nat, next: System)
    requires Inv(s) && t in s.threads && s.threads[t] == Wanting(start) && next == AdmitStep(s, t, start).(now := s.now + 1)
    ensures Inv(next)
  {
    assert PcOk(s.cache, s.lastInvalidation, s.threads[t]);
    if s.cache.snapshot.Some? {
      BystanderKeepsHolders(s, t, next.threads[t]);
    } else if s.cache.building.None? {
      MoveKeepsHolders(s, t, next.threads[t]);
    }
  }

  lemma HandInKeepsInv(s: System, t: nat, pc: Pc, next: System)
    requires Inv(s) && t in s.threads && s.threads[t] == pc && pc.Built? && next == HandInStep(s, t, pc).(now := s.now + 1)
    ensures Inv(next)
  {
    assert PcOk(s.cache, s.lastInvalidation, pc);
    MoveKeepsHolders(s, t, next.threads[t]);
    forall u | u in s.threads && u != t ensures PcOk(next.cache, s.lastInvalidation, s.threads[u]) {
      assert PcOk(s.cache, s.lastInvalidation, s.threads[u]);
    }
  }

  lemma UnwindKeepsInv(s: System, t: nat, next: System)
    requires Inv(s) && t in s.threads && Holds(s.threads[t])
    requires next == Goto(s, t, Release(s.cache, s.threads[t].guard), Unwound).(now := s.now + 1)
    ensures Inv(next)
  {
    assert PcOk(s.cache, s.lastInvalidation, s.threads[t]);
    MoveKeepsHolders(s, t, Unwound);
    forall u | u in s.threads && u != t ensures PcOk(next.cache, s.lastInvalidation, s.threads[u]) {
      assert PcOk(s.cache, s.lastInvalidation, s.threads[u]);
    }
  }

  lemma DiscardKeepsInv(s: System, next: System)
    requires Inv(s) && next == DiscardStep(s).(now := s.now + 1)
    ensures Inv(next)
  {
    forall u | u in s.threads ensures PcOk(next.cache, next.lastInvalidation, s.threads[u]) {
      assert PcOk(s.cache, s.lastInvalidation, s.threads[u]);
    }
  }

  lemma StepKeepsInv(s: System, a: Action, next: System)
    requires Inv(s) && next == Step(s, a)
    ensures Inv(next)
  {
    match a
    case Call(t) => if t !in s.threads { BystanderKeepsHolders(s, t, next.threads[t]); }
    case Admit(t) =>
      if t in s.threads && s.threads[t].Wanting? { AdmitKeepsInv(s, t, s.threads[t].start, next); }
    case FinishBuild(t, contents) =>
      if t in s.threads && s.threads[t].Building? { MoveKeepsHolders(s, t, next.threads[t]); }
    case HandIn(t) =>
      if t in s.threads && s.threads[t].Built? { HandInKeepsInv(s, t, s.threads[t], next); }
    case Unwind(t) =>
      if t in s.threads && Holds(s.threads[t]) { UnwindKeepsInv(s, t, next); }
    case Discard => DiscardKeepsInv(s, next);
  }

  /** Generations advance with invalidations: an older guard means a later invalidation. */
  predicate AdmittedInOrder(s: System, pc: Pc) {
    Holds(pc) ==> (s.lastInvalidation < pc.since <==> pc.guard.generation == s.cache.generation) && pc.since < s.now
  }

  lemma StepKeepsAdmissionOrder(s: System, a: Action, t: nat, next: System)
    requires Inv(s) && (t in s.threads ==> AdmittedInOrder(s, s.threads[t])) && next == Step(s, a) && t in next.threads
    ensures AdmittedInOrder(next, next.threads[t])
  {
    if t in s.threads {
      assert PcOk(s.cache, s.lastInvalidation, s.threads[t]);
    }
  }

  lemma {:induction false} RunKeepsInv(actions: seq<Action>)
    ensures Inv(Run(actions))
    ensures forall t :: t in Run(actions).threads ==> AdmittedInOrder(Run(actions), Run(actions).threads[t])
  {
    if actions != [] {
      var before := actions[..|actions| - 1];
      RunKeepsInv(before);
      StepKeepsInv(Run(before), actions[|actions| - 1], Run(actions));
      forall t | t in Run(actions).threads ensures AdmittedInOrder(Run(actions), Run(actions).threads[t]) {
        StepKeepsAdmissionOrder(Run(before), actions[|actions| - 1], t, Run(actions));
      }
    }
  }

  // ---------------------------------------------------------------- main results

  /** A stored snapshot is of the current generation, and no invalidation happened since its build began. */
  lemma StoredSnapshotIsFresh(actions: seq<Action>)
    requires Run(actions).cache.snapshot.Some?
    ensures Fresh(Run(actions).cache.snapshot.value, Run(actions).cache.generation, Run(actions).lastInvalidation)
  {
    RunKeepsInv(actions);
  }

  /** At most one thread builds, exactly while the cache says so; the mark is released on every exit. */
  lemma OneBuilderWhileMarked(actions: seq<Action>)
    ensures HeldOnce(Run(actions).threads)
    ensures Run(actions).cache.building.Some? <==> SomeHolder(Run(actions).threads)
    ensures forall t :: t in Run(actions).threads && Holds(Run(actions).threads[t]) ==>
                          Run(actions).cache.building == Some(Run(actions).threads[t].guard.generation)
  {
    RunKeepsInv(actions);
    var s := Run(actions);
    forall t | t in s.threads && Holds(s.threads[t])
      ensures s.cache.building == Some(s.threads[t].guard.generation)
    {
      assert PcOk(s.cache, s.lastInvalidation, s.threads[t]);
    }
  }

  /**
   * A build is never handed in over a stored snapshot.  It is answered exactly when no
   * invalidation took effect while it ran, and then with its own result.
   */
  lemma HandInAnswersUnlessInvalidated(actions: seq<Action>, t: nat)
    requires t in Run(actions).threads && Run(actions).threads[t].Built?
    ensures Run(actions).cache.snapshot.None?
    ensures var pc := Run(actions).threads[t];
            var (_, answer) := Settle(Run(actions).cache, pc.guard, pc.built);
            answer == if Run(actions).lastInvalidation < pc.since then Some(pc.built) else None
  {
    RunKeepsInv(actions);
    var s := Run(actions);
    assert PcOk(s.cache, s.lastInvalidation, s.threads[t]);
    assert AdmittedInOrder(s, s.threads[t]);
  }

  /**
   * Every environment handed out was built without an invalidation between the start of its build
   * and the answer, and is of a generation no lower than the one current when the call began.
   */
  lemma AnswersAreFresh(actions: seq<Action>, t: nat)
    requires t in Run(actions).threads && Run(actions).threads[t].Answered? && Run(actions).threads[t].answer.Ok?
    ensures Run(actions).threads[t].asOf <= Run(actions).threads[t].answer.value.begun
    ensures Run(actions).threads[t].start <= Run(actions).threads[t].answer.value.generation
  {
    RunKeepsInv(actions);
    assert PcOk(Run(actions).cache, Run(actions).lastInvalidation, Run(actions).threads[t]);
  }

  // ---------------------------------------------------------------- what is served

  /** The environment is stored and nobody builds. */
  predicate Serves(s: System, e: Environment) {
    s.cache.snapshot == Some(e) && s.cache.building.None?
  }

  lemma StepServes(s: System, a: Action, e: Environment, next: System)
    requires Inv(s) && Serves(s, e) && next == Step(s, a)
    ensures next.cache.generation == s.cache.generation ==> Serves(next, e)
    ensures s.cache.generation <= next.cache.generation
    ensures a.Admit? && a.thread in s.threads && s.threads[a.thread].Wanting? ==>
              a.thread in next.threads && next.threads[a.thread] == Answered(s.threads[a.thread].start, Ok(e), s.lastInvalidation)
  {
    NobodyBuilds(s, e);
  }

  lemma NobodyBuilds(s: System, e: Environment)
    requires Inv(s) && Serves(s, e)
    ensures forall t :: t in s.threads ==> !Holds(s.threads[t])
  {
    forall t | t in s.threads ensures !Holds(s.threads[t]) {
      assert PcOk(s.cache, s.lastInvalidation, s.threads[t]);
    }
  }

  lemma RunOne(actions: seq<Action>, a: Action)
    ensures Run(actions + [a]) == Step(Run(actions), a)
  {
    assert (actions + [a])[..|actions|] == actions;
  }

  lemma {:induction false} RunServes(before: seq<Action>, after: seq<Action>, e: Environment)
    requires Serves(Run(before), e)
    ensures Run(before).cache.generation <= Run(before + after).cache.generation
    ensures Run(before + after).cache.generation == Run(before).cache.generation ==> Serves(Run(before + after), e)
  {
    if after == [] {
      assert before + after == before;
    } else {
      var last := |after| - 1;
      RunServes(before, after[..last], e);
      assert before + after == before + after[..last] + [after[last]];
      RunOne(before + after[..last], after[last]);
      RunKeepsInv(before + after[..last]);
      StepOnlyRaises(Run(before + after[..last]), after[last], Run(before + after));
      if Serves(Run(before + after[..last]), e) {
        StepServes(Run(before + after[..last]), after[last], e, Run(before + after));
      }
    }
  }

  lemma StepOnlyRaises(s: System, a: Action, next: System)
    requires next == Step(s, a)
    ensures s.cache.generation <= next.cache.generation
  {
  }

  /** Handing in a build that succeeded, with no invalidation since it was admitted, stores it. */
  lemma HandInStores(actions: seq<Action>, t: nat, e: Environment)
    requires t in Run(actions).threads && Run(actions).threads[t].Built? && Run(actions).threads[t].built == Ok(e)
    requires Run(actions).lastInvalidation < Run(actions).threads[t].since
    ensures var next := Run(actions + [HandIn(t)]);
            && Serves(next, e) && next.cache.generation == Run(actions).cache.generation
            && t in next.threads && next.threads[t] == Answered(Run(actions).threads[t].start, Ok(e), Run(actions).lastInvalidation)
  {
    RunKeepsInv(actions);
    RunOne(actions, HandIn(t));
    var s := Run(actions);
    assert PcOk(s.cache, s.lastInvalidation, s.threads[t]);
    assert AdmittedInOrder(s, s.threads[t]);
  }

  /**
   * A successful build is shared: once it has been handed in, and as long as no invalidation takes
   * effect, nobody builds and every waiting call is answered at once with that environment.
   */
  lemma BuiltEnvironmentIsShared(before: seq<Action>, t: nat, e: Environment, after: seq<Action>, u: nat)
    requires t in Run(before).threads && Run(before).threads[t].Built? && Run(before).threads[t].built == Ok(e)
    requires Run(before).lastInvalidation < Run(before).threads[t].since
    requires Run(before + [HandIn(t)] + after).cache.generation == Run(before).cache.generation
    ensures var s := Run(before + [HandIn(t)] + after);
            && (forall v :: v in s.threads ==> !s.threads[v].Building? && !s.threads[v].Built?)
            && (u in s.threads && s.threads[u].Wanting? ==>
                  var next := Run(before + [HandIn(t)] + after + [Admit(u)]);
                  u in next.threads && next.threads[u].Answered? && next.threads[u].answer == Ok(e))
  {
    var all := before + [HandIn(t)] + after;
    HandInStores(before, t, e);
    RunServes(before + [HandIn(t)], after, e);
    RunKeepsInv(all);
    RunOne(all, Admit(u));
    StepServes(Run(all), Admit(u), e, Run(all + [Admit(u)]));
    NobodyBuilds(Run(all), e);
  }

  /** A build that failed is answered with its failure and not stored, so that the next waiting call builds anew. */
  lemma FailedBuildIsRetried(actions: seq<Action>, t: nat, error: Error, u: nat)
    requires t in Run(actions).threads && Run(actions).threads[t].Built? && Run(actions).threads[t].built == Err(error)
    requires u != t && u in Run(actions).threads && Run(actions).threads[u].Wanting?
    ensures var handed, next := Run(actions + [HandIn(t)]), Run(actions + [HandIn(t), Admit(u)]);
            && t in handed.threads
            && (if Run(actions).lastInvalidation < Run(actions).threads[t].since
                then handed.threads[t].Answered? && handed.threads[t].answer == Err(error)
                else handed.threads[t] == Wanting(Run(actions).threads[t].start))
            && u in next.threads && next.threads[u].Building? && next.threads[u].guard.generation == handed.cache.generation
  {
    RunKeepsInv(actions);
    var s := Run(actions);
    assert PcOk(s.cache, s.lastInvalidation, s.threads[t]);
    assert AdmittedInOrder(s, s.threads[t]);
    RunOne(actions, HandIn(t));
    assert actions + [HandIn(t), Admit(u)] == actions + [HandIn(t)] + [Admit(u)];
    RunOne(actions + [HandIn(t)], Admit(u));
  }

  /**
   * A build that succeeds is answered with what was built, as of the generation and the time of its
   * admission; one that does not, with the one error there is for that.
   */
  lemma BuildsCarryTheirContents(actions: seq<Action>, t: nat, contents: Option<nat>)
    requires t in Run(actions).threads && Run(actions).threads[t].Building?
    ensures var s, next := Run(actions), Run(actions + [FinishBuild(t, contents)]);
            && t in next.threads && next.threads[t].Built? && next.cache == s.cache
            && (contents.None? ==> next.threads[t].built == Err(EffectivePathUnavailable))
            && (contents.Some? ==>
                  next.threads[t].built == Ok(Environment(contents.value, s.threads[t].guard.generation, s.threads[t].since)))
  {
    RunOne(actions, FinishBuild(t, contents));
  }

  /**
   * With nothing stored, a waiting call builds exactly when nobody else does: for the generation of
   * the moment, and with the environment that was thrown away last.
   */
  lemma BuildsIffNobodyElseDoes(actions: seq<Action>, t: nat)
    requires t in Run(actions).threads && Run(actions).threads[t].Wanting? && Run(actions).cache.snapshot.None?
    ensures var s, next := Run(actions), Run(actions + [Admit(t)]);
            && t in next.threads
            && next.threads[t] == (if exists u :: u in s.threads && Holds(s.threads[u]) then s.threads[t]
                                   else Building(s.threads[t].start, Guard(s.cache.generation, s.cache.previous), s.now))
  {
    OneBuilderWhileMarked(actions);
    RunOne(actions, Admit(t));
  }

  /** An invalidation takes effect unless the generations are used up: nothing is served any more, and a build begun before is void. */
  lemma InvalidationTakesEffect(actions: seq<Action>)
    ensures var s, next := Run(actions), Run(actions + [Discard]);
            if s.cache.generation == 0xFFFF_FFFF_FFFF_FFFF then next.cache == s.cache
            else
              && next.cache.snapshot.None? && next.cache.generation == s.cache.generation + 1
              && next.cache.building == s.cache.building
              && next.cache.previous == (if s.cache.snapshot.Some? then s.cache.snapshot else s.cache.previous)
              && next.lastInvalidation == s.now
  {
    RunKeepsInv(actions);
    RunOne(actions, Discard);
  }

  // ---------------------------------------------------------------- the cache object

  class DiscoveryCache {
    var generation: nat
    var building: Option<nat>
    var snapshot: Option<Environment>
    var previous: Option<Environment>

    ghost function View(): Cache
      reads this
    {
      Cache(generation, building, snapshot, previous)
    }

    constructor ()
      ensures View() == EMPTY && generation == 0 && building.None? && snapshot.None? && previous.None?
    {
      generation, building, snapshot, previous := 0, None, None, None;
    }

    method TryBegin() returns (admission: Admission)
      modifies this
      ensures (View(), admission) == BeginBuild(old(View()))
    {
      if snapshot.Some? {
        return Cached(snapshot.value);
      }
      if building.None? {
        building := Some(generation);
        return Build(Guard(generation, previous));
      }
      admission := Wait;
    }

    method Finish(guard: Guard)
      modifies this
      ensures View() == Release(old(View()), guard)
      ensures building == if old(building) == Some(guard.generation) then None else old(building)
    {
      if building == Some(guard.generation) {
        building := None;
      }
    }

    method SettleBuild(guard: Guard, built: Outcome) returns (answer: Option<Outcome>)
      modifies this
      ensures (View(), answer) == Settle(old(View()), guard, built)
    {
      if snapshot.Some? {
        answer := Some(Ok(snapshot.value));
        Finish(guard);
        return;
      }
      if generation != guard.generation {
        Finish(guard);
        return None;
      }
      if built.Ok? {
        snapshot := Some(built.value);
      }
      Finish(guard);
      answer := Some(built);
    }

    method Discard() returns (result: Result<(), Error>)
      modifies this
      ensures match Invalidate(old(View()))
              case Ok(cache) => View() == cache && result == Ok(())
              case Err(e) => View() == old(View()) && result == Err(e)
      ensures result == Err(GenerationExhausted) <==> old(generation) >= 0xFFFF_FFFF_FFFF_FFFF
    {
      if generation >= MAX_GENERATION {
        return Err(GenerationExhausted);
      }
      generation := generation + 1;
      if snapshot.Some? {
        previous := snapshot;
        snapshot := None;
      }
      result := Ok(());
    }
  }
}
