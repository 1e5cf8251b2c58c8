/**
 * The two login conversations.  Output of the provider arrives in chunks; each complete line may
 * advance a phase machine, which in turn says what to write next.  Parsing a line is a parameter.
 */
module LoginProtocol {
  import opened ChunkObserver
  import opened Framing
  import opened Wrappers

  // ---------------------------------------------------------------- the Claude conversation

  const MAX_CLAUDE_LINE: nat := 2 * 1024 * 1024

  datatype Failure = LoginUnsupported | ServerNotFound | TimedOut | Inactive | Unavailable

  datatype Refusal = RefusedNotFound | RefusedUnsupported | RefusedOther

  datatype ProviderStep = Completed | FinishInBrowser(url: string) | AwaitingCallback(url: string)

  type Announcement = Result<ProviderStep, Failure>

  datatype Mode = SignIn | SignInAgain

  datatype RequestId = InitializeId | ClearId | AuthenticateId | StatusId(poll: nat) | ForeignId

  datatype ServerEntry = ServerEntry(name: Option<string>, connected: bool)

  /** The fields of a reply body; `url` is present when it is a valid authorization address. */
  datatype Body = Body(
    requiresAction: Option<bool>,
    callbackExpected: Option<bool>,
    url: Option<string>,
    servers: Option<seq<ServerEntry>>)

  datatype Reply = Reply(id: RequestId, result: Result<Body, Refusal>)

  datatype Poll = Poll(polls: nat, outstanding: Option<RequestId>, lastSent: Option<nat>)

  datatype Phase = Initializing | Initialized | Clearing | Cleared | Authenticating | Polling(poll: Poll) | Ended

  datatype Claude = Claude(
    name: string,
    mode: Mode,
    pollInterval: nat,
    phase: Phase,
    announcement: Option<Announcement>,
    succeeded: bool)

  datatype Request = Clear | Authenticate | Status(poll: nat)

  datatype Presence = ServerConnected | ServerWaiting | ServerMissing

  function NewClaude(name: string, mode: Mode, pollInterval: nat): Claude {
    Claude(name, mode, pollInterval, Initializing, None, false)
  }

  function AnnounceOnce(current: Option<Announcement>, a: Announcement): Option<Announcement> {
    if current.Some? then current else Some(a)
  }

  function Refused(r: Refusal): Failure {
    match r
    case RefusedNotFound => ServerNotFound
    case RefusedUnsupported => LoginUnsupported
    case RefusedOther => Unavailable
  }

  function Fail(c: Claude, failure: Failure): Claude {
    c.(announcement := AnnounceOnce(c.announcement, Err(failure)), phase := Ended)
  }

  function LoginStep(b: Body): Announcement {
    if b.requiresAction == Some(false) then Ok(Completed)
    else if b.requiresAction == Some(true) && b.callbackExpected == Some(true) && b.url.Some? then Ok(AwaitingCallback(b.url.value))
    else if b.requiresAction == Some(true) && b.callbackExpected == Some(false) && b.url.Some? then Ok(FinishInBrowser(b.url.value))
    else Err(Unavailable)
  }

  /** The state of the first entry of that name. */
  function FirstNamed(servers: seq<ServerEntry>, name: string): Presence {
    if servers == [] then ServerMissing
    else if servers[0].name == Some(name) then (if servers[0].connected then ServerConnected else ServerWaiting)
    else FirstNamed(servers[1..], name)
  }

  function PresenceIn(b: Body, name: string): Presence {
    if b.servers.None? then ServerWaiting else FirstNamed(b.servers.value, name)
  }

  function AcceptAuthentication(c: Claude, b: Body): Claude {
    var step := LoginStep(b);
    c.(phase := if step.Ok? && step.value.AwaitingCallback? then Polling(Poll(0, None, None)) else Ended,
       announcement := AnnounceOnce(c.announcement, step))
  }

  function PollReply(c: Claude, poll: Poll, result: Result<Body, Refusal>): Claude {
    match if result.Ok? then PresenceIn(result.value, c.name) else ServerWaiting
    case ServerConnected => c.(succeeded := true, phase := Ended)
    case ServerMissing => c.(succeeded := false, phase := Ended)
    case ServerWaiting => c.(phase := Polling(poll.(outstanding := None)))
  }

  function ObserveReply(c: Claude, r: Reply): Claude {
    match c.phase
    case Initializing =>
      if r.id != InitializeId then c
      else if r.result.Ok? then c.(phase := Initialized)
      else Fail(c, Unavailable)
    case Clearing =>
      if r.id != ClearId then c
      else if r.result.Ok? then c.(phase := Cleared)
      else Fail(c, Refused(r.result.error))
    case Authenticating =>
      if r.id != AuthenticateId then c
      else if r.result.Ok? then AcceptAuthentication(c, r.result.value)
      else Fail(c, Refused(r.result.error))
    case Polling(poll) => if poll.outstanding == Some(r.id) then PollReply(c, poll, r.result) else c
    case _ => c
  }

  function Since(now: nat, earlier: nat): nat { if now >= earlier then now - earlier else 0 }

  /** What to write next, if anything; nothing when waiting or ended. */
  function Step(c: Claude, now: nat): (Claude, Option<Request>) {
    match c.phase
    case Initialized =>
      if c.mode == SignInAgain then (c.(phase := Clearing), Some(Clear)) else (c.(phase := Authenticating), Some(Authenticate))
    case Cleared => (c.(phase := Authenticating), Some(Authenticate))
    case Polling(poll) =>
      if poll.outstanding.Some? || (poll.lastSent.Some? && Since(now, poll.lastSent.value) < c.pollInterval) then (c, None)
      else
        var n := poll.polls + 1;
        (c.(phase := Polling(Poll(n, Some(StatusId(n)), Some(now)))), Some(Status(n)))
    case _ => (c, None)
  }

  // ---------------------------------------------------------------- what a reply does, by its fields

  /** An accepted authentication, by what its body says; anything it does not say in full is a failure. */
  lemma AuthenticationIsAnnounced(c: Claude, b: Body)
    requires c.phase == Authenticating && c.announcement.None?
    ensures var next := ObserveReply(c, Reply(AuthenticateId, Ok(b)));
            && next == c.(phase := next.phase, announcement := next.announcement)
            && (next.announcement == Some(Ok(Completed)) <==> b.requiresAction == Some(false))
            && (forall u :: next.announcement == Some(Ok(AwaitingCallback(u))) <==>
                              b.requiresAction == Some(true) && b.callbackExpected == Some(true) && b.url == Some(u))
            && (forall u :: next.announcement == Some(Ok(FinishInBrowser(u))) <==>
                              b.requiresAction == Some(true) && b.callbackExpected == Some(false) && b.url == Some(u))
            && (next.announcement == Some(Err(Unavailable)) <==>
                  && b.requiresAction != Some(false)
                  && (b.requiresAction.None? || b.callbackExpected.None? || b.url.None?))
            && next.phase == (if b.requiresAction == Some(true) && b.callbackExpected == Some(true) && b.url.Some?
                              then Polling(Poll(0, None, None)) else Ended)
  {
    TrueOrFalse(b.callbackExpected);
    TrueOrFalse(b.requiresAction);
  }

  lemma TrueOrFalse(o: Option<bool>)
    ensures o == None || o == Some(true) || o == Some(false)
  {
    if o.Some? {
      if o.value { assert o == Some(true); } else { assert o == Some(false); }
    }
  }

  /** The reply a phase waits for. */
  predicate Awaits(p: Phase, id: RequestId) {
    || (p == Initializing && id == InitializeId)
    || (p == Clearing && id == ClearId)
    || (p == Authenticating && id == AuthenticateId)
    || (p.Polling? && p.poll.outstanding == Some(id))
  }

  /** No reply but the awaited one changes anything. */
  lemma ForeignRepliesAreIgnored(c: Claude, r: Reply)
    requires !Awaits(c.phase, r.id)
    ensures ObserveReply(c, r) == c
  {
  }

  /** The initial reply and that of the clearing lead on. */
  lemma AcceptedRepliesLeadOn(c: Claude, b: Body)
    ensures c.phase == Initializing ==> ObserveReply(c, Reply(InitializeId, Ok(b))) == c.(phase := Initialized)
    ensures c.phase == Clearing ==> ObserveReply(c, Reply(ClearId, Ok(b))) == c.(phase := Cleared)
  {
  }

  /** A refused request ends the login with the reason for it, unless something was announced before. */
  lemma RefusalEndsLogin(c: Claude, id: RequestId, refusal: Refusal)
    requires Awaits(c.phase, id) && !c.phase.Polling?
    ensures var next := ObserveReply(c, Reply(id, Err(refusal)));
            && next == c.(phase := Ended, announcement := next.announcement)
            && (c.announcement.Some? ==> next.announcement == c.announcement)
            && (c.announcement.None? ==>
                  next.announcement == Some(Err(
                    if c.phase == Initializing || refusal == RefusedOther then Unavailable
                    else if refusal == RefusedNotFound then ServerNotFound else LoginUnsupported)))
  {
  }

  /** A status reply ends the login when the server is connected or gone, and else makes room for the next poll. */
  lemma StatusReplyDecides(c: Claude, id: RequestId, result: Result<Body, Refusal>)
    requires c.phase.Polling? && c.phase.poll.outstanding == Some(id)
    ensures var next := ObserveReply(c, Reply(id, result));
            var listed := result.Ok? && result.value.servers.Some?;
            && (listed && FirstNamed(result.value.servers.value, c.name) == ServerConnected ==>
                  next == c.(succeeded := true, phase := Ended))
            && (listed && FirstNamed(result.value.servers.value, c.name) == ServerMissing ==>
                  next == c.(succeeded := false, phase := Ended))
            && (!listed || FirstNamed(result.value.servers.value, c.name) == ServerWaiting ==>
                  next == c.(phase := Polling(c.phase.poll.(outstanding := None))))
  {
  }

  /** A step writes exactly what the phase asks for, a poll when none is outstanding and the interval has passed. */
  lemma LoginWritesIff(c: Claude, now: nat)
    ensures Step(c, now).1 == Some(Clear) <==> c.phase == Initialized && c.mode == SignInAgain
    ensures Step(c, now).1 == Some(Authenticate) <==> c.phase == Cleared || (c.phase == Initialized && c.mode == SignIn)
    ensures forall n :: Step(c, now).1 == Some(Status(n)) <==>
                          && c.phase.Polling? && n == c.phase.poll.polls + 1 && c.phase.poll.outstanding.None?
                          && (c.phase.poll.lastSent.None? || now >= c.phase.poll.lastSent.value + c.pollInterval || c.pollInterval == 0)
    ensures Step(c, now).1.None? ==> Step(c, now).0 == c
    ensures match Step(c, now).1
            case Some(Clear) => Step(c, now).0 == c.(phase := Clearing)
            case Some(Authenticate) => Step(c, now).0 == c.(phase := Authenticating)
            case Some(Status(n)) => Step(c, now).0 == c.(phase := Polling(Poll(n, Some(StatusId(n)), Some(now))))
            case None => true
  {
  }

  function HandleClaude(parse: Bytes -> Option<Reply>): (Claude, Bytes) -> Claude {
    (c: Claude, line: Bytes) =>
      match parse(line)
      case None => c
      case Some(r) => ObserveReply(c, r)
  }

  function FailClaude(c: Claude): Claude { Fail(c, Unavailable) }

  predicate ClaudeEnded(c: Claude) { c.phase.Ended? }

  function ObserveClaude(parse: Bytes -> Option<Reply>, o: Observer<Claude>, bytes: Bytes): Observer<Claude> {
    ObserveChunk(MAX_CLAUDE_LINE, HandleClaude(parse), ClaudeEnded, FailClaude, o, bytes)
  }

  function ObserveClaudeChunks(parse: Bytes -> Option<Reply>, o: Observer<Claude>, chunks: seq<Bytes>): Observer<Claude> {
    ObserveChunks(MAX_CLAUDE_LINE, HandleClaude(parse), ClaudeEnded, FailClaude, o, chunks)
  }

  lemma ClaudeEndIsFinal(parse: Bytes -> Option<Reply>)
    ensures EndIsFinal(HandleClaude(parse), ClaudeEnded)
  {
    forall c: Claude, line: Bytes | ClaudeEnded(c)
      ensures HandleClaude(parse)(c, line) == c
    {
      if parse(line).Some? {
        assert ObserveReply(c, parse(line).value) == c;
      }
    }
  }

  /** However the output between two steps is cut, the Claude login reaches the same state. */
  lemma ClaudeLoginIsChunkIndependent(parse: Bytes -> Option<Reply>, o: Observer<Claude>, chunks: seq<Bytes>)
    requires !o.overflowed && Frame(2_097_152, o.pending, Flatten(chunks)).Some?
    ensures ObserveClaudeChunks(parse, o, chunks).core == ObserveClaude(parse, o, Flatten(chunks)).core
  {
    ClaudeEndIsFinal(parse);
    ObservingIsChunkIndependent(MAX_CLAUDE_LINE, HandleClaude(parse), ClaudeEnded, FailClaude, o, chunks);
  }

  lemma OneLineFrames(limit: nat, line: Bytes)
    requires |line| <= limit && NEWLINE !in line
    ensures Frame(limit, [], line + [NEWLINE]) == Some(Framed([line], []))
  {
    var ended := line + [NEWLINE];
    FrameBody(limit, [], line);
    assert ended[..|ended| - 1] == line;
    assert [] + line == line;
    assert [] + [line] == [line];
  }

  lemma LongLineFails(limit: nat, long: Bytes)
    requires |long| > limit && NEWLINE !in long
    ensures Frame(limit, [], long) == None
  {
    FrameBody(limit, [], long);
  }

  /** The machine after one reply line. */
  lemma OneReply(parse: Bytes -> Option<Reply>, c: Claude, line: Bytes, r: Reply)
    requires parse(line) == Some(r)
    ensures HandleAll(HandleClaude(parse), c, [line]) == ObserveReply(c, r)
  {
    assert [line][..0] == [];
    assert HandleClaude(parse)(c, line) == ObserveReply(c, r);
  }

  lemma TwoChunks(parse: Bytes -> Option<Reply>, o: Observer<Claude>, a: Bytes, b: Bytes)
    ensures ObserveClaudeChunks(parse, o, [a, b]) == ObserveClaude(parse, ObserveClaude(parse, o, a), b)
  {
    var none: seq<Bytes> := [];
    assert [a, b][..|[a, b]| - 1] == [a];
    assert [a][..|[a]| - 1] == none;
    assert ObserveClaudeChunks(parse, o, none) == o;
    assert ObserveClaudeChunks(parse, o, [a]) == ObserveClaude(parse, o, a);
  }

  /** The chunk with the reply alone ends the login, and what follows is ignored. */
  lemma ReplyThenAnything(parse: Bytes -> Option<Reply>, c: Claude, reply: Bytes, r: Reply, rest: Bytes)
    requires !c.phase.Ended? && parse(reply) == Some(r) && ObserveReply(c, r).phase.Ended?
    requires |reply| <= MAX_CLAUDE_LINE && NEWLINE !in reply
    ensures ObserveClaudeChunks(parse, Observer(c, [], false), [reply + [NEWLINE], rest]).core == ObserveReply(c, r)
  {
    var o, line := Observer(c, [], false), reply + [NEWLINE];
    OneLineFrames(MAX_CLAUDE_LINE, reply);
    OneReply(parse, c, reply, r);
    TwoChunks(parse, o, line, rest);
  }

  /** Together with an oversized line in one chunk, no line counts. */
  lemma ReplyWithOversized(parse: Bytes -> Option<Reply>, c: Claude, reply: Bytes, long: Bytes)
    requires !c.phase.Ended? && |reply| <= MAX_CLAUDE_LINE && NEWLINE !in reply
    requires |long| > MAX_CLAUDE_LINE && NEWLINE !in long
    ensures ObserveClaude(parse, Observer(c, [], false), reply + [NEWLINE] + long).core == Fail(c, Unavailable)
  {
    OneLineFrames(MAX_CLAUDE_LINE, reply);
    LongLineFails(MAX_CLAUDE_LINE, long);
    FrameConcat(MAX_CLAUDE_LINE, [], reply + [NEWLINE], long);
  }

  /**
   * With an oversized line the cut matters: in one chunk with it, the reply that completes the
   * login is lost and the login fails; in a chunk of its own, it succeeds.
   */
  lemma OversizedLineHidesReply(parse: Bytes -> Option<Reply>, c: Claude, reply: Bytes, b: Body, long: Bytes)
    requires c.phase == Authenticating && c.announcement.None?
    requires parse(reply) == Some(Reply(AuthenticateId, Ok(b))) && b.requiresAction == Some(false)
    requires |reply| <= MAX_CLAUDE_LINE && NEWLINE !in reply
    requires |long| > MAX_CLAUDE_LINE && NEWLINE !in long
    ensures ObserveClaudeChunks(parse, Observer(c, [], false), [reply + [NEWLINE], long]).core.announcement == Some(Ok(Completed))
    ensures ObserveClaude(parse, Observer(c, [], false), reply + [NEWLINE] + long).core.announcement == Some(Err(Unavailable))
  {
    ReplyThenAnything(parse, c, reply, Reply(AuthenticateId, Ok(b)), long);
    ReplyWithOversized(parse, c, reply, long);
  }

  /** What lines leave alone in a Claude login that goes on: at most an awaited callback was announced. */
  ghost predicate GoesOn(before: Claude, after: Claude) {
    && after.name == before.name && after.mode == before.mode && after.pollInterval == before.pollInterval
    && (!after.phase.Ended? ==>
          && after.succeeded == before.succeeded
          && (after.announcement == before.announcement
              || (after.announcement.Some? && after.announcement.value.Ok? && before.announcement.None?)))
  }

  lemma ReplyGoesOn(start: Claude, before: Claude, r: Reply)
    requires GoesOn(start, before)
    ensures GoesOn(start, ObserveReply(before, r))
  {
  }

  lemma {:induction false} LinesGoOn(parse: Bytes -> Option<Reply>, c: Claude, lines: seq<Bytes>)
    ensures GoesOn(c, HandleAll(HandleClaude(parse), c, lines))
  {
    if lines != [] {
      LinesGoOn(parse, c, lines[..|lines| - 1]);
      var before := HandleAll(HandleClaude(parse), c, lines[..|lines| - 1]);
      if parse(lines[|lines| - 1]).Some? {
        ReplyGoesOn(c, before, parse(lines[|lines| - 1]).value);
      }
    }
  }

  /**
   * The state p, reached from c, makes no difference to a failure: success is unchanged, and the
   * announcement is the earlier one, or the failure's own when p has ended.
   */
  predicate NothingToLose(c: Claude, p: Claude) {
    && p.succeeded == c.succeeded
    && p.announcement == if p.phase.Ended? then AnnounceOnce(c.announcement, Err(Unavailable)) else c.announcement
  }

  /**
   * With an oversized line, a Claude login that has not ended depends on the cut exactly when the
   * lines completed in earlier chunks announced something of their own or told of success.
   */
  lemma ClaudeCutMakesNoDifferenceIff(parse: Bytes -> Option<Reply>, o: Observer<Claude>, chunks: seq<Bytes>)
    requires !o.overflowed && !o.core.phase.Ended?
    ensures var p := HandleAll(HandleClaude(parse), o.core, SeenLines(2_097_152, o.pending, chunks));
            ObserveClaudeChunks(parse, o, chunks).core == ObserveClaude(parse, o, Flatten(chunks)).core <==>
            Frame(2_097_152, o.pending, Flatten(chunks)).Some? || NothingToLose(o.core, p)
  {
    var seen := SeenLines(MAX_CLAUDE_LINE, o.pending, chunks);
    ClaudeEndIsFinal(parse);
    CutMakesNoDifferenceIff(MAX_CLAUDE_LINE, HandleClaude(parse), ClaudeEnded, FailClaude, o, chunks);
    LinesGoOn(parse, o.core, seen);
    FailedAlikeIff(o.core, HandleAll(HandleClaude(parse), o.core, seen));
  }

  lemma FailedAlikeIff(c: Claude, p: Claude)
    requires GoesOn(c, p) && !c.phase.Ended?
    ensures Failed(ClaudeEnded, FailClaude, p) == Failed(ClaudeEnded, FailClaude, c) <==> NothingToLose(c, p)
  {
  }

  // ---------------------------------------------------------------- the Claude login object

  class ClaudeMcpLogin {
    const name: string
    const mode: Mode
    const pollInterval: nat
    const parse: Bytes -> Option<Reply>
    const lines: BoundedLines
    var phase: Phase
    var announcement: Option<Announcement>
    var succeeded: bool

    ghost function Login(): Claude
      reads this
    {
      Claude(name, mode, pollInterval, phase, announcement, succeeded)
    }

    ghost function View(): Observer<Claude>
      reads this, lines
    {
      Observer(Login(), lines.pending, lines.overflowed)
    }

    ghost predicate Valid()
      reads this, lines
    {
      lines.limit == 2_097_152 && lines.Valid()
    }

    constructor (name: string, mode: Mode, pollInterval: nat, parse: Bytes -> Option<Reply>)
      ensures Valid() && fresh(lines) && this.parse == parse
      ensures View() == Observer(Claude(name, mode, pollInterval, Initializing, None, false), [], false)
    {
      this.name, this.mode, this.pollInterval, this.parse := name, mode, pollInterval, parse;
      lines := new BoundedLines(MAX_CLAUDE_LINE);
      phase, announcement, succeeded := Initializing, None, false;
    }

    method FailWith(failure: Failure)
      modifies this
      ensures Login() == Fail(old(Login()), failure)
    {
      if announcement.None? {
        announcement := Some(Err(failure));
      }
      phase := Ended;
    }

    method ReceivePoll(poll: Poll, result: Result<Body, Refusal>)
      modifies this
      ensures Login() == PollReply(old(Login()), poll, result)
    {
      var presence := if result.Ok? then PresenceIn(result.value, name) else ServerWaiting;
      match presence {
        case ServerConnected =>
          succeeded := true;
          phase := Ended;
        case ServerMissing =>
          succeeded := false;
          phase := Ended;
        case ServerWaiting => phase := Polling(poll.(outstanding := None));
      }
    }

    method Receive(r: Reply)
      modifies this
      ensures Login() == ObserveReply(old(Login()), r)
    {
      match phase {
        case Initializing =>
          if r.id == InitializeId {
            if r.result.Ok? { phase := Initialized; } else { FailWith(Unavailable); }
          }
        case Clearing =>
          if r.id == ClearId {
            if r.result.Ok? { phase := Cleared; } else { FailWith(Refused(r.result.error)); }
          }
        case Authenticating =>
          if r.id == AuthenticateId {
            if r.result.Err? {
              FailWith(Refused(r.result.error));
            } else {
              var step := LoginStep(r.result.value);
              phase := if step.Ok? && step.value.AwaitingCallback? then Polling(Poll(0, None, None)) else Ended;
              if announcement.None? {
                announcement := Some(step);
              }
            }
          }
        case Polling(poll) =>
          if poll.outstanding == Some(r.id) {
            ReceivePoll(poll, r.result);
          }
        case _ =>
      }
    }

    method Advance(now: nat) returns (request: Option<Request>)
      modifies this
      ensures (Login(), request) == Step(old(Login()), now)
    {
      match phase {
        case Initialized =>
          if mode == SignInAgain {
            phase := Clearing;
            return Some(Clear);
          }
          phase := Authenticating;
          return Some(Authenticate);
        case Cleared =>
          phase := Authenticating;
          return Some(Authenticate);
        case Polling(poll) =>
          var due := poll.lastSent.None? || Since(now, poll.lastSent.value) >= pollInterval;
          if poll.outstanding.Some? || !due {
            return None;
          }
          phase := Polling(Poll(poll.polls + 1, Some(StatusId(poll.polls + 1)), Some(now)));
          return Some(Status(poll.polls + 1));
        case _ => return None;
      }
    }

    /** Takes in a chunk of the provider's output. */
    method Take(bytes: Bytes)
      requires Valid()
      modifies this, lines
      ensures Valid() && View() == ObserveClaude(parse, old(View()), bytes)
    {
      if phase.Ended? {
        return;
      }
      var pushed := lines.Push(bytes);
      if pushed.Err? {
        FailWith(Unavailable);
        return;
      }
      var taken := pushed.value;
      var i := 0;
      while i < |taken|
        invariant i <= |taken| && lines.limit == MAX_CLAUDE_LINE && lines.Valid()
        invariant !lines.overflowed && Frame(MAX_CLAUDE_LINE, old(lines.pending), bytes) == Some(Framed(taken, lines.pending))
        invariant Login() == HandleAll(HandleClaude(parse), old(Login()), taken[..i])
      {
        assert taken[..i + 1][..i] == taken[..i];
        var reply := parse(taken[i]);
        if reply.Some? {
          Receive(reply.value);
        }
        i := i + 1;
      }
      assert taken[..i] == taken;
    }
  }

  // ---------------------------------------------------------------- what a Claude login writes

  datatype Event = Replied(reply: Reply) | Stepped(now: nat) | AnnouncementTaken | LineTooLong

  datatype Run = Run(login: Claude, written: seq<Request>)

  function Happen(r: Run, e: Event): Run {
    match e
    case Replied(reply) => r.(login := ObserveReply(r.login, reply))
    case Stepped(now) =>
      var (login, request) := Step(r.login, now);
      Run(login, if request.Some? then r.written + [request.value] else r.written)
    case AnnouncementTaken => r.(login := r.login.(announcement := None))
    case LineTooLong => if r.login.phase.Ended? then r else r.(login := Fail(r.login, Unavailable))
  }

  function RunAll(name: string, mode: Mode, pollInterval: nat, events: seq<Event>): Run {
    if events == [] then Run(NewClaude(name, mode, pollInterval), [])
    else Happen(RunAll(name, mode, pollInterval, events[..|events| - 1]), events[|events| - 1])
  }

  /** A line that is too long ends a login that has not ended; without an announcement so far, as unavailable. */
  lemma LongLineEndsLogin(r: Run)
    ensures var next := Happen(r, Event.LineTooLong);
            if r.login.phase == Ended then next == r
            else
              && next.written == r.written && next.login == r.login.(phase := Ended, announcement := next.login.announcement)
              && next.login.announcement == if r.login.announcement.Some? then r.login.announcement else Some(Err(Unavailable))
  {
  }

  /** A login begins by waiting for its initial reply, with nothing written or announced. */
  lemma LoginBegins(name: string, mode: Mode, pollInterval: nat)
    ensures RunAll(name, mode, pollInterval, []) == Run(Claude(name, mode, pollInterval, Initializing, None, false), [])
  {
  }

  /** The requests of a login, with its first n status polls. */
  function Script(mode: Mode, n: nat): seq<Request> {
    (if mode == SignInAgain then [Clear, Authenticate] else [Authenticate]) + seq(n, i requires 0 <= i < n => Status(i + 1))
  }

  /** How much of the script has been written by the time of a phase. */
  ghost predicate InScript(c: Claude, written: seq<Request>) {
    match c.phase
    case Initializing => written == []
    case Initialized => written == []
    case Clearing => c.mode == SignInAgain && written == [Clear]
    case Cleared => c.mode == SignInAgain && written == [Clear]
    case Authenticating => written == Script(c.mode, 0)
    case Polling(poll) => written == Script(c.mode, poll.polls)
    case Ended => exists n: nat :: written <= Script(c.mode, n)
  }

  lemma ScriptGrows(mode: Mode, n: nat)
    ensures Script(mode, n + 1) == Script(mode, n) + [Status(n + 1)]
  {
  }

  lemma InScriptIsPrefix(c: Claude, written: seq<Request>) returns (n: nat)
    requires InScript(c, written)
    ensures written <= Script(c.mode, n)
  {
    n := 0;
    if c.phase.Polling? {
      n := c.phase.poll.polls;
    } else if c.phase.Ended? {
      n :| written <= Script(c.mode, n);
    }
  }

  lemma HappenKeepsScript(r: Run, e: Event, next: Run)
    requires InScript(r.login, r.written) && next == Happen(r, e)
    ensures InScript(next.login, next.written) && next.login.mode == r.login.mode
  {
    var n := InScriptIsPrefix(r.login, r.written);
    if next.login.phase.Ended? {
      assert next.written <= Script(next.login.mode, n);
    } else if e.Stepped? && r.login.phase.Polling? {
      ScriptGrows(r.login.mode, r.login.phase.poll.polls);
    }
  }

  lemma {:induction false} RunKeepsScript(name: string, mode: Mode, pollInterval: nat, events: seq<Event>)
    ensures var r := RunAll(name, mode, pollInterval, events); InScript(r.login, r.written) && r.login.mode == mode
  {
    if events != [] {
      RunKeepsScript(name, mode, pollInterval, events[..|events| - 1]);
      HappenKeepsScript(RunAll(name, mode, pollInterval, events[..|events| - 1]), events[|events| - 1],
                        RunAll(name, mode, pollInterval, events));
    }
  }

  /**
   * Whatever is observed, a login writes a prefix of its script: the stored sign-in is cleared
   * first when signing in again and never otherwise, then authentication is asked for once, then
   * status polls are numbered one after the other.
   */
  lemma WritesFollowScript(name: string, mode: Mode, pollInterval: nat, events: seq<Event>) returns (n: nat)
    ensures RunAll(name, mode, pollInterval, events).written <= Script(mode, n)
  {
    RunKeepsScript(name, mode, pollInterval, events);
    var r := RunAll(name, mode, pollInterval, events);
    n := InScriptIsPrefix(r.login, r.written);
  }

  // ---------------------------------------------------------------- what a success means

  /** Entry k is the first with the name. */
  predicate IsFirstNamed(servers: seq<ServerEntry>, name: string, k: nat) {
    k < |servers| && servers[k].name == Some(name) && forall j :: 0 <= j < k ==> servers[j].name != Some(name)
  }

  lemma {:induction false} FirstNamedDecides(servers: seq<ServerEntry>, name: string)
    ensures FirstNamed(servers, name) == ServerMissing <==> forall k :: 0 <= k < |servers| ==> servers[k].name != Some(name)
    ensures FirstNamed(servers, name) == ServerConnected <==> exists k: nat :: IsFirstNamed(servers, name, k) && servers[k].connected
  {
    if servers != [] {
      var rest := servers[1..];
      FirstNamedDecides(rest, name);
      if servers[0].name == Some(name) {
        assert IsFirstNamed(servers, name, 0);
      } else {
        forall k: nat | k < |rest| ensures IsFirstNamed(rest, name, k) <==> IsFirstNamed(servers, name, k + 1) {
          FirstNamedShift(servers, name, k);
        }
        assert forall k :: 0 < k < |servers| ==> servers[k] == rest[k - 1];
        if k: nat :| IsFirstNamed(servers, name, k) && servers[k].connected {
          assert IsFirstNamed(rest, name, k - 1);
        }
      }
    }
  }

  lemma FirstNamedShift(servers: seq<ServerEntry>, name: string, k: nat)
    requires servers != [] && servers[0].name != Some(name) && k + 1 < |servers|
    ensures IsFirstNamed(servers[1..], name, k) <==> IsFirstNamed(servers, name, k + 1)
  {
    assert forall j :: 0 <= j < |servers| - 1 ==> servers[1..][j] == servers[j + 1];
    if IsFirstNamed(servers, name, k + 1) {
      forall j | 0 <= j < k ensures servers[1..][j].name != Some(name) {
        assert servers[j + 1].name != Some(name);
      }
    }
  }

  /** Event i answers the status poll outstanding at that time, and shows the server connected. */
  predicate ShowsConnected(name: string, mode: Mode, pollInterval: nat, events: seq<Event>, i: nat)
    requires i < |events|
  {
    var before := RunAll(name, mode, pollInterval, events[..i]).login;
    && events[i].Replied? && before.phase.Polling? && before.phase.poll.outstanding == Some(events[i].reply.id)
    && events[i].reply.result.Ok? && PresenceIn(events[i].reply.result.value, name) == ServerConnected
  }

  ghost predicate EverConnected(name: string, mode: Mode, pollInterval: nat, events: seq<Event>) {
    exists i: nat :: i < |events| && ShowsConnected(name, mode, pollInterval, events, i)
  }

  lemma EverConnectedGrows(name: string, mode: Mode, pollInterval: nat, events: seq<Event>)
    requires events != []
    ensures EverConnected(name, mode, pollInterval, events) <==>
            || EverConnected(name, mode, pollInterval, events[..|events| - 1])
            || ShowsConnected(name, mode, pollInterval, events, |events| - 1)
  {
    var last := |events| - 1;
    var before := events[..last];
    forall i: nat | i < last
      ensures ShowsConnected(name, mode, pollInterval, before, i) <==> ShowsConnected(name, mode, pollInterval, events, i)
    {
      assert before[..i] == events[..i];
    }
  }

  lemma SuccessIsFinal(r: Run, e: Event)
    requires r.login.succeeded ==> r.login.phase.Ended?
    ensures Happen(r, e).login.succeeded ==> Happen(r, e).login.phase.Ended?
    ensures Happen(r, e).login.name == r.login.name
    ensures Happen(r, e).login.succeeded <==>
            || r.login.succeeded
            || (&& e.Replied? && r.login.phase.Polling? && r.login.phase.poll.outstanding == Some(e.reply.id)
                && e.reply.result.Ok? && PresenceIn(e.reply.result.value, r.login.name) == ServerConnected)
  {
  }

  /** A login has succeeded exactly when an answer to one of its polls showed the server connected. */
  lemma {:induction false} SucceededIffSeenConnected(name: string, mode: Mode, pollInterval: nat, events: seq<Event>)
    ensures var login := RunAll(name, mode, pollInterval, events).login;
            && login.name == name && (login.succeeded ==> login.phase.Ended?)
            && (login.succeeded <==> EverConnected(name, mode, pollInterval, events))
  {
    if events != [] {
      var last := |events| - 1;
      SucceededIffSeenConnected(name, mode, pollInterval, events[..last]);
      EverConnectedGrows(name, mode, pollInterval, events);
      SuccessIsFinal(RunAll(name, mode, pollInterval, events[..last]), events[last]);
    }
  }

  // ---------------------------------------------------------------- the Codex conversation

  const MAX_CODEX_LINE: nat := 8 * 1024 * 1024

  datatype CodexPhase = Handshake | Connected | Requesting | Awaiting(loginId: Option<string>) | CodexEnded

  datatype CodexBody = CodexBody(url: Option<string>, loginId: Option<string>)

  /** A parsed message: a completion notice for a named server, a reply, or anything else. */
  datatype Message =
    | Completion(name: Option<string>, loginId: Option<string>, success: bool)
    | CodexReply(id: nat, result: Result<CodexBody, Refusal>)
    | OtherMessage

  datatype Codex = Codex(name: string, phase: CodexPhase, announcement: Option<Announcement>, succeeded: bool)

  const HANDSHAKE_REPLY: nat := 0
  const LOGIN_REPLY: nat := 1

  function FailCodexWith(c: Codex, failure: Failure): Codex {
    c.(announcement := AnnounceOnce(c.announcement, Err(failure)), phase := CodexEnded)
  }

  function Completes(m: Message, name: string, expected: Option<string>): Option<bool> {
    if !m.Completion? || m.name != Some(name) then None
    else if expected.Some? && m.loginId.Some? && expected != m.loginId then None
    else Some(m.success)
  }

  function AcceptLogin(c: Codex, b: CodexBody): Codex {
    if b.url.None? then FailCodexWith(c, Unavailable)
    else c.(announcement := AnnounceOnce(c.announcement, Ok(AwaitingCallback(b.url.value))), phase := Awaiting(b.loginId))
  }

  function ObserveMessage(c: Codex, m: Message): Codex {
    match c.phase
    case Awaiting(expected) =>
      var completed := Completes(m, c.name, expected);
      if completed.None? then c else c.(succeeded := completed.value, phase := CodexEnded)
    case Handshake =>
      if !m.CodexReply? || m.id != HANDSHAKE_REPLY then c
      else if m.result.Ok? then c.(phase := Connected)
      else FailCodexWith(c, Unavailable)
    case Requesting =>
      if !m.CodexReply? || m.id != LOGIN_REPLY then c
      else if m.result.Ok? then AcceptLogin(c, m.result.value)
      else FailCodexWith(c, Refused(m.result.error))
    case _ => c
  }

  function HandleCodex(parse: Bytes -> Message): (Codex, Bytes) -> Codex {
    (c: Codex, line: Bytes) => ObserveMessage(c, parse(line))
  }

  function FailCodex(c: Codex): Codex { FailCodexWith(c, Unavailable) }

  predicate IsCodexEnded(c: Codex) { c.phase.CodexEnded? }

  lemma CodexEndIsFinal(parse: Bytes -> Message)
    ensures EndIsFinal(HandleCodex(parse), IsCodexEnded)
  {
    forall c: Codex, line: Bytes | IsCodexEnded(c)
      ensures HandleCodex(parse)(c, line) == c
    {
      assert ObserveMessage(c, parse(line)) == c;
    }
  }

  /** However the output between two steps is cut, the Codex login reaches the same state. */
  lemma CodexLoginIsChunkIndependent(parse: Bytes -> Message, o: Observer<Codex>, chunks: seq<Bytes>)
    requires !o.overflowed && Frame(8_388_608, o.pending, Flatten(chunks)).Some?
    ensures ObserveChunks(8_388_608, HandleCodex(parse), IsCodexEnded, FailCodex, o, chunks).core ==
            ObserveChunk(8_388_608, HandleCodex(parse), IsCodexEnded, FailCodex, o, Flatten(chunks)).core
  {
    CodexEndIsFinal(parse);
    ObservingIsChunkIndependent(MAX_CODEX_LINE, HandleCodex(parse), IsCodexEnded, FailCodex, o, chunks);
  }

  ghost predicate CodexGoesOn(before: Codex, after: Codex) {
    && after.name == before.name
    && (!after.phase.CodexEnded? ==>
          && after.succeeded == before.succeeded
          && (after.announcement == before.announcement
              || (after.announcement.Some? && after.announcement.value.Ok? && before.announcement.None?)))
  }

  lemma MessageGoesOn(start: Codex, before: Codex, m: Message)
    requires CodexGoesOn(start, before)
    ensures CodexGoesOn(start, ObserveMessage(before, m))
  {
  }

  lemma {:induction false} MessagesGoOn(parse: Bytes -> Message, c: Codex, lines: seq<Bytes>)
    ensures CodexGoesOn(c, HandleAll(HandleCodex(parse), c, lines))
  {
    if lines != [] {
      MessagesGoOn(parse, c, lines[..|lines| - 1]);
      MessageGoesOn(c, HandleAll(HandleCodex(parse), c, lines[..|lines| - 1]), parse(lines[|lines| - 1]));
    }
  }

  predicate NothingToLoseCodex(c: Codex, p: Codex) {
    && p.succeeded == c.succeeded
    && p.announcement == if p.phase.CodexEnded? then AnnounceOnce(c.announcement, Err(Unavailable)) else c.announcement
  }

  lemma CodexFailedAlikeIff(c: Codex, p: Codex)
    requires CodexGoesOn(c, p) && !c.phase.CodexEnded?
    ensures Failed(IsCodexEnded, FailCodex, p) == Failed(IsCodexEnded, FailCodex, c) <==> NothingToLoseCodex(c, p)
  {
  }

  /** The same exact condition for the Codex login. */
  lemma CodexCutMakesNoDifferenceIff(parse: Bytes -> Message, o: Observer<Codex>, chunks: seq<Bytes>)
    requires !o.overflowed && !o.core.phase.CodexEnded?
    ensures var p := HandleAll(HandleCodex(parse), o.core, SeenLines(8_388_608, o.pending, chunks));
            ObserveChunks(8_388_608, HandleCodex(parse), IsCodexEnded, FailCodex, o, chunks).core ==
            ObserveChunk(8_388_608, HandleCodex(parse), IsCodexEnded, FailCodex, o, Flatten(chunks)).core <==>
            Frame(8_388_608, o.pending, Flatten(chunks)).Some? || NothingToLoseCodex(o.core, p)
  {
    var seen := SeenLines(MAX_CODEX_LINE, o.pending, chunks);
    CodexEndIsFinal(parse);
    CutMakesNoDifferenceIff(MAX_CODEX_LINE, HandleCodex(parse), IsCodexEnded, FailCodex, o, chunks);
    MessagesGoOn(parse, o.core, seen);
    CodexFailedAlikeIff(o.core, HandleAll(HandleCodex(parse), o.core, seen));
  }

  /** The request for a login is written once the connection is established. */
  function StepCodex(c: Codex): (Codex, bool) {
    if c.phase.Connected? then (c.(phase := Requesting), true) else (c, false)
  }

  /** A notice ends an awaited login exactly when it is of this server and of no other login. */
  lemma CompletionEndsLoginIff(c: Codex, m: Message)
    requires c.phase.Awaiting?
    ensures var next := ObserveMessage(c, m);
            && (next.phase.CodexEnded? <==>
                  && m.Completion? && m.name == Some(c.name)
                  && (c.phase.loginId.None? || m.loginId.None? || m.loginId == c.phase.loginId))
            && (next.phase.CodexEnded? ==> next == c.(phase := CodexEnded, succeeded := m.success))
            && (!next.phase.CodexEnded? ==> next == c)
  {
  }

  /** An accepted request announces its address and awaits the notice; without an address it fails. */
  lemma AcceptedLoginIsAnnounced(c: Codex, b: CodexBody)
    requires c.phase == Requesting && c.announcement.None?
    ensures ObserveMessage(c, CodexReply(1, Ok(b))) ==
            if b.url.Some? then c.(phase := Awaiting(b.loginId), announcement := Some(Ok(AwaitingCallback(b.url.value))))
            else c.(phase := CodexEnded, announcement := Some(Err(Unavailable)))
  {
  }

  /** The reply to the handshake leads on, and refusals end the login. */
  lemma CodexRepliesDecide(c: Codex, b: CodexBody, refusal: Refusal)
    requires c.announcement.None?
    ensures c.phase == Handshake ==> ObserveMessage(c, CodexReply(0, Ok(b))) == c.(phase := Connected)
    ensures c.phase == Handshake ==>
              ObserveMessage(c, CodexReply(0, Err(refusal))) == c.(phase := CodexEnded, announcement := Some(Err(Unavailable)))
    ensures c.phase == Requesting ==>
              ObserveMessage(c, CodexReply(1, Err(refusal))) ==
              c.(phase := CodexEnded,
                 announcement := Some(Err(if refusal == RefusedNotFound then ServerNotFound
                                          else if refusal == RefusedUnsupported then LoginUnsupported else Unavailable)))
  {
  }

  /** The login is asked for exactly when the connection has just been established. */
  lemma CodexAsksIffConnected(c: Codex)
    ensures StepCodex(c).1 <==> c.phase == Connected
    ensures StepCodex(c).0 == c.(phase := if c.phase == Connected then Requesting else c.phase)
  {
  }

  /** Any other message is ignored. */
  lemma ForeignMessagesAreIgnored(c: Codex, m: Message)
    requires !c.phase.Awaiting?
    requires c.phase == Handshake ==> !m.CodexReply? || m.id != 0
    requires c.phase == Requesting ==> !m.CodexReply? || m.id != 1
    ensures ObserveMessage(c, m) == c
  {
  }

  // ---------------------------------------------------------------- whole Codex logins

  datatype CodexEvent = Arrived(message: Message) | CodexStepped | CodexAnnouncementTaken | CodexLineTooLong

  /** A login with the number of login requests it wrote. */
  datatype CodexRun = CodexRun(login: Codex, requests: nat)

  function CodexHappen(r: CodexRun, e: CodexEvent): CodexRun {
    match e
    case Arrived(m) => r.(login := ObserveMessage(r.login, m))
    case CodexStepped =>
      var (login, wrote) := StepCodex(r.login);
      CodexRun(login, if wrote then r.requests + 1 else r.requests)
    case CodexAnnouncementTaken => r.(login := r.login.(announcement := None))
    case CodexLineTooLong => if r.login.phase.CodexEnded? then r else r.(login := FailCodex(r.login))
  }

  function CodexRunAll(name: string, events: seq<CodexEvent>): CodexRun {
    if events == [] then CodexRun(Codex(name, Handshake, None, false), 0)
    else CodexHappen(CodexRunAll(name, events[..|events| - 1]), events[|events| - 1])
  }

  /** Event i tells the awaited login of this server that it has succeeded. */
  predicate TellsSuccess(name: string, events: seq<CodexEvent>, i: nat)
    requires i < |events|
  {
    var before := CodexRunAll(name, events[..i]).login;
    && before.phase.Awaiting? && events[i].Arrived? && events[i].message.Completion?
    && events[i].message.name == Some(name) && events[i].message.success
    && (before.phase.loginId.None? || events[i].message.loginId.None? || events[i].message.loginId == before.phase.loginId)
  }

  ghost predicate EverTold(name: string, events: seq<CodexEvent>) {
    exists i: nat :: i < |events| && TellsSuccess(name, events, i)
  }

  lemma EverToldGrows(name: string, events: seq<CodexEvent>)
    requires events != []
    ensures EverTold(name, events) <==>
            EverTold(name, events[..|events| - 1]) || TellsSuccess(name, events, |events| - 1)
  {
    var last := |events| - 1;
    var before := events[..last];
    forall i: nat | i < last
      ensures TellsSuccess(name, before, i) <==> TellsSuccess(name, events, i)
    {
      assert before[..i] == events[..i];
    }
  }

  /** Success, requests and phase after one event. */
  lemma CodexHappens(r: CodexRun, e: CodexEvent)
    requires r.login.succeeded ==> r.login.phase.CodexEnded?
    requires r.requests == 0 || (r.requests == 1 && !r.login.phase.Handshake? && !r.login.phase.Connected?)
    requires r.login.phase.Requesting? || r.login.phase.Awaiting? ==> r.requests == 1
    ensures var next := CodexHappen(r, e);
            && (next.login.succeeded ==> next.login.phase.CodexEnded?)
            && (next.requests == 0 || (next.requests == 1 && !next.login.phase.Handshake? && !next.login.phase.Connected?))
            && (next.login.phase.Requesting? || next.login.phase.Awaiting? ==> next.requests == 1)
            && next.login.name == r.login.name
            && (next.login.succeeded <==>
                  || r.login.succeeded
                  || (&& r.login.phase.Awaiting? && e.Arrived? && e.message.Completion? && e.message.name == Some(r.login.name)
                      && e.message.success
                      && (r.login.phase.loginId.None? || e.message.loginId.None? || e.message.loginId == r.login.phase.loginId)))
  {
  }

  /** The same for a Codex login; and taking its announcement changes nothing else. */
  lemma LongLineEndsCodexLogin(r: CodexRun)
    ensures var next := CodexHappen(r, CodexLineTooLong);
            if r.login.phase == CodexEnded then next == r
            else
              && next.requests == r.requests && next.login == r.login.(phase := CodexEnded, announcement := next.login.announcement)
              && next.login.announcement == if r.login.announcement.Some? then r.login.announcement else Some(Err(Unavailable))
    ensures CodexHappen(r, CodexAnnouncementTaken) == r.(login := r.login.(announcement := None))
  {
  }

  /**
   * Over every run a Codex login asks at most once, and has succeeded exactly when a notice of this
   * server and of no other login told an awaited login so.
   */
  lemma {:induction false} CodexSucceededIffTold(name: string, events: seq<CodexEvent>)
    ensures var r := CodexRunAll(name, events);
            && r.login.name == name
            && (r.login.succeeded ==> r.login.phase.CodexEnded?)
            && (r.login.succeeded <==> EverTold(name, events))
            && (r.requests == 0 || (r.requests == 1 && !r.login.phase.Handshake? && !r.login.phase.Connected?))
            && (r.login.phase.Requesting? || r.login.phase.Awaiting? ==> r.requests == 1)
  {
    if events != [] {
      var last := |events| - 1;
      CodexSucceededIffTold(name, events[..last]);
      EverToldGrows(name, events);
      CodexHappens(CodexRunAll(name, events[..last]), events[last]);
    }
  }

  // ---------------------------------------------------------------- the Codex login object

  class CodexMcpLogin {
    const name: string
    const parse: Bytes -> Message
    const lines: BoundedLines
    var phase: CodexPhase
    var announcement: Option<Announcement>
    var succeeded: bool

    ghost function Login(): Codex
      reads this
    {
      Codex(name, phase, announcement, succeeded)
    }

    ghost function View(): Observer<Codex>
      reads this, lines
    {
      Observer(Login(), lines.pending, lines.overflowed)
    }

    ghost predicate Valid()
      reads this, lines
    {
      lines.limit == 8_388_608 && lines.Valid()
    }

    constructor (name: string, parse: Bytes -> Message)
      ensures Valid() && fresh(lines) && this.parse == parse
      ensures View() == Observer(Codex(name, Handshake, None, false), [], false)
    {
      this.name, this.parse := name, parse;
      lines := new BoundedLines(MAX_CODEX_LINE);
      phase, announcement, succeeded := Handshake, None, false;
    }

    method FailWith(failure: Failure)
      modifies this
      ensures Login() == FailCodexWith(old(Login()), failure)
    {
      if announcement.None? {
        announcement := Some(Err(failure));
      }
      phase := CodexEnded;
    }

    method Receive(m: Message)
      modifies this
      ensures Login() == ObserveMessage(old(Login()), m)
    {
      match phase {
        case Awaiting(expected) =>
          var completed := Completes(m, name, expected);
          if completed.Some? {
            succeeded := completed.value;
            phase := CodexEnded;
          }
        case Handshake =>
          if m.CodexReply? && m.id == HANDSHAKE_REPLY {
            if m.result.Ok? { phase := Connected; } else { FailWith(Unavailable); }
          }
        case Requesting =>
          if m.CodexReply? && m.id == LOGIN_REPLY {
            if m.result.Err? {
              FailWith(Refused(m.result.error));
            } else if m.result.value.url.None? {
              FailWith(Unavailable);
            } else {
              if announcement.None? {
                announcement := Some(Ok(AwaitingCallback(m.result.value.url.value)));
              }
              phase := Awaiting(m.result.value.loginId);
            }
          }
        case _ =>
      }
    }

    method Advance() returns (write: bool)
      modifies this
      ensures (Login(), write) == StepCodex(old(Login()))
    {
      if !phase.Connected? {
        return false;
      }
      phase := Requesting;
      write := true;
    }

    /** Takes in a chunk of the provider's output. */
    method Take(bytes: Bytes)
      requires Valid()
      modifies this, lines
      ensures Valid()
      ensures View() == ObserveChunk(MAX_CODEX_LINE, HandleCodex(parse), IsCodexEnded, FailCodex, old(View()), bytes)
    {
      if phase.CodexEnded? {
        return;
      }
      var pushed := lines.Push(bytes);
      if pushed.Err? {
        FailWith(Unavailable);
        return;
      }
      var taken := pushed.value;
      var i := 0;
      while i < |taken|
        invariant i <= |taken| && lines.limit == MAX_CODEX_LINE && lines.Valid()
        invariant !lines.overflowed && Frame(MAX_CODEX_LINE, old(lines.pending), bytes) == Some(Framed(taken, lines.pending))
        invariant Login() == HandleAll(HandleCodex(parse), old(Login()), taken[..i])
      {
        assert taken[..i + 1][..i] == taken[..i];
        Receive(parse(taken[i]));
        i := i + 1;
      }
      assert taken[..i] == taken;
    }
  }
}
