/**
 * Server status snapshots: built from provider entries, normalised field by field, collected by
 * name and sorted; and the validation that every snapshot so built passes.
 */
module ServersDomain {
  import opened Wrappers
  import opened Text
  import opened Sorting
  import opened EndpointOrigin
  import opened McpDetail

  const MAX_SERVERS: nat := 128
  const MAX_NAME_BYTES: nat := 128
  const MAX_TOOL_COUNT: nat := 4096
  const VERSION: nat := 1

  datatype Provider = ClaudeCode | Codex

  datatype Status = Connected | Connecting | NeedsAuth | Failed | Disabled | UnknownStatus

  datatype Scope = User | Project | Local | Account | Plugin | Managed | UnknownScope

  datatype Transport = Stdio | Http | Sse | UnknownTransport

  datatype Server = Server(
    name: string,
    status: Status,
    scope: Scope,
    transport: Transport,
    endpointOrigin: Option<string>,
    toolCount: Option<nat>,
    detail: Option<string>)

  datatype Snapshot = Snapshot(version: nat, provider: Provider, truncated: bool, servers: seq<Server>)

  datatype Error = InvalidEnvelope | InvalidServer

  // ---------------------------------------------------------------- validation

  predicate IsValidServerName(name: string) {
    BoundedText(name, MAX_NAME_BYTES) && NoBidi(name)
  }

  /** Everything about a server but its name is valid. */
  predicate IsWellBuilt(s: Server) {
    && (s.endpointOrigin.Some? ==> s.transport != Stdio && IsValidOrigin(s.endpointOrigin.value))
    && (s.toolCount.Some? ==> s.toolCount.value <= MAX_TOOL_COUNT)
    && (s.detail.Some? ==> s.status == Failed && IsValidDetail(s.detail.value))
  }

  predicate IsValidServer(s: Server) { IsValidServerName(s.name) && IsWellBuilt(s) }

  predicate DistinctNames(servers: seq<Server>) {
    forall i, j :: 0 <= i < j < |servers| ==> servers[i].name != servers[j].name
  }

  function Validate(s: Snapshot): Result<(), Error> {
    if s.version != VERSION || |s.servers| > MAX_SERVERS then Err(InvalidEnvelope)
    else if (exists i :: 0 <= i < |s.servers| && !IsValidServer(s.servers[i])) || !DistinctNames(s.servers) then Err(InvalidServer)
    else Ok(())
  }

  lemma NoBidiIff(s: string)
    ensures NoBidi(s) <==> forall c :: c in s ==> !IsBidiControl(c)
  {
    assert forall c :: c in s ==> exists i :: 0 <= i < |s| && s[i] == c;
  }

  /** What a snapshot must meet: the first error there is decides. */
  lemma ValidIff(s: Snapshot)
    ensures Validate(s) == Err(InvalidEnvelope) <==> s.version != 1 || |s.servers| > 128
    ensures Validate(s) == Ok(()) <==>
            && s.version == 1 && |s.servers| <= 128
            && (forall i :: 0 <= i < |s.servers| ==>
                  && BoundedText(s.servers[i].name, 128) && (forall c :: c in s.servers[i].name ==> !IsBidiControl(c))
                  && (s.servers[i].endpointOrigin.Some? ==>
                        s.servers[i].transport != Stdio && IsValidOrigin(s.servers[i].endpointOrigin.value))
                  && (s.servers[i].toolCount.Some? ==> s.servers[i].toolCount.value <= 4096)
                  && (s.servers[i].detail.Some? ==>
                        && s.servers[i].status == Failed && BoundedText(s.servers[i].detail.value, 256)
                        && forall c :: c in s.servers[i].detail.value ==> !IsBidiControl(c)))
            && forall i, j :: 0 <= i < |s.servers| && 0 <= j < |s.servers| && s.servers[i].name == s.servers[j].name ==> i == j
  {
    forall i | 0 <= i < |s.servers|
      ensures NoBidi(s.servers[i].name) <==> forall c :: c in s.servers[i].name ==> !IsBidiControl(c)
    {
      NoBidiIff(s.servers[i].name);
    }
    forall i | 0 <= i < |s.servers| && s.servers[i].detail.Some?
      ensures NoBidi(s.servers[i].detail.value) <==> forall c :: c in s.servers[i].detail.value ==> !IsBidiControl(c)
    {
      NoBidiIff(s.servers[i].detail.value);
    }
  }

  // ---------------------------------------------------------------- collecting

  predicate IsNamed(candidate: Option<Server>) {
    candidate.Some? && IsValidServerName(candidate.value.name)
  }

  function Names(servers: seq<Server>): set<string> {
    if servers == [] then {} else Names(servers[..|servers| - 1]) + {servers[|servers| - 1].name}
  }

  lemma {:induction false} NamesAreTheirs(servers: seq<Server>, name: string)
    ensures name in Names(servers) <==> exists i :: 0 <= i < |servers| && servers[i].name == name
  {
    if servers != [] {
      NamesAreTheirs(servers[..|servers| - 1], name);
    }
  }

  /** The validly named candidates, each name at its first occurrence. */
  function Chosen(candidates: seq<Option<Server>>): seq<Server> {
    if candidates == [] then []
    else
      var rest := Chosen(candidates[..|candidates| - 1]);
      var last := candidates[|candidates| - 1];
      if IsNamed(last) && last.value.name !in Names(rest) then rest + [last.value] else rest
  }

  function Kept(candidates: seq<Option<Server>>): seq<Server> {
    var chosen := Chosen(candidates);
    if |chosen| <= MAX_SERVERS then chosen else chosen[..MAX_SERVERS]
  }

  predicate ByName(a: Server, b: Server) { TextLeq(a.name, b.name) }

  function Assembled(provider: Provider, candidates: seq<Option<Server>>, incomplete: bool): Snapshot {
    Snapshot(VERSION, provider, incomplete || |Kept(candidates)| < |candidates|, Sort(Kept(candidates), ByName))
  }

  lemma {:induction false} ChosenGrows(candidates: seq<Option<Server>>, n: nat)
    requires n <= |candidates|
    ensures Chosen(candidates[..n]) <= Chosen(candidates)
    decreases |candidates|
  {
    if n == |candidates| {
      assert candidates[..n] == candidates;
    } else {
      var before := candidates[..|candidates| - 1];
      assert before[..n] == candidates[..n];
      ChosenGrows(before, n);
    }
  }

  lemma ChosenStep(candidates: seq<Option<Server>>, i: nat)
    requires i < |candidates|
    ensures Chosen(candidates[..i + 1]) ==
            if IsNamed(candidates[i]) && candidates[i].value.name !in Names(Chosen(candidates[..i]))
            then Chosen(candidates[..i]) + [candidates[i].value] else Chosen(candidates[..i])
  {
    assert candidates[..i + 1][..i] == candidates[..i];
  }

  lemma NamesSnoc(servers: seq<Server>, s: Server)
    ensures Names(servers + [s]) == Names(servers) + {s.name}
  {
    assert (servers + [s])[..|servers|] == servers;
  }

  /** Nothing past the limit is kept. */
  lemma KeptWhenFull(candidates: seq<Option<Server>>, servers: seq<Server>, s: Server, i: nat)
    requires i < |candidates| && |servers| == MAX_SERVERS && Chosen(candidates[..i + 1]) == servers + [s]
    ensures Kept(candidates) == servers
  {
    ChosenGrows(candidates, i + 1);
  }

  /** The loop that fills the list, up to its limit. */
  method Collect(candidates: seq<Option<Server>>, incomplete: bool) returns (servers: seq<Server>, truncated: bool)
    ensures servers == Kept(candidates)
    ensures truncated == (incomplete || |servers| < |candidates|)
  {
    var names: set<string> := {};
    servers := [];
    truncated := incomplete;
    var i := 0;
    while i < |candidates|
      invariant i <= |candidates|
      invariant servers == Chosen(candidates[..i]) && names == Names(servers)
      invariant |servers| <= MAX_SERVERS && |servers| <= i
      invariant truncated == (incomplete || |servers| < i)
    {
      var candidate := candidates[i];
      ChosenStep(candidates, i);
      i := i + 1;
      if !IsNamed(candidate) {
        truncated := true;
        continue;
      }
      if candidate.value.name in names {
        truncated := true;
        continue;
      }
      names := names + {candidate.value.name};
      if |servers| == MAX_SERVERS {
        KeptWhenFull(candidates, servers, candidate.value, i - 1);
        truncated := true;
        return;
      }
      NamesSnoc(servers, candidate.value);
      servers := servers + [candidate.value];
    }
    assert candidates[..i] == candidates;
  }

  method Assemble(provider: Provider, candidates: seq<Option<Server>>, incomplete: bool) returns (r: Result<Snapshot, Error>)
    ensures var snapshot := Assembled(provider, candidates, incomplete);
            r == match Validate(snapshot)
                 case Ok(_) => Ok(snapshot)
                 case Err(e) => Err(e)
  {
    var servers, truncated := Collect(candidates, incomplete);
    var snapshot := Snapshot(VERSION, provider, truncated, Sort(servers, ByName));
    var valid := Validate(snapshot);
    r := if valid.Ok? then Ok(snapshot) else Err(valid.error);
  }

  // ---------------------------------------------------------------- what is collected

  lemma {:induction false} ChosenAreDistinct(candidates: seq<Option<Server>>)
    ensures DistinctNames(Chosen(candidates))
  {
    if candidates != [] {
      var before, last := candidates[..|candidates| - 1], candidates[|candidates| - 1];
      ChosenAreDistinct(before);
      if IsNamed(last) {
        NamesAreTheirs(Chosen(before), last.value.name);
      }
    }
  }

  lemma {:induction false} ChosenAreNamed(candidates: seq<Option<Server>>, s: Server)
    requires s in Chosen(candidates)
    ensures IsValidServerName(s.name) && Some(s) in candidates
  {
    var before := candidates[..|candidates| - 1];
    if s in Chosen(before) {
      ChosenAreNamed(before, s);
    }
  }

  /** Candidate i is the first with its valid name. */
  predicate FirstOfName(candidates: seq<Option<Server>>, i: nat) {
    && i < |candidates| && IsNamed(candidates[i])
    && forall j :: 0 <= j < i && IsNamed(candidates[j]) ==> candidates[j].value.name != candidates[i].value.name
  }

  lemma {:induction false} NameTaken(candidates: seq<Option<Server>>, name: string)
    ensures name in Names(Chosen(candidates)) <==>
            exists j :: 0 <= j < |candidates| && IsNamed(candidates[j]) && candidates[j].value.name == name
  {
    if candidates != [] {
      var before, last := candidates[..|candidates| - 1], candidates[|candidates| - 1];
      NameTaken(before, name);
      var rest := Chosen(before);
      assert forall j :: 0 <= j < |before| ==> before[j] == candidates[j];
      if IsNamed(last) && last.value.name !in Names(rest) {
        assert (rest + [last.value])[..|rest|] == rest;
      }
    }
  }

  predicate FirstIs(candidates: seq<Option<Server>>, i: nat, s: Server) {
    FirstOfName(candidates, i) && candidates[i] == Some(s)
  }

  /** A server is chosen exactly when it is the first candidate with its valid name. */
  lemma ChosenIff(candidates: seq<Option<Server>>, s: Server)
    ensures s in Chosen(candidates) <==> exists i: nat :: FirstIs(candidates, i, s)
  {
    if s in Chosen(candidates) {
      var i := ChosenHasFirst(candidates, s);
    }
    if i: nat :| FirstIs(candidates, i, s) {
      FirstIsChosen(candidates, i, s);
    }
  }

  lemma {:induction false} ChosenHasFirst(candidates: seq<Option<Server>>, s: Server) returns (i: nat)
    requires s in Chosen(candidates)
    ensures FirstIs(candidates, i, s)
  {
    var n := |candidates| - 1;
    if s in Chosen(candidates[..n]) {
      i := ChosenHasFirst(candidates[..n], s);
      assert forall j :: 0 <= j <= i ==> candidates[..n][j] == candidates[j];
    } else {
      i := n;
      LastIsFirstIff(candidates);
    }
  }

  lemma {:induction false} FirstIsChosen(candidates: seq<Option<Server>>, i: nat, s: Server)
    requires FirstIs(candidates, i, s)
    ensures s in Chosen(candidates)
  {
    var n := |candidates| - 1;
    if i < n {
      assert forall j :: 0 <= j <= i ==> candidates[..n][j] == candidates[j];
      FirstIsChosen(candidates[..n], i, s);
    } else {
      LastIsFirstIff(candidates);
    }
  }

  lemma LastIsFirstIff(candidates: seq<Option<Server>>)
    requires candidates != [] && IsNamed(candidates[|candidates| - 1])
    ensures var n := |candidates| - 1;
            FirstOfName(candidates, n) <==> candidates[n].value.name !in Names(Chosen(candidates[..n]))
  {
    var n := |candidates| - 1;
    NameTaken(candidates[..n], candidates[n].value.name);
    assert forall j :: 0 <= j < n ==> candidates[..n][j] == candidates[j];
  }

  // ---------------------------------------------------------------- assembling never fails

  lemma ByNameIsTotal()
    ensures TotalPreorder(ByName)
  {
    forall a, b ensures ByName(a, b) || ByName(b, a) {
      TextTotal(a.name, b.name);
    }
    forall a, b, c | ByName(a, b) && ByName(b, c) ensures ByName(a, c) {
      TextTransitive(a.name, b.name, c.name);
    }
  }

  lemma {:induction false} NamedOnce(servers: seq<Server>, s: Server)
    requires DistinctNames(servers)
    ensures multiset(servers)[s] <= 1
  {
    if servers != [] {
      var before, last := servers[..|servers| - 1], servers[|servers| - 1];
      assert servers == before + [last];
      NamedOnce(before, s);
      assert last == s ==> s !in before;
    }
  }

  lemma SortKeepsNamesDistinct(servers: seq<Server>, sorted: seq<Server>)
    requires DistinctNames(servers) && multiset(sorted) == multiset(servers)
    ensures DistinctNames(sorted)
  {
    forall i, j | 0 <= i < j < |sorted| ensures sorted[i].name != sorted[j].name {
      assert sorted[i] in multiset(sorted) && sorted[j] in multiset(sorted);
      if sorted[i].name == sorted[j].name {
        var a :| 0 <= a < |servers| && servers[a] == sorted[i];
        var b :| 0 <= b < |servers| && servers[b] == sorted[j];
        assert a == b;
        Twice(sorted, i, j);
        NamedOnce(servers, sorted[i]);
      }
    }
  }

  lemma KeptAreChosen(candidates: seq<Option<Server>>)
    ensures |Kept(candidates)| <= |candidates| && |Kept(candidates)| <= 128 && DistinctNames(Kept(candidates))
    ensures Kept(candidates) <= Chosen(candidates) && (|Kept(candidates)| < 128 ==> Kept(candidates) == Chosen(candidates))
    ensures forall s :: s in Kept(candidates) ==> IsValidServerName(s.name) && Some(s) in candidates
  {
    AllChosenIff(candidates);
    ChosenAreDistinct(candidates);
    forall s | s in Kept(candidates) ensures IsValidServerName(s.name) && Some(s) in candidates {
      ChosenAreNamed(candidates, s);
    }
  }

  /**
   * Assembling well built candidates always succeeds: the snapshot validates, is sorted by name
   * with distinct names, and holds exactly the servers kept.
   */
  lemma AssembledIsValid(provider: Provider, candidates: seq<Option<Server>>, incomplete: bool)
    requires forall s :: Some(s) in candidates ==> IsWellBuilt(s)
    ensures var snapshot := Assembled(provider, candidates, incomplete);
            && Validate(snapshot) == Ok(()) && snapshot.provider == provider
            && SortedBy(snapshot.servers, ByName) && DistinctNames(snapshot.servers)
            && multiset(snapshot.servers) == multiset(Kept(candidates))
  {
    var kept := Kept(candidates);
    var sorted := Sort(kept, ByName);
    KeptAreChosen(candidates);
    ByNameIsTotal();
    SortSorts(kept, ByName);
    SortKeepsNamesDistinct(kept, sorted);
    forall i | 0 <= i < |sorted| ensures IsValidServer(sorted[i]) {
      assert sorted[i] in multiset(sorted);
      assert sorted[i] in kept;
    }
  }

  lemma {:induction false} AllChosenIff(candidates: seq<Option<Server>>)
    ensures |Chosen(candidates)| == |candidates| <==> forall i :: 0 <= i < |candidates| ==> FirstOfName(candidates, i)
    ensures |Chosen(candidates)| <= |candidates|
  {
    if candidates != [] {
      var n := |candidates| - 1;
      var before := candidates[..n];
      AllChosenIff(before);
      forall i | 0 <= i < n ensures FirstOfName(before, i) <==> FirstOfName(candidates, i) {
        assert forall j :: 0 <= j <= i ==> before[j] == candidates[j];
      }
      if IsNamed(candidates[n]) {
        LastIsFirstIff(candidates);
      } else {
        assert !FirstOfName(candidates, n);
      }
    }
  }

  /** A snapshot counts as truncated exactly when something is missing from it. */
  lemma TruncatedIff(provider: Provider, candidates: seq<Option<Server>>, incomplete: bool)
    ensures Assembled(provider, candidates, incomplete).truncated <==>
            || incomplete || |candidates| > 128
            || exists i :: 0 <= i < |candidates| && !FirstOfName(candidates, i)
  {
    AllChosenIff(candidates);
  }

  // ---------------------------------------------------------------- provider entries

  /** A field of a provider entry: missing or null, text, or anything else. */
  datatype Field = Absent | Words(text: string) | Other

  datatype ClaudeConfig = ClaudeConfig(kind: Field, url: Option<string>)

  datatype ClaudeEntry = ClaudeEntry(
    name: Option<string>,
    status: Option<string>,
    scope: Option<string>,
    config: Option<ClaudeConfig>,
    tools: Option<nat>,
    error: Option<string>)

  datatype CodexEntry = CodexEntry(
    name: Option<string>,
    runtimeStatus: Field,
    authStatus: Option<string>,
    toolsError: Option<string>,
    serverInfo: Field,
    pluginId: Field,
    httpOrigin: Field,
    tools: Option<nat>)

  function BoundedToolCount(tools: Option<nat>): Option<nat> {
    if tools.Some? && tools.value <= MAX_TOOL_COUNT then tools else None
  }

  function RemoteOrigin(transport: Transport, url: Option<string>): Option<string> {
    if transport == Stdio || url.None? then None else Origin(url.value)
  }

  function ClaudeStatus(status: Option<string>): Status {
    if status == Some("connected") then Connected
    else if status == Some("pending") then Connecting
    else if status == Some("needs-auth") then NeedsAuth
    else if status == Some("failed") then Failed
    else if status == Some("disabled") then Disabled
    else UnknownStatus
  }

  function ClaudeScope(scope: Option<string>): Scope {
    if scope == Some("user") then User
    else if scope == Some("project") then Project
    else if scope == Some("local") then Local
    else if scope == Some("claudeai") then Account
    else if scope == Some("managed") || scope == Some("enterprise") then Managed
    else UnknownScope
  }

  function ClaudeTransport(config: Option<ClaudeConfig>): Transport {
    if config.None? || config.value.kind == Absent then Stdio
    else
      match config.value.kind
      case Words(kind) =>
        if kind == "stdio" then Stdio
        else if kind == "http" || kind == "claudeai-proxy" then Http
        else if kind == "sse" then Sse
        else UnknownTransport
      case _ => UnknownTransport
  }

  function ClaudeServer(e: ClaudeEntry): Option<Server> {
    if e.name.None? then None
    else
      var status, transport := ClaudeStatus(e.status), ClaudeTransport(e.config);
      Some(Server(e.name.value, status, ClaudeScope(e.scope), transport,
                  RemoteOrigin(transport, if e.config.Some? then e.config.value.url else None),
                  BoundedToolCount(e.tools),
                  FailureDetail(status == Failed, e.error)))
  }

  function CodexStatus(e: CodexEntry): Status {
    match e.runtimeStatus
    case Words(runtime) =>
      if runtime == "connected" then Connected
      else if runtime == "starting" then Connecting
      else if runtime == "authenticationRequired" then NeedsAuth
      else if runtime == "failed" || runtime == "cancelled" then Failed
      else if runtime == "disabled" then Disabled
      else UnknownStatus
    case Other => UnknownStatus
    case Absent =>
      if e.authStatus == Some("notLoggedIn") then NeedsAuth
      else if e.toolsError.Some? && Trim(e.toolsError.value) != [] then Failed
      else if e.serverInfo != Absent then Connected
      else UnknownStatus
  }

  function CodexServer(e: CodexEntry): Option<Server> {
    if e.name.None? then None
    else
      var status := CodexStatus(e);
      var transport := if e.httpOrigin == Absent then Stdio else Http;
      Some(Server(e.name.value, status, if e.pluginId == Absent then UnknownScope else Plugin, transport,
                  RemoteOrigin(transport, if e.httpOrigin.Words? then Some(e.httpOrigin.text) else None),
                  BoundedToolCount(e.tools),
                  FailureDetail(status == Failed, e.toolsError)))
  }

  // ---------------------------------------------------------------- what a server says about its entry

  lemma ClaudeStatusIff(status: Option<string>)
    ensures ClaudeStatus(status) == Connected <==> status == Some("connected")
    ensures ClaudeStatus(status) == Connecting <==> status == Some("pending")
    ensures ClaudeStatus(status) == NeedsAuth <==> status == Some("needs-auth")
    ensures ClaudeStatus(status) == Failed <==> status == Some("failed")
    ensures ClaudeStatus(status) == Disabled <==> status == Some("disabled")
  {
  }

  lemma ClaudeScopeIff(scope: Option<string>)
    ensures ClaudeScope(scope) == User <==> scope == Some("user")
    ensures ClaudeScope(scope) == Project <==> scope == Some("project")
    ensures ClaudeScope(scope) == Local <==> scope == Some("local")
    ensures ClaudeScope(scope) == Account <==> scope == Some("claudeai")
    ensures ClaudeScope(scope) == Managed <==> scope in {Some("managed"), Some("enterprise")}
    ensures ClaudeScope(scope) != Plugin
  {
  }

  lemma ClaudeTransportIff(config: Option<ClaudeConfig>)
    ensures ClaudeTransport(config) == Stdio <==> config.None? || config.value.kind in {Absent, Words("stdio")}
    ensures ClaudeTransport(config) == Http <==> config.Some? && config.value.kind in {Words("http"), Words("claudeai-proxy")}
    ensures ClaudeTransport(config) == Sse <==> config.Some? && config.value.kind == Words("sse")
  {
  }

  /** The fields that both providers fill alike. */
  predicate CommonFields(s: Server, url: Option<string>, tools: Option<nat>, error: Option<string>) {
    && s.endpointOrigin == (if s.transport != Stdio && url.Some? then Origin(url.value) else None)
    && (s.toolCount.Some? <==> tools.Some? && tools.value <= 4096) && (s.toolCount.Some? ==> s.toolCount == tools)
    && s.detail == (if s.status == Failed then FailureDetail(true, error) else None)
  }

  /** An entry becomes a server exactly when it has a name, and each field follows from its own field of the entry. */
  lemma ClaudeServerReflectsEntry(e: ClaudeEntry)
    ensures ClaudeServer(e).Some? <==> e.name.Some?
    ensures ClaudeServer(e).Some? ==>
              var s := ClaudeServer(e).value;
              && Some(s.name) == e.name
              && s.status == ClaudeStatus(e.status) && s.scope == ClaudeScope(e.scope) && s.transport == ClaudeTransport(e.config)
              && CommonFields(s, if e.config.Some? then e.config.value.url else None, e.tools, e.error)
  {
  }

  /** The status of a Codex entry; without one, its signs of trouble and of life decide. */
  lemma CodexStatusIff(e: CodexEntry)
    ensures var silent := e.runtimeStatus == Absent && e.authStatus != Some("notLoggedIn");
            var broken := e.toolsError.Some? && Trim(e.toolsError.value) != [];
            && (CodexStatus(e) == Connected <==> e.runtimeStatus == Words("connected") || (silent && !broken && e.serverInfo != Absent))
            && (CodexStatus(e) == Connecting <==> e.runtimeStatus == Words("starting"))
            && (CodexStatus(e) == NeedsAuth <==>
                  || e.runtimeStatus == Words("authenticationRequired")
                  || (e.runtimeStatus == Absent && e.authStatus == Some("notLoggedIn")))
            && (CodexStatus(e) == Failed <==> e.runtimeStatus in {Words("failed"), Words("cancelled")} || (silent && broken))
            && (CodexStatus(e) == Disabled <==> e.runtimeStatus == Words("disabled"))
  {
  }

  lemma CodexServerReflectsEntry(e: CodexEntry)
    ensures CodexServer(e).Some? <==> e.name.Some?
    ensures CodexServer(e).Some? ==>
              var s := CodexServer(e).value;
              && Some(s.name) == e.name && s.status == CodexStatus(e)
              && (s.scope == Plugin <==> e.pluginId != Absent) && (s.scope == UnknownScope <==> e.pluginId == Absent)
              && (s.transport == Stdio <==> e.httpOrigin == Absent) && (s.transport == Http <==> e.httpOrigin != Absent)
              && CommonFields(s, if e.httpOrigin.Words? then Some(e.httpOrigin.text) else None, e.tools, e.toolsError)
  {
  }

  lemma BuiltFieldsAreValid(transport: Transport, url: Option<string>, failed: bool, raw: Option<string>)
    ensures RemoteOrigin(transport, url).Some? ==> transport != Stdio && IsValidOrigin(RemoteOrigin(transport, url).value)
    ensures FailureDetail(failed, raw).Some? ==> failed && IsValidDetail(FailureDetail(failed, raw).value)
  {
    if FailureDetail(failed, raw).Some? {
      DetailIsValid(failed, raw);
    }
  }

  lemma ClaudeServersAreWellBuilt(e: ClaudeEntry)
    ensures ClaudeServer(e).Some? ==> IsWellBuilt(ClaudeServer(e).value)
  {
    BuiltFieldsAreValid(ClaudeTransport(e.config), if e.config.Some? then e.config.value.url else None,
                        ClaudeStatus(e.status) == Failed, e.error);
  }

  lemma CodexServersAreWellBuilt(e: CodexEntry)
    ensures CodexServer(e).Some? ==> IsWellBuilt(CodexServer(e).value)
  {
    BuiltFieldsAreValid(if e.httpOrigin == Absent then Stdio else Http,
                        if e.httpOrigin.Words? then Some(e.httpOrigin.text) else None,
                        CodexStatus(e) == Failed, e.toolsError);
  }

  function ClaudeCandidates(entries: seq<ClaudeEntry>): seq<Option<Server>> {
    seq(|entries|, i requires 0 <= i < |entries| => ClaudeServer(entries[i]))
  }

  function CodexCandidates(entries: seq<CodexEntry>): seq<Option<Server>> {
    seq(|entries|, i requires 0 <= i < |entries| => CodexServer(entries[i]))
  }

  /** Whatever entries a Claude provider sends, the snapshot assembled from them is valid. */
  lemma ClaudeSnapshotIsValid(entries: seq<ClaudeEntry>)
    ensures Validate(Assembled(ClaudeCode, ClaudeCandidates(entries), false)) == Ok(())
  {
    var candidates := ClaudeCandidates(entries);
    forall s | Some(s) in candidates ensures IsWellBuilt(s) {
      var i :| 0 <= i < |candidates| && candidates[i] == Some(s);
      ClaudeServersAreWellBuilt(entries[i]);
    }
    AssembledIsValid(ClaudeCode, candidates, false);
  }

  /** Whatever entries a Codex provider sends, the snapshot assembled from them is valid. */
  lemma CodexSnapshotIsValid(entries: seq<CodexEntry>, incomplete: bool)
    ensures Validate(Assembled(Codex, CodexCandidates(entries), incomplete)) == Ok(())
  {
    var candidates := CodexCandidates(entries);
    forall s | Some(s) in candidates ensures IsWellBuilt(s) {
      var i :| 0 <= i < |candidates| && candidates[i] == Some(s);
      CodexServersAreWellBuilt(entries[i]);
    }
    AssembledIsValid(Codex, candidates, incomplete);
  }

  // ---------------------------------------------------------------- servers disabled in the configuration

  function Mark(s: Server, disabled: set<string>): Server {
    if s.status != Connected && s.status != Connecting && s.name in disabled then s.(status := Disabled, detail := None) else s
  }

  function Marked(servers: seq<Server>, disabled: set<string>): seq<Server> {
    seq(|servers|, i requires 0 <= i < |servers| => Mark(servers[i], disabled))
  }

  method MarkDisabled(servers: array<Server>, disabled: set<string>)
    modifies servers
    ensures servers[..] == Marked(old(servers[..]), disabled)
  {
    for i := 0 to servers.Length
      invariant forall k :: 0 <= k < i ==> servers[k] == Mark(old(servers[k]), disabled)
      invariant forall k :: i <= k < servers.Length ==> servers[k] == old(servers[k])
    {
      var s := servers[i];
      if s.status != Connected && s.status != Connecting {
        if s.name in disabled {
          servers[i] := s.(status := Disabled, detail := None);
        }
      }
    }
  }

  /** One server under marking: disabled exactly when it was, or when it is configured so and not live. */
  lemma MarkMeans(s: Server, disabled: set<string>)
    ensures IsWellBuilt(s) ==> IsWellBuilt(Mark(s, disabled))
    ensures Mark(s, disabled).status == Disabled <==>
            s.status == Disabled || (s.name in disabled && s.status !in {Connected, Connecting})
    ensures Mark(s, disabled).status in {s.status, Disabled}
    ensures Mark(s, disabled).detail ==
            if s.name in disabled && s.status !in {Connected, Connecting} then None else s.detail
    ensures Mark(s, disabled).(status := s.status, detail := s.detail) == s
  {
  }

  /** Marking keeps a valid snapshot valid, in order and under the same names. */
  lemma MarkingKeepsValid(s: Snapshot, disabled: set<string>)
    requires Validate(s) == Ok(())
    ensures Validate(s.(servers := Marked(s.servers, disabled))) == Ok(())
    ensures SortedBy(s.servers, ByName) ==> SortedBy(Marked(s.servers, disabled), ByName)
  {
    var marked := Marked(s.servers, disabled);
    forall i | 0 <= i < |marked| ensures marked[i].name == s.servers[i].name && IsValidServer(marked[i]) {
      assert IsValidServer(s.servers[i]);
      MarkMeans(s.servers[i], disabled);
    }
  }
}
