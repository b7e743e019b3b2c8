/**
 The TTL read cache of internal/datastore/cache.go over the repository. The inner repository is modelled by its tables,
 with the lookups of internal/datastore/sqlite; cache keys are the strings the code builds. Times are milliseconds.

 No lock spans an operation: a read that misses asks the inner repository and stores the answer later, a write commits
 to the inner repository and deletes cache keys later, and any number of both are under way at once. Only the single
 calls of the cache and of the inner repository are steps.
 */
module RepositoryCache {
  import opened Common

  // ---------------------------------------------------------------- inner repository

  datatype IdentityRow = IdentityRow(id: int, userId: string)
  datatype Agent = Agent(id: string, userId: string, status: string, rmqUsername: string)

  // Agents are keyed by the hash of their token.
  datatype Repo = Repo(
    users: map<string, bool>,
    identities: map<(string, string), IdentityRow>,
    allowed: map<(string, string), bool>,
    policies: map<(string, string), string>,
    agents: map<string, Agent>)

  const WILDCARD: string := "*"

  datatype Query =
    | Identity(channelType: string, identity: string)
    | Allowed(userId: string, channelType: string)
    | UserEnabled(userId: string)
    | Policy(userId: string, policyType: string)
    | AgentToken(tokenHash: string)

  datatype Value = UserV(user: string) | BoolV(b: bool) | PolicyV(policy: Option<string>) | AgentV(agent: Agent)

  // A user's own entry for the channel, else the user's wildcard entry, else not allowed.
  predicate IsAllowedIn(r: Repo, userId: string, channelType: string) {
    if (userId, channelType) in r.allowed then r.allowed[(userId, channelType)]
    else (userId, WILDCARD) in r.allowed && r.allowed[(userId, WILDCARD)]
  }

  /** The inner repository's answer; None is an error, which is never cached. */
  function Answer(r: Repo, q: Query): Option<Value> {
    match q
    case Identity(c, i) => Some(UserV(if (c, i) in r.identities then r.identities[(c, i)].userId else ""))
    case Allowed(u, c) => Some(BoolV(IsAllowedIn(r, u, c)))
    case UserEnabled(u) => Some(BoolV(u in r.users && r.users[u]))
    case Policy(u, t) => Some(PolicyV(if (u, t) in r.policies then Some(r.policies[(u, t)]) else None))
    case AgentToken(h) => if h in r.agents then Some(AgentV(r.agents[h])) else None
  }

  datatype Write =
    | AddIdentity(userId: string, channelType: string, identity: string, rowId: int)
    | RemoveIdentity(rowId: int)
    | SetAllowed(userId: string, channelType: string, enabled: bool)
    | RemoveAllowed(userId: string, channelType: string)
    | CreateUser(userId: string)
    | UpdateUser(userId: string, setEnabled: Option<bool>)
    | DeleteUser(userId: string)
    | SetUserPolicy(userId: string, policyType: string, data: string)
    | DeleteUserPolicy(userId: string, policyType: string)
    | ProvisionAgent(tokenHash: string, agent: Agent)
    | RotateAgentToken(oldHash: string, newHash: string)    // the agent's row is named by the hash it has
    | SetAgentStatus(agentId: string, status: string)       // UpdateAgentStatus and RevokeAgent
    | SetAgentRMQUsername(agentId: string, name: string)
    | DeleteAgent(agentId: string)

  function WithoutUser(r: Repo, u: string): Repo {
    Repo(r.users - {u},
         map k | k in r.identities && r.identities[k].userId != u :: r.identities[k],
         map k | k in r.allowed && k.0 != u :: r.allowed[k],
         map k | k in r.policies && k.0 != u :: r.policies[k],
         map k | k in r.agents && r.agents[k].userId != u :: r.agents[k])
  }

  function WithoutAgent(agents: map<string, Agent>, id: string): map<string, Agent> {
    map h | h in agents && agents[h].id != id :: agents[h]
  }

  /** The inner write; None is an error that changes nothing. */
  function Written(r: Repo, w: Write): Option<Repo> {
    match w
    case AddIdentity(u, c, i, id) =>
      if u !in r.users then None
      else if (c, i) in r.identities then Some(r)          // ON CONFLICT DO NOTHING
      else Some(r.(identities := r.identities[(c, i) := IdentityRow(id, u)]))
    case RemoveIdentity(id) =>
      if forall k <- r.identities :: r.identities[k].id != id then None
      else Some(r.(identities := map k | k in r.identities && r.identities[k].id != id :: r.identities[k]))
    case SetAllowed(u, c, b) => if u !in r.users then None else Some(r.(allowed := r.allowed[(u, c) := b]))
    case RemoveAllowed(u, c) => if (u, c) !in r.allowed then None else Some(r.(allowed := r.allowed - {(u, c)}))
    case CreateUser(u) => if u in r.users then None else Some(r.(users := r.users[u := true]))
    case UpdateUser(u, enabled) =>
      if u !in r.users then None
      else Some(if enabled.Some? then r.(users := r.users[u := enabled.value]) else r)
    case DeleteUser(u) => if u !in r.users then None else Some(WithoutUser(r, u))
    case SetUserPolicy(u, t, d) => if u !in r.users then None else Some(r.(policies := r.policies[(u, t) := d]))
    case DeleteUserPolicy(u, t) => Some(r.(policies := r.policies - {(u, t)}))
    case ProvisionAgent(h, a) =>
      if a.userId !in r.users || exists k <- r.agents :: r.agents[k].id == a.id then None
      else Some(r.(agents := r.agents[h := a]))
    case RotateAgentToken(h, h') =>
      Some(if h in r.agents then r.(agents := (r.agents - {h})[h' := r.agents[h]]) else r)
    case SetAgentStatus(id, status) =>
      Some(r.(agents := map h | h in r.agents ::
        if r.agents[h].id == id then r.agents[h].(status := status) else r.agents[h]))
    case SetAgentRMQUsername(id, name) =>
      Some(r.(agents := map h | h in r.agents ::
        if r.agents[h].id == id then r.agents[h].(rmqUsername := name) else r.agents[h]))
    case DeleteAgent(id) =>
      if forall h <- r.agents :: r.agents[h].id != id then None else Some(r.(agents := WithoutAgent(r.agents, id)))
  }

  // ---------------------------------------------------------------- what the lookups and writes mean

  /** When a write is an error: for want of the user, entry, row or agent it names, or for a user or agent there is. */
  lemma WriteFailsIff(r: Repo, w: Write)
    ensures Written(r, w).None?
            <==> match w
                 case AddIdentity(u, _, _, _) => u !in r.users
                 case RemoveIdentity(id) => !exists k <- r.identities :: r.identities[k].id == id
                 case SetAllowed(u, _, _) => u !in r.users
                 case RemoveAllowed(u, c) => (u, c) !in r.allowed
                 case CreateUser(u) => u in r.users
                 case UpdateUser(u, _) => u !in r.users
                 case DeleteUser(u) => u !in r.users
                 case SetUserPolicy(u, _, _) => u !in r.users
                 case ProvisionAgent(_, a) => a.userId !in r.users || exists h <- r.agents :: r.agents[h].id == a.id
                 case DeleteAgent(id) => !exists h <- r.agents :: r.agents[h].id == id
                 case _ => false
  {
  }

  /** A channel is allowed by the user's own entry for it if there is one, and only else by the wildcard entry. */
  lemma OwnEntryDecides(r: Repo, u: string, c: string, b: bool)
    requires u in r.users
    ensures Answer(Written(r, SetAllowed(u, c, b)).value, Allowed(u, c)) == Some(BoolV(b))
    ensures (u, c) !in r.allowed && c != "*" ==>
              Answer(Written(r, SetAllowed(u, "*", b)).value, Allowed(u, c)) == Some(BoolV(b))
    ensures (u, c) in r.allowed && c != "*" ==>
              Answer(Written(r, SetAllowed(u, "*", b)).value, Allowed(u, c)) == Some(BoolV(r.allowed[(u, c)]))
    ensures (u, c) !in r.allowed && (u, "*") !in r.allowed ==> Answer(r, Allowed(u, c)) == Some(BoolV(false))
  {
  }

  /** A removed entry leaves the channel to the wildcard entry, or not allowed; that is an error if there is none. */
  lemma RemovedEntryFallsBack(r: Repo, u: string, c: string)
    ensures Written(r, RemoveAllowed(u, c)).Some? <==> (u, c) in r.allowed
    ensures (u, c) in r.allowed ==>
              Answer(Written(r, RemoveAllowed(u, c)).value, Allowed(u, c))
              == Some(BoolV(c != "*" && (u, "*") in r.allowed && r.allowed[(u, "*")]))
  {
  }

  /** An identity goes to the first user it is added for, until its row is removed. */
  lemma IdentityStays(r: Repo, u: string, c: string, i: string, row: int)
    requires u in r.users
    ensures var r' := Written(r, AddIdentity(u, c, i, row)).value;
            Answer(r', Identity(c, i))
            == if (c, i) in r.identities then Answer(r, Identity(c, i)) else Some(UserV(u))
    ensures (c, i) in r.identities && r.identities[(c, i)].id == row ==>
              Written(r, RemoveIdentity(row)).Some?
              && Answer(Written(r, RemoveIdentity(row)).value, Identity(c, i)) == Some(UserV(""))
  {
  }

  /** A created user is enabled, an update sets that if it says so, and a deleted user is disabled with nothing left. */
  lemma UserLife(r: Repo, u: string, enabled: Option<bool>, c: string, t: string)
    ensures Written(r, CreateUser(u)).Some? <==> u !in r.users
    ensures u !in r.users ==> Answer(Written(r, CreateUser(u)).value, UserEnabled(u)) == Some(BoolV(true))
    ensures u in r.users ==>
              && Answer(Written(r, UpdateUser(u, enabled)).value, UserEnabled(u))
                 == (if enabled.Some? then Some(BoolV(enabled.value)) else Answer(r, UserEnabled(u)))
              && var r' := Written(r, DeleteUser(u)).value;
                 && Answer(r', UserEnabled(u)) == Some(BoolV(false)) && Answer(r', Allowed(u, c)) == Some(BoolV(false))
                 && Answer(r', Policy(u, t)) == Some(PolicyV(None))
                 && (forall k <- r'.identities :: r'.identities[k].userId != u)
                 && forall h <- r'.agents :: r'.agents[h].userId != u
  {
  }

  /** A policy is what was last set, until it is deleted. */
  lemma PolicyLife(r: Repo, u: string, t: string, data: string)
    requires u in r.users
    ensures Answer(Written(r, SetUserPolicy(u, t, data)).value, Policy(u, t)) == Some(PolicyV(Some(data)))
    ensures Answer(Written(r, DeleteUserPolicy(u, t)).value, Policy(u, t)) == Some(PolicyV(None))
  {
  }

  /** A provisioned agent is found by its token's hash, until it is deleted. */
  lemma AgentLife(r: Repo, h: string, a: Agent)
    requires Written(r, ProvisionAgent(h, a)).Some?
    ensures var r' := Written(r, ProvisionAgent(h, a)).value;
            && Answer(r', AgentToken(h)) == Some(AgentV(a))
            && Written(r', DeleteAgent(a.id)).Some?
            && Answer(Written(r', DeleteAgent(a.id)).value, AgentToken(h)) == None
  {
    assert h in Written(r, ProvisionAgent(h, a)).value.agents;
  }

  /** A rotated token is found by its new hash only, and a change of status or name shows at once. */
  lemma AgentChanges(r: Repo, h: string, h': string, status: string, name: string)
    requires h in r.agents
    ensures var a := r.agents[h];
            && Answer(Written(r, SetAgentStatus(a.id, status)).value, AgentToken(h))
               == Some(AgentV(Agent(a.id, a.userId, status, a.rmqUsername)))
            && Answer(Written(r, SetAgentRMQUsername(a.id, name)).value, AgentToken(h))
               == Some(AgentV(Agent(a.id, a.userId, a.status, name)))
            && Answer(Written(r, RotateAgentToken(h, h')).value, AgentToken(h')) == Some(AgentV(a))
            && (h != h' ==> Answer(Written(r, RotateAgentToken(h, h')).value, AgentToken(h)) == None)
  {
  }

  // ---------------------------------------------------------------- keys

  function KeyOf(q: Query): string {
    match q
    case Identity(c, i) => "identity:" + c + ":" + i
    case Allowed(u, c) => "allowed:" + u + ":" + c
    case UserEnabled(u) => "user_enabled:" + u
    case Policy(u, t) => "policy:" + u + ":" + t
    case AgentToken(h) => "agent_token:" + h
  }

  function ClassName(q: Query): string {
    match q
    case Identity(_, _) => "identity"
    case Allowed(_, _) => "allowed"
    case UserEnabled(_) => "user_enabled"
    case Policy(_, _) => "policy"
    case AgentToken(_) => "agent_token"
  }

  function Arguments(q: Query): string {
    match q
    case Identity(c, i) => c + ":" + i
    case Allowed(u, c) => u + ":" + c
    case UserEnabled(u) => u
    case Policy(u, t) => u + ":" + t
    case AgentToken(h) => h
  }

  /** User and channel names contain no colon; identities, policy types and hashes may. */
  predicate Named(q: Query) {
    match q
    case Identity(c, _) => ColonFree(c)
    case Allowed(u, _) => ColonFree(u)
    case Policy(u, _) => ColonFree(u)
    case _ => true
  }

  lemma KeyShape(q: Query)
    ensures KeyOf(q) == ClassName(q) + ":" + Arguments(q) && ColonFree(ClassName(q))
  {
    match q
    case Identity(c, i) => Nested("identity:", c, i);
    case Allowed(u, c) => Nested("allowed:", u, c);
    case UserEnabled(u) =>
    case Policy(u, t) => Nested("policy:", u, t);
    case AgentToken(h) =>
    ClassSpelled(q);
  }

  lemma Nested(prefix: string, a: string, b: string)
    ensures prefix + a + ":" + b == prefix + (a + ":" + b)
  {
  }

  lemma ClassSpelled(q: Query)
    ensures ClassName(q) + ":" ==
      match q
      case Identity(_, _) => "identity:"
      case Allowed(_, _) => "allowed:"
      case UserEnabled(_) => "user_enabled:"
      case Policy(_, _) => "policy:"
      case AgentToken(_) => "agent_token:"
    ensures ColonFree(ClassName(q))
  {
  }

  // The class names differ, by their lengths or first letters.
  lemma ClassNamesDiffer(q: Query, p: Query)
    requires ClassName(q) == ClassName(p)
    ensures (q.Identity? <==> p.Identity?) && (q.Allowed? <==> p.Allowed?) && (q.UserEnabled? <==> p.UserEnabled?)
         && (q.Policy? <==> p.Policy?) && (q.AgentToken? <==> p.AgentToken?)
  {
  }

  /** Whatever the names, keys of different classes differ: no cached value is ever read at the wrong type. */
  lemma KeyFixesClass(q: Query, p: Query)
    requires KeyOf(q) == KeyOf(p)
    ensures (q.Identity? <==> p.Identity?) && (q.Allowed? <==> p.Allowed?) && (q.UserEnabled? <==> p.UserEnabled?)
         && (q.Policy? <==> p.Policy?) && (q.AgentToken? <==> p.AgentToken?)
    ensures Arguments(q) == Arguments(p)
  {
    KeyShape(q);
    KeyShape(p);
    FirstFieldUnique(ClassName(q), Arguments(q), ClassName(p), Arguments(p));
    ClassNamesDiffer(q, p);
  }

  /** With colon-free names, different lookups have different keys. */
  lemma KeysAreInjective(q: Query, p: Query)
    requires Named(q) && Named(p) && KeyOf(q) == KeyOf(p)
    ensures q == p
  {
    KeyFixesClass(q, p);
    match q
    case Identity(c, i) => FirstFieldUnique(c, i, p.channelType, p.identity);
    case Allowed(u, c) => FirstFieldUnique(u, c, p.userId, p.channelType);
    case Policy(u, t) => FirstFieldUnique(u, t, p.userId, p.policyType);
    case _ =>
  }

  /** The two names of a key with two fields. */
  function Fields(q: Query): (string, string) {
    match q
    case Identity(c, i) => (c, i)
    case Allowed(u, c) => (u, c)
    case UserEnabled(u) => (u, "")
    case Policy(u, t) => (u, t)
    case AgentToken(h) => (h, "")
  }

  predicate SameClass(q: Query, p: Query) {
    && (q.Identity? <==> p.Identity?) && (q.Allowed? <==> p.Allowed?) && (q.UserEnabled? <==> p.UserEnabled?)
    && (q.Policy? <==> p.Policy?) && (q.AgentToken? <==> p.AgentToken?)
  }

  /**
   Different lookups share a key exactly when they are of one class and a colon can be read as part of either
   name.
   */
  lemma KeysCollideIff(q: Query, p: Query)
    requires q != p
    ensures KeyOf(q) == KeyOf(p)
            <==> SameClass(q, p) && !q.UserEnabled? && !q.AgentToken?
                 && (ShiftsRight(Fields(q).0, Fields(q).1, Fields(p).0, Fields(p).1)
                     || ShiftsRight(Fields(p).0, Fields(p).1, Fields(q).0, Fields(q).1))
  {
    if KeyOf(q) == KeyOf(p) { KeyFixesClass(q, p); }
    KeyShape(q);
    KeyShape(p);
    JoinedEqualIff(Fields(q).0, Fields(q).1, Fields(p).0, Fields(p).1);
  }

  // ---------------------------------------------------------------- the cache

  function Ttl(q: Query): int { if q.Policy? then 300 * 1000 else 60 * 1000 }

  datatype Cached = Cached(value: Value, expiresAt: int)

  type Cache = map<string, Cached>

  // An item is live up to and including its expiry.
  function Get(cache: Cache, key: string, now: int): Option<Value> {
    if key in cache && now <= cache[key].expiresAt then Some(cache[key].value) else None
  }

  // A read that has its answer from the inner repository and has not stored it yet.
  datatype Reader = Reader(q: Query, value: Value, asked: int)

  // History: what the inner repository held when it was asked, and the answers stored.
  datatype Snapshot = Snapshot(at: int, repo: Repo)
  datatype FillRecord = FillRecord(q: Query, value: Value, asked: int, filled: int)

  datatype State = State(
    repo: Repo,
    cache: Cache,
    clock: int,
    readers: map<nat, Reader>,
    writes: map<nat, Write>,       // committed, with their cache keys still to be deleted
    // history
    seen: seq<Snapshot>,
    fills: seq<FillRecord>)

  function Init(): State { State(Repo(map[], map[], map[], map[], map[]), map[], 0, map[], map[], [], []) }

  datatype Label =
    | Hit(q: Query, now: int)
    | Miss(id: nat, q: Query, now: int) | Fill(id: nat, now: int)
    | Commit(id: nat, w: Write, now: int) | Invalidate(id: nat, now: int)
    | Janitor(now: int)

  predicate Enabled(s: State, l: Label) {
    && s.clock <= l.now
    && match l
       case Hit(q, now) => Named(q) && Get(s.cache, KeyOf(q), now).Some?
       case Miss(id, q, _) => Named(q) && id !in s.readers
       case Fill(id, _) => id in s.readers
       case Commit(id, _, _) => id !in s.writes
       case Invalidate(id, _) => id in s.writes
       case Janitor(_) => true
  }

  // What a successful write removes from the cache.
  predicate Clears(w: Write, k: string) {
    match w
    case AddIdentity(_, c, i, _) => k == KeyOf(Identity(c, i))
    case SetAllowed(u, c, _) => k == KeyOf(Allowed(u, c))
    case RemoveAllowed(u, c) => k == KeyOf(Allowed(u, c))
    case UpdateUser(u, _) => k == KeyOf(UserEnabled(u))
    case DeleteUser(u) => k == KeyOf(UserEnabled(u))
    case SetUserPolicy(u, t, _) => k == KeyOf(Policy(u, t))
    case DeleteUserPolicy(u, t) => k == KeyOf(Policy(u, t))
    case RotateAgentToken(_, _) => true
    case SetAgentStatus(_, _) => true
    case DeleteAgent(_) => true
    case _ => false
  }

  /** A write drops the entry of the one lookup it names, and three of the agent writes drop everything. */
  lemma ClearsIff(w: Write, q: Query)
    requires Named(q)
    requires match w
             case AddIdentity(_, c, _, _) => ColonFree(c)
             case SetAllowed(u, _, _) => ColonFree(u)
             case RemoveAllowed(u, _) => ColonFree(u)
             case SetUserPolicy(u, _, _) => ColonFree(u)
             case DeleteUserPolicy(u, _) => ColonFree(u)
             case _ => true
    ensures Clears(w, KeyOf(q))
            <==> match w
                 case AddIdentity(_, c, i, _) => q == Identity(c, i)
                 case SetAllowed(u, c, _) => q == Allowed(u, c)
                 case RemoveAllowed(u, c) => q == Allowed(u, c)
                 case UpdateUser(u, _) => q == UserEnabled(u)
                 case DeleteUser(u) => q == UserEnabled(u)
                 case SetUserPolicy(u, t, _) => q == Policy(u, t)
                 case DeleteUserPolicy(u, t) => q == Policy(u, t)
                 case RotateAgentToken(_, _) => true
                 case SetAgentStatus(_, _) => true
                 case DeleteAgent(_) => true
                 case _ => false
  {
    if Clears(w, KeyOf(q)) {
      match w
      case AddIdentity(_, c, i, _) => KeysAreInjective(q, Identity(c, i));
      case SetAllowed(u, c, _) => KeysAreInjective(q, Allowed(u, c));
      case RemoveAllowed(u, c) => KeysAreInjective(q, Allowed(u, c));
      case UpdateUser(u, _) => KeysAreInjective(q, UserEnabled(u));
      case DeleteUser(u) => KeysAreInjective(q, UserEnabled(u));
      case SetUserPolicy(u, t, _) => KeysAreInjective(q, Policy(u, t));
      case DeleteUserPolicy(u, t) => KeysAreInjective(q, Policy(u, t));
      case _ =>
    }
  }

  function Invalidated(cache: Cache, w: Write): Cache {
    map k | k in cache && !Clears(w, k) :: cache[k]
  }

  function Unexpired(cache: Cache, now: int): Cache {
    map k | k in cache && now <= cache[k].expiresAt :: cache[k]
  }

  // The question may come any time after the lookup that missed.
  function Asked(s: State, id: nat, q: Query, now: int): State {
    var s' := s.(clock := now, seen := s.seen + [Snapshot(now, s.repo)]);
    match Answer(s.repo, q)
    case None => s'        // an error, which is not cached
    case Some(v) => s'.(readers := s.readers[id := Reader(q, v, now)])
  }

  function Apply(s: State, l: Label): State
    requires Enabled(s, l)
  {
    match l
    case Hit(_, now) => s.(clock := now)
    case Miss(id, q, now) => Asked(s, id, q, now)
    case Fill(id, now) =>
      var r := s.readers[id];
      s.(clock := now, cache := s.cache[KeyOf(r.q) := Cached(r.value, now + Ttl(r.q))], readers := s.readers - {id},
         fills := s.fills + [FillRecord(r.q, r.value, r.asked, now)])
    case Commit(id, w, now) =>
      if Written(s.repo, w).None? then s.(clock := now)
      else s.(clock := now, repo := Written(s.repo, w).value, writes := s.writes[id := w])
    case Invalidate(id, now) =>
      s.(clock := now, cache := Invalidated(s.cache, s.writes[id]), writes := s.writes - {id})
    case Janitor(now) => s.(clock := now, cache := Unexpired(s.cache, now))
  }

  function Step(s: State, l: Label): State {
    if Enabled(s, l) then Apply(s, l) else s
  }

  function Exec(run: seq<Label>): State {
    if run == [] then Init() else Step(Exec(DropLast(run)), Last(run))
  }

  // ---------------------------------------------------------------- bounded staleness

  // The inner repository was seen to give this value for this lookup at that time.
  ghost predicate Gave(seen: seq<Snapshot>, q: Query, v: Value, at: int) {
    exists i :: 0 <= i < |seen| && seen[i].at == at && Answer(seen[i].repo, q) == Some(v)
  }

  ghost predicate FillRight(s: State, f: FillRecord) {
    Named(f.q) && Gave(s.seen, f.q, f.value, f.asked) && f.asked <= f.filled <= s.clock
  }

  ghost predicate ReaderRight(s: State, r: Reader) {
    Named(r.q) && Gave(s.seen, r.q, r.value, r.asked) && r.asked <= s.clock
  }

  // The entry is what the i-th fill stored.
  ghost predicate StoredBy(s: State, k: string, i: nat) {
    && i < |s.fills| && k in s.cache && KeyOf(s.fills[i].q) == k
    && s.cache[k] == Cached(s.fills[i].value, s.fills[i].filled + Ttl(s.fills[i].q))
  }

  ghost predicate FillsRight(s: State) { forall i: nat | i < |s.fills| :: FillRight(s, s.fills[i]) }

  ghost predicate ReadersRight(s: State) { forall id <- s.readers :: ReaderRight(s, s.readers[id]) }

  ghost predicate CacheRight(s: State) { forall k <- s.cache :: exists i: nat :: StoredBy(s, k, i) }

  ghost predicate Inv(s: State) { FillsRight(s) && ReadersRight(s) && CacheRight(s) }

  lemma GaveStays(seen: seq<Snapshot>, x: Snapshot, q: Query, v: Value, at: int)
    requires Gave(seen, q, v, at)
    ensures Gave(seen + [x], q, v, at)
  {
    var i :| 0 <= i < |seen| && seen[i].at == at && Answer(seen[i].repo, q) == Some(v);
    assert (seen + [x])[i] == seen[i];
  }

  lemma MissKeepsFills(s: State, id: nat, q: Query, now: int)
    requires Inv(s) && Enabled(s, Miss(id, q, now))
    ensures FillsRight(Asked(s, id, q, now))
  {
    var s', x := Asked(s, id, q, now), Snapshot(now, s.repo);
    forall i: nat | i < |s'.fills| ensures FillRight(s', s'.fills[i]) {
      GaveStays(s.seen, x, s.fills[i].q, s.fills[i].value, s.fills[i].asked);
    }
  }

  lemma MissKeepsReaders(s: State, id: nat, q: Query, now: int)
    requires Inv(s) && Enabled(s, Miss(id, q, now))
    ensures ReadersRight(Asked(s, id, q, now))
  {
    var s', x := Asked(s, id, q, now), Snapshot(now, s.repo);
    assert s'.seen == s.seen + [x] && s'.seen[|s.seen|] == x;
    forall r | r in s'.readers ensures ReaderRight(s', s'.readers[r]) {
      if r in s.readers && s'.readers[r] == s.readers[r] {
        GaveStays(s.seen, x, s.readers[r].q, s.readers[r].value, s.readers[r].asked);
      }
    }
  }

  // Nothing stored changes.
  lemma CacheKept(s: State, s': State)
    requires CacheRight(s) && s'.fills == s.fills && forall k <- s'.cache :: k in s.cache && s'.cache[k] == s.cache[k]
    ensures CacheRight(s')
  {
    forall k | k in s'.cache ensures exists i: nat :: StoredBy(s', k, i) {
      var i: nat :| StoredBy(s, k, i);
      assert StoredBy(s', k, i);
    }
  }

  lemma FillKeepsHistory(s: State, id: nat, now: int)
    requires Inv(s) && Enabled(s, Fill(id, now))
    ensures FillsRight(Apply(s, Fill(id, now))) && ReadersRight(Apply(s, Fill(id, now)))
  {
    var s', r := Apply(s, Fill(id, now)), s.readers[id];
    assert ReaderRight(s, r);
    forall i: nat | i < |s'.fills| ensures FillRight(s', s'.fills[i]) {
      if i < |s.fills| { assert FillRight(s, s.fills[i]); }
    }
    forall x | x in s'.readers ensures ReaderRight(s', s'.readers[x]) { assert ReaderRight(s, s.readers[x]); }
  }

  lemma FillKeepsCache(s: State, id: nat, now: int)
    requires Inv(s) && Enabled(s, Fill(id, now))
    ensures CacheRight(Apply(s, Fill(id, now)))
  {
    var s', r := Apply(s, Fill(id, now)), s.readers[id];
    forall k | k in s'.cache ensures exists i: nat :: StoredBy(s', k, i) {
      if k == KeyOf(r.q) {
        assert StoredBy(s', k, |s.fills|);
      } else {
        var i: nat :| StoredBy(s, k, i);
        assert StoredBy(s', k, i);
      }
    }
  }

  // Otherwise entries only leave the cache.
  lemma OthersKeepInv(s: State, l: Label)
    requires Inv(s) && Enabled(s, l) && !l.Miss? && !l.Fill?
    ensures Inv(Apply(s, l))
  {
    var s' := Apply(s, l);
    forall i: nat | i < |s'.fills| ensures FillRight(s', s'.fills[i]) { assert FillRight(s, s.fills[i]); }
    forall x | x in s'.readers ensures ReaderRight(s', s'.readers[x]) { assert ReaderRight(s, s.readers[x]); }
    CacheKept(s, s');
  }

  lemma StepKeepsInv(s: State, l: Label)
    requires Inv(s)
    ensures Inv(Step(s, l))
  {
    if Enabled(s, l) {
      match l
      case Miss(id, q, now) =>
        MissKeepsFills(s, id, q, now);
        MissKeepsReaders(s, id, q, now);
        CacheKept(s, Asked(s, id, q, now));
      case Fill(id, now) =>
        FillKeepsHistory(s, id, now);
        FillKeepsCache(s, id, now);
      case _ => OthersKeepInv(s, l);
    }
  }

  lemma {:induction false} Reachable(run: seq<Label>)
    ensures Inv(Exec(run))
  {
    if run != [] {
      Reachable(DropLast(run));
      StepKeepsInv(Exec(DropLast(run)), Last(run));
    }
  }

  // The answer to a cached lookup comes from this fill, which took its value from the inner repository.
  ghost predicate ServedBy(s: State, q: Query, now: int, f: FillRecord) {
    && f.q == q && Get(s.cache, KeyOf(q), now) == Some(f.value) && Gave(s.seen, q, f.value, f.asked)
    && f.asked <= f.filled <= now <= f.filled + Ttl(q)
  }

  /**
   In every run, however reads and writes overlap: a cached answer was stored at most one TTL ago by a read of the same
   lookup, and was the inner repository's answer when that read asked. So it is at most the TTL and that read's own
   duration old.
   */
  lemma {:induction false} HitsAreAtMostOneTtlAndOneFillOld(run: seq<Label>, q: Query, now: int)
    requires Enabled(Exec(run), Hit(q, now))
    ensures exists f <- Exec(run).fills :: ServedBy(Exec(run), q, now, f)
  {
    Reachable(run);
    var s := Exec(run);
    var i: nat :| StoredBy(s, KeyOf(q), i);
    assert FillRight(s, s.fills[i]);
    KeysAreInjective(q, s.fills[i].q);
    assert ServedBy(s, q, now, s.fills[i]);
  }

  /** In every run a cached answer was stored at most a minute ago, a policy's at most five. */
  lemma {:induction false} HitsAreYoung(run: seq<Label>, q: Query, now: int)
    requires Enabled(Exec(run), Hit(q, now))
    ensures exists f <- Exec(run).fills ::
              && ServedBy(Exec(run), q, now, f)
              && f.filled <= now <= f.filled + if q.Policy? then 300000 else 60000
  {
    HitsAreAtMostOneTtlAndOneFillOld(run, q, now);
    var f :| f in Exec(run).fills && ServedBy(Exec(run), q, now, f);
    assert now <= f.filled + if q.Policy? then 300000 else 60000;
  }

  /** A stored answer is served from then on until it is a minute old, a policy's until it is five, and no longer. */
  lemma FillServesFor(s: State, reader: nat, at: int, t: int)
    requires Enabled(s, Fill(reader, at)) && at <= t
    ensures var q, s' := s.readers[reader].q, Apply(s, Fill(reader, at));
            Get(s'.cache, KeyOf(q), t)
            == if t <= at + (if q.Policy? then 300000 else 60000) then Some(s.readers[reader].value) else None
  {
  }

  /** The janitor takes no answer away that a lookup could still get. */
  lemma JanitorIsUnseen(s: State, now: int, k: string, t: int)
    requires Enabled(s, Janitor(now)) && now <= t
    ensures Get(Apply(s, Janitor(now)).cache, k, t) == Get(s.cache, k, t)
  {
  }

  // ---------------------------------------------------------------- freshness

  /** Every cached value is the inner repository's current answer. */
  ghost predicate Coherent(s: State) {
    forall q :: Named(q) && KeyOf(q) in s.cache ==> Answer(s.repo, q) == Some(s.cache[KeyOf(q)].value)
  }

  /** A write has been committed and is still to delete this key. */
  ghost predicate Clearing(s: State, k: string) { exists id <- s.writes :: Clears(s.writes[id], k) }

  ghost predicate EntryRight(s: State, q: Query) {
    Named(q) && KeyOf(q) in s.cache ==>
      Answer(s.repo, q) == Some(s.cache[KeyOf(q)].value) || Clearing(s, KeyOf(q))
  }

  ghost predicate ReadersCurrent(s: State) {
    forall id <- s.readers :: Named(s.readers[id].q) && Answer(s.repo, s.readers[id].q) == Some(s.readers[id].value)
  }

  ghost predicate Settled(s: State) { (forall q :: EntryRight(s, q)) && ReadersCurrent(s) }

  /**
   The writes after which nothing cached can be out of date: all but RemoveIdentity, DeleteUser, SetAgentRMQUsername,
   a change of a wildcard allowlist entry, and the creation of a user or agent whose id or token hash is not new.
   */
  ghost predicate Covered(s: State, w: Write) {
    match w
    case RemoveIdentity(_) => false
    case DeleteUser(_) => false
    case SetAgentRMQUsername(_, _) => false
    case AddIdentity(_, c, _, _) => ColonFree(c)
    case SetAllowed(u, c, _) => c != WILDCARD && ColonFree(u)
    case RemoveAllowed(u, c) => c != WILDCARD && ColonFree(u)
    case SetUserPolicy(u, _, _) => ColonFree(u)
    case DeleteUserPolicy(u, _) => ColonFree(u)
    case CreateUser(u) => KeyOf(UserEnabled(u)) !in s.cache
    case ProvisionAgent(h, _) => KeyOf(AgentToken(h)) !in s.cache
    case _ => true
  }

  // The lookup whose answer a covered write other than an agent write can change.
  ghost function Touched(w: Write): Option<Query> {
    match w
    case AddIdentity(_, c, i, _) => Some(Identity(c, i))
    case SetAllowed(u, c, _) => Some(Allowed(u, c))
    case RemoveAllowed(u, c) => Some(Allowed(u, c))
    case CreateUser(u) => Some(UserEnabled(u))
    case UpdateUser(u, _) => Some(UserEnabled(u))
    case SetUserPolicy(u, t, _) => Some(Policy(u, t))
    case DeleteUserPolicy(u, t) => Some(Policy(u, t))
    case ProvisionAgent(h, _) => Some(AgentToken(h))
    case _ => None
  }

  lemma OnlyTouchedChanges(s: State, w: Write, q: Query)
    requires Covered(s, w) && Touched(w).Some? && q != Touched(w).value && Written(s.repo, w).Some?
    ensures Answer(Written(s.repo, w).value, q) == Answer(s.repo, q)
  {
  }

  // A covered write clears whatever cached answer it changes.
  lemma CoveredClearsChanged(s: State, w: Write, q: Query)
    requires Covered(s, w) && Written(s.repo, w).Some? && Named(q) && KeyOf(q) in s.cache
    requires Answer(Written(s.repo, w).value, q) != Answer(s.repo, q)
    ensures Clears(w, KeyOf(q))
  {
    if Touched(w).Some? && q != Touched(w).value { OnlyTouchedChanges(s, w, q); }
  }

  /** No read is between its answer and storing it whose answer the write changes. */
  ghost predicate NoFillAcross(s: State, w: Write) {
    Written(s.repo, w).Some? ==>
      forall id <- s.readers :: Answer(Written(s.repo, w).value, s.readers[id].q) == Answer(s.repo, s.readers[id].q)
  }

  lemma CommitKeepsSettled(s: State, id: nat, w: Write, now: int)
    requires Settled(s) && Enabled(s, Commit(id, w, now)) && Covered(s, w) && NoFillAcross(s, w)
    ensures Settled(Apply(s, Commit(id, w, now)))
  {
    var s' := Apply(s, Commit(id, w, now));
    forall q ensures EntryRight(s', q) {
      assert EntryRight(s, q);
      if Written(s.repo, w).Some? && Named(q) && KeyOf(q) in s.cache {
        assert s'.writes[id] == w;
        if Answer(s'.repo, q) != Answer(s.repo, q) {
          CoveredClearsChanged(s, w, q);
        } else if Clearing(s, KeyOf(q)) {
          var x :| x in s.writes && Clears(s.writes[x], KeyOf(q));
          assert s'.writes[x] == s.writes[x];
        }
      }
    }
  }

  lemma FillKeepsSettled(s: State, id: nat, now: int)
    requires Settled(s) && Enabled(s, Fill(id, now))
    ensures Settled(Apply(s, Fill(id, now)))
  {
    var s', r := Apply(s, Fill(id, now)), s.readers[id];
    forall q ensures EntryRight(s', q) {
      assert EntryRight(s, q);
      if Named(q) && KeyOf(q) == KeyOf(r.q) { KeysAreInjective(q, r.q); }
    }
  }

  lemma InvalidateKeepsSettled(s: State, id: nat, now: int)
    requires Settled(s) && Enabled(s, Invalidate(id, now))
    ensures Settled(Apply(s, Invalidate(id, now)))
  {
    var s' := Apply(s, Invalidate(id, now));
    forall q ensures EntryRight(s', q) {
      assert EntryRight(s, q);
      if Named(q) && KeyOf(q) in s'.cache && Clearing(s, KeyOf(q)) {
        var x :| x in s.writes && Clears(s.writes[x], KeyOf(q));
        assert x != id && s'.writes[x] == s.writes[x];
      }
    }
  }

  lemma OthersKeepSettled(s: State, l: Label)
    requires Settled(s) && Enabled(s, l) && (l.Hit? || l.Miss? || l.Janitor?)
    ensures Settled(Apply(s, l))
  {
    var s' := Apply(s, l);
    forall q ensures EntryRight(s', q) { assert EntryRight(s, q); }
  }

  /** Every write is covered, and none commits while a read is about to store an answer it changes. */
  ghost predicate Careful(run: seq<Label>) {
    run == [] ||
    (Careful(DropLast(run)) &&
     (Last(run).Commit? ==>
        Covered(Exec(DropLast(run)), Last(run).w) && NoFillAcross(Exec(DropLast(run)), Last(run).w)))
  }

  lemma {:induction false} CarefulRunsStaySettled(run: seq<Label>)
    requires Careful(run)
    ensures Settled(Exec(run))
  {
    if run != [] {
      var s := Exec(DropLast(run));
      CarefulRunsStaySettled(DropLast(run));
      if Enabled(s, Last(run)) {
        match Last(run)
        case Commit(id, w, now) => CommitKeepsSettled(s, id, w, now);
        case Fill(id, now) => FillKeepsSettled(s, id, now);
        case Invalidate(id, now) => InvalidateKeepsSettled(s, id, now);
        case _ => OthersKeepSettled(s, Last(run));
      }
    }
  }

  /**
   In careful runs, with reads and writes overlapping otherwise as they like, a cached answer is the inner repository's
   current one, unless a write that has changed it is just about to delete it.
   */
  lemma {:induction false} ReadsAreFresh(run: seq<Label>, q: Query, now: int)
    requires Careful(run) && Enabled(Exec(run), Hit(q, now)) && !Clearing(Exec(run), KeyOf(q))
    ensures Get(Exec(run).cache, KeyOf(q), now) == Answer(Exec(run).repo, q)
  {
    CarefulRunsStaySettled(run);
    assert EntryRight(Exec(run), q);
  }

  /** Commit, deletion and then the store of a read that was under way. */
  ghost function AcrossFill(s: State, w: Write, reader: nat, now: int): State
    requires s.clock <= now && s.writes == map[] && reader in s.readers && Written(s.repo, w).Some?
  {
    Apply(Apply(Apply(s, Commit(0, w, now)), Invalidate(0, now)), Fill(reader, now))
  }

  /**
   Conversely, a read that stores its answer after a covered write leaves the cache right exactly when the write does
   not change that answer; otherwise the old answer is served for a full TTL, with no write under way.
   */
  lemma FillAcrossWriteIff(s: State, w: Write, reader: nat, now: int)
    requires Settled(s) && s.clock <= now && s.writes == map[] && reader in s.readers
    requires Covered(s, w) && Written(s.repo, w).Some?
    ensures var q, s' := s.readers[reader].q, AcrossFill(s, w, reader, now);
            && (Coherent(s') <==> Answer(Written(s.repo, w).value, q) == Answer(s.repo, q))
            && s'.writes == map[]
            && forall t :: now <= t <= now + Ttl(q) ==> Get(s'.cache, KeyOf(q), t) == Answer(s.repo, q)
  {
    var q, s' := s.readers[reader].q, AcrossFill(s, w, reader, now);
    assert KeyOf(q) in s'.cache && s'.cache[KeyOf(q)] == Cached(s.readers[reader].value, now + Ttl(q));
    assert s'.writes == map[];
    if Answer(s'.repo, q) == Answer(s.repo, q) {
      forall p | Named(p) && KeyOf(p) in s'.cache ensures Answer(s'.repo, p) == Some(s'.cache[KeyOf(p)].value) {
        if KeyOf(p) == KeyOf(q) {
          KeysAreInjective(p, q);
        } else {
          assert EntryRight(s, p) && s'.cache[KeyOf(p)] == s.cache[KeyOf(p)];
          if Answer(s'.repo, p) != Answer(s.repo, p) { CoveredClearsChanged(s, w, p); }
        }
      }
    }
  }

  // ---------------------------------------------------------------- writes that nothing overlaps

  /** A whole write by one goroutine with nothing in between. */
  function TwoSteps(s: State, w: Write, writer: nat): State {
    Step(Step(s, Commit(writer, w, s.clock)), Invalidate(writer, s.clock))
  }

  function Through(s: State, w: Write): State {
    if Written(s.repo, w).None? then s else s.(repo := Written(s.repo, w).value, cache := Invalidated(s.cache, w))
  }

  lemma ThroughIsTwoSteps(s: State, w: Write, writer: nat)
    requires writer !in s.writes
    ensures TwoSteps(s, w, writer) == Through(s, w)
  {
    assert s.writes[writer := w] - {writer} == s.writes;
  }
}
