/**
 The writes that can leave a cached value out of date (internal/datastore/cache.go:147-151, 153-167, 178-184, 266-268),
 each with the exact condition under which it does not when nothing overlaps it, and the repository class itself.
 */
module RepositoryCacheStaleness {
  import opened Common
  import opened RepositoryCache

  // After a write that invalidates nothing it should have, coherence survives iff no cached answer changed.
  ghost predicate StillRight(s: State, s': State, q: Query) {
    Named(q) && KeyOf(q) in s'.cache ==> Answer(s'.repo, q) == Answer(s.repo, q)
  }

  lemma CoherentIffUnchanged(s: State, s': State)
    requires Coherent(s) && forall k <- s'.cache :: k in s.cache && s'.cache[k] == s.cache[k]
    ensures Coherent(s') <==> forall q :: StillRight(s, s', q)
  {
    if Coherent(s') {
      forall q ensures StillRight(s, s', q) {
        if Named(q) && KeyOf(q) in s'.cache {
          assert Answer(s'.repo, q) == Some(s'.cache[KeyOf(q)].value);
        }
      }
    }
    if forall q :: StillRight(s, s', q) {
      forall q | Named(q) && KeyOf(q) in s'.cache ensures Answer(s'.repo, q) == Some(s'.cache[KeyOf(q)].value) {
        assert StillRight(s, s', q);
      }
    }
  }

  /** Removing an identity is invisible to the cache exactly when that identity is not cached. */
  lemma RemoveIdentityFreshIff(s: State, writer: nat, id: int)
    requires Coherent(s) && writer !in s.writes && Written(s.repo, RemoveIdentity(id)).Some?
    requires forall k <- s.repo.identities :: s.repo.identities[k].userId != ""
    ensures Coherent(TwoSteps(s, RemoveIdentity(id), writer))
      <==> forall k <- s.repo.identities ::
             s.repo.identities[k].id == id && ColonFree(k.0) ==> KeyOf(Identity(k.0, k.1)) !in s.cache
  {
    ThroughIsTwoSteps(s, RemoveIdentity(id), writer);
  }

  /** No channel of the user that relies on the wildcard is cached with another answer. */
  ghost predicate NoneOtherwise(s: State, u: string, b: bool) {
    forall c :: c != WILDCARD && (u, c) !in s.repo.allowed && KeyOf(Allowed(u, c)) in s.cache
      ==> s.cache[KeyOf(Allowed(u, c))].value == BoolV(b)
  }

  /** Setting a wildcard entry, exactly when no channel relying on it is cached with the other answer. */
  lemma SetWildcardFreshIff(s: State, writer: nat, u: string, b: bool)
    requires Coherent(s) && writer !in s.writes && u in s.repo.users && ColonFree(u)
    ensures Coherent(TwoSteps(s, SetAllowed(u, WILDCARD, b), writer)) <==> NoneOtherwise(s, u, b)
  {
    ThroughIsTwoSteps(s, SetAllowed(u, WILDCARD, b), writer);
    var s' := Through(s, SetAllowed(u, WILDCARD, b));
    assert s'.cache == s.cache - {KeyOf(Allowed(u, WILDCARD))};
    WildcardWrite(s, s', u, b);
  }

  /** Removing one, exactly when none is cached as allowed. */
  lemma RemoveWildcardFreshIff(s: State, writer: nat, u: string)
    requires Coherent(s) && writer !in s.writes && (u, WILDCARD) in s.repo.allowed && ColonFree(u)
    ensures Coherent(TwoSteps(s, RemoveAllowed(u, WILDCARD), writer)) <==> NoneOtherwise(s, u, false)
  {
    ThroughIsTwoSteps(s, RemoveAllowed(u, WILDCARD), writer);
    var s' := Through(s, RemoveAllowed(u, WILDCARD));
    assert s'.cache == s.cache - {KeyOf(Allowed(u, WILDCARD))};
    WildcardWrite(s, s', u, false);
  }

  lemma WildcardWrite(s: State, s': State, u: string, b: bool)
    requires Coherent(s) && ColonFree(u)
    requires s'.cache == s.cache - {KeyOf(Allowed(u, WILDCARD))}
    requires s'.repo == s.repo.(allowed := s'.repo.allowed)
    requires forall k :: k != (u, WILDCARD) ==>
      && (k in s'.repo.allowed <==> k in s.repo.allowed)
      && (k in s.repo.allowed ==> s'.repo.allowed[k] == s.repo.allowed[k])
    requires IsAllowedIn(s'.repo, u, WILDCARD) == b
    ensures Coherent(s') <==> NoneOtherwise(s, u, b)
  {
    CoherentIffUnchanged(s, s');
    if forall q :: StillRight(s, s', q) { WildcardSeen(s, s', u, b); }
    if NoneOtherwise(s, u, b) {
      forall q ensures StillRight(s, s', q) {
        if q.Allowed? && q.userId == u && q.channelType != WILDCARD && (u, q.channelType) !in s.repo.allowed {
          assert IsAllowedIn(s'.repo, u, q.channelType) == b;
        }
      }
    }
  }

  lemma WildcardSeen(s: State, s': State, u: string, b: bool)
    requires Coherent(s) && ColonFree(u) && s'.cache == s.cache - {KeyOf(Allowed(u, WILDCARD))}
    requires IsAllowedIn(s'.repo, u, WILDCARD) == b && forall q :: StillRight(s, s', q)
    requires forall k :: k != (u, WILDCARD) ==> (k in s'.repo.allowed <==> k in s.repo.allowed)
    ensures NoneOtherwise(s, u, b)
  {
    forall c | c != WILDCARD && (u, c) !in s.repo.allowed && KeyOf(Allowed(u, c)) in s.cache
      ensures s.cache[KeyOf(Allowed(u, c))].value == BoolV(b)
    {
      if KeyOf(Allowed(u, c)) == KeyOf(Allowed(u, WILDCARD)) {
        KeysAreInjective(Allowed(u, c), Allowed(u, WILDCARD));
      }
      assert StillRight(s, s', Allowed(u, c));
      assert IsAllowedIn(s'.repo, u, c) == b;
    }
  }

  /** Renaming an agent's broker user, exactly when the agent is not cached under another name. */
  lemma SetRMQUsernameFreshIff(s: State, writer: nat, id: string, name: string)
    requires Coherent(s) && writer !in s.writes
    ensures Coherent(TwoSteps(s, SetAgentRMQUsername(id, name), writer))
      <==> forall h <- s.repo.agents ::
             s.repo.agents[h].id == id && KeyOf(AgentToken(h)) in s.cache ==> s.repo.agents[h].rmqUsername == name
  {
    ThroughIsTwoSteps(s, SetAgentRMQUsername(id, name), writer);
  }

  /** What a user's deletion changes: lookups of theirs with something to lose. */
  ghost predicate DependsOn(r: Repo, u: string, q: Query) {
    match q
    case Identity(c, i) => (c, i) in r.identities && r.identities[(c, i)].userId == u
    case Allowed(v, c) => v == u && IsAllowedIn(r, u, c)
    case UserEnabled(_) => false    // invalidated
    case Policy(v, t) => v == u && (u, t) in r.policies
    case AgentToken(h) => h in r.agents && r.agents[h].userId == u
  }

  /** Deleting a user, exactly when nothing the deletion cascades to is cached. */
  lemma DeleteUserFreshIff(s: State, writer: nat, u: string)
    requires Coherent(s) && writer !in s.writes && u in s.repo.users && u != ""
    ensures Coherent(TwoSteps(s, DeleteUser(u), writer))
      <==> forall q :: Named(q) && DependsOn(s.repo, u, q) ==> KeyOf(q) !in s.cache
  {
    ThroughIsTwoSteps(s, DeleteUser(u), writer);
    var s' := Through(s, DeleteUser(u));
    CoherentIffUnchanged(s, s');
    if forall q :: StillRight(s, s', q) {
      forall q | Named(q) && DependsOn(s.repo, u, q) ensures KeyOf(q) !in s.cache {
        assert StillRight(s, s', q);
        DeletedUserAnswers(s, u, q);
      }
    }
    if forall q :: Named(q) && DependsOn(s.repo, u, q) ==> KeyOf(q) !in s.cache {
      forall q ensures StillRight(s, s', q) { DeletedUserAnswers(s, u, q); }
    }
  }

  // An answer that is still cached changes exactly when it depends on the user.
  lemma DeletedUserAnswers(s: State, u: string, q: Query)
    requires u in s.repo.users && u != ""
    ensures var s' := Through(s, DeleteUser(u));
            && (DependsOn(s.repo, u, q) ==> (KeyOf(q) in s'.cache <==> KeyOf(q) in s.cache))
            && (KeyOf(q) in s'.cache ==>
                  KeyOf(q) in s.cache && (Answer(s'.repo, q) == Answer(s.repo, q) <==> !DependsOn(s.repo, u, q)))
  {
    if KeyOf(q) == KeyOf(UserEnabled(u)) { KeyFixesClass(q, UserEnabled(u)); }
  }

  function WildcardRun(): seq<Label> {
    [Commit(0, CreateUser("u"), 0), Invalidate(0, 0), Miss(0, Allowed("u", "slack"), 0), Fill(0, 0),
     Commit(0, SetAllowed("u", "*", true), 0), Invalidate(0, 0)]
  }

  function WildcardState(n: nat): State
    requires n <= 6
  {
    Exec(WildcardRun()[..n])
  }

  lemma WildcardRunUpTo(n: nat)
    requires 0 < n <= 6
    ensures WildcardState(n) == Step(WildcardState(n - 1), WildcardRun()[n - 1])
  {
    assert DropLast(WildcardRun()[..n]) == WildcardRun()[..n - 1];
  }

  // One step on a state written out.
  lemma WildcardStep(n: nat, s: State, s': State)
    requires 0 < n <= 6 && WildcardState(n - 1) == s
    requires Enabled(s, WildcardRun()[n - 1]) && s' == Apply(s, WildcardRun()[n - 1])
    ensures WildcardState(n) == s'
  {
    WildcardRunUpTo(n);
  }

  const USER_ADDED: Repo := Repo(map["u" := true], map[], map[], map[], map[])
  const GRANTED: Repo := USER_ADDED.(allowed := map[("u", "*") := true])
  const SLACK: Query := Allowed("u", "slack")
  const DENIED: Cache := map[KeyOf(SLACK) := Cached(BoolV(false), 60 * 1000)]

  lemma WildcardUser()
    ensures WildcardState(2) == Init().(repo := USER_ADDED)
  {
    var s := Init();
    assert WildcardRun()[..0] == [];
    var s1 := s.(repo := USER_ADDED, writes := map[0 := CreateUser("u")]);
    WildcardStep(1, s, s1);
    assert s1.writes - {0} == map[] && Invalidated(s1.cache, CreateUser("u")) == map[];
    WildcardStep(2, s1, s.(repo := USER_ADDED));
  }

  lemma WildcardRead()
    ensures WildcardState(4) == Init().(repo := USER_ADDED, cache := DENIED, seen := [Snapshot(0, USER_ADDED)],
                                        fills := [FillRecord(SLACK, BoolV(false), 0, 0)])
  {
    WildcardUser();
    var s := Init().(repo := USER_ADDED);
    var s1 := s.(readers := map[0 := Reader(SLACK, BoolV(false), 0)], seen := [Snapshot(0, USER_ADDED)]);
    WildcardStep(3, s, s1);
    assert s1.readers - {0} == map[];
    WildcardStep(4, s1, s1.(readers := map[], cache := DENIED, fills := [FillRecord(SLACK, BoolV(false), 0, 0)]));
  }

  lemma GrantClearsNothing()
    ensures Invalidated(DENIED, SetAllowed("u", "*", true)) == DENIED
  {
    assert KeyOf(SLACK) != KeyOf(Allowed("u", "*")) by {
      if KeyOf(SLACK) == KeyOf(Allowed("u", "*")) { KeysAreInjective(SLACK, Allowed("u", "*")); }
    }
  }

  lemma WildcardCommit()
    ensures WildcardState(5) == WildcardState(4).(repo := GRANTED, writes := map[0 := SetAllowed("u", "*", true)])
  {
    WildcardRead();
    var s, w := WildcardState(4), SetAllowed("u", "*", true);
    assert WildcardRun()[4] == Commit(0, w, 0);
    GrantWritten();
    WildcardStep(5, s, s.(repo := GRANTED, writes := map[0 := w]));
  }

  lemma GrantWritten()
    ensures Written(USER_ADDED, SetAllowed("u", "*", true)) == Some(GRANTED)
  {
    assert USER_ADDED.allowed[("u", "*") := true] == map[("u", "*") := true];
  }

  lemma WildcardGrant()
    ensures WildcardState(6) == WildcardState(4).(repo := GRANTED)
  {
    WildcardRead();
    WildcardCommit();
    var s := WildcardState(5);
    assert WildcardRun()[5] == Invalidate(0, 0);
    assert s.writes - {0} == map[];
    GrantClearsNothing();
    WildcardStep(6, s, WildcardState(4).(repo := GRANTED));
  }

  /**
   A wildcard grant is not seen by a user whose channel was looked up before it: the write busts only the wildcard's
   own key. No two calls of this run overlap.
   */
  lemma WildcardGrantNotSeen()
    ensures var s := Exec(WildcardRun());
            && s.readers == map[] && s.writes == map[]
            && Get(s.cache, KeyOf(Allowed("u", "slack")), 60 * 1000) == Some(BoolV(false))
            && Answer(s.repo, Allowed("u", "slack")) == Some(BoolV(true))
  {
    WildcardRead();
    WildcardGrant();
    assert WildcardRun()[..6] == WildcardRun();
  }

  ghost predicate Reached(s: State) { exists run :: Exec(run) == s }

  lemma ReachedStep(s: State, l: Label) returns (s': State)
    requires Reached(s) && Enabled(s, l)
    ensures s' == Apply(s, l) && Reached(s')
  {
    var run :| Exec(run) == s;
    assert DropLast(run + [l]) == run;
    s' := Exec(run + [l]);
  }

  // The user is looked up and, before the answer is stored, disabled.
  lemma DisabledDuringRead() returns (s: State)
    ensures Reached(s) && s.repo == USER_ADDED.(users := map["u" := false]) && s.cache == map[] && s.clock == 0
    ensures s.readers == map[0 := Reader(UserEnabled("u"), BoolV(true), 0)] && s.writes == map[]
  {
    WildcardUser();
    s := WildcardState(2);
    s := ReachedStep(s, Miss(0, UserEnabled("u"), 0));
    s := ReachedStep(s, Commit(0, UpdateUser("u", Some(false)), 0));
    s := ReachedStep(s, Invalidate(0, 0));
  }

  /** A disabled user is served as enabled for a minute, with no call under way: the store came after the deletion. */
  lemma DisabledUserServed() returns (s: State)
    ensures Reached(s) && s.readers == map[] && s.writes == map[]
    ensures Get(s.cache, KeyOf(UserEnabled("u")), 60 * 1000) == Some(BoolV(true))
    ensures Answer(s.repo, UserEnabled("u")) == Some(BoolV(false))
  {
    s := DisabledDuringRead();
    s := ReachedStep(s, Fill(0, 0));
  }

  // ---------------------------------------------------------------- the class

  predicate HasType(q: Query, v: Value) {
    match q
    case Identity(_, _) => v.UserV?
    case Allowed(_, _) => v.BoolV?
    case UserEnabled(_) => v.BoolV?
    case Policy(_, _) => v.PolicyV?
    case AgentToken(_) => v.AgentV?
  }

  // A step of the goroutine with this number.
  predicate StepOf(l: Label, id: nat) {
    match l
    case Miss(i, _, _) => i == id
    case Fill(i, _) => i == id
    case Commit(i, _, _) => i == id
    case Invalidate(i, _) => i == id
    case _ => false
  }

  // What a goroutine may rely on while others run.
  ghost predicate Rely(id: nat, s: State, s': State) {
    && s.clock <= s'.clock
    && (id in s'.readers <==> id in s.readers) && (id in s.readers ==> s'.readers[id] == s.readers[id])
    && (id in s'.writes <==> id in s.writes) && (id in s.writes ==> s'.writes[id] == s.writes[id])
  }

  lemma OthersKeepRely(s: State, l: Label, id: nat)
    requires Enabled(s, l) && !StepOf(l, id)
    ensures Rely(id, s, Apply(s, l))
  {
  }

  /** At some moment of the call the inner repository's answer was this one. */
  ghost predicate AskedWithin(before: seq<Label>, after: seq<Label>, q: Query, v: Option<Value>) {
    exists k: nat :: |before| <= k <= |after| && Answer(Exec(after[..k]).repo, q) == v
  }

  /** What a lookup returns: the live entry if there is one, else an answer given during the call, which is stored. */
  ghost predicate Returned(before: seq<Label>, after: seq<Label>, q: Query, now: int, v: Option<Value>) {
    var hit := Get(Exec(before).cache, KeyOf(q), now);
    if hit.Some? then after == before + [Hit(q, now)] && v == hit
    else
      && before <= after && AskedWithin(before, after, q, v)
      && (v.Some? ==> after != [] && Last(after).Fill?
                      && Get(Exec(after).cache, KeyOf(q), Last(after).now) == v)
  }

  class CachedRepository {
    var inner: Repo
    var cache: Cache
    var clock: int                     // latest time read
    var readers: map<nat, Reader>
    var writes: map<nat, Write>
    ghost var run: seq<Label>

    ghost predicate Valid()
      reads this
    {
      var s := Exec(run);
      inner == s.repo && cache == s.cache && clock == s.clock && readers == s.readers && writes == s.writes
    }

    // The state without its history, which decides what can happen next.
    function Now(): State
      reads this
    {
      State(inner, cache, clock, readers, writes, [], [])
    }

    constructor ()
      ensures Valid() && run == []
    {
      inner, cache, clock, readers, writes, run := Init().repo, map[], 0, map[], map[], [];
    }

    // The cached value has the type of its lookup, so the assertion that reads it back cannot fail.
    lemma HitHasType(q: Query, now: int)
      requires Valid() && Get(cache, KeyOf(q), now).Some?
      ensures HasType(q, Get(cache, KeyOf(q), now).value)
    {
      Reachable(run);
      var i: nat :| StoredBy(Exec(run), KeyOf(q), i);
      assert FillRight(Exec(run), Exec(run).fills[i]);
      KeyFixesClass(q, Exec(run).fills[i].q);
    }

    // ---------------------------------------------------------------- single steps

    /** The cache's Get. */
    method GetCached(q: Query, now: int) returns (v: Option<Value>)
      requires Valid() && Named(q) && clock <= now
      modifies this`clock, this`run
      ensures Valid() && v == Get(cache, KeyOf(q), now)
      ensures run == if v.Some? then old(run) + [Hit(q, now)] else old(run)
    {
      v := Get(cache, KeyOf(q), now);
      if v.Some? {
        assert DropLast(run + [Hit(q, now)]) == run;
        clock, run := now, run + [Hit(q, now)];
      }
    }

    /** The inner repository's answer. */
    method Ask(id: nat, q: Query, now: int) returns (v: Option<Value>)
      requires Valid() && Named(q) && clock <= now && id !in readers
      modifies this`clock, this`readers, this`run
      ensures Valid() && run == old(run) + [Miss(id, q, now)] && v == Answer(inner, q)
      ensures readers == if v.Some? then old(readers)[id := Reader(q, v.value, now)] else old(readers)
    {
      assert DropLast(run + [Miss(id, q, now)]) == run;
      v := Answer(inner, q);
      if v.Some? { readers := readers[id := Reader(q, v.value, now)]; }
      clock, run := now, run + [Miss(id, q, now)];
    }

    /** The cache's Set. */
    method Store(id: nat, now: int)
      requires Valid() && clock <= now && id in readers
      modifies this`clock, this`readers, this`cache, this`run
      ensures Valid() && run == old(run) + [Fill(id, now)]
      ensures Get(cache, KeyOf(old(readers)[id].q), now) == Some(old(readers)[id].value)
    {
      assert DropLast(run + [Fill(id, now)]) == run;
      var r := readers[id];
      cache := cache[KeyOf(r.q) := Cached(r.value, now + Ttl(r.q))];
      clock, readers, run := now, readers - {id}, run + [Fill(id, now)];
    }

    /** The inner repository's write. */
    method CommitWrite(id: nat, w: RepositoryCache.Write, now: int) returns (ok: bool)
      requires Valid() && clock <= now && id !in writes
      modifies this`clock, this`inner, this`writes, this`run
      ensures Valid() && run == old(run) + [Commit(id, w, now)]
      ensures ok <==> Written(old(inner), w).Some?
      ensures ok ==> inner == Written(old(inner), w).value && writes == old(writes)[id := w]
      ensures !ok ==> inner == old(inner) && writes == old(writes)
    {
      assert DropLast(run + [Commit(id, w, now)]) == run;
      var r := Written(inner, w);
      clock, run, ok := now, run + [Commit(id, w, now)], r.Some?;
      if ok { inner, writes := r.value, writes[id := w]; }
    }

    /** The deletion of the keys the write is known to touch. */
    method DeleteKeys(id: nat, now: int)
      requires Valid() && clock <= now && id in writes
      modifies this`clock, this`cache, this`writes, this`run
      ensures Valid() && run == old(run) + [Invalidate(id, now)]
      ensures forall k <- cache :: !Clears(old(writes)[id], k)
    {
      assert DropLast(run + [Invalidate(id, now)]) == run;
      cache := Invalidated(cache, writes[id]);
      clock, writes, run := now, writes - {id}, run + [Invalidate(id, now)];
    }

    method DeleteExpired(now: int)
      requires Valid() && clock <= now
      modifies this`clock, this`cache, this`run
      ensures Valid() && run == old(run) + [Janitor(now)]
    {
      assert DropLast(run + [Janitor(now)]) == run;
      clock, cache, run := now, Unexpired(cache, now), run + [Janitor(now)];
    }

    // ---------------------------------------------------------------- other goroutines

    /** Any step, if it can be taken. */
    method TryStep(l: Label) returns (done: bool)
      requires Valid()
      modifies this
      ensures Valid() && run == if done then old(run) + [l] else old(run)
      ensures done ==> old(Enabled(Exec(run), l))
    {
      done := Enabled(Now(), l);
      if !done { return; }
      match l {
        case Hit(q, now) => var _ := GetCached(q, now);
        case Miss(id, q, now) => var _ := Ask(id, q, now);
        case Fill(id, now) => Store(id, now);
        case Commit(id, w, now) => var _ := CommitWrite(id, w, now);
        case Invalidate(id, now) => DeleteKeys(id, now);
        case Janitor(now) => DeleteExpired(now);
      }
    }

    /** Any number of steps of goroutines other than this one. */
    method Interfere(id: nat)
      requires Valid()
      modifies this
      ensures Valid() && old(run) <= run && Rely(id, old(Exec(run)), Exec(run))
    {
      var steps: nat := *;
      while steps > 0
        invariant Valid() && old(run) <= run && Rely(id, old(Exec(run)), Exec(run))
      {
        var l: Label := *;
        if !StepOf(l, id) {
          ghost var before := run;
          var done := TryStep(l);
          if done {
            OthersKeepRely(Exec(before), l, id);
            assert DropLast(run) == before;
          }
        }
        steps := steps - 1;
      }
    }

    // ---------------------------------------------------------------- reads

    /** One lookup through the cache, by the goroutine `id`, with others at work in between. */
    method Lookup(id: nat, q: Query, now: int) returns (v: Option<Value>)
      requires Valid() && Named(q) && clock <= now && id !in readers
      modifies this
      ensures Valid() && Returned(old(run), run, q, now, v)
      ensures v.Some? ==> HasType(q, v.value)
      ensures v.None? ==> q.AgentToken?
    {
      v := GetCached(q, now);
      if v.Some? {
        HitHasType(q, now);
        return;
      }
      Interfere(id);
      v := Query(id, q);
    }

    /** The part behind the miss: ask, then store the answer unless it is an error. */
    method Query(id: nat, q: Query) returns (v: Option<Value>)
      requires Valid() && Named(q) && id !in readers
      modifies this
      ensures Valid() && old(run) <= run && AskedWithin(old(run), run, q, v)
      ensures v.Some? ==> HasType(q, v.value) && run != [] && Last(run).Fill?
                          && Get(cache, KeyOf(q), Last(run).now) == v
      ensures v.None? ==> q.AgentToken?
    {
      var start :| clock <= start;
      v := Ask(id, q, start);
      ghost var asked := run;
      if v.Some? {
        Interfere(id);
        var end :| clock <= end;
        Store(id, end);
      }
      assert run[..|asked|] == asked;
    }

    method ResolveIdentity(id: nat, channelType: string, identity: string, now: int) returns (userId: string)
      requires Valid() && clock <= now && id !in readers && ColonFree(channelType)
      modifies this
      ensures Valid() && Returned(old(run), run, Identity(channelType, identity), now, Some(UserV(userId)))
    {
      var v := Lookup(id, Identity(channelType, identity), now);
      userId := v.value.user;
    }

    method IsAllowed(id: nat, userId: string, channelType: string, now: int) returns (allowed: bool)
      requires Valid() && clock <= now && id !in readers && ColonFree(userId)
      modifies this
      ensures Valid() && Returned(old(run), run, Allowed(userId, channelType), now, Some(BoolV(allowed)))
    {
      var v := Lookup(id, Allowed(userId, channelType), now);
      allowed := v.value.b;
    }

    method IsUserEnabled(id: nat, userId: string, now: int) returns (enabled: bool)
      requires Valid() && clock <= now && id !in readers
      modifies this
      ensures Valid() && Returned(old(run), run, UserEnabled(userId), now, Some(BoolV(enabled)))
    {
      var v := Lookup(id, UserEnabled(userId), now);
      enabled := v.value.b;
    }

    method GetUserPolicy(id: nat, userId: string, policyType: string, now: int) returns (policy: Option<string>)
      requires Valid() && clock <= now && id !in readers && ColonFree(userId)
      modifies this
      ensures Valid() && Returned(old(run), run, Policy(userId, policyType), now, Some(PolicyV(policy)))
    {
      var v := Lookup(id, Policy(userId, policyType), now);
      policy := v.value.policy;
    }

    /** None is the inner repository's "not found", which is not cached. */
    method GetAgentByTokenHash(id: nat, tokenHash: string, now: int) returns (agent: Option<Agent>)
      requires Valid() && clock <= now && id !in readers
      modifies this
      ensures Valid()
      ensures Returned(old(run), run, AgentToken(tokenHash), now,
                       if agent.Some? then Some(AgentV(agent.value)) else None)
    {
      var v := Lookup(id, AgentToken(tokenHash), now);
      return if v.Some? then Some(v.value.agent) else None;
    }

    // ---------------------------------------------------------------- writes

    /** Delegate to the inner repository, and on success drop what the write is known to touch. */
    method Write(id: nat, w: RepositoryCache.Write, now: int) returns (ok: bool)
      requires Valid() && clock <= now && id !in writes
      modifies this
      ensures Valid() && old(run) + [Commit(id, w, now)] <= run
      ensures ok <==> Written(old(inner), w).Some?
      ensures ok ==> (forall k <- cache :: !Clears(w, k)) && Last(run).Invalidate?
      ensures !ok ==> run == old(run) + [Commit(id, w, now)] && inner == old(inner) && cache == old(cache)
    {
      ok := CommitWrite(id, w, now);
      if !ok { return; }
      Interfere(id);
      var end :| clock <= end;
      DeleteKeys(id, end);
    }
  }
}
