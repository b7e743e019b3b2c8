/**
 The deduplicator of internal/gateway/dedup.go, against a specification that only knows which calls were accepted
 and when. Times are integers read from one clock that does not go back.
 */
module Dedup {
  import opened Common

  datatype Strategy = ByMessageId | ByPrompt | NoDedup

  function StrategyName(s: Strategy): string {
    match s
    case ByMessageId => "message-id"
    case ByPrompt => "prompt"
    case NoDedup => "none"
  }

  function BuildKey(userId: string, s: Strategy, rawKey: string): string {
    userId + ":" + StrategyName(s) + ":" + rawKey
  }

  // A call that registered its key: the time it looked, and the time it stored.
  datatype Accepted = Accepted(key: string, checkedAt: int, storedAt: int)

  /** Some accepted call with this key stored it less than one window before `now`. */
  predicate SeenWithin(history: seq<Accepted>, window: int, key: string, now: int) {
    exists i :: 0 <= i < |history| && history[i].key == key && now < history[i].storedAt + window
  }

  /** Accepted calls with one key are at least a window apart. */
  ghost predicate Spaced(history: seq<Accepted>, window: int) {
    forall i, j :: 0 <= i < j < |history| && history[i].key == history[j].key
      ==> history[i].storedAt + window <= history[j].checkedAt
  }

  // What the map holds of the history: nothing that can still matter is missing, and nothing in it is invented.
  ghost predicate Agrees(entries: map<string, int>, history: seq<Accepted>, window: int, clock: int) {
    && (forall i :: 0 <= i < |history| ==> Remembered(entries, history[i], window, clock))
    && (forall k <- entries :: exists i :: 0 <= i < |history| && Stores(history[i], k, entries[k], window))
    && (forall i :: 0 <= i < |history| ==> history[i].storedAt <= clock)
    && Spaced(history, window)
  }

  ghost predicate Remembered(entries: map<string, int>, a: Accepted, window: int, clock: int) {
    (a.key in entries && a.storedAt + window <= entries[a.key]) || a.storedAt + window < clock
  }

  ghost predicate Stores(a: Accepted, k: string, expiry: int, window: int) {
    a.key == k && a.storedAt + window == expiry
  }

  lemma LookupAnswersHistory(entries: map<string, int>, history: seq<Accepted>, window: int, clock: int,
                             key: string, now: int)
    requires Agrees(entries, history, window, clock) && clock <= now
    ensures key in entries && now < entries[key] <==> SeenWithin(history, window, key, now)
  {
  }

  lemma DropExpired(entries: map<string, int>, history: seq<Accepted>, window: int, clock: int, k: string)
    requires Agrees(entries, history, window, clock) && k in entries && entries[k] < clock
    ensures Agrees(entries - {k}, history, window, clock)
  {
  }

  lemma Advance(entries: map<string, int>, history: seq<Accepted>, window: int, clock: int, later: int)
    requires Agrees(entries, history, window, clock) && clock <= later
    ensures Agrees(entries, history, window, later)
  {
  }

  lemma AcceptKeepsAgrees(entries: map<string, int>, history: seq<Accepted>, window: int, clock: int, a: Accepted)
    requires Agrees(entries, history, window, clock) && clock <= a.checkedAt <= a.storedAt
    requires !SeenWithin(history, window, a.key, a.checkedAt)
    ensures Agrees(entries[a.key := a.storedAt + window], history + [a], window, a.storedAt)
  {
    var after, all := entries[a.key := a.storedAt + window], history + [a];
    forall i | 0 <= i < |all| ensures Remembered(after, all[i], window, a.storedAt) {
      if i < |history| { assert Remembered(entries, history[i], window, clock); }
    }
    forall k | k in after ensures exists i :: 0 <= i < |all| && Stores(all[i], k, after[k], window) {
      if k == a.key {
        assert Stores(all[|history|], k, after[k], window);
      } else {
        var i :| 0 <= i < |history| && Stores(history[i], k, entries[k], window);
        assert Stores(all[i], k, after[k], window);
      }
    }
  }

  class Deduplicator {
    const window: int
    var entries: map<string, int>         // key to expiry
    ghost var history: seq<Accepted>
    ghost var clock: int                  // latest time seen

    ghost predicate Valid()
      reads this
    {
      Agrees(entries, history, window, clock)
    }

    constructor (window: int, now: int)
      ensures Valid() && history == [] && this.window == window && clock == now
    {
      this.window := window;
      entries := map[];
      history := [];
      clock := now;
    }

    /**
     True iff the key was accepted less than one window ago; otherwise the call is accepted and joins the history.
     The clock is read twice, `now` before the test and `later` before the store. What has been evicted plays no part.
     */
    method IsDuplicate(userId: string, s: Strategy, rawKey: string, now: int, later: int) returns (duplicate: bool)
      requires Valid() && clock <= now <= later
      modifies this
      ensures Valid() && clock == later && Spaced(history, window)
      ensures s.NoDedup? || rawKey == "" ==> !duplicate && history == old(history) && entries == old(entries)
      ensures !s.NoDedup? && rawKey != "" ==>
                (duplicate <==> SeenWithin(old(history), window, BuildKey(userId, s, rawKey), now))
      ensures duplicate ==> history == old(history) && entries == old(entries)
      ensures !duplicate && !s.NoDedup? && rawKey != "" ==>
                history == old(history) + [Accepted(BuildKey(userId, s, rawKey), now, later)]
    {
      if s.NoDedup? || rawKey == "" {
        Tick(later);
        return false;
      }
      var key := BuildKey(userId, s, rawKey);
      LookupAnswersHistory(entries, history, window, clock, key, now);
      AcceptKeepsAgreesIfUnseen(entries, history, window, clock, Accepted(key, now, later));
      Tick(later);
      if key in entries {
        if now < entries[key] { return true; }
        entries := entries - {key};
      }
      entries := entries[key := later + window];
      assert entries == old(entries)[key := later + window];
      history := history + [Accepted(key, now, later)];
      return false;
    }

    ghost method Tick(now: int)
      requires Valid() && clock <= now
      modifies this`clock
      ensures Valid() && clock == now
    {
      Advance(entries, history, window, clock, now);
      clock := now;
    }

    /**
     Background cleanup: the history, and so every later answer, is as if it had not run. Its time is read before the
     lock is taken, so it may be earlier than the latest one seen.
     */
    method EvictExpired(now: int)
      requires Valid()
      modifies this
      ensures Valid() && history == old(history) && clock == if now > old(clock) then now else old(clock)
      ensures entries == Unexpired(old(entries), {}, now)
    {
      if now > clock { Tick(now); }
      var todo := entries.Keys;
      ghost var before := entries;
      UnexpiredAll(before, now);
      while todo != {}
        invariant Valid() && history == old(history) && clock == if now > old(clock) then now else old(clock)
        invariant todo <= before.Keys && entries == Unexpired(before, todo, now)
        decreases todo
      {
        var k :| k in todo;
        UnexpiredStep(before, todo, now, k);
        todo := todo - {k};
        EvictIfExpired(k, now);
      }
    }

    /** One turn of the loop above. */
    method EvictIfExpired(k: string, now: int)
      requires Valid() && k in entries && now <= clock
      modifies this`entries
      ensures Valid()
      ensures entries == if now > old(entries)[k] then old(entries) - {k} else old(entries)
    {
      if now > entries[k] {
        DropExpired(entries, history, window, clock, k);
        entries := entries - {k};
      }
    }
  }

  // The entries still to be looked at, and those looked at and kept.
  ghost function Unexpired(m: map<string, int>, todo: set<string>, now: int): map<string, int> {
    map k | k in m && (k in todo || now <= m[k]) :: m[k]
  }

  lemma UnexpiredAll(m: map<string, int>, now: int)
    ensures Unexpired(m, m.Keys, now) == m
  {
  }

  lemma UnexpiredStep(m: map<string, int>, todo: set<string>, now: int, k: string)
    requires k in todo && k in m
    ensures Unexpired(m, todo - {k}, now)
            == if now > m[k] then Unexpired(m, todo, now) - {k} else Unexpired(m, todo, now)
  {
  }

  lemma AcceptKeepsAgreesIfUnseen(entries: map<string, int>, history: seq<Accepted>, window: int, clock: int,
                                  a: Accepted)
    requires Agrees(entries, history, window, clock) && clock <= a.checkedAt <= a.storedAt
    ensures !SeenWithin(history, window, a.key, a.checkedAt)
            ==> Agrees(entries[a.key := a.storedAt + window], history + [a], window, a.storedAt)
  {
    if !SeenWithin(history, window, a.key, a.checkedAt) {
      AcceptKeepsAgrees(entries, history, window, clock, a);
    }
  }

  // ---------------------------------------------------------------- keys

  /** Users without a colon in their id never share a key, whatever the raw keys are. */
  lemma BuildKeyInjective(u: string, s: Strategy, k: string, u': string, s': Strategy, k': string)
    requires ColonFree(u) && ColonFree(u') && BuildKey(u, s, k) == BuildKey(u', s', k')
    ensures u == u' && s == s' && k == k'
  {
    KeyFields(u, s, k);
    KeyFields(u', s', k');
    FirstFieldUnique(u, StrategyName(s) + ":" + k, u', StrategyName(s') + ":" + k');
    NameIsColonFree(s);
    NameIsColonFree(s');
    FirstFieldUnique(StrategyName(s), k, StrategyName(s'), k');
    assert StrategyName(ByMessageId)[0] == 'm' && StrategyName(ByPrompt)[0] == 'p' && StrategyName(NoDedup)[0] == 'n';
  }

  lemma KeyFields(u: string, s: Strategy, k: string)
    ensures BuildKey(u, s, k) == u + ":" + (StrategyName(s) + ":" + k)
  {
  }

  /** The key, spelled out. */
  lemma KeySpelled(u: string, k: string)
    ensures BuildKey(u, ByMessageId, k) == u + ":message-id:" + k && BuildKey(u, ByPrompt, k) == u + ":prompt:" + k
  {
  }

  lemma NameIsColonFree(s: Strategy)
    ensures ColonFree(StrategyName(s))
  {
  }

  // Some tracked messages of the two users have one key.
  ghost predicate CanShareKey(u: string, u': string) {
    exists s: Strategy, k, s': Strategy, k' | !s.NoDedup? && k != "" && !s'.NoDedup? && k' != "" ::
      BuildKey(u, s, k) == BuildKey(u', s', k')
  }

  /** One user id is the other with the name of a strategy behind it, and then nothing or a colon and more. */
  ghost predicate Extends(u: string, u': string) {
    exists s: Strategy | !s.NoDedup? :: ExtendsBy(u, u', StrategyName(s))
  }

  predicate ExtendsBy(u: string, u': string, name: string) {
    u' == u + ":" + name || u + ":" + name + ":" <= u'
  }

  lemma NoColonNoShift(a: string, b: string, c: string, d: string)
    requires ColonFree(c)
    ensures !ShiftsRight(a, b, c, d)
  {
    forall r: string ensures c != a + ":" + r { assert (a + ":" + r)[|a|] == ':'; }
  }

  // Whatever stands behind the stem can be part of the user id or of the key.
  lemma StemShares(u: string, s: Strategy, u': string, rest: string)
    requires u' == u + ":" + StrategyName(s) + ":" + rest
    ensures BuildKey(u, s, rest + ":prompt:x") == BuildKey(u', ByPrompt, "x")
  {
    var stem := u + ":" + StrategyName(s) + ":";
    assert stem + rest + ":prompt:x" == stem + (rest + ":prompt:x");
    assert u' + ":" + "prompt" + ":" + "x" == u' + ":prompt:x";
  }

  lemma ExtendsShares(u: string, u': string)
    requires Extends(u, u')
    ensures CanShareKey(u, u')
  {
    var s: Strategy :| !s.NoDedup? && ExtendsBy(u, u', StrategyName(s));
    var stem := u + ":" + StrategyName(s);
    if u' == stem {
      assert BuildKey(u, s, "prompt:x") == stem + ":" + "prompt:x";
      assert BuildKey(u', ByPrompt, "x") == stem + ":" + "prompt" + ":" + "x";
    } else {
      var rest := u'[|stem + ":"|..];
      assert u' == stem + ":" + rest;
      StemShares(u, s, u', rest);
    }
  }

  // The user id with the later colon carries the strategy of the other.
  lemma ShiftExtends(u: string, s: Strategy, k: string, u': string, d: string)
    requires !s.NoDedup? && ShiftsRight(u, StrategyName(s) + ":" + k, u', d)
    ensures Extends(u, u')
  {
    var name := StrategyName(s);
    var r: string :| u' == u + ":" + r && name + ":" + k == r + ":" + d;
    NameIsColonFree(s);
    JoinedEqualIff(name, k, r, d);
    NoColonNoShift(r, d, name, k);
    if r != name {
      var x: string :| r == name + ":" + x && k == x + ":" + d;
      assert u' == u + ":" + name + ":" + x;
    }
    assert ExtendsBy(u, u', name);
  }

  /** Two users can share a key exactly when one id extends the other. */
  lemma UsersShareKeyIff(u: string, u': string)
    ensures CanShareKey(u, u') <==> u == u' || Extends(u, u') || Extends(u', u)
  {
    if CanShareKey(u, u') {
      var s: Strategy, k, s': Strategy, k' :| !s.NoDedup? && k != "" && !s'.NoDedup? && k' != ""
                                              && BuildKey(u, s, k) == BuildKey(u', s', k');
      KeyFields(u, s, k);
      KeyFields(u', s', k');
      var rest, rest' := StrategyName(s) + ":" + k, StrategyName(s') + ":" + k';
      JoinedEqualIff(u, rest, u', rest');
      if ShiftsRight(u, rest, u', rest') { ShiftExtends(u, s, k, u', rest'); }
      if ShiftsRight(u', rest', u, rest) { ShiftExtends(u', s', k', u, rest); }
    }
    if u == u' { assert BuildKey(u, ByPrompt, "x") == BuildKey(u', ByPrompt, "x"); }
    if Extends(u, u') { ExtendsShares(u, u'); }
    if Extends(u', u) { ExtendsShares(u', u); }
  }
}
