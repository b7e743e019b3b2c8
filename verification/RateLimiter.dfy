/**
 The sliding-window limiter of internal/ratelimit/limiter.go, against a reference that keeps every accepted event and
 prunes nothing. A caller reads the clock before it takes the limiter's lock, so calls need not come in the order of
 their times; how far one came behind the latest time seen is the skew.
 */
module RateLimiter {
  import opened Common

  /** The events not before the cutoff, in order. */
  function Recent(events: seq<int>, cutoff: int): seq<int> { Filter((e: int) => cutoff <= e, events) }

  /** The events in a closed interval. */
  function Within(events: seq<int>, from: int, to: int): seq<int> { Filter((e: int) => from <= e <= to, events) }

  lemma RecentSnoc(events: seq<int>, e: int, cutoff: int)
    ensures Recent(events + [e], cutoff) == Recent(events, cutoff) + if cutoff <= e then [e] else []
  {
  }

  lemma RecentConcat(s: seq<int>, t: seq<int>, cutoff: int)
    ensures Recent(s + t, cutoff) == Recent(s, cutoff) + Recent(t, cutoff)
  {
    FilterConcat((e: int) => cutoff <= e, s, t);
  }

  lemma RecentCons(events: seq<int>, cutoff: int)
    requires events != []
    ensures Recent(events, cutoff) == (if cutoff <= events[0] then [events[0]] else []) + Recent(events[1..], cutoff)
  {
    assert events == [events[0]] + events[1..];
    RecentSnoc([], events[0], cutoff);
    RecentConcat([events[0]], events[1..], cutoff);
    assert [] + [events[0]] == [events[0]];
  }

  ghost predicate Sorted(events: seq<int>) {
    forall i, j :: 0 <= i <= j < |events| ==> events[i] <= events[j]
  }

  lemma {:induction false} RecentAll(events: seq<int>, cutoff: int)
    requires forall e <- events :: cutoff <= e
    ensures Recent(events, cutoff) == events
  {
    if events != [] {
      assert forall e <- DropLast(events) :: e in events;
      RecentAll(DropLast(events), cutoff);
      assert Last(events) in events;
    }
  }

  lemma {:induction false} RecentNone(events: seq<int>, cutoff: int)
    requires forall e <- events :: e < cutoff
    ensures Recent(events, cutoff) == []
  {
    if events != [] {
      assert forall e <- DropLast(events) :: e in events;
      RecentNone(DropLast(events), cutoff);
      assert Last(events) in events;
    }
  }

  /** What is left when the leading events before the cutoff are dropped. */
  function Pruned(events: seq<int>, cutoff: int): seq<int> {
    if events != [] && events[0] < cutoff then Pruned(events[1..], cutoff) else events
  }

  lemma {:induction false} PrefixIsPruned(events: seq<int>, i: nat, cutoff: int)
    requires i <= |events| && (forall j :: 0 <= j < i ==> events[j] < cutoff)
    requires i == |events| || cutoff <= events[i]
    ensures events[i..] == Pruned(events, cutoff)
  {
    if i > 0 {
      PrefixIsPruned(events[1..], i - 1, cutoff);
      assert events[1..][i - 1..] == events[i..];
    }
  }

  /** Of a sorted list that is the same as filtering. */
  lemma {:induction false} PrefixIsFilter(events: seq<int>, cutoff: int)
    requires Sorted(events)
    ensures Pruned(events, cutoff) == Recent(events, cutoff)
  {
    if events != [] && events[0] < cutoff {
      RecentCons(events, cutoff);
      PrefixIsFilter(events[1..], cutoff);
    } else {
      RecentAll(events, cutoff);
    }
  }

  /** In any order, what is dropped no later cutoff can bring back. */
  lemma {:induction false} PrunedKeepsRecent(events: seq<int>, cutoff: int, later: int)
    requires cutoff <= later
    ensures Recent(Pruned(events, cutoff), later) == Recent(events, later)
    ensures forall e <- Pruned(events, cutoff) :: e in events
    ensures Sorted(events) ==> Sorted(Pruned(events, cutoff))
  {
    if events != [] && events[0] < cutoff {
      RecentCons(events, later);
      PrunedKeepsRecent(events[1..], cutoff, later);
    }
  }

  /** Filtering for a later cutoff undoes any earlier pruning. */
  lemma {:induction false} RecentRecent(events: seq<int>, early: int, late: int)
    requires early <= late
    ensures Recent(Recent(events, early), late) == Recent(events, late)
  {
    if events != [] {
      RecentRecent(DropLast(events), early, late);
      if early <= Last(events) {
        RecentSnoc(Recent(DropLast(events), early), Last(events), late);
      }
    }
  }

  lemma {:induction false} RecentSorted(events: seq<int>, cutoff: int)
    requires Sorted(events)
    ensures Sorted(Recent(events, cutoff))
    ensures forall e <- Recent(events, cutoff) :: e in events && cutoff <= e
  {
    if events != [] {
      var init := DropLast(events);
      RecentSorted(init, cutoff);
      forall e | e in Recent(init, cutoff) ensures e in events && e <= Last(events) {
        var i :| 0 <= i < |init| && init[i] == e;
      }
      SortedSnoc(Recent(init, cutoff), Last(events));
    }
  }

  // ---------------------------------------------------------------- reference limiter

  /** An attempt is accepted iff fewer than `max` accepted events lie in the window ending now. */
  predicate Accepts(history: seq<int>, max: int, window: int, now: int) {
    |Recent(history, now - window)| < max
  }

  /** Retry-after of a rejected attempt: until the oldest event in the window is a window old; never negative. */
  function RetryAfter(history: seq<int>, window: int, now: int): int {
    var recent := Recent(history, now - window);
    var r := if recent == [] then window else recent[0] + window - now;
    if r < 0 then 0 else r
  }

  ghost predicate AcceptedAt(history: seq<int>, max: int, window: int, i: nat) {
    i < |history| ==> Accepts(history[..i], max, window, history[i])
  }

  // Each accepted event had fewer than `max` before it in the window ending with it.
  ghost predicate Admitted(history: seq<int>, max: int, window: int) {
    forall i: nat :: AcceptedAt(history, max, window, i)
  }

  // A history the reference could have produced.
  ghost predicate Limited(history: seq<int>, max: int, window: int) {
    Sorted(history) && Admitted(history, max, window)
  }

  lemma AdmittedBefore(history: seq<int>, max: int, window: int)
    requires Admitted(history, max, window) && history != []
    ensures Admitted(DropLast(history), max, window)
    ensures Accepts(DropLast(history), max, window, Last(history))
  {
    var before := DropLast(history);
    assert AcceptedAt(history, max, window, |before|);
    forall i: nat ensures AcceptedAt(before, max, window, i) {
      assert AcceptedAt(history, max, window, i);
      if i < |before| { assert before[..i] == history[..i]; }
    }
  }

  lemma {:induction false} WithinIsRecent(events: seq<int>, from: int, to: int, cutoff: int)
    requires cutoff <= from
    ensures |Within(events, from, to)| <= |Recent(events, cutoff)|
  {
    if events != [] { WithinIsRecent(DropLast(events), from, to, cutoff); }
  }

  /**
   However many attempts are made, no closed interval of the window's length holds more than `max` accepted
   events.
   */
  lemma {:induction false} WindowHoldsAtMostMax(history: seq<int>, max: int, window: int, from: int)
    requires Admitted(history, max, window) && max >= 0
    ensures |Within(history, from, from + window)| <= max
  {
    if history != [] {
      AdmittedBefore(history, max, window);
      WindowHoldsAtMostMax(DropLast(history), max, window, from);
      if from <= Last(history) <= from + window {
        WithinIsRecent(DropLast(history), from, from + window, Last(history) - window);
      }
    }
  }

  lemma {:induction false} RecentShorter(events: seq<int>, cutoff: int)
    ensures |Recent(events, cutoff)| <= |events|
  {
    if events != [] { RecentShorter(DropLast(events), cutoff); }
  }

  lemma {:induction false} LaterHoldsFewer(events: seq<int>, early: int, late: int)
    requires early <= late
    ensures |Recent(events, late)| <= |Recent(events, early)|
  {
    if events != [] { LaterHoldsFewer(DropLast(events), early, late); }
  }

  lemma RecentAtMostMax(history: seq<int>, max: int, window: int, now: int)
    requires Limited(history, max, window) && max >= 0
    requires forall e <- history :: e <= now
    ensures |Recent(history, now - window)| <= max
  {
    if history != [] {
      var n := |history| - 1;
      var init, t := history[..n], history[n];
      assert AcceptedAt(history, max, window, n);
      assert history == init + [t] && t in history;
      LaterHoldsFewer(init, t - window, now - window);
      RecentSnoc(init, t, now - window);
    }
  }

  /** A window shrinks exactly when its front leaves it. */
  lemma FrontLeaves(recent: seq<int>, cutoff: int)
    requires Sorted(recent) && recent != []
    ensures |Recent(recent, cutoff)| < |recent| <==> recent[0] < cutoff
  {
    if recent[0] < cutoff {
      RecentCons(recent, cutoff);
      RecentShorter(recent[1..], cutoff);
    } else {
      RecentAll(recent, cutoff);
    }
  }

  lemma FrontOf(history: seq<int>, cutoff: int)
    requires Sorted(history) && Recent(history, cutoff) != []
    ensures Sorted(Recent(history, cutoff))
    ensures Recent(history, cutoff)[0] in history && cutoff <= Recent(history, cutoff)[0]
  {
    RecentSorted(history, cutoff);
    assert Recent(history, cutoff)[0] in Recent(history, cutoff);
  }

  /**
   After a rejection at `now` with retry-after r every attempt up to and including now + r is rejected too, and the
   first attempt after that is accepted: the hint is one tick early.
   */
  lemma RetryAfterIsExact(history: seq<int>, max: int, window: int, now: int, t: int)
    requires Limited(history, max, window) && max >= 1
    requires forall e <- history :: e <= now
    requires !Accepts(history, max, window, now) && now <= t
    ensures Accepts(history, max, window, t) <==> t > now + RetryAfter(history, window, now)
    ensures 0 <= RetryAfter(history, window, now) <= window
  {
    var cutoff := now - window;
    RecentAtMostMax(history, max, window, now);
    FrontOf(history, cutoff);
    FrontLeaves(Recent(history, cutoff), t - window);
    RecentRecent(history, cutoff, t - window);
  }

  /** With a maximum below one nothing is ever accepted. */
  lemma ZeroMaxRejectsAll(history: seq<int>, max: int, window: int, now: int)
    requires max <= 0
    ensures !Accepts(history, max, window, now)
  {
  }

  // ---------------------------------------------------------------- the limiter

  method Prune(events: seq<int>, cutoff: int) returns (left: seq<int>)
    ensures left == Pruned(events, cutoff)
  {
    var i := 0;
    while i < |events| && events[i] < cutoff
      invariant i <= |events|
      invariant forall j :: 0 <= j < i ==> events[j] < cutoff
    {
      i := i + 1;
    }
    PrefixIsPruned(events, i, cutoff);
    left := if i > 0 then events[i..] else events;
  }

  function HistoryOf(history: map<string, seq<int>>, key: string): seq<int> {
    if key in history then history[key] else []
  }

  function Max(a: int, b: int): int { if a < b then b else a }

  // For every cutoff that a call in time can use, the stored events and the whole history look the same.
  ghost predicate Agree(stored: seq<int>, history: seq<int>, window: int, clock: int) {
    && (forall e <- stored :: e <= clock) && (forall e <- history :: e <= clock)
    && forall cutoff :: clock - window <= cutoff ==> Recent(stored, cutoff) == Recent(history, cutoff)
  }

  /** With calls up to `skew` behind the clock, the window that is guarded is that much shorter. */
  ghost predicate KeyValid(stored: seq<int>, history: seq<int>, max: int, window: int, clock: int, skew: int) {
    && Agree(stored, history, window, clock) && Admitted(history, max, window - skew)
    && (skew == 0 ==> Sorted(stored) && Sorted(history))
  }

  lemma AdmittedShorter(history: seq<int>, max: int, window: int, shorter: int)
    requires Admitted(history, max, window) && shorter <= window
    ensures Admitted(history, max, shorter)
  {
    forall i: nat ensures AcceptedAt(history, max, shorter, i) {
      assert AcceptedAt(history, max, window, i);
      if i < |history| { LaterHoldsFewer(history[..i], history[i] - window, history[i] - shorter); }
    }
  }

  lemma KeyLater(stored: seq<int>, history: seq<int>, max: int, window: int, clock: int, skew: int, clock': int,
                 skew': int)
    requires KeyValid(stored, history, max, window, clock, skew) && clock <= clock' && 0 <= skew <= skew'
    ensures KeyValid(stored, history, max, window, clock', skew')
  {
    AdmittedShorter(history, max, window - skew, window - skew');
  }

  lemma KeyPruned(stored: seq<int>, history: seq<int>, max: int, window: int, clock: int, skew: int, now: int)
    requires KeyValid(stored, history, max, window, clock, skew) && now <= clock
    ensures KeyValid(Pruned(stored, now - window), history, max, window, clock, skew)
  {
    var left := Pruned(stored, now - window);
    forall cutoff | clock - window <= cutoff ensures Recent(left, cutoff) == Recent(history, cutoff) {
      PrunedKeepsRecent(stored, now - window, cutoff);
    }
    PrunedKeepsRecent(stored, now - window, now - window);
  }

  lemma SortedSnoc(events: seq<int>, now: int)
    requires Sorted(events) && forall e <- events :: e <= now
    ensures Sorted(events + [now]) && forall e <- events + [now] :: e <= now
  {
    assert forall i :: 0 <= i < |events| ==> events[i] in events;
  }

  lemma AdmittedSnoc(history: seq<int>, max: int, window: int, now: int)
    requires Admitted(history, max, window) && Accepts(history, max, window, now)
    ensures Admitted(history + [now], max, window)
  {
    var all := history + [now];
    forall i: nat ensures AcceptedAt(all, max, window, i) {
      if i < |history| {
        assert AcceptedAt(history, max, window, i) && all[..i] == history[..i];
      } else if i == |history| {
        assert all[..i] == history;
      }
    }
  }

  // A call at most `skew` late finds at least its shorter window stored.
  lemma StoredHoldsWindow(stored: seq<int>, history: seq<int>, max: int, window: int, clock: int, skew: int, now: int)
    requires KeyValid(stored, history, max, window, clock, skew) && clock - skew <= now && |stored| < max
    ensures Accepts(history, max, window - skew, now)
  {
    RecentShorter(stored, now - window + skew);
  }

  lemma KeyAccepted(stored: seq<int>, history: seq<int>, max: int, window: int, clock: int, skew: int, now: int)
    requires KeyValid(stored, history, max, window, clock, skew) && clock - skew <= now <= clock && |stored| < max
    ensures KeyValid(stored + [now], history + [now], max, window, clock, skew)
  {
    forall cutoff | clock - window <= cutoff ensures Recent(stored + [now], cutoff) == Recent(history + [now], cutoff) {
      RecentSnoc(stored, now, cutoff);
      RecentSnoc(history, now, cutoff);
    }
    StoredHoldsWindow(stored, history, max, window, clock, skew, now);
    AdmittedSnoc(history, max, window - skew, now);
    if skew == 0 {
      SortedSnoc(stored, now);
      SortedSnoc(history, now);
    }
  }

  ghost predicate AllValid(windows: map<string, seq<int>>, history: map<string, seq<int>>,
                           max: int, window: int, clock: int, skew: int) {
    forall key :: KeyValid(HistoryOf(windows, key), HistoryOf(history, key), max, window, clock, skew)
  }

  class Limiter {
    const max: int
    const window: int
    var windows: map<string, seq<int>>
    ghost var history: map<string, seq<int>>   // every accepted event since the key was last reset
    ghost var clock: int                       // latest time seen
    ghost var skew: int                        // how far any call came behind it

    ghost predicate Valid()
      reads this
    {
      skew >= 0 && AllValid(windows, history, max, window, clock, skew)
    }

    constructor (max: int, window: int, now: int)
      ensures Valid() && history == map[] && this.max == max && this.window == window && clock == now && skew == 0
      ensures windows == map[]
    {
      this.max, this.window := max, window;
      windows, history := map[], map[];
      clock, skew := now, 0;
    }

    /** After any calls: a closed interval shorter than the window by the skew holds at most `max` accepted events. */
    lemma HoldsAtMostMax(key: string, from: int)
      requires Valid() && max >= 0
      ensures |Within(HistoryOf(history, key), from, from + window - skew)| <= max
    {
      assert KeyValid(HistoryOf(windows, key), HistoryOf(history, key), max, window, clock, skew);
      WindowHoldsAtMostMax(HistoryOf(history, key), max, window - skew, from);
    }

    /** A call comes with this time. */
    ghost method Tick(now: int)
      requires Valid()
      modifies this`clock, this`skew
      ensures Valid() && clock == Max(old(clock), now) && skew == Max(old(skew), old(clock) - now)
    {
      var clock', skew' := Max(clock, now), Max(skew, clock - now);
      forall key ensures KeyValid(HistoryOf(windows, key), HistoryOf(history, key), max, window, clock', skew') {
        KeyLater(HistoryOf(windows, key), HistoryOf(history, key), max, window, clock, skew, clock', skew');
      }
      clock, skew := clock', skew';
    }

    /** Prunes one key as of now. */
    method PruneKey(key: string, now: int) returns (events: seq<int>)
      requires Valid() && now <= clock
      modifies this`windows, this`history
      ensures Valid() && windows == old(windows)[key := events] && history == old(history)
      ensures events == Pruned(HistoryOf(old(windows), key), now - window)
      ensures skew == 0 && now == clock ==> events == Recent(HistoryOf(history, key), now - window)
    {
      assert KeyValid(HistoryOf(windows, key), HistoryOf(history, key), max, window, clock, skew);
      KeyPruned(HistoryOf(windows, key), HistoryOf(history, key), max, window, clock, skew, now);
      events := if key in windows then windows[key] else [];
      if skew == 0 { PrefixIsFilter(events, now - window); }
      events := Prune(events, now - window);
      StoreKey(key, events, history);
    }

    // One key changes.
    method StoreKey(key: string, events: seq<int>, ghost history': map<string, seq<int>>)
      requires Valid() && KeyValid(events, HistoryOf(history', key), max, window, clock, skew)
      requires forall k :: k != key ==> HistoryOf(history', k) == HistoryOf(history, k)
      modifies this`windows, this`history
      ensures Valid() && windows == old(windows)[key := events] && history == history'
    {
      forall k
        ensures KeyValid(HistoryOf(windows[key := events], k), HistoryOf(history', k), max, window, clock, skew)
      {
        assert KeyValid(HistoryOf(windows, k), HistoryOf(history, k), max, window, clock, skew);
      }
      windows, history := windows[key := events], history';
    }

    /**
     Counts what is stored and not dropped. As long as no call has come late, that agrees with the reference limiter on
     the answer and the retry hint.
     */
    method AllowAt(key: string, now: int) returns (allowed: bool, retryAfter: int)
      requires Valid()
      modifies this
      ensures Valid() && clock == Max(old(clock), now) && skew == Max(old(skew), old(clock) - now)
      ensures var events := Pruned(HistoryOf(old(windows), key), now - window);
              && (allowed <==> |events| < max)
              && windows == old(windows)[key := if allowed then events + [now] else events]
      ensures history == if allowed then old(history)[key := HistoryOf(old(history), key) + [now]] else old(history)
      ensures allowed ==> retryAfter == 0
      ensures skew == 0 ==>
                && (allowed <==> Accepts(HistoryOf(old(history), key), max, window, now))
                && (!allowed ==> retryAfter == RetryAfter(HistoryOf(old(history), key), window, now))
    {
      Tick(now);
      var events := PruneKey(key, now);
      if |events| >= max {
        retryAfter := window;
        if |events| > 0 { retryAfter := events[0] + window - now; }
        if retryAfter < 0 { retryAfter := 0; }
        return false, retryAfter;
      }
      Accept(key, events, now);
      return true, 0;
    }

    method Accept(key: string, events: seq<int>, now: int)
      requires Valid() && clock - skew <= now <= clock && |events| < max && HistoryOf(windows, key) == events
      modifies this`windows, this`history
      ensures Valid() && windows == old(windows)[key := events + [now]]
      ensures history == old(history)[key := HistoryOf(old(history), key) + [now]]
    {
      assert KeyValid(HistoryOf(windows, key), HistoryOf(history, key), max, window, clock, skew);
      KeyAccepted(events, HistoryOf(history, key), max, window, clock, skew, now);
      StoreKey(key, events + [now], history[key := HistoryOf(history, key) + [now]]);
    }

    /** Accepted events in the window ending now. */
    method CountAt(key: string, now: int) returns (n: nat)
      requires Valid()
      modifies this`windows, this`history, this`clock, this`skew
      ensures Valid() && clock == Max(old(clock), now) && skew == Max(old(skew), old(clock) - now)
      ensures history == old(history)
      ensures n == |Pruned(HistoryOf(old(windows), key), now - window)|
      ensures windows == if key in old(windows) then old(windows)[key := Pruned(old(windows)[key], now - window)]
                         else old(windows)
      ensures skew == 0 ==> n == |Recent(HistoryOf(history, key), now - window)|
    {
      Tick(now);
      if key !in windows {
        assert KeyValid([], HistoryOf(history, key), max, window, clock, skew);
        return 0;
      }
      var events := PruneKey(key, now);
      return |events|;
    }

    /** Forgets what no later answer can depend on: the history is untouched. */
    method CleanupAt(now: int)
      requires Valid()
      modifies this`windows, this`history, this`clock, this`skew
      ensures Valid() && clock == Max(old(clock), now) && skew == Max(old(skew), old(clock) - now)
      ensures history == old(history)
      ensures windows == Cleaned(old(windows), {}, now - window)
    {
      Tick(now);
      var todo := windows.Keys;
      ghost var before := windows;
      CleanedAll(before, now - window);
      while todo != {}
        invariant Valid() && history == old(history)
        invariant clock == Max(old(clock), now) && skew == Max(old(skew), old(clock) - now)
        invariant todo <= before.Keys && windows == Cleaned(before, todo, now - window)
        decreases todo
      {
        var key :| key in todo;
        CleanedStep(before, todo, now - window, key);
        todo := todo - {key};
        CleanKey(key, now);
      }
    }

    /** One turn of the loop above. */
    method CleanKey(key: string, now: int)
      requires Valid() && now <= clock && key in windows
      modifies this`windows, this`history
      ensures Valid() && history == old(history)
      ensures windows == PutOrDrop(old(windows), key, Pruned(old(windows)[key], now - window))
    {
      var events := PruneKey(key, now);
      if events == [] {
        assert forall k :: HistoryOf(windows - {key}, k) == HistoryOf(windows, k);
        assert windows - {key} == old(windows) - {key};
        windows := windows - {key};
      }
    }

    method Reset(key: string)
      requires Valid()
      modifies this`windows, this`history
      ensures Valid() && history == old(history) - {key}
    {
      assert KeyValid([], [], max, window, clock, skew);
      windows := windows - {key};
      history := history - {key};
      assert forall k :: k != key ==> HistoryOf(windows, k) == HistoryOf(old(windows), k);
      assert forall k :: k != key ==> HistoryOf(history, k) == HistoryOf(old(history), k);
    }
  }

  function PutOrDrop(windows: map<string, seq<int>>, key: string, events: seq<int>): map<string, seq<int>> {
    if events == [] then windows - {key} else windows[key := events]
  }

  // The keys still to be looked at, and the others pruned, without those that are then empty.
  ghost function Cleaned(windows: map<string, seq<int>>, todo: set<string>, cutoff: int): map<string, seq<int>> {
    map key | key in windows && (key in todo || Pruned(windows[key], cutoff) != [])
      :: if key in todo then windows[key] else Pruned(windows[key], cutoff)
  }

  lemma CleanedAll(windows: map<string, seq<int>>, cutoff: int)
    ensures Cleaned(windows, windows.Keys, cutoff) == windows
  {
  }

  lemma CleanedStep(windows: map<string, seq<int>>, todo: set<string>, cutoff: int, key: string)
    requires key in todo && key in windows
    ensures Cleaned(windows, todo - {key}, cutoff)
            == PutOrDrop(Cleaned(windows, todo, cutoff), key, Pruned(windows[key], cutoff))
    ensures key in Cleaned(windows, todo, cutoff) && Cleaned(windows, todo, cutoff)[key] == windows[key]
  {
  }

  function Zeros(n: nat): (s: seq<int>)
    ensures |s| == n
  {
    if n == 0 then [] else Zeros(n - 1) + [0]
  }

  lemma {:induction false} ZerosAreZero(n: nat)
    ensures forall i :: 0 <= i < n ==> Zeros(n)[i] == 0
  {
    if n > 0 { ZerosAreZero(n - 1); }
  }

  lemma ZerosPruned(n: nat, cutoff: int)
    ensures Pruned(Zeros(n), cutoff) == if cutoff <= 0 then Zeros(n) else []
  {
    ZerosAreZero(n);
    if cutoff > 0 {
      PrefixIsPruned(Zeros(n), n, cutoff);
    } else {
      PrefixIsPruned(Zeros(n), 0, cutoff);
    }
  }

  lemma WithinSnoc(events: seq<int>, e: int, from: int, to: int)
    ensures Within(events + [e], from, to) == Within(events, from, to) + if from <= e <= to then [e] else []
  {
  }

  lemma {:induction false} ZerosWithin(n: nat, to: nat)
    ensures |Within(Zeros(n), 0, to)| == n
  {
    if n > 0 {
      ZerosWithin(n - 1, to);
      WithinSnoc(Zeros(n - 1), 0, 0, to);
    }
  }

  ghost predicate Holds(l: Limiter, history: seq<int>, stored: seq<int>)
    reads l
  {
    HistoryOf(l.history, "k") == history && HistoryOf(l.windows, "k") == stored
  }

  // One more event at time 0 is accepted.
  method AcceptAtZero(l: Limiter, n: nat)
    requires l.Valid() && n < l.max && l.window >= 0 && l.clock == 0 && l.skew == 0 && Holds(l, Zeros(n), Zeros(n))
    modifies l
    ensures l.Valid() && l.clock == 0 && l.skew == 0 && Holds(l, Zeros(n + 1), Zeros(n + 1))
  {
    ZerosPruned(n, 0 - l.window);
    var allowed, _ := l.AllowAt("k", 0);
  }

  // As many events as allowed are accepted at once, and a later count drops them.
  method MaxEventsDropped(max: nat, window: nat) returns (l: Limiter)
    ensures fresh(l) && l.Valid() && l.max == max && l.window == window && l.clock == window + 1 && l.skew == 0
    ensures Holds(l, Zeros(max), [])
  {
    l := new Limiter(max, window, 0);
    assert forall key :: HistoryOf(l.history, key) == [];
    for i := 0 to max
      invariant fresh(l) && l.Valid() && l.max == max && l.window == window && l.clock == 0 && l.skew == 0
      invariant Holds(l, Zeros(i), Zeros(i))
    {
      AcceptAtZero(l, i);
    }
    ZerosPruned(max, 1);
    assert (window + 1) - window == 1;
    var n := l.CountAt("k", window + 1);
  }

  /**
   The shorter window is exact, for every maximum: one call late by `skew` is enough for one event too many in an
   interval
   one longer than the window less the skew.
   */
  method LateCallOvershoots(max: nat, window: nat, skew: nat) returns (l: Limiter)
    requires max >= 1 && 1 <= skew <= window + 1
    ensures l.Valid() && l.max == max && l.window == window && l.skew == skew
    ensures |Within(HistoryOf(l.history, "k"), 0, window - skew + 1)| == max + 1
  {
    l := MaxEventsDropped(max, window);
    var now := window + 1 - skew;
    var allowed, _ := l.AllowAt("k", now);
    ZerosWithin(max, now);
    WithinSnoc(Zeros(max), now, 0, now);
  }
}
