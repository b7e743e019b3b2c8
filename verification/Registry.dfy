/**
 The delivery registry of internal/gateway/registry.go: a map from session key to a FIFO queue of delivery entries.
 Each method holds the registry's mutex, so each is one step.
 */
module Registry {
  import opened Common

  type SessionKey = string

  datatype DeliveryContext = DeliveryContext(
    channelType: string, channelId: string, replyMode: string, notifyChannels: seq<string>, supportsStreaming: bool)

  // `origin` numbers the inbound message that registered the entry.
  datatype Entry = Entry(context: DeliveryContext, origin: nat, createdAt: int)

  type Queues = map<SessionKey, seq<Entry>>

  function QueueOf(m: map<SessionKey, seq<Entry>>, k: SessionKey): seq<Entry> {
    if k in m then m[k] else []
  }

  function Registered(m: Queues, k: SessionKey, e: Entry): Queues {
    m[k := QueueOf(m, k) + [e]]
  }

  function Consumed(m: Queues, k: SessionKey): Queues {
    if |QueueOf(m, k)| <= 1 then m - {k} else m[k := m[k][1..]]
  }

  /** The entries not before the cutoff, in order. */
  function Fresh(q: seq<Entry>, cutoff: int): seq<Entry> { Filter((e: Entry) => cutoff <= e.createdAt, q) }

  lemma FreshSnoc(q: seq<Entry>, e: Entry, cutoff: int)
    ensures Fresh(q + [e], cutoff) == if cutoff <= e.createdAt then Fresh(q, cutoff) + [e] else Fresh(q, cutoff)
  {
  }

  /** No empty queue stays in the map. */
  ghost predicate NoEmptyQueue(m: Queues) {
    forall k <- m :: m[k] != []
  }

  // ---------------------------------------------------------------- total length

  ghost function Total(m: Queues): nat {
    if m == map[] then 0 else
      var k :| k in m;
      |m[k]| + Total(m - {k})
  }

  lemma {:induction false} TotalSplit(m: Queues, k: SessionKey)
    requires k in m
    ensures Total(m) == |m[k]| + Total(m - {k})
    decreases |m|
  {
    var k0 :| k0 in m && Total(m) == |m[k0]| + Total(m - {k0});
    if k0 != k {
      TotalSplit(m - {k0}, k);
      TotalSplit(m - {k}, k0);
      assert m - {k0} - {k} == m - {k} - {k0};
    }
  }

  lemma TotalUpdate(m: Queues, k: SessionKey, q: seq<Entry>)
    ensures Total(m[k := q]) == Total(m) - |QueueOf(m, k)| + |q|
  {
    TotalSplit(m[k := q], k);
    if k in m { TotalSplit(m, k); }
    assert m[k := q] - {k} == m - {k};
    assert k !in m ==> m - {k} == m;
  }

  lemma TotalDrop(m: Queues, k: SessionKey)
    ensures Total(m - {k}) == Total(m) - |QueueOf(m, k)|
  {
    if k in m { TotalSplit(m, k); } else { assert m - {k} == m; }
  }

  // ---------------------------------------------------------------- order

  /** `a` is what is left of `b` after deleting some elements. */
  ghost predicate Subsequence<T>(a: seq<T>, b: seq<T>) {
    a == [] || (b != [] && (
      (Last(a) == Last(b) && Subsequence(DropLast(a), DropLast(b))) || Subsequence(a, DropLast(b))))
  }

  lemma {:induction false} SubsequenceSnoc<T>(a: seq<T>, b: seq<T>, x: T)
    requires Subsequence(a, b)
    ensures Subsequence(a + [x], b + [x])
  {
  }

  lemma {:induction false} SubsequenceTrans<T>(a: seq<T>, b: seq<T>, c: seq<T>)
    requires Subsequence(a, b) && Subsequence(b, c)
    ensures Subsequence(a, c)
    decreases |b| + |c|
  {
    if a != [] {
      if Last(b) == Last(c) && Subsequence(DropLast(b), DropLast(c)) {
        if Last(a) == Last(b) && Subsequence(DropLast(a), DropLast(b)) {
          SubsequenceTrans(DropLast(a), DropLast(b), DropLast(c));
        } else {
          SubsequenceTrans(a, DropLast(b), DropLast(c));
        }
      } else {
        SubsequenceTrans(a, b, DropLast(c));
      }
    }
  }

  lemma {:induction false} SubsequenceRefl<T>(a: seq<T>)
    ensures Subsequence(a, a)
  {
    if a != [] { SubsequenceRefl(DropLast(a)); }
  }

  /** What was served, then what is queued, is what was registered, in order, less some entries. */
  ghost predicate Ordered(served: Queues, queued: Queues, registered: Queues, k: SessionKey) {
    Subsequence(QueueOf(served, k) + QueueOf(queued, k), QueueOf(registered, k))
  }

  /** Less none. */
  ghost predicate Complete(served: Queues, queued: Queues, registered: Queues, k: SessionKey) {
    QueueOf(served, k) + QueueOf(queued, k) == QueueOf(registered, k)
  }

  lemma RegisterKeepsOrder(served: Queues, queued: Queues, registered: Queues, k: SessionKey, e: Entry, j: SessionKey)
    requires Ordered(served, queued, registered, j)
    ensures Ordered(served, Registered(queued, k, e), Registered(registered, k, e), j)
    ensures Complete(served, queued, registered, j)
            ==> Complete(served, Registered(queued, k, e), Registered(registered, k, e), j)
  {
    RegisteredQueue(queued, k, e, j);
    RegisteredQueue(registered, k, e, j);
    if j == k {
      SubsequenceSnoc(QueueOf(served, k) + QueueOf(queued, k), QueueOf(registered, k), e);
      assert QueueOf(served, k) + (QueueOf(queued, k) + [e]) == QueueOf(served, k) + QueueOf(queued, k) + [e];
    }
  }

  lemma RegisteredQueue(m: Queues, k: SessionKey, e: Entry, j: SessionKey)
    ensures QueueOf(Registered(m, k, e), j) == if j == k then QueueOf(m, k) + [e] else QueueOf(m, j)
  {
  }

  lemma ConsumeKeepsOrder(served: Queues, queued: Queues, registered: Queues, k: SessionKey, j: SessionKey)
    requires Ordered(served, queued, registered, j) && QueueOf(queued, k) != []
    ensures Ordered(Registered(served, k, queued[k][0]), Consumed(queued, k), registered, j)
    ensures Complete(served, queued, registered, j)
            ==> Complete(Registered(served, k, queued[k][0]), Consumed(queued, k), registered, j)
  {
    if j == k {
      var q := queued[k];
      assert QueueOf(served, k) + q == (QueueOf(served, k) + [q[0]]) + q[1..];
      assert QueueOf(Consumed(queued, k), k) == q[1..];
    }
  }

  // So it is for every session; nothing is missing as long as nothing was evicted.
  ghost predicate Histories(served: Queues, queued: Queues, registered: Queues, evicted: nat) {
    && (forall k :: Ordered(served, queued, registered, k))
    && (evicted == 0 ==> forall k :: Complete(served, queued, registered, k))
  }

  lemma RegisterKeepsHistories(served: Queues, queued: Queues, registered: Queues, evicted: nat, k: SessionKey,
                               e: Entry)
    requires Histories(served, queued, registered, evicted)
    ensures Histories(served, Registered(queued, k, e), Registered(registered, k, e), evicted)
  {
    forall j
      ensures Ordered(served, Registered(queued, k, e), Registered(registered, k, e), j)
      ensures evicted == 0 ==> Complete(served, Registered(queued, k, e), Registered(registered, k, e), j)
    {
      RegisterKeepsOrder(served, queued, registered, k, e, j);
    }
  }

  lemma ConsumeKeepsHistories(served: Queues, queued: Queues, registered: Queues, evicted: nat, k: SessionKey)
    requires Histories(served, queued, registered, evicted) && QueueOf(queued, k) != []
    ensures Histories(Registered(served, k, queued[k][0]), Consumed(queued, k), registered, evicted)
  {
    forall j
      ensures Ordered(Registered(served, k, queued[k][0]), Consumed(queued, k), registered, j)
      ensures evicted == 0 ==> Complete(Registered(served, k, queued[k][0]), Consumed(queued, k), registered, j)
    {
      ConsumeKeepsOrder(served, queued, registered, k, j);
    }
  }

  function Filtered(queued: Queues, k: SessionKey, keep: seq<Entry>): Queues {
    if keep == [] then queued - {k} else queued[k := keep]
  }

  lemma FilteredQueues(queued: Queues, k: SessionKey, keep: seq<Entry>)
    requires NoEmptyQueue(queued)
    ensures var m := Filtered(queued, k, keep);
            && NoEmptyQueue(m) && Total(m) == Total(queued) - |QueueOf(queued, k)| + |keep|
            && (forall j :: QueueOf(m, j) == if j == k then keep else QueueOf(queued, j))
            && forall j :: j != k ==> (j in m <==> j in queued)
  {
    if keep == [] { TotalDrop(queued, k); } else { TotalUpdate(queued, k, keep); }
  }

  lemma EvictKeepsHistories(served: Queues, queued: Queues, registered: Queues, evicted: nat, k: SessionKey,
                            cutoff: int)
    requires Histories(served, queued, registered, evicted) && k in queued
    ensures var keep := Fresh(queued[k], cutoff);
            |keep| <= |queued[k]|
            && Histories(served, Filtered(queued, k, keep), registered, evicted + |queued[k]| - |keep|)
  {
    var q := queued[k];
    var keep := Fresh(q, cutoff);
    var after := Filtered(queued, k, keep);
    FreshAll(q, cutoff);
    forall j
      ensures Ordered(served, after, registered, j)
      ensures evicted == 0 && |keep| == |q| ==> Complete(served, after, registered, j)
    {
      assert Ordered(served, queued, registered, j);
      if j == k {
        FilterTail(QueueOf(served, k), q, cutoff);
        SubsequenceTrans(QueueOf(served, k) + keep, QueueOf(served, k) + q, QueueOf(registered, k));
        assert QueueOf(after, k) == keep;
      } else {
        assert QueueOf(after, j) == QueueOf(queued, j);
      }
      if evicted == 0 { assert Complete(served, queued, registered, j); }
    }
  }

  // Filtering the tail of a sequence leaves a subsequence of it.
  lemma {:induction false} FilterTail(s: seq<Entry>, q: seq<Entry>, cutoff: int)
    ensures Subsequence(s + Fresh(q, cutoff), s + q)
  {
    if q == [] {
      assert s + q == s && s + Fresh(q, cutoff) == s;
      SubsequenceRefl(s);
    } else {
      FilterTail(s, DropLast(q), cutoff);
      assert s + q == (s + DropLast(q)) + [Last(q)];
      if cutoff <= Last(q).createdAt {
        SubsequenceSnoc(s + Fresh(DropLast(q), cutoff), s + DropLast(q), Last(q));
        assert s + Fresh(q, cutoff) == (s + Fresh(DropLast(q), cutoff)) + [Last(q)];
      } else {
        assert DropLast(s + q) == s + DropLast(q);
      }
    }
  }

  // ---------------------------------------------------------------- the class

  /** Keeps, in place and in order, the entries not before the cutoff. */
  method FilterInPlace(q: array<Entry>, cutoff: int) returns (kept: nat, evicted: nat)
    modifies q
    ensures kept <= q.Length && q[..kept] == Fresh(old(q[..]), cutoff)
    ensures kept + evicted == q.Length
  {
    kept, evicted := 0, 0;
    ghost var all := q[..];
    for i := 0 to q.Length
      invariant kept <= i && kept + evicted == i
      invariant forall k :: i <= k < q.Length ==> q[k] == all[k]
      invariant q[..kept] == Fresh(all[..i], cutoff)
    {
      assert all[..i + 1] == all[..i] + [all[i]];
      FreshSnoc(all[..i], all[i], cutoff);
      if q[i].createdAt < cutoff {
        evicted := evicted + 1;
      } else {
        q[kept] := q[i];
        kept := kept + 1;
      }
    }
    assert all[..q.Length] == all;
  }

  // The queues of `todo` are as they were; the others have been filtered.
  ghost predicate HalfEvicted(before: Queues, after: Queues, todo: set<SessionKey>, cutoff: int) {
    (forall k <- todo :: k in after) && forall k :: HalfEvictedAt(before, after, todo, cutoff, k)
  }

  ghost predicate HalfEvictedAt(before: Queues, after: Queues, todo: set<SessionKey>, cutoff: int, k: SessionKey) {
    QueueOf(after, k) == if k in todo then QueueOf(before, k) else Fresh(QueueOf(before, k), cutoff)
  }

  lemma HalfEvictedStep(before: Queues, middle: Queues, after: Queues, todo: set<SessionKey>, k: SessionKey,
                        cutoff: int)
    requires HalfEvicted(before, middle, todo, cutoff) && k in todo && k in middle
    requires forall j :: QueueOf(after, j) == if j == k then Fresh(middle[k], cutoff) else QueueOf(middle, j)
    requires forall j :: j != k ==> (j in after <==> j in middle)
    ensures HalfEvicted(before, after, todo - {k}, cutoff)
  {
    forall j ensures HalfEvictedAt(before, after, todo - {k}, cutoff, j) {
      assert HalfEvictedAt(before, middle, todo, cutoff, j);
    }
  }

  class Registry {
    var entries: Queues
    // history
    ghost var registered: Queues           // everything ever registered, per session
    ghost var served: Queues               // everything Consume returned, per session
    ghost var counts: (nat, nat, nat)      // registered, consumed, evicted

    ghost predicate Valid()
      reads this
    {
      && NoEmptyQueue(entries)
      && Total(entries) == counts.0 - counts.1 - counts.2
      && Histories(served, entries, registered, counts.2)
    }

    constructor ()
      ensures Valid() && entries == map[] && registered == map[] && counts == (0, 0, 0)
    {
      entries, registered, served := map[], map[], map[];
      counts := (0, 0, 0);
    }

    method Register(k: SessionKey, e: Entry)
      requires Valid()
      modifies this
      ensures Valid() && entries == Registered(old(entries), k, e)
      ensures registered == Registered(old(registered), k, e)
      ensures served == old(served)
      ensures counts == (old(counts.0) + 1, old(counts.1), old(counts.2))
    {
      TotalUpdate(entries, k, QueueOf(entries, k) + [e]);
      RegisterKeepsHistories(served, entries, registered, counts.2, k, e);
      entries := Registered(entries, k, e);
      registered := Registered(registered, k, e);
      counts := (counts.0 + 1, counts.1, counts.2);
    }

    /** Front of the queue, not removed. */
    method Lookup(k: SessionKey) returns (r: Option<Entry>)
      ensures r == if QueueOf(entries, k) == [] then None else Some(QueueOf(entries, k)[0])
    {
      if k !in entries || entries[k] == [] { return None; }
      return Some(entries[k][0]);
    }

    /** Front of the queue, removed; an emptied queue leaves the map. */
    method Consume(k: SessionKey) returns (r: Option<Entry>)
      requires Valid()
      modifies this
      ensures Valid() && registered == old(registered)
      ensures r == if QueueOf(old(entries), k) == [] then None else Some(QueueOf(old(entries), k)[0])
      ensures entries == Consumed(old(entries), k)
      ensures r.None? ==> counts == old(counts) && served == old(served)
      ensures r.Some? ==> served == Registered(old(served), k, r.value)
      ensures r.Some? ==> counts == (old(counts.0), old(counts.1) + 1, old(counts.2))
    {
      if k !in entries || entries[k] == [] {
        assert entries - {k} == entries;
        return None;
      }
      var q := entries[k];
      ConsumeKeepsHistories(served, entries, registered, counts.2, k);
      TotalUpdate(entries, k, q[1..]);
      TotalDrop(entries, k);
      assert entries[k := []] - {k} == entries - {k};
      entries := entries[k := q[1..]];
      if entries[k] == [] { entries := entries - {k}; }
      assert entries == Consumed(old(entries), k);
      served := Registered(served, k, q[0]);
      counts := (counts.0, counts.1 + 1, counts.2);
      return Some(q[0]);
    }

    /** Registered less consumed less evicted. */
    method Len() returns (n: nat)
      requires Valid()
      ensures n == Total(entries) == counts.0 - counts.1 - counts.2
    {
      n := 0;
      var rest := entries;
      while rest != map[]
        invariant n + Total(rest) == Total(entries)
        decreases |rest|
      {
        var k :| k in rest;
        TotalSplit(rest, k);
        n := n + |rest[k]|;
        rest := rest - {k};
      }
    }

    /** Every queue keeps its fresh entries in order; queues left empty go. */
    method EvictOlderThan(cutoff: int) returns (evicted: nat)
      requires Valid()
      modifies this
      ensures Valid() && registered == old(registered) && served == old(served)
      ensures forall k :: QueueOf(entries, k) == Fresh(QueueOf(old(entries), k), cutoff)
      ensures evicted == Total(old(entries)) - Total(entries)
      ensures counts == (old(counts.0), old(counts.1), old(counts.2) + evicted)
    {
      evicted := 0;
      var todo := entries.Keys;
      ghost var before := entries;
      while todo != {}
        invariant Valid() && registered == old(registered) && served == old(served)
        invariant HalfEvicted(before, entries, todo, cutoff)
        invariant counts == (old(counts.0), old(counts.1), old(counts.2) + evicted)
        decreases todo
      {
        var k :| k in todo;
        ghost var middle := entries;
        var n := EvictQueue(k, cutoff);
        HalfEvictedStep(before, middle, entries, todo, k, cutoff);
        todo := todo - {k};
        evicted := evicted + n;
      }
      forall k ensures QueueOf(entries, k) == Fresh(QueueOf(before, k), cutoff) {
        assert HalfEvictedAt(before, entries, {}, cutoff, k);
      }
    }

    /** One turn of the loop above. */
    method EvictQueue(k: SessionKey, cutoff: int) returns (evicted: nat)
      requires Valid() && k in entries
      modifies this
      ensures Valid() && registered == old(registered) && served == old(served)
      ensures forall j :: QueueOf(entries, j)
                          == if j == k then Fresh(old(entries)[k], cutoff) else QueueOf(old(entries), j)
      ensures forall j :: j != k ==> (j in entries <==> j in old(entries))
      ensures counts == (old(counts.0), old(counts.1), old(counts.2) + evicted)
    {
      var was := entries[k];
      EvictKeepsHistories(served, entries, registered, counts.2, k, cutoff);
      var q := new Entry[|was|](i requires 0 <= i < |was| => was[i]);
      assert q[..] == was;
      var kept;
      kept, evicted := FilterInPlace(q, cutoff);
      var keep := q[..kept];
      FilteredQueues(entries, k, keep);
      entries := if |keep| == 0 then entries - {k} else entries[k := keep];
      assert entries == Filtered(old(entries), k, keep);
      counts := (counts.0, counts.1, counts.2 + evicted);
    }
  }

  lemma {:induction false} FreshAll(q: seq<Entry>, cutoff: int)
    ensures |Fresh(q, cutoff)| <= |q|
    ensures |Fresh(q, cutoff)| == |q| ==> Fresh(q, cutoff) == q
  {
    if q != [] { FreshAll(DropLast(q), cutoff); }
  }
}
