/**
 Which message's context a response is delivered with. The registry's documentation says the first response matches
 the first queued message (internal/gateway/registry.go:22-24); the theorems below give the exact distance.
 */
module GatewayShift {
  import opened Common
  import opened Gateway
  import opened GatewayOrder
  import Registry
  import Dedup
  import CollectBuffer

  // ---------------------------------------------------------------- counting

  lemma {:induction false} CountSplit(p: Terminal -> bool, q: Terminal -> bool, r: Terminal -> bool, ts: seq<Terminal>)
    requires forall t <- ts :: (p(t) <==> q(t) || r(t)) && !(q(t) && r(t))
    ensures Count(p, ts) == Count(q, ts) + Count(r, ts)
  {
    if ts != [] {
      assert forall t <- DropLast(ts) :: t in ts;
      CountSplit(p, q, r, DropLast(ts));
      assert Last(ts) in ts;
    }
  }

  // Every event of a session answers an item or is surplus, and finds a context or misses.
  lemma EventsSplit(ts: seq<Terminal>, k: string)
    ensures Events(ts, k) == Answers(ts, k) + Surplus(ts, k)
  {
    CountSplit((t: Terminal) => IsEvent(t, k), (t: Terminal) => IsAnswer(t, k), (t: Terminal) => IsSurplus(t, k), ts);
  }

  lemma {:induction false} GotsLength(ts: seq<Terminal>, k: string)
    ensures |Gots(ts, k)| + Misses(ts, k) == Events(ts, k)
  {
    if ts != [] { GotsLength(DropLast(ts), k); }
  }

  lemma {:induction false} GotsPrefix(ts: seq<Terminal>, k: string, n: nat)
    requires n <= |ts|
    ensures Gots(ts[..n], k) <= Gots(ts, k)
  {
    if n < |ts| {
      assert DropLast(ts)[..n] == ts[..n];
      GotsPrefix(DropLast(ts), k, n);
    } else {
      assert ts[..n] == ts;
    }
  }

  // The context an event got is at the position given by how many the session got before.
  lemma GotPosition(ts: seq<Terminal>, k: string, n: nat)
    requires n < |ts| && ts[n].session == k && ts[n].got.Some?
    ensures |Gots(ts[..n], k)| < |Gots(ts, k)| && Gots(ts, k)[|Gots(ts[..n], k)|] == ts[n].got.value
  {
    GotsPrefix(ts, k, n + 1);
    assert DropLast(ts[..n + 1]) == ts[..n] && Last(ts[..n + 1]) == ts[n];
  }

  // The i-th message of a session has i messages of the session before it.
  lemma {:induction false} SerialPlace(inbound: seq<Inbound>, k: string, i: nat)
    requires i < |Serials(inbound, k)|
    ensures Serials(inbound, k)[i] < |inbound| && SessionOf(inbound[Serials(inbound, k)[i]]) == k
    ensures Place(inbound, k, Serials(inbound, k)[i]) == i
  {
    var init := DropLast(inbound);
    SerialsCount(init, k);
    if i < |Serials(init, k)| {
      SerialPlace(init, k, i);
      assert Before(inbound, k, Serials(inbound, k)[i]) == Before(init, k, Serials(init, k)[i]);
    } else {
      assert Before(inbound, k, |init|) == Before(init, k, |init|);
    }
  }

  lemma {:induction false} SerialsCount(inbound: seq<Inbound>, k: string)
    ensures |Serials(inbound, k)| == |Before(inbound, k, |inbound|)|
  {
    if inbound == [] {
      assert Before(inbound, k, 0) == {};
    } else {
      var n := |inbound| - 1;
      SerialsCount(DropLast(inbound), k);
      var rest := Before(DropLast(inbound), k, n);
      if SessionOf(inbound[n]) == k {
        assert Before(inbound, k, n + 1) == rest + {n};
      } else {
        assert Before(inbound, k, n + 1) == rest;
      }
    }
  }

  // ---------------------------------------------------------------- the answered messages

  // The answers of a session are to different messages of it.
  lemma {:induction false} AnsweredSetSize(cfg: Config, s: State, k: string, n: nat)
    requires Located(cfg, s) && AnswersOnce(s) && n <= |s.terminals|
    ensures |AnsweredSet(s, s.terminals[..n], k)| == Answers(s.terminals[..n], k)
  {
    if n == 0 {
      assert AnsweredSet(s, s.terminals[..0], k) == {};
    } else {
      var init, t := s.terminals[..n - 1], s.terminals[n - 1];
      AnsweredSetSize(cfg, s, k, n - 1);
      AnsweredSetSnoc(s, init, t, k);
      assert s.terminals[..n] == init + [t];
      assert DropLast(init + [t]) == init;
      if IsAnswer(t, k) { AnsweredIsNew(cfg, s, k, n - 1); }
    }
  }

  lemma AnsweredSetSnoc(s: State, ts: seq<Terminal>, t: Terminal, k: string)
    ensures AnsweredSet(s, ts + [t], k)
      == AnsweredSet(s, ts, k)
         + (if IsAnswer(t, k) && t.answers.value < |s.sent| then {s.sent[t.answers.value].primary} else {})
  {
    var all := ts + [t];
    forall q | q in AnsweredSet(s, ts, k) ensures q in AnsweredSet(s, all, k) {
      var i :| 0 <= i < |ts| && IsAnswer(ts[i], k) && ts[i].answers.value < |s.sent|
               && s.sent[ts[i].answers.value].primary == q;
      assert all[i] == ts[i];
    }
    if IsAnswer(t, k) && t.answers.value < |s.sent| {
      assert all[|ts|] == t;
    }
  }

  lemma AnsweredIsNew(cfg: Config, s: State, k: string, n: nat)
    requires Located(cfg, s) && AnswersOnce(s) && n < |s.terminals| && s.terminals[n].answers.Some?
    ensures s.sent[s.terminals[n].answers.value].primary !in AnsweredSet(s, s.terminals[..n], k)
  {
    var item := s.terminals[n].answers.value;
    forall i: nat | i < n && IsAnswer(s.terminals[i], k)
      ensures s.sent[s.terminals[i].answers.value].primary != s.sent[item].primary
    {
      var other := s.terminals[i].answers.value;
      assert s.terminals[i].answers != s.terminals[n].answers;
      if other < item { PrimariesDiffer(cfg, s, other, item); } else { PrimariesDiffer(cfg, s, item, other); }
    }
  }

  lemma AnsweredOfSession(cfg: Config, s: State, k: string, n: nat, q: nat)
    requires Located(cfg, s) && AnswersOnce(s) && n <= |s.terminals| && q in AnsweredSet(s, s.terminals[..n], k)
    ensures q < |s.inbound| && SessionOf(s.inbound[q]) == k
  {
    var i :| 0 <= i < n && IsAnswer(s.terminals[i], k) && s.terminals[i].answers.value < |s.sent|
             && s.sent[s.terminals[i].answers.value].primary == q;
    PrimaryKnown(cfg, s, s.terminals[i].answers.value);
    assert SessionOfItem(s, s.terminals[i].answers.value) == k;
  }

  // ---------------------------------------------------------------- the shift

  ghost predicate Delivered(s: State, n: nat) {
    n < |s.terminals| && s.terminals[n].answers.Some? && s.terminals[n].got.Some?
    && s.terminals[n].answers.value < |s.sent|
  }

  /**
   Take any run, however its handlers and flushes interleave, and any event of it that answers message `p` and was
   delivered with the context of message `g`. Then `g` stands before or after `p` among the registrations of the
   session by exactly: the registrations before `p` that no earlier event answered, less the registrations after `p`
   that one did, less the earlier surplus events, plus the earlier events that found the queue empty.
   */
  lemma {:induction false} Shift(cfg: Config, run: seq<Label>, n: nat)
    requires Delivered(Exec(cfg, run), n)
    ensures var s := Exec(cfg, run);
            var t, before := s.terminals[n], s.terminals[..n];
            var p, g := s.sent[t.answers.value].primary, t.got.value;
            Place(s.inbound, t.session, p) - Place(s.inbound, t.session, g)
            == |Unanswered(s, before, t.session, p)| - |Overtakers(s, before, t.session, p)|
               - Surplus(before, t.session) + Misses(before, t.session)
  {
    Reachable(cfg, run);
    var s := Exec(cfg, run);
    var t, before := s.terminals[n], s.terminals[..n];
    GotPlace(cfg, s, n);
    EventsSplit(before, t.session);
    GotsLength(before, t.session);
    AnsweredSetSize(cfg, s, t.session, n);
    PlaceSplit(cfg, s, n);
  }

  lemma GotPlace(cfg: Config, s: State, n: nat)
    requires Inv(cfg, s) && Delivered(s, n)
    ensures var t := s.terminals[n];
            Place(s.inbound, t.session, t.got.value) == |Gots(s.terminals[..n], t.session)|
    ensures var t := s.terminals[n]; t.got.value < |s.inbound| && SessionOf(s.inbound[t.got.value]) == t.session
  {
    var t := s.terminals[n];
    GotPosition(s.terminals, t.session, n);
    assert Fifo(s, t.session);
    SerialPlace(s.inbound, t.session, |Gots(s.terminals[..n], t.session)|);
  }

  // The registrations before `p` are the unanswered ones and the answered ones that are no overtakers.
  lemma PlaceSplit(cfg: Config, s: State, n: nat)
    requires Inv(cfg, s) && Delivered(s, n)
    ensures var t, before := s.terminals[n], s.terminals[..n];
            var p := s.sent[t.answers.value].primary;
            Place(s.inbound, t.session, p)
            == |Unanswered(s, before, t.session, p)| + |AnsweredSet(s, before, t.session)|
               - |Overtakers(s, before, t.session, p)|
  {
    var t, before := s.terminals[n], s.terminals[..n];
    var k, p := t.session, s.sent[t.answers.value].primary;
    var all, answered, late := Before(s.inbound, k, p), AnsweredSet(s, before, k), Overtakers(s, before, k, p);
    AnsweredIsNew(cfg, s, k, n);
    forall q | q in answered - late ensures q in all { AnsweredOfSession(cfg, s, k, n, q); }
    assert all == Unanswered(s, before, k, p) + (answered - late);
    assert |answered - late| == |answered| - |late| by { assert answered == (answered - late) + late; }
  }

  lemma PlaceInjective(inbound: seq<Inbound>, k: string, a: nat, b: nat)
    requires a < b < |inbound| && SessionOf(inbound[a]) == k
    ensures Place(inbound, k, a) < Place(inbound, k, b)
  {
    var lo, hi := Before(inbound, k, a), Before(inbound, k, b);
    assert lo + {a} <= hi && a !in lo;
    SubsetSize(lo + {a}, hi);
  }

  lemma {:induction false} SubsetSize(a: set<nat>, b: set<nat>)
    requires a <= b
    ensures |a| <= |b|
  {
    assert |b| == |a| + |b - a| by { assert b == a + (b - a); }
  }

  /**
   A response is delivered with the context of the very message it answers exactly when the unanswered registrations
   before that message and the empty-queue events together equal the overtakers and the surplus events. With none of
   the four it is.
   */
  lemma {:induction false} ResponseMatchesMessage(cfg: Config, run: seq<Label>, n: nat)
    requires Delivered(Exec(cfg, run), n)
    ensures var s := Exec(cfg, run);
            var t, before := s.terminals[n], s.terminals[..n];
            var p := s.sent[t.answers.value].primary;
            t.got.value == p
            <==> |Unanswered(s, before, t.session, p)| + Misses(before, t.session)
                 == |Overtakers(s, before, t.session, p)| + Surplus(before, t.session)
  {
    Shift(cfg, run, n);
    Reachable(cfg, run);
    var s := Exec(cfg, run);
    var t := s.terminals[n];
    var p, g := s.sent[t.answers.value].primary, t.got.value;
    GotPlace(cfg, s, n);
    PrimaryKnown(cfg, s, t.answers.value);
    assert SessionOfItem(s, t.answers.value) == t.session;
    if g < p { PlaceInjective(s.inbound, t.session, g, p); }
    if p < g { PlaceInjective(s.inbound, t.session, p, g); }
  }

  /** The j-th event of a session to find a context is delivered with the session's j-th registration. */
  lemma FifoDelivery(cfg: Config, run: seq<Label>, k: string)
    ensures Gots(Exec(cfg, run).terminals, k) <= Serials(Exec(cfg, run).inbound, k)
  {
    Reachable(cfg, run);
    assert Fifo(Exec(cfg, run), k);
  }

  /**
   What counts as unanswered: every registration before `p` that is not the primary message of a published item - a
   suppressed duplicate, a batched message, a failed publish.
   */
  lemma UnpublishedIsUnanswered(cfg: Config, run: seq<Label>, n: nat, q: nat)
    requires Delivered(Exec(cfg, run), n)
    requires var s := Exec(cfg, run);
             q in Before(s.inbound, s.terminals[n].session, s.sent[s.terminals[n].answers.value].primary)
    requires var s := Exec(cfg, run);
             HasFate(s, q, Suppressed) || HasFate(s, q, PublishFailed)
             || forall x: nat | x < |s.sent| :: s.sent[x].primary != q
    ensures var s := Exec(cfg, run);
            q in Unanswered(s, s.terminals[..n], s.terminals[n].session, s.sent[s.terminals[n].answers.value].primary)
  {
    Reachable(cfg, run);
    var s := Exec(cfg, run);
    forall x: nat | x < |s.sent| ensures s.sent[x].primary != q {
      assert ItemRight(s, x);
      assert s.sent[x].batch.Some? ==> InBatch(s, s.sent[x].batch.value, s.sent[x].primary);
    }
  }
}
