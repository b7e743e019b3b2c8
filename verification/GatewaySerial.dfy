/**
 When responses are not overtaken: if nothing of one user and channel overlaps, its items are published in registration
 order, and if the agent answers them in that order no answer overtakes another. With overlap one can.
 */
module GatewaySerial {
  import opened Common
  import opened Gateway
  import opened GatewayOrder
  import opened GatewayShift
  import CollectBuffer
  import Registry
  import SessionKey

  // ---------------------------------------------------------------- no overlap

  // The message's handler is between registering it and buffering or publishing it.
  predicate Handling(s: State, key: string, n: nat) {
    (HasFate(s, n, Registered) || HasFate(s, n, Accepted)) && RouteOf(s.inbound[n]) == key
  }

  predicate Flushing(s: State, key: string, i: nat) {
    i in s.outgoing && i < |s.collect.batches| && s.collect.batches[i].key == key
  }

  ghost predicate InFlight(s: State, key: string) {
    (exists n :: Handling(s, key, n)) || exists i :: Flushing(s, key, i)
  }

  /**
   A message is registered, or a buffer extracted, only when no handler or flush of its user and channel is under
   way.
   */
  ghost predicate Serial(cfg: Config, run: seq<Label>, key: string) {
    run == [] ||
    (Serial(cfg, DropLast(run), key) && (Starts(Last(run), key) ==> !InFlight(Exec(cfg, DropLast(run)), key)))
  }

  predicate Starts(l: Label, key: string) {
    match l
    case Register(m, _) => RouteOf(m) == key
    case Extract(k) => k == key
    case _ => false
  }

  ghost predicate Of(s: State, key: string, m: nat) { m < |s.inbound| && RouteOf(s.inbound[m]) == key }

  // Whatever is in flight is alone, and later than all of its route that has been sent or buffered.
  ghost predicate Alone(s: State, key: string) {
    && (forall n, m: nat | Handling(s, key, n) && Of(s, key, m) :: m <= n)
    && (forall n, i | Handling(s, key, n) :: !Flushing(s, key, i))
    && (forall i, j | Flushing(s, key, i) && Flushing(s, key, j) :: i == j)
    && (forall i | Flushing(s, key, i) :: CollectBuffer.Buffered(s.collect, key) == [])
  }

  ghost predicate Ordered(s: State, key: string) {
    && (forall x: nat, y: nat | x < y < |s.sent| && Of(s, key, s.sent[x].primary) && Of(s, key, s.sent[y].primary) ::
          s.sent[x].primary < s.sent[y].primary)
    && (forall x: nat, m | x < |s.sent| && Of(s, key, s.sent[x].primary)
        && m in CollectBuffer.Buffered(s.collect, key) ::
          s.sent[x].primary < m)
    && (forall x: nat, i: nat, m | x < |s.sent| && Of(s, key, s.sent[x].primary) && Flushing(s, key, i)
          && m in s.collect.batches[i].msgs :: s.sent[x].primary < m)
  }

  // ---------------------------------------------------------------- steps

  lemma RegisterKeeps(cfg: Config, s: State, m: Inbound, createdAt: int, key: string)
    requires Located(cfg, s) && Alone(s, key) && Ordered(s, key) && WellNamed(m)
    requires RouteOf(m) == key ==> !InFlight(s, key)
    ensures Alone(Apply(cfg, s, Register(m, createdAt)), key) && Ordered(Apply(cfg, s, Register(m, createdAt)), key)
  {
    var s' := Apply(cfg, s, Register(m, createdAt));
    forall n: nat ensures Handling(s', key, n) <==> Handling(s, key, n) || (n == |s.inbound| && RouteOf(m) == key) {}
    forall n: nat ensures Of(s', key, n) <==> Of(s, key, n) || (n == |s.inbound| && RouteOf(m) == key) {}
    forall i: nat ensures Flushing(s', key, i) <==> Flushing(s, key, i) {}
    forall x: nat | x < |s.sent| ensures s.sent[x].primary < |s.inbound| { PrimaryKnown(cfg, s, x); }
  }

  // Nothing is sent, buffered or extracted; a handler may finish.
  lemma QuietStep(s: State, s': State, key: string)
    requires Alone(s, key) && Ordered(s, key)
    requires s'.inbound == s.inbound && s'.sent == s.sent && s'.collect.batches == s.collect.batches
    requires s'.outgoing <= s.outgoing
    requires CollectBuffer.Buffered(s'.collect, key) == CollectBuffer.Buffered(s.collect, key)
    requires forall n :: Handling(s', key, n) ==> Handling(s, key, n)
    ensures Alone(s', key) && Ordered(s', key)
  {
    forall i: nat ensures Flushing(s', key, i) ==> Flushing(s, key, i) {}
    forall n: nat ensures Of(s', key, n) <==> Of(s, key, n) {}
  }

  lemma EnqueueKeeps(cfg: Config, s: State, n: nat, key: string)
    requires Located(cfg, s) && Alone(s, key) && Ordered(s, key) && Enabled(cfg, s, Enqueue(n))
    ensures Alone(Apply(cfg, s, Enqueue(n)), key) && Ordered(Apply(cfg, s, Enqueue(n)), key)
  {
    var s' := Apply(cfg, s, Enqueue(n));
    var m := s.inbound[n];
    EnqueueBuffers(s.collect, RouteOf(m), n, CollectCapFor(cfg, m.channelType),
                   QueueModeFor(cfg, m.channelType).1, key);
    forall i: nat ensures Flushing(s', key, i) ==> Flushing(s, key, i) {}
    forall q: nat ensures Of(s', key, q) <==> Of(s, key, q) {}
    forall q: nat ensures Handling(s', key, q) ==> Handling(s, key, q) && q != n {}
    if RouteOf(m) == key {
      assert Handling(s, key, n);
      forall x: nat | x < |s.sent| && Of(s, key, s.sent[x].primary) ensures s.sent[x].primary < n {
        SentIsNotHandled(cfg, s, x, n);
      }
    }
  }

  lemma SentIsNotHandled(cfg: Config, s: State, x: nat, n: nat)
    requires Located(cfg, s) && x < |s.sent| && (HasFate(s, n, Registered) || HasFate(s, n, Accepted))
    ensures s.sent[x].primary != n
  {
    assert ItemRight(s, x);
    assert s.sent[x].batch.Some? ==> InBatch(s, s.sent[x].batch.value, s.sent[x].primary);
  }

  // A channel that does not collect has nothing buffered.
  lemma DirectHasNoBuffer(cfg: Config, s: State, n: nat)
    requires Located(cfg, s) && n < |s.inbound| && !Collects(cfg, s.inbound[n])
    ensures CollectBuffer.Buffered(s.collect, RouteOf(s.inbound[n])) == []
  {
    var buf, m := CollectBuffer.Buffered(s.collect, RouteOf(s.inbound[n])), s.inbound[n];
    if buf != [] {
      assert WaitsIn(cfg, s, RouteOf(m), buf[0]);
      var b := s.inbound[buf[0]];
      assert WellNamed(m) && WellNamed(b);
      CollectBuffer.BufferKeyInjective(m.userId, m.channelType, b.userId, b.channelType);
      assert false;
    }
  }

  lemma PublishKeeps(cfg: Config, s: State, n: nat, ok: bool, key: string)
    requires Located(cfg, s) && Alone(s, key) && Ordered(s, key) && Enabled(cfg, s, Publish(n, ok))
    ensures Alone(Apply(cfg, s, Publish(n, ok)), key) && Ordered(Apply(cfg, s, Publish(n, ok)), key)
  {
    var s' := Apply(cfg, s, Publish(n, ok));
    forall q: nat ensures Handling(s', key, q) ==> Handling(s, key, q) {}
    if !ok || RouteOf(s.inbound[n]) != key {
      PublishElsewhere(s, s', key, n);
    } else {
      assert Handling(s, key, n);
      DirectHasNoBuffer(cfg, s, n);
      forall i: nat ensures Flushing(s', key, i) ==> Flushing(s, key, i) {}
      forall q: nat ensures Of(s', key, q) <==> Of(s, key, q) {}
      forall x: nat | x < |s.sent| && Of(s, key, s.sent[x].primary) ensures s.sent[x].primary < n {
        SentIsNotHandled(cfg, s, x, n);
      }
    }
  }

  lemma PublishElsewhere(s: State, s': State, key: string, p: nat)
    requires Alone(s, key) && Ordered(s, key)
    requires s'.inbound == s.inbound && s'.collect == s.collect && s'.outgoing <= s.outgoing
    requires s'.sent == s.sent || (!Of(s, key, p) && |s'.sent| == |s.sent| + 1 && s'.sent[..|s.sent|] == s.sent
                                   && s'.sent[|s.sent|].primary == p)
    requires forall n :: Handling(s', key, n) ==> Handling(s, key, n)
    ensures Alone(s', key) && Ordered(s', key)
  {
    forall i: nat ensures Flushing(s', key, i) ==> Flushing(s, key, i) {}
    forall q: nat ensures Of(s', key, q) <==> Of(s, key, q) {}
    assert forall x :: 0 <= x < |s.sent| ==> s'.sent[x] == s.sent[x];
  }

  lemma ExtractKeeps(cfg: Config, s: State, k: string, key: string)
    requires Located(cfg, s) && Alone(s, key) && Ordered(s, key) && Enabled(cfg, s, Extract(k))
    requires k == key ==> !InFlight(s, key)
    ensures Alone(Apply(cfg, s, Extract(k)), key) && Ordered(Apply(cfg, s, Extract(k)), key)
  {
    var s', c := Apply(cfg, s, Extract(k)), s.collect;
    FlushBatches(c, k);
    TimerBuffers(c, CollectBuffer.Flush(k), key);
    var next := |c.batches|;
    forall i: nat ensures Flushing(s', key, i) ==> Flushing(s, key, i) || (i == next && k == key) {
      if i < next { assert s'.collect.batches[i] == c.batches[i]; }
    }
    forall q: nat ensures Of(s', key, q) <==> Of(s, key, q) {}
    forall q: nat ensures Handling(s', key, q) ==> Handling(s, key, q) {}
    assert forall i :: 0 <= i < next ==> s'.collect.batches[i] == c.batches[i];
  }

  lemma PublishBatchKeeps(cfg: Config, s: State, batch: nat, ok: bool, key: string)
    requires Located(cfg, s) && Alone(s, key) && Ordered(s, key) && Enabled(cfg, s, PublishBatch(batch, ok))
    ensures Alone(Apply(cfg, s, PublishBatch(batch, ok)), key) && Ordered(Apply(cfg, s, PublishBatch(batch, ok)), key)
  {
    var s' := Apply(cfg, s, PublishBatch(batch, ok));
    var p := Last(s.collect.batches[batch].msgs);
    assert InBatch(s, batch, p);
    forall n: nat ensures Handling(s', key, n) ==> Handling(s, key, n) {}
    if !ok || s.collect.batches[batch].key != key {
      PublishElsewhere(s, s', key, p);
    } else {
      assert Flushing(s, key, batch);
      forall i: nat ensures Flushing(s', key, i) ==> Flushing(s, key, i) && i != batch {}
      forall q: nat ensures Of(s', key, q) <==> Of(s, key, q) {}
      forall x: nat | x < |s.sent| && Of(s, key, s.sent[x].primary) ensures s.sent[x].primary < p {
        assert p in s.collect.batches[batch].msgs;
      }
    }
  }

  lemma SerialStep(cfg: Config, s: State, l: Label, key: string)
    requires Located(cfg, s) && Alone(s, key) && Ordered(s, key) && Enabled(cfg, s, l)
    requires Starts(l, key) ==> !InFlight(s, key)
    ensures Alone(Apply(cfg, s, l), key) && Ordered(Apply(cfg, s, l), key)
  {
    match l
    case Register(m, createdAt) => RegisterKeeps(cfg, s, m, createdAt, key);
    case Decide(_, _, _) => QuietStep(s, Apply(cfg, s, l), key);
    case Enqueue(n) => EnqueueKeeps(cfg, s, n, key);
    case Publish(n, ok) => PublishKeeps(cfg, s, n, ok, key);
    case Timer(t) =>
      TimerBuffers(s.collect, t, key);
      QuietStep(s, Apply(cfg, s, l), key);
    case Extract(k) => ExtractKeeps(cfg, s, k, key);
    case PublishBatch(batch, ok) => PublishBatchKeeps(cfg, s, batch, ok, key);
    case TerminalEvent(_, _) => QuietStep(s, Apply(cfg, s, l), key);
  }

  lemma {:induction false} SerialReachable(cfg: Config, run: seq<Label>, key: string)
    requires Serial(cfg, run, key)
    ensures Alone(Exec(cfg, run), key) && Ordered(Exec(cfg, run), key)
  {
    if run != [] {
      SerialReachable(cfg, DropLast(run), key);
      Reachable(cfg, DropLast(run));
      if Enabled(cfg, Exec(cfg, DropLast(run)), Last(run)) {
        SerialStep(cfg, Exec(cfg, DropLast(run)), Last(run), key);
      }
    }
  }

  // ---------------------------------------------------------------- theorems

  ghost function RouteOfItem(s: State, x: nat): string
    requires x < |s.sent|
  {
    if s.sent[x].primary < |s.inbound| then RouteOf(s.inbound[s.sent[x].primary]) else ""
  }

  /** The agent answers the items of the session in the order they were published. */
  ghost predicate AnswersInOrder(s: State, k: string) {
    forall i: nat, j: nat | i < j < |s.terminals| && IsAnswer(s.terminals[i], k) && IsAnswer(s.terminals[j], k) ::
      s.terminals[i].answers.value < s.terminals[j].answers.value
  }

  /**
   Without overlap and with answers in order nothing is overtaken, and the shift is the unanswered less the
   surplus.
   */
  lemma {:induction false} NoOverlapNoOvertaking(cfg: Config, run: seq<Label>, n: nat)
    requires Delivered(Exec(cfg, run), n)
    requires var s := Exec(cfg, run);
             && AnswersInOrder(s, s.terminals[n].session)
             && Serial(cfg, run, RouteOfItem(s, s.terminals[n].answers.value))
    ensures var s := Exec(cfg, run);
            var t, before := s.terminals[n], s.terminals[..n];
            var p, g := s.sent[t.answers.value].primary, t.got.value;
            && Overtakers(s, before, t.session, p) == {}
            && Place(s.inbound, t.session, p) - Place(s.inbound, t.session, g)
               == |Unanswered(s, before, t.session, p)| - Surplus(before, t.session) + Misses(before, t.session)
  {
    var s := Exec(cfg, run);
    var t := s.terminals[n];
    var p := s.sent[t.answers.value].primary;
    Reachable(cfg, run);
    PrimaryKnown(cfg, s, t.answers.value);
    SerialReachable(cfg, run, RouteOf(s.inbound[p]));
    forall q | q in AnsweredSet(s, s.terminals[..n], t.session) ensures q < p {
      AnsweredEarlier(cfg, s, n, q, RouteOf(s.inbound[p]));
    }
    Shift(cfg, run, n);
  }

  lemma AnsweredEarlier(cfg: Config, s: State, n: nat, q: nat, key: string)
    requires Inv(cfg, s) && Delivered(s, n) && AnswersInOrder(s, s.terminals[n].session) && Ordered(s, key)
    requires var p := s.sent[s.terminals[n].answers.value].primary; p < |s.inbound| && RouteOf(s.inbound[p]) == key
    requires q in AnsweredSet(s, s.terminals[..n], s.terminals[n].session)
    ensures q < s.sent[s.terminals[n].answers.value].primary
  {
    var t := s.terminals[n];
    var item := t.answers.value;
    var p := s.sent[item].primary;
    var i :| 0 <= i < n && IsAnswer(s.terminals[i], t.session) && s.terminals[i].answers.value < |s.sent|
             && s.sent[s.terminals[i].answers.value].primary == q;
    AnsweredOfSession(cfg, s, t.session, n, q);
    assert SessionOfItem(s, item) == t.session;
    SameSessionSameRoute(s.inbound[q], s.inbound[p]);
    assert Of(s, key, q) && Of(s, key, p);
    assert IsAnswer(t, t.session) && s.terminals[i].answers.value < item;
  }

  lemma SameSessionSameRoute(a: Inbound, b: Inbound)
    requires WellNamed(a) && WellNamed(b) && SessionOf(a) == SessionOf(b)
    ensures RouteOf(a) == RouteOf(b)
  {
    SessionKey.ColonFreeRoundTrip(a.userId, a.channelType, a.sessionId);
    SessionKey.ColonFreeRoundTrip(b.userId, b.channelType, b.sessionId);
  }

  // ---------------------------------------------------------------- with overlap

  ghost predicate Reached(cfg: Config, s: State) { exists run :: Exec(cfg, run) == s }

  lemma ReachedStep(cfg: Config, s: State, l: Label) returns (s': State)
    requires Reached(cfg, s) && Enabled(cfg, s, l)
    ensures s' == Apply(cfg, s, l) && Reached(cfg, s')
  {
    var run :| Exec(cfg, run) == s;
    assert DropLast(run + [l]) == run;
    s' := Exec(cfg, run + [l]);
  }

  // The deduplicator takes neither for the other.
  predicate Distinguished(m: Inbound, m': Inbound) { Tracked(m) && Tracked(m') ==> DedupKey(m) != DedupKey(m') }

  lemma TwoRegistered(cfg: Config, m: Inbound, m': Inbound) returns (s: State)
    requires WellNamed(m) && WellNamed(m') && SessionOf(m) == SessionOf(m')
    ensures Reached(cfg, s) && s.inbound == [m, m'] && s.fates == [Registered, Registered]
    ensures s.sent == [] && s.terminals == [] && s.accepted == [] && s.clock == 0
    ensures Origins(Registry.QueueOf(s.queues, SessionOf(m))) == [0, 1]
  {
    assert Exec(cfg, []) == Init();
    s := ReachedStep(cfg, Init(), Register(m, 0));
    s := ReachedStep(cfg, s, Register(m', 0));
  }

  // Two messages of one session are registered and accepted.
  lemma TwoAccepted(cfg: Config, m: Inbound, m': Inbound) returns (s: State)
    requires WellNamed(m) && WellNamed(m') && SessionOf(m) == SessionOf(m') && Distinguished(m, m')
    ensures Reached(cfg, s) && s.inbound == [m, m'] && s.fates == [Accepted, Accepted]
    ensures s.sent == [] && s.terminals == []
    ensures Origins(Registry.QueueOf(s.queues, SessionOf(m))) == [0, 1]
  {
    s := TwoRegistered(cfg, m, m');
    s := ReachedStep(cfg, s, Decide(0, 0, 0));
    s := ReachedStep(cfg, s, Decide(1, 0, 0));
  }

  lemma PublishedBackwards(cfg: Config, m: Inbound, m': Inbound) returns (s: State)
    requires WellNamed(m) && WellNamed(m') && SessionOf(m) == SessionOf(m') && Distinguished(m, m')
    requires !Collects(cfg, m) && !Collects(cfg, m')
    ensures Reached(cfg, s) && s.inbound == [m, m'] && s.fates == [Published(1), Published(0)]
    ensures s.sent == [Item(1, [1], None), Item(0, [0], None)] && s.terminals == []
    ensures Origins(Registry.QueueOf(s.queues, SessionOf(m))) == [0, 1]
  {
    s := TwoAccepted(cfg, m, m');
    s := ReachedStep(cfg, s, Publish(1, true));
    s := ReachedStep(cfg, s, Publish(0, true));
  }

  /**
   Any two messages of one session that are not duplicates, whatever the configuration and unless their channel
   collects:
   the second one's handler publishes first. No message is suppressed, lost or unanswered and the agent answers in
   order,
   yet each response goes out with the other's context.
   */
  lemma ResponsesCanCross(cfg: Config, m: Inbound, m': Inbound) returns (s: State)
    requires WellNamed(m) && WellNamed(m') && SessionOf(m) == SessionOf(m') && Distinguished(m, m')
    requires !Collects(cfg, m) && !Collects(cfg, m')
    ensures Reached(cfg, s) && s.inbound == [m, m'] && s.fates == [Published(1), Published(0)]
    ensures AnswersInOrder(s, SessionOf(m)) && Delivered(s, 0) && Delivered(s, 1)
    ensures s.sent[s.terminals[0].answers.value].primary == 1 && s.terminals[0].got == Some(0)
    ensures s.sent[s.terminals[1].answers.value].primary == 0 && s.terminals[1].got == Some(1)
    ensures Unanswered(s, s.terminals[..1], SessionOf(m), 0) == {}
    ensures Overtakers(s, s.terminals[..1], SessionOf(m), 0) == {1}
  {
    var k := SessionOf(m);
    var s0 := PublishedBackwards(cfg, m, m');
    assert Origins(Registry.QueueOf(s0.queues, k))[0] == 0 && Origins(Registry.QueueOf(s0.queues, k))[1] == 1;
    var s1 := ReachedStep(cfg, s0, TerminalEvent(k, Some(0)));
    s := ReachedStep(cfg, s1, TerminalEvent(k, Some(1)));
    var t0 := s.terminals[..1];
    assert t0 == [s.terminals[0]] && IsAnswer(t0[0], k);
    assert AnsweredSet(s, t0, k) == {1};
  }
}
