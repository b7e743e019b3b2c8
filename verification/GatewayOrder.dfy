/** What every run of the gateway keeps. */
module GatewayOrder {
  import opened Common
  import opened Gateway
  import Registry
  import CollectBuffer

  // ---------------------------------------------------------------- queue order

  // What was delivered, then what is queued, is what was registered.
  ghost predicate Fifo(s: State, k: string) {
    Gots(s.terminals, k) + Origins(Registry.QueueOf(s.queues, k)) == Serials(s.inbound, k)
  }

  lemma RegisterFifo(s: State, m: Inbound, createdAt: int, k: string)
    requires Fifo(s, k)
    ensures var e := Registry.Entry(m.context, |s.inbound|, createdAt);
            var queues := Registry.Registered(s.queues, SessionOf(m), e);
            Gots(s.terminals, k) + Origins(Registry.QueueOf(queues, k)) == Serials(s.inbound + [m], k)
  {
    assert DropLast(s.inbound + [m]) == s.inbound;
    if SessionOf(m) == k {
      var served, q, n := Gots(s.terminals, k), Registry.QueueOf(s.queues, k), |s.inbound|;
      assert Origins(q + [Registry.Entry(m.context, n, createdAt)]) == Origins(q) + [n];
      assert served + (Origins(q) + [n]) == (served + Origins(q)) + [n];
    }
  }

  lemma TerminalFifo(s: State, session: string, answers: Option<nat>, k: string)
    requires Fifo(s, k)
    ensures var q := Registry.QueueOf(s.queues, session);
            var t := Terminal(session, answers, if q == [] then None else Some(q[0].origin));
            Gots(s.terminals + [t], k) + Origins(Registry.QueueOf(Registry.Consumed(s.queues, session), k))
            == Serials(s.inbound, k)
  {
    var q := Registry.QueueOf(s.queues, session);
    var t := Terminal(session, answers, if q == [] then None else Some(q[0].origin));
    assert DropLast(s.terminals + [t]) == s.terminals;
    if session == k && q != [] {
      var served, first, rest := Gots(s.terminals, k), q[0].origin, Origins(q[1..]);
      assert Origins(q) == [first] + rest;
      assert (served + [first]) + rest == served + ([first] + rest);
    }
  }

  lemma FifoStep(cfg: Config, s: State, l: Label, k: string)
    requires Fifo(s, k) && Enabled(cfg, s, l)
    ensures Fifo(Apply(cfg, s, l), k)
  {
    match l
    case Register(m, createdAt) => RegisterFifo(s, m, createdAt, k);
    case TerminalEvent(session, answers) => TerminalFifo(s, session, answers, k);
    case _ =>
  }

  // ---------------------------------------------------------------- the contexts queued

  /** The entry carries the delivery context of the message that registered it, and waits in that message's queue. */
  ghost predicate EntryRight(s: State, k: string, e: Registry.Entry) {
    e.origin < |s.inbound| && e.context == s.inbound[e.origin].context && SessionOf(s.inbound[e.origin]) == k
  }

  ghost predicate EntriesRight(s: State) {
    forall k, i | 0 <= i < |Registry.QueueOf(s.queues, k)| :: EntryRight(s, k, Registry.QueueOf(s.queues, k)[i])
  }

  lemma EntriesStep(cfg: Config, s: State, l: Label)
    requires EntriesRight(s) && Enabled(cfg, s, l)
    ensures EntriesRight(Apply(cfg, s, l))
  {
    var s' := Apply(cfg, s, l);
    forall k, i | 0 <= i < |Registry.QueueOf(s'.queues, k)|
      ensures EntryRight(s', k, Registry.QueueOf(s'.queues, k)[i])
    {
      var q, q' := Registry.QueueOf(s.queues, k), Registry.QueueOf(s'.queues, k);
      if l.TerminalEvent? && l.session == k {
        assert q'[i] == q[i + 1] && EntryRight(s, k, q[i + 1]);
      } else if i < |q| {
        assert q'[i] == q[i] && EntryRight(s, k, q[i]);
      }
    }
  }

  /** In every run each queued context is that of the message that registered it. */
  lemma {:induction false} ContextsAreTheirMessages(cfg: Config, run: seq<Label>)
    ensures EntriesRight(Exec(cfg, run))
  {
    if run != [] {
      ContextsAreTheirMessages(cfg, DropLast(run));
      if Enabled(cfg, Exec(cfg, DropLast(run)), Last(run)) {
        EntriesStep(cfg, Exec(cfg, DropLast(run)), Last(run));
      }
    }
  }

  // ---------------------------------------------------------------- what has become of each message

  ghost predicate WaitsIn(cfg: Config, s: State, key: string, m: nat) {
    m < |s.inbound| && HasFate(s, m, Buffered) && key == RouteOf(s.inbound[m]) && Collects(cfg, s.inbound[m])
  }

  ghost predicate BufferedRight(cfg: Config, s: State) {
    forall key, m | m in CollectBuffer.Buffered(s.collect, key) :: WaitsIn(cfg, s, key, m)
  }

  ghost predicate InBatch(s: State, i: nat, m: nat) {
    i < |s.collect.batches| && HasFate(s, m, Batched(i)) && RouteOf(s.inbound[m]) == s.collect.batches[i].key
  }

  ghost predicate BatchesRight(s: State) {
    forall i: nat, m | i < |s.collect.batches| && m in s.collect.batches[i].msgs :: InBatch(s, i, m)
  }

  // An item is one message published on its own, or a whole batch that is no longer outgoing.
  ghost predicate ItemRight(s: State, x: nat)
    requires x < |s.sent|
  {
    match s.sent[x].batch
    case None => s.sent[x].msgs == [s.sent[x].primary] && HasFate(s, s.sent[x].primary, Published(x))
    case Some(i) =>
      && i < |s.collect.batches| && i !in s.outgoing && s.sent[x].msgs == s.collect.batches[i].msgs != []
      && s.sent[x].primary == Last(s.sent[x].msgs)
  }

  ghost predicate SentRight(s: State) {
    && (forall x: nat | x < |s.sent| :: ItemRight(s, x))
    && (forall x: nat, y: nat | x < y < |s.sent| && s.sent[x].batch.Some? :: s.sent[x].batch != s.sent[y].batch)
    && (forall i | i in s.outgoing :: i < |s.collect.batches|)
  }

  ghost predicate Located(cfg: Config, s: State) {
    && |s.fates| == |s.inbound|
    && (forall m <- s.inbound :: WellNamed(m))
    && BufferedRight(cfg, s) && BatchesRight(s) && SentRight(s)
  }

  // Enqueueing adds the message to its own buffer; nothing else is buffered anew by any step.
  lemma EnqueueBuffers(c: CollectBuffer.State, key: string, n: nat, cap: nat, priority: int, k: string)
    requires cap > 0
    ensures var c' := CollectBuffer.Step(c, CollectBuffer.Enqueue(key, n, cap, priority));
            && CollectBuffer.Buffered(c', k) == CollectBuffer.Buffered(c, k) + (if k == key then [n] else [])
            && c'.batches == c.batches
  {
  }

  lemma TimerBuffers(c: CollectBuffer.State, l: CollectBuffer.Label, k: string)
    requires CollectBuffer.Enabled(c, l) && !l.Enqueue?
    ensures var c' := CollectBuffer.Apply(c, l);
            && CollectBuffer.Buffered(c', k) == (if l.Flush? && k == l.key then [] else CollectBuffer.Buffered(c, k))
            && (!l.Flush? ==> c'.batches == c.batches)
  {
  }

  lemma FlushBatches(c: CollectBuffer.State, key: string)
    requires CollectBuffer.Enabled(c, CollectBuffer.Flush(key))
    ensures var c', msgs := CollectBuffer.Apply(c, CollectBuffer.Flush(key)), CollectBuffer.Buffered(c, key);
            if msgs == [] then c'.batches == c.batches
            else |c'.batches| == |c.batches| + 1 && c.batches == c'.batches[..|c.batches|]
                 && c'.batches[|c.batches|].key == key && c'.batches[|c.batches|].msgs == msgs
  {
  }

  lemma NoEmptyBuffer(run: seq<CollectBuffer.Label>, key: string)
    ensures var c := CollectBuffer.Exec(run); key in c.buffers ==> c.buffers[key].msgs != []
  {
    CollectBuffer.NothingIsLostOrReordered(run);
    assert var c := CollectBuffer.Exec(run); key in c.buffers ==> CollectBuffer.WillFlush(c, key);
  }

  // A message moves on inside its handler, or joins the inbound: nothing buffered, batched or sent is concerned.
  lemma HandlerMoves(cfg: Config, s: State, s': State, n: nat)
    requires Located(cfg, s) && s'.collect == s.collect && s'.sent == s.sent && s'.outgoing == s.outgoing
    requires s.inbound <= s'.inbound && |s'.fates| == |s'.inbound| && forall m <- s'.inbound :: WellNamed(m)
    requires forall m: nat | m < |s.fates| && m != n :: s'.fates[m] == s.fates[m]
    requires n < |s.fates| ==> s.fates[n].Registered? || s.fates[n].Accepted?
    ensures Located(cfg, s')
  {
    forall key, b | b in CollectBuffer.Buffered(s.collect, key) ensures WaitsIn(cfg, s', key, b) {
      assert WaitsIn(cfg, s, key, b);
    }
    forall i: nat, m | i < |s.collect.batches| && m in s.collect.batches[i].msgs ensures InBatch(s', i, m) {
      assert InBatch(s, i, m);
    }
    forall x: nat | x < |s'.sent| ensures ItemRight(s', x) { assert ItemRight(s, x); }
  }

  lemma EnqueueMoves(cfg: Config, s: State, n: nat)
    requires Located(cfg, s) && Enabled(cfg, s, Enqueue(n))
    ensures Located(cfg, Apply(cfg, s, Enqueue(n)))
  {
    var s' := Apply(cfg, s, Enqueue(n));
    var m := s.inbound[n];
    var cap, priority := CollectCapFor(cfg, m.channelType), QueueModeFor(cfg, m.channelType).1;
    forall key, b | b in CollectBuffer.Buffered(s'.collect, key) ensures WaitsIn(cfg, s', key, b) {
      EnqueueBuffers(s.collect, RouteOf(m), n, cap, priority, key);
      if b in CollectBuffer.Buffered(s.collect, key) { assert WaitsIn(cfg, s, key, b); }
    }
    EnqueueBuffers(s.collect, RouteOf(m), n, cap, priority, "");
    forall i: nat, b | i < |s.collect.batches| && b in s.collect.batches[i].msgs ensures InBatch(s', i, b) {
      assert InBatch(s, i, b);
    }
    forall x: nat | x < |s'.sent| ensures ItemRight(s', x) { assert ItemRight(s, x); }
  }

  lemma PublishMoves(cfg: Config, s: State, n: nat, ok: bool)
    requires Located(cfg, s) && Enabled(cfg, s, Publish(n, ok))
    ensures Located(cfg, Apply(cfg, s, Publish(n, ok)))
  {
    var s' := Apply(cfg, s, Publish(n, ok));
    forall key, b | b in CollectBuffer.Buffered(s'.collect, key) ensures WaitsIn(cfg, s', key, b) {
      assert WaitsIn(cfg, s, key, b);
    }
    forall i: nat, m | i < |s.collect.batches| && m in s.collect.batches[i].msgs ensures InBatch(s', i, m) {
      assert InBatch(s, i, m);
    }
    forall x: nat | x < |s'.sent| ensures ItemRight(s', x) {
      if x < |s.sent| { assert ItemRight(s, x); }
    }
  }

  lemma ExtractBuffers(cfg: Config, s: State, key: string)
    requires Located(cfg, s) && Enabled(cfg, s, Extract(key))
    ensures var s' := Apply(cfg, s, Extract(key)); BufferedRight(cfg, s') && BatchesRight(s')
  {
    var s', c := Apply(cfg, s, Extract(key)), s.collect;
    FlushBatches(c, key);
    forall k, b | b in CollectBuffer.Buffered(s'.collect, k) ensures WaitsIn(cfg, s', k, b) {
      TimerBuffers(c, CollectBuffer.Flush(key), k);
      assert WaitsIn(cfg, s, k, b);
      assert k != key && b !in CollectBuffer.Buffered(c, key);
    }
    forall i: nat, m | i < |s'.collect.batches| && m in s'.collect.batches[i].msgs ensures InBatch(s', i, m) {
      if i < |c.batches| {
        assert s'.collect.batches[i] == c.batches[i] && InBatch(s, i, m);
        assert m !in CollectBuffer.Buffered(c, key);
      } else {
        assert WaitsIn(cfg, s, key, m);
      }
    }
  }

  lemma ExtractSent(cfg: Config, s: State, key: string)
    requires Located(cfg, s) && Enabled(cfg, s, Extract(key))
    ensures SentRight(Apply(cfg, s, Extract(key)))
  {
    var s', c := Apply(cfg, s, Extract(key)), s.collect;
    FlushBatches(c, key);
    forall x: nat | x < |s'.sent| ensures ItemRight(s', x) {
      assert ItemRight(s, x);
      var p := s.sent[x].primary;
      assert s.sent[x].batch.None? ==> p !in CollectBuffer.Buffered(c, key);
      if s.sent[x].batch.Some? { assert s'.collect.batches[s.sent[x].batch.value] == c.batches[s.sent[x].batch.value]; }
    }
  }

  lemma PublishBatchMoves(cfg: Config, s: State, batch: nat, ok: bool)
    requires Located(cfg, s) && Enabled(cfg, s, PublishBatch(batch, ok))
    ensures Located(cfg, Apply(cfg, s, PublishBatch(batch, ok)))
  {
    var s' := Apply(cfg, s, PublishBatch(batch, ok));
    forall key, b | b in CollectBuffer.Buffered(s'.collect, key) ensures WaitsIn(cfg, s', key, b) {
      assert WaitsIn(cfg, s, key, b);
    }
    forall i: nat, m | i < |s'.collect.batches| && m in s'.collect.batches[i].msgs ensures InBatch(s', i, m) {
      assert InBatch(s, i, m);
    }
    forall x: nat | x < |s'.sent|
      ensures ItemRight(s', x) && (x < |s.sent| ==> s.sent[x].batch != Some(batch))
    {
      if x < |s.sent| { assert ItemRight(s, x); }
    }
  }

  lemma TimerMoves(cfg: Config, s: State, l: CollectBuffer.Label)
    requires Located(cfg, s) && Enabled(cfg, s, Timer(l))
    ensures Located(cfg, Apply(cfg, s, Timer(l)))
  {
    var s' := Apply(cfg, s, Timer(l));
    forall key, b | b in CollectBuffer.Buffered(s'.collect, key) ensures WaitsIn(cfg, s', key, b) {
      TimerBuffers(s.collect, l, key);
      assert WaitsIn(cfg, s, key, b);
    }
    TimerBuffers(s.collect, l, "");
    forall x: nat | x < |s'.sent| ensures ItemRight(s', x) { assert ItemRight(s, x); }
    forall i: nat, m | i < |s'.collect.batches| && m in s'.collect.batches[i].msgs ensures InBatch(s', i, m) {
      assert InBatch(s, i, m);
    }
  }

  lemma LocatedStep(cfg: Config, s: State, l: Label)
    requires Located(cfg, s) && Enabled(cfg, s, l)
    ensures Located(cfg, Apply(cfg, s, l))
  {
    match l
    case Register(_, _) => HandlerMoves(cfg, s, Apply(cfg, s, l), |s.inbound|);
    case Decide(n, _, _) => HandlerMoves(cfg, s, Apply(cfg, s, l), n);
    case Enqueue(n) => EnqueueMoves(cfg, s, n);
    case Publish(n, ok) => PublishMoves(cfg, s, n, ok);
    case Timer(t) => TimerMoves(cfg, s, t);
    case Extract(key) =>
      ExtractBuffers(cfg, s, key);
      ExtractSent(cfg, s, key);
    case PublishBatch(batch, ok) => PublishBatchMoves(cfg, s, batch, ok);
    case TerminalEvent(_, _) => HandlerMoves(cfg, s, Apply(cfg, s, l), |s.inbound|);
  }

  // ---------------------------------------------------------------- the answers

  ghost function SessionOfItem(s: State, x: nat): string
    requires x < |s.sent|
  {
    if s.sent[x].primary < |s.inbound| then SessionOf(s.inbound[s.sent[x].primary]) else ""
  }

  ghost predicate AnswersOnce(s: State) {
    && (forall i: nat | i < |s.terminals| && s.terminals[i].answers.Some? ::
          && s.terminals[i].answers.value < |s.sent|
          && SessionOfItem(s, s.terminals[i].answers.value) == s.terminals[i].session)
    && (forall i: nat, j: nat | i < j < |s.terminals| && s.terminals[i].answers.Some? ::
          s.terminals[i].answers != s.terminals[j].answers)
  }

  lemma HistoryGrows(cfg: Config, s: State, l: Label)
    requires Enabled(cfg, s, l)
    ensures s.sent <= Apply(cfg, s, l).sent && s.inbound <= Apply(cfg, s, l).inbound
    ensures !l.TerminalEvent? ==> Apply(cfg, s, l).terminals == s.terminals
  {
  }

  lemma AnswersStep(cfg: Config, s: State, l: Label)
    requires Located(cfg, s) && AnswersOnce(s) && Enabled(cfg, s, l)
    ensures AnswersOnce(Apply(cfg, s, l))
  {
    var s' := Apply(cfg, s, l);
    HistoryGrows(cfg, s, l);
    forall x: nat | x < |s.sent| ensures SessionOfItem(s', x) == SessionOfItem(s, x) {
      PrimaryKnown(cfg, s, x);
    }
    if l.TerminalEvent? { assert l.answers.Some? ==> Answerable(s, l.session, l.answers.value); }
  }

  // ---------------------------------------------------------------- all runs

  ghost predicate Inv(cfg: Config, s: State) {
    (forall k :: Fifo(s, k)) && Located(cfg, s) && AnswersOnce(s)
  }

  lemma StepKeepsInv(cfg: Config, s: State, l: Label)
    requires Inv(cfg, s)
    ensures Inv(cfg, Step(cfg, s, l))
  {
    if Enabled(cfg, s, l) {
      forall k ensures Fifo(Apply(cfg, s, l), k) { assert Fifo(s, k); FifoStep(cfg, s, l, k); }
      LocatedStep(cfg, s, l);
      AnswersStep(cfg, s, l);
    }
  }

  lemma {:induction false} Reachable(cfg: Config, run: seq<Label>)
    ensures Inv(cfg, Exec(cfg, run))
  {
    if run == [] {
      assert forall k :: Fifo(Init(), k);
    } else {
      Reachable(cfg, DropLast(run));
      StepKeepsInv(cfg, Exec(cfg, DropLast(run)), Last(run));
    }
  }

  // ---------------------------------------------------------------- consequences

  lemma PrimaryKnown(cfg: Config, s: State, x: nat)
    requires Located(cfg, s) && x < |s.sent|
    ensures s.sent[x].primary < |s.inbound|
  {
    assert ItemRight(s, x);
    if s.sent[x].batch.Some? { assert InBatch(s, s.sent[x].batch.value, s.sent[x].primary); }
  }

  /** No message is the primary of two items. */
  lemma PrimariesDiffer(cfg: Config, s: State, x: nat, y: nat)
    requires Located(cfg, s) && x < y < |s.sent|
    ensures s.sent[x].primary != s.sent[y].primary
  {
    assert ItemRight(s, x) && ItemRight(s, y);
    if s.sent[x].batch.Some? { assert InBatch(s, s.sent[x].batch.value, s.sent[x].primary); }
    if s.sent[y].batch.Some? { assert InBatch(s, s.sent[y].batch.value, s.sent[y].primary); }
  }

  lemma FateIsFinal(cfg: Config, s: State, l: Label, n: nat)
    requires Located(cfg, s) && HasFate(s, n, Suppressed)
    ensures HasFate(Step(cfg, s, l), n, Suppressed)
  {
    assert l.Extract? ==> n !in CollectBuffer.Buffered(s.collect, l.key);
  }

  /** A suppressed duplicate is in no item, then or after any number of further steps. */
  lemma {:induction false} SuppressedIsNeverSent(cfg: Config, run: seq<Label>, more: seq<Label>, n: nat)
    requires HasFate(Exec(cfg, run), n, Suppressed)
    ensures HasFate(Exec(cfg, run + more), n, Suppressed)
    ensures forall x: nat | x < |Exec(cfg, run + more).sent| :: n !in Exec(cfg, run + more).sent[x].msgs
  {
    if more == [] {
      assert run + more == run;
      Reachable(cfg, run);
    } else {
      SuppressedIsNeverSent(cfg, run, DropLast(more), n);
      assert DropLast(run + more) == run + DropLast(more);
      Reachable(cfg, run + DropLast(more));
      Reachable(cfg, run + more);
      FateIsFinal(cfg, Exec(cfg, run + DropLast(more)), Last(more), n);
    }
    var s := Exec(cfg, run + more);
    forall x: nat | x < |s.sent| ensures n !in s.sent[x].msgs {
      assert ItemRight(s, x);
      assert s.sent[x].batch.Some? && n in s.sent[x].msgs ==> InBatch(s, s.sent[x].batch.value, n);
    }
  }
}
