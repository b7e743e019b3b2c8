/**
 The router's handlers, flush goroutines and timers, and the consuming end of the dispatcher, as methods over the
 registry, the deduplicator and the collect buffers. Each method up to Interfere is one mutex-protected body, or one
 call of the broker, and is proved to be one step of the pipeline; HandleNormalizedMessage and FlushCollectBuffer are
 made of them, with any steps of other goroutines in between. So the theorems about runs hold of every interleaving.
 */
module GatewayRouter {
  import opened Common
  import opened Gateway
  import GatewayOrder
  import GatewayDedup
  import Registry
  import Dedup
  import CollectBuffer

  const CHANNEL_TYPE_CRON: string := "cron"

  datatype Outcome = GuardFailed | Rejected | NoSession | Duplicate | Collected | NotPublished | Sent

  // What the handler of message `n` may rely on while other goroutines run: its own message stays where it is.
  ghost predicate Rely(n: nat, s: State, s': State) {
    n < |s.inbound| && s.inbound <= s'.inbound && n < |s.fates| && HasFate(s', n, s.fates[n])
  }

  predicate Handled(s: State, n: nat) { HasFate(s, n, Registered) || HasFate(s, n, Accepted) }

  predicate StepOf(l: Label, n: nat) {
    match l
    case Decide(i, _, _) => i == n
    case Enqueue(i) => i == n
    case Publish(i, _) => i == n
    case _ => false
  }

  lemma OthersKeepRely(cfg: Config, s: State, l: Label, n: nat)
    requires GatewayOrder.Located(cfg, s) && Handled(s, n) && !StepOf(l, n) && Enabled(cfg, s, l)
    ensures Rely(n, s, Apply(cfg, s, l))
  {
    assert l.Extract? ==> n !in CollectBuffer.Buffered(s.collect, l.key);
  }

  predicate Seen(cfg: Config, accepted: seq<Dedup.Accepted>, m: Inbound, now: int) {
    Tracked(m) && Dedup.SeenWithin(accepted, cfg.dedupWindow, DedupKey(m), now)
  }

  function Noted(cfg: Config, accepted: seq<Dedup.Accepted>, m: Inbound, now: int, later: int): seq<Dedup.Accepted> {
    if Seen(cfg, accepted, m, now) || !Tracked(m) then accepted
    else accepted + [Dedup.Accepted(DedupKey(m), now, later)]
  }

  // The two larger steps, field by field.
  lemma DecideStep(cfg: Config, run: seq<Label>, n: nat, now: int, later: int)
    requires Enabled(cfg, Exec(cfg, run), Decide(n, now, later))
    ensures var s, s' := Exec(cfg, run), Exec(cfg, run + [Decide(n, now, later)]);
            var duplicate := Seen(cfg, s.accepted, s.inbound[n], now);
            s' == s.(fates := s.fates[n := if duplicate then Suppressed else Accepted], clock := later,
                     accepted := Noted(cfg, s.accepted, s.inbound[n], now, later))
  {
    assert DropLast(run + [Decide(n, now, later)]) == run;
  }

  lemma ExtractStep(cfg: Config, run: seq<Label>, key: string)
    requires Enabled(cfg, Exec(cfg, run), Extract(key))
    ensures var s, s' := Exec(cfg, run), Exec(cfg, run + [Extract(key)]);
            var msgs, batch := CollectBuffer.Buffered(s.collect, key), |s.collect.batches|;
            && s'.collect == CollectBuffer.Apply(s.collect, CollectBuffer.Flush(key))
            && s' == s.(collect := s'.collect, fates := s'.fates, outgoing := s'.outgoing)
            && s.collect.batches <= s'.collect.batches
            && (if msgs == [] then
                  s'.fates == s.fates && s'.outgoing == s.outgoing && |s'.collect.batches| == batch
                else
                  && s'.fates == Extracted(s.fates, msgs, batch) && s'.outgoing == s.outgoing + {batch}
                  && |s'.collect.batches| == batch + 1 && s'.collect.batches[batch].msgs == msgs)
  {
    assert DropLast(run + [Extract(key)]) == run;
    GatewayOrder.FlushBatches(Exec(cfg, run).collect, key);
  }

  ghost predicate BatchesShown(outgoing: map<nat, seq<nat>>, extracted: nat, s: State) {
    && outgoing.Keys == s.outgoing && extracted == |s.collect.batches|
    && forall i <- outgoing :: i < |s.collect.batches| && outgoing[i] == s.collect.batches[i].msgs
  }

  // Everything but the buffers, fates and batches stays, and so do fates and batches if there was no buffer.
  lemma ExtractNothing(cfg: Config, run: seq<Label>, key: string, outgoing: map<nat, seq<nat>>, extracted: nat)
    requires var s := Exec(cfg, run);
             && Enabled(cfg, s, Extract(key)) && CollectBuffer.Buffered(s.collect, key) == []
             && BatchesShown(outgoing, extracted, s)
    ensures var s, s' := Exec(cfg, run), Exec(cfg, run + [Extract(key)]);
            && s' == s.(collect := CollectBuffer.Apply(s.collect, CollectBuffer.Flush(key)))
            && BatchesShown(outgoing, extracted, s')
  {
    ExtractStep(cfg, run, key);
  }

  lemma ExtractBatch(cfg: Config, run: seq<Label>, key: string, outgoing: map<nat, seq<nat>>, extracted: nat)
    requires var s := Exec(cfg, run);
             && Enabled(cfg, s, Extract(key)) && CollectBuffer.Buffered(s.collect, key) != []
             && BatchesShown(outgoing, extracted, s)
    ensures var s, s' := Exec(cfg, run), Exec(cfg, run + [Extract(key)]);
            var msgs := CollectBuffer.Buffered(s.collect, key);
            && s' == s.(collect := CollectBuffer.Apply(s.collect, CollectBuffer.Flush(key)),
                        fates := Extracted(s.fates, msgs, extracted), outgoing := s.outgoing + {extracted})
            && BatchesShown(outgoing[extracted := msgs], extracted + 1, s')
  {
    ExtractStep(cfg, run, key);
  }

  ghost predicate MessageAt(s: State, n: nat, m: Inbound) { n < |s.inbound| && s.inbound[n] == m }

  /** How the outcome of a handler shows in its message's fate. */
  ghost predicate EndsAs(s: State, n: nat, r: Outcome) {
    n < |s.fates| && match r
      case Duplicate => s.fates[n].Suppressed?
      case Collected => s.fates[n].Buffered?
      case NotPublished => s.fates[n].PublishFailed?
      case Sent => s.fates[n].Published?
      case _ => false
  }

  /** What becomes of an accepted message. */
  ghost function Accepting(cfg: Config, m: Inbound, publishOk: bool): Outcome {
    if GatewayDedup.ChannelCollects(cfg, m.channelType) then Collected else if publishOk then Sent else NotPublished
  }

  ghost predicate DecidedBy(cfg: Config, before: seq<Label>, l: Label, n: nat, m: Inbound, publishOk: bool,
                            r: Outcome) {
    l.Decide? && l.n == n
    && r == if GatewayDedup.RepeatsWithin(cfg, before, m, l.now) then Duplicate else Accepting(cfg, m, publishOk)
  }

  /** At some step of the call the message was tried, and the outcome is that of the trial. */
  ghost predicate Decided(cfg: Config, before: seq<Label>, after: seq<Label>, n: nat, m: Inbound, publishOk: bool,
                          r: Outcome) {
    exists k: nat :: |before| <= k < |after| && DecidedBy(cfg, after[..k], after[k], n, m, publishOk, r)
  }

  lemma DecidedHere(cfg: Config, before: seq<Label>, decided: seq<Label>, after: seq<Label>, n: nat, m: Inbound,
                    publishOk: bool, r: Outcome)
    requires decided != [] && decided <= after && DropLast(decided) == before
    requires DecidedBy(cfg, before, Last(decided), n, m, publishOk, r)
    ensures Decided(cfg, before, after, n, m, publishOk, r)
  {
    assert after[..|before|] == before && after[|before|] == Last(decided);
  }

  lemma DecidedLater(cfg: Config, before: seq<Label>, middle: seq<Label>, after: seq<Label>, later: seq<Label>, n: nat,
                     m: Inbound, publishOk: bool, r: Outcome)
    requires before <= middle <= after <= later && Decided(cfg, middle, after, n, m, publishOk, r)
    ensures Decided(cfg, before, later, n, m, publishOk, r)
  {
    var k: nat :| |middle| <= k < |after| && DecidedBy(cfg, after[..k], after[k], n, m, publishOk, r);
    assert later[..k] == after[..k] && later[k] == after[k];
  }

  predicate TurnedAway(r: Outcome) { r.GuardFailed? || r.Rejected? || r.NoSession? }

  class Router {
    const cfg: Config
    const registry: Registry.Registry
    const dedup: Dedup.Deduplicator
    const collect: CollectBuffer.Router
    var clock: int                          // latest time read
    var inbound: seq<Inbound>
    var fates: seq<Fate>
    var outgoing: map<nat, seq<nat>>        // extracted batches whose goroutine has not published yet
    var extracted: nat                      // number of batches extracted
    var sent: seq<Item>
    var terminals: seq<Terminal>
    ghost var run: seq<Label>

    ghost predicate Valid()
      reads this, registry, dedup, collect
    {
      && registry.Valid() && dedup.Valid() && collect.Valid() && dedup.window == cfg.dedupWindow
      && ShowsParts(Exec(cfg, run)) && ShowsFields(Exec(cfg, run))
    }

    ghost predicate ShowsParts(s: State)
      reads registry, dedup, collect
    {
      && registry.entries == s.queues && dedup.history == s.accepted && dedup.clock == s.clock
      && CollectBuffer.Exec(collect.run) == s.collect
    }

    ghost predicate ShowsFields(s: State)
      reads this
    {
      && clock == s.clock && inbound == s.inbound && fates == s.fates && sent == s.sent && terminals == s.terminals
      && BatchesShown(outgoing, extracted, s)
    }

    constructor (cfg: Config)
      ensures Valid() && run == [] && fresh(registry) && fresh(dedup) && fresh(collect)
    {
      this.cfg := cfg;
      registry := new Registry.Registry();
      dedup := new Dedup.Deduplicator(cfg.dedupWindow, 0);
      collect := new CollectBuffer.Router();
      clock, inbound, fates, outgoing, extracted, sent, terminals, run := 0, [], [], map[], 0, [], [], [];
    }

    // ---------------------------------------------------------------- single steps

    method RegisterMessage(m: Inbound, createdAt: int) returns (n: nat)
      requires Valid() && WellNamed(m)
      modifies this`inbound, this`fates, this`run, registry
      ensures Valid() && run == old(run) + [Register(m, createdAt)] && n == |old(inbound)|
      ensures MessageAt(Exec(cfg, run), n, m) && HasFate(Exec(cfg, run), n, Registered)
    {
      assert DropLast(run + [Register(m, createdAt)]) == run;
      GatewayOrder.Reachable(cfg, run);
      n := |inbound|;
      registry.Register(SessionOf(m), Registry.Entry(m.context, n, createdAt));
      inbound, fates, run := inbound + [m], fates + [Registered], run + [Register(m, createdAt)];
    }

    method CheckDuplicate(n: nat, now: int, later: int) returns (duplicate: bool)
      requires Valid() && n < |inbound| && n < |fates| && fates[n] == Registered && clock <= now <= later
      modifies this`clock, this`fates, this`run, dedup
      ensures Valid() && run == old(run) + [Decide(n, now, later)] && inbound == old(inbound)
      ensures duplicate <==> GatewayDedup.RepeatsWithin(cfg, old(run), inbound[n], now)
      ensures duplicate <==> HasFate(Exec(cfg, run), n, Suppressed)
      ensures !duplicate <==> HasFate(Exec(cfg, run), n, Accepted)
    {
      DecideStep(cfg, run, n, now, later);
      GatewayDedup.SuppressedIffRepeats(cfg, run, n, now, later);
      duplicate := AskDeduplicator(n, now, later);
      clock, fates := later, fates[n := if duplicate then Suppressed else Accepted];
      run := run + [Decide(n, now, later)];
    }

    method AskDeduplicator(n: nat, now: int, later: int) returns (duplicate: bool)
      requires dedup.Valid() && dedup.window == cfg.dedupWindow && n < |inbound| && dedup.clock <= now <= later
      modifies dedup
      ensures dedup.Valid() && dedup.clock == later
      ensures duplicate <==> Seen(cfg, old(dedup.history), inbound[n], now)
      ensures dedup.history == Noted(cfg, old(dedup.history), inbound[n], now, later)
    {
      var m := inbound[n];
      duplicate := dedup.IsDuplicate(m.userId, DedupStrategy(m), DeriveDedupKey(m), now, later);
    }

    method EnqueueCollect(n: nat)
      requires Valid() && n < |inbound| && n < |fates| && fates[n] == Accepted && Collects(cfg, inbound[n])
      modifies this`fates, this`run, collect
      ensures Valid() && run == old(run) + [Enqueue(n)] && HasFate(Exec(cfg, run), n, Buffered)
    {
      assert DropLast(run + [Enqueue(n)]) == run;
      var m := inbound[n];
      var cap := if m.channelType in cfg.perChannel then Some(cfg.perChannel[m.channelType].collectCap) else None;
      ghost var c := collect.run;
      GatewayOrder.EnqueueBuffers(CollectBuffer.Exec(c), RouteOf(m), n, CollectBuffer.CapOf(cap),
                                  QueueModeFor(cfg, m.channelType).1, "");
      collect.EnqueueCollect(m.userId, m.channelType, n, cap, QueueModeFor(cfg, m.channelType).1);
      assert DropLast(collect.run) == c;
      fates, run := fates[n := Buffered], run + [Enqueue(n)];
    }

    method PublishMessage(n: nat, ok: bool)
      requires Valid() && n < |inbound| && n < |fates| && fates[n] == Accepted && !Collects(cfg, inbound[n])
      modifies this`fates, this`sent, this`run
      ensures Valid() && run == old(run) + [Publish(n, ok)]
      ensures HasFate(Exec(cfg, run), n, if ok then Published(|old(sent)|) else PublishFailed)
    {
      assert DropLast(run + [Publish(n, ok)]) == run;
      run := run + [Publish(n, ok)];
      if ok {
        fates, sent := fates[n := Published(|sent|)], sent + [Item(n, [n], None)];
      } else {
        fates := fates[n := PublishFailed];
      }
    }

    /** A debounce timer goes off: that of the current buffer, or one left behind by an extracted buffer. */
    method TimerFires(key: string, ofBuffer: bool)
      requires Valid()
      requires if ofBuffer then key in collect.buffers && collect.buffers[key].armed
               else CollectBuffer.Count(collect.stray, key) > 0
      modifies this`run, collect
      ensures Valid()
      ensures run == old(run) + [Timer(if ofBuffer then CollectBuffer.FireTimer(key) else CollectBuffer.FireStray(key))]
    {
      ghost var c := collect.run;
      ghost var l := if ofBuffer then CollectBuffer.FireTimer(key) else CollectBuffer.FireStray(key);
      assert DropLast(run + [Timer(l)]) == run;
      collect.TimerFires(key, ofBuffer);
      assert DropLast(collect.run) == c;
      GatewayOrder.TimerBuffers(CollectBuffer.Exec(c), l, key);
      run := run + [Timer(l)];
    }

    /** The locked part of a flush goroutine; the number of the batch it took, if the buffer was there. */
    method ExtractBuffer(key: string) returns (batch: Option<nat>)
      requires Valid() && CollectBuffer.Count(collect.pending, key) > 0
      modifies this`outgoing, this`extracted, this`fates, this`run, collect
      ensures Valid() && run == old(run) + [Extract(key)]
      ensures batch.Some? <==> key in old(collect.buffers)
      ensures batch.Some? ==> batch.value in outgoing && outgoing[batch.value] == old(collect.buffers)[key].msgs != []
    {
      if key !in collect.buffers {
        FindNoBuffer(key);
        return None;
      }
      var taken := TakeBuffer(key);
      return Some(taken);
    }

    method FindNoBuffer(key: string)
      requires Valid() && CollectBuffer.Count(collect.pending, key) > 0 && key !in collect.buffers
      modifies this`run, collect
      ensures Valid() && run == old(run) + [Extract(key)]
    {
      ghost var c := collect.run;
      ExtractNothing(cfg, run, key, outgoing, extracted);
      var item := collect.FlushCollectBuffer(key);
      assert DropLast(collect.run) == c;
      run := run + [Extract(key)];
    }

    method TakeBuffer(key: string) returns (batch: nat)
      requires Valid() && CollectBuffer.Count(collect.pending, key) > 0 && key in collect.buffers
      modifies this`outgoing, this`extracted, this`fates, this`run, collect
      ensures Valid() && run == old(run) + [Extract(key)]
      ensures batch in outgoing && outgoing[batch] == old(collect.buffers)[key].msgs != []
    {
      ghost var c := collect.run;
      GatewayOrder.NoEmptyBuffer(c, key);
      ExtractBatch(cfg, run, key, outgoing, extracted);
      var item := collect.FlushCollectBuffer(key);
      assert DropLast(collect.run) == c;
      run := run + [Extract(key)];
      batch := extracted;
      fates := Extracted(fates, item.value.collected, extracted);
      outgoing, extracted := outgoing[extracted := item.value.collected], extracted + 1;
    }

    method PublishBatch(batch: nat, ok: bool)
      requires Valid() && batch in outgoing && outgoing[batch] != []
      modifies this`outgoing, this`sent, this`run
      ensures Valid() && run == old(run) + [Label.PublishBatch(batch, ok)]
    {
      assert DropLast(run + [Label.PublishBatch(batch, ok)]) == run;
      var msgs := outgoing[batch];
      run, outgoing := run + [Label.PublishBatch(batch, ok)], outgoing - {batch};
      if ok { sent := sent + [Item(msgs[|msgs| - 1], msgs, Some(batch))]; }
    }

    /** A done or error event: the context it will be delivered with is the oldest of the session, if there is one. */
    method TakeContext(session: string, answers: Option<nat>) returns (e: Option<Registry.Entry>)
      requires Valid() && Enabled(cfg, Exec(cfg, run), TerminalEvent(session, answers))
      modifies this`terminals, this`run, registry
      ensures Valid() && run == old(run) + [TerminalEvent(session, answers)]
      ensures terminals == old(terminals) + [Terminal(session, answers, if e.None? then None else Some(e.value.origin))]
      ensures e.Some? ==>
                && e.value.origin < |inbound|
                && e.value.context == inbound[e.value.origin].context && SessionOf(inbound[e.value.origin]) == session
    {
      GatewayOrder.ContextsAreTheirMessages(cfg, run);
      assert DropLast(run + [TerminalEvent(session, answers)]) == run;
      e := registry.Consume(session);
      run := run + [TerminalEvent(session, answers)];
      terminals := terminals + [Terminal(session, answers, if e.None? then None else Some(e.value.origin))];
    }

    // ---------------------------------------------------------------- goroutines

    /** One step of anyone but the handler of message `n`, or none. */
    method OtherStep(n: nat)
      requires Valid() && Handled(Exec(cfg, run), n)
      modifies this, registry, dedup, collect
      ensures Valid() && old(run) <= run && Rely(n, old(Exec(cfg, run)), Exec(cfg, run))
    {
      GatewayOrder.Reachable(cfg, run);
      ghost var s := Exec(cfg, run);
      var l: Label := *;
      if !StepOf(l, n) {
        var done := TryStep(l);
        if done { OthersKeepRely(cfg, s, l, n); }
      }
    }

    /** Takes the step if it is enabled. */
    method TryStep(l: Label) returns (done: bool)
      requires Valid()
      modifies this, registry, dedup, collect
      ensures Valid() && run == if done then old(run) + [l] else old(run)
      ensures done ==> old(Enabled(cfg, Exec(cfg, run), l)) && Exec(cfg, run) == Apply(cfg, old(Exec(cfg, run)), l)
      ensures !done ==> Exec(cfg, run) == old(Exec(cfg, run))
    {
      assert DropLast(run + [l]) == run;
      done := true;
      match l {
        case Register(m, createdAt) =>
          if WellNamed(m) {
            var _ := RegisterMessage(m, createdAt);
            return;
          }
        case Decide(n, now, later) =>
          if n < |inbound| && n < |fates| && fates[n] == Registered && clock <= now <= later {
            var _ := CheckDuplicate(n, now, later);
            return;
          }
        case Enqueue(n) =>
          if n < |inbound| && n < |fates| && fates[n] == Accepted && Collects(cfg, inbound[n]) {
            EnqueueCollect(n);
            return;
          }
        case Publish(n, ok) =>
          if n < |inbound| && n < |fates| && fates[n] == Accepted && !Collects(cfg, inbound[n]) {
            PublishMessage(n, ok);
            return;
          }
        case _ =>
          done := TryBackground(l);
          return;
      }
      done := false;
    }

    /** Timers, flush goroutines and terminal events. */
    method TryBackground(l: Label) returns (done: bool)
      requires Valid() && (l.Timer? || l.Extract? || l.PublishBatch? || l.TerminalEvent?)
      modifies this, registry, collect
      ensures Valid() && run == if done then old(run) + [l] else old(run)
      ensures done ==> old(Enabled(cfg, Exec(cfg, run), l)) && Exec(cfg, run) == Apply(cfg, old(Exec(cfg, run)), l)
      ensures !done ==> Exec(cfg, run) == old(Exec(cfg, run))
    {
      assert DropLast(run + [l]) == run;
      done := true;
      match l {
        case Timer(FireTimer(key)) =>
          if key in collect.buffers && collect.buffers[key].armed {
            TimerFires(key, true);
            return;
          }
        case Timer(FireStray(key)) =>
          if CollectBuffer.Count(collect.stray, key) > 0 {
            TimerFires(key, false);
            return;
          }
        case Extract(key) =>
          if CollectBuffer.Count(collect.pending, key) > 0 {
            var _ := ExtractBuffer(key);
            return;
          }
        case PublishBatch(batch, ok) =>
          if batch in outgoing && outgoing[batch] != [] {
            PublishBatch(batch, ok);
            return;
          }
        case TerminalEvent(session, answers) =>
          if answers.None? || MayAnswer(session, answers.value) {
            var _ := TakeContext(session, answers);
            return;
          }
        case _ =>
      }
      done := false;
    }

    predicate MayAnswer(session: string, item: nat)
      reads this
    {
      && item < |sent| && sent[item].primary < |inbound| && SessionOf(inbound[sent[item].primary]) == session
      && forall i :: 0 <= i < |terminals| ==> terminals[i].answers != Some(item)
    }

    /** Any number of steps of other goroutines. */
    method Interfere(n: nat)
      requires Valid() && Handled(Exec(cfg, run), n)
      modifies this, registry, dedup, collect
      ensures Valid() && old(run) <= run && Rely(n, old(Exec(cfg, run)), Exec(cfg, run))
    {
      var steps: nat := *;
      while steps > 0
        invariant Valid() && old(run) <= run && Rely(n, old(Exec(cfg, run)), Exec(cfg, run))
      {
        OtherStep(n);
        steps := steps - 1;
      }
    }

    /**
     Guard, session, register, deduplicate, then buffer or publish, with other goroutines at work in between. A message
     turned away by the guard or without a session leaves no trace; every other one is registered, whatever becomes of
     it, and the outcome is what did.
     */
    method HandleNormalizedMessage(m: Inbound, guard: Option<bool>, resolved: bool, publishOk: bool)
      returns (r: Outcome)
      requires Valid() && (resolved ==> WellNamed(m))
      modifies this, registry, dedup, collect
      ensures Valid() && old(run) <= run
      ensures r.GuardFailed? <==> m.channelType != "cron" && guard.None?
      ensures r.Rejected? <==> m.channelType != "cron" && guard == Some(false)
      ensures r.NoSession? <==> (m.channelType == "cron" || guard == Some(true)) && !resolved
      ensures TurnedAway(r) ==> run == old(run)
      ensures !TurnedAway(r) ==>
                && MessageAt(Exec(cfg, run), |old(inbound)|, m) && EndsAs(Exec(cfg, run), |old(inbound)|, r)
                && Decided(cfg, old(run), run, |old(inbound)|, m, publishOk, r)
    {
      if m.channelType != CHANNEL_TYPE_CRON {
        if guard.None? { return GuardFailed; }
        if !guard.value { return Rejected; }
      }
      if !resolved { return NoSession; }
      r := HandleResolved(m, publishOk);
    }

    /** The part behind the session key. */
    method HandleResolved(m: Inbound, publishOk: bool) returns (r: Outcome)
      requires Valid() && WellNamed(m)
      modifies this, registry, dedup, collect
      ensures Valid() && old(run) <= run && !TurnedAway(r)
      ensures MessageAt(Exec(cfg, run), |old(inbound)|, m) && EndsAs(Exec(cfg, run), |old(inbound)|, r)
      ensures Decided(cfg, old(run), run, |old(inbound)|, m, publishOk, r)
    {
      var createdAt: int := *;
      var n := RegisterMessage(m, createdAt);
      Interfere(n);
      ghost var before := run;
      r := Finish(n, m, publishOk);
      DecidedLater(cfg, old(run), before, run, run, n, m, publishOk, r);
    }

    /** The part of the handler behind the registration. */
    method Finish(n: nat, ghost m: Inbound, publishOk: bool) returns (r: Outcome)
      requires Valid() && HasFate(Exec(cfg, run), n, Registered) && MessageAt(Exec(cfg, run), n, m)
      modifies this, registry, dedup, collect
      ensures Valid() && old(run) <= run && !TurnedAway(r)
      ensures MessageAt(Exec(cfg, run), n, m) && EndsAs(Exec(cfg, run), n, r)
      ensures Decided(cfg, old(run), run, n, m, publishOk, r)
    {
      var wait: nat, took: nat := *, *;
      var duplicate := CheckDuplicate(n, clock + wait, clock + wait + took);
      ghost var decided := run;
      if duplicate {
        DecidedHere(cfg, old(run), decided, run, n, m, publishOk, Duplicate);
        return Duplicate;
      }
      Interfere(n);
      r := BufferOrPublish(n, m, publishOk);
      DecidedHere(cfg, old(run), decided, run, n, m, publishOk, r);
    }

    method BufferOrPublish(n: nat, ghost m: Inbound, publishOk: bool) returns (r: Outcome)
      requires Valid() && HasFate(Exec(cfg, run), n, Accepted) && MessageAt(Exec(cfg, run), n, m)
      modifies this, collect
      ensures Valid() && old(run) <= run && !TurnedAway(r)
      ensures MessageAt(Exec(cfg, run), n, m) && EndsAs(Exec(cfg, run), n, r)
      ensures r == Accepting(cfg, m, publishOk)
    {
      if Collects(cfg, inbound[n]) {
        EnqueueCollect(n);
        return Collected;
      }
      PublishMessage(n, publishOk);
      return if publishOk then Sent else NotPublished;
    }

    /** A flush goroutine: extract under the lock, then publish; None when another flush has taken the buffer. */
    method FlushCollectBuffer(key: string, publishOk: bool) returns (batch: Option<nat>)
      requires Valid() && CollectBuffer.Count(collect.pending, key) > 0
      modifies this, registry, dedup, collect
      ensures Valid() && old(run) + [Extract(key)] <= run
      ensures batch.Some? ==> Last(run) == Label.PublishBatch(batch.value, publishOk)
      ensures batch.None? ==> run == old(run) + [Extract(key)]
    {
      batch := ExtractBuffer(key);
      if batch.None? { return; }
      InterfereWithBatch(batch.value);
      PublishBatch(batch.value, publishOk);
    }

    /** Any number of steps of goroutines other than the one holding the batch. */
    method InterfereWithBatch(batch: nat)
      requires Valid() && batch in outgoing && outgoing[batch] != []
      modifies this, registry, dedup, collect
      ensures Valid() && old(run) <= run && batch in outgoing && outgoing[batch] != []
    {
      var steps: nat := *;
      while steps > 0
        invariant Valid() && old(run) <= run && batch in outgoing && outgoing[batch] != []
      {
        var l: Label := *;
        if !(l.PublishBatch? && l.batch == batch) {
          ghost var s := Exec(cfg, run);
          var done := TryStep(l);
          if done { OthersKeepBatch(cfg, s, l, batch); }
        }
        steps := steps - 1;
      }
    }
  }

  lemma OthersKeepBatch(cfg: Config, s: State, l: Label, batch: nat)
    requires batch in s.outgoing && batch < |s.collect.batches| && s.collect.batches[batch].msgs != []
    requires Enabled(cfg, s, l) && !(l.PublishBatch? && l.batch == batch)
    ensures var s' := Apply(cfg, s, l);
            batch in s'.outgoing && batch < |s'.collect.batches| && s'.collect.batches[batch].msgs != []
  {
  }
}
