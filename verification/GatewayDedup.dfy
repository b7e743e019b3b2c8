/**
 What the pipeline does with a message, in terms of the message and the configuration alone: which messages it
 suppresses
 (internal/gateway/router.go:162-175, 299-319), which it buffers (283-297), and with what settings (338-365).
 */
module GatewayDedup {
  import opened Common
  import opened Gateway
  import Dedup
  import CollectBuffer
  import GatewayOrder

  /** The same message of the same user: by origin id if it has one, else by the hash of its text. */
  predicate SameMessage(m: Inbound, m': Inbound) {
    && m.userId == m'.userId && m.originMessageId == m'.originMessageId
    && (m.originMessageId == "" ==> m.text != "" && m'.text != "" && m.textHash == m'.textHash != "")
  }

  /** The i-th step of the run accepted this message, and stored it at that time. */
  ghost predicate AcceptedIn(cfg: Config, run: seq<Label>, i: nat, m: Inbound, stored: int) {
    && i < |run| && run[i].Decide? && Enabled(cfg, Exec(cfg, run[..i]), run[i])
    && Exec(cfg, run[..i]).inbound[run[i].n] == m && run[i].later == stored
    && HasFate(Exec(cfg, run[..i + 1]), run[i].n, Accepted)
  }

  /** Within the window before `now` the run stored the same message as accepted. */
  ghost predicate RepeatsWithin(cfg: Config, run: seq<Label>, m: Inbound, now: int) {
    exists i: nat, m', stored :: AcceptedIn(cfg, run, i, m', stored) && SameMessage(m, m')
      && now < stored + cfg.dedupWindow
  }

  // The deduplicator's key says just that.
  lemma KeyMeans(m: Inbound, m': Inbound)
    requires WellNamed(m) && WellNamed(m')
    ensures Tracked(m) && Tracked(m') && DedupKey(m) == DedupKey(m') <==> SameMessage(m, m')
  {
    if Tracked(m) && Tracked(m') && DedupKey(m) == DedupKey(m') {
      Dedup.BuildKeyInjective(m.userId, DedupStrategy(m), DeriveDedupKey(m),
                              m'.userId, DedupStrategy(m'), DeriveDedupKey(m'));
    }
  }

  // ---------------------------------------------------------------- the deduplicator's history is that of the run

  ghost predicate Stems(cfg: Config, run: seq<Label>, a: Dedup.Accepted) {
    exists i: nat, m :: AcceptedIn(cfg, run, i, m, a.storedAt) && Tracked(m) && WellNamed(m) && a.key == DedupKey(m)
  }

  ghost predicate Kept(cfg: Config, run: seq<Label>, m: Inbound, stored: int) {
    exists x :: 0 <= x < |Exec(cfg, run).accepted| && Stores(Exec(cfg, run).accepted[x], m, stored)
  }

  ghost predicate Stores(a: Dedup.Accepted, m: Inbound, stored: int) { a.key == DedupKey(m) && a.storedAt == stored }

  ghost predicate AllStem(cfg: Config, run: seq<Label>) {
    forall x :: 0 <= x < |Exec(cfg, run).accepted| ==> Stems(cfg, run, Exec(cfg, run).accepted[x])
  }

  ghost predicate AllKept(cfg: Config, run: seq<Label>) {
    forall i: nat, m, stored | AcceptedIn(cfg, run, i, m, stored) && Tracked(m) :: Kept(cfg, run, m, stored)
  }

  lemma AcceptedLater(cfg: Config, run: seq<Label>, l: Label, i: nat, m: Inbound, stored: int)
    requires i < |run|
    ensures AcceptedIn(cfg, run + [l], i, m, stored) <==> AcceptedIn(cfg, run, i, m, stored)
  {
    assert (run + [l])[..i] == run[..i] && (run + [l])[..i + 1] == run[..i + 1] && (run + [l])[i] == run[i];
  }

  lemma AcceptedNow(cfg: Config, run: seq<Label>, l: Label, m: Inbound, stored: int)
    ensures AcceptedIn(cfg, run + [l], |run|, m, stored)
            <==> l.Decide? && Enabled(cfg, Exec(cfg, run), l) && Exec(cfg, run).inbound[l.n] == m && l.later == stored
                 && HasFate(Exec(cfg, run + [l]), l.n, Accepted)
  {
    assert (run + [l])[..|run|] == run && (run + [l])[..|run| + 1] == run + [l];
  }

  // What one step adds to the history.
  ghost function Added(cfg: Config, s: State, l: Label): seq<Dedup.Accepted> {
    if l.Decide? && Enabled(cfg, s, l) && Tracked(s.inbound[l.n]) && !Seen(cfg, s, s.inbound[l.n], l.now)
    then [Dedup.Accepted(DedupKey(s.inbound[l.n]), l.now, l.later)]
    else []
  }

  lemma HistoryAfter(cfg: Config, run: seq<Label>, l: Label)
    ensures Exec(cfg, run + [l]).accepted == Exec(cfg, run).accepted + Added(cfg, Exec(cfg, run), l)
  {
    assert DropLast(run + [l]) == run;
  }

  lemma FateAfter(cfg: Config, run: seq<Label>, l: Label)
    requires l.Decide? && Enabled(cfg, Exec(cfg, run), l)
    ensures var s, s' := Exec(cfg, run), Exec(cfg, run + [l]);
            HasFate(s', l.n, if Seen(cfg, s, s.inbound[l.n], l.now) then Suppressed else Accepted)
  {
    assert DropLast(run + [l]) == run;
  }

  lemma StepStems(cfg: Config, run: seq<Label>, l: Label)
    requires AllStem(cfg, run)
    ensures AllStem(cfg, run + [l])
  {
    var s := Exec(cfg, run);
    HistoryAfter(cfg, run, l);
    GatewayOrder.Reachable(cfg, run);
    var all := Exec(cfg, run + [l]).accepted;
    forall x | 0 <= x < |all| ensures Stems(cfg, run + [l], all[x]) {
      if x < |s.accepted| {
        assert Stems(cfg, run, s.accepted[x]);
        var i: nat, m :| AcceptedIn(cfg, run, i, m, all[x].storedAt) && Tracked(m) && WellNamed(m)
                         && all[x].key == DedupKey(m);
        AcceptedLater(cfg, run, l, i, m, all[x].storedAt);
      } else {
        FateAfter(cfg, run, l);
        AcceptedNow(cfg, run, l, s.inbound[l.n], l.later);
      }
    }
  }

  lemma StepKept(cfg: Config, run: seq<Label>, l: Label)
    requires AllKept(cfg, run)
    ensures AllKept(cfg, run + [l])
  {
    var s, s' := Exec(cfg, run), Exec(cfg, run + [l]);
    HistoryAfter(cfg, run, l);
    forall i: nat, m, stored | AcceptedIn(cfg, run + [l], i, m, stored) && Tracked(m)
      ensures Kept(cfg, run + [l], m, stored)
    {
      if i < |run| {
        AcceptedLater(cfg, run, l, i, m, stored);
        assert Kept(cfg, run, m, stored);
        var x :| 0 <= x < |s.accepted| && Stores(s.accepted[x], m, stored);
        assert Stores(s'.accepted[x], m, stored);
      } else {
        AcceptedNow(cfg, run, l, m, stored);
        FateAfter(cfg, run, l);
        assert Stores(s'.accepted[|s.accepted|], m, stored);
      }
    }
  }

  lemma {:induction false} HistoryIsOfRun(cfg: Config, run: seq<Label>)
    ensures AllStem(cfg, run) && AllKept(cfg, run)
  {
    if run != [] {
      HistoryIsOfRun(cfg, DropLast(run));
      assert run == DropLast(run) + [Last(run)];
      StepStems(cfg, DropLast(run), Last(run));
      StepKept(cfg, DropLast(run), Last(run));
    }
  }

  lemma AcceptedWellNamed(cfg: Config, run: seq<Label>, i: nat, m: Inbound, stored: int)
    requires AcceptedIn(cfg, run, i, m, stored)
    ensures WellNamed(m)
  {
    GatewayOrder.Reachable(cfg, run[..i]);
  }

  // ---------------------------------------------------------------- the theorem

  ghost predicate Seen(cfg: Config, s: State, m: Inbound, now: int) {
    Tracked(m) && Dedup.SeenWithin(s.accepted, cfg.dedupWindow, DedupKey(m), now)
  }

  lemma SeenRepeats(cfg: Config, run: seq<Label>, m: Inbound, now: int)
    requires WellNamed(m) && Seen(cfg, Exec(cfg, run), m, now)
    ensures RepeatsWithin(cfg, run, m, now)
  {
    var history := Exec(cfg, run).accepted;
    HistoryIsOfRun(cfg, run);
    var x :| 0 <= x < |history| && history[x].key == DedupKey(m) && now < history[x].storedAt + cfg.dedupWindow;
    StemRepeats(cfg, run, history[x], m, now);
  }

  lemma StemRepeats(cfg: Config, run: seq<Label>, a: Dedup.Accepted, m: Inbound, now: int)
    requires WellNamed(m) && Tracked(m) && Stems(cfg, run, a)
    requires a.key == DedupKey(m) && now < a.storedAt + cfg.dedupWindow
    ensures RepeatsWithin(cfg, run, m, now)
  {
    var i: nat, m' :| AcceptedIn(cfg, run, i, m', a.storedAt) && Tracked(m') && WellNamed(m') && a.key == DedupKey(m');
    KeyMeans(m, m');
  }

  lemma RepeatsSeen(cfg: Config, run: seq<Label>, m: Inbound, now: int)
    requires WellNamed(m) && RepeatsWithin(cfg, run, m, now)
    ensures Seen(cfg, Exec(cfg, run), m, now)
  {
    var i: nat, m', stored :| AcceptedIn(cfg, run, i, m', stored) && SameMessage(m, m')
      && now < stored + cfg.dedupWindow;
    AcceptedWellNamed(cfg, run, i, m', stored);
    KeyMeans(m, m');
    HistoryIsOfRun(cfg, run);
    assert Kept(cfg, run, m', stored);
    var x :| 0 <= x < |Exec(cfg, run).accepted| && Stores(Exec(cfg, run).accepted[x], m', stored);
  }

  /**
   In every run: a message is suppressed exactly when the same message of the same user was stored as accepted less than
   a window before, and accepted otherwise. One with neither an origin id nor a text is never suppressed.
   */
  lemma SuppressedIffRepeats(cfg: Config, run: seq<Label>, n: nat, now: int, later: int)
    requires Enabled(cfg, Exec(cfg, run), Decide(n, now, later))
    ensures var m, s' := Exec(cfg, run).inbound[n], Exec(cfg, run + [Decide(n, now, later)]);
            && (HasFate(s', n, Suppressed) <==> RepeatsWithin(cfg, run, m, now))
            && (HasFate(s', n, Accepted) <==> !RepeatsWithin(cfg, run, m, now))
            && (m.originMessageId == "" && m.text == "" ==> HasFate(s', n, Accepted))
  {
    GatewayOrder.Reachable(cfg, run);
    FateAfter(cfg, run, Decide(n, now, later));
    var s := Exec(cfg, run);
    if Seen(cfg, s, s.inbound[n], now) { SeenRepeats(cfg, run, s.inbound[n], now); }
    if RepeatsWithin(cfg, run, s.inbound[n], now) { RepeatsSeen(cfg, run, s.inbound[n], now); }
  }

  // ---------------------------------------------------------------- the way of an accepted message

  /** The mode of a channel is its own, if one is configured for it, and else the default. */
  predicate ChannelCollects(cfg: Config, channelType: string) {
    (channelType in cfg.perChannel && cfg.perChannel[channelType].mode.Collect?)
    || (channelType !in cfg.perChannel && cfg.defaultMode.Collect?)
  }

  /** An accepted message can be buffered exactly when its channel's mode is collect, and published exactly when not. */
  lemma CollectsIffMode(cfg: Config, s: State, n: nat, ok: bool)
    requires HasFate(s, n, Accepted)
    ensures Enabled(cfg, s, Enqueue(n)) <==> ChannelCollects(cfg, s.inbound[n].channelType)
    ensures Enabled(cfg, s, Publish(n, ok)) <==> !ChannelCollects(cfg, s.inbound[n].channelType)
  {
  }

  /**
   What a buffer of a channel is made with: the channel's cap if that is positive, else five, and its priority, else
   0.
   */
  ghost predicate MadeFor(cfg: Config, buf: CollectBuffer.Buffer, channelType: string) {
    && buf.cap == (if channelType in cfg.perChannel && cfg.perChannel[channelType].collectCap > 0
                   then cfg.perChannel[channelType].collectCap else 5)
    && buf.priority == if channelType in cfg.perChannel then cfg.perChannel[channelType].priority else 0
  }

  ghost predicate SettingsRight(cfg: Config, s: State, key: string)
    requires key in s.collect.buffers
  {
    exists userId, channelType ::
      CollectBuffer.BufferKey(userId, channelType) == key && ColonFree(channelType)
      && MadeFor(cfg, s.collect.buffers[key], channelType)
  }

  ghost predicate AllSettingsRight(cfg: Config, s: State) {
    forall key <- s.collect.buffers :: SettingsRight(cfg, s, key)
  }

  lemma EnqueueSettings(cfg: Config, s: State, n: nat)
    requires AllSettingsRight(cfg, s) && Enabled(cfg, s, Enqueue(n)) && WellNamed(s.inbound[n])
    ensures AllSettingsRight(cfg, Apply(cfg, s, Enqueue(n)))
  {
    var s', m := Apply(cfg, s, Enqueue(n)), s.inbound[n];
    forall key | key in s'.collect.buffers ensures SettingsRight(cfg, s', key) {
      if key in s.collect.buffers {
        assert SettingsRight(cfg, s, key);
        var userId, channelType :| CollectBuffer.BufferKey(userId, channelType) == key && ColonFree(channelType)
                                   && MadeFor(cfg, s.collect.buffers[key], channelType);
        assert MadeFor(cfg, s'.collect.buffers[key], channelType);
      } else {
        assert key == CollectBuffer.BufferKey(m.userId, m.channelType);
        assert MadeFor(cfg, s'.collect.buffers[key], m.channelType);
      }
    }
  }

  lemma OtherSettings(cfg: Config, s: State, l: Label)
    requires AllSettingsRight(cfg, s) && Enabled(cfg, s, l) && !l.Enqueue?
    ensures AllSettingsRight(cfg, Apply(cfg, s, l))
  {
    var s' := Apply(cfg, s, l);
    forall key | key in s'.collect.buffers ensures SettingsRight(cfg, s', key) {
      assert SettingsRight(cfg, s, key);
      var userId, channelType :| CollectBuffer.BufferKey(userId, channelType) == key && ColonFree(channelType)
                                 && MadeFor(cfg, s.collect.buffers[key], channelType);
      assert MadeFor(cfg, s'.collect.buffers[key], channelType);
    }
  }

  lemma {:induction false} SettingsReachable(cfg: Config, run: seq<Label>)
    ensures AllSettingsRight(cfg, Exec(cfg, run))
  {
    if run != [] {
      var s, l := Exec(cfg, DropLast(run)), Last(run);
      SettingsReachable(cfg, DropLast(run));
      GatewayOrder.Reachable(cfg, DropLast(run));
      if Enabled(cfg, s, l) {
        if l.Enqueue? { EnqueueSettings(cfg, s, l.n); } else { OtherSettings(cfg, s, l); }
      }
    }
  }

  /** In every run a buffer is made as the channel of each of its messages has it configured. */
  lemma BuffersAsConfigured(cfg: Config, run: seq<Label>, key: string, n: nat)
    requires var c := Exec(cfg, run).collect; key in c.buffers && n in c.buffers[key].msgs
    ensures var s := Exec(cfg, run);
            n < |s.inbound| && MadeFor(cfg, s.collect.buffers[key], s.inbound[n].channelType)
  {
    var s := Exec(cfg, run);
    SettingsReachable(cfg, run);
    GatewayOrder.Reachable(cfg, run);
    assert n in CollectBuffer.Buffered(s.collect, key);
    assert GatewayOrder.WaitsIn(cfg, s, key, n);
    assert SettingsRight(cfg, s, key);
    var userId, channelType :| CollectBuffer.BufferKey(userId, channelType) == key && ColonFree(channelType)
                               && MadeFor(cfg, s.collect.buffers[key], channelType);
    var m := s.inbound[n];
    assert m in s.inbound;
    CollectBuffer.BufferKeyInjective(userId, channelType, m.userId, m.channelType);
  }
}
