/**
 The dispatcher of internal/gateway/dispatcher.go: agent events are routed by the session's delivery context; on
 channels without streaming the text of delta events is accumulated until the session's next done event. Events are
 handled one at a time (internal/queue/consumer.go:111-123).
 */
module Dispatcher {
  import opened Common
  import opened Strings
  import Registry

  type SessionKey = string
  type Context = Registry.DeliveryContext

  const ACCUMULATOR_TIMEOUT: int := 5 * 60 * 1000
  const DELIVERY_MAX_RETRIES: nat := 3
  const DEFAULT_ERROR_TEXT: string := "An error occurred while processing your message."

  datatype EventType = Delta | Done | Error | Other

  // `delta` is the text of the event's delta part, if it has one.
  datatype Event = Event(kind: EventType, session: SessionKey, userId: string, delta: Option<string>,
                         errorMessage: string)

  predicate IsTerminal(e: Event) { e.kind.Done? || e.kind.Error? }

  datatype Response = Response(session: SessionKey, userId: string, channelType: string, channelId: string,
                               text: string)

  datatype Accumulator = Accumulator(text: string, createdAt: int)

  // What the dispatcher did, oldest first: it routed an event by a context, or dropped stale accumulators.
  datatype LogEntry = Routed(e: Event, context: Option<Context>) | Evicted(sessions: set<SessionKey>)

  datatype State = State(queues: Registry.Queues, accumulators: map<SessionKey, Accumulator>, log: seq<LogEntry>)

  datatype Label =
    | Register(session: SessionKey, entry: Registry.Entry) | Handle(e: Event, now: int) | EvictStale(now: int)

  function Init(): State { State(map[], map[], []) }

  function Front(s: State, k: SessionKey): Option<Context> {
    var q := Registry.QueueOf(s.queues, k);
    if q == [] then None else Some(q[0].context)
  }

  // Channels whose responses are built from accumulated deltas.
  predicate Buffers(adapters: set<string>, c: Context) { c.channelType in adapters && !c.supportsStreaming }

  function DeltaText(e: Event): string { if e.delta.Some? then e.delta.value else "" }

  function AccText(s: State, k: SessionKey): string { if k in s.accumulators then s.accumulators[k].text else "" }

  // The accumulated text, or the event's own when nothing was accumulated.
  function FinalText(accumulated: string, e: Event): string { if accumulated == "" then DeltaText(e) else accumulated }

  function ErrorText(e: Event): string { if e.errorMessage == "" then DEFAULT_ERROR_TEXT else e.errorMessage }

  // ---------------------------------------------------------------- broadcast targets

  datatype Target = Target(channelType: string, channelId: string)

  /** strings.SplitN(target, ":", 2); None when there is no colon. */
  function SplitTarget(target: string): Option<Target> {
    var i := Index(target, ":");
    if i < 0 then None else Some(Target(target[..i], target[i + 1..]))
  }

  lemma SplitTargetParts(target: string)
    ensures SplitTarget(target).None? <==> ColonFree(target)
    ensures SplitTarget(target).Some? ==>
              var t := SplitTarget(target).value;
              target == t.channelType + ":" + t.channelId && ColonFree(t.channelType)
  {
    ColonAt(target);
    var i := Index(target, ":");
    if i >= 0 {
      SplitAt(target, ":", i);
      assert target[i] == ':';
      assert forall c <- target[..i] :: exists j :: 0 <= j < i && c == target[j];
    }
  }

  lemma ColonAt(target: string)
    ensures forall j :: 0 <= j < |target| ==> (OccursAt(target, ":", j) <==> target[j] == ':')
  {
    forall j | 0 <= j < |target| ensures OccursAt(target, ":", j) <==> target[j] == ':' {
      assert target[j..j + 1] == [target[j]];
    }
  }

  function BroadcastTo(adapters: set<string>, targets: seq<string>): seq<Target> {
    if targets == [] then []
    else
      var t := SplitTarget(Last(targets));
      BroadcastTo(adapters, DropLast(targets)) + if t.Some? && t.value.channelType in adapters then [t.value] else []
  }

  function BroadcastResponses(e: Event, targets: seq<Target>, text: string): seq<Response> {
    seq(|targets|, i requires 0 <= i < |targets| =>
      Response(e.session, e.userId, targets[i].channelType, targets[i].channelId, text))
  }

  // ---------------------------------------------------------------- one event

  function Accumulate(s: State, e: Event, now: int): map<SessionKey, Accumulator> {
    var acc := if e.session in s.accumulators then s.accumulators[e.session] else Accumulator("", now);
    s.accumulators[e.session := acc.(text := acc.text + DeltaText(e))]
  }

  predicate IsBroadcast(e: Event, c: Context) { c.replyMode == "broadcast" && e.kind.Done? }

  function AfterEvent(adapters: set<string>, s: State, e: Event, now: int): map<SessionKey, Accumulator> {
    match Front(s, e.session)
    case None => s.accumulators
    case Some(c) =>
      if IsBroadcast(e, c) then s.accumulators - {e.session}
      else if !Buffers(adapters, c) then s.accumulators
      else if e.kind.Delta? then Accumulate(s, e, now)
      else if IsTerminal(e) then s.accumulators - {e.session}
      else s.accumulators
  }

  function Responses(adapters: set<string>, s: State, e: Event): seq<Response> {
    match Front(s, e.session)
    case None => []
    case Some(c) =>
      if IsBroadcast(e, c) then
        BroadcastResponses(e, BroadcastTo(adapters, c.notifyChannels), FinalText(AccText(s, e.session), e))
      else if c.channelType !in adapters then []
      else if e.kind.Done? then
        [Response(e.session, e.userId, c.channelType, c.channelId,
                  if c.supportsStreaming then DeltaText(e) else FinalText(AccText(s, e.session), e))]
      else if e.kind.Error? && !c.supportsStreaming then
        [Response(e.session, e.userId, c.channelType, c.channelId, ErrorText(e))]
      else []
  }

  function Stale(m: map<SessionKey, Accumulator>, now: int): set<SessionKey> {
    set k | k in m && m[k].createdAt < now - ACCUMULATOR_TIMEOUT
  }

  function Apply(adapters: set<string>, s: State, l: Label): State {
    match l
    case Register(k, entry) => s.(queues := Registry.Registered(s.queues, k, entry))
    case Handle(e, now) =>
      State(if IsTerminal(e) then Registry.Consumed(s.queues, e.session) else s.queues,
            AfterEvent(adapters, s, e, now),
            s.log + [Routed(e, Front(s, e.session))])
    case EvictStale(now) =>
      var stale := Stale(s.accumulators, now);
      s.(accumulators := s.accumulators - stale, log := s.log + [Evicted(stale)])
  }

  function Exec(adapters: set<string>, run: seq<Label>): State {
    if run == [] then Init() else Apply(adapters, Exec(adapters, DropLast(run)), Last(run))
  }

  // ---------------------------------------------------------------- specification on the log alone

  predicate IsRoutedDelta(adapters: set<string>, x: LogEntry, k: SessionKey) {
    x.Routed? && x.e.session == k && x.e.kind.Delta? && x.context.Some? && Buffers(adapters, x.context.value)
  }

  // Where the accumulation of a session starts afresh.
  predicate IsBoundary(x: LogEntry, k: SessionKey) {
    match x
    case Routed(e, _) => e.session == k && IsTerminal(e)
    case Evicted(sessions) => k in sessions
  }

  /** The deltas of a session routed since its last terminal event or eviction. */
  function Pending(adapters: set<string>, log: seq<LogEntry>, k: SessionKey): seq<string> {
    if log == [] then []
    else if IsBoundary(Last(log), k) then []
    else if IsRoutedDelta(adapters, Last(log), k)
    then Pending(adapters, DropLast(log), k) + [DeltaText(Last(log).e)]
    else Pending(adapters, DropLast(log), k)
  }

  /** Every delta ever routed for a session. */
  function AllDeltas(adapters: set<string>, log: seq<LogEntry>, k: SessionKey): seq<string> {
    if log == [] then []
    else if IsRoutedDelta(adapters, Last(log), k)
    then AllDeltas(adapters, DropLast(log), k) + [DeltaText(Last(log).e)]
    else AllDeltas(adapters, DropLast(log), k)
  }

  /** For each terminal event and eviction of a session, in order, the deltas pending when it happened. */
  function Chunks(adapters: set<string>, log: seq<LogEntry>, k: SessionKey): seq<seq<string>> {
    if log == [] then []
    else if IsBoundary(Last(log), k)
    then Chunks(adapters, DropLast(log), k) + [Pending(adapters, DropLast(log), k)]
    else Chunks(adapters, DropLast(log), k)
  }

  function Concat(parts: seq<string>): string {
    if parts == [] then "" else Concat(DropLast(parts)) + Last(parts)
  }

  /** Each routed delta belongs to exactly one chunk, or is still pending: none is used twice and none goes missing. */
  lemma {:induction false} ChunksPartition(adapters: set<string>, log: seq<LogEntry>, k: SessionKey)
    ensures Flatten(Chunks(adapters, log, k)) + Pending(adapters, log, k) == AllDeltas(adapters, log, k)
  {
    if log != [] {
      var init := DropLast(log);
      ChunksPartition(adapters, init, k);
      if IsBoundary(Last(log), k) {
        FlattenSnoc(Chunks(adapters, init, k), Pending(adapters, init, k));
      } else if IsRoutedDelta(adapters, Last(log), k) {
        var d := [DeltaText(Last(log).e)];
        assert Flatten(Chunks(adapters, init, k)) + (Pending(adapters, init, k) + d)
            == (Flatten(Chunks(adapters, init, k)) + Pending(adapters, init, k)) + d;
      }
    }
  }

  // ---------------------------------------------------------------- invariant

  /**
   The accumulator holds the pending deltas; and while there is one, the session has a queued context, of a buffered
   channel.
   */
  ghost predicate Accumulates(adapters: set<string>, s: State, k: SessionKey) {
    && AccText(s, k) == Concat(Pending(adapters, s.log, k))
    && (k in s.accumulators ==> Front(s, k).Some? && Buffers(adapters, Front(s, k).value))
    && (k !in s.accumulators ==> Pending(adapters, s.log, k) == [])
  }

  lemma FrontAfter(adapters: set<string>, s: State, l: Label, k: SessionKey)
    ensures Front(s, k).Some? && !(l.Handle? && IsTerminal(l.e) && l.e.session == k)
            ==> Front(Apply(adapters, s, l), k) == Front(s, k)
  {
  }

  lemma PendingSnoc(adapters: set<string>, log: seq<LogEntry>, x: LogEntry, k: SessionKey)
    ensures Pending(adapters, log + [x], k)
            == if IsBoundary(x, k) then []
               else if IsRoutedDelta(adapters, x, k) then Pending(adapters, log, k) + [DeltaText(x.e)]
               else Pending(adapters, log, k)
  {
    assert DropLast(log + [x]) == log;
  }

  lemma ConcatSnoc(parts: seq<string>, x: string)
    ensures Concat(parts + [x]) == Concat(parts) + x
  {
    assert DropLast(parts + [x]) == parts;
  }

  lemma OtherAccumulators(adapters: set<string>, s: State, e: Event, now: int, k: SessionKey)
    requires e.session != k
    ensures k in AfterEvent(adapters, s, e, now) <==> k in s.accumulators
    ensures k in s.accumulators ==> AfterEvent(adapters, s, e, now)[k] == s.accumulators[k]
  {
  }

  lemma OtherSessionKeeps(adapters: set<string>, s: State, e: Event, now: int, k: SessionKey)
    requires Accumulates(adapters, s, k) && e.session != k
    ensures Accumulates(adapters, Apply(adapters, s, Handle(e, now)), k)
  {
    var s' := Apply(adapters, s, Handle(e, now));
    FrontAfter(adapters, s, Handle(e, now), k);
    PendingSnoc(adapters, s.log, Routed(e, Front(s, e.session)), k);
    OtherAccumulators(adapters, s, e, now, k);
    assert s'.accumulators == AfterEvent(adapters, s, e, now);
    assert AccText(s', k) == AccText(s, k);
  }

  lemma TerminalKeeps(adapters: set<string>, s: State, e: Event, now: int)
    requires Accumulates(adapters, s, e.session) && IsTerminal(e)
    ensures Accumulates(adapters, Apply(adapters, s, Handle(e, now)), e.session)
  {
    var s' := Apply(adapters, s, Handle(e, now));
    assert e.session !in AfterEvent(adapters, s, e, now);
    PendingSnoc(adapters, s.log, Routed(e, Front(s, e.session)), e.session);
    assert Concat([]) == "" && AccText(s', e.session) == "";
  }

  lemma DeltaKeeps(adapters: set<string>, s: State, e: Event, now: int)
    requires Accumulates(adapters, s, e.session) && !IsTerminal(e)
    ensures Accumulates(adapters, Apply(adapters, s, Handle(e, now)), e.session)
  {
    var k, s' := e.session, Apply(adapters, s, Handle(e, now));
    var x := Routed(e, Front(s, k));
    PendingSnoc(adapters, s.log, x, k);
    assert Front(s', k) == Front(s, k) && s'.accumulators == AfterEvent(adapters, s, e, now);
    if IsRoutedDelta(adapters, x, k) {
      ConcatSnoc(Pending(adapters, s.log, k), DeltaText(e));
      assert AccText(s', k) == AccText(s, k) + DeltaText(e);
    } else {
      assert s'.accumulators == s.accumulators;
    }
  }

  lemma HandleKeeps(adapters: set<string>, s: State, e: Event, now: int, k: SessionKey)
    requires Accumulates(adapters, s, k)
    ensures Accumulates(adapters, Apply(adapters, s, Handle(e, now)), k)
  {
    if e.session != k {
      OtherSessionKeeps(adapters, s, e, now, k);
    } else if IsTerminal(e) {
      TerminalKeeps(adapters, s, e, now);
    } else {
      DeltaKeeps(adapters, s, e, now);
    }
  }

  lemma EvictKeeps(adapters: set<string>, s: State, now: int, k: SessionKey)
    requires Accumulates(adapters, s, k)
    ensures Accumulates(adapters, Apply(adapters, s, EvictStale(now)), k)
  {
    var s' := Apply(adapters, s, EvictStale(now));
    assert DropLast(s'.log) == s.log;
  }

  lemma {:induction false} AlwaysAccumulates(adapters: set<string>, run: seq<Label>, k: SessionKey)
    ensures Accumulates(adapters, Exec(adapters, run), k)
  {
    if run != [] {
      var s := Exec(adapters, DropLast(run));
      AlwaysAccumulates(adapters, DropLast(run), k);
      match Last(run)
      case Register(_, _) => FrontAfter(adapters, s, Last(run), k);
      case Handle(e, now) => HandleKeeps(adapters, s, e, now, k);
      case EvictStale(now) => EvictKeeps(adapters, s, now, k);
    }
  }

  // ---------------------------------------------------------------- theorems

  /**
   After any run, a done event on a buffered channel is answered once, with the in-order concatenation of the deltas
   routed since the session's previous terminal event or eviction, or with its own text if that is empty.
   */
  lemma DoneDeliversPending(adapters: set<string>, run: seq<Label>, e: Event, now: int)
    requires e.kind.Done?
    requires var c := Front(Exec(adapters, run), e.session);
             c.Some? && Buffers(adapters, c.value) && c.value.replyMode != "broadcast"
    ensures var s := Exec(adapters, run);
            var c := Front(s, e.session).value;
            && Responses(adapters, s, e) == [Response(e.session, e.userId, c.channelType, c.channelId,
                 FinalText(Concat(Pending(adapters, s.log, e.session)), e))]
            && Pending(adapters, Exec(adapters, run + [Handle(e, now)]).log, e.session) == []
            && e.session !in Exec(adapters, run + [Handle(e, now)]).accumulators
  {
    AlwaysAccumulates(adapters, run, e.session);
    var s := Exec(adapters, run);
    assert DropLast(run + [Handle(e, now)]) == run;
    assert DropLast(s.log + [Routed(e, Front(s, e.session))]) == s.log;
  }

  /** A broadcast done event sends the same text once to every well-formed target with an adapter, in order. */
  lemma BroadcastDeliversPending(adapters: set<string>, run: seq<Label>, e: Event)
    requires e.kind.Done?
    requires var c := Front(Exec(adapters, run), e.session); c.Some? && c.value.replyMode == "broadcast"
    ensures var s := Exec(adapters, run);
            Responses(adapters, s, e)
            == BroadcastResponses(e, BroadcastTo(adapters, Front(s, e.session).value.notifyChannels),
                 FinalText(Concat(Pending(adapters, s.log, e.session)), e))
  {
    AlwaysAccumulates(adapters, run, e.session);
  }

  // ---------------------------------------------------------------- who is answered, and with what

  /** The text before the first colon names a channel with an adapter. */
  ghost predicate Deliverable(adapters: set<string>, target: string) {
    exists channelType, channelId ::
      target == channelType + ":" + channelId && ColonFree(channelType) && channelType in adapters
  }

  /** The response goes to this target, with this text, for the event's session and user. */
  predicate AnswersTarget(adapters: set<string>, r: Response, target: string, e: Event, text: string) {
    && r.channelType + ":" + r.channelId == target && ColonFree(r.channelType) && r.channelType in adapters
    && r.session == e.session && r.userId == e.userId && r.text == text
  }

  // `at` lists the places of the deliverable targets, in order.
  ghost predicate Places(adapters: set<string>, targets: seq<string>, at: seq<nat>) {
    && (forall i, j :: 0 <= i < j < |at| ==> at[i] < at[j])
    && (forall j :: 0 <= j < |at| ==> at[j] < |targets|)
    && forall n: nat | n < |targets| :: n in at <==> Deliverable(adapters, targets[n])
  }

  /** One response for each deliverable target and no other, in their order. */
  ghost predicate Addressed(adapters: set<string>, e: Event, targets: seq<string>, text: string, rs: seq<Response>) {
    exists at: seq<nat> ::
      && Places(adapters, targets, at) && |at| == |rs|
      && forall j :: 0 <= j < |rs| ==> AnswersTarget(adapters, rs[j], targets[at[j]], e, text)
  }

  lemma DeliverableIff(adapters: set<string>, target: string)
    ensures var t := SplitTarget(target); Deliverable(adapters, target) <==> t.Some? && t.value.channelType in adapters
  {
    SplitTargetParts(target);
    var t := SplitTarget(target);
    if Deliverable(adapters, target) {
      var channelType, channelId :| target == channelType + ":" + channelId && ColonFree(channelType)
                                    && channelType in adapters;
      assert target[|channelType|] == ':';
      assert t.Some?;
      FirstFieldUnique(channelType, channelId, t.value.channelType, t.value.channelId);
    }
  }

  function PlacesOf(adapters: set<string>, targets: seq<string>): seq<nat> {
    if targets == [] then []
    else
      var t := SplitTarget(Last(targets));
      PlacesOf(adapters, DropLast(targets)) + if t.Some? && t.value.channelType in adapters then [|targets| - 1] else []
  }

  lemma {:induction false} PlacesAreRight(adapters: set<string>, targets: seq<string>)
    ensures var at := PlacesOf(adapters, targets);
            Places(adapters, targets, at) && |at| == |BroadcastTo(adapters, targets)|
  {
    if targets != [] {
      var init := DropLast(targets);
      PlacesAreRight(adapters, init);
      DeliverableIff(adapters, Last(targets));
      OneMoreTarget(adapters, init, PlacesOf(adapters, init), Last(targets));
      assert targets == init + [Last(targets)];
    }
  }

  lemma OneMoreTarget(adapters: set<string>, targets: seq<string>, at: seq<nat>, target: string)
    requires Places(adapters, targets, at)
    ensures Places(adapters, targets + [target],
                   at + if Deliverable(adapters, target) then [|targets|] else [])
  {
    var all, at' := targets + [target], at + if Deliverable(adapters, target) then [|targets|] else [];
    forall n: nat | n < |all| ensures n in at' <==> Deliverable(adapters, all[n]) {
      assert n < |targets| ==> all[n] == targets[n];
    }
  }

  lemma {:induction false} PlaceOfTarget(adapters: set<string>, targets: seq<string>, j: nat)
    requires j < |BroadcastTo(adapters, targets)| && |PlacesOf(adapters, targets)| == |BroadcastTo(adapters, targets)|
    ensures var n := PlacesOf(adapters, targets)[j];
            n < |targets| && SplitTarget(targets[n]) == Some(BroadcastTo(adapters, targets)[j])
            && BroadcastTo(adapters, targets)[j].channelType in adapters
  {
    var init := DropLast(targets);
    PlacesAreRight(adapters, init);
    if j < |BroadcastTo(adapters, init)| { PlaceOfTarget(adapters, init, j); }
  }

  // What was accumulated, or else what the event itself says.
  function TextFor(accumulated: string, e: Event): string {
    if accumulated != "" then accumulated else if e.delta.Some? then e.delta.value else ""
  }

  /**
   After any run, a broadcast done event answers each notify target whose channel has an adapter once and in order, and
   no other, with the deltas routed since the session's previous terminal event or eviction, or else its own text.
   */
  lemma BroadcastAddresses(adapters: set<string>, run: seq<Label>, e: Event)
    requires var c := Front(Exec(adapters, run), e.session);
             e.kind.Done? && c.Some? && c.value.replyMode == "broadcast"
    ensures var s := Exec(adapters, run);
            Addressed(adapters, e, Front(s, e.session).value.notifyChannels,
                      TextFor(Concat(Pending(adapters, s.log, e.session)), e), Responses(adapters, s, e))
  {
    var s := Exec(adapters, run);
    var targets := Front(s, e.session).value.notifyChannels;
    var rs, text := Responses(adapters, s, e), TextFor(Concat(Pending(adapters, s.log, e.session)), e);
    AlwaysAccumulates(adapters, run, e.session);
    PlacesAreRight(adapters, targets);
    var at := PlacesOf(adapters, targets);
    forall j | 0 <= j < |rs| ensures AnswersTarget(adapters, rs[j], targets[at[j]], e, text) {
      PlaceOfTarget(adapters, targets, j);
      SplitTargetParts(targets[at[j]]);
    }
  }

  /** The response goes to the context's own channel, for the event's session and user. */
  predicate AnswersContext(r: Response, c: Context, e: Event, text: string) {
    r == Response(e.session, e.userId, c.channelType, c.channelId, text)
  }

  /**
   After any run, every other event is answered once by a done event on a channel with an adapter, with the text of the
   event itself if the channel streams and else with what was accumulated; and by an error event if it does not stream,
   with the error's message or a standing one. Nothing else is answered, and nothing without a context or an adapter.
   */
  lemma DirectAnswers(adapters: set<string>, run: seq<Label>, e: Event)
    requires var c := Front(Exec(adapters, run), e.session);
             c.Some? ==> !(e.kind.Done? && c.value.replyMode == "broadcast")
    ensures var s := Exec(adapters, run);
            var c, rs := Front(s, e.session), Responses(adapters, s, e);
            && (|rs| == 0 <==> c.None? || c.value.channelType !in adapters || !IsTerminal(e)
                               || (e.kind.Error? && c.value.supportsStreaming))
            && |rs| <= 1
            && (rs != [] && e.kind.Error? ==>
                  AnswersContext(rs[0], c.value, e,
                    if e.errorMessage != "" then e.errorMessage
                    else "An error occurred while processing your message."))
            && (rs != [] && e.kind.Done? ==>
                  AnswersContext(rs[0], c.value, e,
                    TextFor(if c.value.supportsStreaming then ""
                            else Concat(Pending(adapters, s.log, e.session)), e)))
  {
    AlwaysAccumulates(adapters, run, e.session);
  }

  /** An accumulator is as old as its first delta. */
  lemma AgeOfAccumulator(adapters: set<string>, s: State, e: Event, now: int)
    ensures var after := Apply(adapters, s, Handle(e, now)).accumulators;
            e.session in after ==>
              after[e.session].createdAt
              == if e.session in s.accumulators then s.accumulators[e.session].createdAt else now
  {
  }

  /** An eviction drops exactly the accumulators begun more than five minutes before. */
  lemma EvictsAfterFiveMinutes(adapters: set<string>, s: State, now: int, k: SessionKey)
    ensures k in Apply(adapters, s, EvictStale(now)).accumulators
            <==> k in s.accumulators && now <= s.accumulators[k].createdAt + 5 * 60 * 1000
    ensures k in Apply(adapters, s, EvictStale(now)).accumulators
            ==> Apply(adapters, s, EvictStale(now)).accumulators[k] == s.accumulators[k]
  {
  }

  // ---------------------------------------------------------------- what a broadcast leaves out

  predicate IsHeardDelta(x: LogEntry, k: SessionKey) {
    x.Routed? && x.e.session == k && x.e.kind.Delta? && x.context.Some?
  }

  /** The deltas of a session handled with any context since its last terminal event or eviction. */
  function Heard(log: seq<LogEntry>, k: SessionKey): seq<string> {
    if log == [] then []
    else if IsBoundary(Last(log), k) then []
    else if IsHeardDelta(Last(log), k) then Heard(DropLast(log), k) + [DeltaText(Last(log).e)]
    else Heard(DropLast(log), k)
  }

  lemma HeardSnoc(log: seq<LogEntry>, x: LogEntry, k: SessionKey)
    ensures Heard(log + [x], k)
            == if IsBoundary(x, k) then []
               else if IsHeardDelta(x, k) then Heard(log, k) + [DeltaText(x.e)]
               else Heard(log, k)
  {
    assert DropLast(log + [x]) == log;
  }

  /** All that is heard is pending if the front context buffers, and nothing is if it does not. */
  ghost predicate Hears(adapters: set<string>, s: State, k: SessionKey) {
    match Front(s, k)
    case None => Heard(s.log, k) == [] && Pending(adapters, s.log, k) == []
    case Some(c) => Pending(adapters, s.log, k) == if Buffers(adapters, c) then Heard(s.log, k) else []
  }

  lemma HearsStep(adapters: set<string>, s: State, l: Label, k: SessionKey)
    requires Hears(adapters, s, k)
    ensures Hears(adapters, Apply(adapters, s, l), k)
  {
    FrontAfter(adapters, s, l, k);
    match l
    case Register(_, _) =>
    case Handle(e, _) =>
      PendingSnoc(adapters, s.log, Routed(e, Front(s, e.session)), k);
      HeardSnoc(s.log, Routed(e, Front(s, e.session)), k);
    case EvictStale(now) =>
      PendingSnoc(adapters, s.log, Evicted(Stale(s.accumulators, now)), k);
      HeardSnoc(s.log, Evicted(Stale(s.accumulators, now)), k);
  }

  lemma {:induction false} AlwaysHears(adapters: set<string>, run: seq<Label>, k: SessionKey)
    ensures Hears(adapters, Exec(adapters, run), k)
  {
    if run != [] {
      AlwaysHears(adapters, DropLast(run), k);
      HearsStep(adapters, Exec(adapters, DropLast(run)), Last(run), k);
    }
  }

  lemma SameTextIff(e: Event, targets: seq<Target>, text: string, other: string)
    requires targets != []
    ensures BroadcastResponses(e, targets, text) == BroadcastResponses(e, targets, other) <==> text == other
  {
    assert BroadcastResponses(e, targets, text)[0].text == text;
    assert BroadcastResponses(e, targets, other)[0].text == other;
  }

  /**
   A broadcast says all that was heard exactly when the channel of its context buffers - has an adapter and does not
   stream, as cron does - or nothing was heard, or just what the done event says itself.
   */
  lemma BroadcastSaysAllIff(adapters: set<string>, run: seq<Label>, e: Event)
    requires var c := Front(Exec(adapters, run), e.session);
             c.Some? && IsBroadcast(e, c.value) && BroadcastTo(adapters, c.value.notifyChannels) != []
    ensures var s := Exec(adapters, run);
            var c := Front(s, e.session).value;
            var heard := Concat(Heard(s.log, e.session));
            Responses(adapters, s, e)
              == BroadcastResponses(e, BroadcastTo(adapters, c.notifyChannels), FinalText(heard, e))
            <==> Buffers(adapters, c) || heard == "" || heard == DeltaText(e)
  {
    var s := Exec(adapters, run);
    var c := Front(s, e.session).value;
    AlwaysAccumulates(adapters, run, e.session);
    AlwaysHears(adapters, run, e.session);
    SameTextIff(e, BroadcastTo(adapters, c.notifyChannels), FinalText(AccText(s, e.session), e),
                FinalText(Concat(Heard(s.log, e.session)), e));
  }

  function OneDeltaRun(entry: Registry.Entry, delta: Event): seq<Label> {
    [Register(delta.session, entry), Handle(delta, 0)]
  }

  /** Without buffering, whether for want of an adapter or because the channel streams, a delta goes missing. */
  lemma BroadcastLosesADelta(adapters: set<string>, entry: Registry.Entry, delta: Event, done: Event)
    requires delta.kind.Delta? && done.kind.Done? && delta.session == done.session && DeltaText(delta) != ""
    requires entry.context.replyMode == "broadcast" && !Buffers(adapters, entry.context) && done.delta.None?
    ensures var s := Exec(adapters, OneDeltaRun(entry, delta));
            && Heard(s.log, done.session) == [DeltaText(delta)]
            && forall r <- Responses(adapters, s, done) :: r.text == ""
  {
    var run := OneDeltaRun(entry, delta);
    var first := [run[0]];
    assert DropLast(run) == first && DropLast(first) == [] && Last(first) == run[0];
    var s1 := Exec(adapters, first);
    assert Exec(adapters, []) == Init();
    assert s1 == Apply(adapters, Init(), run[0]);
    HeardSnoc([], Routed(delta, Some(entry.context)), delta.session);
    assert [] + [Routed(delta, Some(entry.context))] == [Routed(delta, Some(entry.context))];
    assert Front(s1, delta.session) == Some(entry.context);
  }

  /** An accumulator always belongs to a session with a queued delivery context. */
  lemma AccumulatorImpliesContext(adapters: set<string>, run: seq<Label>, k: SessionKey)
    ensures k in Exec(adapters, run).accumulators ==> Registry.QueueOf(Exec(adapters, run).queues, k) != []
  {
    AlwaysAccumulates(adapters, run, k);
  }

  // ---------------------------------------------------------------- the methods

  // The attempt is reached and succeeds, if those before it fail.
  ghost predicate Reaches(outcomes: seq<bool>, cancelled: seq<bool>, i: nat)
    requires |outcomes| == 3 && |cancelled| == 2
  {
    i < 3 && outcomes[i] && forall j :: 0 <= j < i ==> !cancelled[j]
  }

  /**
   Attempts until the first success, at most three. Between two attempts it waits; `cancelled` says which waits the
   context would end, and then there is no further attempt.
   */
  method DeliverWithRetry(outcomes: seq<bool>, cancelled: seq<bool>) returns (delivered: bool, attempts: nat)
    requires |outcomes| == 3 && |cancelled| == 2
    ensures 1 <= attempts <= 3
    ensures forall i :: 0 <= i < attempts - 1 ==> !outcomes[i] && !cancelled[i]
    ensures delivered <==> outcomes[attempts - 1]
    ensures !delivered && attempts < 3 ==> cancelled[attempts - 1]
    ensures delivered <==> exists i: nat :: Reaches(outcomes, cancelled, i)
  {
    attempts := 0;
    while attempts < DELIVERY_MAX_RETRIES
      invariant attempts <= DELIVERY_MAX_RETRIES
      invariant forall i :: 0 <= i < attempts ==> !outcomes[i]
      invariant forall i :: 0 <= i < attempts && i < DELIVERY_MAX_RETRIES - 1 ==> !cancelled[i]
    {
      attempts := attempts + 1;
      if outcomes[attempts - 1] {
        assert Reaches(outcomes, cancelled, attempts - 1);
        return true, attempts;
      }
      if attempts < DELIVERY_MAX_RETRIES && cancelled[attempts - 1] { return false, attempts; }
    }
    return false, attempts;
  }

  class Dispatcher {
    const adapters: set<string>
    const registry: Registry.Registry
    var accumulators: map<SessionKey, Accumulator>
    ghost var run: seq<Label>

    ghost predicate Valid()
      reads this, registry
    {
      && registry.Valid()
      && registry.entries == Exec(adapters, run).queues && accumulators == Exec(adapters, run).accumulators
    }

    constructor (adapters: set<string>)
      ensures Valid() && run == [] && this.adapters == adapters && fresh(registry)
    {
      this.adapters := adapters;
      registry := new Registry.Registry();
      accumulators, run := map[], [];
    }

    method RegisterContext(k: SessionKey, entry: Registry.Entry)
      requires Valid()
      modifies this`run, registry
      ensures Valid() && run == old(run) + [Register(k, entry)]
    {
      assert DropLast(run + [Register(k, entry)]) == run;
      registry.Register(k, entry);
      run := run + [Register(k, entry)];
    }

    method HandleEvent(e: Event, now: int) returns (out: seq<Response>)
      requires Valid()
      modifies this, registry
      ensures Valid() && run == old(run) + [Handle(e, now)]
      ensures out == Responses(adapters, old(Exec(adapters, run)), e)
    {
      ghost var s := Exec(adapters, run);
      ghost var l := Handle(e, now);
      assert DropLast(run + [l]) == run;
      run := run + [l];
      var found;
      if e.kind.Done? || e.kind.Error? {
        found := registry.Consume(e.session);
      } else {
        found := registry.Lookup(e.session);
      }
      if found.None? { return []; }
      out := RouteEvent(e, found.value.context, now, s);
    }

    /** The part behind the lookup of the delivery context. */
    method RouteEvent(e: Event, c: Context, now: int, ghost s: State) returns (out: seq<Response>)
      requires accumulators == s.accumulators && Front(s, e.session) == Some(c)
      modifies this`accumulators
      ensures accumulators == AfterEvent(adapters, s, e, now) && out == Responses(adapters, s, e)
    {
      if c.replyMode == "broadcast" && e.kind.Done? {
        out := DeliverBroadcast(e, c);
        accumulators := accumulators - {e.session};
        return out;
      }
      if c.channelType !in adapters { return []; }
      if c.supportsStreaming {
        return if e.kind.Done? then [Response(e.session, e.userId, c.channelType, c.channelId, DeltaText(e))] else [];
      }
      out := HandleBufferedEvent(e, c, now);
    }

    method HandleBufferedEvent(e: Event, c: Context, now: int) returns (out: seq<Response>)
      modifies this`accumulators
      ensures var acc := if e.session in old(accumulators) then old(accumulators)[e.session].text else "";
              out == if e.kind.Done? then
                       [Response(e.session, e.userId, c.channelType, c.channelId, FinalText(acc, e))]
                     else if e.kind.Error? then
                       [Response(e.session, e.userId, c.channelType, c.channelId, ErrorText(e))]
                     else []
      ensures accumulators ==
                if IsTerminal(e) then old(accumulators) - {e.session}
                else if e.kind.Delta? then Accumulate(State(map[], old(accumulators), []), e, now)
                else old(accumulators)
    {
      match e.kind
      case Delta =>
        if e.session !in accumulators {
          accumulators := accumulators[e.session := Accumulator("", now)];
        }
        assert accumulators[e.session].text + "" == accumulators[e.session].text;
        if e.delta.Some? {
          var acc := accumulators[e.session];
          accumulators := accumulators[e.session := acc.(text := acc.text + e.delta.value)];
        }
        out := [];
      case Error =>
        out := [Response(e.session, e.userId, c.channelType, c.channelId, ErrorText(e))];
        accumulators := accumulators - {e.session};
      case Done =>
        var text := if e.session in accumulators then accumulators[e.session].text else "";
        if text == "" && e.delta.Some? { text := e.delta.value; }
        out := [Response(e.session, e.userId, c.channelType, c.channelId, text)];
        accumulators := accumulators - {e.session};
      case Other => out := [];
    }

    method DeliverBroadcast(e: Event, c: Context) returns (out: seq<Response>)
      ensures out == BroadcastResponses(e, BroadcastTo(adapters, c.notifyChannels),
                       FinalText(if e.session in accumulators then accumulators[e.session].text else "", e))
    {
      var text := if e.session in accumulators then accumulators[e.session].text else "";
      if text == "" && e.delta.Some? { text := e.delta.value; }
      out := [];
      for i := 0 to |c.notifyChannels|
        invariant out == BroadcastResponses(e, BroadcastTo(adapters, c.notifyChannels[..i]), text)
      {
        assert DropLast(c.notifyChannels[..i + 1]) == c.notifyChannels[..i];
        var t := SplitTarget(c.notifyChannels[i]);
        if t.None? { continue; }
        if t.value.channelType !in adapters { continue; }
        out := out + [Response(e.session, e.userId, t.value.channelType, t.value.channelId, text)];
      }
      assert c.notifyChannels[..|c.notifyChannels|] == c.notifyChannels;
    }

    method EvictStaleAccumulators(now: int)
      requires Valid()
      modifies this
      ensures Valid() && run == old(run) + [EvictStale(now)]
    {
      assert DropLast(run + [EvictStale(now)]) == run;
      var cutoff := now - ACCUMULATOR_TIMEOUT;
      var todo := accumulators.Keys;
      ghost var before := accumulators;
      while todo != {}
        invariant run == old(run) && registry.Valid() && registry.entries == old(registry.entries)
        invariant todo <= accumulators.Keys && accumulators == before - (Stale(before, now) - todo)
        decreases todo
      {
        var k :| k in todo;
        todo := todo - {k};
        if accumulators[k].createdAt < cutoff { accumulators := accumulators - {k}; }
      }
      assert Stale(before, now) - {} == Stale(before, now);
      run := run + [EvictStale(now)];
    }
  }
}
