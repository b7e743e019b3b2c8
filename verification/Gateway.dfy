/**
 The gateway pipeline of internal/gateway as one transition system. An inbound message is handled by its own goroutine
 (one per webhook request): it registers a delivery context, is tried against the deduplicator, and is then buffered or
 published. Flush goroutines extract a buffer and publish it. Every one of these is a separate step, and only the parts
 of the source that hold a mutex are single steps; so the goroutines of different messages interleave freely. Terminal
 agent events come back and pop the session's oldest delivery context.

 Registration comes before deduplication (internal/gateway/router.go:162-175), so the context a response is delivered
 with can be that of another message; the theorems say exactly which. Messages are numbered in registration order. A
 message's session key is built from its user, channel and session id.
 */
module Gateway {
  import opened Common
  import Registry
  import Dedup
  import CollectBuffer
  import SessionKey

  datatype Inbound = Inbound(
    userId: string, channelType: string, sessionId: string, originMessageId: string, text: string, textHash: string,
    context: Registry.DeliveryContext)

  function SessionOf(m: Inbound): string {
    SessionKey.BuildSessionKey(m.userId, m.channelType, m.sessionId)
  }

  // ---------------------------------------------------------------- routing decisions

  datatype QueueMode = Steer | Collect | Interrupt | Queue

  datatype ChannelConfig = ChannelConfig(mode: QueueMode, priority: int, collectCap: int)

  datatype Config = Config(perChannel: map<string, ChannelConfig>, defaultMode: QueueMode, dedupWindow: int)

  function QueueModeFor(cfg: Config, channelType: string): (QueueMode, int) {
    if channelType in cfg.perChannel then (cfg.perChannel[channelType].mode, cfg.perChannel[channelType].priority)
    else (cfg.defaultMode, 0)
  }

  function CollectCapFor(cfg: Config, channelType: string): nat {
    CollectBuffer.CapOf(if channelType in cfg.perChannel then Some(cfg.perChannel[channelType].collectCap) else None)
  }

  function DedupStrategy(m: Inbound): Dedup.Strategy {
    if m.originMessageId != "" then Dedup.ByMessageId
    else if m.text != "" then Dedup.ByPrompt
    else Dedup.NoDedup
  }

  function DeriveDedupKey(m: Inbound): string {
    if m.originMessageId != "" then m.originMessageId
    else if m.text != "" then m.textHash
    else ""
  }

  predicate Tracked(m: Inbound) { !DedupStrategy(m).NoDedup? && DeriveDedupKey(m) != "" }

  function DedupKey(m: Inbound): string { Dedup.BuildKey(m.userId, DedupStrategy(m), DeriveDedupKey(m)) }

  function RouteOf(m: Inbound): string { CollectBuffer.BufferKey(m.userId, m.channelType) }

  predicate Collects(cfg: Config, m: Inbound) { QueueModeFor(cfg, m.channelType).0.Collect? }

  // ---------------------------------------------------------------- state

  /** How far a message has come: the position of its handler, or what has become of it. */
  datatype Fate =
    | Registered                // context queued; to be tried against the deduplicator
    | Accepted                  // not a duplicate; to be buffered or published
    | Suppressed                // a duplicate
    | Buffered
    | Batched(batch: nat)       // extracted with the batch of this number
    | Published(item: nat)      // sent on its own as the item of this number
    | PublishFailed

  // A published queue item: the message the agent answers, all the messages it carries, and the batch it was made of.
  datatype Item = Item(primary: nat, msgs: seq<nat>, batch: Option<nat>)

  // A done or error event of a session: the item it answers (None for a surplus event), and the message whose
  // context it was delivered with (None when the queue was empty).
  datatype Terminal = Terminal(session: string, answers: Option<nat>, got: Option<nat>)

  datatype State = State(
    queues: Registry.Queues,
    accepted: seq<Dedup.Accepted>,
    clock: int,
    collect: CollectBuffer.State,
    outgoing: set<nat>,             // batches extracted whose flush goroutine has not published yet
    // history
    inbound: seq<Inbound>,
    fates: seq<Fate>,
    sent: seq<Item>,
    terminals: seq<Terminal>)

  function Init(): State { State(map[], [], 0, CollectBuffer.Init(), {}, [], [], [], []) }

  datatype Label =
    | Register(m: Inbound, createdAt: int)
    | Decide(n: nat, now: int, later: int)
    | Enqueue(n: nat)
    | Publish(n: nat, ok: bool)
    | Timer(l: CollectBuffer.Label)
    | Extract(key: string)
    | PublishBatch(batch: nat, ok: bool)
    | TerminalEvent(session: string, answers: Option<nat>)

  predicate WellNamed(m: Inbound) {
    m.userId != "" && m.channelType != "" && m.sessionId != "" && ColonFree(m.userId) && ColonFree(m.channelType)
  }

  predicate HasFate(s: State, n: nat, f: Fate) { n < |s.inbound| && n < |s.fates| && s.fates[n] == f }

  predicate Enabled(cfg: Config, s: State, l: Label) {
    match l
    case Register(m, _) => WellNamed(m)
    case Decide(n, now, later) => HasFate(s, n, Registered) && s.clock <= now <= later
    case Enqueue(n) => HasFate(s, n, Accepted) && Collects(cfg, s.inbound[n])
    case Publish(n, _) => HasFate(s, n, Accepted) && !Collects(cfg, s.inbound[n])
    case Timer(l) => (l.FireTimer? || l.FireStray?) && CollectBuffer.Enabled(s.collect, l)
    case Extract(key) => CollectBuffer.Enabled(s.collect, CollectBuffer.Flush(key))
    case PublishBatch(batch, _) =>
      batch in s.outgoing && batch < |s.collect.batches| && s.collect.batches[batch].msgs != []
    case TerminalEvent(session, answers) => answers.None? || Answerable(s, session, answers.value)
  }

  // The agent answers each item at most once, in whatever order.
  predicate Answerable(s: State, session: string, item: nat) {
    && item < |s.sent| && s.sent[item].primary < |s.inbound|
    && SessionOf(s.inbound[s.sent[item].primary]) == session
    && forall i :: 0 <= i < |s.terminals| ==> s.terminals[i].answers != Some(item)
  }

  // The messages of a batch that has just been extracted.
  function Extracted(fates: seq<Fate>, msgs: seq<nat>, batch: nat): seq<Fate> {
    seq(|fates|, n requires 0 <= n < |fates| => if n in msgs then Batched(batch) else fates[n])
  }

  function EnqueueLabel(cfg: Config, s: State, n: nat): CollectBuffer.Label
    requires n < |s.inbound|
  {
    var m := s.inbound[n];
    CollectBuffer.Enqueue(RouteOf(m), n, CollectCapFor(cfg, m.channelType), QueueModeFor(cfg, m.channelType).1)
  }

  function Apply(cfg: Config, s: State, l: Label): State
    requires Enabled(cfg, s, l)
  {
    match l
    case Register(m, createdAt) =>
      s.(inbound := s.inbound + [m], fates := s.fates + [Registered],
         queues := Registry.Registered(s.queues, SessionOf(m), Registry.Entry(m.context, |s.inbound|, createdAt)))
    case Decide(n, now, later) =>
      var m := s.inbound[n];
      if Tracked(m) && Dedup.SeenWithin(s.accepted, cfg.dedupWindow, DedupKey(m), now)
      then s.(fates := s.fates[n := Suppressed], clock := later)
      else
        s.(fates := s.fates[n := Accepted], clock := later,
           accepted := if Tracked(m) then s.accepted + [Dedup.Accepted(DedupKey(m), now, later)] else s.accepted)
    case Enqueue(n) =>
      s.(fates := s.fates[n := Buffered], collect := CollectBuffer.Step(s.collect, EnqueueLabel(cfg, s, n)))
    case Publish(n, ok) =>
      if ok then s.(fates := s.fates[n := Published(|s.sent|)], sent := s.sent + [Item(n, [n], None)])
      else s.(fates := s.fates[n := PublishFailed])
    case Timer(l) => s.(collect := CollectBuffer.Apply(s.collect, l))
    case Extract(key) =>
      var msgs, batch := CollectBuffer.Buffered(s.collect, key), |s.collect.batches|;
      s.(collect := CollectBuffer.Apply(s.collect, CollectBuffer.Flush(key)),
         fates := if msgs == [] then s.fates else Extracted(s.fates, msgs, batch),
         outgoing := if msgs == [] then s.outgoing else s.outgoing + {batch})
    case PublishBatch(batch, ok) =>
      var msgs := s.collect.batches[batch].msgs;
      s.(outgoing := s.outgoing - {batch},
         sent := if ok then s.sent + [Item(Last(msgs), msgs, Some(batch))] else s.sent)
    case TerminalEvent(session, answers) =>
      var q := Registry.QueueOf(s.queues, session);
      s.(queues := Registry.Consumed(s.queues, session),
         terminals := s.terminals + [Terminal(session, answers, if q == [] then None else Some(q[0].origin))])
  }

  function Step(cfg: Config, s: State, l: Label): State {
    if Enabled(cfg, s, l) then Apply(cfg, s, l) else s
  }

  function Exec(cfg: Config, run: seq<Label>): State {
    if run == [] then Init() else Step(cfg, Exec(cfg, DropLast(run)), Last(run))
  }

  // ---------------------------------------------------------------- specification on the history alone

  /** The messages of a session, in the order they were registered. */
  function Serials(inbound: seq<Inbound>, k: string): seq<nat> {
    if inbound == [] then []
    else Serials(DropLast(inbound), k) + if SessionOf(Last(inbound)) == k then [|inbound| - 1] else []
  }

  /** The messages whose contexts the terminal events of a session were delivered with, in event order. */
  function Gots(terminals: seq<Terminal>, k: string): seq<nat> {
    if terminals == [] then []
    else
      var t := Last(terminals);
      Gots(DropLast(terminals), k) + if t.session == k && t.got.Some? then [t.got.value] else []
  }

  function Origins(q: seq<Registry.Entry>): seq<nat> {
    seq(|q|, i requires 0 <= i < |q| => q[i].origin)
  }

  predicate IsEvent(t: Terminal, k: string) { t.session == k }

  predicate IsSurplus(t: Terminal, k: string) { t.session == k && t.answers.None? }

  predicate IsAnswer(t: Terminal, k: string) { t.session == k && t.answers.Some? }

  predicate IsMiss(t: Terminal, k: string) { t.session == k && t.got.None? }

  function Count(p: Terminal -> bool, terminals: seq<Terminal>): nat {
    if terminals == [] then 0 else Count(p, DropLast(terminals)) + if p(Last(terminals)) then 1 else 0
  }

  function Events(ts: seq<Terminal>, k: string): nat { Count((t: Terminal) => IsEvent(t, k), ts) }

  function Surplus(ts: seq<Terminal>, k: string): nat { Count((t: Terminal) => IsSurplus(t, k), ts) }

  function Answers(ts: seq<Terminal>, k: string): nat { Count((t: Terminal) => IsAnswer(t, k), ts) }

  function Misses(ts: seq<Terminal>, k: string): nat { Count((t: Terminal) => IsMiss(t, k), ts) }

  /** The messages of session `k` registered before message `n`. */
  ghost function Before(inbound: seq<Inbound>, k: string, n: nat): set<nat> {
    set q: nat | q < n && q < |inbound| && SessionOf(inbound[q]) == k
  }

  /** A message's place among the registrations of its session. */
  ghost function Place(inbound: seq<Inbound>, k: string, n: nat): nat { |Before(inbound, k, n)| }

  /** The messages of a session that the events of `ts` answer. */
  ghost function AnsweredSet(s: State, ts: seq<Terminal>, k: string): set<nat> {
    set i | 0 <= i < |ts| && IsAnswer(ts[i], k) && ts[i].answers.value < |s.sent| :: s.sent[ts[i].answers.value].primary
  }

  /** The messages of the session registered before `n` that no event of `ts` answers. */
  ghost function Unanswered(s: State, ts: seq<Terminal>, k: string, n: nat): set<nat> {
    Before(s.inbound, k, n) - AnsweredSet(s, ts, k)
  }

  /** The messages of the session registered after `n` that an event of `ts` answers. */
  ghost function Overtakers(s: State, ts: seq<Terminal>, k: string, n: nat): set<nat> {
    set q | q in AnsweredSet(s, ts, k) && n < q
  }
}
