/**
 The collect buffers of internal/gateway/router.go: per (user, channel) batches of messages, each with a debounce
 timer, flushed by goroutines that the timer or a full buffer starts. Enqueueing and extraction hold one mutex, so
 each is one step; timers fire and goroutines run whenever they like.
 */
module CollectBuffer {
  import opened Common

  type Key = string
  type Message = nat

  const DEFAULT_CAP: nat := 5

  function BufferKey(userId: string, channelType: string): Key { userId + ":" + channelType }

  /** Distinct users or channels never share a buffer, as channel names contain no colon. */
  lemma BufferKeyInjective(u: string, c: string, u': string, c': string)
    requires ColonFree(c) && ColonFree(c') && BufferKey(u, c) == BufferKey(u', c')
    ensures u == u' && c == c'
  {
    LastFieldUnique(u, c, u', c');
  }

  // A configured cap that is not positive is ignored.
  function CapOf(configured: Option<int>): nat {
    match configured
    case None => DEFAULT_CAP
    case Some(n) => if n > 0 then n else DEFAULT_CAP
  }

  datatype Buffer = Buffer(msgs: seq<Message>, cap: nat, priority: int, armed: bool)

  datatype Batch = Batch(key: Key, msgs: seq<Message>, priority: int)

  datatype State = State(
    buffers: map<Key, Buffer>,
    stray: map<Key, nat>,               // timers still armed whose buffer has been extracted
    pending: map<Key, nat>,             // flush goroutines that have not run yet
    // history
    arrivals: map<Key, seq<Message>>,
    batches: seq<Batch>)

  function Init(): State { State(map[], map[], map[], map[], []) }

  function Count(m: map<Key, nat>, k: Key): nat { if k in m then m[k] else 0 }

  function Buffered(s: State, k: Key): seq<Message> { if k in s.buffers then s.buffers[k].msgs else [] }

  function Arrivals(s: State, k: Key): seq<Message> { if k in s.arrivals then s.arrivals[k] else [] }

  datatype Label =
    | Enqueue(key: Key, msg: Message, cap: nat, priority: int) | FireTimer(key: Key) | FireStray(key: Key)
    | Flush(key: Key)

  predicate Enabled(s: State, l: Label) {
    match l
    case Enqueue(_, _, cap, _) => cap > 0
    case FireTimer(k) => k in s.buffers && s.buffers[k].armed
    case FireStray(k) => Count(s.stray, k) > 0
    case Flush(k) => Count(s.pending, k) > 0
  }

  function More(m: map<Key, nat>, k: Key): map<Key, nat> { m[k := Count(m, k) + 1] }

  function Fewer(m: map<Key, nat>, k: Key): map<Key, nat> { m[k := if Count(m, k) > 0 then Count(m, k) - 1 else 0] }

  predicate Full(buf: Buffer) { |buf.msgs| >= buf.cap }

  // Reaching the cap stops the timer.
  function Grown(buf: Buffer, msg: Message): Buffer {
    var buf' := buf.(msgs := buf.msgs + [msg]);
    if Full(buf') then buf'.(armed := false) else buf'
  }

  function Apply(s: State, l: Label): State
    requires Enabled(s, l)
  {
    match l
    case Enqueue(k, msg, cap, priority) =>
      var buf := Grown(if k in s.buffers then s.buffers[k] else Buffer([], cap, priority, true), msg);
      s.(buffers := s.buffers[k := buf],
         pending := if Full(buf) then More(s.pending, k) else s.pending,
         arrivals := s.arrivals[k := Arrivals(s, k) + [msg]])
    case FireTimer(k) =>
      s.(buffers := s.buffers[k := s.buffers[k].(armed := false)], pending := More(s.pending, k))
    case FireStray(k) => s.(stray := Fewer(s.stray, k), pending := More(s.pending, k))
    case Flush(k) =>
      var s' := s.(pending := Fewer(s.pending, k));
      if Buffered(s, k) == [] then s'
      else s'.(buffers := s.buffers - {k},
               stray := if s.buffers[k].armed then More(s.stray, k) else s.stray,
               batches := s.batches + [Batch(k, s.buffers[k].msgs, s.buffers[k].priority)])
  }

  function Step(s: State, l: Label): State {
    if Enabled(s, l) then Apply(s, l) else s
  }

  function Exec(run: seq<Label>): State {
    if run == [] then Init() else Step(Exec(DropLast(run)), Last(run))
  }

  /**
   Enqueueing starts a flush exactly when the buffer is then full, and stops its timer; a new buffer that is not full
   gets
   one, and else the timer stays as it is.
   */
  lemma FullStopsTheTimer(s: State, k: Key, msg: Message, cap: nat, priority: int)
    requires cap > 0
    ensures var s' := Apply(s, Enqueue(k, msg, cap, priority));
            var buf := s'.buffers[k];
            && buf.msgs == Buffered(s, k) + [msg]
            && (|buf.msgs| >= buf.cap ==> !buf.armed && Count(s'.pending, k) == Count(s.pending, k) + 1)
            && (|buf.msgs| < buf.cap ==>
                  Count(s'.pending, k) == Count(s.pending, k) && buf.armed == (k in s.buffers ==> s.buffers[k].armed))
            && (k in s.buffers ==> buf.cap == s.buffers[k].cap && buf.priority == s.buffers[k].priority)
            && (k !in s.buffers ==> buf.cap == cap && buf.priority == priority)
  {
  }

  /**
   A timer that goes off starts one flush of its key, whether its buffer is still there or has been extracted, and does
   so once; an extraction leaves a timer that is running behind, and takes the flush that did it.
   */
  lemma TimersStartFlushes(s: State, k: Key)
    ensures Enabled(s, FireTimer(k)) ==>
              var s' := Apply(s, FireTimer(k));
              && Count(s'.pending, k) == Count(s.pending, k) + 1 && !s'.buffers[k].armed
              && s'.buffers[k].msgs == s.buffers[k].msgs && s'.stray == s.stray
    ensures Enabled(s, FireStray(k)) ==>
              var s' := Apply(s, FireStray(k));
              && Count(s'.pending, k) == Count(s.pending, k) + 1 && Count(s'.stray, k) == Count(s.stray, k) - 1
              && s'.buffers == s.buffers
    ensures Enabled(s, Flush(k)) ==>
              var s' := Apply(s, Flush(k));
              && Count(s'.pending, k) == Count(s.pending, k) - 1
              && Count(s'.stray, k) == Count(s.stray, k)
                 + if Buffered(s, k) != [] && s.buffers[k].armed then 1 else 0
  {
  }

  /** The messages of the batches extracted for `k`, in extraction order. */
  function Extracted(batches: seq<Batch>, k: Key): seq<Message> {
    if batches == [] then []
    else Extracted(DropLast(batches), k) + if Last(batches).key == k then Last(batches).msgs else []
  }

  lemma ExtractedSnoc(batches: seq<Batch>, b: Batch, k: Key)
    ensures Extracted(batches + [b], k) == Extracted(batches, k) + if b.key == k then b.msgs else []
  {
  }

  ghost predicate Conserves(s: State, k: Key) {
    Extracted(s.batches, k) + Buffered(s, k) == Arrivals(s, k)
  }

  /** A buffer is never empty, and something is under way that will flush it; a full one has its flush started. */
  ghost predicate WillFlush(s: State, k: Key)
    requires k in s.buffers
  {
    && s.buffers[k].msgs != [] && s.buffers[k].cap > 0
    && (s.buffers[k].armed || Count(s.pending, k) > 0)
    && (|s.buffers[k].msgs| >= s.buffers[k].cap ==> Count(s.pending, k) > 0)
  }

  ghost predicate Inv(s: State) {
    && (forall k :: Conserves(s, k))
    && (forall k <- s.buffers :: WillFlush(s, k))
    && (forall b <- s.batches :: b.msgs != [])
  }

  lemma BufferedAfter(s: State, l: Label, k: Key)
    requires Enabled(s, l)
    ensures Buffered(Apply(s, l), k)
            == if l.Enqueue? && l.key == k then Buffered(s, k) + [l.msg]
               else if l.Flush? && l.key == k then []
               else Buffered(s, k)
  {
  }

  lemma ArrivalsAfter(s: State, l: Label, k: Key)
    requires Enabled(s, l)
    ensures Arrivals(Apply(s, l), k) == if l.Enqueue? && l.key == k then Arrivals(s, k) + [l.msg] else Arrivals(s, k)
  {
  }

  lemma ExtractedAfter(s: State, l: Label, k: Key)
    requires Enabled(s, l)
    ensures Extracted(Apply(s, l).batches, k)
            == if l.Flush? && l.key == k then Extracted(s.batches, k) + Buffered(s, k) else Extracted(s.batches, k)
  {
    if l.Flush? && l.key in s.buffers {
      ExtractedSnoc(s.batches, Batch(l.key, s.buffers[l.key].msgs, s.buffers[l.key].priority), k);
    }
  }

  lemma StepConserves(s: State, l: Label, k: Key)
    requires Conserves(s, k) && Enabled(s, l)
    ensures Conserves(Apply(s, l), k)
  {
    BufferedAfter(s, l, k);
    ArrivalsAfter(s, l, k);
    ExtractedAfter(s, l, k);
    if l.Enqueue? && k == l.key {
      assert Extracted(s.batches, k) + (Buffered(s, k) + [l.msg]) == Arrivals(s, k) + [l.msg];
    }
  }

  lemma StepWillFlush(s: State, l: Label, k: Key)
    requires Enabled(s, l) && k in Apply(s, l).buffers
    requires k in s.buffers ==> WillFlush(s, k)
    ensures WillFlush(Apply(s, l), k)
  {
  }

  lemma StepKeepsInv(s: State, l: Label)
    requires Inv(s)
    ensures Inv(Step(s, l))
  {
    if Enabled(s, l) {
      forall k ensures Conserves(Apply(s, l), k) {
        assert Conserves(s, k);
        StepConserves(s, l, k);
      }
      forall k | k in Apply(s, l).buffers ensures WillFlush(Apply(s, l), k) {
        StepWillFlush(s, l, k);
      }
    }
  }

  /**
   In every interleaving of enqueues, timers and flush goroutines, and for every key, the extracted batches in
   extraction order followed by the buffer are exactly the arrivals; no batch is empty; and every buffer has an armed
   timer or a flush under way.
   */
  lemma {:induction false} NothingIsLostOrReordered(run: seq<Label>)
    ensures Inv(Exec(run))
  {
    if run == [] {
      assert forall k :: Conserves(Init(), k);
    } else {
      NothingIsLostOrReordered(DropLast(run));
      StepKeepsInv(Exec(DropLast(run)), Last(run));
    }
  }

  /** When no timer is armed and no goroutine is left, every arrival has been extracted. */
  lemma QuietMeansDelivered(run: seq<Label>)
    requires forall k :: !Enabled(Exec(run), FireTimer(k)) && !Enabled(Exec(run), Flush(k))
    ensures Exec(run).buffers == map[]
    ensures forall k :: Extracted(Exec(run).batches, k) == Arrivals(Exec(run), k)
  {
    NothingIsLostOrReordered(run);
    var s := Exec(run);
    forall k ensures k !in s.buffers {
      assert k in s.buffers ==> WillFlush(s, k);
      assert !Enabled(s, FireTimer(k)) && !Enabled(s, Flush(k));
    }
    forall k ensures Extracted(s.batches, k) == Arrivals(s, k) {
      assert Conserves(s, k);
    }
  }

  /** From any reachable state, letting a buffer's timer fire and its flush run extracts the whole buffer. */
  lemma FlushDrains(run: seq<Label>, k: Key)
    ensures var s := Exec(run + [FireTimer(k), Flush(k)]);
            Buffered(s, k) == [] && Extracted(s.batches, k) == Arrivals(Exec(run), k)
  {
    var r1, r2 := run + [FireTimer(k)], run + [FireTimer(k), Flush(k)];
    assert DropLast(r1) == run && DropLast(r2) == r1;
    NothingIsLostOrReordered(run);
    NothingIsLostOrReordered(r2);
    assert Conserves(Exec(r2), k);
    assert k in Exec(run).buffers ==> WillFlush(Exec(run), k);
  }

  // ---------------------------------------------------------------- the methods

  datatype QueueItem = QueueItem(primary: Message, collected: seq<Message>, priority: int)

  class Router {
    var buffers: map<Key, Buffer>
    var stray: map<Key, nat>
    var pending: map<Key, nat>
    ghost var run: seq<Label>

    ghost predicate Valid()
      reads this
    {
      buffers == Exec(run).buffers && stray == Exec(run).stray && pending == Exec(run).pending
    }

    constructor ()
      ensures Valid() && run == []
    {
      buffers, stray, pending := map[], map[], map[];
      run := [];
    }

    method EnqueueCollect(userId: string, channelType: string, msg: Message, configuredCap: Option<int>, priority: int)
      requires Valid()
      modifies this
      ensures Valid()
      ensures run == old(run) + [Enqueue(BufferKey(userId, channelType), msg, CapOf(configuredCap), priority)]
    {
      var key := BufferKey(userId, channelType);
      ghost var l := Enqueue(key, msg, CapOf(configuredCap), priority);
      ghost var s := Exec(run);
      assert DropLast(run + [l]) == run;
      var buf;
      if key in buffers {
        buf := buffers[key];
      } else {
        buf := Buffer([], CapOf(configuredCap), priority, true);
      }
      buf := buf.(msgs := buf.msgs + [msg]);
      if |buf.msgs| >= buf.cap {
        buf := buf.(armed := false);           // timer.Stop
        pending := More(pending, key);         // go flushCollectBuffer
      }
      buffers := buffers[key := buf];
      assert Exec(run + [l]) == Apply(s, l);
      run := run + [l];
    }

    /** A timer goes off: that of the current buffer, or one left behind by an extracted buffer. */
    method TimerFires(key: Key, ofBuffer: bool)
      requires Valid() && if ofBuffer then key in buffers && buffers[key].armed else Count(stray, key) > 0
      modifies this
      ensures Valid() && run == old(run) + [if ofBuffer then FireTimer(key) else FireStray(key)]
    {
      ghost var l := if ofBuffer then FireTimer(key) else FireStray(key);
      assert DropLast(run + [l]) == run;
      if ofBuffer {
        buffers := buffers[key := buffers[key].(armed := false)];
      } else {
        stray := Fewer(stray, key);
      }
      pending := More(pending, key);
      run := run + [l];
    }

    /** One flush goroutine: the whole buffer becomes one item, its last message the primary one. */
    method FlushCollectBuffer(key: Key) returns (item: Option<QueueItem>)
      requires Valid() && Count(pending, key) > 0
      modifies this
      ensures Valid() && run == old(run) + [Flush(key)]
      ensures item.None? <==> key !in old(buffers)
      ensures item.Some? ==>
        && item.value.collected == old(buffers)[key].msgs != []
        && item.value.primary == Last(item.value.collected)
        && Exec(run).batches == old(Exec(run).batches) + [Batch(key, item.value.collected, item.value.priority)]
      ensures item.None? ==> Exec(run).batches == old(Exec(run).batches)
    {
      NothingIsLostOrReordered(run);
      assert key in buffers ==> WillFlush(Exec(run), key);
      assert DropLast(run + [Flush(key)]) == run;
      pending := Fewer(pending, key);
      run := run + [Flush(key)];
      if key !in buffers || |buffers[key].msgs| == 0 { return None; }
      var buf := buffers[key];
      buffers := buffers - {key};
      if buf.armed { stray := More(stray, key); }
      return Some(QueueItem(buf.msgs[|buf.msgs| - 1], buf.msgs, buf.priority));
    }
  }
}
