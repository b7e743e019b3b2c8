/**
 Index updates of one user that overlap, in one process or in several. upsertIndex of pkg/session/store.go holds its
 mutex
 neither from its read of sessions.json to its write nor across processes, so each call is three steps: the metadata
 write, the read of the index, and the write of the changed copy.
 */
module IndexRaces {
  import opened Common
  import opened SessionStore

  datatype Call =
    | MetaWritten(s: Session)
    | IndexRead(s: Session, copy: seq<IndexEntry>, readAt: nat)

  // A write of the index: the entry it put, and how many writes there were when it read.
  datatype IndexWrite = IndexWrite(entry: IndexEntry, readAt: nat)

  datatype State = State(
    meta: map<SessionId, Session>,
    index: seq<IndexEntry>,
    calls: map<nat, Call>,
    log: seq<IndexWrite>)

  function Init(): State { State(map[], [], map[], []) }

  datatype Label = WriteMeta(call: nat, s: Session) | ReadIndex(call: nat) | WriteIndex(call: nat, ok: bool)

  predicate Enabled(st: State, l: Label) {
    match l
    case WriteMeta(call, _) => call !in st.calls
    case ReadIndex(call) => call in st.calls && st.calls[call].MetaWritten?
    case WriteIndex(call, _) => call in st.calls && st.calls[call].IndexRead?
  }

  function Apply(st: State, l: Label): State
    requires Enabled(st, l)
  {
    match l
    case WriteMeta(call, s) => st.(meta := st.meta[s.id := s], calls := st.calls[call := MetaWritten(s)])
    case ReadIndex(call) =>
      st.(calls := st.calls[call := IndexRead(st.calls[call].s, st.index, |st.log|)])
    case WriteIndex(call, ok) =>
      var IndexRead(s, copy, readAt) := st.calls[call];
      if !ok then st.(calls := st.calls - {call})
      else State(st.meta, Put(copy, ToEntry(s)), st.calls - {call}, st.log + [IndexWrite(ToEntry(s), readAt)])
  }

  function Step(st: State, l: Label): State { if Enabled(st, l) then Apply(st, l) else st }

  function Exec(run: seq<Label>): State {
    if run == [] then Init() else Step(Exec(DropLast(run)), Last(run))
  }

  // ---------------------------------------------------------------- what the log says is left

  ghost predicate Sequential(log: seq<IndexWrite>) { forall i :: 0 <= i < |log| ==> log[i].readAt <= i }

  /** A write undoes those since its read: what was left then, and its own entry. */
  function Surviving(log: seq<IndexWrite>): seq<IndexEntry>
    decreases |log|
  {
    if log == [] then []
    else
      var w := Last(log);
      (if w.readAt < |log| then Surviving(log[..w.readAt]) else []) + [w.entry]
  }

  function Entries(log: seq<IndexWrite>): seq<IndexEntry> {
    seq(|log|, i requires 0 <= i < |log| => log[i].entry)
  }

  /** No write came between the read and the write of another call. */
  ghost predicate Quiet(log: seq<IndexWrite>) { forall i :: 0 <= i < |log| ==> log[i].readAt == i }

  function PutAll(es: seq<IndexEntry>): seq<IndexEntry> {
    if es == [] then [] else Put(PutAll(DropLast(es)), Last(es))
  }

  lemma PutAllSnoc(es: seq<IndexEntry>, e: IndexEntry)
    ensures PutAll(es + [e]) == Put(PutAll(es), e)
  {
    assert DropLast(es + [e]) == es;
  }

  ghost predicate CallRight(st: State, c: Call) {
    c.IndexRead? ==> c.readAt <= |st.log| && c.copy == PutAll(Surviving(st.log[..c.readAt]))
  }

  ghost predicate Inv(st: State) {
    && Sequential(st.log) && st.index == PutAll(Surviving(st.log))
    && forall call <- st.calls :: CallRight(st, st.calls[call])
  }

  lemma WriteKeepsInv(st: State, call: nat)
    requires Inv(st) && Enabled(st, WriteIndex(call, true))
    ensures Inv(Apply(st, WriteIndex(call, true)))
  {
    var st', c := Apply(st, WriteIndex(call, true)), st.calls[call];
    assert CallRight(st, c);
    assert st'.log[..c.readAt] == st.log[..c.readAt];
    PutAllSnoc(Surviving(st.log[..c.readAt]), ToEntry(c.s));
    forall other | other in st'.calls ensures CallRight(st', st'.calls[other]) {
      var d := st.calls[other];
      assert CallRight(st, d);
      if d.IndexRead? { assert st'.log[..d.readAt] == st.log[..d.readAt]; }
    }
  }

  lemma StepKeepsInv(st: State, l: Label)
    requires Inv(st)
    ensures Inv(Step(st, l))
  {
    if Enabled(st, l) {
      if l.WriteIndex? && l.ok {
        WriteKeepsInv(st, l.call);
      } else {
        var st' := Apply(st, l);
        assert st.log[..|st.log|] == st.log;
        forall other | other in st'.calls ensures CallRight(st', st'.calls[other]) {
          if other in st.calls { assert CallRight(st, st.calls[other]); }
        }
      }
    }
  }

  lemma {:induction false} Reachable(run: seq<Label>)
    ensures Inv(Exec(run))
  {
    if run != [] {
      Reachable(DropLast(run));
      StepKeepsInv(Exec(DropLast(run)), Last(run));
    }
  }

  /** In every run the index is what the surviving writes make of an empty one. */
  lemma IndexIsSurviving(run: seq<Label>)
    ensures Exec(run).index == PutAll(Surviving(Exec(run).log))
  {
    Reachable(run);
  }

  lemma {:induction false} SurvivesIffQuiet(log: seq<IndexWrite>)
    requires Sequential(log)
    ensures |Surviving(log)| <= |log|
    ensures |Surviving(log)| == |log| <==> Quiet(log)
    ensures Quiet(log) ==> Surviving(log) == Entries(log)
    decreases |log|
  {
    if log != [] {
      var w, init := Last(log), DropLast(log);
      SurvivesIffQuiet(log[..w.readAt]);
      assert Quiet(log) ==> log[..w.readAt] == init && Quiet(init);
      if w.readAt == |init| && Quiet(init) {
        assert log[..w.readAt] == init;
        assert forall i :: 0 <= i < |log| ==> log[i] == if i < |init| then init[i] else w;
      }
      assert Entries(log) == Entries(init) + [w.entry];
    }
  }

  // ---------------------------------------------------------------- when the index is right

  /** The last of the entries for a session. */
  function LastOf(es: seq<IndexEntry>, id: SessionId): Option<IndexEntry> {
    if es == [] then None else if Last(es).id == id then Some(Last(es)) else LastOf(DropLast(es), id)
  }

  // The ids are distinct, and each session's entry is the last one put for it.
  ghost predicate Holds(index: seq<IndexEntry>, es: seq<IndexEntry>) {
    && (forall i, j :: 0 <= i < j < |index| ==> index[i].id != index[j].id)
    && forall id :: EntryIn(index, id) == LastOf(es, id)
  }

  function EntryIn(index: seq<IndexEntry>, id: SessionId): Option<IndexEntry> {
    var i := Position(index, id);
    if i < |index| then Some(index[i]) else None
  }

  lemma EntryInIs(index: seq<IndexEntry>, i: nat)
    requires i < |index| && forall j :: 0 <= j < i ==> index[j].id != index[i].id
    ensures EntryIn(index, index[i].id) == Some(index[i])
  {
    FirstIsPosition(index, index[i].id, i);
  }

  lemma PutEntry(index: seq<IndexEntry>, e: IndexEntry, id: SessionId)
    ensures EntryIn(Put(index, e), id) == if id == e.id then Some(e) else EntryIn(index, id)
  {
    var after, at, i := Put(index, e), Position(index, e.id), Position(index, id);
    if id == e.id {
      assert after[at] == e && forall j :: 0 <= j < at ==> after[j] == index[j];
      EntryInIs(after, at);
    } else if i < |index| {
      assert after[i] == index[i] && forall j :: 0 <= j < i ==> after[j].id == index[j].id;
      EntryInIs(after, i);
    } else {
      assert forall j :: 0 <= j < |after| ==> after[j].id == if j == at then e.id else index[j].id;
      NotThere(after, id);
    }
  }

  lemma {:induction false} PutAllHolds(es: seq<IndexEntry>)
    ensures Holds(PutAll(es), es) && |PutAll(es)| <= |es|
  {
    if es != [] {
      var before, e := PutAll(DropLast(es)), Last(es);
      PutAllHolds(DropLast(es));
      forall id ensures EntryIn(PutAll(es), id) == LastOf(es, id) { PutEntry(before, e, id); }
    }
  }

  /** Every session whose metadata was written has its last surviving entry made from it. */
  ghost predicate LastSurvivorsRight(st: State) {
    forall id <- st.meta :: LastOf(Surviving(st.log), id) == Some(ToEntry(st.meta[id]))
  }

  ghost predicate Known(st: State) {
    && IdsMatch(st.meta)
    && (forall call <- st.calls :: st.calls[call].s.id in st.meta)
    && forall w <- st.log :: w.entry.id in st.meta
  }

  lemma {:induction false} AlwaysKnown(run: seq<Label>)
    ensures Known(Exec(run))
  {
    if run != [] {
      AlwaysKnown(DropLast(run));
    }
  }

  lemma {:induction false} SurvivorsWritten(log: seq<IndexWrite>, e: IndexEntry)
    requires e in Surviving(log)
    ensures exists w <- log :: w.entry == e
    decreases |log|
  {
    var w := Last(log);
    assert w in log;
    if e != w.entry {
      SurvivorsWritten(log[..w.readAt], e);
      var v :| v in log[..w.readAt] && v.entry == e;
      assert v in log;
    }
  }

  lemma {:induction false} LastOfIsIn(es: seq<IndexEntry>, id: SessionId)
    ensures LastOf(es, id).Some? ==> LastOf(es, id).value in es && LastOf(es, id).value.id == id
  {
    if es != [] && Last(es).id != id { LastOfIsIn(DropLast(es), id); }
  }

  /** In every run: the index represents the sessions exactly when each one's last surviving entry is its own. */
  lemma IndexRightIff(run: seq<Label>)
    ensures Represents(Exec(run).index, Exec(run).meta) <==> LastSurvivorsRight(Exec(run))
  {
    var st := Exec(run);
    var es := Surviving(st.log);
    Reachable(run);
    AlwaysKnown(run);
    PutAllHolds(es);
    if Represents(st.index, st.meta) {
      forall id | id in st.meta ensures LastOf(es, id) == Some(ToEntry(st.meta[id])) {
        assert EntryIn(st.index, id) == LastOf(es, id);
      }
    }
    if LastSurvivorsRight(st) { RightEntries(st, es); }
  }

  lemma RightEntries(st: State, es: seq<IndexEntry>)
    requires Known(st) && es == Surviving(st.log) && Holds(st.index, es) && LastSurvivorsRight(st)
    ensures Represents(st.index, st.meta)
  {
    forall i | 0 <= i < |st.index|
      ensures st.index[i].id in st.meta && st.index[i] == ToEntry(st.meta[st.index[i].id])
    {
      var id := st.index[i].id;
      EntryInIs(st.index, i);
      LastOfIsIn(es, id);
      SurvivorsWritten(st.log, LastOf(es, id).value);
    }
    forall id | id in st.meta ensures Position(st.index, id) < |st.index| {
      assert EntryIn(st.index, id) == LastOf(es, id);
    }
  }

  // ---------------------------------------------------------------- calls that create sessions

  /** Every metadata write creates a session, and no index write fails. */
  ghost predicate Creating(run: seq<Label>) {
    run == [] ||
    (Creating(DropLast(run)) &&
     match Last(run)
     case WriteMeta(_, s) => s.id !in Exec(DropLast(run)).meta
     case WriteIndex(_, ok) => ok
     case _ => true)
  }

  ghost predicate CallKnown(st: State, c: Call) { c.s.id in st.meta && st.meta[c.s.id] == c.s }

  ghost predicate WriteKnown(st: State, w: IndexWrite) {
    w.entry.id in st.meta && w.entry == ToEntry(st.meta[w.entry.id])
  }

  ghost predicate Written(st: State, id: SessionId) { exists w <- st.log :: w.entry.id == id }

  ghost predicate UnderWay(st: State, id: SessionId) { exists call <- st.calls :: st.calls[call].s.id == id }

  // Every session is written to the index, or is still to be.
  ghost predicate Tallied(st: State) {
    && |st.meta| == |st.log| + |st.calls|
    && (forall call <- st.calls :: CallKnown(st, st.calls[call]))
    && (forall w <- st.log :: WriteKnown(st, w))
    && forall id <- st.meta :: Written(st, id) || UnderWay(st, id)
  }

  lemma MetaTallied(st: State, call: nat, s: Session)
    requires Tallied(st) && Enabled(st, WriteMeta(call, s)) && s.id !in st.meta
    ensures Tallied(Apply(st, WriteMeta(call, s)))
  {
    var st' := Apply(st, WriteMeta(call, s));
    OneMore(st.calls, call, MetaWritten(s));
    OneMore(st.meta, s.id, s);
    forall x | x in st'.calls ensures CallKnown(st', st'.calls[x]) {
      if x != call { assert CallKnown(st, st.calls[x]); }
    }
    forall w | w in st'.log ensures WriteKnown(st', w) { assert WriteKnown(st, w); }
    forall id | id in st'.meta ensures Written(st', id) || UnderWay(st', id) {
      if id == s.id {
        assert st'.calls[call].s.id == id;
      } else {
        StillTallied(st, st', id);
      }
    }
  }

  lemma OneMore<K, V>(m: map<K, V>, k: K, v: V)
    ensures |m[k := v]| == |m| + if k in m then 0 else 1
  {
    assert m[k := v].Keys == m.Keys + {k};
    assert |m[k := v]| == |m[k := v].Keys| && |m| == |m.Keys|;
  }

  lemma StillTallied(st: State, st': State, id: SessionId)
    requires Written(st, id) || UnderWay(st, id)
    requires st'.log == st.log && forall x <- st.calls :: x in st'.calls && st'.calls[x].s == st.calls[x].s
    ensures Written(st', id) || UnderWay(st', id)
  {
    if UnderWay(st, id) {
      var x :| x in st.calls && st.calls[x].s.id == id;
      assert st'.calls[x].s.id == id;
    }
  }

  lemma ReadTallied(st: State, call: nat)
    requires Tallied(st) && Enabled(st, ReadIndex(call))
    ensures Tallied(Apply(st, ReadIndex(call)))
  {
    var st' := Apply(st, ReadIndex(call));
    var c := IndexRead(st.calls[call].s, st.index, |st.log|);
    OneMore(st.calls, call, c);
    forall x | x in st.calls ensures st'.calls[x].s == st.calls[x].s && CallKnown(st', st'.calls[x]) {
      assert CallKnown(st, st.calls[x]);
    }
    forall w | w in st'.log ensures WriteKnown(st', w) { assert WriteKnown(st, w); }
    forall id | id in st'.meta ensures Written(st', id) || UnderWay(st', id) { StillTallied(st, st', id); }
  }

  lemma WriteTallied(st: State, call: nat)
    requires Tallied(st) && Enabled(st, WriteIndex(call, true))
    ensures Tallied(Apply(st, WriteIndex(call, true)))
  {
    var st', s := Apply(st, WriteIndex(call, true)), st.calls[call].s;
    assert CallKnown(st, st.calls[call]);
    assert st'.calls.Keys == st.calls.Keys - {call};
    assert |st'.calls| == |st'.calls.Keys| && |st.calls| == |st.calls.Keys|;
    forall x | x in st'.calls ensures CallKnown(st', st'.calls[x]) { assert CallKnown(st, st.calls[x]); }
    forall w | w in st'.log ensures WriteKnown(st', w) {
      if w in st.log { assert WriteKnown(st, w); }
    }
    forall id | id in st'.meta ensures Written(st', id) || UnderWay(st', id) {
      StaysKnown(st, call, id);
    }
  }

  lemma StaysKnown(st: State, call: nat, id: SessionId)
    requires Enabled(st, WriteIndex(call, true)) && (Written(st, id) || UnderWay(st, id))
    ensures var st' := Apply(st, WriteIndex(call, true)); Written(st', id) || UnderWay(st', id)
  {
    var st' := Apply(st, WriteIndex(call, true));
    if Written(st, id) {
      var w :| w in st.log && w.entry.id == id;
      assert w in st'.log;
    } else {
      var x :| x in st.calls && st.calls[x].s.id == id;
      if x == call {
        assert Last(st'.log) in st'.log && Last(st'.log).entry.id == id;
      } else {
        assert st'.calls[x].s.id == id;
      }
    }
  }

  lemma {:induction false} CreatingTallied(run: seq<Label>)
    requires Creating(run)
    ensures Tallied(Exec(run))
  {
    if run != [] {
      var st := Exec(DropLast(run));
      CreatingTallied(DropLast(run));
      if Enabled(st, Last(run)) {
        match Last(run)
        case WriteMeta(call, s) => MetaTallied(st, call, s);
        case ReadIndex(call) => ReadTallied(st, call);
        case WriteIndex(call, _) => WriteTallied(st, call);
      }
    }
  }

  function Ids(es: seq<IndexEntry>): set<SessionId> { set e <- es :: e.id }

  lemma {:induction false} IdsAtMost(es: seq<IndexEntry>)
    ensures |Ids(es)| <= |es|
  {
    if es != [] {
      IdsAtMost(DropLast(es));
      assert es == DropLast(es) + [Last(es)];
      assert Ids(es) == Ids(DropLast(es)) + {Last(es).id};
    }
  }

  lemma {:induction false} SubsetSize(a: set<SessionId>, b: set<SessionId>)
    requires a <= b
    ensures |a| <= |b|
  {
    if a != {} {
      var x :| x in a;
      SubsetSize(a - {x}, b - {x});
    }
  }

  // As many entries as sessions leaves none of the writes out.
  lemma RightIsQuiet(st: State)
    requires Inv(st) && Tallied(st) && st.calls == map[] && Represents(st.index, st.meta)
    ensures Quiet(st.log)
  {
    PutAllHolds(Surviving(st.log));
    SurvivesIffQuiet(st.log);
    forall id | id in st.meta.Keys ensures id in Ids(st.index) {
      assert st.index[Position(st.index, id)] in st.index;
    }
    SubsetSize(st.meta.Keys, Ids(st.index));
    IdsAtMost(st.index);
    assert |st.meta| == |st.meta.Keys|;
  }

  lemma {:induction false} LastOfFinds(es: seq<IndexEntry>, e: IndexEntry)
    requires e in es
    ensures LastOf(es, e.id).Some?
  {
    if Last(es).id != e.id {
      assert es == DropLast(es) + [Last(es)];
      LastOfFinds(DropLast(es), e);
    }
  }

  lemma QuietIsRight(st: State)
    requires Inv(st) && Tallied(st) && st.calls == map[] && Quiet(st.log)
    ensures LastSurvivorsRight(st)
  {
    SurvivesIffQuiet(st.log);
    forall id | id in st.meta ensures LastOf(Entries(st.log), id) == Some(ToEntry(st.meta[id])) {
      assert Written(st, id) && !UnderWay(st, id);
      EntryRight(st, id);
    }
  }

  lemma EntryRight(st: State, id: SessionId)
    requires (forall w <- st.log :: WriteKnown(st, w)) && Written(st, id)
    ensures id in st.meta && LastOf(Entries(st.log), id) == Some(ToEntry(st.meta[id]))
  {
    var es := Entries(st.log);
    var w :| w in st.log && w.entry.id == id;
    var i :| 0 <= i < |st.log| && st.log[i] == w;
    assert es[i] == w.entry;
    LastOfFinds(es, w.entry);
    LastOfIsIn(es, id);
    var j :| 0 <= j < |es| && es[j] == LastOf(es, id).value;
    assert WriteKnown(st, st.log[j]);
  }

  /**
   When all calls of a run create sessions and all have returned without an error, every session is in the index if and
   only if no index write came between the read and the write of another call.
   */
  lemma AllListedIffQuiet(run: seq<Label>)
    requires Creating(run) && Exec(run).calls == map[]
    ensures Represents(Exec(run).index, Exec(run).meta) <==> Quiet(Exec(run).log)
  {
    Reachable(run);
    CreatingTallied(run);
    IndexRightIff(run);
    if Represents(Exec(run).index, Exec(run).meta) { RightIsQuiet(Exec(run)); }
    if Quiet(Exec(run).log) { QuietIsRight(Exec(run)); }
  }

  ghost predicate Reached(st: State) { exists run :: Exec(run) == st && Creating(run) }

  lemma ReachedStep(st: State, l: Label) returns (st': State)
    requires Reached(st) && Enabled(st, l) && (l.WriteMeta? ==> l.s.id !in st.meta) && (l.WriteIndex? ==> l.ok)
    ensures st' == Apply(st, l) && Reached(st')
  {
    var run :| Exec(run) == st && Creating(run);
    assert DropLast(run + [l]) == run;
    st' := Exec(run + [l]);
  }

  /** Any two sessions created at the same time: both calls succeed and one session is not in the index. */
  lemma SessionGoesMissing(a: Session, b: Session) returns (st: State)
    requires a.id != b.id
    ensures Reached(st) && st.calls == map[] && st.meta == map[a.id := a, b.id := b]
    ensures st.index == [ToEntry(b)] && |st.log| == 2
  {
    assert Exec([]) == Init();
    st := ReachedStep(Init(), WriteMeta(0, a));
    st := ReachedStep(st, WriteMeta(1, b));
    st := ReachedStep(st, ReadIndex(0));
    st := ReachedStep(st, ReadIndex(1));
    st := ReachedStep(st, WriteIndex(0, true));
    st := ReachedStep(st, WriteIndex(1, true));
  }
}
