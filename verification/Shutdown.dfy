/**
 Phased shutdown, internal/lifecycle/lifecycle.go: the registered components are sorted by phase and grouped; the
 groups are shut down one after the other, the components of one group by concurrent goroutines that a wait group
 counts. A phase that times out is reported, but still waited for.
 */
module Shutdown {
  import opened Common
  import opened Sorting

  datatype Component = Component(name: string, phase: int, hasStop: bool)

  datatype Group = Group(phase: int, components: seq<Component>)

  predicate ByPhase(x: Component, y: Component) { x.phase < y.phase }

  // ---------------------------------------------------------------- grouping

  function ComponentsOf(groups: seq<Group>): seq<seq<Component>> {
    seq(|groups|, i requires 0 <= i < |groups| => groups[i].components)
  }

  ghost predicate Uniform(g: Group) { g.components != [] && forall c <- g.components :: c.phase == g.phase }

  /** The maximal runs of equal phase: non-empty, neighbours differ, and nothing is lost or moved. */
  ghost predicate IsGrouping(comps: seq<Component>, groups: seq<Group>) {
    && Flatten(ComponentsOf(groups)) == comps
    && (forall i :: 0 <= i < |groups| ==> Uniform(groups[i]))
    && (forall i :: 0 < i < |groups| ==> groups[i - 1].phase != groups[i].phase)
  }

  lemma ComponentsOfSnoc(groups: seq<Group>, g: Group)
    ensures Flatten(ComponentsOf(groups + [g])) == Flatten(ComponentsOf(groups)) + g.components
  {
    assert ComponentsOf(groups + [g]) == ComponentsOf(groups) + [g.components];
    FlattenSnoc(ComponentsOf(groups), g.components);
  }

  // The groups closed so far, none ending in the phase of the one being filled.
  ghost predicate Closed(groups: seq<Group>, phase: int) {
    && (forall i :: 0 <= i < |groups| ==> Uniform(groups[i]))
    && (forall i :: 0 < i < |groups| ==> groups[i - 1].phase != groups[i].phase)
    && (groups == [] || Last(groups).phase != phase)
  }

  lemma ClosedSnoc(groups: seq<Group>, g: Group, phase: int)
    requires Closed(groups, g.phase) && Uniform(g) && phase != g.phase
    ensures Closed(groups + [g], phase)
    ensures Flatten(ComponentsOf(groups + [g])) == Flatten(ComponentsOf(groups)) + g.components
  {
    ComponentsOfSnoc(groups, g);
  }

  method GroupByPhase(comps: seq<Component>) returns (groups: seq<Group>)
    ensures IsGrouping(comps, groups)
  {
    groups := [];
    if |comps| == 0 { return; }
    var current := Group(comps[0].phase, []);
    for k := 0 to |comps|
      invariant current.components == [] <==> k == 0
      invariant k == 0 ==> current.phase == comps[0].phase
      invariant forall c <- current.components :: c.phase == current.phase
      invariant Closed(groups, current.phase)
      invariant Flatten(ComponentsOf(groups)) + current.components == comps[..k]
    {
      if comps[k].phase != current.phase {
        ClosedSnoc(groups, current, comps[k].phase);
        groups := groups + [current];
        current := Group(comps[k].phase, []);
      }
      assert comps[..k + 1] == comps[..k] + [comps[k]];
      current := current.(components := current.components + [comps[k]]);
    }
    ClosedSnoc(groups, current, current.phase + 1);
    groups := groups + [current];
    assert comps[..|comps|] == comps;
  }

  lemma {:induction false} FlattenHolds(comps: seq<Component>, groups: seq<Group>, i: nat, c: Component)
    requires Flatten(ComponentsOf(groups)) == comps && i < |groups| && c in groups[i].components
    ensures c in comps
    decreases |groups|
  {
    var init := DropLast(groups);
    assert DropLast(ComponentsOf(groups)) == ComponentsOf(init);
    if i < |init| { FlattenHolds(Flatten(ComponentsOf(init)), init, i, c); }
  }

  lemma InitIsGrouping(comps: seq<Component>, groups: seq<Group>)
    requires IsGrouping(comps, groups) && SortedBy(ByPhase, comps) && groups != []
    ensures var front := Flatten(ComponentsOf(DropLast(groups)));
            && IsGrouping(front, DropLast(groups)) && SortedBy(ByPhase, front)
            && comps == front + Last(groups).components
  {
    var init := DropLast(groups);
    assert groups == init + [Last(groups)] && ComponentsOf(init) == DropLast(ComponentsOf(groups));
    var front := Flatten(ComponentsOf(init));
    assert comps == front + Last(groups).components;
    assert forall k :: 0 <= k < |front| ==> comps[k] == front[k];
  }

  /** The groups of a sorted list have strictly increasing phases, so no phase is split. */
  lemma {:induction false} GroupsIncrease(comps: seq<Component>, groups: seq<Group>, i: nat, j: nat)
    requires IsGrouping(comps, groups) && SortedBy(ByPhase, comps) && i < j < |groups|
    ensures groups[i].phase < groups[j].phase
    decreases |groups|
  {
    var init := DropLast(groups);
    var front := Flatten(ComponentsOf(init));
    InitIsGrouping(comps, groups);
    if j < |init| {
      GroupsIncrease(front, init, i, j);
    } else {
      var before := groups[j - 1].components[0];
      FlattenHolds(front, init, j - 1, before);
      var a :| 0 <= a < |front| && front[a] == before;
      assert comps[a] == before && comps[|front|] == Last(groups).components[0];
      if i < j - 1 { GroupsIncrease(front, init, i, j - 1); }
    }
  }

  class Manager {
    var components: seq<Component>

    constructor ()
      ensures components == []
    {
      components := [];
    }

    method Register(c: Component)
      modifies this
      ensures components == old(components) + [c]
    {
      components := components + [c];
    }

    /** The order in which Shutdown will stop what is registered. */
    method Plan() returns (groups: seq<Group>)
      ensures IsGrouping(StableSort(ByPhase, components), groups)
      ensures forall i, j :: 0 <= i < j < |groups| ==> groups[i].phase < groups[j].phase
      ensures multiset(Flatten(ComponentsOf(groups))) == multiset(components)
    {
      var registered := components;
      var comps := new Component[|registered|](i requires 0 <= i < |registered| => registered[i]);
      assert comps[..] == components;
      InsertionSort(comps, ByPhase);
      StableSortIsRight(ByPhase, components);
      groups := GroupByPhase(comps[..]);
      forall i, j | 0 <= i < j < |groups| ensures groups[i].phase < groups[j].phase {
        GroupsIncrease(comps[..], groups, i, j);
      }
    }
  }

  // ---------------------------------------------------------------- running the plan

  // The i-th component of the g-th group.
  datatype Pos = Pos(g: nat, i: nat)

  datatype Event = Began(p: Pos) | Returned(p: Pos, failed: bool) | TimedOut(g: nat)

  datatype ShutdownError = StopFailed(p: Pos) | PhaseTimedOut(g: nat)

  datatype State = State(
    group: nat, spawned: nat,             // the loop over the groups, and the loop over its components
    pending: nat,                         // the wait group's counter
    timedOut: bool,
    ready: set<Pos>, stopping: set<Pos>, ended: set<Pos>,    // goroutines, by what they are doing
    errs: seq<ShutdownError>,             // of this group
    allErrs: seq<ShutdownError>,
    log: seq<Event>)

  function Init(): State { State(0, 0, 0, false, {}, {}, {}, [], [], []) }

  datatype Label = Spawn | Begin(p: Pos) | Finish(p: Pos, failed: bool) | Timeout | Advance

  predicate Exists(groups: seq<Group>, p: Pos) { p.g < |groups| && p.i < |groups[p.g].components| }

  predicate HasStop(groups: seq<Group>, p: Pos) { Exists(groups, p) && groups[p.g].components[p.i].hasStop }

  predicate AllSpawned(groups: seq<Group>, s: State) {
    s.group < |groups| && s.spawned >= |groups[s.group].components|
  }

  predicate Enabled(groups: seq<Group>, s: State, l: Label) {
    match l
    case Spawn => s.group < |groups| && s.spawned < |groups[s.group].components|
    case Begin(p) => p in s.ready
    case Finish(p, _) => p in s.stopping && s.pending > 0
    case Timeout => AllSpawned(groups, s) && !s.timedOut
    case Advance => AllSpawned(groups, s) && s.pending == 0
  }

  function Apply(groups: seq<Group>, s: State, l: Label): State
    requires Enabled(groups, s, l)
  {
    match l
    case Spawn =>
      s.(spawned := s.spawned + 1, pending := s.pending + 1, ready := s.ready + {Pos(s.group, s.spawned)})
    case Begin(p) =>
      if HasStop(groups, p) then
        s.(ready := s.ready - {p}, stopping := s.stopping + {p}, log := s.log + [Began(p)])
      else
        s.(ready := s.ready - {p}, ended := s.ended + {p}, pending := if s.pending > 0 then s.pending - 1 else 0)
    case Finish(p, failed) =>
      s.(stopping := s.stopping - {p}, ended := s.ended + {p}, pending := s.pending - 1,
         errs := if failed then s.errs + [StopFailed(p)] else s.errs, log := s.log + [Returned(p, failed)])
    case Timeout =>
      s.(timedOut := true, errs := s.errs + [PhaseTimedOut(s.group)], log := s.log + [TimedOut(s.group)])
    case Advance =>
      s.(group := s.group + 1, spawned := 0, timedOut := false, errs := [], allErrs := s.allErrs + s.errs)
  }

  function Step(groups: seq<Group>, s: State, l: Label): State {
    if Enabled(groups, s, l) then Apply(groups, s, l) else s
  }

  function Exec(groups: seq<Group>, run: seq<Label>): State {
    if run == [] then Init() else Step(groups, Exec(groups, DropLast(run)), Last(run))
  }

  predicate Complete(groups: seq<Group>, s: State) { s.group == |groups| }

  // ---------------------------------------------------------------- what the log says

  function Count(e: Event, log: seq<Event>): nat {
    if log == [] then 0 else Count(e, DropLast(log)) + if Last(log) == e then 1 else 0
  }

  function Calls(log: seq<Event>, p: Pos): nat { Count(Began(p), log) }

  function Returns(log: seq<Event>, p: Pos): nat { Count(Returned(p, true), log) + Count(Returned(p, false), log) }

  function ErrorOf(e: Event): seq<ShutdownError> {
    match e
    case Began(_) => []
    case Returned(p, failed) => if failed then [StopFailed(p)] else []
    case TimedOut(g) => [PhaseTimedOut(g)]
  }

  /** The failures of a log, in the order they happened. */
  function Errors(log: seq<Event>): seq<ShutdownError> {
    if log == [] then [] else Errors(DropLast(log)) + ErrorOf(Last(log))
  }

  lemma LogSnoc(log: seq<Event>, e: Event, x: Event)
    ensures Errors(log + [e]) == Errors(log) + ErrorOf(e)
    ensures Count(x, log + [e]) == Count(x, log) + if e == x then 1 else 0
  {
    assert DropLast(log + [e]) == log;
  }

  ghost predicate ReturnedBy(log: seq<Event>, q: Pos) { exists failed :: Returned(q, failed) in log }

  /** When a component's stop was called, every stop function of every earlier group had returned. */
  ghost predicate Barrier(groups: seq<Group>, log: seq<Event>) {
    forall b, q: Pos | 0 <= b < |log| && log[b].Began? && HasStop(groups, q) && q.g < log[b].p.g
      :: ReturnedBy(log[..b], q)
  }

  // ---------------------------------------------------------------- invariant

  predicate Started(groups: seq<Group>, s: State, p: Pos) {
    Exists(groups, p) && (p.g < s.group || (p.g == s.group && p.i < s.spawned))
  }

  ghost predicate Bounds(groups: seq<Group>, s: State) {
    && s.group <= |groups|
    && s.spawned <= (if s.group < |groups| then |groups[s.group].components| else 0)
    && (s.timedOut ==> AllSpawned(groups, s))
    && s.pending == |s.ready| + |s.stopping|
  }

  ghost predicate Live(s: State, p: Pos) { p in s.ready || p in s.stopping }

  ghost predicate Goroutines(groups: seq<Group>, s: State) {
    && (forall p :: p in s.ready ==> p !in s.stopping && p !in s.ended)
    && (forall p :: p in s.stopping ==> p !in s.ended && HasStop(groups, p))
    && (forall p: Pos :: Started(groups, s, p) <==> Live(s, p) || p in s.ended)
    && (forall p :: Live(s, p) ==> p.g == s.group)
  }

  ghost predicate CallsMatch(groups: seq<Group>, log: seq<Event>, stopping: set<Pos>, ended: set<Pos>) {
    forall p: Pos :: Calls(log, p) == if HasStop(groups, p) && (p in stopping || p in ended) then 1 else 0
  }

  ghost predicate ReturnsMatch(groups: seq<Group>, log: seq<Event>, ended: set<Pos>) {
    forall p: Pos :: Returns(log, p) == if HasStop(groups, p) && p in ended then 1 else 0
  }

  ghost predicate TimeoutsMatch(log: seq<Event>, group: nat, timedOut: bool) {
    forall g: nat :: Count(TimedOut(g), log) <= if g < group || (g == group && timedOut) then 1 else 0
  }

  ghost predicate Logged(groups: seq<Group>, s: State) {
    && CallsMatch(groups, s.log, s.stopping, s.ended) && ReturnsMatch(groups, s.log, s.ended)
    && TimeoutsMatch(s.log, s.group, s.timedOut)
    && s.allErrs + s.errs == Errors(s.log)
    && (Complete(groups, s) ==> s.errs == [])
  }

  ghost predicate Inv(groups: seq<Group>, s: State) {
    Bounds(groups, s) && Goroutines(groups, s) && Logged(groups, s) && Barrier(groups, s.log)
  }

  lemma {:induction false} CountedIsIn(e: Event, log: seq<Event>)
    ensures Count(e, log) > 0 <==> e in log
  {
    if log != [] {
      CountedIsIn(e, DropLast(log));
      assert log == DropLast(log) + [Last(log)];
    }
  }

  lemma BarrierStep(groups: seq<Group>, log: seq<Event>, e: Event)
    requires Barrier(groups, log)
    requires e.Began? ==> forall q: Pos | HasStop(groups, q) && q.g < e.p.g :: ReturnedBy(log, q)
    ensures Barrier(groups, log + [e])
  {
    var log' := log + [e];
    forall b, q: Pos | 0 <= b < |log'| && log'[b].Began? && HasStop(groups, q) && q.g < log'[b].p.g
      ensures ReturnedBy(log'[..b], q)
    {
      if b < |log| { assert log'[..b] == log[..b]; } else { assert log'[..b] == log; }
    }
  }

  // The loops and the wait group.
  lemma BoundsKept(groups: seq<Group>, s: State, l: Label)
    requires Bounds(groups, s) && Goroutines(groups, s) && Enabled(groups, s, l)
    ensures Bounds(groups, Apply(groups, s, l))
  {
    assert l.Spawn? ==> !Started(groups, s, Pos(s.group, s.spawned));
    WaitGroupKept(groups, s, l);
  }

  lemma WaitGroupKept(groups: seq<Group>, s: State, l: Label)
    requires Enabled(groups, s, l) && s.pending == |s.ready| + |s.stopping|
    requires l.Spawn? ==> Pos(s.group, s.spawned) !in s.ready
    requires l.Begin? ==> l.p !in s.stopping
    ensures var s' := Apply(groups, s, l); s'.pending == |s'.ready| + |s'.stopping|
  {
    match l
    case Spawn =>
      AddOne(s.ready, Pos(s.group, s.spawned));
    case Begin(p) =>
      DropOne(s.ready, p);
      AddOne(s.stopping, p);
    case Finish(p, _) => DropOne(s.stopping, p);
    case _ =>
  }

  lemma AddOne<T>(s: set<T>, x: T)
    requires x !in s
    ensures |s + {x}| == |s| + 1
  {
  }

  lemma DropOne<T>(s: set<T>, x: T)
    requires x in s
    ensures |s - {x}| == |s| - 1
  {
  }

  lemma SpawnKept(groups: seq<Group>, s: State)
    requires Bounds(groups, s) && Goroutines(groups, s) && Enabled(groups, s, Spawn)
    ensures Goroutines(groups, Apply(groups, s, Spawn))
  {
  }

  lemma MoveKept(groups: seq<Group>, s: State, l: Label)
    requires Goroutines(groups, s) && Enabled(groups, s, l) && (l.Begin? || l.Finish?)
    ensures Goroutines(groups, Apply(groups, s, l))
  {
  }

  lemma GoroutinesKept(groups: seq<Group>, s: State, l: Label)
    requires Bounds(groups, s) && Goroutines(groups, s) && Enabled(groups, s, l)
    ensures Goroutines(groups, Apply(groups, s, l))
  {
    if l.Spawn? {
      SpawnKept(groups, s);
    } else if l.Begin? || l.Finish? {
      MoveKept(groups, s, l);
    } else {
      if l.Advance? { assert s.ready == {} && s.stopping == {}; }
      var s' := Apply(groups, s, l);
      forall q: Pos ensures Started(groups, s', q) <==> Started(groups, s, q) {}
    }
  }

  lemma ReturnsOther(groups: seq<Group>, log: seq<Event>, e: Event, ended: set<Pos>)
    requires !e.Returned? && ReturnsMatch(groups, log, ended)
    ensures ReturnsMatch(groups, log + [e], ended)
  {
    forall p: Pos ensures Returns(log + [e], p) == Returns(log, p) {
      LogSnoc(log, e, Returned(p, true));
      LogSnoc(log, e, Returned(p, false));
    }
  }

  lemma TimeoutsOther(log: seq<Event>, e: Event, group: nat, timedOut: bool)
    requires !e.TimedOut? && TimeoutsMatch(log, group, timedOut)
    ensures TimeoutsMatch(log + [e], group, timedOut)
  {
    forall g: nat ensures Count(TimedOut(g), log + [e]) == Count(TimedOut(g), log) { LogSnoc(log, e, TimedOut(g)); }
  }

  lemma CallsOther(groups: seq<Group>, log: seq<Event>, e: Event, stopping: set<Pos>, ended: set<Pos>)
    requires !e.Began? && CallsMatch(groups, log, stopping, ended)
    ensures CallsMatch(groups, log + [e], stopping, ended)
  {
    forall p: Pos ensures Calls(log + [e], p) == Calls(log, p) { LogSnoc(log, e, Began(p)); }
  }

  lemma TallyBegan(groups: seq<Group>, log: seq<Event>, p: Pos, stopping: set<Pos>, ended: set<Pos>)
    requires CallsMatch(groups, log, stopping, ended) && HasStop(groups, p) && p !in stopping && p !in ended
    ensures CallsMatch(groups, log + [Began(p)], stopping + {p}, ended)
  {
    forall q: Pos ensures Calls(log + [Began(p)], q) == Calls(log, q) + if q == p then 1 else 0 {
      LogSnoc(log, Began(p), Began(q));
    }
  }

  lemma EarlierReturned(groups: seq<Group>, s: State, p: Pos)
    requires Inv(groups, s) && p in s.ready
    ensures forall q: Pos | HasStop(groups, q) && q.g < p.g :: ReturnedBy(s.log, q)
  {
    forall q: Pos | HasStop(groups, q) && q.g < p.g ensures ReturnedBy(s.log, q) {
      assert Started(groups, s, q);
      assert q in s.ended && Returns(s.log, q) == 1;
      CountedIsIn(Returned(q, true), s.log);
      CountedIsIn(Returned(q, false), s.log);
    }
  }

  lemma BeginLogged(groups: seq<Group>, s: State, p: Pos)
    requires Goroutines(groups, s) && Logged(groups, s) && p in s.ready
    ensures Logged(groups, Apply(groups, s, Begin(p)))
  {
    if HasStop(groups, p) {
      TallyBegan(groups, s.log, p, s.stopping, s.ended);
      ReturnsOther(groups, s.log, Began(p), s.ended);
      TimeoutsOther(s.log, Began(p), s.group, s.timedOut);
      LogSnoc(s.log, Began(p), Began(p));
    }
  }

  lemma FinishLogged(groups: seq<Group>, s: State, p: Pos, failed: bool)
    requires Goroutines(groups, s) && Logged(groups, s) && p in s.stopping && s.group < |groups|
    ensures var log := s.log + [Returned(p, failed)];
            && CallsMatch(groups, log, s.stopping - {p}, s.ended + {p})
            && ReturnsMatch(groups, log, s.ended + {p})
            && TimeoutsMatch(log, s.group, s.timedOut)
  {
    var e := Returned(p, failed);
    CallsOther(groups, s.log, e, s.stopping, s.ended);
    TimeoutsOther(s.log, e, s.group, s.timedOut);
    forall q: Pos ensures Returns(s.log + [e], q) == Returns(s.log, q) + if q == p then 1 else 0 {
      LogSnoc(s.log, e, Returned(q, true));
      LogSnoc(s.log, e, Returned(q, false));
    }
  }

  lemma TimeoutLogged(groups: seq<Group>, s: State)
    requires Logged(groups, s) && Enabled(groups, s, Timeout)
    ensures Logged(groups, Apply(groups, s, Timeout))
  {
    var e := TimedOut(s.group);
    CallsOther(groups, s.log, e, s.stopping, s.ended);
    ReturnsOther(groups, s.log, e, s.ended);
    LogSnoc(s.log, e, e);
    forall g: nat ensures Count(TimedOut(g), s.log + [e]) == Count(TimedOut(g), s.log) + if g == s.group then 1 else 0 {
      LogSnoc(s.log, e, TimedOut(g));
    }
    assert s.allErrs + (s.errs + ErrorOf(e)) == (s.allErrs + s.errs) + ErrorOf(e);
  }

  lemma BarrierKept(groups: seq<Group>, s: State, l: Label)
    requires Inv(groups, s) && Enabled(groups, s, l)
    ensures Barrier(groups, Apply(groups, s, l).log)
  {
    match l
    case Begin(p) =>
      EarlierReturned(groups, s, p);
      BarrierStep(groups, s.log, Began(p));
    case Finish(p, failed) => BarrierStep(groups, s.log, Returned(p, failed));
    case Timeout => BarrierStep(groups, s.log, TimedOut(s.group));
    case _ =>
  }

  lemma LoggedKept(groups: seq<Group>, s: State, l: Label)
    requires Inv(groups, s) && Enabled(groups, s, l)
    ensures Logged(groups, Apply(groups, s, l))
  {
    match l
    case Begin(p) => BeginLogged(groups, s, p);
    case Finish(p, failed) =>
      assert Live(s, p) && Started(groups, s, p);
      FinishLogged(groups, s, p, failed);
      var s' := Apply(groups, s, l);
      LogSnoc(s.log, Returned(p, failed), Returned(p, failed));
      assert s'.allErrs + s'.errs == Errors(s.log) + ErrorOf(Returned(p, failed));
    case Timeout => TimeoutLogged(groups, s);
    case _ =>
  }

  lemma {:induction false} Reachable(groups: seq<Group>, run: seq<Label>)
    ensures Inv(groups, Exec(groups, run))
  {
    if run != [] {
      var s, l := Exec(groups, DropLast(run)), Last(run);
      Reachable(groups, DropLast(run));
      if Enabled(groups, s, l) {
        BoundsKept(groups, s, l);
        GoroutinesKept(groups, s, l);
        LoggedKept(groups, s, l);
        BarrierKept(groups, s, l);
      }
    }
  }

  // ---------------------------------------------------------------- main results

  function PhaseAt(groups: seq<Group>, p: Pos): int
    requires Exists(groups, p)
  {
    groups[p.g].components[p.i].phase
  }

  /**
   In every interleaving, timeouts included: when a stop function is called, those of all components of a lower phase
   have returned.
   */
  lemma LaterPhasesWait(comps: seq<Component>, groups: seq<Group>, run: seq<Label>, b: nat, q: Pos)
    requires IsGrouping(StableSort(ByPhase, comps), groups)
    requires b < |Exec(groups, run).log| && Exec(groups, run).log[b].Began? && HasStop(groups, q)
    ensures Exists(groups, Exec(groups, run).log[b].p)
    ensures PhaseAt(groups, q) < PhaseAt(groups, Exec(groups, run).log[b].p) ==>
              ReturnedBy(Exec(groups, run).log[..b], q)
  {
    Reachable(groups, run);
    var s := Exec(groups, run);
    var p := s.log[b].p;
    CountedIsIn(Began(p), s.log);
    assert Calls(s.log, p) > 0;
    LowerPhaseEarlierGroup(comps, groups, q, p);
  }

  lemma LowerPhaseEarlierGroup(comps: seq<Component>, groups: seq<Group>, q: Pos, p: Pos)
    requires IsGrouping(StableSort(ByPhase, comps), groups) && Exists(groups, q) && Exists(groups, p)
    ensures PhaseAt(groups, q) < PhaseAt(groups, p) ==> q.g < p.g
  {
    StableSortIsRight(ByPhase, comps);
    assert Uniform(groups[p.g]) && Uniform(groups[q.g]);
    if p.g < q.g { GroupsIncrease(StableSort(ByPhase, comps), groups, p.g, q.g); }
  }

  /** No stop function is ever called twice; when Shutdown returns, each has been called and has returned once. */
  lemma StopsRunExactlyOnce(groups: seq<Group>, run: seq<Label>, p: Pos)
    ensures Calls(Exec(groups, run).log, p) <= 1 && Returns(Exec(groups, run).log, p) <= 1
    ensures Complete(groups, Exec(groups, run)) ==>
              Calls(Exec(groups, run).log, p) == Returns(Exec(groups, run).log, p)
              == if HasStop(groups, p) then 1 else 0
  {
    Reachable(groups, run);
    var s := Exec(groups, run);
    if Complete(groups, s) && HasStop(groups, p) {
      assert Started(groups, s, p);
      assert p.g < s.group;
    }
  }

  /** What Shutdown reports is exactly what went wrong, in order; each phase reports at most one timeout. */
  lemma ErrorsAreComplete(groups: seq<Group>, run: seq<Label>)
    requires Complete(groups, Exec(groups, run))
    ensures Exec(groups, run).allErrs == Errors(Exec(groups, run).log)
    ensures forall g: nat :: Count(TimedOut(g), Exec(groups, run).log) <= 1
  {
    Reachable(groups, run);
    var s := Exec(groups, run);
    assert s.allErrs + s.errs == s.allErrs;
  }

  // What goes wrong: a stop function that fails, and a phase that times out.
  predicate IsFailure(e: Event) { (e.Returned? && e.failed) || e.TimedOut? }

  // The report of one failure.
  predicate Reports(error: ShutdownError, e: Event) {
    if e.TimedOut? then error == PhaseTimedOut(e.g) else e.Returned? && error == StopFailed(e.p)
  }

  lemma {:induction false} ErrorsReport(log: seq<Event>)
    ensures var failures := Filter(IsFailure, log);
            |Errors(log)| == |failures| && forall i :: 0 <= i < |failures| ==> Reports(Errors(log)[i], failures[i])
  {
    if log != [] { ErrorsReport(DropLast(log)); }
  }

  /** One by one: Shutdown reports every stop function that failed and every timeout, as they happened, and no more. */
  lemma EveryFailureIsReported(groups: seq<Group>, run: seq<Label>)
    requires Complete(groups, Exec(groups, run))
    ensures var s := Exec(groups, run);
            var failures := Filter(IsFailure, s.log);
            |s.allErrs| == |failures| && forall i :: 0 <= i < |failures| ==> Reports(s.allErrs[i], failures[i])
  {
    ErrorsAreComplete(groups, run);
    ErrorsReport(Exec(groups, run).log);
  }

  /** Shutdown waits for nothing but stop functions that have not returned: a timeout skips none of them. */
  lemma OnlyStopsAreAwaited(groups: seq<Group>, run: seq<Label>)
    ensures var s := Exec(groups, run);
            !Complete(groups, s) && s.stopping == {} ==>
              Enabled(groups, s, Spawn) || Enabled(groups, s, Advance) || exists p :: Enabled(groups, s, Begin(p))
  {
    Reachable(groups, run);
    var s := Exec(groups, run);
    if !Complete(groups, s) && s.stopping == {} { SomethingCanHappen(groups, s); }
  }

  lemma SomethingCanHappen(groups: seq<Group>, s: State)
    requires Bounds(groups, s) && !Complete(groups, s) && s.stopping == {}
    ensures Enabled(groups, s, Spawn) || Enabled(groups, s, Advance) || exists p :: Enabled(groups, s, Begin(p))
  {
    if s.ready != {} {
      var p :| p in s.ready;
      assert Enabled(groups, s, Begin(p));
    }
  }
}
