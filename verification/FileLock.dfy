/**
 The hard-link file lock of pkg/session/lock.go for one lock path: any number of FileLock instances and sweepers,
 one file-system call per step, a shared clock in milliseconds. A lock file carries an identity, so that a file
 removed and linked again is seen to be a different one.
 */
module FileLock {
  import opened Common

  const STALE_LOCK_THRESHOLD: int := 30 * 60 * 1000
  const STALE_MALFORMED_THRESHOLD: int := 5 * 60 * 1000
  const LOCK_MAX_WAIT: int := 10 * 1000
  const LOCK_RETRY_BASE: int := 100
  const LOCK_RETRY_MAX: int := 800

  type Pid = nat

  // `acquiredAt` is None when the content does not parse.
  datatype LockFile = LockFile(id: nat, acquiredAt: Option<int>, modTime: int)

  /** A missing file counts as stale. */
  predicate IsStale(f: Option<LockFile>, now: int) {
    match f
    case None => true
    case Some(LockFile(_, None, modTime)) => now - modTime > STALE_MALFORMED_THRESHOLD
    case Some(LockFile(_, Some(t), _)) => now - t > STALE_LOCK_THRESHOLD
  }

  datatype Proc =
    | Idle
    | Waiting(stamp: int)                       // temp file written; about to link
    | Blocked(stamp: int)                       // link failed: the lock file exists
    | Condemned(stamp: int, seen: Option<nat>)  // judged stale; about to remove
    | Backoff(stamp: int)                       // judged fresh; may give up or sleep
    | Holding(stamp: int, id: nat)              // locked == true
    | Sweeping(seen: Option<nat>)               // CleanStaleLocks judged it stale; about to remove

  datatype State = State(now: int, file: Option<LockFile>, procs: map<Pid, Proc>, nextId: nat)

  function Init(): State { State(0, None, map[], 0) }

  function Pc(s: State, p: Pid): Proc { if p in s.procs then s.procs[p] else Idle }

  function SetPc(s: State, p: Pid, a: Proc): State { s.(procs := s.procs[p := a]) }

  function IdOf(f: Option<LockFile>): Option<nat> {
    match f case None => None case Some(lf) => Some(lf.id)
  }

  datatype Label =
    | Begin(p: Pid) | TryLink(p: Pid) | Inspect(p: Pid) | Remove(p: Pid) | Sleep(p: Pid) | GiveUp(p: Pid)
    | Unlock(p: Pid) | StrayUnlock(p: Pid) | Sweep(p: Pid) | SweepRemove(p: Pid) | Kill(p: Pid) | Tick(d: nat)

  predicate Enabled(s: State, l: Label) {
    match l
    case Begin(p) => Pc(s, p).Idle?
    case TryLink(p) => Pc(s, p).Waiting?
    case Inspect(p) => Pc(s, p).Blocked?
    case Remove(p) => Pc(s, p).Condemned?
    case Sleep(p) => Pc(s, p).Backoff?
    case GiveUp(p) => Pc(s, p).Backoff? || Pc(s, p).Waiting?
    case Unlock(p) => Pc(s, p).Holding?
    case StrayUnlock(p) => Pc(s, p).Idle?
    case Sweep(p) => Pc(s, p).Idle?
    case SweepRemove(p) => Pc(s, p).Sweeping?
    case Kill(_) => true
    case Tick(_) => true
  }

  function Apply(s: State, l: Label): State
    requires Enabled(s, l)
  {
    match l
    case Begin(p) => SetPc(s, p, Waiting(s.now))
    case TryLink(p) =>
      var stamp := Pc(s, p).stamp;
      if s.file == None
      then SetPc(s, p, Holding(stamp, s.nextId))
        .(file := Some(LockFile(s.nextId, Some(stamp), s.now)), nextId := s.nextId + 1)
      else SetPc(s, p, Blocked(stamp))
    case Inspect(p) =>
      var stamp := Pc(s, p).stamp;
      SetPc(s, p, if IsStale(s.file, s.now) then Condemned(stamp, IdOf(s.file)) else Backoff(stamp))
    case Remove(p) => SetPc(s, p, Waiting(Pc(s, p).stamp)).(file := None)
    case Sleep(p) => SetPc(s, p, Waiting(Pc(s, p).stamp))
    case GiveUp(p) => SetPc(s, p, Idle)
    case Unlock(p) => SetPc(s, p, Idle).(file := None)
    case StrayUnlock(p) => s.(file := None)
    case Sweep(p) => if IsStale(s.file, s.now) then SetPc(s, p, Sweeping(IdOf(s.file))) else s
    case SweepRemove(p) => SetPc(s, p, Idle).(file := None)
    case Kill(p) => SetPc(s, p, Idle)
    case Tick(d) => s.(now := s.now + d)
  }

  function Step(s: State, l: Label): State {
    if Enabled(s, l) then Apply(s, l) else s
  }

  function Exec(run: seq<Label>): State {
    if run == [] then Init() else Step(Exec(DropLast(run)), Last(run))
  }

  function Subject(l: Label): Option<Pid> {
    match l
    case Tick(_) => None
    case Begin(p) => Some(p)
    case TryLink(p) => Some(p)
    case Inspect(p) => Some(p)
    case Remove(p) => Some(p)
    case Sleep(p) => Some(p)
    case GiveUp(p) => Some(p)
    case Unlock(p) => Some(p)
    case StrayUnlock(p) => Some(p)
    case Sweep(p) => Some(p)
    case SweepRemove(p) => Some(p)
    case Kill(p) => Some(p)
  }

  lemma OnlySubjectMoves(s: State, l: Label)
    ensures forall q: Pid :: Subject(l) != Some(q) ==> Pc(Step(s, l), q) == Pc(s, q)
    ensures s.now <= Step(s, l).now
  {
  }

  // ---------------------------------------------------------------- what the lock is for

  /** At most one instance holds the lock, and the file on disk is the one it linked. */
  ghost predicate Exclusive(s: State) {
    && (forall p, q :: Pc(s, p).Holding? && Pc(s, q).Holding? ==> p == q)
    && (forall p :: Pc(s, p).Holding? ==> IdOf(s.file) == Some(Pc(s, p).id))
  }

  /** Every hold is within 30 minutes of the time stamped before the retry loop. */
  ghost predicate Timely(s: State) {
    forall p :: Pc(s, p).Holding? ==> s.now - Pc(s, p).stamp <= STALE_LOCK_THRESHOLD
  }

  /** The step does not remove a lock file other than the one its process inspected. */
  ghost predicate RemovesWhatItSaw(s: State, l: Label) {
    match l
    case Remove(p) => Pc(s, p).Condemned? && s.file != None ==> Pc(s, p).seen == IdOf(s.file)
    case SweepRemove(p) => Pc(s, p).Sweeping? && s.file != None ==> Pc(s, p).seen == IdOf(s.file)
    case StrayUnlock(p) => Pc(s, p).Idle? ==> s.file == None
    case _ => true
  }

  ghost predicate Disciplined(run: seq<Label>) {
    run == [] ||
    (Disciplined(DropLast(run)) && Timely(Exec(DropLast(run))) && RemovesWhatItSaw(Exec(DropLast(run)), Last(run)))
  }

  // What a process has judged stale, it or the sweep, is not held.
  ghost predicate JudgedRight(s: State, p: Pid) {
    (Pc(s, p).Condemned? || Pc(s, p).Sweeping?) && Pc(s, p).seen.Some? ==> NotHeld(s, Pc(s, p).seen.value)
  }

  // Identities are never reused, and a file once judged stale is not a held one.
  ghost predicate Inv(s: State) {
    && Exclusive(s)
    && (s.file != None ==> s.file.value.id < s.nextId && s.file.value.acquiredAt != None)
    && (forall p :: Pc(s, p).Holding? ==> s.file.Some? && s.file.value.acquiredAt == Some(Pc(s, p).stamp))
    && (forall p :: JudgedRight(s, p))
  }

  ghost predicate NotHeld(s: State, id: nat) {
    id < s.nextId && forall p :: Pc(s, p).Holding? ==> Pc(s, p).id != id
  }

  // Only linking makes a holder, and then of a new file.
  lemma NotHeldStays(s: State, l: Label, id: nat)
    requires NotHeld(s, id)
    ensures NotHeld(Step(s, l), id)
  {
    OnlySubjectMoves(s, l);
  }

  lemma JudgedNotHeld(s: State)
    requires Inv(s) && Timely(s) && IsStale(s.file, s.now) && s.file.Some?
    ensures NotHeld(s, s.file.value.id)
  {
  }

  lemma ExclusiveStays(s: State, l: Label)
    requires Inv(s) && Timely(s) && RemovesWhatItSaw(s, l) && Enabled(s, l)
    ensures Exclusive(Apply(s, l))
  {
    if (l.Remove? || l.SweepRemove?) && s.file.Some? { assert JudgedRight(s, l.p); }
    OnlySubjectMoves(s, l);
  }

  lemma JudgementsStay(s: State, l: Label, p: Pid)
    requires Inv(s) && Timely(s) && Enabled(s, l)
    ensures JudgedRight(Apply(s, l), p)
  {
    OnlySubjectMoves(s, l);
    var c := Pc(Apply(s, l), p);
    if (c.Condemned? || c.Sweeping?) && c.seen.Some? {
      if c == Pc(s, p) { assert JudgedRight(s, p); } else { JudgedNotHeld(s); }
      NotHeldStays(s, l, c.seen.value);
    }
  }

  lemma DisciplinedStep(s: State, l: Label)
    requires Inv(s) && Timely(s) && RemovesWhatItSaw(s, l)
    ensures Inv(Step(s, l))
  {
    if Enabled(s, l) {
      var s' := Apply(s, l);
      ExclusiveStays(s, l);
      OnlySubjectMoves(s, l);
      forall p ensures JudgedRight(s', p) { JudgementsStay(s, l, p); }
    }
  }

  lemma {:induction false} DisciplinedReachable(run: seq<Label>)
    requires Disciplined(run)
    ensures Inv(Exec(run))
  {
    if run != [] {
      DisciplinedReachable(DropLast(run));
      DisciplinedStep(Exec(DropLast(run)), Last(run));
    }
  }

  /** Mutual exclusion in every disciplined run, with any number of processes, kills and sweeps. */
  lemma MutualExclusion(run: seq<Label>)
    requires Disciplined(run)
    ensures Exclusive(Exec(run))
  {
    DisciplinedReachable(run);
  }

  // ---------------------------------------------------------------- the same with test and removal fused

  /** Every removal comes right after the inspection that ordered it. */
  ghost predicate Fused(run: seq<Label>) {
    run == [] ||
    (Fused(DropLast(run)) && !Last(run).StrayUnlock? &&
     (Last(run).Remove? || Last(run).SweepRemove? ==> JustInspected(DropLast(run), Last(run))))
  }

  ghost predicate JustInspected(run: seq<Label>, l: Label)
    requires l.Remove? || l.SweepRemove?
  {
    && run != [] && Last(run) == (if l.Remove? then Inspect(l.p) else Sweep(l.p))
    && Enabled(Exec(DropLast(run)), Last(run))
  }

  ghost predicate AlwaysTimely(run: seq<Label>) {
    run == [] || (AlwaysTimely(DropLast(run)) && Timely(Exec(DropLast(run))))
  }

  /** With fused reclaim the only condition left is the 30-minute bound. */
  lemma {:induction false} FusedExclusion(run: seq<Label>)
    requires Fused(run) && AlwaysTimely(run)
    ensures Disciplined(run) && Exclusive(Exec(run))
  {
    if run != [] {
      FusedExclusion(DropLast(run));
    }
    MutualExclusion(run);
  }

  // ---------------------------------------------------------------- exactly what breaks it

  /** The step takes a lock file away from an instance that is holding it. */
  ghost predicate Evicts(s: State, l: Label) {
    && Enabled(s, l) && (l.Remove? || l.SweepRemove? || l.StrayUnlock?)
    && exists p :: Pc(s, p).Holding?
  }

  /**
   From any state in which exclusion holds, one step breaks it exactly when the step evicts a live holder: linking,
   unlocking, sleeping, giving up, dying and the passing of time never do.
   */
  lemma BreaksExactlyByEviction(s: State, l: Label)
    requires Exclusive(s)
    ensures Exclusive(Step(s, l)) <==> !Evicts(s, l)
  {
    OnlySubjectMoves(s, l);
    if Evicts(s, l) {
      var p :| Pc(s, p).Holding?;
      assert Pc(Step(s, l), p).Holding? && Step(s, l).file == None;
    }
  }

  // A state reached by a run in which no time passed.
  ghost predicate Reached(s: State) {
    exists run :: Exec(run) == s && Instant(run)
  }

  ghost predicate Instant(run: seq<Label>) {
    forall i :: 0 <= i < |run| ==> !run[i].Tick? && !run[i].StrayUnlock? && !run[i].Kill?
  }

  lemma ReachedStep(s: State, l: Label) returns (s': State)
    requires Reached(s) && Enabled(s, l) && !l.Tick? && !l.StrayUnlock? && !l.Kill?
    ensures s' == Apply(s, l) && Reached(s')
  {
    var run :| Exec(run) == s && Instant(run);
    assert DropLast(run + [l]) == run;
    s' := Exec(run + [l]);
  }

  // 2 has judged the missing file stale and is about to remove whatever is there.
  lemma StaleVerdict() returns (s: State)
    ensures Reached(s) && s.file == None && s.now == 0 && Pc(s, 3).Idle?
    ensures Pc(s, 2).Condemned?
  {
    assert Exec([]) == Init() && Instant([]);
    s := ReachedStep(Init(), Begin(1));
    s := ReachedStep(s, TryLink(1));
    s := ReachedStep(s, Begin(2));
    s := ReachedStep(s, TryLink(2));
    s := ReachedStep(s, Label.Unlock(1));
    s := ReachedStep(s, Inspect(2));
  }

  /**
   With test and removal apart, two instances hold at once though no time passes, nobody dies and nobody unlocks
   a lock it does not hold: 2 finds 1's file in its way, 1 unlocks, 2 finds no file and so judges it stale, 3 locks,
   2 removes 3's file and locks.
   */
  lemma TwoHolders() returns (run: seq<Label>)
    ensures Instant(run)
    ensures Pc(Exec(run), 2).Holding? && Pc(Exec(run), 3).Holding? && Exec(run).now == 0
  {
    var s0 := StaleVerdict();
    var s1 := ReachedStep(s0, Begin(3));
    var s2 := ReachedStep(s1, TryLink(3));
    assert Pc(s2, 2) == Pc(s0, 2);
    var s3 := ReachedStep(s2, Remove(2));
    var s := ReachedStep(s3, TryLink(2));
    run :| Exec(run) == s && Instant(run);
  }

  // ---------------------------------------------------------------- the methods

  // What an instance may rely on while others run: its own position, and a clock that does not go back.
  ghost predicate Rely(p: Pid, s: State, s': State) {
    Pc(s', p) == Pc(s, p) && s.now <= s'.now
  }

  // From one point of a run to a later one, all steps are of other processes.
  ghost predicate OthersOnly(p: Pid, before: seq<Label>, after: seq<Label>) {
    before <= after && forall k :: |before| <= k < |after| ==> Subject(after[k]) != Some(p)
  }

  // How long an instance slept each time, as the ticks before its wakings say.
  function Delays(p: Pid, run: seq<Label>): seq<nat> {
    if run == [] then []
    else if Last(run) != Sleep(p) then Delays(p, DropLast(run))
    else Delays(p, DropLast(run)) + [if |run| > 1 && run[|run| - 2].Tick? then run[|run| - 2].d else 0]
  }

  // How often an instance tried to link.
  function Links(p: Pid, run: seq<Label>): nat {
    if run == [] then 0 else Links(p, DropLast(run)) + if Last(run) == TryLink(p) then 1 else 0
  }

  lemma {:induction false} OthersSleepAlone(p: Pid, before: seq<Label>, after: seq<Label>)
    requires OthersOnly(p, before, after)
    ensures Delays(p, after) == Delays(p, before) && Links(p, after) == Links(p, before)
  {
    if |before| < |after| {
      OthersSleepAlone(p, before, DropLast(after));
      assert Subject(Last(after)) != Some(p);
    } else {
      assert after == before;
    }
  }

  lemma DelaysSnoc(p: Pid, run: seq<Label>, l: Label)
    requires l != Sleep(p)
    ensures Delays(p, run + [l]) == Delays(p, run)
    ensures Links(p, run + [l]) == Links(p, run) + if l == TryLink(p) then 1 else 0
  {
    assert DropLast(run + [l]) == run;
  }

  lemma DelaysSleep(p: Pid, run: seq<Label>, d: nat)
    ensures Delays(p, run + [Tick(d)] + [Sleep(p)]) == Delays(p, run) + [d]
    ensures Links(p, run + [Tick(d)] + [Sleep(p)]) == Links(p, run)
  {
    assert DropLast(run + [Tick(d)] + [Sleep(p)]) == run + [Tick(d)];
    DelaysSnoc(p, run, Tick(d));
  }

  /** The waits of the retry loop: 100, 200 and 400 milliseconds, then 800 each. */
  function BackOff(i: nat): nat { if i == 0 then 100 else if i == 1 then 200 else if i == 2 then 400 else 800 }

  function BackOffs(n: nat): seq<nat> { if n == 0 then [] else BackOffs(n - 1) + [BackOff(n - 1)] }

  /** Whenever the instance fell asleep, the deadline had not passed. */
  ghost predicate SleptInTime(p: Pid, before: seq<Label>, after: seq<Label>, deadline: int) {
    && before <= after
    && forall k: nat | |before| <= k < |after| && after[k] == Sleep(p) :: AsleepInTime(after, k, deadline)
  }

  ghost predicate AsleepInTime(run: seq<Label>, k: nat, deadline: int) {
    1 <= k <= |run| && Exec(run[..k - 1]).now <= deadline
  }

  lemma SleptInTimeLater(p: Pid, before: seq<Label>, middle: seq<Label>, after: seq<Label>, deadline: int)
    requires SleptInTime(p, before, middle, deadline) && SleptInTime(p, middle, after, deadline)
    ensures SleptInTime(p, before, after, deadline)
  {
    forall k: nat | |before| <= k < |after| && after[k] == Sleep(p) ensures AsleepInTime(after, k, deadline) {
      if k < |middle| {
        assert AsleepInTime(middle, k, deadline) && after[..k - 1] == middle[..k - 1];
      }
    }
  }

  class Host {
    var s: State
    ghost var run: seq<Label>

    ghost predicate Valid()
      reads this
    {
      s == Exec(run)
    }

    constructor ()
      ensures Valid() && s == Init()
    {
      s := Init();
      run := [];
    }

    method Do(l: Label)
      requires Valid() && Enabled(s, l)
      modifies this
      ensures Valid() && s == Apply(old(s), l) && run == old(run) + [l]
    {
      s := Apply(s, l);
      run := run + [l];
      assert DropLast(run) == old(run);
    }

    /** Any number of steps of other processes. */
    method Interfere(p: Pid)
      requires Valid()
      modifies this
      ensures Valid() && Rely(p, old(s), s) && OthersOnly(p, old(run), run)
    {
      var n: nat := *;
      while n > 0
        invariant Valid() && Rely(p, old(s), s) && OthersOnly(p, old(run), run)
      {
        var l: Label := *;
        if Subject(l) != Some(p) && Enabled(s, l) {
          OnlySubjectMoves(s, l);
          Do(l);
        }
        n := n - 1;
      }
    }
  }

  datatype LockOutcome = Acquired | TimedOut | Cancelled | StillTrying

  /**
   One turn of the loop that has found a fresh lock file: past the deadline it gives up, cancelled it does too, and
   else it
   sleeps for `delay`.
   */
  method BackOffTurn(h: Host, p: Pid, deadline: int, delay: nat, cancelled: bool) returns (r: Option<LockOutcome>)
    requires h.Valid() && Pc(h.s, p).Backoff?
    modifies h
    ensures h.Valid() && old(h.s.now) <= h.s.now && SleptInTime(p, old(h.run), h.run, deadline)
    ensures r == if old(h.s.now) > deadline then Some(TimedOut) else if cancelled then Some(Cancelled) else None
    ensures r.Some? ==> Pc(h.s, p).Idle? && Delays(p, h.run) == Delays(p, old(h.run))
    ensures r.None? ==>
              Pc(h.s, p) == Waiting(old(Pc(h.s, p).stamp)) && Delays(p, h.run) == Delays(p, old(h.run)) + [delay]
    ensures Links(p, h.run) == Links(p, old(h.run))
  {
    if h.s.now > deadline || cancelled {
      DelaysSnoc(p, h.run, GiveUp(p));
      r := if h.s.now > deadline then Some(TimedOut) else Some(Cancelled);
      h.Do(GiveUp(p));
      return;
    }
    SleepTurn(h, p, deadline, delay);
    return None;
  }

  method SleepTurn(h: Host, p: Pid, ghost deadline: int, delay: nat)
    requires h.Valid() && Pc(h.s, p).Backoff? && h.s.now <= deadline
    modifies h
    ensures h.Valid() && old(h.s.now) <= h.s.now && SleptInTime(p, old(h.run), h.run, deadline)
    ensures Pc(h.s, p) == Waiting(old(Pc(h.s, p).stamp)) && Delays(p, h.run) == Delays(p, old(h.run)) + [delay]
    ensures Links(p, h.run) == Links(p, old(h.run))
  {
    ghost var before := h.run;
    DelaysSleep(p, h.run, delay);
    h.Do(Tick(delay));
    h.Do(Sleep(p));
    assert h.run[..|before|] == before;
    ghost var awake := h.run;
    h.Interfere(p);
    OthersSleepAlone(p, awake, h.run);
    SleptInTimeLater(p, before, awake, h.run, deadline);
  }

  /** One try to link, and the look at the file that is in the way; a stale one is removed. */
  method TryTurn(h: Host, p: Pid)
    requires h.Valid() && Pc(h.s, p).Waiting?
    modifies h
    ensures h.Valid() && old(h.s.now) <= h.s.now
    ensures old(h.run) <= h.run && Delays(p, h.run) == Delays(p, old(h.run))
    ensures forall k :: |old(h.run)| <= k < |h.run| ==> h.run[k] != Sleep(p)
    ensures Pc(h.s, p).Holding? || Pc(h.s, p) == Waiting(old(Pc(h.s, p).stamp))
            || Pc(h.s, p) == Backoff(old(Pc(h.s, p).stamp))
    ensures Pc(h.s, p).Holding? <==> old(h.s.file) == None
    ensures Pc(h.s, p).Holding? ==>
      IdOf(h.s.file) == Some(Pc(h.s, p).id) && Pc(h.s, p).stamp == old(Pc(h.s, p).stamp)
    ensures Links(p, h.run) == Links(p, old(h.run)) + 1
  {
    DelaysSnoc(p, h.run, TryLink(p));
    h.Do(TryLink(p));
    if Pc(h.s, p).Holding? { return; }
    ghost var tried := h.run;
    h.Interfere(p);
    OthersSleepAlone(p, tried, h.run);
    InspectTurn(h, p);
  }

  method InspectTurn(h: Host, p: Pid)
    requires h.Valid() && Pc(h.s, p).Blocked?
    modifies h
    ensures h.Valid() && old(h.s.now) <= h.s.now
    ensures old(h.run) <= h.run && Delays(p, h.run) == Delays(p, old(h.run))
    ensures forall k :: |old(h.run)| <= k < |h.run| ==> h.run[k] != Sleep(p)
    ensures Pc(h.s, p) == (if IsStale(old(h.s.file), old(h.s.now)) then Waiting(old(Pc(h.s, p).stamp))
                           else Backoff(old(Pc(h.s, p).stamp)))
    ensures Links(p, h.run) == Links(p, old(h.run))
  {
    DelaysSnoc(p, h.run, Inspect(p));
    h.Do(Inspect(p));
    ghost var inspected := h.run;
    h.Interfere(p);
    OthersSleepAlone(p, inspected, h.run);
    if Pc(h.s, p).Condemned? {
      DelaysSnoc(p, h.run, Remove(p));
      h.Do(Remove(p));
      ghost var removed := h.run;
      h.Interfere(p);
      OthersSleepAlone(p, removed, h.run);
    }
  }

  /**
   The retry loop. `patience` bounds how many iterations are observed: reclaiming a stale file starts a new iteration
   without looking at the deadline, so the loop itself has no bound. `cancels` are the iterations in which the
   context is
   found cancelled. It tries to link once an iteration, never sleeps past the deadline, at least ten seconds after
   the call, and gives up only when it finds
   that passed, or the context cancelled, or is no more observed.
   */
  method Lock(h: Host, p: Pid, patience: nat, cancels: set<nat>) returns (r: LockOutcome, tries: nat, deadline: int)
    requires h.Valid() && Pc(h.s, p).Idle?
    modifies h
    ensures h.Valid() && old(h.s.now) <= h.s.now && tries <= patience
    ensures r.Acquired? <==> Pc(h.s, p).Holding?
    ensures r.Acquired? ==> IdOf(h.s.file) == Some(Pc(h.s, p).id) && Pc(h.s, p).stamp == old(h.s.now)
    ensures old(h.s.now) + 10 * 1000 <= deadline && SleptInTime(p, old(h.run), h.run, deadline)
    ensures exists n: nat :: Delays(p, h.run) == Delays(p, old(h.run)) + BackOffs(n)
    ensures r.TimedOut? ==> h.s.now > deadline && Pc(h.s, p).Idle?
    ensures r.Cancelled? ==> tries in cancels && Pc(h.s, p).Idle?
    ensures r.StillTrying? ==> tries == patience && Pc(h.s, p).Waiting?
    ensures Links(p, h.run) == Links(p, old(h.run)) + tries + if r.StillTrying? then 0 else 1
  {
    ghost var stamp, before := h.s.now, h.run;
    StartWaiting(h, p);
    deadline := h.s.now + LOCK_MAX_WAIT;
    var delay := LOCK_RETRY_BASE;
    ghost var sleeps: nat := 0;
    tries := 0;
    while tries < patience
      invariant tries <= patience && h.Valid() && Pc(h.s, p) == Waiting(stamp) && stamp <= h.s.now
      invariant delay == BackOff(sleeps) && Delays(p, h.run) == Delays(p, before) + BackOffs(sleeps)
      invariant SleptInTime(p, before, h.run, deadline) && Links(p, h.run) == Links(p, before) + tries
    {
      ghost var turn := h.run;
      TryTurn(h, p);
      SleptInTimeLater(p, before, turn, h.run, deadline);
      if Pc(h.s, p).Holding? { return Acquired, tries, deadline; }
      if Pc(h.s, p).Backoff? {
        ghost var found := h.run;
        var outcome := BackOffTurn(h, p, deadline, delay, tries in cancels);
        SleptInTimeLater(p, before, found, h.run, deadline);
        if outcome.Some? { return outcome.value, tries, deadline; }
        sleeps := sleeps + 1;
        delay := delay * 2;
        if delay > LOCK_RETRY_MAX { delay := LOCK_RETRY_MAX; }
      }
      tries := tries + 1;
    }
    return StillTrying, tries, deadline;
  }

  method StartWaiting(h: Host, p: Pid)
    requires h.Valid() && Pc(h.s, p).Idle?
    modifies h
    ensures h.Valid() && Pc(h.s, p) == Waiting(old(h.s.now)) && old(h.s.now) <= h.s.now
    ensures SleptInTime(p, old(h.run), h.run, 0) && Delays(p, h.run) == Delays(p, old(h.run)) + BackOffs(0)
    ensures forall k :: |old(h.run)| <= k < |h.run| ==> h.run[k] != Sleep(p)
    ensures Links(p, h.run) == Links(p, old(h.run))
  {
    DelaysSnoc(p, h.run, Begin(p));
    h.Do(Begin(p));
    ghost var begun := h.run;
    h.Interfere(p);
    OthersSleepAlone(p, begun, h.run);
  }

  /** Removes whatever file is at the path, its own or not. */
  method Unlock(h: Host, p: Pid)
    requires h.Valid() && (Pc(h.s, p).Holding? || Pc(h.s, p).Idle?)
    modifies h
    ensures h.Valid() && Pc(h.s, p).Idle? && h.s.file == None
    ensures forall q :: q != p ==> Pc(h.s, q) == old(Pc(h.s, q))
  {
    if Pc(h.s, p).Holding? { h.Do(Label.Unlock(p)); } else { h.Do(StrayUnlock(p)); }
  }

  /** When an inspection condemns the file, and when a sweep does, with the thresholds written out. */
  ghost predicate OldEnough(f: Option<LockFile>, now: int) {
    match f
    case None => true
    case Some(lf) =>
      if lf.acquiredAt.Some? then now > lf.acquiredAt.value + 30 * 60 * 1000 else now > lf.modTime + 5 * 60 * 1000
  }

  /**
   A file in the way is condemned exactly when it is gone, or was acquired more than thirty minutes before, or has no
   readable time and was written more than five minutes before; else the instance backs off.
   */
  lemma CondemnedIffOld(s: State, p: Pid)
    ensures Enabled(s, Inspect(p)) ==>
              && (Pc(Apply(s, Inspect(p)), p).Condemned? <==> OldEnough(s.file, s.now))
              && (Pc(Apply(s, Inspect(p)), p).Backoff? <==> !OldEnough(s.file, s.now))
    ensures Enabled(s, Sweep(p)) ==> (Pc(Apply(s, Sweep(p)), p).Sweeping? <==> OldEnough(s.file, s.now))
  {
  }

  // ---------------------------------------------------------------- the directory sweep

  datatype Entry = Entry(name: string, isDir: bool, file: LockFile)

  const LOCK_SUFFIX: string := ".jsonl.lock"

  predicate HasSuffix(s: string, suffix: string) {
    |suffix| <= |s| && s[|s| - |suffix|..] == suffix
  }

  predicate Spared(e: Entry, now: int) {
    e.isDir || !HasSuffix(e.name, LOCK_SUFFIX) || !IsStale(Some(e.file), now)
  }

  /** What the sweep takes: files, not directories, that are named like session locks and old enough. */
  lemma SweptIffOld(e: Entry, now: int)
    ensures !Spared(e, now)
            <==> !e.isDir && (exists stem: string :: e.name == stem + ".jsonl.lock") && OldEnough(Some(e.file), now)
  {
    var n := |e.name| - |LOCK_SUFFIX|;
    if HasSuffix(e.name, LOCK_SUFFIX) { assert e.name == e.name[..n] + ".jsonl.lock"; }
    if stem: string :| e.name == stem + ".jsonl.lock" { assert e.name[|stem|..] == LOCK_SUFFIX; }
  }

  /** Undisturbed, the sweep removes exactly the stale lock files of the directory. */
  method CleanStaleLocks(entries: seq<Entry>, now: int) returns (left: seq<Entry>)
    ensures left == Filter((e: Entry) => Spared(e, now), entries)
  {
    left := [];
    var keep := (e: Entry) => Spared(e, now);
    for i := 0 to |entries|
      invariant left == Filter(keep, entries[..i])
    {
      var e := entries[i];
      assert entries[..i + 1] == entries[..i] + [e];
      FilterSnoc(keep, entries[..i], e);
      if e.isDir {
        left := left + [e];
      } else if !HasSuffix(e.name, LOCK_SUFFIX) {
        left := left + [e];
      } else if !IsStale(Some(e.file), now) {
        left := left + [e];
      }
    }
    assert entries[..|entries|] == entries;
  }
}
