/**
 The transcript of Transcript and the lock of FileLock as one system: the lock that appenders and the compactor take is
 the lock file, with its inspections, removals and sweeps. What the transcript model allows of its lock - that an
 orphaned
 one is reclaimed and a held one stolen - is then what removals of the file amount to, and a disciplined use of the
 file rules out theft.
 */
module LockedTranscript {
  import opened Common
  import FileLock
  import Transcript
  import TranscriptSafety

  // Instance 0 of the lock is the compactor's, instance n + 1 that of appender n.
  function OwnerOf(p: nat): Transcript.Owner {
    if p == 0 then Transcript.ByCompactor else Transcript.ByAppender(p - 1)
  }

  datatype State = State(f: FileLock.State, t: Transcript.State)

  function Init(): State { State(FileLock.Init(), Transcript.Init()) }

  datatype Label = OnLock(l: FileLock.Label) | OnFiles(m: Transcript.Label)

  ghost predicate HeldBy(f: FileLock.State, p: nat) {
    FileLock.Pc(f, p).Holding? && f.file.Some? && FileLock.Pc(f, p).id == f.file.value.id
  }

  /** Whose the lock file is: nobody's if whoever linked it does not hold it any more. */
  ghost function Owner(f: FileLock.State): Option<Transcript.Owner> {
    if f.file == None then None
    else if p :| HeldBy(f, p) then Some(OwnerOf(p))
    else Some(Transcript.Orphan)
  }

  // What a removal of the lock file by someone else is to the transcript.
  ghost function Removal(f: FileLock.State): Option<Transcript.Label> {
    match Owner(f)
    case None => None
    case Some(Orphan) => Some(Transcript.ReclaimLock)
    case Some(_) => Some(Transcript.StealLock)
  }

  // The step of the transcript that goes with a step of the lock.
  ghost function Meaning(f: FileLock.State, l: FileLock.Label): Option<Transcript.Label> {
    match l
    case TryLink(p) =>
      if f.file != None then None
      else if p == 0 then Some(Transcript.LockForRename)
      else Some(Transcript.AcquireLock(p - 1))
    case Unlock(p) => if p == 0 then Some(Transcript.Unlock) else Some(Transcript.ReleaseLock(p - 1))
    case Kill(p) => if p == 0 then Some(Transcript.KillCompactor) else Some(Transcript.KillAppender(p - 1))
    case Remove(_) => Removal(f)
    case StrayUnlock(_) => Removal(f)
    case SweepRemove(_) => Removal(f)
    case _ => None
  }

  predicate LocksOrKills(m: Transcript.Label) {
    m.AcquireLock? || m.ReleaseLock? || m.KillAppender? || m.ReclaimLock? || m.StealLock? || m.LockForRename?
    || m.Unlock? || m.KillCompactor?
  }

  ghost predicate Enabled(s: State, l: Label) {
    match l
    case OnFiles(m) => !LocksOrKills(m) && Transcript.Enabled(s.t, m)
    case OnLock(l) =>
      FileLock.Enabled(s.f, l) && (Meaning(s.f, l).Some? ==> Transcript.Enabled(s.t, Meaning(s.f, l).value))
  }

  ghost function Apply(s: State, l: Label): State
    requires Enabled(s, l)
  {
    match l
    case OnFiles(m) => s.(t := Transcript.Apply(s.t, m))
    case OnLock(l) =>
      State(FileLock.Apply(s.f, l),
            if Meaning(s.f, l).Some? then Transcript.Apply(s.t, Meaning(s.f, l).value) else s.t)
  }

  ghost function Step(s: State, l: Label): State { if Enabled(s, l) then Apply(s, l) else s }

  ghost function Exec(run: seq<Label>): State {
    if run == [] then Init() else Step(Exec(DropLast(run)), Last(run))
  }

  // ---------------------------------------------------------------- the two runs inside a run

  ghost function LockRun(run: seq<Label>): seq<FileLock.Label> {
    if run == [] then []
    else
      var before, l := LockRun(DropLast(run)), Last(run);
      if l.OnLock? && Enabled(Exec(DropLast(run)), l) then before + [l.l] else before
  }

  ghost function FilesRun(run: seq<Label>): seq<Transcript.Label> {
    if run == [] then []
    else FilesRun(DropLast(run)) + FilesLabel(Exec(DropLast(run)), Last(run))
  }

  ghost function FilesLabel(s: State, l: Label): seq<Transcript.Label> {
    if !Enabled(s, l) then []
    else if l.OnFiles? then [l.m]
    else if Meaning(s.f, l.l).Some? then [Meaning(s.f, l.l).value]
    else []
  }

  lemma ExecSnocLock(run: seq<FileLock.Label>, l: FileLock.Label)
    ensures FileLock.Exec(run + [l]) == FileLock.Step(FileLock.Exec(run), l)
  {
    assert DropLast(run + [l]) == run;
  }

  lemma ExecSnocFiles(run: seq<Transcript.Label>, m: Transcript.Label)
    ensures Transcript.Exec(run + [m]) == Transcript.Step(Transcript.Exec(run), m)
  {
    assert DropLast(run + [m]) == run;
  }

  /** Every run is a run of the lock and a run of the transcript, so what holds of those holds of it. */
  lemma {:induction false} RunsInside(run: seq<Label>)
    ensures Exec(run).f == FileLock.Exec(LockRun(run)) && Exec(run).t == Transcript.Exec(FilesRun(run))
  {
    if run != [] {
      var s, l := Exec(DropLast(run)), Last(run);
      RunsInside(DropLast(run));
      if Enabled(s, l) {
        if l.OnLock? { ExecSnocLock(LockRun(DropLast(run)), l.l); }
        if FilesLabel(s, l) != [] { ExecSnocFiles(FilesRun(DropLast(run)), FilesLabel(s, l)[0]); }
      }
      assert FilesLabel(s, l) == [] ==> FilesRun(run) == FilesRun(DropLast(run));
    }
  }

  // ---------------------------------------------------------------- the lock of the one is the file of the other

  ghost predicate Holds(t: Transcript.State, p: nat) {
    if p == 0 then Transcript.CompactorHolds(t.compactor) else Transcript.AppenderHolds(Transcript.Pc(t, p - 1))
  }

  // Identities of lock files are not reused.
  ghost predicate Fresh(f: FileLock.State) {
    && (forall p: nat :: FileLock.Pc(f, p).Holding? ==> FileLock.Pc(f, p).id < f.nextId)
    && (f.file.Some? ==> f.file.value.id < f.nextId)
    && (forall p: nat, q: nat ::
          (FileLock.Pc(f, p).Holding? && FileLock.Pc(f, q).Holding? && FileLock.Pc(f, p).id == FileLock.Pc(f, q).id)
          ==> p == q)
  }

  /** Both agree on who holds the lock and on whose it is. */
  ghost predicate Coupled(s: State) {
    && Fresh(s.f) && s.t.lock == Owner(s.f)
    && forall p: nat :: FileLock.Pc(s.f, p).Holding? <==> Holds(s.t, p)
  }

  lemma OwnerIs(f: FileLock.State, p: nat)
    requires Fresh(f) && HeldBy(f, p)
    ensures Owner(f) == Some(OwnerOf(p))
  {
    assert forall q: nat :: HeldBy(f, q) ==> q == p;
  }

  lemma OwnerSame(f: FileLock.State, f': FileLock.State)
    requires Fresh(f) && Fresh(f') && f'.file == f.file && forall p: nat :: HeldBy(f', p) <==> HeldBy(f, p)
    ensures Owner(f') == Owner(f)
  {
    if p: nat :| HeldBy(f, p) {
      OwnerIs(f, p);
      OwnerIs(f', p);
    }
  }

  lemma FreshStays(f: FileLock.State, l: FileLock.Label)
    requires Fresh(f) && FileLock.Enabled(f, l)
    ensures Fresh(FileLock.Apply(f, l))
  {
    FileLock.OnlySubjectMoves(f, l);
  }

  lemma FilesKeepLock(t: Transcript.State, m: Transcript.Label, p: nat)
    requires Transcript.Enabled(t, m) && !LocksOrKills(m)
    ensures Transcript.Apply(t, m).lock == t.lock && (Holds(Transcript.Apply(t, m), p) <==> Holds(t, p))
  {
  }

  // The lock of the transcript moves only with these, and so does who holds it.
  lemma HoldsAfter(t: Transcript.State, m: Transcript.Label, p: nat)
    requires Transcript.Enabled(t, m) && LocksOrKills(m)
    ensures Holds(Transcript.Apply(t, m), p) <==>
              if (m.AcquireLock? && p == m.pid + 1) || (m.LockForRename? && p == 0) then true
              else if (m.ReleaseLock? || m.KillAppender?) && p == m.pid + 1 then false
              else if (m.Unlock? || m.KillCompactor?) && p == 0 then false
              else Holds(t, p)
  {
  }

  lemma LinkCoupled(s: State, p: nat)
    requires Coupled(s) && Enabled(s, OnLock(FileLock.TryLink(p))) && s.f.file == None
    ensures Coupled(Apply(s, OnLock(FileLock.TryLink(p))))
  {
    var s', m := Apply(s, OnLock(FileLock.TryLink(p))), Meaning(s.f, FileLock.TryLink(p)).value;
    FreshStays(s.f, FileLock.TryLink(p));
    FileLock.OnlySubjectMoves(s.f, FileLock.TryLink(p));
    OwnerIs(s'.f, p);
    forall q: nat ensures FileLock.Pc(s'.f, q).Holding? <==> Holds(s'.t, q) { HoldsAfter(s.t, m, q); }
  }

  lemma UnlockCoupled(s: State, p: nat)
    requires Coupled(s) && Enabled(s, OnLock(FileLock.Unlock(p)))
    ensures Coupled(Apply(s, OnLock(FileLock.Unlock(p))))
  {
    var s', m := Apply(s, OnLock(FileLock.Unlock(p))), Meaning(s.f, FileLock.Unlock(p)).value;
    FreshStays(s.f, FileLock.Unlock(p));
    FileLock.OnlySubjectMoves(s.f, FileLock.Unlock(p));
    forall q: nat ensures FileLock.Pc(s'.f, q).Holding? <==> Holds(s'.t, q) { HoldsAfter(s.t, m, q); }
  }

  predicate Removes(l: FileLock.Label) { l.Remove? || l.StrayUnlock? || l.SweepRemove? }

  lemma RemovalCoupled(s: State, l: FileLock.Label)
    requires Coupled(s) && Removes(l) && Enabled(s, OnLock(l))
    ensures Coupled(Apply(s, OnLock(l)))
  {
    var s' := Apply(s, OnLock(l));
    FreshStays(s.f, l);
    FileLock.OnlySubjectMoves(s.f, l);
    forall q: nat ensures FileLock.Pc(s'.f, q).Holding? <==> Holds(s'.t, q) {
      if Removal(s.f).Some? { HoldsAfter(s.t, Removal(s.f).value, q); }
    }
  }

  lemma KillCoupled(s: State, p: nat)
    requires Coupled(s) && Enabled(s, OnLock(FileLock.Kill(p)))
    ensures Coupled(Apply(s, OnLock(FileLock.Kill(p))))
  {
    var l := FileLock.Kill(p);
    var s', m := Apply(s, OnLock(l)), Meaning(s.f, FileLock.Kill(p)).value;
    FreshStays(s.f, l);
    FileLock.OnlySubjectMoves(s.f, l);
    KilledOwner(s.f, p);
    forall q: nat ensures FileLock.Pc(s'.f, q).Holding? <==> Holds(s'.t, q) { HoldsAfter(s.t, m, q); }
  }

  lemma KilledOwner(f: FileLock.State, p: nat)
    requires Fresh(f)
    ensures var f' := FileLock.Apply(f, FileLock.Kill(p));
            Owner(f') == if Owner(f) == Some(OwnerOf(p)) then Some(Transcript.Orphan) else Owner(f)
  {
    var l := FileLock.Kill(p);
    var f' := FileLock.Apply(f, l);
    FreshStays(f, l);
    FileLock.OnlySubjectMoves(f, l);
    forall q: nat ensures HeldBy(f', q) <==> HeldBy(f, q) && q != p {}
    if HeldBy(f, p) {
      OwnerIs(f, p);
    } else {
      OwnerSame(f, f');
    }
  }

  lemma OtherCoupled(s: State, l: FileLock.Label)
    requires Coupled(s) && Enabled(s, OnLock(l)) && Meaning(s.f, l) == None && !Removes(l)
    ensures Coupled(Apply(s, OnLock(l)))
  {
    var f' := FileLock.Apply(s.f, l);
    FreshStays(s.f, l);
    FileLock.OnlySubjectMoves(s.f, l);
    forall q: nat
      ensures FileLock.Pc(f', q).Holding? <==> FileLock.Pc(s.f, q).Holding?
      ensures HeldBy(f', q) <==> HeldBy(s.f, q)
    {
    }
    OwnerSame(s.f, f');
  }

  lemma StepCoupled(s: State, l: Label)
    requires Coupled(s)
    ensures Coupled(Step(s, l))
  {
    if Enabled(s, l) {
      if l.OnFiles? {
        forall p: nat ensures Holds(Apply(s, l).t, p) <==> Holds(s.t, p) { FilesKeepLock(s.t, l.m, p); }
        FilesKeepLock(s.t, l.m, 0);
      } else if l.l.TryLink? && s.f.file == None {
        LinkCoupled(s, l.l.p);
      } else if l.l.Unlock? {
        UnlockCoupled(s, l.l.p);
      } else if l.l.Kill? {
        KillCoupled(s, l.l.p);
      } else if Removes(l.l) {
        RemovalCoupled(s, l.l);
      } else {
        OtherCoupled(s, l.l);
      }
    }
  }

  /** In every run the lock of the transcript is the lock file, and its holders are the instances that hold. */
  lemma {:induction false} Reachable(run: seq<Label>)
    ensures Coupled(Exec(run))
  {
    if run != [] {
      Reachable(DropLast(run));
      StepCoupled(Exec(DropLast(run)), Last(run));
    }
  }

  // ---------------------------------------------------------------- theft

  /** The transcript's lock is stolen exactly when a removal takes the file of an instance that holds it. */
  lemma StolenIffHeld(f: FileLock.State, l: FileLock.Label)
    requires Fresh(f)
    ensures Meaning(f, l) == Some(Transcript.StealLock) <==> Removes(l) && exists p: nat :: HeldBy(f, p)
  {
    if p: nat :| HeldBy(f, p) { OwnerIs(f, p); }
  }

  // A disciplined removal finds no file, or one that it has rightly judged not to be held.
  lemma DisciplinedRemovesNoHeld(run: seq<FileLock.Label>, l: FileLock.Label)
    requires FileLock.Disciplined(run + [l]) && FileLock.Enabled(FileLock.Exec(run), l) && Removes(l)
    ensures !exists p: nat :: HeldBy(FileLock.Exec(run), p)
  {
    var f := FileLock.Exec(run);
    assert DropLast(run + [l]) == run;
    FileLock.DisciplinedReachable(run);
    assert FileLock.JudgedRight(f, l.p);
  }

  lemma {:induction false} DisciplinedStealsNothing(run: seq<Label>)
    requires FileLock.Disciplined(LockRun(run))
    ensures TranscriptSafety.NothingStolen(FilesRun(run))
  {
    if run != [] {
      var s, l := Exec(DropLast(run)), Last(run);
      RunsInside(DropLast(run));
      Reachable(DropLast(run));
      if l.OnLock? && Enabled(s, l) {
        var locks := LockRun(DropLast(run));
        assert DropLast(locks + [l.l]) == locks;
        StolenIffHeld(s.f, l.l);
        if Removes(l.l) { DisciplinedRemovesNoHeld(locks, l.l); }
      }
      DisciplinedStealsNothing(DropLast(run));
    }
  }

  /**
   With the lock file used in a disciplined way - holds within 30 minutes of their stamp, removals of the file that was
   inspected - no append goes to a replaced transcript, and nothing is lost if and only if no line was written between a
   load and its rename.
   */
  lemma DisciplinedLocksLoseOnlyWindows(run: seq<Label>)
    requires FileLock.Disciplined(LockRun(run))
    ensures var t := Exec(run).t;
            && Transcript.NoStrays(t.log)
            && (Transcript.Kept(t) == Transcript.Appends(t.log) <==> Transcript.WindowsQuiet(t.log))
  {
    RunsInside(run);
    DisciplinedStealsNothing(run);
    TranscriptSafety.HonestLockLosesOnlyWindows(FilesRun(run));
  }
}
