/**
 What every run of the transcript model keeps, and the two theorems about data loss
 (pkg/session/compaction.go:17-20).
 */
module TranscriptSafety {
  import opened Common
  import opened Transcript

  // ---------------------------------------------------------------- contents after each file-system call

  lemma CreateContent(fs: FileSystem, p: Path)
    requires WellFormed(fs)
    ensures WellFormed(CreateFile(fs, p))
    ensures forall q :: Content(CreateFile(fs, p), q) == if q == p then [] else Content(fs, q)
  {
  }

  lemma TruncateContent(fs: FileSystem, p: Path)
    requires WellFormed(fs)
    ensures WellFormed(OpenTruncated(fs, p)) && p in OpenTruncated(fs, p).dir
    ensures forall q :: Content(OpenTruncated(fs, p), q) == if q == p then [] else Content(fs, q)
    ensures fs.dir.Keys <= OpenTruncated(fs, p).dir.Keys
    ensures forall q :: q != p && q in fs.dir ==> OpenTruncated(fs, p).dir[q] == fs.dir[q]
  {
    if p !in fs.dir { CreateContent(fs, p); }
  }

  lemma WriteContent(fs: FileSystem, p: Path, line: Line)
    requires WellFormed(fs) && p in fs.dir
    ensures WellFormed(WriteLine(fs, fs.dir[p], line))
    ensures forall q :: Content(WriteLine(fs, fs.dir[p], line), q)
                        == if q == p then Content(fs, p) + [line] else Content(fs, q)
  {
  }

  lemma StrayContent(fs: FileSystem, ino: Inode, line: Line)
    requires WellFormed(fs) && ino < |fs.data| && forall p <- fs.dir :: fs.dir[p] != ino
    ensures WellFormed(WriteLine(fs, ino, line))
    ensures forall q :: Content(WriteLine(fs, ino, line), q) == Content(fs, q)
  {
  }

  lemma RenameContent(fs: FileSystem, from: Path, to: Path)
    requires WellFormed(fs) && from in fs.dir && from != to
    ensures WellFormed(Rename(fs, from, to))
    ensures forall q :: Content(Rename(fs, from, to), q)
                        == if q == to then Content(fs, from) else if q == from then [] else Content(fs, q)
  {
  }

  lemma RemoveContent(fs: FileSystem, p: Path)
    requires WellFormed(fs)
    ensures WellFormed(Remove(fs, p))
    ensures forall q :: Content(Remove(fs, p), q) == if q == p then [] else Content(fs, q)
  {
  }

  lemma {:induction false} ArchivedSame(fs: FileSystem, fs': FileSystem, stamps: seq<nat>)
    requires forall t <- stamps :: Content(fs', Archive(t)) == Content(fs, Archive(t))
    ensures Archived(fs', stamps) == Archived(fs, stamps)
  {
    if stamps != [] {
      assert forall t <- DropLast(stamps) :: t in stamps;
      ArchivedSame(fs, fs', DropLast(stamps));
      assert Last(stamps) in stamps;
    }
  }

  // ---------------------------------------------------------------- invariant

  // Whoever the lock names believes to hold it; but not everyone who believes so is named.
  ghost predicate LockAgrees(s: State) {
    && (forall pid :: s.lock == Some(ByAppender(pid)) ==> AppenderHolds(Pc(s, pid)))
    && (s.lock == Some(ByCompactor) ==> CompactorHolds(s.compactor))
  }

  // An open handle is on a file that no name but the transcript's can lead to.
  ghost predicate HandleAgrees(fs: FileSystem, a: Appender) {
    a.Opened? ==> a.ino < |fs.data| && forall p <- fs.dir :: fs.dir[p] == a.ino ==> p == Live
  }

  ghost predicate HandlesAgree(s: State) {
    forall pid: Pid :: HandleAgrees(s.fs, Pc(s, pid))
  }

  ghost predicate ArchivesKept(s: State) {
    forall t <- s.committed :: Archive(t) in s.fs.dir
  }

  // What the compactor loaded is what had survived so far, and no compaction has finished since.
  ghost predicate PlanAgrees(s: State, plan: Plan) {
    && plan.Sensible()
    && plan.loadedAt <= |s.log|
    && (forall i :: plan.loadedAt <= i < |s.log| ==> !s.log[i].Compacted?)
    && Archived(s.fs, s.committed) + plan.lines == Surviving(s.log[..plan.loadedAt])
  }

  ghost predicate ArchiveHolds(s: State, stamp: nat, lines: seq<Line>) {
    Archive(stamp) in s.fs.dir && stamp !in s.committed && Content(s.fs, Archive(stamp)) == lines
  }

  ghost predicate TempHolds(s: State, lines: seq<Line>) {
    Temp in s.fs.dir && Content(s.fs, Temp) == lines
  }

  ghost predicate CompactorAgrees(s: State) {
    match s.compactor
    case Loaded(plan) => PlanAgrees(s, plan)
    case Archiving(plan, stamp, done) =>
      PlanAgrees(s, plan) && done <= plan.Split() && ArchiveHolds(s, stamp, plan.lines[..done])
    case Staging(plan, stamp, done) =>
      && PlanAgrees(s, plan) && ArchiveHolds(s, stamp, plan.lines[..plan.Split()])
      && plan.Split() + done <= |plan.lines| && TempHolds(s, plan.lines[plan.Split()..plan.Split() + done])
    case AwaitingLock(plan, stamp) => ReadyToRename(s, plan, stamp)
    case Locked(plan, stamp) => ReadyToRename(s, plan, stamp)
    case _ => true
  }

  ghost predicate ReadyToRename(s: State, plan: Plan, stamp: nat) {
    && PlanAgrees(s, plan) && ArchiveHolds(s, stamp, plan.lines[..plan.Split()])
    && TempHolds(s, plan.lines[plan.Split()..])
  }

  ghost predicate Inv(s: State) {
    && WellFormed(s.fs)
    && LockAgrees(s)
    && HandlesAgree(s)
    && ArchivesKept(s)
    && CompactorAgrees(s)
    && Sequential(s.log)
    && Kept(s) == Surviving(s.log)
    && s.meta.compactions + s.unrecorded + Unrecorded(s.compactor) == |s.committed|
  }

  // ---------------------------------------------------------------- steps keep the invariant

  // Another process has at most written to the transcript or taken or dropped the lock.
  ghost predicate Elsewhere(s: State, s': State) {
    && s'.compactor == s.compactor && s'.committed == s.committed
    && (s'.log == s.log || exists e: Event :: !e.Compacted? && s'.log == s.log + [e])
    && (forall p :: p != Live ==> Content(s'.fs, p) == Content(s.fs, p))
    && s.fs.dir.Keys <= s'.fs.dir.Keys
  }

  lemma PlanUndisturbed(s: State, s': State, plan: Plan)
    requires PlanAgrees(s, plan) && Elsewhere(s, s')
    ensures PlanAgrees(s', plan)
  {
    ArchivedSame(s.fs, s'.fs, s.committed);
    assert s'.log[..plan.loadedAt] == s.log[..plan.loadedAt];
  }

  lemma CompactorUndisturbed(s: State, s': State)
    requires CompactorAgrees(s) && Elsewhere(s, s')
    ensures CompactorAgrees(s')
  {
    if s.compactor.Loaded? || s.compactor.Archiving? || s.compactor.Staging? || s.compactor.AwaitingLock?
       || s.compactor.Locked? {
      PlanUndisturbed(s, s', s.compactor.plan);
    }
  }

  lemma SequentialSnoc(log: seq<Event>, e: Event)
    requires Sequential(log)
    requires e.Compacted? ==> e.loadedAt <= |log| && forall i :: e.loadedAt <= i < |log| ==> !log[i].Compacted?
    ensures Sequential(log + [e])
  {
  }

  // Steps that leave the log and every content alone.
  lemma Frame(s: State, s': State)
    requires Inv(s) && Elsewhere(s, s') && s'.log == s.log && Content(s'.fs, Live) == Content(s.fs, Live)
    ensures ArchivesKept(s') && CompactorAgrees(s') && Kept(s') == Surviving(s'.log)
  {
    CompactorUndisturbed(s, s');
    ArchivedSame(s.fs, s'.fs, s.committed);
  }

  lemma AppenderStep(s: State, l: Label)
    requires Inv(s) && Enabled(s, l)
    requires l.Request? || l.AcquireLock? || l.GiveUp? || l.FailAppend? || l.ReleaseLock? || l.KillAppender?
             || l.ReclaimLock? || l.StealLock?
    ensures Inv(Apply(s, l))
  {
    var s' := Apply(s, l);
    Frame(s, s');
    forall pid: Pid ensures HandleAgrees(s'.fs, Pc(s', pid)) { assert HandleAgrees(s.fs, Pc(s, pid)); }
  }

  lemma OpenStep(s: State, pid: Pid)
    requires Inv(s) && Enabled(s, OpenLive(pid))
    ensures Inv(Apply(s, OpenLive(pid)))
  {
    var s' := Apply(s, OpenLive(pid));
    if Live !in s.fs.dir { CreateContent(s.fs, Live); }
    Frame(s, s');
    forall q: Pid ensures HandleAgrees(s'.fs, Pc(s', q)) { assert HandleAgrees(s.fs, Pc(s, q)); }
  }

  // What a write adds to the transcript: nothing, if the handle is on a file that has been replaced.
  function Landing(s: State, pid: Pid): seq<Line>
    requires Enabled(s, WriteLive(pid))
  {
    if Live in s.fs.dir && s.fs.dir[Live] == Pc(s, pid).ino then [Pc(s, pid).line] else []
  }

  lemma WriteFiles(s: State, pid: Pid)
    requires WellFormed(s.fs) && HandlesAgree(s) && Enabled(s, WriteLive(pid))
    ensures var fs := Apply(s, WriteLive(pid)).fs;
            && WellFormed(fs) && fs.dir == s.fs.dir
            && Content(fs, Live) == Content(s.fs, Live) + Landing(s, pid)
            && forall p :: p != Live ==> Content(fs, p) == Content(s.fs, p)
  {
    assert HandleAgrees(s.fs, Pc(s, pid));
    if Live in s.fs.dir && s.fs.dir[Live] == Pc(s, pid).ino {
      WriteContent(s.fs, Live, Pc(s, pid).line);
    } else {
      assert forall p <- s.fs.dir :: s.fs.dir[p] != Pc(s, pid).ino;
      StrayContent(s.fs, Pc(s, pid).ino, Pc(s, pid).line);
    }
  }

  lemma WriteLog(s: State, pid: Pid)
    requires Sequential(s.log) && Enabled(s, WriteLive(pid))
    ensures var log := Apply(s, WriteLive(pid)).log;
            && Sequential(log) && Surviving(log) == Surviving(s.log) + Landing(s, pid)
            && exists e: Event :: !e.Compacted? && log == s.log + [e]
  {
    var log := Apply(s, WriteLive(pid)).log;
    assert log == s.log + [Last(log)] && !Last(log).Compacted? && DropLast(log) == s.log;
    SequentialSnoc(s.log, Last(log));
  }

  lemma WriteHandles(s: State, pid: Pid)
    requires WellFormed(s.fs) && HandlesAgree(s) && LockAgrees(s) && Enabled(s, WriteLive(pid))
    ensures HandlesAgree(Apply(s, WriteLive(pid))) && LockAgrees(Apply(s, WriteLive(pid)))
  {
    var s' := Apply(s, WriteLive(pid));
    forall q: Pid ensures HandleAgrees(s'.fs, Pc(s', q)) { assert HandleAgrees(s.fs, Pc(s, q)); }
  }

  lemma WriteStep(s: State, pid: Pid)
    requires Inv(s) && Enabled(s, WriteLive(pid))
    ensures Inv(Apply(s, WriteLive(pid)))
  {
    var s' := Apply(s, WriteLive(pid));
    WriteFiles(s, pid);
    WriteLog(s, pid);
    WriteHandles(s, pid);
    CompactorUndisturbed(s, s');
    ArchivedSame(s.fs, s'.fs, s.committed);
    assert Kept(s') == Archived(s.fs, s.committed) + (Content(s.fs, Live) + Landing(s, pid));
  }

  // Steps in which the compactor changes a file of its own, or none.
  ghost predicate OwnFile(s: State, s': State) {
    && s'.committed == s.committed && s'.log == s.log && WellFormed(s'.fs)
    && s'.appenders == s.appenders && s'.meta == s.meta && s'.unrecorded == s.unrecorded
    && |s.fs.data| <= |s'.fs.data|
    && (forall p <- s'.fs.dir :: (p in s.fs.dir && s'.fs.dir[p] == s.fs.dir[p]) || s'.fs.dir[p] >= |s.fs.data|)
    && Content(s'.fs, Live) == Content(s.fs, Live)
    && (forall t <- s.committed :: Archive(t) in s'.fs.dir && Content(s'.fs, Archive(t)) == Content(s.fs, Archive(t)))
  }

  lemma OwnFileFrame(s: State, s': State)
    requires Inv(s) && OwnFile(s, s') && s'.lock == s.lock
    requires CompactorHolds(s'.compactor) == CompactorHolds(s.compactor)
    requires Unrecorded(s'.compactor) == Unrecorded(s.compactor)
    requires CompactorAgrees(s')
    ensures Inv(s')
  {
    ArchivedSame(s.fs, s'.fs, s.committed);
    forall pid: Pid ensures HandleAgrees(s'.fs, Pc(s', pid)) { assert HandleAgrees(s.fs, Pc(s, pid)); }
  }

  lemma PlanOwnFile(s: State, s': State, plan: Plan)
    requires PlanAgrees(s, plan) && OwnFile(s, s')
    ensures PlanAgrees(s', plan)
  {
    ArchivedSame(s.fs, s'.fs, s.committed);
  }

  lemma LoadStep(s: State, keep: nat)
    requires Inv(s) && Enabled(s, Load(keep))
    ensures Inv(Apply(s, Load(keep)))
  {
    var s' := Apply(s, Load(keep));
    assert s.log[..|s.log|] == s.log;
    forall pid: Pid ensures HandleAgrees(s'.fs, Pc(s', pid)) { assert HandleAgrees(s.fs, Pc(s, pid)); }
  }

  lemma CreateArchiveStep(s: State, stamp: nat)
    requires Inv(s) && Enabled(s, CreateArchive(stamp))
    ensures Inv(Apply(s, CreateArchive(stamp)))
  {
    var s' := Apply(s, CreateArchive(stamp));
    if Archive(stamp) !in s.fs.dir {
      CreateContent(s.fs, Archive(stamp));
      PlanOwnFile(s, s', s.compactor.plan);
    }
    OwnFileFrame(s, s');
  }

  lemma WriteArchiveStep(s: State)
    requires Inv(s) && Enabled(s, WriteArchive)
    ensures Inv(Apply(s, WriteArchive))
  {
    var s' := Apply(s, WriteArchive);
    WriteArchiveOwn(s);
    PlanOwnFile(s, s', s.compactor.plan);
    OwnFileFrame(s, s');
  }

  lemma WriteArchiveOwn(s: State)
    requires Inv(s) && Enabled(s, WriteArchive)
    ensures var s' := Apply(s, WriteArchive);
            && OwnFile(s, s')
            && ArchiveHolds(s', s.compactor.stamp, s.compactor.plan.lines[..s.compactor.done + 1])
  {
    var Archiving(plan, stamp, done) := s.compactor;
    WriteContent(s.fs, Archive(stamp), plan.lines[done]);
    assert plan.lines[..done + 1] == plan.lines[..done] + [plan.lines[done]];
  }

  lemma OpenTempOwn(s: State)
    requires Inv(s) && Enabled(s, OpenTemp)
    ensures OwnFile(s, Apply(s, OpenTemp)) && TempHolds(Apply(s, OpenTemp), [])
  {
    TruncateContent(s.fs, Temp);
  }

  lemma OpenTempStep(s: State)
    requires Inv(s) && Enabled(s, OpenTemp)
    ensures Inv(Apply(s, OpenTemp))
  {
    var s' := Apply(s, OpenTemp);
    OpenTempOwn(s);
    PlanOwnFile(s, s', s.compactor.plan);
    OpenTempAgrees(s);
    OwnFileFrame(s, s');
  }

  lemma OpenTempAgrees(s: State)
    requires Inv(s) && Enabled(s, OpenTemp)
    requires PlanAgrees(Apply(s, OpenTemp), s.compactor.plan) && TempHolds(Apply(s, OpenTemp), [])
    ensures CompactorAgrees(Apply(s, OpenTemp))
  {
    TruncateContent(s.fs, Temp);
  }

  lemma WriteTempOwn(s: State)
    requires Inv(s) && Enabled(s, WriteTemp)
    ensures OwnFile(s, Apply(s, WriteTemp))
    ensures ArchiveHolds(Apply(s, WriteTemp), s.compactor.stamp, s.compactor.plan.lines[..s.compactor.plan.Split()])
  {
  }

  lemma WriteTempGrows(s: State)
    requires WellFormed(s.fs) && Enabled(s, WriteTemp)
    requires var Staging(plan, stamp, done) := s.compactor;
             TempHolds(s, plan.lines[plan.Split()..plan.Split() + done])
    ensures var Staging(plan, stamp, done) := s.compactor;
            TempHolds(Apply(s, WriteTemp), plan.lines[plan.Split()..plan.Split() + done + 1])
  {
  }

  lemma WriteTempStep(s: State)
    requires Inv(s) && Enabled(s, WriteTemp)
    ensures Inv(Apply(s, WriteTemp))
  {
    var s' := Apply(s, WriteTemp);
    var Staging(plan, stamp, done) := s.compactor;
    WriteTempOwn(s);
    PlanOwnFile(s, s', plan);
    WriteTempGrows(s);
    assert plan.Split() + (done + 1) == plan.Split() + done + 1;
    OwnFileFrame(s, s');
  }

  lemma CloseTempStep(s: State)
    requires Inv(s) && Enabled(s, CloseTemp)
    ensures Inv(Apply(s, CloseTemp))
  {
    var Staging(plan, stamp, done) := s.compactor;
    assert plan.lines[plan.Split()..] == plan.lines[plan.Split()..|plan.lines|];
    OwnFileFrame(s, Apply(s, CloseTemp));
  }

  lemma RenameHandles(s: State)
    requires WellFormed(s.fs) && LockAgrees(s) && HandlesAgree(s) && Enabled(s, RenameTemp)
    ensures LockAgrees(Apply(s, RenameTemp)) && HandlesAgree(Apply(s, RenameTemp))
  {
    var s' := Apply(s, RenameTemp);
    forall pid: Pid ensures Pc(s', pid) == Pc(s, pid) && HandleAgrees(s'.fs, Pc(s', pid)) {
      assert HandleAgrees(s.fs, Pc(s, pid));
    }
  }

  lemma RenameArchives(s: State)
    requires ArchivesKept(s) && CompactorAgrees(s) && Enabled(s, RenameTemp)
    ensures ArchivesKept(Apply(s, RenameTemp))
  {
  }

  lemma RenameStep(s: State)
    requires Inv(s) && Enabled(s, RenameTemp)
    ensures Inv(Apply(s, RenameTemp))
  {
    RenameContent(s.fs, Temp, Live);
    RenameHandles(s);
    RenameArchives(s);
    RenameKeeps(s);
    SequentialSnoc(s.log, Compacted(s.compactor.plan.loadedAt));
  }

  lemma RenameKeeps(s: State)
    requires Inv(s) && Enabled(s, RenameTemp)
    ensures Kept(Apply(s, RenameTemp)) == Surviving(Apply(s, RenameTemp).log)
  {
    var Locked(plan, stamp) := s.compactor;
    RenameOnDisk(s, plan, stamp);
    RenameInLog(s, plan);
  }

  // On disk, one more archive and the kept lines: together what was archived before, and what was loaded.
  lemma RenameOnDisk(s: State, plan: Plan, stamp: nat)
    requires WellFormed(s.fs) && ReadyToRename(s, plan, stamp) && s.compactor == Locked(plan, stamp)
    ensures Kept(Apply(s, RenameTemp)) == Archived(s.fs, s.committed) + plan.lines
  {
    var s' := Apply(s, RenameTemp);
    RenameContent(s.fs, Temp, Live);
    ArchivedSame(s.fs, s'.fs, s.committed);
    assert DropLast(s'.committed) == s.committed;
    Rejoin(Archived(s.fs, s.committed), plan.lines, plan.Split());
  }

  lemma RenameInLog(s: State, plan: Plan)
    requires Enabled(s, RenameTemp) && s.compactor.plan == plan && PlanAgrees(s, plan)
    ensures Surviving(Apply(s, RenameTemp).log) == Archived(s.fs, s.committed) + plan.lines
  {
    var log' := s.log + [Compacted(plan.loadedAt)];
    assert Last(log') == Compacted(plan.loadedAt) && log'[..plan.loadedAt] == s.log[..plan.loadedAt];
  }

  lemma Rejoin(before: seq<Line>, lines: seq<Line>, k: nat)
    requires k <= |lines|
    ensures (before + lines[..k]) + lines[k..] == before + lines
  {
  }

  lemma LockStep(s: State)
    requires Inv(s) && Enabled(s, LockForRename)
    ensures Inv(Apply(s, LockForRename))
  {
    var s' := Apply(s, LockForRename);
    forall pid: Pid ensures HandleAgrees(s'.fs, Pc(s', pid)) { assert HandleAgrees(s.fs, Pc(s, pid)); }
    PlanOwnFile(s, s', s.compactor.plan);
  }

  // The compactor stops holding anything but the archives and perhaps the lock.
  lemma FinishStep(s: State, l: Label)
    requires Inv(s) && Enabled(s, l)
    requires Finishing(l)
    ensures Inv(Apply(s, l))
  {
    FinishFiles(s, l);
    FinishHandles(s, l);
    FinishLock(s, l);
  }

  lemma FinishFiles(s: State, l: Label)
    requires Inv(s) && Enabled(s, l)
    requires Finishing(l)
    ensures WellFormed(Apply(s, l).fs) && ArchivesKept(Apply(s, l)) && Kept(Apply(s, l)) == Kept(s)
  {
    var s' := Apply(s, l);
    if l.DiscardTemp? { RemoveContent(s.fs, Temp); }
    ArchivedSame(s.fs, s'.fs, s.committed);
  }

  lemma FinishHandles(s: State, l: Label)
    requires HandlesAgree(s) && Enabled(s, l) && Finishing(l)
    ensures HandlesAgree(Apply(s, l))
  {
    var s' := Apply(s, l);
    forall pid: Pid ensures HandleAgrees(s'.fs, Pc(s', pid)) { assert HandleAgrees(s.fs, Pc(s, pid)); }
  }

  lemma FinishLock(s: State, l: Label)
    requires LockAgrees(s) && Enabled(s, l)
    requires Finishing(l)
    ensures LockAgrees(Apply(s, l))
  {
  }

  predicate Working(l: Label) {
    l.Load? || l.CreateArchive? || l.WriteArchive? || l.OpenTemp? || l.WriteTemp? || l.CloseTemp? || l.LockForRename?
    || l.RenameTemp?
  }

  predicate Finishing(l: Label) {
    l.Unlock? || l.RecordMeta? || l.FailCompaction? || l.DiscardTemp? || l.KillCompactor?
  }

  lemma StepKeepsInv(s: State, l: Label)
    requires Inv(s)
    ensures Inv(Step(s, l))
  {
    if Enabled(s, l) {
      if l.OpenLive? {
        OpenStep(s, l.pid);
      } else if l.WriteLive? {
        WriteStep(s, l.pid);
      } else if Working(l) {
        CompactorStep(s, l);
      } else if Finishing(l) {
        FinishStep(s, l);
      } else {
        AppenderStep(s, l);
      }
    }
  }

  lemma CompactorStep(s: State, l: Label)
    requires Inv(s) && Enabled(s, l)
    requires Working(l)
    ensures Inv(Apply(s, l))
  {
    match l
    case Load(keep) => LoadStep(s, keep);
    case CreateArchive(stamp) => CreateArchiveStep(s, stamp);
    case WriteArchive => WriteArchiveStep(s);
    case OpenTemp => OpenTempStep(s);
    case WriteTemp => WriteTempStep(s);
    case CloseTemp => CloseTempStep(s);
    case LockForRename => LockStep(s);
    case RenameTemp => RenameStep(s);
  }

  lemma {:induction false} Reachable(run: seq<Label>)
    ensures Inv(Exec(run))
  {
    if run != [] {
      Reachable(DropLast(run));
      StepKeepsInv(Exec(DropLast(run)), Last(run));
    }
  }

  // ---------------------------------------------------------------- an honest lock

  // The lock names exactly the process that holds it, and open handles are on the transcript.
  ghost predicate LockHonest(s: State) {
    && (forall pid: Pid :: AppenderHolds(Pc(s, pid)) <==> s.lock == Some(ByAppender(pid)))
    && (CompactorHolds(s.compactor) <==> s.lock == Some(ByCompactor))
  }

  ghost predicate Honest(s: State) {
    && LockHonest(s)
    && (forall pid: Pid :: Pc(s, pid).Opened? ==> Live in s.fs.dir && Pc(s, pid).ino == s.fs.dir[Live])
    && NoStrays(s.log)
  }

  predicate OfAppender(l: Label) {
    l.Request? || l.AcquireLock? || l.GiveUp? || l.OpenLive? || l.WriteLive? || l.FailAppend? || l.ReleaseLock?
    || l.KillAppender?
  }

  lemma AppenderHonest(s: State, l: Label)
    requires LockHonest(s) && Enabled(s, l) && OfAppender(l)
    ensures LockHonest(Apply(s, l))
  {
  }

  lemma HonestLock(s: State, l: Label)
    requires LockHonest(s) && !l.StealLock? && Enabled(s, l)
    ensures LockHonest(Apply(s, l))
  {
    if OfAppender(l) {
      AppenderHonest(s, l);
    } else {
      assert forall pid: Pid :: Pc(Apply(s, l), pid) == Pc(s, pid);
    }
  }

  lemma HonestLog(s: State, l: Label)
    requires Honest(s) && Enabled(s, l)
    ensures NoStrays(Apply(s, l).log)
  {
    if l.WriteLive? { StraysSnoc(s.log, Appended(Pc(s, l.pid).line)); }
    if l.RenameTemp? { StraysSnoc(s.log, Compacted(s.compactor.plan.loadedAt)); }
  }

  lemma LiveStays(s: State, l: Label)
    requires Enabled(s, l) && !l.RenameTemp? && Live in s.fs.dir
    ensures Live in Apply(s, l).fs.dir && Apply(s, l).fs.dir[Live] == s.fs.dir[Live]
  {
  }

  lemma HonestHandles(s: State, l: Label, pid: Pid)
    requires Inv(s) && Honest(s) && Enabled(s, l) && Pc(Apply(s, l), pid).Opened?
    ensures var s' := Apply(s, l); Live in s'.fs.dir && Pc(s', pid).ino == s'.fs.dir[Live]
  {
    var s' := Apply(s, l);
    if Pc(s, pid).Opened? {
      assert AppenderHolds(Pc(s, pid)) && Pc(s', pid) == Pc(s, pid);
      LiveStays(s, l);
    } else {
      assert l == OpenLive(pid);
    }
  }

  lemma HonestStep(s: State, l: Label)
    requires Inv(s) && Honest(s) && !l.StealLock?
    ensures Honest(Step(s, l))
  {
    if Enabled(s, l) {
      HonestLock(s, l);
      HonestLog(s, l);
      forall pid: Pid | Pc(Apply(s, l), pid).Opened?
        ensures var s' := Apply(s, l); Live in s'.fs.dir && Pc(s', pid).ino == s'.fs.dir[Live]
      {
        HonestHandles(s, l, pid);
      }
    }
  }

  ghost predicate NothingStolen(run: seq<Label>) { forall l <- run :: !l.StealLock? }

  lemma {:induction false} HonestReachable(run: seq<Label>)
    requires NothingStolen(run)
    ensures Honest(Exec(run))
  {
    if run != [] {
      assert forall l <- DropLast(run) :: l in run;
      assert Last(run) in run;
      HonestReachable(DropLast(run));
      Reachable(DropLast(run));
      HonestStep(Exec(DropLast(run)), Last(run));
    }
  }

  // ---------------------------------------------------------------- theorems

  /**
   In every run, whatever is interleaved, whoever is killed where and however often the lock is taken from a live
   holder, the archives of the compactions that reached their rename followed by the live transcript are exactly the
   lines the log says survive. Every written line is there, or landed between the load and the rename of some
   compaction, or was written through a handle to a replaced file; and the disk equals the full append history if and
   only if there was no line of either kind.
   */
  lemma {:induction false} DiskMatchesHistory(run: seq<Label>)
    ensures var s := Exec(run);
            && Kept(s) == Surviving(s.log)
            && multiset(Appends(s.log)) == multiset(Kept(s)) + multiset(Lost(s.log))
            && (Kept(s) == Appends(s.log) <==> Quiet(s.log))
  {
    Reachable(run);
    var s := Exec(run);
    LogConserves(s.log);
    NothingLostIffQuiet(s.log);
    if Kept(s) == Appends(s.log) {
      assert |multiset(Lost(s.log))| == 0;
      assert |multiset(Lost(s.log))| == |Lost(s.log)|;
    }
  }

  /** If the lock is never taken from a live holder there are no strays, and only the windows can lose a line. */
  lemma {:induction false} HonestLockLosesOnlyWindows(run: seq<Label>)
    requires NothingStolen(run)
    ensures var s := Exec(run);
            NoStrays(s.log) && (Kept(s) == Appends(s.log) <==> WindowsQuiet(s.log))
  {
    HonestReachable(run);
    DiskMatchesHistory(run);
  }

  /** One rename drops exactly the lines that landed since its own load, and nothing else. */
  lemma RenameDropsItsWindow(run: seq<Label>)
    requires Enabled(Exec(run), RenameTemp)
    ensures var s := Exec(run);
            && s.compactor.plan.loadedAt <= |s.log|
            && Kept(s) == Kept(Apply(s, RenameTemp)) + Landed(s.log[s.compactor.plan.loadedAt..])
  {
    Reachable(run);
    var s := Exec(run);
    RenameKeeps(s);
    RenameRollsBack(s);
  }

  lemma RenameRollsBack(s: State)
    requires Inv(s) && Enabled(s, RenameTemp)
    ensures s.compactor.plan.loadedAt <= |s.log|
    ensures Surviving(s.log) == Surviving(Apply(s, RenameTemp).log) + Landed(s.log[s.compactor.plan.loadedAt..])
  {
    var at := s.compactor.plan.loadedAt;
    var log' := Apply(s, RenameTemp).log;
    SurvivingExtends(s.log, at);
    assert Last(log') == Compacted(at) && log'[..at] == s.log[..at];
  }

  /** Before its rename a compaction does not touch the transcript, so a crash there leaves it as it was. */
  lemma {:induction false} OnlyWriteAndRenameTouchTheTranscript(run: seq<Label>, l: Label)
    requires !l.WriteLive? && !l.RenameTemp?
    ensures Content(Exec(run + [l]).fs, Live) == Content(Exec(run).fs, Live)
  {
    Reachable(run);
    assert DropLast(run + [l]) == run;
    if Enabled(Exec(run), l) { LeavesTranscript(Exec(run), l); }
  }

  lemma LeavesTranscript(s: State, l: Label)
    requires Inv(s) && Enabled(s, l) && !l.WriteLive? && !l.RenameTemp?
    ensures Content(Apply(s, l).fs, Live) == Content(s.fs, Live)
  {
    match l
    case OpenLive(_) => CreateContent(s.fs, Live);
    case CreateArchive(stamp) => CreateContent(s.fs, Archive(stamp));
    case WriteArchive => WriteContent(s.fs, Archive(s.compactor.stamp), s.compactor.plan.lines[s.compactor.done]);
    case OpenTemp => TruncateContent(s.fs, Temp);
    case WriteTemp => WriteTempOwn(s);
    case DiscardTemp => RemoveContent(s.fs, Temp);
    case _ =>
  }

  /** The stored compaction count is the number of renames, less those killed or failed before recording it. */
  lemma {:induction false} CompactionCountIsExact(run: seq<Label>)
    ensures var s := Exec(run);
            s.meta.compactions + s.unrecorded + Unrecorded(s.compactor) == |s.committed|
  {
    Reachable(run);
  }

  // ---------------------------------------------------------------- runs that lose a line

  /** Nobody is killed, no call fails and nobody gives up. */
  predicate Smooth(l: Label) {
    !(l.KillAppender? || l.KillCompactor? || l.FailAppend? || l.FailCompaction? || l.DiscardTemp? || l.GiveUp?
      || l.ReclaimLock?)
  }

  // Reached by a smooth run; by one without theft if `honest`.
  ghost predicate Reached(s: State, honest: bool) {
    exists run :: Exec(run) == s && SmoothRun(run, honest)
  }

  ghost predicate SmoothRun(run: seq<Label>, honest: bool) {
    forall l <- run :: Smooth(l) && (honest ==> !l.StealLock?)
  }

  lemma ReachedStep(s: State, l: Label, honest: bool) returns (s': State)
    requires Reached(s, honest) && Enabled(s, l) && Smooth(l) && (honest ==> !l.StealLock?)
    ensures s' == Apply(s, l) && Reached(s', honest) && WellFormed(s'.fs)
  {
    var run :| Exec(run) == s && SmoothRun(run, honest);
    assert DropLast(run + [l]) == run;
    s' := Exec(run + [l]);
    assert SmoothRun(run + [l], honest);
    Reachable(run + [l]);
  }

  // One undisturbed append by process 0.
  lemma AppendOnce(s: State, line: Line, honest: bool) returns (s': State)
    requires Reached(s, honest) && Pc(s, 0).Idle? && s.lock == None && WellFormed(s.fs)
    ensures Reached(s', honest) && WellFormed(s'.fs)
    ensures s'.log == s.log + [Appended(line)] && s'.compactor == s.compactor && s'.lock == None
    ensures s'.committed == s.committed
    ensures Pc(s', 0).Idle? && Live in s'.fs.dir && Content(s'.fs, Live) == Content(s.fs, Live) + [line]
    ensures forall t :: Archive(t) in s'.fs.dir <==> Archive(t) in s.fs.dir
  {
    var s1 := OpenOnce(s, line, honest);
    WriteContent(s1.fs, Live, line);
    var s2 := ReachedStep(s1, WriteLive(0), honest);
    s' := ReachedStep(s2, ReleaseLock(0), honest);
  }

  lemma OpenOnce(s: State, line: Line, honest: bool) returns (s': State)
    requires Reached(s, honest) && Pc(s, 0).Idle? && s.lock == None && WellFormed(s.fs)
    ensures Reached(s', honest) && WellFormed(s'.fs) && Live in s'.fs.dir
    ensures s' == s.(fs := s'.fs, lock := s'.lock, appenders := s'.appenders)
    ensures Pc(s', 0) == Opened(line, s'.fs.dir[Live]) && Content(s'.fs, Live) == Content(s.fs, Live)
    ensures forall t :: Archive(t) in s'.fs.dir <==> Archive(t) in s.fs.dir
  {
    var s1 := ReachedStep(s, Request(0, line), honest);
    var s2 := ReachedStep(s1, AcquireLock(0), honest);
    CreateContent(s.fs, Live);
    s' := ReachedStep(s2, OpenLive(0), honest);
  }

  // The rest of a compaction that archives one line and keeps one, undisturbed.
  lemma ArchiveSmall(s: State, honest: bool) returns (s': State)
    requires Reached(s, honest) && s.lock == None && WellFormed(s.fs)
    requires s.compactor.Loaded? && |s.compactor.plan.lines| == 2 && s.compactor.plan.keep == 1
    requires Archive(0) !in s.fs.dir
    ensures Reached(s', honest) && s'.log == s.log && s'.lock == None && WellFormed(s'.fs)
    ensures s'.compactor == Archiving(s.compactor.plan, 0, 1) && s'.appenders == s.appenders
    ensures Live in s.fs.dir ==> Live in s'.fs.dir && s'.fs.dir[Live] == s.fs.dir[Live]
    ensures |s.fs.data| <= |s'.fs.data|
  {
    var s1 := ReachedStep(s, CreateArchive(0), honest);
    s' := ReachedStep(s1, WriteArchive, honest);
  }

  lemma StageSmall(s: State, honest: bool) returns (s': State)
    requires Reached(s, honest) && s.lock == None && WellFormed(s.fs)
    requires s.compactor.Archiving? && |s.compactor.plan.lines| == 2 && s.compactor.plan.keep == 1
    requires s.compactor.done == 1
    ensures Reached(s', honest) && s'.log == s.log && s'.lock == None && WellFormed(s'.fs)
    ensures s'.compactor == AwaitingLock(s.compactor.plan, s.compactor.stamp) && s'.appenders == s.appenders
    ensures Temp in s'.fs.dir && |s.fs.data| <= |s'.fs.data|
    ensures Live in s.fs.dir ==> Live in s'.fs.dir && s'.fs.dir[Live] == s.fs.dir[Live]
  {
    TruncateContent(s.fs, Temp);
    var s1 := ReachedStep(s, OpenTemp, honest);
    var s2 := ReachedStep(s1, WriteTemp, honest);
    s' := ReachedStep(s2, CloseTemp, honest);
  }

  lemma SwapSmall(s: State, honest: bool) returns (s': State)
    requires Reached(s, honest) && s.lock == None && WellFormed(s.fs) && s.compactor.AwaitingLock? && Temp in s.fs.dir
    ensures Reached(s', honest) && s'.log == s.log + [Compacted(s.compactor.plan.loadedAt)] && WellFormed(s'.fs)
    ensures s'.appenders == s.appenders && s'.fs.data == s.fs.data
    ensures Live in s'.fs.dir && s'.fs.dir[Live] == s.fs.dir[Temp]
  {
    var s1 := ReachedStep(s, LockForRename, honest);
    s' := ReachedStep(s1, RenameTemp, honest);
  }

  lemma TwoLines(honest: bool) returns (s: State)
    ensures Reached(s, honest) && WellFormed(s.fs) && s.lock == None && Pc(s, 0).Idle? && s.compactor.Resting?
    ensures s.log == [Appended("a"), Appended("b")] && Live in s.fs.dir && Content(s.fs, Live) == ["a", "b"]
    ensures forall t :: Archive(t) !in s.fs.dir
  {
    assert Exec([]) == Init() && SmoothRun([], honest);
    s := AppendOnce(Init(), "a", honest);
    s := AppendOnce(s, "b", honest);
  }

  /** An append between the load and the rename of a compaction disappears: no crash, failure or theft is needed. */
  lemma LossIsReachable() returns (run: seq<Label>)
    ensures SmoothRun(run, true)
    ensures Exec(run).log == [Appended("a"), Appended("b"), Appended("c"), Compacted(2)]
    ensures Kept(Exec(run)) == ["a", "b"]
  {
    var s := LossState();
    run :| Exec(run) == s && SmoothRun(run, true);
    DiskMatchesHistory(run);
    SurvivorsOfLoss();
  }

  lemma LossState() returns (s: State)
    ensures Reached(s, true) && s.log == [Appended("a"), Appended("b"), Appended("c"), Compacted(2)]
  {
    var s0 := TwoLines(true);
    var s1 := ReachedStep(s0, Load(1), true);
    var s2 := AppendOnce(s1, "c", true);
    var s3 := ArchiveSmall(s2, true);
    var s4 := StageSmall(s3, true);
    s := SwapSmall(s4, true);
  }

  lemma SurvivorsOfLoss()
    ensures Surviving([Appended("a"), Appended("b"), Appended("c"), Compacted(2)]) == ["a", "b"]
  {
    SurvivorsOfTwo();
    assert [Appended("a"), Appended("b"), Appended("c"), Compacted(2)][..2] == [Appended("a"), Appended("b")];
  }

  lemma SurvivorsOfTwo()
    ensures Surviving([Appended("a"), Appended("b")]) == ["a", "b"]
  {
    var a, b := Appended("a"), Appended("b");
    assert DropLast([a, b]) == [a] && DropLast([a]) == [];
    assert Surviving([a]) == [] + ["a"];
  }

  /**
   An appender opens the transcript, its lock file is removed, a whole compaction passes, and the appender writes: the
   line is lost though nobody wrote between the load and the rename and nobody was killed.
   */
  lemma TheftLosesALine() returns (run: seq<Label>)
    ensures SmoothRun(run, false)
    ensures Exec(run).log == [Appended("a"), Appended("b"), Compacted(2), Stray("c")] && WindowsQuiet(Exec(run).log)
    ensures Kept(Exec(run)) == ["a", "b"]
  {
    var s := TheftState();
    run :| Exec(run) == s && SmoothRun(run, false);
    DiskMatchesHistory(run);
    SurvivorsOfTheft();
  }

  lemma OpenedThenStolen() returns (s: State)
    ensures Reached(s, false) && WellFormed(s.fs) && s.lock == None && s.compactor.Resting?
    ensures s.log == [Appended("a"), Appended("b")] && Live in s.fs.dir && Content(s.fs, Live) == ["a", "b"]
    ensures Pc(s, 0) == Opened("c", s.fs.dir[Live]) && forall t :: Archive(t) !in s.fs.dir
  {
    var s0 := TwoLines(false);
    var s1 := ReachedStep(s0, Request(0, "c"), false);
    var s2 := ReachedStep(s1, AcquireLock(0), false);
    var s3 := ReachedStep(s2, OpenLive(0), false);
    s := ReachedStep(s3, StealLock, false);
  }

  lemma TheftState() returns (s: State)
    ensures Reached(s, false) && s.log == [Appended("a"), Appended("b"), Compacted(2), Stray("c")]
  {
    var s0 := OpenedThenStolen();
    var s1 := ReachedStep(s0, Load(1), false);
    var s2 := ArchiveSmall(s1, false);
    var s3 := StageSmall(s2, false);
    var s4 := SwapSmall(s3, false);
    assert Pc(s4, 0) == Opened("c", s0.fs.dir[Live]);
    assert s3.fs.dir[Temp] != s3.fs.dir[Live];
    s := ReachedStep(s4, WriteLive(0), false);
  }

  lemma SurvivorsOfTheft()
    ensures Surviving([Appended("a"), Appended("b"), Compacted(2), Stray("c")]) == ["a", "b"]
    ensures WindowsQuiet([Appended("a"), Appended("b"), Compacted(2), Stray("c")])
  {
    SurvivorsOfTwo();
    var log := [Appended("a"), Appended("b"), Compacted(2), Stray("c")];
    assert DropLast(log) == [Appended("a"), Appended("b"), Compacted(2)];
    assert DropLast(log)[..2] == [Appended("a"), Appended("b")];
  }
}
