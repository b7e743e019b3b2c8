/**
 The session transcript under appends and compactions (pkg/session/compaction.go and the append path of
 pkg/session/store.go), for the files of one session.

 The file system is a directory of names over numbered files, so that a handle opened before a rename keeps
 pointing at the old file. Every system call is one step; a process may be killed between any two. Any number of
 appenders run beside one compactor. Lines are opaque and one line write is one step.

 The lock file is at most as good as pkg/session/lock.go makes it: an orphaned one is reclaimed, and so may be that of a
 live holder (StealLock), who does not notice.
 */
module Transcript {
  import opened Common

  type Line = string
  type Inode = nat
  type Pid = nat

  // ---------------------------------------------------------------- file system

  datatype Path = Live | Temp | Archive(stamp: nat)

  datatype FileSystem = FileSystem(dir: map<Path, Inode>, data: seq<seq<Line>>)

  ghost predicate WellFormed(fs: FileSystem) {
    && (forall p <- fs.dir :: fs.dir[p] < |fs.data|)
    && (forall p <- fs.dir, q <- fs.dir :: fs.dir[p] == fs.dir[q] ==> p == q)
  }

  function Content(fs: FileSystem, p: Path): seq<Line> {
    if p in fs.dir && fs.dir[p] < |fs.data| then fs.data[fs.dir[p]] else []
  }

  function CreateFile(fs: FileSystem, p: Path): FileSystem {
    FileSystem(fs.dir[p := |fs.data|], fs.data + [[]])
  }

  // O_CREATE without O_TRUNC
  function OpenForAppend(fs: FileSystem, p: Path): FileSystem {
    if p in fs.dir then fs else CreateFile(fs, p)
  }

  // O_CREATE with O_TRUNC
  function OpenTruncated(fs: FileSystem, p: Path): FileSystem {
    if p in fs.dir && fs.dir[p] < |fs.data| then fs.(data := fs.data[fs.dir[p] := []]) else CreateFile(fs, p)
  }

  function WriteLine(fs: FileSystem, ino: Inode, line: Line): FileSystem
    requires ino < |fs.data|
  {
    fs.(data := fs.data[ino := fs.data[ino] + [line]])
  }

  function Rename(fs: FileSystem, from: Path, to: Path): FileSystem
    requires from in fs.dir
  {
    fs.(dir := (fs.dir - {from})[to := fs.dir[from]])
  }

  function Remove(fs: FileSystem, p: Path): FileSystem {
    fs.(dir := fs.dir - {p})
  }

  // ---------------------------------------------------------------- processes

  datatype Owner = ByAppender(pid: Pid) | ByCompactor | Orphan

  datatype Appender =
    | Idle
    | Waiting(line: Line)                  // about to take the lock
    | Holding(line: Line)                  // lock taken
    | Opened(line: Line, ino: Inode)       // transcript opened
    | Finished                             // written or failed; the deferred unlock is still to run

  // What one compaction read, how many lines it keeps, and how much of the log it had seen.
  datatype Plan = Plan(lines: seq<Line>, keep: nat, loadedAt: nat) {
    ghost predicate Sensible() { 1 <= keep < |lines| }
    function Split(): nat { if keep <= |lines| then |lines| - keep else 0 }
  }

  datatype Compactor =
    | Resting
    | Loaded(plan: Plan)
    | Archiving(plan: Plan, stamp: nat, done: nat)
    | Staging(plan: Plan, stamp: nat, done: nat)
    | AwaitingLock(plan: Plan, stamp: nat)
    | Locked(plan: Plan, stamp: nat)
    | Discarding(locked: bool)             // error path: temp file still to be removed
    | Unlocking(plan: Plan, renamed: bool)
    | Recording(plan: Plan)                // transcript replaced; metadata still to be written

  datatype Meta = Meta(compactions: nat, messages: nat)

  // What happened, oldest first: a line was written to the transcript, or through a handle to a file that a rename has
  // replaced; or a compaction that had loaded the transcript when the log had `loadedAt` events replaced it.
  datatype Event = Appended(line: Line) | Stray(line: Line) | Compacted(loadedAt: nat)

  datatype State = State(
    fs: FileSystem,
    lock: Option<Owner>,
    appenders: map<Pid, Appender>,
    compactor: Compactor,
    meta: Meta,
    // history
    log: seq<Event>,
    committed: seq<nat>,    // stamps of the archives whose compaction reached its rename
    unrecorded: nat)        // renames whose metadata update never ran

  function Init(): State {
    State(FileSystem(map[], []), None, map[], Resting, Meta(0, 0), [], [], 0)
  }

  function Pc(s: State, pid: Pid): Appender {
    if pid in s.appenders then s.appenders[pid] else Idle
  }

  predicate AppenderHolds(a: Appender) { a.Holding? || a.Opened? || a.Finished? }

  predicate CompactorHolds(c: Compactor) {
    c.Locked? || c.Unlocking? || (c.Discarding? && c.locked)
  }

  // ---------------------------------------------------------------- steps

  datatype Label =
    | Request(pid: Pid, line: Line) | AcquireLock(pid: Pid) | GiveUp(pid: Pid) | OpenLive(pid: Pid)
    | WriteLive(pid: Pid) | FailAppend(pid: Pid) | ReleaseLock(pid: Pid) | KillAppender(pid: Pid)
    | ReclaimLock | StealLock
    | Load(keep: nat) | CreateArchive(stamp: nat) | WriteArchive | OpenTemp | WriteTemp | CloseTemp
    | LockForRename | RenameTemp | Unlock | RecordMeta | FailCompaction | DiscardTemp | KillCompactor

  predicate Enabled(s: State, l: Label) {
    match l
    case Request(pid, _) => Pc(s, pid).Idle?
    case AcquireLock(pid) => Pc(s, pid).Waiting? && s.lock == None
    case GiveUp(pid) => Pc(s, pid).Waiting?
    case OpenLive(pid) => Pc(s, pid).Holding?
    case WriteLive(pid) => Pc(s, pid).Opened? && Pc(s, pid).ino < |s.fs.data|
    case FailAppend(pid) => Pc(s, pid).Holding? || Pc(s, pid).Opened?
    case ReleaseLock(pid) => Pc(s, pid).Finished?
    case KillAppender(pid) => true
    case ReclaimLock => s.lock == Some(Orphan)
    case StealLock => s.lock.Some? && !s.lock.value.Orphan?
    case Load(keep) => s.compactor.Resting? && 1 <= keep
    case CreateArchive(_) => s.compactor.Loaded?
    case WriteArchive =>
      && s.compactor.Archiving? && s.compactor.done < s.compactor.plan.Split()
      && Archive(s.compactor.stamp) in s.fs.dir && s.fs.dir[Archive(s.compactor.stamp)] < |s.fs.data|
    case OpenTemp => s.compactor.Archiving? && s.compactor.done == s.compactor.plan.Split()
    case WriteTemp =>
      && s.compactor.Staging? && s.compactor.plan.Split() + s.compactor.done < |s.compactor.plan.lines|
      && Temp in s.fs.dir && s.fs.dir[Temp] < |s.fs.data|
    case CloseTemp =>
      s.compactor.Staging? && s.compactor.plan.Split() + s.compactor.done == |s.compactor.plan.lines|
    case LockForRename => s.compactor.AwaitingLock? && s.lock == None
    case RenameTemp => s.compactor.Locked? && Temp in s.fs.dir
    case Unlock => s.compactor.Unlocking?
    case RecordMeta => s.compactor.Recording?
    case FailCompaction =>
      && !s.compactor.Resting? && !s.compactor.Discarding? && !s.compactor.Unlocking?
    case DiscardTemp => s.compactor.Discarding?
    case KillCompactor => true
  }

  function Unrecorded(c: Compactor): nat {
    if c.Recording? || (c.Unlocking? && c.renamed) then 1 else 0
  }

  function SetPc(s: State, pid: Pid, a: Appender): State {
    s.(appenders := s.appenders[pid := a])
  }

  function Apply(s: State, l: Label): State
    requires Enabled(s, l)
  {
    match l
    case Request(pid, line) => SetPc(s, pid, Waiting(line))
    case AcquireLock(pid) => SetPc(s, pid, Holding(Pc(s, pid).line)).(lock := Some(ByAppender(pid)))
    case GiveUp(pid) => SetPc(s, pid, Idle)
    case OpenLive(pid) =>
      var fs := OpenForAppend(s.fs, Live);
      SetPc(s, pid, Opened(Pc(s, pid).line, fs.dir[Live])).(fs := fs)
    case WriteLive(pid) =>
      var Opened(line, ino) := Pc(s, pid);
      SetPc(s, pid, Finished).(
        fs := WriteLine(s.fs, ino, line),
        log := s.log + [if Live in s.fs.dir && s.fs.dir[Live] == ino then Appended(line) else Stray(line)])
    case FailAppend(pid) => SetPc(s, pid, Finished)
    case ReleaseLock(pid) => SetPc(s, pid, Idle).(lock := None)
    case KillAppender(pid) =>
      SetPc(s, pid, Idle).(lock := if s.lock == Some(ByAppender(pid)) then Some(Orphan) else s.lock)
    case ReclaimLock => s.(lock := None)
    case StealLock => s.(lock := None)
    case Load(keep) =>
      var lines := Content(s.fs, Live);
      if Live in s.fs.dir && keep < |lines| then s.(compactor := Loaded(Plan(lines, keep, |s.log|))) else s
    case CreateArchive(stamp) =>
      if Archive(stamp) in s.fs.dir then s.(compactor := Resting)  // O_EXCL
      else s.(fs := CreateFile(s.fs, Archive(stamp)), compactor := Archiving(s.compactor.plan, stamp, 0))
    case WriteArchive =>
      var Archiving(plan, stamp, done) := s.compactor;
      s.(fs := WriteLine(s.fs, s.fs.dir[Archive(stamp)], plan.lines[done]),
         compactor := Archiving(plan, stamp, done + 1))
    case OpenTemp =>
      s.(fs := OpenTruncated(s.fs, Temp), compactor := Staging(s.compactor.plan, s.compactor.stamp, 0))
    case WriteTemp =>
      var Staging(plan, stamp, done) := s.compactor;
      s.(fs := WriteLine(s.fs, s.fs.dir[Temp], plan.lines[plan.Split() + done]),
         compactor := Staging(plan, stamp, done + 1))
    case CloseTemp => s.(compactor := AwaitingLock(s.compactor.plan, s.compactor.stamp))
    case LockForRename =>
      s.(compactor := Locked(s.compactor.plan, s.compactor.stamp), lock := Some(ByCompactor))
    case RenameTemp =>
      var Locked(plan, stamp) := s.compactor;
      s.(fs := Rename(s.fs, Temp, Live), compactor := Unlocking(plan, true),
         log := s.log + [Compacted(plan.loadedAt)], committed := s.committed + [stamp])
    case Unlock =>
      s.(compactor := if s.compactor.renamed then Recording(s.compactor.plan) else Resting, lock := None)
    case RecordMeta =>
      s.(compactor := Resting, meta := Meta(s.meta.compactions + 1, s.compactor.plan.keep))
    case FailCompaction =>
      if s.compactor.Recording? then s.(compactor := Resting, unrecorded := s.unrecorded + 1)
      else if s.compactor.Loaded? || s.compactor.Archiving? then s.(compactor := Resting)
      else s.(compactor := Discarding(s.compactor.Locked?))
    case DiscardTemp =>
      s.(fs := Remove(s.fs, Temp),
         compactor := if s.compactor.locked then Unlocking(Plan([], 0, 0), false) else Resting)
    case KillCompactor =>
      s.(compactor := Resting,
         lock := if s.lock == Some(ByCompactor) then Some(Orphan) else s.lock,
         unrecorded := s.unrecorded + Unrecorded(s.compactor))
  }

  // A run is any sequence of labels; a label that is not enabled where it stands does nothing.
  function Step(s: State, l: Label): State {
    if Enabled(s, l) then Apply(s, l) else s
  }

  function Exec(run: seq<Label>): State {
    if run == [] then Init() else Step(Exec(DropLast(run)), Last(run))
  }

  // ---------------------------------------------------------------- specification on the log alone

  /** Every line written, in order. */
  function Appends(log: seq<Event>): seq<Line> {
    if log == [] then []
    else Appends(DropLast(log)) + match Last(log)
      case Appended(line) => [line]
      case Stray(line) => [line]
      case Compacted(_) => []
  }

  /** Those written to the transcript. */
  function Landed(log: seq<Event>): seq<Line> {
    if log == [] then []
    else Landed(DropLast(log)) + match Last(log)
      case Appended(line) => [line]
      case Stray(_) => []
      case Compacted(_) => []
  }

  /** The lines a log leaves behind: a compaction takes the transcript back to what it was when loaded. */
  function Surviving(log: seq<Event>): seq<Line>
    decreases |log|
  {
    if log == [] then []
    else match Last(log)
      case Appended(line) => Surviving(DropLast(log)) + [line]
      case Stray(_) => Surviving(DropLast(log))
      case Compacted(at) => if at < |log| then Surviving(log[..at]) else []
  }

  /** The lines a log drops: for each compaction, those that landed between its load and its rename; and the strays. */
  function Lost(log: seq<Event>): seq<Line> {
    if log == [] then []
    else Lost(DropLast(log)) + match Last(log)
      case Appended(_) => []
      case Stray(line) => [line]
      case Compacted(at) => if at < |log| then Landed(DropLast(log)[at..]) else []
  }

  /** No line lands between the load and the rename of any compaction in the log. */
  ghost predicate WindowsQuiet(log: seq<Event>) {
    forall i, j :: 0 <= i < j < |log| && log[i].Appended? && log[j].Compacted? ==> i < log[j].loadedAt
  }

  ghost predicate NoStrays(log: seq<Event>) {
    forall i :: 0 <= i < |log| ==> !log[i].Stray?
  }

  ghost predicate Quiet(log: seq<Event>) { NoStrays(log) && WindowsQuiet(log) }

  /** Compactions run one at a time. */
  ghost predicate Sequential(log: seq<Event>) {
    && (forall j :: 0 <= j < |log| && log[j].Compacted? ==> log[j].loadedAt <= j)
    && (forall i, j :: 0 <= i < j < |log| && log[i].Compacted? && log[j].Compacted? ==> i < log[j].loadedAt)
  }

  function Archived(fs: FileSystem, stamps: seq<nat>): seq<Line> {
    if stamps == [] then [] else Archived(fs, DropLast(stamps)) + Content(fs, Archive(Last(stamps)))
  }

  /** What is on disk: the archives of the compactions that reached their rename, then the live transcript. */
  function Kept(s: State): seq<Line> {
    Archived(s.fs, s.committed) + Content(s.fs, Live)
  }

  // ---------------------------------------------------------------- facts about the log

  lemma {:induction false} LandedEmpty(log: seq<Event>)
    ensures Landed(log) == [] <==> forall i :: 0 <= i < |log| ==> !log[i].Appended?
  {
    if log != [] {
      LandedEmpty(DropLast(log));
      assert forall i :: 0 <= i < |log| - 1 ==> DropLast(log)[i] == log[i];
      assert log[|log| - 1] == Last(log);
    }
  }

  lemma {:induction false} SurvivingExtends(log: seq<Event>, at: nat)
    requires at <= |log|
    requires forall i :: at <= i < |log| ==> !log[i].Compacted?
    ensures Surviving(log) == Surviving(log[..at]) + Landed(log[at..])
    decreases |log|
  {
    if at == |log| {
      assert log[..at] == log;
    } else {
      var init := DropLast(log);
      SurvivingExtends(init, at);
      assert init[..at] == log[..at];
      assert DropLast(log[at..]) == init[at..];
      assert !Last(log).Compacted?;
    }
  }

  /** Every written line either survives or is lost. */
  lemma {:induction false} LogConserves(log: seq<Event>)
    requires Sequential(log)
    ensures multiset(Appends(log)) == multiset(Surviving(log)) + multiset(Lost(log))
    decreases |log|
  {
    if log != [] {
      var init := DropLast(log);
      LogConserves(init);
      if Last(log).Compacted? {
        RollsBack(log);
        var at := Last(log).loadedAt;
        assert multiset(Surviving(init)) == multiset(Surviving(log)) + multiset(Landed(init[at..]));
        assert multiset(Lost(log)) == multiset(Lost(init)) + multiset(Landed(init[at..]));
      }
    }
  }

  lemma RollsBack(log: seq<Event>)
    requires Sequential(log) && log != [] && Last(log).Compacted?
    ensures Last(log).loadedAt < |log|
    ensures Surviving(DropLast(log)) == Surviving(log) + Landed(DropLast(log)[Last(log).loadedAt..])
  {
    var init, at := DropLast(log), Last(log).loadedAt;
    assert log[|log| - 1] == Last(log);
    SurvivingExtends(init, at);
    assert init[..at] == log[..at];
  }

  /** Nothing is lost exactly when there are no strays and no line lands between a load and its rename. */
  lemma {:induction false} NothingLostIffQuiet(log: seq<Event>)
    requires Sequential(log)
    ensures Lost(log) == [] <==> Quiet(log)
    ensures Lost(log) == [] ==> Surviving(log) == Appends(log)
    decreases |log|
  {
    if log != [] {
      var init := DropLast(log);
      NothingLostIffQuiet(init);
      assert log == init + [Last(log)];
      StraysSnoc(init, Last(log));
      if Last(log).Compacted? {
        RollsBack(log);
        var at := Last(log).loadedAt;
        QuietSnoc(init, at);
        assert Lost(log) == [] <==> Lost(init) == [] && Landed(init[at..]) == [];
      } else {
        QuietAppend(init, Last(log));
      }
    }
  }

  lemma StraysSnoc(log: seq<Event>, e: Event)
    ensures NoStrays(log + [e]) <==> NoStrays(log) && !e.Stray?
  {
    var next := log + [e];
    assert next[|log|] == e && forall i :: 0 <= i < |log| ==> next[i] == log[i];
  }

  lemma QuietAppend(log: seq<Event>, e: Event)
    requires !e.Compacted?
    ensures WindowsQuiet(log + [e]) <==> WindowsQuiet(log)
  {
    var next := log + [e];
    if WindowsQuiet(next) {
      forall i, j | 0 <= i < j < |log| && log[i].Appended? && log[j].Compacted? ensures i < log[j].loadedAt {
        assert next[i] == log[i] && next[j] == log[j];
      }
    }
  }

  lemma QuietSnoc(log: seq<Event>, at: nat)
    requires at <= |log|
    ensures WindowsQuiet(log + [Compacted(at)]) <==> WindowsQuiet(log) && Landed(log[at..]) == []
  {
    var next := log + [Compacted(at)];
    LandedEmpty(log[at..]);
    if WindowsQuiet(next) {
      forall i | 0 <= i < |log[at..]| ensures !log[at..][i].Appended? {
        assert next[at + i] == log[at..][i] && next[|log|] == Compacted(at);
      }
      forall i, j | 0 <= i < j < |log| && log[i].Appended? && log[j].Compacted? ensures i < log[j].loadedAt {
        assert next[i] == log[i] && next[j] == log[j];
      }
    }
    if WindowsQuiet(log) && Landed(log[at..]) == [] {
      forall i | at <= i < |log| ensures !log[i].Appended? {
        assert log[at..][i - at] == log[i];
      }
    }
  }
}
