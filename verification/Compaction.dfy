/**
 Compactor.Compact and Store.AppendTranscript as programs over the transcript model. Each program advances one
 shared host a system call at a time and lets the other processes run in between, so whatever they establish holds
 of some run of the model, and every run theorem applies to it.
 */
module Compaction {
  import opened Common
  import opened Transcript
  import opened TranscriptSafety

  datatype CompactionResult = CompactionResult(
    originalLineCount: nat, archivedLineCount: nat, remainingLineCount: nat, compactionCount: nat, compacted: bool)

  datatype Outcome = Done(result: CompactionResult) | Failed

  // Which system calls of a compaction fail, apart from what the state decides; `archiveWrites` and `tempWrites` are
  // the
  // numbers of the line writes that do, `create` is for another reason than a file of that name, `lock` is a wait given
  // up for another reason than a lock that is held.
  datatype Faults = Faults(
    load: bool, create: bool, archiveWrites: set<nat>, openTemp: bool, tempWrites: set<nat>, closeTemp: bool,
    lock: bool, rename: bool, record: bool)

  predicate NoneBelow(failing: set<nat>, n: nat) { forall i: nat | i < n :: i !in failing }

  lemma OneMoreBelow(failing: set<nat>, n: nat)
    ensures NoneBelow(failing, n + 1) <==> NoneBelow(failing, n) && n !in failing
  {
  }

  predicate Archives(f: Faults, archived: nat) { !f.create && NoneBelow(f.archiveWrites, archived) }

  predicate Stages(f: Faults, kept: nat) { !f.openTemp && NoneBelow(f.tempWrites, kept) && !f.closeTemp }

  predicate Swaps(f: Faults) { !f.lock && !f.rename }

  /** With `lines` lines to begin with, no call up to the rename fails. */
  predicate Renames(f: Faults, lines: nat, keep: nat)
    requires keep <= lines
  {
    Archives(f, lines - keep) && Stages(f, keep) && Swaps(f)
  }

  datatype AppendFaults = AppendFaults(lock: bool, open: bool, write: bool)

  /** Whose step a label is. */
  predicate CompactorLabel(l: Label) {
    match l
    case Load(_) => true
    case CreateArchive(_) => true
    case KillAppender(_) => false
    case _ =>
      || l.WriteArchive? || l.OpenTemp? || l.WriteTemp? || l.CloseTemp? || l.LockForRename? || l.RenameTemp?
      || l.Unlock? || l.RecordMeta? || l.FailCompaction? || l.DiscardTemp? || l.KillCompactor?
  }

  // What the compactor may rely on while other processes run.
  ghost predicate Rely(s: State, s': State) {
    && s'.compactor == s.compactor && s'.committed == s.committed && s'.meta == s.meta
    && s'.unrecorded == s.unrecorded
    && s.log <= s'.log && (forall i :: |s.log| <= i < |s'.log| ==> !s'.log[i].Compacted?)
    && (Live in s.fs.dir ==> Live in s'.fs.dir) && forall p :: p != Live ==> (p in s'.fs.dir <==> p in s.fs.dir)
  }

  lemma OthersKeepRely(s: State, l: Label)
    requires !CompactorLabel(l)
    ensures Rely(s, Step(s, l))
  {
  }

  // In a reachable state the files the compactor is about to use are there.
  lemma FilesInPlace(run: seq<Label>)
    ensures var s := Exec(run);
      && (s.compactor.Archiving? && s.compactor.done < s.compactor.plan.Split() ==> Enabled(s, WriteArchive))
      && (s.compactor.Staging? && s.compactor.plan.Split() + s.compactor.done < |s.compactor.plan.lines|
          ==> Enabled(s, WriteTemp))
      && (s.compactor.Locked? ==> Enabled(s, RenameTemp))
      && (forall pid :: Pc(s, pid).Opened? ==> Enabled(s, WriteLive(pid)))
  {
    Reachable(run);
  }

  lemma IdleHoldsNothing(run: seq<Label>, pid: Pid)
    requires Pc(Exec(run), pid).Idle?
    ensures Exec(run).lock != Some(ByAppender(pid))
  {
    Reachable(run);
  }

  // Whose step a label is, and what an appender may rely on while other processes run.
  predicate AppenderLabel(l: Label, pid: Pid) {
    match l
    case Request(p, _) => p == pid
    case AcquireLock(p) => p == pid
    case GiveUp(p) => p == pid
    case OpenLive(p) => p == pid
    case WriteLive(p) => p == pid
    case FailAppend(p) => p == pid
    case ReleaseLock(p) => p == pid
    case KillAppender(p) => p == pid
    case _ => false
  }

  ghost predicate AppenderRely(pid: Pid, s: State, s': State) {
    Pc(s', pid) == Pc(s, pid) && s.log <= s'.log
  }

  lemma OthersKeepAppenderRely(pid: Pid, s: State, l: Label)
    requires !AppenderLabel(l, pid)
    ensures AppenderRely(pid, s, Step(s, l))
  {
  }

  class Host {
    var s: State
    ghost var run: seq<Label>

    ghost predicate Valid()
      reads this
    {
      s == Exec(run)
    }

    constructor ()
      ensures Valid() && s == Init()
    {
      s := Init();
      run := [];
    }

    /** One system call. */
    method Do(l: Label)
      requires Valid() && Enabled(s, l)
      modifies this
      ensures Valid() && s == Apply(old(s), l) && run == old(run) + [l]
    {
      s := Apply(s, l);
      run := run + [l];
      assert DropLast(run) == old(run);
    }

    /** Any number of steps of other processes. */
    method Interfere()
      requires Valid()
      modifies this
      ensures Valid() && old(run) <= run && Rely(old(s), s)
    {
      var n: nat := *;
      while n > 0
        invariant Valid() && old(run) <= run && Rely(old(s), s)
      {
        var l: Label := *;
        if !CompactorLabel(l) && Enabled(s, l) {
          OthersKeepRely(s, l);
          Do(l);
        }
        n := n - 1;
      }
    }

    /** Any number of steps of processes other than one appender. */
    method InterfereAround(pid: Pid)
      requires Valid()
      modifies this
      ensures Valid() && old(run) <= run && AppenderRely(pid, old(s), s)
    {
      var n: nat := *;
      while n > 0
        invariant Valid() && old(run) <= run && AppenderRely(pid, old(s), s)
      {
        var l: Label := *;
        if !AppenderLabel(l, pid) && Enabled(s, l) {
          OthersKeepAppenderRely(pid, s, l);
          Do(l);
        }
        n := n - 1;
      }
    }
  }

  /** At some moment of the call the compactor was waiting for a lock that was held. */
  ghost predicate CompactorSawLock(before: seq<Label>, after: seq<Label>) {
    exists k: nat :: |before| <= k <= |after| && Exec(after[..k]).compactor.AwaitingLock?
      && Exec(after[..k]).lock != None
  }

  ghost predicate AppenderSawLock(pid: Pid, before: seq<Label>, after: seq<Label>) {
    exists k: nat :: |before| <= k <= |after| && Pc(Exec(after[..k]), pid).Waiting? && Exec(after[..k]).lock != None
  }

  lemma SawLockLater(before: seq<Label>, middle: seq<Label>, after: seq<Label>, later: seq<Label>)
    requires before <= middle <= after <= later && CompactorSawLock(middle, after)
    ensures CompactorSawLock(before, later)
  {
    var k: nat :| |middle| <= k <= |after| && Exec(after[..k]).compactor.AwaitingLock? && Exec(after[..k]).lock != None;
    assert later[..k] == after[..k];
  }

  // What a successful write leaves in the log: it can be a stray only if the lock was taken away meanwhile.
  function Written(line: Line): set<Event> { {Appended(line), Stray(line)} }

  /** With the lock taken: open the transcript and write the line; either call may fail. */
  method WriteUnderLock(h: Host, pid: Pid, f: AppendFaults) returns (ok: bool)
    requires h.Valid() && Pc(h.s, pid).Holding?
    modifies h
    ensures h.Valid() && Pc(h.s, pid).Finished? && old(h.s.log) <= h.s.log && old(h.run) <= h.run
    ensures ok <==> !f.open && !f.write
    ensures ok ==> exists n :: |old(h.s.log)| <= n < |h.s.log| && h.s.log[n] in Written(old(Pc(h.s, pid).line))
  {
    if !f.open {
      h.Do(OpenLive(pid));
      h.InterfereAround(pid);
    }
    if f.open || f.write {
      h.Do(FailAppend(pid));
      return false;
    }
    FilesInPlace(h.run);
    ghost var n := |h.s.log|;
    h.Do(WriteLive(pid));
    assert h.s.log[n] in Written(old(Pc(h.s, pid).line));
    return true;
  }

  /**
   Appends one line under the lock. It succeeds exactly when no call fails and the lock is not held when it looks; then
   the line is in the log, and in the transcript's part of it if nobody's lock was taken away.
   */
  method AppendTranscript(h: Host, pid: Pid, line: Line, f: AppendFaults) returns (ok: bool, busy: bool)
    requires h.Valid() && Pc(h.s, pid).Idle?
    modifies h
    ensures h.Valid() && Pc(h.s, pid).Idle? && old(h.s.log) <= h.s.log
    ensures h.s.lock != Some(ByAppender(pid)) && old(h.run) <= h.run
    ensures ok <==> !f.lock && !f.open && !f.write && !busy
    ensures busy ==> AppenderSawLock(pid, old(h.run), h.run)
    ensures ok ==> exists n :: |old(h.s.log)| <= n < |h.s.log| && h.s.log[n] in Written(line)
    ensures ok && NothingStolen(h.run) ==>
              exists n :: |old(h.s.log)| <= n < |h.s.log| && h.s.log[n] == Appended(line)
  {
    h.Do(Request(pid, line));
    h.InterfereAround(pid);
    busy := h.s.lock != None;
    if f.lock || busy {
      ghost var looked := h.run;
      h.Do(GiveUp(pid));
      IdleHoldsNothing(h.run, pid);
      assert h.run[..|looked|] == looked;
      return false, busy;
    }
    ok := AppendLocked(h, pid, f);
    if NothingStolen(h.run) { HonestReachable(h.run); }
  }

  /** The part behind the wait for the lock. */
  method AppendLocked(h: Host, pid: Pid, f: AppendFaults) returns (ok: bool)
    requires h.Valid() && Pc(h.s, pid).Waiting? && h.s.lock == None
    modifies h
    ensures h.Valid() && Pc(h.s, pid).Idle? && old(h.s.log) <= h.s.log && old(h.run) <= h.run
    ensures h.s.lock != Some(ByAppender(pid))
    ensures ok <==> !f.open && !f.write
    ensures ok ==> exists n :: |old(h.s.log)| <= n < |h.s.log| && h.s.log[n] in Written(old(Pc(h.s, pid).line))
  {
    h.Do(AcquireLock(pid));
    h.InterfereAround(pid);
    ok := WriteUnderLock(h, pid, f);
    ghost var log := h.s.log;
    h.InterfereAround(pid);
    h.Do(ReleaseLock(pid));
    assert log <= h.s.log;
    IdleHoldsNothing(h.run, pid);
  }

  /** The compactor writes the lines to be archived, one write call each, unless a file of that name is there. */
  method WriteCompactionArchive(h: Host, stamp: nat, f: Faults) returns (ok: bool)
    requires h.Valid() && h.s.compactor.Loaded?
    modifies h
    ensures h.Valid() && Continues(old(h.s), h.s) && h.s.committed == old(h.s.committed)
    ensures h.s.meta == old(h.s.meta) && old(h.run) <= h.run
    ensures ok <==> Archives(f, old(h.s.compactor.plan).Split()) && Archive(stamp) !in old(h.s.fs.dir)
    ensures ok ==> h.s.compactor == Archiving(old(h.s.compactor.plan), stamp, old(h.s.compactor.plan).Split())
    ensures !ok ==> h.s.compactor.Resting?
  {
    var plan := h.s.compactor.plan;
    if f.create {
      h.Do(FailCompaction);
      return false;
    }
    h.Do(CreateArchive(stamp));
    if h.s.compactor.Resting? { return false; }
    h.Interfere();
    ok := WriteArchiveLines(h, f.archiveWrites);
  }

  method WriteArchiveLines(h: Host, failing: set<nat>) returns (ok: bool)
    requires h.Valid() && h.s.compactor.Archiving? && h.s.compactor.done == 0
    modifies h
    ensures h.Valid() && Continues(old(h.s), h.s) && h.s.committed == old(h.s.committed)
    ensures h.s.meta == old(h.s.meta) && old(h.run) <= h.run
    ensures ok <==> NoneBelow(failing, old(h.s.compactor.plan).Split())
    ensures !ok ==> h.s.compactor.Resting?
    ensures ok ==>
      h.s.compactor == Archiving(old(h.s.compactor.plan), old(h.s.compactor.stamp), old(h.s.compactor.plan).Split())
  {
    var plan, stamp := h.s.compactor.plan, h.s.compactor.stamp;
    for i := 0 to plan.Split()
      invariant h.Valid() && Continues(old(h.s), h.s) && h.s.committed == old(h.s.committed)
      invariant h.s.meta == old(h.s.meta) && old(h.run) <= h.run
      invariant h.s.compactor == Archiving(plan, stamp, i) && NoneBelow(failing, i)
    {
      OneMoreBelow(failing, i);
      var written := WriteArchiveLine(h, i in failing);
      if !written { return false; }
    }
    return true;
  }

  method WriteArchiveLine(h: Host, fails: bool) returns (ok: bool)
    requires h.Valid() && h.s.compactor.Archiving? && h.s.compactor.done < h.s.compactor.plan.Split()
    modifies h
    ensures h.Valid() && Continues(old(h.s), h.s)
    ensures h.s.committed == old(h.s.committed) && h.s.meta == old(h.s.meta)
    ensures (ok <==> !fails) && old(h.run) <= h.run
    ensures !ok ==> h.s.compactor.Resting?
    ensures ok ==>
      h.s.compactor == Archiving(old(h.s.compactor.plan), old(h.s.compactor.stamp), old(h.s.compactor.done) + 1)
  {
    if fails {
      h.Do(FailCompaction);
      return false;
    }
    FilesInPlace(h.run);
    h.Do(WriteArchive);
    h.Interfere();
    return true;
  }

  /** Error path of the rewrite: remove the temporary file, then release the lock if it was taken. */
  method Discard(h: Host)
    requires h.Valid() && (h.s.compactor.Staging? || h.s.compactor.AwaitingLock? || h.s.compactor.Locked?)
    modifies h
    ensures h.Valid() && h.s.compactor.Resting? && Continues(old(h.s), h.s)
    ensures h.s.committed == old(h.s.committed) && h.s.meta == old(h.s.meta)
    ensures Temp !in h.s.fs.dir && old(h.run) <= h.run
  {
    h.Do(FailCompaction);
    h.Interfere();
    h.Do(DiscardTemp);
    h.Interfere();
    if h.s.compactor.Unlocking? { ReleaseAfterFailure(h); }
  }

  method ReleaseAfterFailure(h: Host)
    requires h.Valid() && h.s.compactor.Unlocking? && !h.s.compactor.renamed && Temp !in h.s.fs.dir
    modifies h
    ensures h.Valid() && h.s.compactor.Resting? && Continues(old(h.s), h.s)
    ensures h.s.committed == old(h.s.committed) && h.s.meta == old(h.s.meta)
    ensures Temp !in h.s.fs.dir && old(h.run) <= h.run
  {
    h.Do(Unlock);
    h.Interfere();
  }

  function KeptCount(plan: Plan): nat { if plan.Split() <= |plan.lines| then |plan.lines| - plan.Split() else 0 }

  /** The lines to keep go to the temporary file, one write call each. */
  method StageTranscript(h: Host, f: Faults) returns (ok: bool)
    requires h.Valid() && h.s.compactor.Archiving? && h.s.compactor.done == h.s.compactor.plan.Split()
    modifies h
    ensures h.Valid() && Continues(old(h.s), h.s)
    ensures h.s.meta == old(h.s.meta) && h.s.committed == old(h.s.committed) && old(h.run) <= h.run
    ensures ok <==> Stages(f, KeptCount(old(h.s.compactor.plan)))
    ensures !ok ==> h.s.compactor.Resting?
    ensures ok ==> h.s.compactor == AwaitingLock(old(h.s.compactor.plan), old(h.s.compactor.stamp))
  {
    var plan, stamp := h.s.compactor.plan, h.s.compactor.stamp;
    if f.openTemp {
      h.Do(FailCompaction);
      return false;
    }
    h.Do(OpenTemp);
    h.Interfere();
    ok := WriteTempLines(h, KeptCount(plan), f.tempWrites);
    if ok { ok := CloseStaged(h, f.closeTemp); }
  }

  method CloseStaged(h: Host, fails: bool) returns (ok: bool)
    requires h.Valid() && Enabled(h.s, CloseTemp)
    modifies h
    ensures h.Valid() && Continues(old(h.s), h.s)
    ensures h.s.meta == old(h.s.meta) && h.s.committed == old(h.s.committed) && old(h.run) <= h.run
    ensures ok <==> !fails
    ensures !ok ==> h.s.compactor.Resting?
    ensures ok ==> h.s.compactor == AwaitingLock(old(h.s.compactor.plan), old(h.s.compactor.stamp))
  {
    if fails {
      Discard(h);
      return false;
    }
    h.Do(CloseTemp);
    h.Interfere();
    return true;
  }

  method WriteTempLines(h: Host, count: nat, failing: set<nat>) returns (ok: bool)
    requires h.Valid() && h.s.compactor.Staging? && h.s.compactor.done == 0
    requires h.s.compactor.plan.Split() + count == |h.s.compactor.plan.lines|
    modifies h
    ensures h.Valid() && Continues(old(h.s), h.s) && h.s.committed == old(h.s.committed)
    ensures h.s.meta == old(h.s.meta) && old(h.run) <= h.run
    ensures ok <==> NoneBelow(failing, count)
    ensures !ok ==> h.s.compactor.Resting?
    ensures ok ==>
      h.s.compactor == Staging(old(h.s.compactor.plan), old(h.s.compactor.stamp), count)
  {
    var plan, stamp := h.s.compactor.plan, h.s.compactor.stamp;
    for i := 0 to count
      invariant h.Valid() && Continues(old(h.s), h.s) && h.s.committed == old(h.s.committed)
      invariant h.s.meta == old(h.s.meta) && old(h.run) <= h.run
      invariant h.s.compactor == Staging(plan, stamp, i) && NoneBelow(failing, i)
    {
      OneMoreBelow(failing, i);
      var written := WriteTempLine(h, i in failing);
      if !written { return false; }
    }
    return true;
  }

  method WriteTempLine(h: Host, fails: bool) returns (ok: bool)
    requires h.Valid() && h.s.compactor.Staging?
    requires h.s.compactor.plan.Split() + h.s.compactor.done < |h.s.compactor.plan.lines|
    modifies h
    ensures h.Valid() && Continues(old(h.s), h.s)
    ensures h.s.committed == old(h.s.committed) && h.s.meta == old(h.s.meta)
    ensures (ok <==> !fails) && old(h.run) <= h.run
    ensures !ok ==> h.s.compactor.Resting?
    ensures ok ==>
      h.s.compactor == Staging(old(h.s.compactor.plan), old(h.s.compactor.stamp), old(h.s.compactor.done) + 1)
  {
    if fails {
      Discard(h);
      return false;
    }
    FilesInPlace(h.run);
    h.Do(WriteTemp);
    h.Interfere();
    return true;
  }

  /** Stages the lines to keep and swaps them in, and fails when a call does or the lock is held when it looks. */
  method RewriteTranscript(h: Host, f: Faults) returns (ok: bool, busy: bool)
    requires h.Valid() && h.s.compactor.Archiving? && h.s.compactor.done == h.s.compactor.plan.Split()
    modifies h
    ensures h.Valid() && Continues(old(h.s), h.s)
    ensures h.s.meta == old(h.s.meta) && old(h.run) <= h.run
    ensures ok <==> Stages(f, KeptCount(old(h.s.compactor.plan))) && Swaps(f) && !busy
    ensures busy ==> CompactorSawLock(old(h.run), h.run)
    ensures !ok ==> h.s.compactor.Resting? && h.s.committed == old(h.s.committed)
    ensures ok ==>
      && h.s.compactor == Recording(old(h.s.compactor.plan))
      && h.s.committed == old(h.s.committed) + [old(h.s.compactor.stamp)]
      && exists n :: |old(h.s.log)| <= n < |h.s.log| && h.s.log[n] == Compacted(old(h.s.compactor.plan.loadedAt))
  {
    busy := false;
    ok := StageTranscript(h, f);
    ghost var staged := h.run;
    if ok {
      ok, busy := SwapTranscript(h, f);
      if busy { SawLockLater(old(h.run), staged, h.run, h.run); }
    }
  }

  /** The lock is taken for the rename only. */
  method SwapTranscript(h: Host, f: Faults) returns (ok: bool, busy: bool)
    requires h.Valid() && h.s.compactor.AwaitingLock?
    modifies h
    ensures h.Valid() && Continues(old(h.s), h.s)
    ensures h.s.meta == old(h.s.meta) && old(h.run) <= h.run
    ensures ok <==> Swaps(f) && !busy
    ensures busy ==> CompactorSawLock(old(h.run), h.run)
    ensures !ok ==> h.s.compactor.Resting? && h.s.committed == old(h.s.committed)
    ensures ok ==>
      && h.s.compactor == Recording(old(h.s.compactor.plan))
      && h.s.committed == old(h.s.committed) + [old(h.s.compactor.stamp)]
      && exists n :: |old(h.s.log)| <= n < |h.s.log| && h.s.log[n] == Compacted(old(h.s.compactor.plan.loadedAt))
  {
    busy := h.s.lock != None;
    if f.lock || busy {
      ghost var looked := h.run;
      Discard(h);
      assert h.run[..|looked|] == looked;
      return false, busy;
    }
    h.Do(LockForRename);
    h.Interfere();
    if f.rename {
      Discard(h);
      return false, false;
    }
    RenameLocked(h);
    return true, false;
  }

  method RenameLocked(h: Host)
    requires h.Valid() && h.s.compactor.Locked?
    modifies h
    ensures h.Valid() && Continues(old(h.s), h.s)
    ensures h.s.meta == old(h.s.meta) && h.s.compactor == Recording(old(h.s.compactor.plan)) && old(h.run) <= h.run
    ensures h.s.committed == old(h.s.committed) + [old(h.s.compactor.stamp)]
    ensures exists n :: |old(h.s.log)| <= n < |h.s.log| && h.s.log[n] == Compacted(old(h.s.compactor.plan.loadedAt))
  {
    FilesInPlace(h.run);
    ghost var n := |h.s.log|;
    h.Do(RenameTemp);
    h.Interfere();
    h.Do(Unlock);
    h.Interfere();
    assert h.s.log[n] == Compacted(old(h.s.compactor.plan.loadedAt));
  }

  // The log only grows, and a transcript that exists goes on existing.
  ghost predicate Continues(s: State, s': State) {
    s.log <= s'.log && (Live in s.fs.dir ==> Live in s'.fs.dir)
  }

  /**
   Archives all but the last `keep` lines. It is done exactly when there is a transcript and no more than `keep`
   lines, or
   no call fails, the archive's name is free and the lock is not held when it looks. Then the counts add up, the stored
   compaction count went up by one, one more archive is committed, and the log shows the rename of a load made during
   this call. On failure the compactor is at rest with the metadata as it was, and the transcript was replaced exactly
   when the metadata write is the only call to fail.
   */
  method Compact(h: Host, keep: int, stamp: nat, f: Faults) returns (r: Outcome, busy: bool)
    requires h.Valid() && h.s.compactor.Resting?
    modifies h
    ensures h.Valid() && h.s.compactor.Resting? && Continues(old(h.s), h.s) && old(h.run) <= h.run
    ensures var lines := |Content(old(h.s.fs), Live)|;
            r.Done? <==>
              && keep >= 1 && Live in old(h.s.fs.dir) && !f.load
              && (keep >= lines ||
                  (Renames(f, lines, keep) && !f.record && Archive(stamp) !in old(h.s.fs.dir) && !busy))
    ensures busy ==> CompactorSawLock(old(h.run), h.run)
    ensures keep < 1 || Live !in old(h.s.fs.dir) || f.load ==> r == Failed && h.s == old(h.s)
    ensures r.Failed? ==>
      && h.s.meta == old(h.s.meta)
      && h.s.committed == old(h.s.committed) + if Swapped(old(h.s), keep, stamp, f, busy) then [stamp] else []
    ensures r.Done? ==>
      && r.result.originalLineCount == |Content(old(h.s.fs), Live)|
      && r.result.archivedLineCount + r.result.remainingLineCount == r.result.originalLineCount
      && (r.result.compacted <==> keep < r.result.originalLineCount)
    ensures r.Done? && !r.result.compacted ==>
      h.s == old(h.s) && r.result.archivedLineCount == 0 && r.result.compactionCount == 0
    ensures r.Done? && r.result.compacted ==>
      && r.result.remainingLineCount == keep
      && h.s.meta == Meta(old(h.s.meta.compactions) + 1, keep)
      && r.result.compactionCount == h.s.meta.compactions
      && h.s.committed == old(h.s.committed) + [stamp]
      && exists n :: |old(h.s.log)| <= n < |h.s.log| && h.s.log[n] == Compacted(|old(h.s.log)|)
  {
    busy := false;
    if keep < 1 || Live !in h.s.fs.dir || f.load { return Failed, false; }
    var lines := Content(h.s.fs, Live);
    h.Do(Load(keep));
    if h.s.compactor.Resting? {
      return Done(CompactionResult(|lines|, 0, |lines|, 0, false)), false;
    }
    var plan := h.s.compactor.plan;
    ghost var loaded := h.run;
    h.Interfere();
    var ok;
    ok, busy := CompactLoaded(h, stamp, f);
    if busy { SawLockLater(old(h.run), loaded, h.run, h.run); }
    if !ok { return Failed, busy; }
    return Done(CompactionResult(|lines|, plan.Split(), keep, h.s.meta.compactions, true)), busy;
  }

  // The rename was reached.
  ghost predicate Swapped(s: State, keep: int, stamp: nat, f: Faults, busy: bool) {
    && keep >= 1 && Live in s.fs.dir && !f.load && keep < |Content(s.fs, Live)|
    && Renames(f, |Content(s.fs, Live)|, keep) && Archive(stamp) !in s.fs.dir && !busy
  }

  /** The part behind the load. */
  method CompactLoaded(h: Host, stamp: nat, f: Faults) returns (ok: bool, busy: bool)
    requires h.Valid() && h.s.compactor.Loaded? && h.s.compactor.plan.keep <= |h.s.compactor.plan.lines|
    modifies h
    ensures h.Valid() && h.s.compactor.Resting? && Continues(old(h.s), h.s) && old(h.run) <= h.run
    ensures var plan := old(h.s.compactor.plan);
            var swapped := Renames(f, |plan.lines|, plan.keep) && Archive(stamp) !in old(h.s.fs.dir) && !busy;
            && (ok <==> swapped && !f.record)
            && h.s.committed == old(h.s.committed) + (if swapped then [stamp] else [])
            && h.s.meta == if ok then Meta(old(h.s.meta.compactions) + 1, plan.keep) else old(h.s.meta)
    ensures busy ==> CompactorSawLock(old(h.run), h.run)
    ensures ok ==>
      exists n :: |old(h.s.log)| <= n < |h.s.log| && h.s.log[n] == Compacted(old(h.s.compactor.plan.loadedAt))
  {
    busy := false;
    ghost var loadedAt := h.s.compactor.plan.loadedAt;
    ok := WriteCompactionArchive(h, stamp, f);
    if !ok { return; }
    ghost var log, archived := h.s.log, h.run;
    ok, busy := RewriteTranscript(h, f);
    if busy { SawLockLater(old(h.run), archived, h.run, h.run); }
    if !ok { return; }
    ghost var n :| |log| <= n < |h.s.log| && h.s.log[n] == Compacted(loadedAt);
    if f.record {
      h.Do(FailCompaction);
      return false, false;
    }
    h.Do(RecordMeta);
    assert h.s.log[n] == Compacted(loadedAt);
  }
}
