/**
 Session metadata files and the per-user session index of pkg/session/store.go. Each meta write and each index write
 replaces its file in one step; either may fail, and the process may die between them.
 */
module SessionStore {
  import opened Common
  import SessionKey

  type SessionId = string

  const INDEX_CACHE_TTL: int := 45 * 1000

  datatype Status = Active | Archived | Expired

  datatype Metadata = Metadata(model: string, messageCount: nat, compactionCount: nat, channelMeta: string)

  datatype Session = Session(
    key: string, id: SessionId, channelType: string, status: Status, metadata: Metadata, createdAt: int, updatedAt: int)

  datatype IndexEntry = IndexEntry(
    id: SessionId, key: string, channelType: string, status: Status, model: string, messageCount: nat,
    createdAt: int, updatedAt: int)

  function ToEntry(s: Session): IndexEntry {
    IndexEntry(s.id, s.key, s.channelType, s.status, s.metadata.model, s.metadata.messageCount, s.createdAt,
               s.updatedAt)
  }

  datatype CacheEntry = CacheEntry(index: seq<IndexEntry>, expiresAt: int)

  // One user's meta files by session id, the decoded sessions.json if there is one, the cached index, and the sessions
  // that have a transcript file, in their place or moved to the archive.
  datatype UserFiles = UserFiles(
    meta: map<SessionId, Session>, index: Option<seq<IndexEntry>>, cache: Option<CacheEntry>,
    transcripts: set<SessionId>, archive: multiset<SessionId>)

  function NoFiles(): UserFiles { UserFiles(map[], None, None, {}, multiset{}) }

  function IndexOf(u: UserFiles): seq<IndexEntry> { if u.index.Some? then u.index.value else [] }

  // ---------------------------------------------------------------- upsert

  function Position(es: seq<IndexEntry>, id: SessionId): (i: nat)
    ensures i <= |es| && (i < |es| ==> es[i].id == id)
    ensures forall j :: 0 <= j < i ==> es[j].id != id
  {
    if es == [] || es[0].id == id then 0 else 1 + Position(es[1..], id)
  }

  function Put(es: seq<IndexEntry>, e: IndexEntry): seq<IndexEntry> {
    var i := Position(es, e.id);
    if i < |es| then es[i := e] else es + [e]
  }

  // Replacing an entry happens in the slice the freshly filled cache shares; appending does not show there.
  function CachedAfterPut(es: seq<IndexEntry>, e: IndexEntry): seq<IndexEntry> {
    var i := Position(es, e.id);
    if i < |es| then es[i := e] else es
  }

  function Upsert(u: UserFiles, s: Session, now: int, indexOk: bool): UserFiles {
    var es := IndexOf(u);
    if indexOk then
      var es' := Put(es, ToEntry(s));
      u.(index := Some(es'), cache := Some(CacheEntry(es', now + INDEX_CACHE_TTL)))
    else
      var shared := CachedAfterPut(es, ToEntry(s));
      u.(cache := if u.index.None? then None else Some(CacheEntry(shared, now + INDEX_CACHE_TTL)))
  }

  // ---------------------------------------------------------------- operations

  datatype Op =
    | Create(id: SessionId, channelType: string, model: string, channelMeta: string, now: int)
    | UpdateMeta(id: SessionId, metadata: Metadata, now: int)
    | Archive(id: SessionId, now: int)
    | UpdateIndex(listing: Option<seq<SessionId>>)   // the meta files in directory order; None without a directory
    | List(now: int)

  // How an operation's file accesses fare. `fileOk` is what happens to the transcript: created by Create, locked and
  // moved
  // by Archive; `readOk` is the read of the metadata by UpdateMeta and Archive, where a missing file is no failure.
  // `crash` kills the process behind the metadata write.
  datatype Writes = Writes(readOk: bool, metaOk: bool, fileOk: bool, indexOk: bool, crash: bool)

  predicate AllWell(w: Writes) { w.readOk && w.metaOk && w.fileOk && w.indexOk && !w.crash }

  function NewSession(userId: string, op: Op): Session
    requires op.Create?
  {
    Session(SessionKey.BuildSessionKey(userId, op.channelType, op.id), op.id, op.channelType, Active,
            Metadata(op.model, 0, 0, op.channelMeta), op.now, op.now)
  }

  function AfterMeta(u: UserFiles, s: Session, now: int, w: Writes): UserFiles {
    var u' := u.(meta := u.meta[s.id := s]);
    if w.crash then u'.(cache := None) else if !w.fileOk then u' else Upsert(u', s, now, w.indexOk)
  }

  // The transcript goes to the archive; a missing one is no failure.
  function Moved(u: UserFiles, id: SessionId): UserFiles {
    if id in u.transcripts then u.(transcripts := u.transcripts - {id}, archive := u.archive + multiset{id}) else u
  }

  function Apply(userId: string, u: UserFiles, op: Op, w: Writes): UserFiles {
    match op
    case Create(id, _, _, _, now) =>
      if !w.metaOk then u
      else AfterMeta(if w.fileOk && !w.crash then u.(transcripts := u.transcripts + {id}) else u,
                     NewSession(userId, op), now, w)
    case UpdateMeta(id, metadata, now) =>
      if id !in u.meta || !w.readOk || !w.metaOk then u
      else AfterMeta(u, u.meta[id].(metadata := metadata, updatedAt := now), now, w.(fileOk := true))
    case Archive(id, now) =>
      if !w.fileOk then u
      else
        var u' := Moved(u, id);
        if id !in u.meta || !w.readOk then u'
        else
          var s := u.meta[id].(status := Archived, updatedAt := now);
          if w.metaOk then AfterMeta(u', s, now, w) else Upsert(u', s, now, w.indexOk)
    case UpdateIndex(listing) =>
      var u' := u.(cache := None);
      if listing.None? || !w.indexOk then u' else u'.(index := Some(Rebuilt(u.meta, listing.value)))
    case List(now) =>
      if (u.cache.Some? && now < u.cache.value.expiresAt) || u.index.None? then u
      else u.(cache := Some(CacheEntry(u.index.value, now + INDEX_CACHE_TTL)))
  }

  function Rebuilt(meta: map<SessionId, Session>, listing: seq<SessionId>): seq<IndexEntry> {
    if listing == [] then []
    else if Last(listing) in meta then Rebuilt(meta, DropLast(listing)) + [ToEntry(meta[Last(listing)])]
    else Rebuilt(meta, DropLast(listing))
  }

  /** Whether the call returns without an error. Failures to update the index after a metadata write are swallowed. */
  predicate Succeeds(u: UserFiles, op: Op, w: Writes) {
    match op
    case Create(_, _, _, _, _) => w.metaOk && w.fileOk && w.indexOk && !w.crash
    case UpdateMeta(id, _, _) => id in u.meta && w.readOk && w.metaOk && !w.crash
    case Archive(_, _) => w.fileOk && w.readOk && !w.crash
    case UpdateIndex(listing) => listing.None? || w.indexOk
    case List(_) => true
  }

  /** The directory is listed completely and once. */
  ghost predicate TrueListing(u: UserFiles, op: Op) {
    op.UpdateIndex? ==>
      match op.listing
      case None => u.meta == map[]
      case Some(ids) =>
        && (forall i, j :: 0 <= i < j < |ids| ==> ids[i] != ids[j])
        && (forall id :: id in ids <==> id in u.meta)
  }

  function Listed(u: UserFiles, now: int): seq<IndexEntry> {
    if u.cache.Some? && now < u.cache.value.expiresAt then u.cache.value.index else IndexOf(u)
  }

  // ---------------------------------------------------------------- what the index is for

  /** The index holds exactly one entry for each meta file, made from it, and no other. */
  ghost predicate Represents(es: seq<IndexEntry>, meta: map<SessionId, Session>) {
    && (forall i, j :: 0 <= i < j < |es| ==> es[i].id != es[j].id)
    && (forall i :: 0 <= i < |es| ==> es[i].id in meta && es[i] == ToEntry(meta[es[i].id]))
    && (forall id <- meta :: Position(es, id) < |es|)
  }

  ghost predicate IdsMatch(meta: map<SessionId, Session>) { forall id <- meta :: meta[id].id == id }

  ghost predicate IndexAgrees(u: UserFiles) { Represents(IndexOf(u), u.meta) }

  ghost predicate CacheAgrees(u: UserFiles) { u.cache.Some? ==> u.index == Some(u.cache.value.index) }

  ghost predicate Inv(u: UserFiles) { IdsMatch(u.meta) && IndexAgrees(u) && CacheAgrees(u) }

  lemma {:induction false} PositionFound(es: seq<IndexEntry>, id: SessionId, i: nat)
    requires i < |es| && es[i].id == id
    ensures Position(es, id) < |es|
  {
    if i > 0 { PositionFound(es[1..], id, i - 1); }
  }

  lemma PutRepresents(es: seq<IndexEntry>, meta: map<SessionId, Session>, s: Session)
    requires Represents(es, meta)
    ensures Represents(Put(es, ToEntry(s)), meta[s.id := s])
  {
    PutEntriesRight(es, meta, s);
    forall id | id in meta[s.id := s] ensures Position(Put(es, ToEntry(s)), id) < |Put(es, ToEntry(s))| {
      PutHolds(es, ToEntry(s), id);
    }
  }

  lemma PutEntriesRight(es: seq<IndexEntry>, meta: map<SessionId, Session>, s: Session)
    requires Represents(es, meta)
    ensures var es', meta' := Put(es, ToEntry(s)), meta[s.id := s];
            && (forall i, j :: 0 <= i < j < |es'| ==> es'[i].id != es'[j].id)
            && forall j :: 0 <= j < |es'| ==> es'[j].id in meta' && es'[j] == ToEntry(meta'[es'[j].id])
  {
    var es', i := Put(es, ToEntry(s)), Position(es, s.id);
    assert forall j :: 0 <= j < |es'| ==> es'[j] == if j == i then ToEntry(s) else es[j];
    assert forall j :: 0 <= j < |es| && j != i ==> es[j].id != s.id;
  }

  // Putting an entry takes no other session's entry away.
  lemma PutHolds(es: seq<IndexEntry>, e: IndexEntry, id: SessionId)
    requires id == e.id || Position(es, id) < |es|
    ensures Position(Put(es, e), id) < |Put(es, e)|
  {
    PositionFound(Put(es, e), id, Position(es, id));
  }

  lemma {:induction false} RebuiltEntries(meta: map<SessionId, Session>, ids: seq<SessionId>)
    requires IdsMatch(meta) && (forall id <- ids :: id in meta)
    ensures |Rebuilt(meta, ids)| == |ids|
    ensures forall i :: 0 <= i < |ids| ==> RebuiltAt(meta, ids, i)
  {
    if ids != [] {
      var init := DropLast(ids);
      assert forall id <- init :: id in ids;
      RebuiltEntries(meta, init);
      assert Last(ids) in ids;
      forall i | 0 <= i < |ids| ensures RebuiltAt(meta, ids, i) {
        if i < |init| { assert RebuiltAt(meta, init, i); }
      }
    }
  }

  ghost predicate RebuiltAt(meta: map<SessionId, Session>, ids: seq<SessionId>, i: nat) {
    && i < |ids| && i < |Rebuilt(meta, ids)| && ids[i] in meta
    && Rebuilt(meta, ids)[i] == ToEntry(meta[ids[i]]) && Rebuilt(meta, ids)[i].id == ids[i]
  }

  lemma RebuiltRepresents(meta: map<SessionId, Session>, ids: seq<SessionId>)
    requires IdsMatch(meta)
    requires (forall i, j :: 0 <= i < j < |ids| ==> ids[i] != ids[j]) && (forall id :: id in ids <==> id in meta)
    ensures Represents(Rebuilt(meta, ids), meta)
  {
    RebuiltEntries(meta, ids);
    var es := Rebuilt(meta, ids);
    forall i | 0 <= i < |es| ensures es[i].id in meta && es[i] == ToEntry(meta[es[i].id]) && es[i].id == ids[i] {
      assert RebuiltAt(meta, ids, i);
    }
    forall id | id in meta ensures Position(es, id) < |es| {
      var i :| 0 <= i < |ids| && ids[i] == id;
      PositionFound(es, id, i);
    }
  }

  // ---------------------------------------------------------------- theorems

  function Exec(userId: string, run: seq<(Op, Writes)>): UserFiles {
    if run == [] then NoFiles() else Apply(userId, Exec(userId, DropLast(run)), Last(run).0, Last(run).1)
  }

  ghost predicate WellListed(userId: string, run: seq<(Op, Writes)>) {
    run == [] || (WellListed(userId, DropLast(run)) && TrueListing(Exec(userId, DropLast(run)), Last(run).0))
  }

  lemma AfterMetaIsConsistent(u: UserFiles, s: Session, now: int, w: Writes)
    requires Inv(u) && w.fileOk && w.indexOk && !w.crash
    ensures Inv(AfterMeta(u, s, now, w))
  {
    PutRepresents(IndexOf(u), u.meta, s);
  }

  lemma GoodStep(userId: string, u: UserFiles, op: Op, w: Writes)
    requires Inv(u) && AllWell(w) && TrueListing(u, op)
    ensures Inv(Apply(userId, u, op, w))
  {
    match op
    case Create(_, _, _, _, now) => AfterMetaIsConsistent(u, NewSession(userId, op), now, w);
    case UpdateMeta(id, metadata, now) =>
      if id in u.meta {
        AfterMetaIsConsistent(u, u.meta[id].(metadata := metadata, updatedAt := now), now, w);
      }
    case Archive(id, now) =>
      if id in u.meta {
        AfterMetaIsConsistent(u, u.meta[id].(status := Archived, updatedAt := now), now, w);
      }
    case UpdateIndex(listing) => if listing.Some? { RebuiltRepresents(u.meta, listing.value); }
    case List(_) =>
  }

  /** With every write succeeding, the index always has one up-to-date entry per session and the cache equals it. */
  lemma {:induction false} IndexFollowsMeta(userId: string, run: seq<(Op, Writes)>)
    requires WellListed(userId, run) && forall x <- run :: AllWell(x.1)
    ensures Inv(Exec(userId, run))
  {
    if run != [] {
      assert forall x <- DropLast(run) :: x in run;
      IndexFollowsMeta(userId, DropLast(run));
      assert Last(run) in run;
      GoodStep(userId, Exec(userId, DropLast(run)), Last(run).0, Last(run).1);
    }
  }

  lemma StepKeepsIds(userId: string, u: UserFiles, op: Op, w: Writes)
    requires IdsMatch(u.meta)
    ensures IdsMatch(Apply(userId, u, op, w).meta)
  {
  }

  lemma {:induction false} IdsAlwaysMatch(userId: string, run: seq<(Op, Writes)>)
    ensures IdsMatch(Exec(userId, run).meta)
  {
    if run != [] {
      IdsAlwaysMatch(userId, DropLast(run));
      StepKeepsIds(userId, Exec(userId, DropLast(run)), Last(run).0, Last(run).1);
    }
  }

  /** After any run, whatever failed or crashed in it, one successful UpdateIndex restores the invariant. */
  lemma UpdateIndexRestores(userId: string, run: seq<(Op, Writes)>, ids: seq<SessionId>, w: Writes)
    requires TrueListing(Exec(userId, run), UpdateIndex(Some(ids))) && w.indexOk
    ensures Inv(Exec(userId, run + [(UpdateIndex(Some(ids)), w)]))
  {
    assert DropLast(run + [(UpdateIndex(Some(ids)), w)]) == run;
    IdsAlwaysMatch(userId, run);
    RebuiltRepresents(Exec(userId, run).meta, ids);
  }

  /** Listing after a good run shows each session once, as its meta file has it. */
  lemma ListShowsEverySession(userId: string, run: seq<(Op, Writes)>, now: int)
    requires WellListed(userId, run) && forall x <- run :: AllWell(x.1)
    ensures Represents(Listed(Exec(userId, run), now), Exec(userId, run).meta)
  {
    IndexFollowsMeta(userId, run);
  }

  /** How many transcripts of a session there are, in their place or in the archive. */
  function Transcripts(u: UserFiles, id: SessionId): nat { u.archive[id] + if id in u.transcripts then 1 else 0 }

  /** No operation, however it fails, loses a transcript: only creating makes one, and archiving moves it. */
  lemma TranscriptsConserved(userId: string, u: UserFiles, op: Op, w: Writes, id: SessionId)
    ensures var created := op.Create? && op.id == id && w.metaOk && w.fileOk && !w.crash && id !in u.transcripts;
            Transcripts(Apply(userId, u, op, w), id) == Transcripts(u, id) + if created then 1 else 0
  {
  }

  // ---------------------------------------------------------------- what a lost index write does

  /** The entry the index already has for this session, if it has one. */
  function EntryFor(u: UserFiles, id: SessionId): Option<IndexEntry> {
    var i := Position(IndexOf(u), id);
    if i < |IndexOf(u)| then Some(IndexOf(u)[i]) else None
  }

  /**
   A metadata write whose index write is lost - failed, or not reached, for the transcript could not be created or the
   process died - leaves the index right exactly when the index entry would not have changed.
   */
  lemma LostIndexWrite(u: UserFiles, s: Session, now: int, w: Writes)
    requires Inv(u) && (w.crash || !w.fileOk || !w.indexOk)
    ensures IndexAgrees(AfterMeta(u, s, now, w)) <==> EntryFor(u, s.id) == Some(ToEntry(s))
  {
    var u' := AfterMeta(u, s, now, w);
    var es := IndexOf(u);
    var i := Position(es, s.id);
    assert IndexOf(u') == es && s.id in u'.meta;
    if EntryFor(u, s.id) == Some(ToEntry(s)) {
      forall j | 0 <= j < |es| ensures es[j].id in u'.meta && es[j] == ToEntry(u'.meta[es[j].id]) {
        if j != i { assert es[j].id != s.id; }
      }
    }
    if IndexAgrees(u') {
      assert i < |es| && es[i] == ToEntry(u'.meta[es[i].id]);
    }
  }

  /**
   A failed index write also leaves the cache different from the file exactly when it replaced an entry by a different
   one: the replacement went into the slice shared with the cache before the write failed.
   */
  lemma FailedWriteTaintsCache(u: UserFiles, s: Session, now: int, w: Writes)
    requires Inv(u) && !w.crash && w.fileOk && !w.indexOk
    ensures CacheAgrees(AfterMeta(u, s, now, w))
            <==> EntryFor(u, s.id) == None || EntryFor(u, s.id) == Some(ToEntry(s))
  {
    var es, i := IndexOf(u), Position(IndexOf(u), s.id);
    if u.index.Some? && i < |es| {
      assert es[i := ToEntry(s)] == es <==> es[i] == ToEntry(s);
    }
  }

  /** UpdateMeta reports success all the same, so a run of successful calls can leave the index wrong. */
  lemma SuccessDoesNotMeanIndexed(userId: string, id: SessionId)
    ensures var create := (Create(id, "slack", "m", "", 0), Writes(true, true, true, true, false));
            var update := (UpdateMeta(id, Metadata("m", 1, 0, ""), 5), Writes(true, true, true, false, false));
            && Succeeds(NoFiles(), create.0, create.1)
            && Succeeds(Exec(userId, [create]), update.0, update.1)
            && !IndexAgrees(Exec(userId, [create, update])) && !CacheAgrees(Exec(userId, [create, update]))
  {
  }

  // ---------------------------------------------------------------- what an entry and a session say

  /** The entry says of the session what its metadata file says. */
  predicate Shows(e: IndexEntry, s: Session) {
    && e.id == s.id && e.key == s.key && e.channelType == s.channelType && e.status == s.status
    && e.model == s.metadata.model && e.messageCount == s.metadata.messageCount
    && e.createdAt == s.createdAt && e.updatedAt == s.updatedAt
  }

  /** Exactly one entry for each metadata file, showing it, and no other entry. */
  ghost predicate ShowsEach(es: seq<IndexEntry>, meta: map<SessionId, Session>) {
    && (forall i :: 0 <= i < |es| ==> es[i].id in meta && Shows(es[i], meta[es[i].id]))
    && (forall id <- meta :: exists i :: 0 <= i < |es| && es[i].id == id)
    && forall i, j :: 0 <= i < j < |es| ==> es[i].id != es[j].id
  }

  lemma RepresentsShows(es: seq<IndexEntry>, meta: map<SessionId, Session>)
    requires Represents(es, meta) && IdsMatch(meta)
    ensures ShowsEach(es, meta)
  {
    forall id | id in meta ensures exists i :: 0 <= i < |es| && es[i].id == id {
      assert es[Position(es, id)].id == id;
    }
  }

  /**
   Field by field: a listing after a good run has each session once, with what its metadata file says, and no
   other.
   */
  lemma ListingShowsFields(userId: string, run: seq<(Op, Writes)>, now: int)
    requires WellListed(userId, run) && forall x <- run :: AllWell(x.1)
    ensures ShowsEach(Listed(Exec(userId, run), now), Exec(userId, run).meta)
  {
    ListShowsEverySession(userId, run, now);
    IdsAlwaysMatch(userId, run);
    RepresentsShows(Listed(Exec(userId, run), now), Exec(userId, run).meta);
  }

  /** And so has the index after any run followed by one successful UpdateIndex. */
  lemma RebuiltShowsFields(userId: string, run: seq<(Op, Writes)>, ids: seq<SessionId>, w: Writes)
    requires TrueListing(Exec(userId, run), UpdateIndex(Some(ids))) && w.indexOk
    ensures var u := Exec(userId, run + [(UpdateIndex(Some(ids)), w)]);
            ShowsEach(IndexOf(u), u.meta) && u.meta == Exec(userId, run).meta
  {
    UpdateIndexRestores(userId, run, ids, w);
    assert DropLast(run + [(UpdateIndex(Some(ids)), w)]) == run;
    var u := Exec(userId, run + [(UpdateIndex(Some(ids)), w)]);
    RepresentsShows(IndexOf(u), u.meta);
  }

  /**
   What an operation leaves in the metadata files once it has written there: a created session is active on its channel,
   with no messages and both times now, under a key that names it; an update replaces the metadata and the later
   time, an
   archiving the status and the later time, and nothing else of any session changes.
   */
  lemma MetadataWritten(userId: string, u: UserFiles, op: Op, w: Writes)
    requires IdsMatch(u.meta) && WritesMetadata(u, op, w)
    ensures var meta := Apply(userId, u, op, w).meta;
            match op
            case Create(id, channelType, model, channelMeta, now) =>
              && meta.Keys == u.meta.Keys + {id} && (forall k <- u.meta :: k != id ==> meta[k] == u.meta[k])
              && meta[id].id == id && meta[id].channelType == channelType && meta[id].status == Active
              && meta[id].metadata == Metadata(model, 0, 0, channelMeta)
              && meta[id].createdAt == now && meta[id].updatedAt == now
              && meta[id].key == "user:" + userId + ":channel:" + channelType + ":session:" + id
            case UpdateMeta(id, metadata, now) =>
              && meta.Keys == u.meta.Keys && (forall k <- u.meta :: k != id ==> meta[k] == u.meta[k])
              && meta[id].metadata == metadata && meta[id].updatedAt == now
              && meta[id].(metadata := u.meta[id].metadata, updatedAt := u.meta[id].updatedAt) == u.meta[id]
            case Archive(id, now) =>
              && meta.Keys == u.meta.Keys && (forall k <- u.meta :: k != id ==> meta[k] == u.meta[k])
              && meta[id].status == Archived && meta[id].updatedAt == now
              && meta[id].(status := u.meta[id].status, updatedAt := u.meta[id].updatedAt) == u.meta[id]
  {
  }

  /** Whatever else fails, before or after: an operation gets to the metadata file and writes it. */
  predicate WritesMetadata(u: UserFiles, op: Op, w: Writes) {
    match op
    case Create(_, _, _, _, _) => w.metaOk
    case UpdateMeta(id, _, _) => id in u.meta && w.readOk && w.metaOk
    case Archive(id, _) => id in u.meta && w.fileOk && w.readOk && w.metaOk
    case _ => false
  }

  lemma PutIsFound(es: seq<IndexEntry>, e: IndexEntry)
    ensures Position(Put(es, e), e.id) < |Put(es, e)| && Put(es, e)[Position(Put(es, e), e.id)] == e
  {
    var i, es' := Position(es, e.id), Put(es, e);
    assert forall j :: 0 <= j < i ==> es'[j] == es[j];
    FirstIsPosition(es', e.id, i);
  }

  /** Otherwise no metadata file changes; but an archiving that could not write it puts its entry into the index. */
  lemma MetadataNotWritten(userId: string, u: UserFiles, op: Op, w: Writes)
    requires IdsMatch(u.meta) && !WritesMetadata(u, op, w)
    ensures var u' := Apply(userId, u, op, w);
            && u'.meta == u.meta
            && (op.Archive? && op.id in u.meta && w.fileOk && w.readOk && w.indexOk ==>
                  EntryFor(u', op.id).Some? && EntryFor(u', op.id).value.status == Archived)
  {
    if op.Archive? && op.id in u.meta && w.fileOk && w.readOk && w.indexOk {
      var s := u.meta[op.id].(status := Archived, updatedAt := op.now);
      PutIsFound(IndexOf(u), ToEntry(s));
    }
  }

  /** An update of the index fills the cache for 45 seconds too, whether or not it could be written. */
  lemma UpsertCachesFor45Seconds(u: UserFiles, s: Session, now: int, indexOk: bool)
    ensures var u' := Upsert(u, s, now, indexOk);
            && (u'.cache.Some? <==> indexOk || u.index.Some?)
            && (u'.cache.Some? ==> u'.cache.value.expiresAt == now + 45 * 1000)
  {
  }

  /** A listing that fills the cache is served from it for 45 seconds, whatever becomes of the file. */
  lemma CacheServesFor45Seconds(userId: string, u: UserFiles, w: Writes, now: int, t: int, file: seq<IndexEntry>)
    requires u.cache.None? && u.index.Some? && u.index.value != file
    ensures var u' := Apply(userId, u, List(now), w).(index := Some(file));
            Listed(u', t) == (if t < now + 45 * 1000 then u.index.value else file)
  {
  }

  // ---------------------------------------------------------------- reset

  // The session that takes the place of this one, which need not exist.
  function NewFrom(u: UserFiles, id: SessionId, channelType: string, newId: SessionId, now: int): (op: Op)
    ensures op.Create?
  {
    if id in u.meta then Create(newId, channelType, u.meta[id].metadata.model, u.meta[id].metadata.channelMeta, now)
    else Create(newId, channelType, "", "", now)
  }

  function AfterReset(userId: string, u: UserFiles, id: SessionId, channelType: string, newId: SessionId, now: int,
                      w: Writes, w': Writes): UserFiles {
    var u' := Apply(userId, u, Archive(id, now), w);
    if Succeeds(u, Archive(id, now), w) then Apply(userId, u', NewFrom(u, id, channelType, newId, now), w') else u'
  }

  // What a reset makes of the files, and what it returns.
  ghost predicate ResetTo(userId: string, before: map<string, UserFiles>, u: UserFiles, after: map<string, UserFiles>,
                          id: SessionId, channelType: string, newId: SessionId, now: int,
                          loadOk: bool, w: Writes, w': Writes, r: Option<Session>) {
    && after == (if loadOk then before[userId := AfterReset(userId, u, id, channelType, newId, now, w, w')] else before)
    && r == if loadOk && w.fileOk && w.readOk && w'.metaOk && w'.fileOk && w'.indexOk
            then Some(NewSession(userId, NewFrom(u, id, channelType, newId, now))) else None
  }

  lemma ResetIsTwoSteps(userId: string, before: map<string, UserFiles>, u: UserFiles, u': UserFiles,
                        after: map<string, UserFiles>, id: SessionId, channelType: string, newId: SessionId, now: int,
                        w: Writes, w': Writes)
    requires !w.crash && u' == Apply(userId, u, Archive(id, now), w)
    requires after == before[userId := if w.fileOk && w.readOk
                                       then Apply(userId, u', NewFrom(u, id, channelType, newId, now), w') else u']
    ensures after == before[userId := AfterReset(userId, u, id, channelType, newId, now, w, w')]
  {
  }

  /**
   Whatever fails, a reset neither loses the old session nor changes more of it than its status and time, touches no
   other session, and the new one is there exactly when its metadata could be written. The old transcript is moved
   exactly when the archiving got that far.
   */
  lemma ResetKeepsSessions(userId: string, u: UserFiles, id: SessionId, channelType: string, newId: SessionId, now: int,
                           w: Writes, w': Writes)
    requires IdsMatch(u.meta) && newId !in u.meta && !w.crash
    ensures var u' := AfterReset(userId, u, id, channelType, newId, now, w, w');
            && (forall k <- u.meta :: k in u'.meta && (k != id ==> u'.meta[k] == u.meta[k]))
            && (id in u.meta ==>
                  u'.meta[id] == if w.fileOk && w.readOk && w.metaOk
                                 then u.meta[id].(status := Archived, updatedAt := now)
                                 else u.meta[id])
            && (newId in u'.meta <==> w.fileOk && w.readOk && w'.metaOk)
            && (forall k <- u'.meta :: k in u.meta || k == newId)
            && u'.archive == u.archive + if w.fileOk && id in u.transcripts then multiset{id} else multiset{}
  {
  }

  /**
   The new session is active and empty on the channel given, and carries over the old one's model and channel
   data.
   */
  lemma ResetCarriesOver(userId: string, u: UserFiles, id: SessionId, channelType: string, newId: SessionId, now: int,
                         w: Writes, w': Writes)
    requires IdsMatch(u.meta) && newId != id && w.fileOk && w.readOk && !w.crash && w'.metaOk
    ensures var u' := AfterReset(userId, u, id, channelType, newId, now, w, w');
            && newId in u'.meta
            && u'.meta[newId].id == newId && u'.meta[newId].channelType == channelType
            && u'.meta[newId].status == Active
            && u'.meta[newId].metadata.messageCount == 0 && u'.meta[newId].metadata.compactionCount == 0
            && u'.meta[newId].metadata.model == (if id in u.meta then u.meta[id].metadata.model else "")
            && u'.meta[newId].metadata.channelMeta == (if id in u.meta then u.meta[id].metadata.channelMeta else "")
  {
  }

  /** When all goes well the index follows. */
  lemma ResetKeepsIndex(userId: string, u: UserFiles, id: SessionId, channelType: string, newId: SessionId, now: int,
                        w: Writes, w': Writes)
    requires Inv(u) && AllWell(w) && AllWell(w')
    ensures Inv(AfterReset(userId, u, id, channelType, newId, now, w, w'))
  {
    GoodStep(userId, u, Archive(id, now), w);
    GoodStep(userId, Apply(userId, u, Archive(id, now), w), NewFrom(u, id, channelType, newId, now), w');
  }

  // ---------------------------------------------------------------- the methods

  class Store {
    var users: map<string, UserFiles>

    function Files(userId: string): UserFiles
      reads this
    {
      if userId in users then users[userId] else NoFiles()
    }

    constructor ()
      ensures users == map[]
    {
      users := map[];
    }

    /** Read, modify and write sessions.json; the decoded slice is shared with the cache until the write succeeds. */
    method UpsertIndex(userId: string, s: Session, now: int, indexOk: bool) returns (ok: bool)
      modifies this
      ensures users == old(users)[userId := Upsert(old(Files(userId)), s, now, indexOk)]
      ensures ok == indexOk
    {
      var u := Files(userId).(cache := None);
      var sessions := new IndexEntry[|IndexOf(u)|](i requires 0 <= i < |IndexOf(u)| => IndexOf(u)[i]);
      ghost var es := IndexOf(u);
      var entry := ToEntry(s);
      assert sessions[..] == es;
      var i, updated := 0, false;
      while i < sessions.Length && !updated
        invariant i <= sessions.Length
        invariant !updated ==> sessions[..] == es && forall j :: 0 <= j < i ==> es[j].id != s.id
        invariant updated ==> i == Position(es, s.id) < |es| && sessions[..] == es[i := entry]
        modifies sessions
        decreases sessions.Length - i, !updated
      {
        if sessions[i].id == s.id {
          FirstIsPosition(es, s.id, i);
          sessions[i] := entry;
          updated := true;
        } else {
          i := i + 1;
        }
      }
      if !updated { NotThere(es, s.id); }
      assert sessions[..] == CachedAfterPut(es, entry);
      var all := if updated then sessions[..] else sessions[..] + [entry];
      if !indexOk {
        // refreshIndexCache cached the same slice, if there was a file to read
        if u.index.Some? {
          u := u.(cache := Some(CacheEntry(sessions[..], now + INDEX_CACHE_TTL)));
        }
        assert u == Upsert(old(Files(userId)), s, now, indexOk);
        users := users[userId := u];
        return false;
      }
      u := u.(index := Some(all), cache := Some(CacheEntry(all, now + INDEX_CACHE_TTL)));
      assert u == Upsert(old(Files(userId)), s, now, indexOk);
      users := users[userId := u];
      return true;
    }

    method RebuildIndex(userId: string, listing: Option<seq<SessionId>>, indexOk: bool) returns (ok: bool)
      modifies this
      ensures users == old(users)[userId :=
                Apply(userId, old(Files(userId)), UpdateIndex(listing), Writes(true, true, true, indexOk, false))]
      ensures ok == Succeeds(old(Files(userId)), UpdateIndex(listing), Writes(true, true, true, indexOk, false))
    {
      var u := Files(userId).(cache := None);
      users := users[userId := u];
      if listing.None? { return true; }
      var es := [];
      for i := 0 to |listing.value|
        invariant es == Rebuilt(u.meta, listing.value[..i])
      {
        var id := listing.value[i];
        assert DropLast(listing.value[..i + 1]) == listing.value[..i];
        if id in u.meta { es := es + [ToEntry(u.meta[id])]; }
      }
      assert listing.value[..|listing.value|] == listing.value;
      if !indexOk { return false; }
      users := users[userId := u.(index := Some(es))];
      return true;
    }

    method WriteMeta(userId: string, s: Session)
      modifies this
      ensures users == old(users)[userId := old(Files(userId)).(meta := old(Files(userId)).meta[s.id := s])]
    {
      users := users[userId := Files(userId).(meta := Files(userId).meta[s.id := s])];
    }

    method CreateTranscript(userId: string, id: SessionId)
      modifies this
      ensures var u := old(Files(userId));
              users == old(users)[userId := u.(transcripts := u.transcripts + {id})]
    {
      users := users[userId := Files(userId).(transcripts := Files(userId).transcripts + {id})];
    }

    method MoveTranscript(userId: string, id: SessionId)
      modifies this
      ensures users == old(users)[userId := Moved(old(Files(userId)), id)]
    {
      var u := Files(userId);
      if id in u.transcripts {
        u := u.(transcripts := u.transcripts - {id}, archive := u.archive + multiset{id});
      }
      users := users[userId := u];
    }

    method CreateSession(userId: string, op: Op, metaOk: bool, fileOk: bool, indexOk: bool) returns (r: Option<Session>)
      requires op.Create?
      modifies this
      ensures userId == "" ==> r.None? && users == old(users)
      ensures userId != "" ==>
                users == old(users)[userId :=
                  Apply(userId, old(Files(userId)), op, Writes(true, metaOk, fileOk, indexOk, false))]
      ensures r == if userId != "" && metaOk && fileOk && indexOk then Some(NewSession(userId, op)) else None
    {
      if userId == "" { return None; }
      if !metaOk {
        users := users[userId := Files(userId)];
        return None;
      }
      var s := NewSession(userId, op);
      WriteMeta(userId, s);
      if !fileOk { return None; }
      CreateTranscript(userId, s.id);
      var ok := UpsertIndex(userId, s, op.now, indexOk);
      return if ok then Some(s) else None;
    }

    /** Returns an error only for a missing session or a failed metadata read or write. */
    method UpdateMeta(userId: string, id: SessionId, metadata: Metadata, now: int, readOk: bool, metaOk: bool,
                      indexOk: bool)
      returns (ok: bool)
      requires IdsMatch(Files(userId).meta)
      modifies this
      ensures users == old(users)[userId :=
                Apply(userId, old(Files(userId)), Op.UpdateMeta(id, metadata, now),
                      Writes(readOk, metaOk, true, indexOk, false))]
      ensures ok == (id in old(Files(userId)).meta && readOk && metaOk)
    {
      var u := Files(userId);
      if id !in u.meta || !readOk || !metaOk {
        users := users[userId := u];
        return false;
      }
      var s := u.meta[id].(metadata := metadata, updatedAt := now);
      WriteMeta(userId, s);
      var _ := UpsertIndex(userId, s, now, indexOk);
      return true;
    }

    /**
     Best effort: once the lock is held, the transcript moved and the metadata read, neither metadata write can fail the
     call. A failed read leaves the transcript moved.
     */
    method ArchiveSession(userId: string, id: SessionId, now: int, w: Writes) returns (ok: bool)
      requires IdsMatch(Files(userId).meta) && !w.crash
      modifies this
      ensures users == old(users)[userId := Apply(userId, old(Files(userId)), Archive(id, now), w)]
      ensures ok == (w.fileOk && w.readOk)
    {
      if !w.fileOk {
        users := users[userId := Files(userId)];
        return false;
      }
      MoveTranscript(userId, id);
      if !w.readOk { return false; }
      MarkArchived(userId, id, now, w.metaOk, w.indexOk);
      return true;
    }

    // The part behind the move.
    method MarkArchived(userId: string, id: SessionId, now: int, metaOk: bool, indexOk: bool)
      requires userId in users && IdsMatch(Files(userId).meta)
      modifies this
      ensures var u := old(Files(userId));
              users == old(users)[userId :=
                if id !in u.meta then u
                else
                  var s := u.meta[id].(status := Archived, updatedAt := now);
                  Upsert(if metaOk then u.(meta := u.meta[id := s]) else u, s, now, indexOk)]
    {
      var u := Files(userId);
      if id in u.meta {
        var s := u.meta[id].(status := Archived, updatedAt := now);
        if metaOk { WriteMeta(userId, s); }
        var _ := UpsertIndex(userId, s, now, indexOk);
      }
    }

    /**
     Archives the session and creates one with a new id on the same channel, carrying the model over. An error from the
     archiving leaves no new session; one from the creation leaves the old session archived.
     */
    method ResetSession(userId: string, id: SessionId, channelType: string, newId: SessionId, now: int,
                        loadOk: bool, w: Writes, w': Writes)
      returns (r: Option<Session>)
      requires IdsMatch(Files(userId).meta) && userId != "" && !w.crash && !w'.crash
      modifies this
      ensures ResetTo(userId, old(users), old(Files(userId)), users, id, channelType, newId, now, loadOk, w, w', r)
    {
      r := None;
      if loadOk {
        ghost var before, u := users, Files(userId);
        var op := NewFrom(Files(userId), id, channelType, newId, now);
        var archived := ArchiveSession(userId, id, now, w);
        ghost var u' := Files(userId);
        if archived { r := CreateSession(userId, op, w'.metaOk, w'.fileOk, w'.indexOk); }
        ResetIsTwoSteps(userId, before, u, u', users, id, channelType, newId, now, w, w');
      }
    }

    /** From the cache while it lasts, else from the file. */
    method ListSessions(userId: string, now: int) returns (out: seq<IndexEntry>)
      modifies this
      ensures out == Listed(old(Files(userId)), now)
      ensures users == old(users)[userId :=
                Apply(userId, old(Files(userId)), List(now), Writes(true, true, true, true, false))]
    {
      var u := Files(userId);
      users := users[userId := u];
      if u.cache.Some? && now < u.cache.value.expiresAt { return u.cache.value.index; }
      if u.index.None? { return []; }
      users := users[userId := u.(cache := Some(CacheEntry(u.index.value, now + INDEX_CACHE_TTL)))];
      return u.index.value;
    }
  }

  lemma {:induction false} FirstIsPosition(es: seq<IndexEntry>, id: SessionId, i: nat)
    requires i < |es| && es[i].id == id && forall j :: 0 <= j < i ==> es[j].id != id
    ensures Position(es, id) == i
  {
  }

  lemma NotThere(es: seq<IndexEntry>, id: SessionId)
    requires forall j :: 0 <= j < |es| ==> es[j].id != id
    ensures Position(es, id) == |es|
  {
  }
}
