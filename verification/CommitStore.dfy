/** The tables behind commits, and what any commits leave in them, however stale their reads. */
module CommitStore {
  import opened Options
  import opened DocumentTree
  import opened PatchTree
  import opened HashLaws
  import opened Patches
  import opened PatchValidation
  import opened PatchRequests
  import opened PatchCommit

  /** A workspace, and a name in it: of a resource, or an idempotency key. */
  type Key = (string, string)

  datatype Version = Version(id: string, document: Document)

  datatype CommitRow = CommitRow(resourceId: string, patchHash: PatchHash, baseVersionId: string, newVersionId: string,
                                 outboxId: string, actorId: string)

  /** An outbox row, filed under the key of its commit. */
  datatype Event = Event(key: Key, resourceId: string, baseVersionId: string, versionId: string,
                         contentHash: DocumentHash)

  /** The versions of a resource, oldest first. */
  datatype Tables = Tables(commits: map<Key, CommitRow>, versions: map<Key, seq<Version>>, outbox: seq<Event>)

  datatype Answer = Done(result: CommitResult) | KeyConflict | StaleBase | StaleNode | NotAccepted

  /** One call of commit, with what the database hands out: the identifiers of the new
      version and of the outbox row; and whether the document can be cut into chunks. */
  datatype Call = Call(workspaceId: string, resourceId: string, key: string, actorId: string, patch: PatchSet,
                       authorized: set<string>, evidence: set<string>, newVersionId: string, outboxId: string,
                       projects: bool)
  {
    function CommitKey(): Key { (workspaceId, key) }
    function Resource(): Key { (workspaceId, resourceId) }
  }

  // ---- The three accesses to the tables ----

  function ResultOf(row: CommitRow): CommitResult {
    CommitResult(row.resourceId, row.newVersionId, row.outboxId, false)
  }

  function GetCommit(s: Tables, key: Key): Option<StoredCommit> {
    if key in s.commits then Some(StoredCommit(s.commits[key].patchHash, ResultOf(s.commits[key]))) else None
  }

  function Latest(s: Tables, resource: Key): Option<Version> {
    if resource in s.versions && s.versions[resource] != []
    then Some(s.versions[resource][|s.versions[resource]| - 1]) else None
  }

  function LoadSnapshot(s: Tables, call: Call): Option<CommitSnapshot> {
    var latest := Latest(s, call.Resource());
    if latest.None? then None
    else Some(CommitSnapshot(latest.value.document, latest.value.id, call.authorized, call.evidence))
  }

  predicate HashesHold(d: Document, expected: map<string, Hash>) {
    forall id | id in expected :: NodeOf([d.root], id).Some? && NodeOf([d.root], id).value.hash == expected[id]
  }

  /** Version identifiers are a primary key. */
  predicate Taken(s: Tables, id: string) {
    exists r | r in s.versions :: exists i | 0 <= i < |s.versions[r]| :: s.versions[r][i].id == id
  }

  function RowOf(call: Call, order: WriteOrder): CommitRow {
    CommitRow(call.resourceId, order.patchHash, order.baseVersionId, order.document.versionId, call.outboxId, order.actorId)
  }

  function Written(s: Tables, call: Call, order: WriteOrder): Tables
    requires call.Resource() in s.versions
  {
    var r := call.Resource();
    Tables(s.commits[call.CommitKey() := RowOf(call, order)],
           s.versions[r := s.versions[r] + [Version(order.document.versionId, order.document)]],
           s.outbox + [Event(call.CommitKey(), call.resourceId, order.baseVersionId, order.document.versionId,
                             order.document.hash)])
  }

  /** One serializable transaction: the key, the base version and the node hashes are looked
      up again before anything is written. */
  function CommitAtomic(s: Tables, call: Call, order: WriteOrder): (Tables, Answer) {
    var latest := Latest(s, call.Resource());
    if call.CommitKey() in s.commits then
      (s, if s.commits[call.CommitKey()].patchHash != order.patchHash then KeyConflict
          else Done(ResultOf(s.commits[call.CommitKey()])))
    else if latest.None? || latest.value.id != order.baseVersionId then (s, StaleBase)
    else if !HashesHold(latest.value.document, order.expectedHashes) then (s, StaleNode)
    else if Taken(s, order.document.versionId) then (s, NotAccepted)
    else
      (Written(s, call, order), Done(CommitResult(call.resourceId, order.document.versionId, call.outboxId, true)))
  }

  /** A commit that looked up its key in one state of the tables, loaded its snapshot from
      another, and wrote into a third. */
  function Perform(looked: Tables, loaded: Tables, now: Tables, call: Call): (Tables, Answer) {
    var existing, snapshot := GetCommit(looked, call.CommitKey()), LoadSnapshot(loaded, call);
    var none := CommitSnapshot(EMPTY, "", {}, {});
    if existing.None? && snapshot.None? then (now, NotAccepted)
    else
      match Commit(call.workspaceId, call.resourceId, call.key, call.actorId, call.patch, existing,
                   if snapshot.Some? then snapshot.value else none, call.newVersionId)
      case Refused => (now, NotAccepted)
      case IdempotencyConflict => (now, KeyConflict)
      case Replayed(result) => (now, Done(result))
      case Writes(order) => if call.projects then CommitAtomic(now, call, order) else (now, NotAccepted)
  }

  /** Stands for a snapshot that is not loaded. */
  const EMPTY := Document("", "", Node("", DocumentRoot, map[], "", [], Location("", 0, 0, 0, 0), [], map[], NoHash), "",
                          map[], NoDocumentHash, "")

  /** The store as the program keeps it. */
  class Database {
    var commits: map<Key, CommitRow>
    var versions: map<Key, seq<Version>>
    var outbox: seq<Event>

    constructor (versions: map<Key, seq<Version>>)
      ensures Now() == Tables(map[], versions, [])
    {
      this.commits, this.versions, this.outbox := map[], versions, [];
    }

    function Now(): Tables
      reads this
    {
      Tables(commits, versions, outbox)
    }

    method WriteCommit(call: Call, order: WriteOrder) returns (answer: Answer)
      modifies this
      ensures (Now(), answer) == CommitAtomic(old(Now()), call, order)
    {
      var key, resource := call.CommitKey(), call.Resource();
      if key in commits {
        if commits[key].patchHash != order.patchHash {
          return KeyConflict;
        }
        return Done(ResultOf(commits[key]));
      }
      if resource !in versions || versions[resource] == [] {
        return StaleBase;
      }
      var latest := versions[resource][|versions[resource]| - 1];
      if latest.id != order.baseVersionId {
        return StaleBase;
      }
      if !HashesHold(latest.document, order.expectedHashes) {
        return StaleNode;
      }
      if Taken(Now(), order.document.versionId) {
        return NotAccepted;
      }
      var id := order.document.versionId;
      versions := versions[resource := versions[resource] + [Version(id, order.document)]];
      outbox := outbox + [Event(key, call.resourceId, order.baseVersionId, id, order.document.hash)];
      commits := commits[key := RowOf(call, order)];
      answer := Done(CommitResult(call.resourceId, id, call.outboxId, true));
    }

    /** A commit that nothing interrupts. */
    method CommitPatch(call: Call) returns (answer: Answer)
      modifies this
      ensures (Now(), answer) == Perform(old(Now()), old(Now()), old(Now()), call)
    {
      var existing, snapshot := GetCommit(Now(), call.CommitKey()), LoadSnapshot(Now(), call);
      if existing.None? && snapshot.None? {
        return NotAccepted;
      }
      var outcome := Commit(call.workspaceId, call.resourceId, call.key, call.actorId, call.patch, existing,
                            if snapshot.Some? then snapshot.value else CommitSnapshot(EMPTY, "", {}, {}),
                            call.newVersionId);
      match outcome {
        case Refused => answer := NotAccepted;
        case IdempotencyConflict => answer := KeyConflict;
        case Replayed(result) => answer := Done(result);
        case Writes(order) =>
          if call.projects {
            answer := WriteCommit(call, order);
          } else {
            answer := NotAccepted;
          }
      }
    }
  }

  // ---- Invariants ----

  /** The version w is what the patch of the row makes of the version v. */
  predicate Made(v: Version, row: CommitRow, w: Version) {
    && row.baseVersionId == v.id && row.newVersionId == w.id
    && ApplyPatch(v.document, row.patchHash.patch).Ok?
    && w.document == RehashDocument(ApplyPatch(v.document, row.patchHash.patch).value.(versionId := w.id))
  }

  function ResourceOf(key: Key, row: CommitRow): Key {
    (key.0, row.resourceId)
  }

  /** The commit under the key made version i of its resource. */
  predicate MadeAt(s: Tables, key: Key, i: nat) {
    && key in s.commits && ResourceOf(key, s.commits[key]) in s.versions
    && var all := s.versions[ResourceOf(key, s.commits[key])];
       0 < i < |all| && Made(all[i - 1], s.commits[key], all[i])
  }

  predicate HasId(s: Tables, r: Key, i: nat, id: string) {
    r in s.versions && i < |s.versions[r]| && s.versions[r][i].id == id
  }

  predicate NoneEmpty(s: Tables) {
    forall r | r in s.versions :: s.versions[r] != []
  }

  predicate DocumentAt(s: Tables, r: Key, i: nat)
    requires r in s.versions && i < |s.versions[r]|
  {
    Valid(s.versions[r][i].document) && s.versions[r][i].document.versionId == s.versions[r][i].id
  }

  predicate DocumentsValid(s: Tables) {
    forall r, i | r in s.versions && 0 <= i < |s.versions[r]| :: DocumentAt(s, r, i)
  }

  ghost predicate IdsDiffer(s: Tables) {
    forall id, r, i, q, j :: HasId(s, r, i, id) && HasId(s, q, j, id) ==> r == q && i == j
  }

  ghost predicate MadeVersion(s: Tables, key: Key) {
    exists i :: MadeAt(s, key, i)
  }

  ghost predicate WasMade(s: Tables, r: Key, i: nat) {
    exists key :: MadeAt(s, key, i) && ResourceOf(key, s.commits[key]) == r
  }

  ghost predicate MakersKnown(s: Tables) {
    forall r, i: nat | r in s.versions && 0 < i < |s.versions[r]| :: WasMade(s, r, i)
  }

  predicate RowsDiffer(s: Tables) {
    forall k, l | k in s.commits && l in s.commits && s.commits[k].newVersionId == s.commits[l].newVersionId :: k == l
  }

  /** Commits and the versions after the first ones correspond one to one. */
  ghost predicate CommitsMatch(s: Tables) {
    (forall key | key in s.commits :: MadeVersion(s, key)) && MakersKnown(s) && RowsDiffer(s)
  }

  /** The resource has a version of this identifier, whose document has this hash. */
  ghost predicate HoldsHash(s: Tables, r: Key, id: string, hash: DocumentHash) {
    exists i: nat :: HasId(s, r, i, id) && s.versions[r][i].document.hash == hash
  }

  /** The event tells what the commit's row tells, and the hash of the version it made. */
  ghost predicate Announces(s: Tables, key: Key, n: nat) {
    && key in s.commits && n < |s.outbox|
    && var row, event := s.commits[key], s.outbox[n];
       && event == Event(key, row.resourceId, row.baseVersionId, row.newVersionId, event.contentHash)
       && HoldsHash(s, ResourceOf(key, row), row.newVersionId, event.contentHash)
  }

  ghost predicate Announced(s: Tables, key: Key) {
    exists n: nat :: Announces(s, key, n)
  }

  ghost predicate AllAnnounced(s: Tables) {
    forall key | key in s.commits :: Announced(s, key)
  }

  ghost predicate AllAnnounce(s: Tables) {
    forall n | 0 <= n < |s.outbox| :: Announces(s, s.outbox[n].key, n)
  }

  predicate EventKeysDiffer(s: Tables) {
    forall m, n | 0 <= m < n < |s.outbox| :: s.outbox[m].key != s.outbox[n].key
  }

  /** Every commit is announced, by one event. */
  ghost predicate EventsMatch(s: Tables) {
    AllAnnounced(s) && AllAnnounce(s) && EventKeysDiffer(s)
  }

  ghost predicate Sound(s: Tables) {
    NoneEmpty(s) && DocumentsValid(s) && IdsDiffer(s) && CommitsMatch(s) && EventsMatch(s)
  }

  predicate Grows(s: Tables, t: Tables) {
    && (forall key | key in s.commits :: key in t.commits && t.commits[key] == s.commits[key])
    && (forall r | r in s.versions :: r in t.versions && s.versions[r] <= t.versions[r])
    && s.outbox <= t.outbox
  }

  // ---- A write on a stale snapshot is no write on a stale version ----

  /** A version loaded earlier that still has the latest identifier is the latest version. */
  lemma {:induction false} SnapshotIsCurrent(loaded: Tables, now: Tables, r: Key)
    requires IdsDiffer(now) && Grows(loaded, now)
    requires Latest(loaded, r).Some? && Latest(now, r).Some? && Latest(loaded, r).value.id == Latest(now, r).value.id
    ensures Latest(loaded, r) == Latest(now, r)
  {
    var i, j := |loaded.versions[r]| - 1, |now.versions[r]| - 1;
    assert loaded.versions[r][i] == now.versions[r][i];
    assert HasId(now, r, i, now.versions[r][i].id) && HasId(now, r, j, now.versions[r][i].id);
  }

  /** A new row, a new version of its resource, and an event. */
  predicate Appends(s: Tables, t: Tables, key: Key, row: CommitRow, w: Version) {
    var r := ResourceOf(key, row);
    && key !in s.commits && r in s.versions && s.versions[r] != []
    && row.newVersionId == w.id && !Taken(s, w.id)
    && t == Tables(s.commits[key := row], s.versions[r := s.versions[r] + [w]],
                   s.outbox + [Event(key, row.resourceId, row.baseVersionId, w.id, w.document.hash)])
  }

  /** The version added is valid, and what the row's patch makes of the latest one. */
  predicate Follows(s: Tables, key: Key, row: CommitRow, w: Version) {
    && Latest(s, ResourceOf(key, row)).Some? && Made(Latest(s, ResourceOf(key, row)).value, row, w)
    && Valid(w.document) && w.document.versionId == w.id
  }

  lemma {:induction false} NewVersionIdentity(d: Document, id: string)
    ensures RehashDocument(d.(versionId := id)).versionId == id
  {
  }

  /** What commit makes of a snapshot without a stored commit. */
  function Ordered(call: Call, v: Version): CommitOutcome {
    Commit(call.workspaceId, call.resourceId, call.key, call.actorId, call.patch, None,
           CommitSnapshot(v.document, v.id, call.authorized, call.evidence), call.newVersionId)
  }

  lemma {:induction false} OrderMakes(call: Call, v: Version)
    requires Ordered(call, v).Writes?
    ensures var order := Ordered(call, v).order; var w := Version(call.newVersionId, order.document);
      && order.baseVersionId == v.id && order.document.versionId == call.newVersionId
      && order.patchHash == PatchHashOf(call.patch)
      && Made(v, RowOf(call, order), w) && Valid(w.document)
  {
    NewVersionIdentity(ApplyPatch(v.document, call.patch).value, call.newVersionId);
  }

  /** When a turn writes, it looked up nothing and loaded what commit then ordered. */
  lemma {:induction false} PerformOrders(looked: Tables, loaded: Tables, now: Tables, call: Call)
    requires Perform(looked, loaded, now, call).0 != now
    ensures call.CommitKey() !in looked.commits && Latest(loaded, call.Resource()).Some?
    ensures var outcome := Ordered(call, Latest(loaded, call.Resource()).value);
      outcome.Writes? && Perform(looked, loaded, now, call) == CommitAtomic(now, call, outcome.order)
  {
  }

  lemma {:induction false} AtomicAppends(s: Tables, call: Call, order: WriteOrder)
    requires CommitAtomic(s, call, order).0 != s && order.document.versionId == call.newVersionId
    ensures var row, w := RowOf(call, order), Version(call.newVersionId, order.document);
      && Appends(s, CommitAtomic(s, call, order).0, call.CommitKey(), row, w)
      && Latest(s, call.Resource()).Some? && Latest(s, call.Resource()).value.id == order.baseVersionId
      && CommitAtomic(s, call, order).1 == Done(ResultOf(row).(created := true))
  {
  }

  /** A turn either leaves the tables alone or adds one version, made of the latest one
      even when the snapshot was loaded long before. */
  lemma {:induction false} PerformAdds(looked: Tables, loaded: Tables, now: Tables, call: Call)
    returns (row: CommitRow, w: Version)
    requires IdsDiffer(now) && Grows(loaded, now)
    requires Perform(looked, loaded, now, call).0 != now
    ensures Appends(now, Perform(looked, loaded, now, call).0, call.CommitKey(), row, w)
    ensures Follows(now, call.CommitKey(), row, w)
    ensures row.resourceId == call.resourceId && row.patchHash == PatchHashOf(call.patch)
    ensures Perform(looked, loaded, now, call).1 == Done(ResultOf(row).(created := true))
  {
    PerformOrders(looked, loaded, now, call);
    var v := Latest(loaded, call.Resource()).value;
    var order := Ordered(call, v).order;
    OrderMakes(call, v);
    AtomicAppends(now, call, order);
    SnapshotIsCurrent(loaded, now, call.Resource());
    row, w := RowOf(call, order), Version(call.newVersionId, order.document);
  }

  // ---- Adding keeps the invariants ----

  lemma {:induction false} AddsGrows(s: Tables, t: Tables, key: Key, row: CommitRow, w: Version)
    requires Appends(s, t, key, row, w)
    ensures Grows(s, t) && (NoneEmpty(s) ==> NoneEmpty(t))
  {
  }

  lemma {:induction false} IdAfter(s: Tables, t: Tables, key: Key, row: CommitRow, w: Version, r: Key, i: nat, id: string)
    requires Appends(s, t, key, row, w) && HasId(t, r, i, id)
    ensures (HasId(s, r, i, id) && id != w.id) || (r == ResourceOf(key, row) && i == |s.versions[r]| && id == w.id)
  {
  }

  lemma {:induction false} AddsKeepsIds(s: Tables, t: Tables, key: Key, row: CommitRow, w: Version)
    requires IdsDiffer(s) && Appends(s, t, key, row, w)
    ensures IdsDiffer(t)
  {
    forall id, r, i: nat, q, j: nat | HasId(t, r, i, id) && HasId(t, q, j, id)
      ensures r == q && i == j
    {
      IdAfter(s, t, key, row, w, r, i, id);
      IdAfter(s, t, key, row, w, q, j, id);
    }
  }

  lemma {:induction false} AddsKeepsDocuments(s: Tables, t: Tables, key: Key, row: CommitRow, w: Version)
    requires DocumentsValid(s) && Appends(s, t, key, row, w) && Valid(w.document) && w.document.versionId == w.id
    ensures DocumentsValid(t)
  {
    forall r, i | r in t.versions && 0 <= i < |t.versions[r]|
      ensures DocumentAt(t, r, i)
    {
      if r in s.versions && i < |s.versions[r]| {
        assert DocumentAt(s, r, i) && t.versions[r][i] == s.versions[r][i];
      } else {
        assert t.versions[r][i] == w;
      }
    }
  }

  lemma {:induction false} MadeStays(s: Tables, t: Tables, k: Key, i: nat)
    requires Grows(s, t) && MadeAt(s, k, i)
    ensures MadeAt(t, k, i)
  {
    var r := ResourceOf(k, s.commits[k]);
    assert s.versions[r] <= t.versions[r];
    assert t.versions[r][i] == s.versions[r][i] && t.versions[r][i - 1] == s.versions[r][i - 1];
  }

  lemma {:induction false} MadeHere(s: Tables, t: Tables, key: Key, row: CommitRow, w: Version)
    requires Appends(s, t, key, row, w) && Follows(s, key, row, w)
    ensures MadeAt(t, key, |s.versions[ResourceOf(key, row)]|)
  {
  }

  /** Every commit made a version. */
  lemma {:induction false} AddsKeepsMade(s: Tables, t: Tables, key: Key, row: CommitRow, w: Version)
    requires Appends(s, t, key, row, w) && Follows(s, key, row, w) && Grows(s, t)
    requires forall k | k in s.commits :: MadeVersion(s, k)
    ensures forall k | k in t.commits :: MadeVersion(t, k)
  {
    MadeHere(s, t, key, row, w);
    forall k | k in t.commits
      ensures MadeVersion(t, k)
    {
      if k != key {
        assert MadeVersion(s, k);
        var i :| MadeAt(s, k, i);
        MadeStays(s, t, k, i);
      }
    }
  }

  lemma {:induction false} MakerStays(s: Tables, t: Tables, r: Key, i: nat)
    requires Grows(s, t) && WasMade(s, r, i)
    ensures WasMade(t, r, i)
  {
    var k :| MadeAt(s, k, i) && ResourceOf(k, s.commits[k]) == r;
    MadeStays(s, t, k, i);
  }

  /** Every version but the first was made by a commit. */
  lemma {:induction false} AddsKeepsMakers(s: Tables, t: Tables, key: Key, row: CommitRow, w: Version)
    requires Appends(s, t, key, row, w) && Follows(s, key, row, w) && Grows(s, t) && MakersKnown(s)
    ensures MakersKnown(t)
  {
    MadeHere(s, t, key, row, w);
    forall r, i: nat | r in t.versions && 0 < i < |t.versions[r]|
      ensures WasMade(t, r, i)
    {
      if r in s.versions && i < |s.versions[r]| {
        MakerStays(s, t, r, i);
      }
    }
  }

  lemma {:induction false} RowIdTaken(s: Tables, key: Key)
    requires key in s.commits && MadeVersion(s, key)
    ensures Taken(s, s.commits[key].newVersionId)
  {
    var i :| MadeAt(s, key, i);
  }

  lemma {:induction false} AddsKeepsRows(s: Tables, t: Tables, key: Key, row: CommitRow, w: Version)
    requires RowsDiffer(s) && Appends(s, t, key, row, w)
    requires forall k | k in s.commits :: MadeVersion(s, k)
    ensures RowsDiffer(t)
  {
    forall k | k in s.commits
      ensures s.commits[k].newVersionId != w.id
    {
      RowIdTaken(s, k);
    }
  }

  lemma {:induction false} AddsKeepsCommits(s: Tables, t: Tables, key: Key, row: CommitRow, w: Version)
    requires CommitsMatch(s) && Appends(s, t, key, row, w) && Follows(s, key, row, w)
    ensures CommitsMatch(t)
  {
    AddsGrows(s, t, key, row, w);
    AddsKeepsMade(s, t, key, row, w);
    AddsKeepsMakers(s, t, key, row, w);
    AddsKeepsRows(s, t, key, row, w);
  }

  lemma {:induction false} HashStays(s: Tables, t: Tables, r: Key, id: string, hash: DocumentHash)
    requires Grows(s, t) && HoldsHash(s, r, id, hash)
    ensures HoldsHash(t, r, id, hash)
  {
    var i: nat :| HasId(s, r, i, id) && s.versions[r][i].document.hash == hash;
    assert t.versions[r][i] == s.versions[r][i];
    assert HasId(t, r, i, id);
  }

  lemma {:induction false} AnnouncementStays(s: Tables, t: Tables, key: Key, n: nat)
    requires Grows(s, t) && Announces(s, key, n)
    ensures Announces(t, key, n)
  {
    assert t.outbox[n] == s.outbox[n];
    HashStays(s, t, ResourceOf(key, s.commits[key]), s.commits[key].newVersionId, s.outbox[n].contentHash);
  }

  lemma {:induction false} NewAnnouncement(s: Tables, t: Tables, key: Key, row: CommitRow, w: Version)
    requires Appends(s, t, key, row, w)
    ensures Announces(t, key, |s.outbox|)
  {
    var r := ResourceOf(key, row);
    var i := |s.versions[r]|;
    assert t.versions[r][i] == w;
    assert HasId(t, r, i, w.id);
  }

  lemma {:induction false} AddsKeepsAnnounced(s: Tables, t: Tables, key: Key, row: CommitRow, w: Version)
    requires AllAnnounced(s) && Appends(s, t, key, row, w) && Grows(s, t)
    ensures AllAnnounced(t)
  {
    NewAnnouncement(s, t, key, row, w);
    forall k | k in t.commits
      ensures Announced(t, k)
    {
      if k != key {
        assert Announced(s, k);
        var n: nat :| Announces(s, k, n);
        AnnouncementStays(s, t, k, n);
      }
    }
  }

  lemma {:induction false} AddsKeepsAnnouncing(s: Tables, t: Tables, key: Key, row: CommitRow, w: Version)
    requires AllAnnounce(s) && Appends(s, t, key, row, w) && Grows(s, t)
    ensures AllAnnounce(t)
  {
    NewAnnouncement(s, t, key, row, w);
    forall n | 0 <= n < |t.outbox|
      ensures Announces(t, t.outbox[n].key, n)
    {
      if n < |s.outbox| {
        assert Announces(s, s.outbox[n].key, n);
        AnnouncementStays(s, t, s.outbox[n].key, n);
      }
    }
  }

  lemma {:induction false} KeyIsCommitted(s: Tables, n: nat)
    requires AllAnnounce(s) && n < |s.outbox|
    ensures s.outbox[n].key in s.commits
  {
    assert Announces(s, s.outbox[n].key, n);
  }

  lemma {:induction false} AddsKeepsKeys(s: Tables, t: Tables, key: Key, row: CommitRow, w: Version)
    requires AllAnnounce(s) && EventKeysDiffer(s) && Appends(s, t, key, row, w)
    ensures EventKeysDiffer(t)
  {
    forall n | 0 <= n < |s.outbox|
      ensures s.outbox[n].key != key
    {
      KeyIsCommitted(s, n);
    }
  }

  lemma {:induction false} AddsKeepsEvents(s: Tables, t: Tables, key: Key, row: CommitRow, w: Version)
    requires EventsMatch(s) && Appends(s, t, key, row, w)
    ensures EventsMatch(t)
  {
    AddsGrows(s, t, key, row, w);
    AddsKeepsAnnounced(s, t, key, row, w);
    AddsKeepsAnnouncing(s, t, key, row, w);
    AddsKeepsKeys(s, t, key, row, w);
  }

  lemma {:induction false} TurnIsSound(looked: Tables, loaded: Tables, now: Tables, call: Call)
    requires Sound(now) && Grows(loaded, now)
    ensures Sound(Perform(looked, loaded, now, call).0) && Grows(now, Perform(looked, loaded, now, call).0)
  {
    var next := Perform(looked, loaded, now, call).0;
    if next != now {
      var row, w := PerformAdds(looked, loaded, now, call);
      AddsGrows(now, next, call.CommitKey(), row, w);
      AddsKeepsIds(now, next, call.CommitKey(), row, w);
      AddsKeepsDocuments(now, next, call.CommitKey(), row, w);
      AddsKeepsCommits(now, next, call.CommitKey(), row, w);
      AddsKeepsEvents(now, next, call.CommitKey(), row, w);
    }
  }

  // ---- Any commits, interleaved in any way ----

  /** A call, and the earlier states in which it looked up its key and loaded its snapshot. */
  datatype Turn = Turn(call: Call, looked: nat, loaded: nat)

  predicate TurnAt(states: seq<Tables>, turns: seq<Turn>, answers: seq<Answer>, i: nat)
    requires i < |turns| && |states| == |turns| + 1 && |answers| == |turns|
  {
    && turns[i].looked <= turns[i].loaded <= i
    && Perform(states[turns[i].looked], states[turns[i].loaded], states[i], turns[i].call) == (states[i + 1], answers[i])
  }

  predicate Run(states: seq<Tables>, turns: seq<Turn>, answers: seq<Answer>) {
    && |states| == |turns| + 1 && |answers| == |turns|
    && forall i | 0 <= i < |turns| :: TurnAt(states, turns, answers, i)
  }

  /** One version of every resource, and no commit yet. */
  ghost predicate Fresh(s: Tables) {
    && DocumentsValid(s) && IdsDiffer(s) && s.commits == map[] && s.outbox == []
    && forall r | r in s.versions :: |s.versions[r]| == 1
  }

  lemma {:induction false} FreshIsSound(s: Tables)
    requires Fresh(s)
    ensures Sound(s)
  {
  }

  lemma {:induction false} GrowsOn(a: Tables, b: Tables, c: Tables)
    requires Grows(a, b) && Grows(b, c)
    ensures Grows(a, c)
  {
    forall r | r in a.versions
      ensures r in c.versions && a.versions[r] <= c.versions[r]
    {
      assert a.versions[r] <= b.versions[r] && b.versions[r] <= c.versions[r];
    }
  }

  /** The history of a state: it is sound, and everything before it grew into it. */
  ghost predicate Grown(states: seq<Tables>, j: nat)
    requires j < |states|
  {
    Sound(states[j]) && forall i | 0 <= i <= j :: Grows(states[i], states[j])
  }

  lemma {:induction false} GrownOn(states: seq<Tables>, j: nat, next: Tables)
    requires j + 1 < |states| && Grown(states, j) && states[j + 1] == next
    requires Sound(next) && Grows(states[j], next)
    ensures Grown(states, j + 1)
  {
    forall i | 0 <= i <= j + 1
      ensures Grows(states[i], states[j + 1])
    {
      if i <= j {
        GrowsOn(states[i], states[j], next);
      }
    }
  }

  /** Whatever commits run against the tables, and however stale their reads: versions form
      chains in which each is what one commit's patch makes of the one before, commits and
      versions correspond, each is announced once, and nothing written ever changes. */
  lemma {:induction false} RunsStaySound(states: seq<Tables>, turns: seq<Turn>, answers: seq<Answer>, j: nat)
    requires Run(states, turns, answers) && Fresh(states[0]) && j < |states|
    ensures Grown(states, j)
  {
    if j == 0 {
      FreshIsSound(states[0]);
    } else {
      var turn := turns[j - 1];
      RunsStaySound(states, turns, answers, j - 1);
      assert TurnAt(states, turns, answers, j - 1);
      TurnIsSound(states[turn.looked], states[turn.loaded], states[j - 1], turn.call);
      GrownOn(states, j - 1, states[j]);
    }
  }

  // ---- What callers are told ----

  /** A call is told the stored result of its key, for its own patch and no other, and that
      it created the version exactly when it did. */
  predicate Told(s: Tables, t: Tables, call: Call, answer: Answer) {
    if answer.Done? then
      && call.CommitKey() in t.commits && t.commits[call.CommitKey()].patchHash == PatchHashOf(call.patch)
      && answer.result == ResultOf(t.commits[call.CommitKey()]).(created := answer.result.created)
      && (answer.result.created <==> call.CommitKey() !in s.commits)
      && (answer.result.created <==> t != s)
    else
      t == s
  }

  /** A stored commit was found: its result is told, or its key is taken. */
  lemma {:induction false} FoundTells(looked: Tables, loaded: Tables, now: Tables, call: Call)
    requires Grows(looked, now) && call.CommitKey() in looked.commits
    ensures Perform(looked, loaded, now, call).0 == now
    ensures Told(now, now, call, Perform(looked, loaded, now, call).1)
  {
  }

  lemma {:induction false} AtomicTells(s: Tables, call: Call, order: WriteOrder)
    requires CommitAtomic(s, call, order).0 == s && order.patchHash == PatchHashOf(call.patch)
    ensures Told(s, s, call, CommitAtomic(s, call, order).1)
  {
  }

  lemma {:induction false} OrdersOwnPatch(call: Call, v: Version)
    ensures Ordered(call, v).Writes? ==> Ordered(call, v).order.patchHash == PatchHashOf(call.patch)
    ensures !Ordered(call, v).Replayed? && !Ordered(call, v).IdempotencyConflict?
  {
  }

  lemma {:induction false} ReplayTells(looked: Tables, loaded: Tables, now: Tables, call: Call)
    requires Grows(looked, now) && Perform(looked, loaded, now, call).0 == now
    ensures Told(now, now, call, Perform(looked, loaded, now, call).1)
  {
    if call.CommitKey() in looked.commits {
      FoundTells(looked, loaded, now, call);
    } else if Latest(loaded, call.Resource()).Some? {
      var v := Latest(loaded, call.Resource()).value;
      OrdersOwnPatch(call, v);
      if Ordered(call, v).Writes? && call.projects {
        AtomicTells(now, call, Ordered(call, v).order);
      }
    }
  }

  lemma {:induction false} PerformTells(looked: Tables, loaded: Tables, now: Tables, call: Call)
    requires IdsDiffer(now) && Grows(looked, now) && Grows(loaded, now)
    ensures Told(now, Perform(looked, loaded, now, call).0, call, Perform(looked, loaded, now, call).1)
  {
    if Perform(looked, loaded, now, call).0 != now {
      var row, w := PerformAdds(looked, loaded, now, call);
    } else {
      ReplayTells(looked, loaded, now, call);
    }
  }

  lemma {:induction false} TurnTells(states: seq<Tables>, turns: seq<Turn>, answers: seq<Answer>, i: nat)
    requires Run(states, turns, answers) && Fresh(states[0]) && i < |turns|
    ensures Told(states[i], states[i + 1], turns[i].call, answers[i])
  {
    var turn := turns[i];
    assert TurnAt(states, turns, answers, i);
    RunsStaySound(states, turns, answers, i);
    PerformTells(states[turn.looked], states[turn.loaded], states[i], turn.call);
  }

  /** Once a call under a key succeeded, every later call under it changes nothing: with the
      same patch it is told the same version if it succeeds, with another it never does. */
  lemma {:induction false} KeysAreWrittenOnce(states: seq<Tables>, turns: seq<Turn>, answers: seq<Answer>, i: nat, j: nat)
    requires Run(states, turns, answers) && Fresh(states[0]) && i < j < |turns|
    requires turns[i].call.CommitKey() == turns[j].call.CommitKey() && answers[i].Done?
    ensures states[j + 1] == states[j]
    ensures answers[j].Done? ==>
      && turns[j].call.patch == turns[i].call.patch
      && answers[j].result == answers[i].result.(created := false)
  {
    TurnTells(states, turns, answers, i);
    TurnTells(states, turns, answers, j);
    RunsStaySound(states, turns, answers, j);
    assert Grows(states[i + 1], states[j]);
  }

  // ---- The tables are their own history ----

  /** Patches one after another, each giving the version named with it. */
  function Replay(d: Document, steps: seq<(PatchSet, string)>): Result<Document> {
    if steps == [] then Ok(d)
    else
      var k := |steps| - 1;
      var before :- Replay(d, steps[..k]);
      var applied :- ApplyPatch(before, steps[k].0);
      Ok(RehashDocument(applied.(versionId := steps[k].1)))
  }

  lemma {:induction false} ReplayOn(d: Document, before: seq<(PatchSet, string)>, v: Version, row: CommitRow, w: Version)
    requires Replay(d, before) == Ok(v.document) && Made(v, row, w)
    ensures Replay(d, before + [(row.patchHash.patch, row.newVersionId)]) == Ok(w.document)
  {
    var steps := before + [(row.patchHash.patch, row.newVersionId)];
    assert steps[..|steps| - 1] == before;
  }

  /** The patch and version identifier of the commit that made version i. */
  ghost predicate StepOf(s: Tables, r: Key, i: nat, step: (PatchSet, string)) {
    exists key :: MadeAt(s, key, i) && ResourceOf(key, s.commits[key]) == r
                  && step == (s.commits[key].patchHash.patch, s.commits[key].newVersionId)
  }

  lemma {:induction false} StepMade(s: Tables, r: Key, n: nat) returns (row: CommitRow)
    requires MakersKnown(s) && r in s.versions && 0 < n < |s.versions[r]|
    ensures Made(s.versions[r][n - 1], row, s.versions[r][n])
    ensures StepOf(s, r, n, (row.patchHash.patch, row.newVersionId))
  {
    assert WasMade(s, r, n);
    var key :| MadeAt(s, key, n) && ResourceOf(key, s.commits[key]) == r;
    row := s.commits[key];
  }

  /** Each step is that of the commit that made the next version. */
  ghost predicate StepsOf(s: Tables, r: Key, steps: seq<(PatchSet, string)>) {
    forall i | 0 <= i < |steps| :: StepOf(s, r, i + 1, steps[i])
  }

  lemma {:induction false} OneMoreStep(s: Tables, r: Key, before: seq<(PatchSet, string)>, step: (PatchSet, string))
    requires StepsOf(s, r, before) && StepOf(s, r, |before| + 1, step)
    ensures StepsOf(s, r, before + [step])
  {
    var steps := before + [step];
    forall i | 0 <= i < |steps|
      ensures StepOf(s, r, i + 1, steps[i])
    {
      assert i < |before| ==> steps[i] == before[i];
    }
  }

  /** The committed patches, replayed on a resource's first version, give its n-th. */
  lemma {:induction false} HistoryReplays(s: Tables, r: Key, n: nat) returns (steps: seq<(PatchSet, string)>)
    requires MakersKnown(s) && r in s.versions && n < |s.versions[r]|
    ensures |steps| == n && Replay(s.versions[r][0].document, steps) == Ok(s.versions[r][n].document)
    ensures StepsOf(s, r, steps)
  {
    if n == 0 {
      return [];
    }
    var before := HistoryReplays(s, r, n - 1);
    var row := StepMade(s, r, n);
    var step := (row.patchHash.patch, row.newVersionId);
    ReplayOn(s.versions[r][0].document, before, s.versions[r][n - 1], row, s.versions[r][n]);
    OneMoreStep(s, r, before, step);
    steps := before + [step];
  }

  // ---- Validated patches get through ----

  lemma {:induction false} FoundHashes(d: Document, expected: map<string, Hash>)
    requires Unique([d.root])
    requires forall id | id in expected :: Find([d.root], None, id).Some? && Find([d.root], None, id).value.hash == expected[id]
    ensures HashesHold(d, expected)
  {
    forall id | id in expected
      ensures NodeOf([d.root], id).Some? && NodeOf([d.root], id).value.hash == expected[id]
    {
      FindIff([d.root], None, id);
      IndexAgreesWithFind([d.root], None, id);
    }
  }

  /** An order on the latest version under a new key and identifier is written. */
  lemma {:induction false} OrderIsWritten(s: Tables, call: Call, v: Version)
    requires call.CommitKey() !in s.commits && Latest(s, call.Resource()) == Some(v) && call.projects
    requires Ordered(call, v).Writes? && HashesHold(v.document, Ordered(call, v).order.expectedHashes)
    requires !Taken(s, call.newVersionId)
    ensures Perform(s, s, s, call).1 == Done(CommitResult(call.resourceId, call.newVersionId, call.outboxId, true))
  {
    OrderMakes(call, v);
  }

  /** A patch that was validated against the latest version is written when nothing comes in
      between, its key is new, and the database hands out a new identifier. */
  lemma {:induction false} ValidatedIsWritten(s: Tables, call: Call, r: Request)
    requires Validated(r) && NonBlank(call.actorId) && NonBlank(call.newVersionId)
    requires call.workspaceId == r.workspaceId && call.resourceId == r.resourceId && call.key == r.idempotencyKey
    requires call.patch == r.patch && call.projects
    requires LoadSnapshot(s, call) == Some(CommitSnapshot(r.snapshot.document.value, r.snapshot.currentVersionId,
                                                          r.snapshot.authorized, ItemIds(r.snapshot.evidence)))
    requires call.CommitKey() !in s.commits && !Taken(s, call.newVersionId)
    ensures Perform(s, s, s, call).1 == Done(CommitResult(call.resourceId, call.newVersionId, call.outboxId, true))
  {
    var v := Latest(s, call.Resource()).value;
    assert Ordered(call, v) == CommitOf(r, call.actorId, call.newVersionId);
    ValidatedCommits(r, call.actorId, call.newVersionId);
    FoundHashes(v.document, Ordered(call, v).order.expectedHashes);
    OrderIsWritten(s, call, v);
  }
}
