/** The dual-store coordinator: every write goes to the primary document
    store first and then to the replica store, reads go to the primary first
    and fall back to the replica, a sync step copies one primary document to
    the replica and swallows its errors, and a health check probes the two
    stores independently.

    Each store holds one collection as a map from document id to document,
    the document being the untyped record the stores exchange. The primary
    stores the document its model builds from the input (trimmed, defaulted,
    the password hashed), while the replica receives the input as sent.
    Primary ids are 24-character ObjectId strings; the replica generates its
    own 20-character ids. Which store calls throw is given as a parameter,
    and so are the fresh ids the stores hand out. */
module DatabaseService {
  import opened Wrappers

  /** The `USE_MONGODB` and `USE_FIREBASE` switches. */
  datatype Config = Config(useMongoDB: bool, useFirebase: bool)

  /** Whether the primary's and the replica's call throws. */
  datatype Faults = Faults(primary: bool, replica: bool)

  /** A failed call: the store whose error is rethrown. */
  datatype StoreError = PrimaryError | ReplicaError

  const ObjectIdLength := 24
  const AutoIdLength := 20

  /** A replica document: the record as sent, tagged with the primary id it
      copies (absent when the primary is disabled), the source "mongodb" and,
      for a sync, the sync time. */
  datatype ReplicaDoc<D> = ReplicaDoc(data: D, mongoId: Option<string>, source: string, syncedAt: Option<int>)

  /** One collection in both stores. */
  datatype Stores<D> = Stores(primary: map<string, D>, replica: map<string, ReplicaDoc<D>>)

  /** Every id has the shape its store generates. */
  ghost predicate WellKeyed<D>(s: Stores<D>) {
    && (forall id :: id in s.primary ==> |id| == ObjectIdLength)
    && (forall id :: id in s.replica ==> |id| == AutoIdLength)
  }

  /** Every replica document that names a primary id names one the primary
      holds. */
  ghost predicate Referenced<D>(s: Stores<D>) {
    forall k :: k in s.replica && s.replica[k].mongoId.Some? ==> s.replica[k].mongoId.value in s.primary
  }

  /** Every replica document that names a primary id copies that primary
      document exactly, as a sync leaves it. */
  ghost predicate Linked<D>(s: Stores<D>) {
    forall k :: k in s.replica && s.replica[k].mongoId.Some? ==>
      && s.replica[k].mongoId.value in s.primary
      && s.replica[k].data == s.primary[s.replica[k].mongoId.value]
  }

  // ---------------------------------------------------------------------------
  // createUser / createCase
  // ---------------------------------------------------------------------------

  /** The ids the two stores gave the new record, each absent when that store
      is disabled. */
  datatype Created = Created(primaryId: Option<string>, replicaId: Option<string>)

  /** `createUser(data)` and `createCase(data)`: the primary write of
      `stored`, the document the primary's model built from `data`, then the
      replica write of `data` itself tagged with the primary id. Either
      failure is rethrown; a replica failure leaves the primary write in
      place. `primaryId` and `replicaId` are the ids the stores would
      generate. */
  function Create<D>(cfg: Config, s: Stores<D>, data: D, stored: D, primaryId: string, replicaId: string, f: Faults)
    : (r: (Result<Created, StoreError>, Stores<D>))
    ensures r.0.Success? <==> !(cfg.useMongoDB && f.primary) && !(cfg.useFirebase && f.replica)
    ensures cfg.useMongoDB && f.primary ==> r == (Failure(PrimaryError), s)
    ensures !(cfg.useMongoDB && f.primary) ==>
      && r.1.primary == (if cfg.useMongoDB then s.primary[primaryId := stored] else s.primary)
      && (cfg.useFirebase && f.replica ==> r.0 == Failure(ReplicaError) && r.1.replica == s.replica)
      && (cfg.useFirebase && !f.replica ==>
            r.1.replica == s.replica[replicaId := ReplicaDoc(data, if cfg.useMongoDB then Some(primaryId) else None, "mongodb", None)])
      && (!cfg.useFirebase ==> r.1.replica == s.replica)
    ensures r.0.Success? ==>
      r.0.value == Created(if cfg.useMongoDB then Some(primaryId) else None, if cfg.useFirebase then Some(replicaId) else None)
  {
    if cfg.useMongoDB && f.primary then (Failure(PrimaryError), s)
    else
      var mongoId := if cfg.useMongoDB then Some(primaryId) else None;
      var s1 := if cfg.useMongoDB then s.(primary := s.primary[primaryId := stored]) else s;
      if !cfg.useFirebase then (Success(Created(mongoId, None)), s1)
      else if f.replica then (Failure(ReplicaError), s1)
      else
        (Success(Created(mongoId, Some(replicaId))),
         s1.(replica := s1.replica[replicaId := ReplicaDoc(data, mongoId, "mongodb", None)]))
  }

  /** A create keeps every replica copy pointing at a primary document and
      every id in its store's shape, whichever calls fail. */
  lemma CreateKeepsInvariants<D>(cfg: Config, s: Stores<D>, data: D, stored: D, primaryId: string, replicaId: string, f: Faults)
    requires Referenced(s) && WellKeyed(s)
    requires |primaryId| == ObjectIdLength && |replicaId| == AutoIdLength
    ensures Referenced(Create(cfg, s, data, stored, primaryId, replicaId, f).1)
    ensures WellKeyed(Create(cfg, s, data, stored, primaryId, replicaId, f).1)
  {
    var s' := Create(cfg, s, data, stored, primaryId, replicaId, f).1;
    forall k | k in s'.replica && s'.replica[k].mongoId.Some?
      ensures s'.replica[k].mongoId.value in s'.primary
    {
      if k != replicaId || s'.replica == s.replica {
        assert s'.replica[k] == s.replica[k];
      }
    }
  }

  /** A create through both healthy stores leaves the replica an exact copy
      of the primary exactly when the primary stored the input unchanged: a
      trimmed title, a filled-in default or a hashed password leaves the
      replica holding the input instead. */
  lemma CreateLinkedIff<D>(s: Stores<D>, data: D, stored: D, primaryId: string, replicaId: string)
    requires Linked(s) && primaryId !in s.primary
    ensures Linked(Create(Config(true, true), s, data, stored, primaryId, replicaId, Faults(false, false)).1)
      <==> stored == data
  {
    var s' := Create(Config(true, true), s, data, stored, primaryId, replicaId, Faults(false, false)).1;
    assert s'.replica[replicaId].mongoId == Some(primaryId);
    if stored == data {
      CreateKeepsLinkedOnly(Config(true, true), s, data, primaryId, replicaId, Faults(false, false));
    }
  }

  /** With both stores enabled and the replica down, create reports failure
      although the primary has already stored the record. */
  lemma ReplicaDownFailsCreate<D>(s: Stores<D>, data: D, stored: D, primaryId: string, replicaId: string)
    ensures var r := Create(Config(true, true), s, data, stored, primaryId, replicaId, Faults(false, true));
      && r.0 == Failure(ReplicaError)
      && primaryId in r.1.primary && r.1.primary[primaryId] == stored
  {
  }

  // ---------------------------------------------------------------------------
  // getUserCases
  // ---------------------------------------------------------------------------

  /** `getUserCases(userId)`. The arguments are the outcomes, `None` when the
      call throws, of the primary query, of the replica query made when the
      primary found nothing, and of the replica query made in the error
      handler. A disabled store is never asked, so its outcome is ignored. */
  function GetUserCases<D>(cfg: Config, primary: Option<seq<D>>, fallback: Option<seq<D>>, rescue: Option<seq<D>>)
    : (r: Result<seq<D>, StoreError>)
    ensures !cfg.useFirebase ==>
      r == (if !cfg.useMongoDB then Success([])
            else if primary.Some? then Success(primary.value) else Failure(PrimaryError))
    ensures cfg.useMongoDB && primary.Some? && |primary.value| > 0 ==> r == Success(primary.value)
    ensures cfg.useMongoDB && primary.None? ==>
      r == (if cfg.useFirebase && rescue.Some? then Success(rescue.value) else Failure(PrimaryError))
    ensures cfg.useFirebase && (!cfg.useMongoDB || (primary.Some? && |primary.value| == 0)) ==>
      r == (if fallback.Some? then Success(fallback.value)
            else if rescue.Some? then Success(rescue.value) else Failure(ReplicaError))
  {
    var main: Result<seq<D>, StoreError> :=
      if cfg.useMongoDB && primary.None? then Failure(PrimaryError)
      else
        var cases := if cfg.useMongoDB then primary.value else [];
        if |cases| == 0 && cfg.useFirebase then
          (if fallback.Some? then Success(fallback.value) else Failure(ReplicaError))
        else Success(cases);
    if main.Success? then main
    else if cfg.useFirebase && rescue.Some? then Success(rescue.value)
    else main
  }

  /** A read returns what one of the stores returned (or nothing at all, when
      the primary is disabled and the replica too), and fails only when every
      store it asked failed. */
  lemma ReadComesFromAStore<D>(cfg: Config, primary: Option<seq<D>>, fallback: Option<seq<D>>, rescue: Option<seq<D>>)
    ensures var r := GetUserCases(cfg, primary, fallback, rescue);
      && (r.Success? ==>
            || (cfg.useMongoDB && primary == Some(r.value))
            || (cfg.useFirebase && (fallback == Some(r.value) || rescue == Some(r.value)))
            || (!cfg.useMongoDB && !cfg.useFirebase && r.value == []))
      && (r.Failure? ==>
            && ((cfg.useMongoDB && primary.None?) || (cfg.useFirebase && fallback.None?))
            && (cfg.useFirebase ==> rescue.None?))
  {
  }

  /** When the primary finds nothing and both replica queries fail, the error
      rethrown is the replica's, not the primary's. */
  lemma EmptyPrimaryRethrowsReplicaError<D>(fallback: Option<seq<D>>, rescue: Option<seq<D>>)
    requires fallback.None? && rescue.None?
    ensures GetUserCases(Config(true, true), Some([]), fallback, rescue) == Failure(ReplicaError)
  {
  }

  // ---------------------------------------------------------------------------
  // updateCase
  // ---------------------------------------------------------------------------

  /** The primary half of an update: `findByIdAndUpdate` returns the updated
      document, or nothing when the id is unknown. */
  function PrimaryUpdate<D>(primary: map<string, D>, caseId: string, patch: D -> D): (r: (Option<D>, map<string, D>))
    ensures caseId in primary ==> r == (Some(patch(primary[caseId])), primary[caseId := patch(primary[caseId])])
    ensures caseId !in primary ==> r == (None, primary)
  {
    if caseId in primary then (Some(patch(primary[caseId])), primary[caseId := patch(primary[caseId])])
    else (None, primary)
  }

  /** `updateCase(caseId, patch)` as written: the replica document addressed
      is the one whose own id is `caseId`, and the replica's update rejects an
      id it does not hold. The primary result is returned (nothing when the
      primary is disabled); a replica failure is rethrown after the primary
      update. */
  function UpdateCaseAsWritten<D>(cfg: Config, s: Stores<D>, caseId: string, patch: D -> D, f: Faults)
    : (r: (Result<Option<D>, StoreError>, Stores<D>))
    ensures cfg.useMongoDB && f.primary ==> r == (Failure(PrimaryError), s)
    ensures r.0.Success? <==>
      !(cfg.useMongoDB && f.primary) && !(cfg.useFirebase && (f.replica || caseId !in s.replica))
    ensures r.0.Success? ==> r.0.value == (if cfg.useMongoDB then PrimaryUpdate(s.primary, caseId, patch).0 else None)
    ensures !(cfg.useMongoDB && f.primary) ==>
      r.1.primary == (if cfg.useMongoDB then PrimaryUpdate(s.primary, caseId, patch).1 else s.primary)
  {
    if cfg.useMongoDB && f.primary then (Failure(PrimaryError), s)
    else
      var (result, primary) := if cfg.useMongoDB then PrimaryUpdate(s.primary, caseId, patch) else (None, s.primary);
      var s1 := s.(primary := primary);
      if !cfg.useFirebase then (Success(result), s1)
      else if f.replica || caseId !in s.replica then (Failure(ReplicaError), s1)
      else
        var doc := s.replica[caseId];
        (Success(result), s1.(replica := s.replica[caseId := doc.(data := patch(doc.data))]))
  }

  /** Updating a case just created through both stores fails as written: the
      replica copy has a generated id, never the primary id the update names,
      so the primary is patched, the replica is not, and the two disagree. */
  lemma UpdateAfterCreateAsWritten<D>(s: Stores<D>, data: D, stored: D, primaryId: string, replicaId: string, patch: D -> D)
    requires WellKeyed(s)
    requires |primaryId| == ObjectIdLength && |replicaId| == AutoIdLength
    ensures var cfg, ok := Config(true, true), Faults(false, false);
      var created := Create(cfg, s, data, stored, primaryId, replicaId, ok).1;
      var r := UpdateCaseAsWritten(cfg, created, primaryId, patch, ok);
      && r.0 == Failure(ReplicaError)
      && r.1.primary[primaryId] == patch(stored)
      && r.1.replica[replicaId] == ReplicaDoc(data, Some(primaryId), "mongodb", None)
      && (patch(stored) != data ==> !Linked(r.1))
  {
    var created := Create(Config(true, true), s, data, stored, primaryId, replicaId, Faults(false, false)).1;
    assert primaryId !in created.replica by {
      assert forall id :: id in created.replica ==> |id| == AutoIdLength;
    }
  }

  /** The replica documents copying primary document `caseId`, patched. */
  function PatchCopies<D>(replica: map<string, ReplicaDoc<D>>, caseId: string, patch: D -> D)
    : (r: map<string, ReplicaDoc<D>>)
    ensures r.Keys == replica.Keys
    ensures forall k :: k in r && replica[k].mongoId != Some(caseId) ==> r[k] == replica[k]
    ensures forall k :: k in r && replica[k].mongoId == Some(caseId) ==>
      r[k] == replica[k].(data := patch(replica[k].data))
  {
    map k | k in replica :: if replica[k].mongoId == Some(caseId) then replica[k].(data := patch(replica[k].data)) else replica[k]
  }

  /** `updateCase` as intended: the replica documents updated are those that
      copy primary document `caseId`. */
  function UpdateCase<D>(cfg: Config, s: Stores<D>, caseId: string, patch: D -> D, f: Faults)
    : (r: (Result<Option<D>, StoreError>, Stores<D>))
    ensures cfg.useMongoDB && f.primary ==> r == (Failure(PrimaryError), s)
    ensures r.0.Success? <==> !(cfg.useMongoDB && f.primary) && !(cfg.useFirebase && f.replica)
    ensures r.0.Success? ==> r.0.value == (if cfg.useMongoDB then PrimaryUpdate(s.primary, caseId, patch).0 else None)
    ensures !(cfg.useMongoDB && f.primary) ==>
      r.1.primary == (if cfg.useMongoDB then PrimaryUpdate(s.primary, caseId, patch).1 else s.primary)
    ensures r.0.Success? && cfg.useFirebase ==> r.1.replica == PatchCopies(s.replica, caseId, patch)
    ensures r.0.Failure? || !cfg.useFirebase ==> r.1.replica == s.replica
  {
    if cfg.useMongoDB && f.primary then (Failure(PrimaryError), s)
    else
      var (result, primary) := if cfg.useMongoDB then PrimaryUpdate(s.primary, caseId, patch) else (None, s.primary);
      var s1 := s.(primary := primary);
      if !cfg.useFirebase then (Success(result), s1)
      else if f.replica then (Failure(ReplicaError), s1)
      else (Success(result), s1.(replica := PatchCopies(s.replica, caseId, patch)))
  }

  /** An update, whichever calls fail, keeps every replica copy pointing at a
      primary document. */
  lemma UpdateKeepsReferenced<D>(cfg: Config, s: Stores<D>, caseId: string, patch: D -> D, f: Faults)
    requires Referenced(s)
    ensures Referenced(UpdateCase(cfg, s, caseId, patch, f).1)
  {
    var r := UpdateCase(cfg, s, caseId, patch, f);
    forall k | k in r.1.replica && r.1.replica[k].mongoId.Some?
      ensures r.1.replica[k].mongoId.value in r.1.primary
    {
      assert r.1.replica[k].mongoId == s.replica[k].mongoId;
    }
  }

  /** A successful update through both stores keeps the replica a faithful
      copy of the primary. */
  lemma UpdateKeepsLinked<D>(s: Stores<D>, caseId: string, patch: D -> D)
    requires Linked(s)
    ensures var r := UpdateCase(Config(true, true), s, caseId, patch, Faults(false, false));
      r.0.Success? && Linked(r.1)
  {
    var r := UpdateCase(Config(true, true), s, caseId, patch, Faults(false, false));
    forall k | k in r.1.replica && r.1.replica[k].mongoId.Some?
      ensures r.1.replica[k].mongoId.value in r.1.primary
      ensures r.1.replica[k].data == r.1.primary[r.1.replica[k].mongoId.value]
    {
      var m := s.replica[k].mongoId.value;
      assert m in s.primary;
    }
  }

  /** The intended update of a case just created through both stores
      succeeds and patches both copies: the primary's stored document and the
      replica's copy of the input. They agree afterwards when the primary had
      stored the input unchanged. */
  lemma UpdateAfterCreate<D>(s: Stores<D>, data: D, stored: D, primaryId: string, replicaId: string, patch: D -> D)
    requires Linked(s) && primaryId !in s.primary
    ensures var cfg, ok := Config(true, true), Faults(false, false);
      var created := Create(cfg, s, data, stored, primaryId, replicaId, ok).1;
      var r := UpdateCase(cfg, created, primaryId, patch, ok);
      && r.0 == Success(Some(patch(stored)))
      && r.1.primary[primaryId] == patch(stored)
      && r.1.replica[replicaId].data == patch(data)
      && Referenced(r.1)
      && (stored == data ==> Linked(r.1))
  {
    var cfg, ok := Config(true, true), Faults(false, false);
    var created := Create(cfg, s, data, stored, primaryId, replicaId, ok).1;
    assert Referenced(created) by {
      forall k | k in created.replica && created.replica[k].mongoId.Some?
        ensures created.replica[k].mongoId.value in created.primary
      {
        if k != replicaId {
          assert created.replica[k] == s.replica[k];
        }
      }
    }
    UpdateKeepsReferenced(cfg, created, primaryId, patch, ok);
    if stored == data {
      CreateKeepsLinkedOnly(cfg, s, data, primaryId, replicaId, ok);
      UpdateKeepsLinked(created, primaryId, patch);
    }
  }

  /** A create of a record the primary stores unchanged keeps the replica an
      exact copy of the primary, whichever calls fail. */
  lemma CreateKeepsLinkedOnly<D>(cfg: Config, s: Stores<D>, data: D, primaryId: string, replicaId: string, f: Faults)
    requires Linked(s) && primaryId !in s.primary
    ensures Linked(Create(cfg, s, data, data, primaryId, replicaId, f).1)
  {
    var s' := Create(cfg, s, data, data, primaryId, replicaId, f).1;
    forall k | k in s'.replica && s'.replica[k].mongoId.Some?
      ensures s'.replica[k].mongoId.value in s'.primary
      ensures s'.replica[k].data == s'.primary[s'.replica[k].mongoId.value]
    {
      if k in s.replica && s'.replica[k] == s.replica[k] {
        var m := s.replica[k].mongoId.value;
        assert m in s.primary;
        assert m != primaryId;
      }
    }
  }

  // ---------------------------------------------------------------------------
  // syncToFirebase
  // ---------------------------------------------------------------------------

  /** Both collections the coordinator writes. */
  datatype Db<D> = Db(users: Stores<D>, cases: Stores<D>)

  /** The replica document a sync writes for primary document `id`. */
  function SyncedDoc<D>(id: string, doc: D, now: int): (r: ReplicaDoc<D>)
    ensures r.data == doc && r.mongoId == Some(id) && r.source == "mongodb" && r.syncedAt == Some(now)
  {
    ReplicaDoc(doc, Some(id), "mongodb", Some(now))
  }

  /** `syncToFirebase(collection, doc)`: a fresh replica document for the
      primary document in "users" or "cases". It never fails: a disabled
      replica, a missing document, a failing replica or any other collection
      name leave both stores as they were. `doc` is the primary document and
      its id, `replicaId` the id the replica would generate. */
  function SyncToFirebase<D>(cfg: Config, db: Db<D>, collection: string, doc: Option<(string, D)>,
                             now: int, replicaId: string, replicaFails: bool): (r: Db<D>)
    ensures (!cfg.useFirebase || doc.None? || replicaFails || (collection != "users" && collection != "cases"))
              ==> r == db
    ensures cfg.useFirebase && doc.Some? && !replicaFails && collection == "users" ==>
      r == db.(users := db.users.(replica := db.users.replica[replicaId := SyncedDoc(doc.value.0, doc.value.1, now)]))
    ensures cfg.useFirebase && doc.Some? && !replicaFails && collection == "cases" ==>
      r == db.(cases := db.cases.(replica := db.cases.replica[replicaId := SyncedDoc(doc.value.0, doc.value.1, now)]))
  {
    if !cfg.useFirebase || doc.None? || replicaFails then db
    else
      var (id, data) := doc.value;
      if collection == "users" then
        db.(users := db.users.(replica := db.users.replica[replicaId := SyncedDoc(id, data, now)]))
      else if collection == "cases" then
        db.(cases := db.cases.(replica := db.cases.replica[replicaId := SyncedDoc(id, data, now)]))
      else db
  }

  /** A sync of a document the primary holds keeps the replica a faithful copy. */
  lemma SyncKeepsLinked<D>(cfg: Config, db: Db<D>, collection: string, id: string, data: D,
                           now: int, replicaId: string, replicaFails: bool)
    requires Linked(db.users) && Linked(db.cases)
    requires collection == "users" ==> id in db.users.primary && db.users.primary[id] == data
    requires collection == "cases" ==> id in db.cases.primary && db.cases.primary[id] == data
    ensures var r := SyncToFirebase(cfg, db, collection, Some((id, data)), now, replicaId, replicaFails);
      Linked(r.users) && Linked(r.cases)
  {
  }

  /** A sync of a document the primary holds keeps every replica copy
      pointing at a primary document. */
  lemma SyncKeepsReferenced<D>(cfg: Config, db: Db<D>, collection: string, id: string, data: D,
                               now: int, replicaId: string, replicaFails: bool)
    requires Referenced(db.users) && Referenced(db.cases)
    requires collection == "users" ==> id in db.users.primary
    requires collection == "cases" ==> id in db.cases.primary
    ensures var r := SyncToFirebase(cfg, db, collection, Some((id, data)), now, replicaId, replicaFails);
      Referenced(r.users) && Referenced(r.cases)
  {
  }

  /** Syncing the same document twice leaves two replica copies of it: the
      sync adds a document each time and never replaces one. */
  lemma SyncIsNotUpsert<D>(cfg: Config, db: Db<D>, id: string, data: D, t1: int, t2: int, r1: string, r2: string)
    requires cfg.useFirebase && r1 != r2
    ensures var once := SyncToFirebase(cfg, db, "cases", Some((id, data)), t1, r1, false);
      var twice := SyncToFirebase(cfg, once, "cases", Some((id, data)), t2, r2, false);
      && r1 in twice.cases.replica && r2 in twice.cases.replica
      && twice.cases.replica[r1].mongoId == Some(id) && twice.cases.replica[r2].mongoId == Some(id)
      && twice.cases.replica.Keys == db.cases.replica.Keys + {r1, r2}
  {
  }

  // ---------------------------------------------------------------------------
  // healthCheck
  // ---------------------------------------------------------------------------

  datatype Health = Health(mongodb: bool, firebase: bool, timestamp: int)

  /** `healthCheck()`: each flag is set when that store is enabled and its
      probe did not throw. `probes` says which probe throws. */
  function HealthCheck(cfg: Config, probes: Faults, now: int): (r: Health)
    ensures r.mongodb <==> cfg.useMongoDB && !probes.primary
    ensures r.firebase <==> cfg.useFirebase && !probes.replica
    ensures r.timestamp == now
  {
    Health(cfg.useMongoDB && !probes.primary, cfg.useFirebase && !probes.replica, now)
  }

  /** One probe's outcome never changes the other store's flag. */
  lemma HealthFlagsIndependent(cfg: Config, p1: Faults, p2: Faults, now: int)
    ensures p1.primary == p2.primary ==> HealthCheck(cfg, p1, now).mongodb == HealthCheck(cfg, p2, now).mongodb
    ensures p1.replica == p2.replica ==> HealthCheck(cfg, p1, now).firebase == HealthCheck(cfg, p2, now).firebase
  {
  }

  /** A health report of a healthy primary and a failing replica, taken
      against the faults the next create meets, means that create fails
      after the primary stored the record. */
  lemma HealthyPrimaryDownReplica<D>(s: Stores<D>, data: D, stored: D, primaryId: string, replicaId: string, f: Faults, now: int)
    requires HealthCheck(Config(true, true), f, now) == Health(true, false, now)
    ensures var r := Create(Config(true, true), s, data, stored, primaryId, replicaId, f);
      r.0 == Failure(ReplicaError) && r.1.primary == s.primary[primaryId := stored]
  {
  }
}
