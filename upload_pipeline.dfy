/**
 * The part of `DatasetViewSet.upload` shared by both views: the request's
 * shapes, the Equipment records built from the rows, and the store writes
 * that follow validation (create the Dataset, bulk-insert its Equipment,
 * trim the user's history to five).
 */
module UploadPipeline {
  import opened Records
  import opened Aggregation
  import opened Retention
  import opened Store

  /**
   * What `pd.read_csv` makes of the upload: a header and the parsed rows, or
   * the text of the exception raised while reading the file or computing
   * its statistics (a malformed file, or a non-numeric reading in a file
   * that has every required column: the columns are checked before any mean
   * is taken). Rows are complete: an empty cell, which pandas reads as NaN,
   * has no counterpart.
   */
  datatype CsvContent = Frame(header: seq<string>, rows: seq<Row>) | Unreadable(reason: string)

  /** One part of `request.FILES`. */
  datatype UploadedFile = UploadedFile(name: string, content: CsvContent)

  /** A file that passed every check, with its statistics. */
  datatype Prepared = Prepared(filename: string, rows: seq<Row>, stats: Stats)

  /** How the store writes ended, and the store they left behind. */
  datatype Persisted =
    | Stored(dataset: Dataset, after: Snapshot)
    | StoreFailed(error: string, after: Snapshot)

  /** The HTTP answer to an upload: 201 with the Dataset and its Equipment, or 400 with an error text. */
  datatype UploadResponse = Created(dataset: Dataset, equipment: seq<Equipment>) | BadRequest(error: string)

  /** An upload's response and the store it leaves behind. */
  datatype Outcome = Outcome(response: UploadResponse, after: Snapshot)

  /** `Equipment(dataset=dataset, equipment_name=row['Equipment Name'], ...)`. */
  function ToEquipment(row: Row, id: DatasetId): Equipment {
    Equipment(id, row.name, row.kind, row.flowrate, row.pressure, row.temperature)
  }

  function RecordsFor(rows: seq<Row>, id: DatasetId): seq<Equipment> {
    seq(|rows|, i requires 0 <= i < |rows| => ToEquipment(rows[i], id))
  }

  /** The `for _, row in df.iterrows()` loop that fills `equipment_records`. */
  method BuildRecords(rows: seq<Row>, id: DatasetId) returns (records: seq<Equipment>)
    ensures |records| == |rows|
    ensures forall i :: 0 <= i < |rows| ==>
      && records[i].datasetId == id
      && records[i].name == rows[i].name
      && records[i].kind == rows[i].kind
      && records[i].flowrate == rows[i].flowrate
      && records[i].pressure == rows[i].pressure
      && records[i].temperature == rows[i].temperature
    ensures records == RecordsFor(rows, id)
  {
    records := [];
    var i := 0;
    while i < |rows|
      invariant 0 <= i <= |rows|
      invariant |records| == i
      invariant forall j :: 0 <= j < i ==> records[j] == ToEquipment(rows[j], id)
    {
      records := records + [ToEquipment(rows[i], id)];
      i := i + 1;
    }
  }

  /**
   * The writes after validation. `Dataset.objects.create` runs first and on
   * its own; if `bulk_create` then fails, the new Dataset stays in the store
   * and retention does not run.
   */
  function Persist(s: Snapshot, user: UserId, p: Prepared, now: int, faults: StoreFaults): (o: Persisted)
    ensures o.StoreFailed? <==> faults.createError.Some? || faults.insertError.Some?
    ensures faults.createError.Some? ==> o == StoreFailed(faults.createError.value, s)
    ensures faults.createError.None? && faults.insertError.Some? ==>
      && o.error == faults.insertError.value
      && o.after.datasets == s.datasets + [NewDataset(s.nextId, user, p.filename, now, p.stats)]
      && o.after.equipment == s.equipment
    ensures o.Stored? ==>
      o.dataset == NewDataset(s.nextId, user, p.filename, now, p.stats) && o.after.nextId == s.nextId + 1
  {
    if faults.createError.Some? then StoreFailed(faults.createError.value, s)
    else
      var d := NewDataset(s.nextId, user, p.filename, now, p.stats);
      var created := s.datasets + [d];
      if faults.insertError.Some? then
        StoreFailed(faults.insertError.value, Snapshot(created, s.equipment, s.nextId + 1))
      else
        var filled := s.equipment + RecordsFor(p.rows, d.id);
        var victims := Victims(created, user);
        Stored(d, Snapshot(Retain(created, user), EquipmentWithout(filled, victims), s.nextId + 1))
  }

  /** The store writes of `upload`, carried out on the database. */
  method PersistUpload(db: Database, user: UserId, p: Prepared, now: int, faults: StoreFaults)
    returns (o: Persisted)
    requires db.Valid()
    modifies db
    ensures db.Valid()
    ensures o == Persist(old(db.State()), user, p, now, faults)
    ensures db.State() == o.after
  {
    if faults.createError.Some? {
      return StoreFailed(faults.createError.value, db.State());
    }
    var d := db.CreateDataset(user, p.filename, now, p.stats);
    if faults.insertError.Some? {
      return StoreFailed(faults.insertError.value, db.State());
    }
    var records := BuildRecords(p.rows, d.id);
    IdsSnoc(old(db.datasets), d);
    db.BulkInsert(records);
    db.EnforceRetention(user);
    o := Stored(d, db.State());
  }

  // ---- properties of the writes ----

  lemma {:induction false} OwnedBySnoc(s: seq<Dataset>, d: Dataset, u: UserId)
    ensures OwnedBy(s + [d], u) == OwnedBy(s, u) + (if d.owner == u then [d] else [])
  {
    if |s| == 0 {
      assert s + [d] == [d] + [];
      OwnedByCons(d, [], u);
    } else {
      assert s + [d] == [s[0]] + (s[1..] + [d]);
      OwnedByCons(s[0], s[1..] + [d], u);
      OwnedBySnoc(s[1..], d, u);
      assert s == [s[0]] + s[1..];
      OwnedByCons(s[0], s[1..], u);
    }
  }

  lemma {:induction false} RecordsOfConcat(a: seq<Equipment>, b: seq<Equipment>, id: DatasetId)
    ensures RecordsOf(a + b, id) == RecordsOf(a, id) + RecordsOf(b, id)
  {
    if |a| == 0 {
      assert a + b == b;
    } else {
      assert (a + b)[0] == a[0] && (a + b)[1..] == a[1..] + b;
      RecordsOfConcat(a[1..], b, id);
    }
  }

  lemma {:induction false} RecordsOfAll(es: seq<Equipment>, id: DatasetId)
    requires forall e :: e in es ==> e.datasetId == id
    ensures RecordsOf(es, id) == es
  {
    if |es| > 0 {
      RecordsOfAll(es[1..], id);
      assert es == [es[0]] + es[1..];
    }
  }

  /** A key no Dataset has yet has no Equipment rows. */
  lemma {:induction false} RecordsOfNone(ds: seq<Dataset>, es: seq<Equipment>, id: DatasetId)
    requires NoOrphans(ds, es)
    requires id !in Ids(ds)
    ensures RecordsOf(es, id) == []
  {
    if |es| > 0 {
      assert es[0] in es;
      assert NoOrphans(ds, es[1..]) by {
        forall e | e in es[1..] ensures e.datasetId in Ids(ds) {
          assert e in es;
        }
      }
      RecordsOfNone(ds, es[1..], id);
    }
  }

  lemma {:induction false} RecordsOfWithout(es: seq<Equipment>, v: set<DatasetId>, id: DatasetId)
    requires id !in v
    ensures RecordsOf(EquipmentWithout(es, v), id) == RecordsOf(es, id)
  {
    if |es| > 0 {
      assert es == [es[0]] + es[1..];
      EquipmentWithoutCons(es[0], es[1..], v);
      RecordsOfWithout(es[1..], v, id);
      var rest := EquipmentWithout(es[1..], v);
      if es[0].datasetId !in v {
        assert ([es[0]] + rest)[0] == es[0] && ([es[0]] + rest)[1..] == rest;
      }
    }
  }

  /** The writes keep the keys unique and leave no Equipment without its Dataset. */
  lemma PersistConsistent(s: Snapshot, user: UserId, p: Prepared, now: int, faults: StoreFaults)
    requires Consistent(s)
    ensures Consistent(Persist(s, user, p, now, faults).after)
  {
    if faults.createError.None? {
      var d := NewDataset(s.nextId, user, p.filename, now, p.stats);
      var created := s.datasets + [d];
      UniqueAppend(s.datasets, d);
      IdsSnoc(s.datasets, d);
      if faults.insertError.None? {
        var filled := s.equipment + RecordsFor(p.rows, d.id);
        var victims := Victims(created, user);
        assert NoOrphans(created, filled);
        CascadeNoOrphans(created, filled, victims);
        UniqueWithout(created, victims);
      }
    }
  }

  /**
   * After a successful upload the user holds their old count plus one, capped
   * at five; nothing is deleted while that count is at most five; only the
   * user's datasets are deleted, none of them newer than one kept, and every
   * other user's datasets are as they were.
   */
  lemma PersistRetains(s: Snapshot, user: UserId, p: Prepared, now: int, faults: StoreFaults)
    requires Consistent(s)
    requires Persist(s, user, p, now, faults).Stored?
    ensures var after := Persist(s, user, p, now, faults).after.datasets;
      && |OwnedBy(after, user)| == (if |OwnedBy(s.datasets, user)| + 1 > HistoryLimit then HistoryLimit
                                    else |OwnedBy(s.datasets, user)| + 1)
      && (|OwnedBy(s.datasets, user)| + 1 <= HistoryLimit ==> after == s.datasets + [Persist(s, user, p, now, faults).dataset])
      && (forall x :: x in s.datasets && x !in after ==> x.owner == user)
      && (forall k, x :: k in after && k.owner == user && x in s.datasets && x !in after ==> k.uploadedAt >= x.uploadedAt)
      && (forall w :: w != user ==> OwnedBy(after, w) == OwnedBy(s.datasets, w))
  {
    var d := NewDataset(s.nextId, user, p.filename, now, p.stats);
    var created := s.datasets + [d];
    UniqueAppend(s.datasets, d);
    IdsSnoc(s.datasets, d);
    OwnedBySnoc(s.datasets, d, user);
    RetainCount(created, user);
    if |OwnedBy(s.datasets, user)| + 1 <= HistoryLimit {
      RetainFew(created, user);
    }
    RetainKeepsLatest(created, user);
    forall w | w != user ensures OwnedBy(Retain(created, user), w) == OwnedBy(s.datasets, w) {
      RetainOthers(created, user, w);
      OwnedBySnoc(s.datasets, d, w);
    }
  }

  /** Records of a fresh key, added after rows that reference existing keys, are all the key lists. */
  lemma FreshRecordsListed(ds: seq<Dataset>, es: seq<Equipment>, records: seq<Equipment>,
                           id: DatasetId, v: set<DatasetId>)
    requires NoOrphans(ds, es)
    requires id !in Ids(ds) && id !in v
    requires forall e :: e in records ==> e.datasetId == id
    ensures RecordsOf(EquipmentWithout(es + records, v), id) == records
  {
    RecordsOfWithout(es + records, v, id);
    RecordsOfConcat(es, records, id);
    RecordsOfAll(records, id);
    RecordsOfNone(ds, es, id);
    assert RecordsOf(es, id) + records == records;
  }

  /** The newest Dataset of the store, newly created, outlives retention. */
  lemma CreatedSurvives(s: Snapshot, user: UserId, d: Dataset)
    requires Consistent(s)
    requires d.id == s.nextId && d.owner == user
    requires forall e :: e in s.datasets ==> e.uploadedAt <= d.uploadedAt
    ensures UniqueIds(s.datasets + [d])
    ensures d in Retain(s.datasets + [d], user)
    ensures d in LatestFive(Retain(s.datasets + [d], user), user)
  {
    var created := s.datasets + [d];
    UniqueAppend(s.datasets, d);
    forall e | e in created && e != d ensures !Newer(e, d) {
      assert e in s.datasets;
    }
    RetainKeepsNewest(created, user, d);
  }

  /**
   * With a clock that does not run backwards, the new Dataset survives
   * retention, is listed in the user's history, and its Equipment listing
   * holds exactly the records built from the uploaded rows.
   */
  lemma PersistListsNew(s: Snapshot, user: UserId, p: Prepared, now: int, faults: StoreFaults)
    requires Consistent(s)
    requires forall e :: e in s.datasets ==> e.uploadedAt <= now
    requires Persist(s, user, p, now, faults).Stored?
    ensures var o := Persist(s, user, p, now, faults);
      && o.dataset in o.after.datasets
      && o.dataset in LatestFive(o.after.datasets, user)
      && multiset(EquipmentOf(o.after.equipment, o.dataset.id)) == multiset(RecordsFor(p.rows, o.dataset.id))
  {
    var d := NewDataset(s.nextId, user, p.filename, now, p.stats);
    CreatedSurvives(s, user, d);
    var victims := Victims(s.datasets + [d], user);
    assert d.id !in victims;
    FreshRecordsListed(s.datasets, s.equipment, RecordsFor(p.rows, d.id), d.id, victims);
  }
}
