/**
 * The database tables the upload pipeline writes: Dataset and Equipment rows,
 * with Django's auto-increment keys, cascade deletion and the retention loop
 * of `upload`.
 */
module Store {
  import opened Outcomes
  import opened Records
  import opened Aggregation
  import opened Retention

  /**
   * What the database does with this upload's writes, supplied by the caller
   * because the database is outside the model: an error text when
   * `Dataset.objects.create` or `Equipment.objects.bulk_create` raises.
   */
  datatype StoreFaults = StoreFaults(createError: Option<string>, insertError: Option<string>)

  /** The Dataset row `Dataset.objects.create(...)` stores for an upload. */
  function NewDataset(id: DatasetId, owner: UserId, filename: string, uploadedAt: int, stats: Stats): Dataset {
    Dataset(id, owner, filename, uploadedAt, stats.totalCount,
            stats.avgFlowrate, stats.avgPressure, stats.avgTemperature, stats.distribution)
  }

  /** The contents of both tables and the key counter at one moment. */
  datatype Snapshot = Snapshot(datasets: seq<Dataset>, equipment: seq<Equipment>, nextId: DatasetId)

  /** Keys are unique and below the counter, and every Equipment row has its Dataset. */
  ghost predicate Consistent(s: Snapshot) {
    && UniqueIds(s.datasets)
    && (forall d :: d in s.datasets ==> d.id < s.nextId)
    && NoOrphans(s.datasets, s.equipment)
  }

  class Database {
    /** Every user's datasets, in creation order. */
    var datasets: seq<Dataset>
    /** Every Equipment row, in insertion order. */
    var equipment: seq<Equipment>
    /** The next primary key the Dataset table hands out. */
    var nextId: DatasetId

    function State(): Snapshot
      reads this
    {
      Snapshot(datasets, equipment, nextId)
    }

    ghost predicate Valid()
      reads this
    {
      Consistent(State())
    }

    constructor ()
      ensures Valid()
      ensures datasets == [] && equipment == []
    {
      datasets := [];
      equipment := [];
      nextId := 1;
    }

    /** `Dataset.objects.create`: stores a new row under a fresh key. */
    method CreateDataset(owner: UserId, filename: string, uploadedAt: int, stats: Stats)
      returns (d: Dataset)
      requires Valid()
      modifies this
      ensures Valid()
      ensures d == NewDataset(old(nextId), owner, filename, uploadedAt, stats)
      ensures d.id !in Ids(old(datasets))
      ensures datasets == old(datasets) + [d] && equipment == old(equipment)
      ensures nextId == old(nextId) + 1
    {
      d := NewDataset(nextId, owner, filename, uploadedAt, stats);
      UniqueAppend(datasets, d);
      IdsSnoc(datasets, d);
      datasets := datasets + [d];
      nextId := nextId + 1;
    }

    /** `Equipment.objects.bulk_create`: all records are stored, in order. */
    method BulkInsert(records: seq<Equipment>)
      requires Valid()
      requires forall e :: e in records ==> e.datasetId in Ids(datasets)
      modifies this
      ensures Valid()
      ensures equipment == old(equipment) + records
      ensures datasets == old(datasets) && nextId == old(nextId)
    {
      equipment := equipment + records;
    }

    /** `ds.delete()`: removes the Dataset and, by cascade, all of its Equipment. */
    method DeleteDataset(id: DatasetId)
      requires Valid()
      modifies this
      ensures Valid()
      ensures datasets == Without(old(datasets), {id})
      ensures equipment == EquipmentWithout(old(equipment), {id})
      ensures nextId == old(nextId)
      ensures forall e :: e in equipment ==> e.datasetId != id
    {
      CascadeNoOrphans(datasets, equipment, {id});
      UniqueWithout(datasets, {id});
      datasets := Without(datasets, {id});
      equipment := EquipmentWithout(equipment, {id});
    }

    /** Deleting a user: every Dataset of the user goes, and with them their Equipment. */
    method DeleteUser(u: UserId)
      requires Valid()
      modifies this
      ensures Valid()
      ensures datasets == Without(old(datasets), Ids(OwnedBy(old(datasets), u)))
      ensures equipment == EquipmentWithout(old(equipment), Ids(OwnedBy(old(datasets), u)))
      ensures OwnedBy(datasets, u) == []
      ensures forall w :: w != u ==> OwnedBy(datasets, w) == OwnedBy(old(datasets), w)
      ensures nextId == old(nextId)
    {
      var gone := Ids(OwnedBy(datasets, u));
      CascadeNoOrphans(datasets, equipment, gone);
      UniqueWithout(datasets, gone);
      forall w | w != u ensures OwnedBy(Without(datasets, gone), w) == OwnedBy(datasets, w) {
        WithoutOthers(datasets, u, w, gone);
      }
      WithoutAllOwned(datasets, u);
      datasets := Without(datasets, gone);
      equipment := EquipmentWithout(equipment, gone);
    }

    /**
     * The history step of `upload`: list the user's datasets newest first and,
     * if there are more than five, delete those past the fifth one by one.
     */
    method EnforceRetention(u: UserId)
      requires Valid()
      modifies this
      ensures Valid()
      ensures datasets == Retain(old(datasets), u)
      ensures equipment == EquipmentWithout(old(equipment), Victims(old(datasets), u))
      ensures nextId == old(nextId)
    {
      var userDatasets := NewestFirst(OwnedBy(datasets, u));
      ghost var d0, e0 := datasets, equipment;
      WithoutKeepsAll(d0, {});
      EquipmentWithoutNothing(e0);
      if |userDatasets| > HistoryLimit {
        var i := HistoryLimit;
        assert Ids(userDatasets[HistoryLimit..i]) == {};
        while i < |userDatasets|
          invariant HistoryLimit <= i <= |userDatasets|
          invariant Valid()
          invariant nextId == old(nextId)
          invariant datasets == Without(d0, Ids(userDatasets[HistoryLimit..i]))
          invariant equipment == EquipmentWithout(e0, Ids(userDatasets[HistoryLimit..i]))
        {
          DeleteDataset(userDatasets[i].id);
          DeleteNext(d0, e0, userDatasets, HistoryLimit, i);
          i := i + 1;
        }
        assert userDatasets[HistoryLimit..i] == userDatasets[HistoryLimit..];
      }
    }
  }
}
