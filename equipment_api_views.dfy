/**
 * `DatasetViewSet` of the `equipment_api` app: the upload endpoint, the
 * history listing and the access check and tables of the PDF report.
 */
module EquipmentApiViews {
  import opened Outcomes
  import opened Text
  import opened Records
  import opened Aggregation
  import opened Retention
  import opened Store
  import opened UploadPipeline

  // ---- upload ----

  /** Validation of `request.FILES` and the statistics, before anything is stored. */
  function Prepare(files: map<string, UploadedFile>): (r: Result<Prepared>)
    ensures "file" !in files ==> r == Failure("No file provided")
    ensures "file" in files && !EndsWith(files["file"].name, ".csv") ==> r == Failure("Only CSV files are allowed")
    ensures "file" in files && EndsWith(files["file"].name, ".csv") && files["file"].content.Unreadable? ==>
      r == Failure("Error processing file: " + files["file"].content.reason)
    ensures r.Success? <==>
      && "file" in files
      && EndsWith(files["file"].name, ".csv")
      && files["file"].content.Frame?
      && forall c :: c in RequiredColumns ==> c in files["file"].content.header
    ensures r.Success? ==>
      r.value == Prepared(files["file"].name, files["file"].content.rows, Aggregate(files["file"].content.rows))
  {
    if "file" !in files then Failure("No file provided")
    else
      var f := files["file"];
      if !EndsWith(f.name, ".csv") then Failure("Only CSV files are allowed")
      else
        match f.content
        case Unreadable(reason) => Failure("Error processing file: " + reason)
        case Frame(header, rows) =>
          var missing := MissingColumns(header);
          MissingColumnsInOrder(header);
          if missing != [] then Failure("Missing required columns: " + Join(missing, ", "))
          else Success(Prepared(f.name, rows, Aggregate(rows)))
  }

  /**
   * A readable CSV whose header lacks required columns is refused with a
   * message naming exactly those columns, in the order they are required.
   */
  lemma MissingColumnsReported(files: map<string, UploadedFile>)
    requires "file" in files && EndsWith(files["file"].name, ".csv") && files["file"].content.Frame?
    requires exists c :: c in RequiredColumns && c !in files["file"].content.header
    ensures var missing := MissingColumns(files["file"].content.header);
      && Prepare(files) == Failure("Missing required columns: " + Join(missing, ", "))
      && missing != []
      && Subsequence(missing, RequiredColumns)
      && forall c :: c in missing <==> c in RequiredColumns && c !in files["file"].content.header
  {
    MissingColumnsInOrder(files["file"].content.header);
  }

  /** Lines 112-196 as a whole: the response and the store after one upload request. */
  function UploadOutcome(s: Snapshot, user: UserId, files: map<string, UploadedFile>, now: int, faults: StoreFaults)
    : (o: Outcome)
    ensures Prepare(files).Failure? ==> o == Outcome(BadRequest(Prepare(files).error), s)
    ensures o.response.Created? <==> Prepare(files).Success? && faults.createError.None? && faults.insertError.None?
    ensures Prepare(files).Success? && faults.createError.Some? ==>
      o == Outcome(BadRequest("Error processing file: " + faults.createError.value), s)
  {
    match Prepare(files)
    case Failure(e) => Outcome(BadRequest(e), s)
    case Success(p) =>
      match Persist(s, user, p, now, faults)
      case StoreFailed(e, after) => Outcome(BadRequest("Error processing file: " + e), after)
      case Stored(d, after) => Outcome(Created(d, EquipmentOf(after.equipment, d.id)), after)
  }

  /** `DatasetViewSet.upload`, carried out on the database. */
  method Upload(db: Database, user: UserId, files: map<string, UploadedFile>, now: int, faults: StoreFaults)
    returns (response: UploadResponse)
    requires db.Valid()
    modifies db
    ensures db.Valid()
    ensures Outcome(response, db.State()) == UploadOutcome(old(db.State()), user, files, now, faults)
  {
    var prepared := Prepare(files);
    if prepared.Failure? {
      return BadRequest(prepared.error);
    }
    var o := PersistUpload(db, user, prepared.value, now, faults);
    match o
    case StoreFailed(e, _) =>
      response := BadRequest("Error processing file: " + e);
    case Stored(d, _) =>
      response := Created(d, EquipmentOf(db.equipment, d.id));
  }

  /** Every upload, accepted or refused, leaves the store consistent. */
  lemma UploadConsistent(s: Snapshot, user: UserId, files: map<string, UploadedFile>, now: int, faults: StoreFaults)
    requires Consistent(s)
    ensures Consistent(UploadOutcome(s, user, files, now, faults).after)
  {
    if Prepare(files).Success? {
      PersistConsistent(s, user, Prepare(files).value, now, faults);
    }
  }

  /**
   * A failed bulk insert still answers 400, yet the Dataset created just
   * before it stays, with no Equipment, and is not trimmed: the user can end
   * up holding one more dataset than before, past five.
   */
  lemma InsertFailureKeepsDataset(s: Snapshot, user: UserId, files: map<string, UploadedFile>, now: int,
                                  faults: StoreFaults)
    requires Consistent(s)
    requires Prepare(files).Success? && faults.createError.None? && faults.insertError.Some?
    ensures var o := UploadOutcome(s, user, files, now, faults);
      && o.response == BadRequest("Error processing file: " + faults.insertError.value)
      && |o.after.datasets| == |s.datasets| + 1
      && |OwnedBy(o.after.datasets, user)| == |OwnedBy(s.datasets, user)| + 1
      && RecordsOf(o.after.equipment, s.nextId) == []
  {
    var p := Prepare(files).value;
    var d := NewDataset(s.nextId, user, p.filename, now, p.stats);
    var after := Snapshot(s.datasets + [d], s.equipment, s.nextId + 1);
    assert Persist(s, user, p, now, faults) == StoreFailed(faults.insertError.value, after);
    OwnedBySnoc(s.datasets, d, user);
    RecordsOfNone(s.datasets, s.equipment, s.nextId);
  }

  /**
   * After an accepted upload the user keeps at most five datasets: one more
   * than before unless that passes five, only the user's own are deleted,
   * none newer than one kept, and every other user's are untouched.
   */
  lemma UploadRetention(s: Snapshot, user: UserId, files: map<string, UploadedFile>, now: int, faults: StoreFaults)
    requires Consistent(s)
    requires UploadOutcome(s, user, files, now, faults).response.Created?
    ensures var after := UploadOutcome(s, user, files, now, faults).after.datasets;
      && |OwnedBy(after, user)| == (if |OwnedBy(s.datasets, user)| + 1 > HistoryLimit then HistoryLimit
                                    else |OwnedBy(s.datasets, user)| + 1)
      && (forall x :: x in s.datasets && x !in after ==> x.owner == user)
      && (forall k, x :: k in after && k.owner == user && x in s.datasets && x !in after ==> k.uploadedAt >= x.uploadedAt)
      && (forall w :: w != user ==> OwnedBy(after, w) == OwnedBy(s.datasets, w))
  {
    PersistRetains(s, user, Prepare(files).value, now, faults);
  }

  /**
   * The 201 answer lists the uploaded file's rows, by name, as Equipment of
   * the new Dataset, and that Dataset is then in the user's history.
   */
  lemma UploadThenHistory(s: Snapshot, user: UserId, files: map<string, UploadedFile>, now: int, faults: StoreFaults)
    requires Consistent(s)
    requires forall e :: e in s.datasets ==> e.uploadedAt <= now
    requires UploadOutcome(s, user, files, now, faults).response.Created?
    ensures var o := UploadOutcome(s, user, files, now, faults);
      && o.response.dataset in LatestFive(o.after.datasets, user)
      && o.response.dataset.totalCount == |files["file"].content.rows|
      && o.response.dataset.filename == files["file"].name
      && multiset(o.response.equipment) == multiset(RecordsFor(files["file"].content.rows, o.response.dataset.id))
  {
    PersistListsNew(s, user, Prepare(files).value, now, faults);
  }

  // ---- report: access ----

  /** The outcome of the token check of `generate_report`. */
  datatype ReportAccess = Granted | Denied(status: nat, error: string)

  /** `Dataset.objects.get(id=pk)`. */
  function FindDataset(ds: seq<Dataset>, id: DatasetId): (r: Option<Dataset>)
    ensures r.Some? <==> id in Ids(ds)
    ensures r.Some? ==> r.value in ds && r.value.id == id
  {
    if |ds| == 0 then None
    else if ds[0].id == id then Some(ds[0])
    else FindDataset(ds[1..], id)
  }

  /**
   * `request.GET.get('token') or request.META.get('HTTP_AUTHORIZATION', '').replace('Token ', '')`:
   * a non-empty query token wins; otherwise the header with every `Token `
   * removed.
   */
  function ExtractToken(query: Option<string>, authorization: Option<string>): string {
    if query.Some? && query.value != "" then query.value
    else RemoveAll(authorization.GetOr(""), "Token ")
  }

  /** A `Token <key>` header yields the key, unless the query string already carries one. */
  lemma TokenHeaderYieldsKey(query: Option<string>, key: string)
    requires !Contains(key, "Token ")
    ensures ExtractToken(query, Some("Token " + key)) ==
      if query.Some? && query.value != "" then query.value else key
  {
    var h := "Token " + key;
    assert StartsWith(h, "Token ");
    assert h[|"Token "|..] == key;
    RemoveAllAbsent(key, "Token ");
  }

  /** A `Bearer <key>` header, without `Token ` in it, is looked up as a whole and so never as the key. */
  lemma BearerHeaderNotKey(key: string)
    requires !Contains("Bearer " + key, "Token ")
    ensures ExtractToken(None, Some("Bearer " + key)) != key
  {
    RemoveAllAbsent("Bearer " + key, "Token ");
  }

  /**
   * Lines 235-248: the dataset must exist (otherwise the outer handler
   * answers 500 with the lookup's message), a token must be given (401),
   * it must be known (401) and belong to the dataset's owner (403).
   */
  function CheckReport(found: Option<Dataset>, query: Option<string>, authorization: Option<string>,
                       tokens: map<string, UserId>): (r: ReportAccess)
    ensures r.Granted? <==>
      found.Some? && ExtractToken(query, authorization) != "" && ExtractToken(query, authorization) in tokens
      && tokens[ExtractToken(query, authorization)] == found.value.owner
    ensures found.None? ==> r == Denied(500, "Dataset matching query does not exist.")
    ensures found.Some? && ExtractToken(query, authorization) == "" ==> r == Denied(401, "Authentication required")
    ensures found.Some? && ExtractToken(query, authorization) != "" && ExtractToken(query, authorization) !in tokens ==>
      r == Denied(401, "Invalid token")
    ensures r == Denied(403, "Access denied") <==>
      found.Some? && ExtractToken(query, authorization) in tokens && ExtractToken(query, authorization) != ""
      && tokens[ExtractToken(query, authorization)] != found.value.owner
  {
    if found.None? then Denied(500, "Dataset matching query does not exist.")
    else
      var token := ExtractToken(query, authorization);
      if token == "" then Denied(401, "Authentication required")
      else if token !in tokens then Denied(401, "Invalid token")
      else if found.value.owner != tokens[token] then Denied(403, "Access denied")
      else Granted
  }

  /** The report of a stored dataset is granted to its owner's token, and only to it. */
  lemma ReportOwnerOnly(ds: seq<Dataset>, id: DatasetId, key: string, tokens: map<string, UserId>)
    requires UniqueIds(ds)
    requires key != "" && key in tokens
    ensures CheckReport(FindDataset(ds, id), Some(key), None, tokens).Granted? <==>
      exists d :: d in ds && d.id == id && d.owner == tokens[key]
    ensures id in Ids(ds) && CheckReport(FindDataset(ds, id), Some(key), None, tokens).Denied? ==>
      CheckReport(FindDataset(ds, id), Some(key), None, tokens) == Denied(403, "Access denied")
  {
  }

  // ---- report: tables ----

  /** A table cell as handed to ReportLab: text, or a number to print with a fixed count of decimals. */
  datatype Cell = Text(text: string) | Fixed(value: real, places: nat)

  const DistributionHeader: seq<Cell> := [Text("Equipment Type"), Text("Count")]
  const NoDataRow: seq<Cell> := [Text("No data"), Text("0")]

  /** `[eq_type, str(count)]`. */
  function DistributionRow(kind: string, count: nat): seq<Cell> {
    [Text(kind), Text(NatToString(count))]
  }

  /** The number of distinct keys listed is the size of the map they enumerate. */
  lemma {:induction false} EnumerationSize(keys: seq<string>, m: map<string, nat>)
    requires Distinct(keys)
    requires forall i :: 0 <= i < |keys| ==> keys[i] in m
    requires forall k :: k in m ==> k in keys
    ensures |m| == |keys|
    decreases |keys|
  {
    if |keys| == 0 {
      assert m == map[];
    } else {
      var rest := m - {keys[0]};
      forall i | 0 <= i < |keys[1..]| ensures keys[1..][i] in rest {
        assert keys[1..][i] == keys[i + 1];
      }
      forall k | k in rest ensures k in keys[1..] {
        var j :| 0 <= j < |keys| && keys[j] == k;
        assert keys[1..][j - 1] == k;
      }
      EnumerationSize(keys[1..], rest);
      assert m.Keys == rest.Keys + {keys[0]};
    }
  }

  /**
   * Lines 318-324: the distribution table is its header, then one row per
   * entry in `keys` order (the dict's iteration order), or `No data` / `0`
   * when the distribution is empty.
   */
  method DistributionTable(dist: map<string, nat>, keys: seq<string>) returns (table: seq<seq<Cell>>)
    requires Distinct(keys)
    requires forall i :: 0 <= i < |keys| ==> keys[i] in dist
    requires forall k :: k in dist ==> k in keys
    ensures |table| >= 2 && table[0] == DistributionHeader
    ensures forall j :: 0 <= j < |table| ==> |table[j]| == 2
    ensures |dist| == 0 ==> table == [DistributionHeader, NoDataRow]
    ensures |dist| > 0 ==> |table| == |dist| + 1 == |keys| + 1
    ensures |dist| > 0 ==> forall i :: 0 <= i < |keys| ==> table[i + 1] == DistributionRow(keys[i], dist[keys[i]])
  {
    EnumerationSize(keys, dist);
    if |dist| > 0 {
      table := [DistributionHeader];
      var i := 0;
      while i < |keys|
        invariant 0 <= i <= |keys|
        invariant |table| == i + 1 && table[0] == DistributionHeader
        invariant forall j :: 0 <= j < i ==> table[j + 1] == DistributionRow(keys[j], dist[keys[j]])
        invariant forall j :: 0 <= j < |table| ==> |table[j]| == 2
      {
        table := table + [DistributionRow(keys[i], dist[keys[i]])];
        i := i + 1;
      }
    } else {
      table := [DistributionHeader, NoDataRow];
    }
  }

  /** Each row names its type and its count reads back as the stored count. */
  lemma DistributionRowReadsBack(kind: string, count: nat)
    ensures DistributionRow(kind, count)[0] == Text(kind)
    ensures DigitsValue(DistributionRow(kind, count)[1].text) == count
  {
    NatToStringRoundTrip(count);
  }

  /** No row of an uploaded file's distribution can be mistaken for the `No data` placeholder. */
  lemma PlaceholderUnambiguous(kinds: seq<string>, k: string)
    requires k in Distribution(kinds)
    ensures DistributionRow(k, Distribution(kinds)[k]) != NoDataRow
  {
  }

  const EquipmentHeader: seq<Cell> :=
    [Text("Name"), Text("Type"), Text("Flowrate"), Text("Pressure"), Text("Temperature")]
  const NoEquipmentRow: seq<Cell> := [Text("No equipment"), Text("-"), Text("-"), Text("-"), Text("-")]

  /** One equipment row: name, type and the three readings to one decimal. */
  function EquipmentRow(e: Equipment): seq<Cell> {
    [Text(e.name), Text(e.kind), Fixed(e.flowrate, 1), Fixed(e.pressure, 1), Fixed(e.temperature, 1)]
  }

  /**
   * Lines 344-356: the equipment table is its header, then one row per
   * record in listing order, with the placeholder row appended when no
   * record was added.
   */
  method EquipmentTable(items: seq<Equipment>) returns (table: seq<seq<Cell>>)
    ensures |table| >= 2 && table[0] == EquipmentHeader
    ensures forall j :: 0 <= j < |table| ==> |table[j]| == |EquipmentHeader|
    ensures |items| == 0 ==> table == [EquipmentHeader, NoEquipmentRow]
    ensures |items| > 0 ==> |table| == |items| + 1
    ensures forall i :: 0 <= i < |items| ==> table[i + 1] == EquipmentRow(items[i])
  {
    table := [EquipmentHeader];
    var i := 0;
    while i < |items|
      invariant 0 <= i <= |items|
      invariant |table| == i + 1 && table[0] == EquipmentHeader
      invariant forall j :: 0 <= j < i ==> table[j + 1] == EquipmentRow(items[j])
      invariant forall j :: 0 <= j < |table| ==> |table[j]| == |EquipmentHeader|
    {
      table := table + [EquipmentRow(items[i])];
      i := i + 1;
    }
    if |table| == 1 {
      table := table + [NoEquipmentRow];
    }
  }
}
