/**
 * `DatasetViewSet` of the `equipments` app: the same upload, retention and
 * history as the `equipment_api` app, with shorter error texts, a single
 * yes/no column check and every exception answered with its bare text.
 * It also sets no permission classes (anonymous requests reach the view;
 * authentication is not modelled, the user is a parameter) and stores no
 * uploaded file with the Dataset (file storage is not modelled).
 */
module EquipmentsViews {
  import opened Outcomes
  import opened Text
  import opened Records
  import opened Aggregation
  import opened Retention
  import opened Store
  import opened UploadPipeline
  import Api = EquipmentApiViews

  /** Validation of `request.FILES` (lines 19-37), before anything is stored. */
  function Prepare(files: map<string, UploadedFile>): (r: Result<Prepared>)
    ensures "file" !in files ==> r == Failure("No file provided")
    ensures "file" in files && !EndsWith(files["file"].name, ".csv") ==> r == Failure("Only CSV files allowed")
    ensures "file" in files && EndsWith(files["file"].name, ".csv") && files["file"].content.Unreadable? ==>
      r == Failure(files["file"].content.reason)
    ensures ("file" in files && EndsWith(files["file"].name, ".csv") && files["file"].content.Frame?
             && exists c :: c in RequiredColumns && c !in files["file"].content.header) ==>
      r == Failure("Missing required columns")
    ensures r.Success? ==>
      r.value == Prepared(files["file"].name, files["file"].content.rows, Aggregate(files["file"].content.rows))
  {
    if "file" !in files then Failure("No file provided")
    else
      var f := files["file"];
      if !EndsWith(f.name, ".csv") then Failure("Only CSV files allowed")
      else
        match f.content
        case Unreadable(reason) => Failure(reason)
        case Frame(header, rows) =>
          if !(forall c :: c in RequiredColumns ==> c in header) then Failure("Missing required columns")
          else Success(Prepared(f.name, rows, Aggregate(rows)))
  }

  /**
   * Both apps accept the same files and prepare the same statistics from
   * them; they differ only in the error texts, and for a missing column
   * this app does not say which.
   */
  lemma PreparesAgree(files: map<string, UploadedFile>)
    ensures Prepare(files).Success? <==> Api.Prepare(files).Success?
    ensures Prepare(files).Success? ==> Prepare(files).value == Api.Prepare(files).value
    ensures (Prepare(files).Failure? && "file" in files && files["file"].content.Frame?
             && EndsWith(files["file"].name, ".csv")) ==>
      && Prepare(files).error == "Missing required columns"
      && Api.Prepare(files).error == "Missing required columns: " + Join(MissingColumns(files["file"].content.header), ", ")
  {
  }

  /** Lines 18-71 as a whole: the response and the store after one upload request. */
  function UploadOutcome(s: Snapshot, user: UserId, files: map<string, UploadedFile>, now: int, faults: StoreFaults)
    : (o: Outcome)
    ensures Prepare(files).Failure? ==> o == Outcome(BadRequest(Prepare(files).error), s)
    ensures o.response.Created? <==> Prepare(files).Success? && faults.createError.None? && faults.insertError.None?
    ensures Prepare(files).Success? && faults.createError.Some? ==>
      o == Outcome(BadRequest(faults.createError.value), s)
  {
    match Prepare(files)
    case Failure(e) => Outcome(BadRequest(e), s)
    case Success(p) =>
      match Persist(s, user, p, now, faults)
      case StoreFailed(e, after) => Outcome(BadRequest(e), after)
      case Stored(d, after) => Outcome(Created(d, EquipmentOf(after.equipment, d.id)), after)
  }

  /** `DatasetViewSet.upload`, carried out on the database. */
  method Upload(db: Database, user: UserId, files: map<string, UploadedFile>, now: int, faults: StoreFaults)
    returns (response: UploadResponse)
    requires db.Valid()
    modifies db
    ensures db.Valid()
    ensures Outcome(response, db.State()) == UploadOutcome(old(db.State()), user, files, now, faults)
  {
    var prepared := Prepare(files);
    if prepared.Failure? {
      return BadRequest(prepared.error);
    }
    var o := PersistUpload(db, user, prepared.value, now, faults);
    match o
    case StoreFailed(e, _) =>
      response := BadRequest(e);
    case Stored(d, _) =>
      response := Created(d, EquipmentOf(db.equipment, d.id));
  }

  /**
   * The two apps leave the store in the same state after every request and
   * answer an accepted upload identically; only the 400 texts differ.
   */
  lemma UploadsAgree(s: Snapshot, user: UserId, files: map<string, UploadedFile>, now: int, faults: StoreFaults)
    ensures UploadOutcome(s, user, files, now, faults).after == Api.UploadOutcome(s, user, files, now, faults).after
    ensures UploadOutcome(s, user, files, now, faults).response.Created? <==>
      Api.UploadOutcome(s, user, files, now, faults).response.Created?
    ensures UploadOutcome(s, user, files, now, faults).response.Created? ==>
      UploadOutcome(s, user, files, now, faults) == Api.UploadOutcome(s, user, files, now, faults)
  {
  }

  /**
   * After an accepted upload (lines 63-66) the history (lines 14-15) lists
   * at most five datasets, all the user's, the new one among them, and none
   * of the user's left out is newer than one listed.
   */
  lemma UploadThenHistory(s: Snapshot, user: UserId, files: map<string, UploadedFile>, now: int, faults: StoreFaults)
    requires Consistent(s)
    requires forall e :: e in s.datasets ==> e.uploadedAt <= now
    requires UploadOutcome(s, user, files, now, faults).response.Created?
    ensures var o := UploadOutcome(s, user, files, now, faults);
      && |LatestFive(o.after.datasets, user)| <= HistoryLimit
      && o.response.dataset in LatestFive(o.after.datasets, user)
      && (forall d :: d in LatestFive(o.after.datasets, user) ==> d in o.after.datasets && d.owner == user)
      && |OwnedBy(o.after.datasets, user)| <= HistoryLimit
  {
    UploadsAgree(s, user, files, now, faults);
    Api.UploadThenHistory(s, user, files, now, faults);
    Api.UploadRetention(s, user, files, now, faults);
  }
}
