/**
 * The two persisted record shapes of backend/equipment_api/models.py and the
 * rules their `Meta` classes and the `summary` property state.
 */
module Records {
  import opened Sorting

  type UserId = nat
  type DatasetId = nat

  /** A float column that pandas may fill with NaN (the mean of no rows). */
  datatype Average = NaN | Value(v: real)

  /** One uploaded file's persisted summary; `owner` cascades from the user. */
  datatype Dataset = Dataset(
    id: DatasetId,
    owner: UserId,
    filename: string,
    uploadedAt: int,
    totalCount: int,
    avgFlowrate: Average,
    avgPressure: Average,
    avgTemperature: Average,
    distribution: map<string, nat>)

  /** One CSV row, persisted as a child of the Dataset `datasetId` (cascade). */
  datatype Equipment = Equipment(
    datasetId: DatasetId,
    name: string,
    kind: string,
    flowrate: real,
    pressure: real,
    temperature: real)

  /** A Dataset whose statistics were never set: the model's field defaults. */
  function FreshDataset(id: DatasetId, owner: UserId, filename: string, uploadedAt: int): (d: Dataset)
    ensures d.id == id && d.owner == owner && d.filename == filename && d.uploadedAt == uploadedAt
    ensures d.totalCount == 0 && d.distribution == map[]
    ensures d.avgFlowrate == d.avgPressure == d.avgTemperature == Value(0.0)
  {
    Dataset(id, owner, filename, uploadedAt, 0, Value(0.0), Value(0.0), Value(0.0), map[])
  }

  // ---- Meta.ordering of Dataset: newest first ----

  /**
   * `a` is listed no later than `b` under `ordering = ['-uploaded_at']`.
   * The source leaves equal timestamps unordered; this model breaks such
   * ties by the larger primary key first.
   */
  predicate Newer(a: Dataset, b: Dataset) {
    a.uploadedAt > b.uploadedAt || (a.uploadedAt == b.uploadedAt && a.id >= b.id)
  }

  lemma NewerTotal()
    ensures Total(Newer)
  {
  }

  function NewestFirst(s: seq<Dataset>): (r: seq<Dataset>)
    ensures multiset(r) == multiset(s)
    ensures Sorted(r, Newer)
  {
    NewerTotal();
    SortBy(s, Newer)
  }

  /** Along a newest-first listing the upload times never increase. */
  lemma {:induction false} NewestFirstMonotone(t: seq<Dataset>, i: int, j: int)
    requires Sorted(t, Newer)
    requires 0 <= i <= j < |t|
    ensures t[i].uploadedAt >= t[j].uploadedAt
    decreases j - i
  {
    if i < j {
      NewestFirstMonotone(t, i + 1, j);
      assert Newer(t[i], t[i + 1]);
    }
  }

  // ---- Meta.ordering of Equipment: by name ----

  /** Lexicographic order on names, character by character. */
  predicate NameAtMost(a: string, b: string) {
    |a| == 0 || (|b| > 0 && (a[0] < b[0] || (a[0] == b[0] && NameAtMost(a[1..], b[1..]))))
  }

  lemma {:induction false} NameAtMostTotal(a: string, b: string)
    ensures NameAtMost(a, b) || NameAtMost(b, a)
  {
    if |a| > 0 && |b| > 0 && a[0] == b[0] {
      NameAtMostTotal(a[1..], b[1..]);
    }
  }

  predicate ByName(a: Equipment, b: Equipment) {
    NameAtMost(a.name, b.name)
  }

  lemma ByNameTotal()
    ensures Total(ByName)
  {
    forall a: Equipment, b: Equipment
      ensures ByName(a, b) || ByName(b, a)
    {
      NameAtMostTotal(a.name, b.name);
    }
  }

  function RecordsOf(es: seq<Equipment>, id: DatasetId): (r: seq<Equipment>)
    ensures forall e :: e in r <==> e in es && e.datasetId == id
  {
    if |es| == 0 then []
    else (if es[0].datasetId == id then [es[0]] else []) + RecordsOf(es[1..], id)
  }

  /** `dataset.equipment.all()`: the dataset's records under `ordering = ['equipment_name']`. */
  function EquipmentOf(es: seq<Equipment>, id: DatasetId): (r: seq<Equipment>)
    ensures multiset(r) == multiset(RecordsOf(es, id))
    ensures forall e :: e in r <==> e in es && e.datasetId == id
    ensures forall i :: 0 < i < |r| ==> NameAtMost(r[i - 1].name, r[i].name)
  {
    ByNameTotal();
    var r := SortBy(RecordsOf(es, id), ByName);
    assert forall e :: e in r <==> e in multiset(r);
    r
  }

  // ---- Dataset.summary ----

  /** Python `round(x, 2)`, taken as the nearest hundredth with halves rounded up. */
  function Round2(x: real): (r: real)
    ensures -1.0 / 200.0 < r - x <= 1.0 / 200.0
    ensures (r * 100.0).Floor as real == r * 100.0
  {
    ((x * 100.0 + 0.5).Floor as real) / 100.0
  }

  lemma Round2Idempotent(x: real)
    ensures Round2(Round2(x)) == Round2(x)
  {
    var n := (x * 100.0 + 0.5).Floor;
    assert Round2(x) * 100.0 == n as real;
    assert (n as real + 0.5).Floor == n;
  }

  function RoundAverage(a: Average): (r: Average)
    ensures a.NaN? <==> r.NaN?
    ensures a.Value? ==> -1.0 / 200.0 < r.v - a.v <= 1.0 / 200.0
    ensures a.Value? ==> (r.v * 100.0).Floor as real == r.v * 100.0
  {
    match a
    case NaN => NaN
    case Value(v) => Value(Round2(v))
  }

  datatype Summary = Summary(
    id: DatasetId,
    filename: string,
    uploadedAt: int,
    totalCount: int,
    flowrate: Average,
    pressure: Average,
    temperature: Average,
    distribution: map<string, nat>)

  /** The `summary` property: everything unchanged except the averages, rounded to 2 places. */
  function SummaryOf(d: Dataset): (s: Summary)
    ensures s.id == d.id && s.filename == d.filename && s.uploadedAt == d.uploadedAt
    ensures s.totalCount == d.totalCount && s.distribution == d.distribution
    ensures s.flowrate == RoundAverage(d.avgFlowrate)
    ensures s.pressure == RoundAverage(d.avgPressure)
    ensures s.temperature == RoundAverage(d.avgTemperature)
  {
    Summary(d.id, d.filename, d.uploadedAt, d.totalCount,
            RoundAverage(d.avgFlowrate), RoundAverage(d.avgPressure), RoundAverage(d.avgTemperature),
            d.distribution)
  }

  /** A fresh Dataset summarises to zero averages, a zero count and no distribution. */
  lemma FreshSummary(id: DatasetId, owner: UserId, filename: string, uploadedAt: int)
    ensures var s := SummaryOf(FreshDataset(id, owner, filename, uploadedAt));
      s.totalCount == 0 && s.distribution == map[] &&
      s.flowrate == s.pressure == s.temperature == Value(0.0)
  {
  }
}
