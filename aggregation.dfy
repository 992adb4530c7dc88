/**
 * The pure part of the upload pipeline in backend/equipment_api/views.py:
 * the required-column check and the statistics computed from the parsed rows.
 * Parsing itself (pandas `read_csv`) is outside the model: a file arrives as
 * its header and its rows.
 */
module Aggregation {
  import opened Records

  /** One parsed CSV row, with the five required columns read. */
  datatype Row = Row(name: string, kind: string, flowrate: real, pressure: real, temperature: real)

  /** What `upload` computes from the rows before anything is stored. */
  datatype Stats = Stats(
    totalCount: nat,
    avgFlowrate: Average,
    avgPressure: Average,
    avgTemperature: Average,
    distribution: map<string, nat>)

  const RequiredColumns: seq<string> := ["Equipment Name", "Type", "Flowrate", "Pressure", "Temperature"]

  // ---- column validation ----

  /** `[col for col in columns if col not in header]`. */
  function Missing(columns: seq<string>, header: seq<string>): (r: seq<string>)
    ensures forall c :: c in r <==> c in columns && c !in header
    ensures |r| <= |columns|
  {
    if |columns| == 0 then []
    else (if columns[0] in header then [] else [columns[0]]) + Missing(columns[1..], header)
  }

  function MissingColumns(header: seq<string>): (r: seq<string>)
    ensures forall c :: c in r <==> c in RequiredColumns && c !in header
  {
    Missing(RequiredColumns, header)
  }

  /** `r` is `s` with some elements dropped and the rest kept in order. */
  predicate Subsequence(r: seq<string>, s: seq<string>) {
    |r| == 0 ||
    (|s| > 0 && ((r[0] == s[0] && Subsequence(r[1..], s[1..])) || Subsequence(r, s[1..])))
  }

  /** The missing columns are reported in the order the columns are listed. */
  lemma {:induction false} MissingInOrder(columns: seq<string>, header: seq<string>)
    ensures Subsequence(Missing(columns, header), columns)
  {
    if |columns| > 0 {
      MissingInOrder(columns[1..], header);
      var rest := Missing(columns[1..], header);
      if columns[0] !in header {
        assert Missing(columns, header) == [columns[0]] + rest;
        assert ([columns[0]] + rest)[1..] == rest;
      } else {
        assert Missing(columns, header) == rest;
      }
    }
  }

  lemma MissingColumnsInOrder(header: seq<string>)
    ensures Subsequence(MissingColumns(header), RequiredColumns)
    ensures MissingColumns(header) == [] <==> forall c :: c in RequiredColumns ==> c in header
  {
    MissingInOrder(RequiredColumns, header);
    if MissingColumns(header) != [] {
      assert MissingColumns(header)[0] in MissingColumns(header);
    }
  }

  // ---- statistics ----

  function Sum(xs: seq<real>): real {
    if |xs| == 0 then 0.0 else xs[0] + Sum(xs[1..])
  }

  /** pandas `Series.mean()`: the arithmetic mean, NaN for no values. */
  function Mean(xs: seq<real>): (m: Average)
    ensures m.NaN? <==> |xs| == 0
  {
    if |xs| == 0 then NaN else Value(Sum(xs) / (|xs| as real))
  }

  lemma {:induction false} SumBounds(xs: seq<real>, lo: real, hi: real)
    requires forall i :: 0 <= i < |xs| ==> lo <= xs[i] <= hi
    ensures (|xs| as real) * lo <= Sum(xs) <= (|xs| as real) * hi
  {
    if |xs| > 0 {
      SumBounds(xs[1..], lo, hi);
    }
  }

  /** A mean lies between any lower and upper bound of the values. */
  lemma MeanBounds(xs: seq<real>, lo: real, hi: real)
    requires |xs| > 0
    requires forall i :: 0 <= i < |xs| ==> lo <= xs[i] <= hi
    ensures lo <= Mean(xs).v <= hi
  {
    SumBounds(xs, lo, hi);
    var n := |xs| as real;
    assert Mean(xs).v * n == Sum(xs);
  }

  function Flowrates(rows: seq<Row>): (r: seq<real>)
    ensures |r| == |rows| && forall i :: 0 <= i < |rows| ==> r[i] == rows[i].flowrate
  {
    seq(|rows|, i requires 0 <= i < |rows| => rows[i].flowrate)
  }

  function Pressures(rows: seq<Row>): (r: seq<real>)
    ensures |r| == |rows| && forall i :: 0 <= i < |rows| ==> r[i] == rows[i].pressure
  {
    seq(|rows|, i requires 0 <= i < |rows| => rows[i].pressure)
  }

  function Temperatures(rows: seq<Row>): (r: seq<real>)
    ensures |r| == |rows| && forall i :: 0 <= i < |rows| ==> r[i] == rows[i].temperature
  {
    seq(|rows|, i requires 0 <= i < |rows| => rows[i].temperature)
  }

  function Kinds(rows: seq<Row>): (r: seq<string>)
    ensures |r| == |rows| && forall i :: 0 <= i < |rows| ==> r[i] == rows[i].kind
  {
    seq(|rows|, i requires 0 <= i < |rows| => rows[i].kind)
  }

  /** Number of occurrences of `k` in `s`. */
  function Count(s: seq<string>, k: string): nat {
    if |s| == 0 then 0 else (if s[0] == k then 1 else 0) + Count(s[1..], k)
  }

  lemma {:induction false} CountPositive(s: seq<string>, k: string)
    requires k in s
    ensures Count(s, k) >= 1
  {
    if s[0] != k {
      CountPositive(s[1..], k);
    }
  }

  /** `value_counts().to_dict()`: each distinct label mapped to how often it occurs. */
  function Distribution(kinds: seq<string>): (m: map<string, nat>)
    ensures forall k :: k in m <==> k in kinds
    ensures forall k :: k in m ==> m[k] == Count(kinds, k) && m[k] >= 1
  {
    forall k | k in kinds ensures Count(kinds, k) >= 1 {
      CountPositive(kinds, k);
    }
    map k | k in kinds :: Count(kinds, k)
  }

  predicate Distinct(s: seq<string>) {
    forall i, j :: 0 <= i < j < |s| ==> s[i] != s[j]
  }

  /** Sum of `m[k]` over the listed keys. */
  function SumOver(keys: seq<string>, m: map<string, nat>): nat
    requires forall k :: k in keys ==> k in m
  {
    if |keys| == 0 then 0 else m[keys[0]] + SumOver(keys[1..], m)
  }

  /** Sum over `keys` of the occurrences of each key in `s`. */
  function SumCounts(keys: seq<string>, s: seq<string>): nat {
    if |keys| == 0 then 0 else Count(s, keys[0]) + SumCounts(keys[1..], s)
  }

  lemma {:induction false} SumCountsCons(keys: seq<string>, x: string, s: seq<string>)
    ensures SumCounts(keys, [x] + s) == Count(keys, x) + SumCounts(keys, s)
  {
    if |keys| > 0 {
      SumCountsCons(keys[1..], x, s);
      assert ([x] + s)[1..] == s;
    }
  }

  lemma {:induction false} CountDistinctMember(keys: seq<string>, x: string)
    requires Distinct(keys)
    requires x in keys
    ensures Count(keys, x) == 1
  {
    if keys[0] == x {
      CountAbsent(keys[1..], x);
    } else {
      CountDistinctMember(keys[1..], x);
    }
  }

  lemma {:induction false} CountAbsent(s: seq<string>, x: string)
    requires x !in s
    ensures Count(s, x) == 0
  {
    if |s| > 0 {
      CountAbsent(s[1..], x);
    }
  }

  /** Distinct keys covering every element of `s` count each element exactly once. */
  lemma {:induction false} SumCountsCovers(keys: seq<string>, s: seq<string>)
    requires Distinct(keys)
    requires forall x :: x in s ==> x in keys
    ensures SumCounts(keys, s) == |s|
  {
    if |s| == 0 {
      SumCountsEmpty(keys, s);
    } else {
      assert s == [s[0]] + s[1..];
      SumCountsCons(keys, s[0], s[1..]);
      CountDistinctMember(keys, s[0]);
      SumCountsCovers(keys, s[1..]);
    }
  }

  lemma {:induction false} SumCountsEmpty(keys: seq<string>, s: seq<string>)
    requires |s| == 0
    ensures SumCounts(keys, s) == 0
  {
    if |keys| > 0 {
      SumCountsEmpty(keys[1..], s);
    }
  }

  lemma {:induction false} SumOverDistribution(keys: seq<string>, kinds: seq<string>)
    requires forall k :: k in keys ==> k in kinds
    ensures SumOver(keys, Distribution(kinds)) == SumCounts(keys, kinds)
  {
    if |keys| > 0 {
      SumOverDistribution(keys[1..], kinds);
    }
  }

  /**
   * However the distribution's keys are enumerated (each once), the counts
   * add up to the number of labels.
   */
  lemma DistributionTotal(kinds: seq<string>, keys: seq<string>)
    requires Distinct(keys)
    requires forall k :: k in keys <==> k in Distribution(kinds)
    ensures SumOver(keys, Distribution(kinds)) == |kinds|
  {
    SumOverDistribution(keys, kinds);
    SumCountsCovers(keys, kinds);
  }

  /** Lines 142-148: the row count, the three column means and the type distribution. */
  function Aggregate(rows: seq<Row>): (s: Stats)
    ensures s.totalCount == |rows|
    ensures s.avgFlowrate.NaN? <==> |rows| == 0
    ensures s.avgPressure.NaN? <==> |rows| == 0
    ensures s.avgTemperature.NaN? <==> |rows| == 0
    ensures s.avgFlowrate == Mean(Flowrates(rows))
    ensures s.avgPressure == Mean(Pressures(rows))
    ensures s.avgTemperature == Mean(Temperatures(rows))
    ensures s.distribution == Distribution(Kinds(rows))
    ensures forall k :: k in s.distribution <==> exists i :: 0 <= i < |rows| && rows[i].kind == k
    ensures forall k :: k in s.distribution ==> s.distribution[k] == Count(Kinds(rows), k) >= 1
  {
    var kinds := Kinds(rows);
    var s := Stats(|rows|, Mean(Flowrates(rows)), Mean(Pressures(rows)), Mean(Temperatures(rows)),
                   Distribution(kinds));
    assert forall k :: k in kinds <==> exists i :: 0 <= i < |rows| && rows[i].kind == k;
    s
  }

  /** The statistics of a non-empty upload: the counts sum to the row count, the means lie within the readings. */
  lemma AggregateSound(rows: seq<Row>, keys: seq<string>, lo: real, hi: real)
    requires Distinct(keys)
    requires forall k :: k in keys <==> k in Aggregate(rows).distribution
    ensures SumOver(keys, Aggregate(rows).distribution) == Aggregate(rows).totalCount
    ensures |rows| > 0 && (forall i :: 0 <= i < |rows| ==> lo <= rows[i].flowrate <= hi)
      ==> lo <= Aggregate(rows).avgFlowrate.v <= hi
  {
    DistributionTotal(Kinds(rows), keys);
    if |rows| > 0 && (forall i :: 0 <= i < |rows| ==> lo <= rows[i].flowrate <= hi) {
      MeanBounds(Flowrates(rows), lo, hi);
    }
  }
}
