/**
 * The store's contents as values: the history slice `[:5]`, the retention rule
 * that trims a user's datasets to the five newest, and cascade deletion.
 * Every Dataset of every user sits in one sequence, in creation order.
 */
module Retention {
  import opened Sorting
  import opened Records

  /** How many datasets `history` shows and retention keeps per user. */
  const HistoryLimit: nat := 5

  function Ids(s: seq<Dataset>): set<DatasetId> {
    set d | d in s :: d.id
  }

  /** No two datasets share a primary key. */
  predicate UniqueIds(s: seq<Dataset>) {
    |s| == 0 || (s[0].id !in Ids(s[1..]) && UniqueIds(s[1..]))
  }

  /** `Dataset.objects.filter(user=u)`, in storage order. */
  function OwnedBy(s: seq<Dataset>, u: UserId): (r: seq<Dataset>)
    ensures forall d :: d in r <==> d in s && d.owner == u
  {
    if |s| == 0 then []
    else (if s[0].owner == u then [s[0]] else []) + OwnedBy(s[1..], u)
  }

  /** The datasets left after deleting every one whose key is in `v`. */
  function Without(s: seq<Dataset>, v: set<DatasetId>): (r: seq<Dataset>)
    ensures forall d :: d in r <==> d in s && d.id !in v
  {
    if |s| == 0 then []
    else (if s[0].id in v then [] else [s[0]]) + Without(s[1..], v)
  }

  /** The equipment left after deleting the datasets `v`: `on_delete=CASCADE`. */
  function EquipmentWithout(es: seq<Equipment>, v: set<DatasetId>): (r: seq<Equipment>)
    ensures forall e :: e in r <==> e in es && e.datasetId !in v
  {
    if |es| == 0 then []
    else (if es[0].datasetId in v then [] else [es[0]]) + EquipmentWithout(es[1..], v)
  }

  /** Every Equipment row has its parent Dataset. */
  predicate NoOrphans(ds: seq<Dataset>, es: seq<Equipment>) {
    forall e :: e in es ==> e.datasetId in Ids(ds)
  }

  /** Keys of `user_datasets[5:]`, deleted when the user has more than five. */
  function Victims(s: seq<Dataset>, u: UserId): set<DatasetId> {
    var t := NewestFirst(OwnedBy(s, u));
    if |t| > HistoryLimit then Ids(t[HistoryLimit..]) else {}
  }

  /** The store after the retention loop has run for `u`. */
  function Retain(s: seq<Dataset>, u: UserId): seq<Dataset> {
    Without(s, Victims(s, u))
  }

  // ---- one step of each filter ----

  lemma OwnedByCons(x: Dataset, t: seq<Dataset>, u: UserId)
    ensures x.owner == u ==> OwnedBy([x] + t, u) == [x] + OwnedBy(t, u)
    ensures x.owner != u ==> OwnedBy([x] + t, u) == OwnedBy(t, u)
  {
    assert ([x] + t)[0] == x && ([x] + t)[1..] == t;
    assert [] + OwnedBy(t, u) == OwnedBy(t, u);
  }

  lemma WithoutCons(x: Dataset, t: seq<Dataset>, v: set<DatasetId>)
    ensures x.id !in v ==> Without([x] + t, v) == [x] + Without(t, v)
    ensures x.id in v ==> Without([x] + t, v) == Without(t, v)
  {
    assert ([x] + t)[0] == x && ([x] + t)[1..] == t;
    assert [] + Without(t, v) == Without(t, v);
  }

  lemma EquipmentWithoutCons(x: Equipment, t: seq<Equipment>, v: set<DatasetId>)
    ensures x.datasetId !in v ==> EquipmentWithout([x] + t, v) == [x] + EquipmentWithout(t, v)
    ensures x.datasetId in v ==> EquipmentWithout([x] + t, v) == EquipmentWithout(t, v)
  {
    assert ([x] + t)[0] == x && ([x] + t)[1..] == t;
    assert [] + EquipmentWithout(t, v) == EquipmentWithout(t, v);
  }

  lemma UniqueCons(x: Dataset, t: seq<Dataset>)
    ensures UniqueIds([x] + t) <==> x.id !in Ids(t) && UniqueIds(t)
  {
    assert ([x] + t)[0] == x && ([x] + t)[1..] == t;
  }

  // ---- facts about keys ----

  lemma {:induction false} IdsCons(s: seq<Dataset>)
    requires |s| > 0
    ensures Ids(s) == {s[0].id} + Ids(s[1..])
  {
    assert s == [s[0]] + s[1..];
    forall k | k in Ids(s) ensures k in {s[0].id} + Ids(s[1..]) {
      var d :| d in s && d.id == k;
      if d != s[0] {
        assert d in s[1..];
      }
    }
  }

  lemma IdsSnoc(s: seq<Dataset>, x: Dataset)
    ensures Ids(s + [x]) == Ids(s) + {x.id}
  {
    assert forall d :: d in s + [x] <==> d in s || d == x;
  }

  lemma {:induction false} IdsCard(s: seq<Dataset>)
    ensures |Ids(s)| <= |s|
    ensures UniqueIds(s) <==> |Ids(s)| == |s|
  {
    if |s| == 0 {
      assert Ids(s) == {};
    } else {
      IdsCons(s);
      IdsCard(s[1..]);
    }
  }

  lemma PermIds(a: seq<Dataset>, b: seq<Dataset>)
    requires multiset(a) == multiset(b)
    ensures Ids(a) == Ids(b) && |a| == |b|
    ensures forall d :: d in a <==> d in b
  {
    assert forall d :: d in a <==> d in multiset(a);
    assert forall d :: d in b <==> d in multiset(b);
    assert |a| == |multiset(a)|;
  }

  lemma PermUnique(a: seq<Dataset>, b: seq<Dataset>)
    requires multiset(a) == multiset(b)
    requires UniqueIds(a)
    ensures UniqueIds(b)
  {
    PermIds(a, b);
    IdsCard(a);
    IdsCard(b);
  }

  lemma {:induction false} UniqueSameId(s: seq<Dataset>, a: Dataset, b: Dataset)
    requires UniqueIds(s)
    requires a in s && b in s && a.id == b.id
    ensures a == b
  {
    assert s == [s[0]] + s[1..];
    if a != s[0] && b != s[0] {
      UniqueSameId(s[1..], a, b);
    }
  }

  lemma {:induction false} UniqueSplit(a: seq<Dataset>, b: seq<Dataset>)
    requires UniqueIds(a + b)
    ensures Ids(a) !! Ids(b)
  {
    if |a| > 0 {
      assert (a + b)[1..] == a[1..] + b;
      assert Ids(b) <= Ids(a[1..] + b);
      IdsCons(a);
      UniqueSplit(a[1..], b);
    }
  }

  lemma {:induction false} UniqueAppend(s: seq<Dataset>, d: Dataset)
    requires UniqueIds(s)
    requires d.id !in Ids(s)
    ensures UniqueIds(s + [d])
  {
    if |s| > 0 {
      assert (s + [d])[1..] == s[1..] + [d];
      IdsCons(s);
      UniqueAppend(s[1..], d);
    }
  }

  lemma {:induction false} UniqueOwnedBy(s: seq<Dataset>, u: UserId)
    requires UniqueIds(s)
    ensures UniqueIds(OwnedBy(s, u))
  {
    if |s| > 0 {
      var x, t := s[0], s[1..];
      assert s == [x] + t;
      UniqueCons(x, t);
      UniqueOwnedBy(t, u);
      OwnedByCons(x, t, u);
      if x.owner == u {
        var rest := OwnedBy(t, u);
        UniqueCons(x, rest);
      }
    }
  }

  lemma {:induction false} UniqueWithout(s: seq<Dataset>, v: set<DatasetId>)
    requires UniqueIds(s)
    ensures UniqueIds(Without(s, v))
  {
    if |s| > 0 {
      var x, t := s[0], s[1..];
      assert s == [x] + t;
      UniqueCons(x, t);
      UniqueWithout(t, v);
      WithoutCons(x, t, v);
      if x.id !in v {
        var rest := Without(t, v);
        UniqueCons(x, rest);
      }
    }
  }

  // ---- facts about deletion ----

  lemma {:induction false} WithoutConcat(a: seq<Dataset>, b: seq<Dataset>, v: set<DatasetId>)
    ensures Without(a + b, v) == Without(a, v) + Without(b, v)
  {
    if |a| > 0 {
      var x, t := a[0], a[1..];
      assert a == [x] + t;
      assert a + b == [x] + (t + b);
      WithoutCons(x, t, v);
      WithoutCons(x, t + b, v);
      WithoutConcat(t, b, v);
    } else {
      assert a + b == b;
    }
  }

  lemma {:induction false} WithoutKeepsAll(s: seq<Dataset>, v: set<DatasetId>)
    requires forall d :: d in s ==> d.id !in v
    ensures Without(s, v) == s
  {
    if |s| > 0 {
      WithoutKeepsAll(s[1..], v);
      assert s == [s[0]] + s[1..];
    }
  }

  lemma {:induction false} WithoutCovered(s: seq<Dataset>, v: set<DatasetId>)
    requires forall d :: d in s ==> d.id in v
    ensures Without(s, v) == []
  {
    if |s| > 0 {
      assert s == [s[0]] + s[1..];
      WithoutCons(s[0], s[1..], v);
      WithoutCovered(s[1..], v);
    }
  }

  lemma {:induction false} WithoutCount(s: seq<Dataset>, v: set<DatasetId>, x: Dataset)
    ensures multiset(Without(s, v))[x] == if x.id in v then 0 else multiset(s)[x]
  {
    if |s| > 0 {
      assert s == [s[0]] + s[1..];
      WithoutCount(s[1..], v, x);
    }
  }

  lemma WithoutPerm(a: seq<Dataset>, b: seq<Dataset>, v: set<DatasetId>)
    requires multiset(a) == multiset(b)
    ensures |Without(a, v)| == |Without(b, v)|
  {
    forall x ensures multiset(Without(a, v))[x] == multiset(Without(b, v))[x] {
      WithoutCount(a, v, x);
      WithoutCount(b, v, x);
    }
    assert multiset(Without(a, v)) == multiset(Without(b, v));
    assert |Without(a, v)| == |multiset(Without(a, v))|;
    assert |Without(b, v)| == |multiset(Without(b, v))|;
  }

  lemma {:induction false} OwnedByWithout(s: seq<Dataset>, u: UserId, v: set<DatasetId>)
    ensures OwnedBy(Without(s, v), u) == Without(OwnedBy(s, u), v)
  {
    if |s| > 0 {
      var x, t := s[0], s[1..];
      assert s == [x] + t;
      OwnedByWithout(t, u, v);
      WithoutCons(x, t, v);
      OwnedByCons(x, t, u);
      if x.id !in v {
        OwnedByCons(x, Without(t, v), u);
      }
      if x.owner == u {
        WithoutCons(x, OwnedBy(t, u), v);
      }
    }
  }

  lemma {:induction false} WithoutTwice(s: seq<Dataset>, a: set<DatasetId>, b: set<DatasetId>)
    ensures Without(Without(s, a), b) == Without(s, a + b)
  {
    if |s| > 0 {
      var x, t := s[0], s[1..];
      assert s == [x] + t;
      WithoutTwice(t, a, b);
      WithoutCons(x, t, a);
      WithoutCons(x, t, a + b);
      if x.id !in a {
        WithoutCons(x, Without(t, a), b);
      }
    }
  }

  lemma {:induction false} EquipmentWithoutNothing(es: seq<Equipment>)
    ensures EquipmentWithout(es, {}) == es
  {
    if |es| > 0 {
      assert es == [es[0]] + es[1..];
      EquipmentWithoutCons(es[0], es[1..], {});
      EquipmentWithoutNothing(es[1..]);
    }
  }

  lemma {:induction false} EquipmentWithoutTwice(es: seq<Equipment>, a: set<DatasetId>, b: set<DatasetId>)
    ensures EquipmentWithout(EquipmentWithout(es, a), b) == EquipmentWithout(es, a + b)
  {
    if |es| > 0 {
      var x, t := es[0], es[1..];
      assert es == [x] + t;
      EquipmentWithoutTwice(t, a, b);
      EquipmentWithoutCons(x, t, a);
      EquipmentWithoutCons(x, t, a + b);
      if x.datasetId !in a {
        EquipmentWithoutCons(x, EquipmentWithout(t, a), b);
      }
    }
  }

  /** Deleting `t[i]` after `t[lo..i]` is deleting `t[lo..i+1]`, for both tables. */
  lemma DeleteNext(ds: seq<Dataset>, es: seq<Equipment>, t: seq<Dataset>, lo: nat, i: nat)
    requires lo <= i < |t|
    ensures Without(Without(ds, Ids(t[lo..i])), {t[i].id}) == Without(ds, Ids(t[lo..i + 1]))
    ensures EquipmentWithout(EquipmentWithout(es, Ids(t[lo..i])), {t[i].id})
      == EquipmentWithout(es, Ids(t[lo..i + 1]))
  {
    WithoutTwice(ds, Ids(t[lo..i]), {t[i].id});
    EquipmentWithoutTwice(es, Ids(t[lo..i]), {t[i].id});
    assert t[lo..i + 1] == t[lo..i] + [t[i]];
    IdsSnoc(t[lo..i], t[i]);
  }

  /** Deleting every dataset of `u` leaves `u` with none. */
  lemma WithoutAllOwned(s: seq<Dataset>, u: UserId)
    ensures OwnedBy(Without(s, Ids(OwnedBy(s, u))), u) == []
  {
    OwnedByWithout(s, u, Ids(OwnedBy(s, u)));
    WithoutCovered(OwnedBy(s, u), Ids(OwnedBy(s, u)));
  }

  /** Deleting datasets together with their equipment leaves no orphan. */
  lemma CascadeNoOrphans(ds: seq<Dataset>, es: seq<Equipment>, v: set<DatasetId>)
    requires NoOrphans(ds, es)
    ensures NoOrphans(Without(ds, v), EquipmentWithout(es, v))
  {
  }

  // ---- the history slice ----

  /**
   * `Dataset.objects.filter(user=u)[:5]` under the newest-first ordering:
   * at most five of the user's datasets, newest first, and none left out is
   * newer than one listed.
   */
  function LatestFive(s: seq<Dataset>, u: UserId): (r: seq<Dataset>)
    ensures |r| == if |OwnedBy(s, u)| > HistoryLimit then HistoryLimit else |OwnedBy(s, u)|
    ensures forall d :: d in r ==> d in s && d.owner == u
    ensures multiset(r) <= multiset(OwnedBy(s, u))
    ensures Sorted(r, Newer)
    ensures forall x, y :: x in s && x.owner == u && x !in r && y in r ==> y.uploadedAt >= x.uploadedAt
  {
    var owned := OwnedBy(s, u);
    var t := NewestFirst(owned);
    PermIds(owned, t);
    var r := if |t| > HistoryLimit then t[..HistoryLimit] else t;
    assert |t| > HistoryLimit ==> t == t[..HistoryLimit] + t[HistoryLimit..];
    forall x, y | x in s && x.owner == u && x !in r && y in r
      ensures y.uploadedAt >= x.uploadedAt
    {
      var j :| 0 <= j < |t| && t[j] == x;
      var i :| 0 <= i < |r| && r[i] == y;
      NewestFirstMonotone(t, i, j);
    }
    r
  }

  // ---- the retention rule ----

  lemma VictimsOwned(s: seq<Dataset>, u: UserId)
    ensures Victims(s, u) <= Ids(OwnedBy(s, u))
  {
    var owned := OwnedBy(s, u);
    var t := NewestFirst(owned);
    PermIds(owned, t);
    if |t| > HistoryLimit {
      assert t == t[..HistoryLimit] + t[HistoryLimit..];
    }
  }

  /** Deleting the keys of everything past the first five of a key-unique list keeps the first five. */
  lemma KeepHead(t: seq<Dataset>)
    requires UniqueIds(t)
    requires |t| > HistoryLimit
    ensures Without(t, Ids(t[HistoryLimit..])) == t[..HistoryLimit]
  {
    var head, tail := t[..HistoryLimit], t[HistoryLimit..];
    var v := Ids(tail);
    assert t == head + tail;
    UniqueSplit(head, tail);
    WithoutConcat(head, tail, v);
    WithoutKeepsAll(head, v);
    WithoutCovered(tail, v);
  }

  /** After retention the user holds five datasets, or all of them if there were fewer. */
  lemma RetainCount(s: seq<Dataset>, u: UserId)
    requires UniqueIds(s)
    ensures |OwnedBy(Retain(s, u), u)| ==
      if |OwnedBy(s, u)| > HistoryLimit then HistoryLimit else |OwnedBy(s, u)|
  {
    var owned := OwnedBy(s, u);
    var t := NewestFirst(owned);
    var v := Victims(s, u);
    OwnedByWithout(s, u, v);
    assert |OwnedBy(Retain(s, u), u)| == |Without(owned, v)|;
    WithoutPerm(owned, t, v);
    assert |t| == |owned| by {
      assert |multiset(t)| == |t|;
    }
    if |t| > HistoryLimit {
      UniqueOwnedBy(s, u);
      PermUnique(owned, t);
      KeepHead(t);
    } else {
      assert v == {};
      WithoutKeepsAll(t, v);
    }
  }

  /** Retention deletes nothing when the user has five datasets or fewer. */
  lemma RetainFew(s: seq<Dataset>, u: UserId)
    requires |OwnedBy(s, u)| <= HistoryLimit
    ensures Retain(s, u) == s
  {
    PermIds(OwnedBy(s, u), NewestFirst(OwnedBy(s, u)));
    WithoutKeepsAll(s, {});
  }

  /** Deleting some of `u`'s datasets leaves every other user's datasets as they were. */
  lemma WithoutOthers(s: seq<Dataset>, u: UserId, w: UserId, v: set<DatasetId>)
    requires UniqueIds(s)
    requires v <= Ids(OwnedBy(s, u))
    requires w != u
    ensures OwnedBy(Without(s, v), w) == OwnedBy(s, w)
  {
    OwnedByWithout(s, w, v);
    forall d | d in OwnedBy(s, w) ensures d.id !in v {
      if d.id in v {
        var e :| e in OwnedBy(s, u) && e.id == d.id;
        UniqueSameId(s, d, e);
      }
    }
    WithoutKeepsAll(OwnedBy(s, w), v);
  }

  /** Retention never touches another user's datasets. */
  lemma RetainOthers(s: seq<Dataset>, u: UserId, w: UserId)
    requires UniqueIds(s)
    requires w != u
    ensures OwnedBy(Retain(s, u), w) == OwnedBy(s, w)
  {
    VictimsOwned(s, u);
    WithoutOthers(s, u, w, Victims(s, u));
  }

  /** A deleted dataset is the user's, and sits past the fifth place of the newest-first listing. */
  lemma VictimPosition(s: seq<Dataset>, u: UserId, d: Dataset) returns (j: nat)
    requires UniqueIds(s)
    requires d in s && d !in Retain(s, u)
    ensures d.owner == u
    ensures HistoryLimit <= j < |NewestFirst(OwnedBy(s, u))| && NewestFirst(OwnedBy(s, u))[j] == d
  {
    var owned := OwnedBy(s, u);
    var t := NewestFirst(owned);
    PermIds(owned, t);
    var tail := t[HistoryLimit..];
    assert d.id in Ids(tail);
    var e :| e in tail && e.id == d.id;
    var m :| 0 <= m < |tail| && tail[m] == e;
    j := m + HistoryLimit;
    assert t[j] == e;
    UniqueSameId(s, e, d);
  }

  /** A kept dataset of the user sits within the first five places of the newest-first listing. */
  lemma KeptPosition(s: seq<Dataset>, u: UserId, k: Dataset) returns (i: nat)
    requires k in Retain(s, u) && k.owner == u
    requires |OwnedBy(s, u)| > HistoryLimit
    ensures i < HistoryLimit && i < |NewestFirst(OwnedBy(s, u))| && NewestFirst(OwnedBy(s, u))[i] == k
  {
    var owned := OwnedBy(s, u);
    var t := NewestFirst(owned);
    PermIds(owned, t);
    i :| 0 <= i < |t| && t[i] == k;
  }

  /**
   * Retention keeps the newest: only the user's datasets are deleted, and
   * every kept dataset of the user was uploaded no earlier than every deleted one.
   */
  lemma RetainKeepsLatest(s: seq<Dataset>, u: UserId)
    requires UniqueIds(s)
    ensures forall d :: d in s && d !in Retain(s, u) ==> d.owner == u
    ensures forall k, d ::
      (k in Retain(s, u) && k.owner == u && d in s && d !in Retain(s, u)) ==> k.uploadedAt >= d.uploadedAt
  {
    forall d | d in s && d !in Retain(s, u) ensures d.owner == u {
      var _ := VictimPosition(s, u, d);
    }
    forall k, d | k in Retain(s, u) && k.owner == u && d in s && d !in Retain(s, u)
      ensures k.uploadedAt >= d.uploadedAt
    {
      KeptNoOlder(s, u, k, d);
    }
  }

  lemma KeptNoOlder(s: seq<Dataset>, u: UserId, k: Dataset, d: Dataset)
    requires UniqueIds(s)
    requires k in Retain(s, u) && k.owner == u
    requires d in s && d !in Retain(s, u)
    ensures k.uploadedAt >= d.uploadedAt
  {
    var t := NewestFirst(OwnedBy(s, u));
    var j := VictimPosition(s, u, d);
    PermIds(OwnedBy(s, u), t);
    var i := KeptPosition(s, u, k);
    NewestFirstMonotone(t, i, j);
  }

  /** The strictly newest dataset of a user is never past the fifth place, so retention keeps it. */
  lemma NewestSurvives(s: seq<Dataset>, u: UserId, d: Dataset)
    requires UniqueIds(s)
    requires d in s && d.owner == u
    requires forall e :: e in s && e != d ==> !Newer(e, d)
    ensures d in Retain(s, u)
  {
    var owned := OwnedBy(s, u);
    var t := NewestFirst(owned);
    PermIds(owned, t);
    StrictlyFirst(t, Newer, d);
    if d !in Retain(s, u) {
      var j := VictimPosition(s, u, d);
      UniqueOwnedBy(s, u);
      PermUnique(owned, t);
    }
  }

  /**
   * A dataset that is newer than everything else in the store survives
   * retention and is listed in the user's history.
   */
  lemma RetainKeepsNewest(s: seq<Dataset>, u: UserId, d: Dataset)
    requires UniqueIds(s)
    requires d in s && d.owner == u
    requires forall e :: e in s && e != d ==> !Newer(e, d)
    ensures d in Retain(s, u)
    ensures d in LatestFive(Retain(s, u), u)
  {
    NewestSurvives(s, u, d);
    var owned := OwnedBy(Retain(s, u), u);
    var t := NewestFirst(owned);
    PermIds(owned, t);
    StrictlyFirst(t, Newer, d);
    assert LatestFive(Retain(s, u), u)[0] == d;
  }
}
