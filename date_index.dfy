/**
 * The date index `CALENDAR_DAYS_STATE` of src/main.ts as a value: a map from
 * ISO date strings to the items of that day, with the two primitives that
 * change it (append one item to a day, drop every item of a path) and the
 * combination of both that each document event performs.
 */
module DateIndex {
  import opened Types

  /** One (date, item) association produced by an extraction strategy. */
  datatype Entry = Entry(date: string, item: CalendarItem)

  /** No date key maps to an empty list. */
  predicate NoEmptyBuckets(m: CalendarDaysMap) {
    forall k :: k in m ==> m[k] != []
  }

  /** The items of day `d`, empty when the day has no key. */
  function Bucket(m: CalendarDaysMap, d: string): seq<CalendarItem> {
    if d in m then m[d] else []
  }

  /**
   * Appending `item` to the bucket of `date` (src/main.ts:130-134 and every
   * `[...map[d], item]` / `[item]` pair in the strategies): the item goes at
   * the end of the day's list, the day is created if absent, and no other
   * day changes.
   */
  function Add(m: CalendarDaysMap, date: string, item: CalendarItem): (r: CalendarDaysMap)
    ensures Bucket(r, date) == Bucket(m, date) + [item]
    ensures r.Keys == m.Keys + {date}
    ensures forall k :: k in m && k != date ==> r[k] == m[k]
    ensures NoEmptyBuckets(m) ==> NoEmptyBuckets(r)
  {
    if date in m then m[date := m[date] + [item]] else m[date := [item]]
  }

  /** Adding a sequence of entries, one after the other. */
  function AddAll(m: CalendarDaysMap, es: seq<Entry>): CalendarDaysMap {
    if es == [] then m
    else
      var n := |es| - 1;
      Add(AddAll(m, es[..n]), es[n].date, es[n].item)
  }

  /** The items of the entries dated `d`, in the order of the entries. */
  function ItemsOn(es: seq<Entry>, d: string): seq<CalendarItem> {
    if es == [] then []
    else
      var n := |es| - 1;
      ItemsOn(es[..n], d) + (if es[n].date == d then [es[n].item] else [])
  }

  /**
   * What adding a sequence of entries does to each day: the items of the
   * entries dated `d` are appended to `d`'s bucket, in order, and a day has a
   * key afterwards exactly when it had one or gained an item.
   */
  lemma {:induction false} AddAllBucket(m: CalendarDaysMap, es: seq<Entry>, d: string)
    ensures Bucket(AddAll(m, es), d) == Bucket(m, d) + ItemsOn(es, d)
    ensures d in AddAll(m, es) <==> d in m || ItemsOn(es, d) != []
  {
    if es != [] {
      var n := |es| - 1;
      AddAllBucket(m, es[..n], d);
    }
  }

  lemma {:induction false} ItemsOnConcat(a: seq<Entry>, b: seq<Entry>, d: string)
    ensures ItemsOn(a + b, d) == ItemsOn(a, d) + ItemsOn(b, d)
    decreases |b|
  {
    if b == [] {
      assert a + b == a;
    } else {
      var n := |b| - 1;
      assert (a + b)[..|a + b| - 1] == a + b[..n];
      ItemsOnConcat(a, b[..n], d);
    }
  }

  /** Each item listed for day `d` comes from an entry dated `d`. */
  lemma {:induction false} ItemsOnMember(es: seq<Entry>, d: string, x: CalendarItem)
    requires x in ItemsOn(es, d)
    ensures exists i :: 0 <= i < |es| && es[i].date == d && es[i].item == x
  {
    var n := |es| - 1;
    if x in ItemsOn(es[..n], d) {
      ItemsOnMember(es[..n], d, x);
      var i :| 0 <= i < n && es[..n][i].date == d && es[..n][i].item == x;
      assert es[i] == es[..n][i];
    } else {
      assert es[n].date == d && es[n].item == x;
    }
  }

  lemma {:induction false} AddAllNoEmpty(m: CalendarDaysMap, es: seq<Entry>)
    requires NoEmptyBuckets(m)
    ensures NoEmptyBuckets(AddAll(m, es))
  {
    if es != [] {
      AddAllNoEmpty(m, es[..|es| - 1]);
    }
  }

  lemma {:induction false} AddAllConcat(m: CalendarDaysMap, a: seq<Entry>, b: seq<Entry>)
    ensures AddAll(m, a + b) == AddAll(AddAll(m, a), b)
    decreases |b|
  {
    if b == [] {
      assert a + b == a;
    } else {
      var n := |b| - 1;
      assert (a + b)[..|a + b| - 1] == a + b[..n];
      AddAllConcat(m, a, b[..n]);
    }
  }

  /** Adding one more entry at the end is one more `Add`. */
  lemma AddAllSnoc(m: CalendarDaysMap, es: seq<Entry>, e: Entry)
    ensures AddAll(m, es + [e]) == Add(AddAll(m, es), e.date, e.item)
  {
    assert (es + [e])[..|es|] == es;
  }

  predicate HasItemWithPath(s: seq<CalendarItem>, p: string) {
    exists x :: x in s && x.path == p
  }

  /** `items.filter((item) => item.path !== p)`. */
  function Without(s: seq<CalendarItem>, p: string): (r: seq<CalendarItem>)
    ensures forall x :: x in r <==> x in s && x.path != p
    ensures |r| <= |s|
    ensures |r| == |s| <==> !HasItemWithPath(s, p)
  {
    if s == [] then []
    else (if s[0].path == p then [] else [s[0]]) + Without(s[1..], p)
  }

  /** The items of path `q`, in order. */
  function Only(s: seq<CalendarItem>, q: string): (r: seq<CalendarItem>)
    ensures forall x :: x in r <==> x in s && x.path == q
  {
    if s == [] then []
    else (if s[0].path == q then [s[0]] else []) + Only(s[1..], q)
  }

  lemma {:induction false} WithoutConcat(a: seq<CalendarItem>, b: seq<CalendarItem>, p: string)
    ensures Without(a + b, p) == Without(a, p) + Without(b, p)
  {
    if a != [] {
      assert (a + b)[1..] == a[1..] + b;
      WithoutConcat(a[1..], b, p);
    } else {
      assert a + b == b;
    }
  }

  lemma {:induction false} OnlyConcat(a: seq<CalendarItem>, b: seq<CalendarItem>, q: string)
    ensures Only(a + b, q) == Only(a, q) + Only(b, q)
  {
    if a != [] {
      assert (a + b)[1..] == a[1..] + b;
      OnlyConcat(a[1..], b, q);
    } else {
      assert a + b == b;
    }
  }

  /** Filtering out a path leaves the list of every other path exactly as it was. */
  lemma {:induction false} OnlyWithout(s: seq<CalendarItem>, p: string, q: string)
    requires p != q
    ensures Only(Without(s, p), q) == Only(s, q)
  {
    if s != [] {
      OnlyWithout(s[1..], p, q);
      OnlyConcat(if s[0].path == p then [] else [s[0]], Without(s[1..], p), q);
    }
  }

  /** A list without items of `p` is left as it is. */
  lemma {:induction false} WithoutNothing(s: seq<CalendarItem>, p: string)
    requires !HasItemWithPath(s, p)
    ensures Without(s, p) == s
  {
    if s != [] {
      assert s[0] in s;
      assert forall x :: x in s[1..] ==> x in s;
      WithoutNothing(s[1..], p);
      assert [s[0]] + s[1..] == s;
    }
  }

  /** Some bucket holds an item of path `p`. */
  predicate HasPath(m: CalendarDaysMap, p: string) {
    exists k :: k in m && HasItemWithPath(m[k], p)
  }

  /** A bucket that held items of `p` and held nothing else. */
  predicate EmptiedBy(s: seq<CalendarItem>, p: string) {
    HasItemWithPath(s, p) && Without(s, p) == []
  }

  /**
   * `removeFilePathFromState` (src/main.ts:147-163) as a value: every bucket
   * that holds an item of `p` is filtered, and deleted if that leaves it
   * empty; buckets without such an item are not touched.
   */
  function RemovePath(m: CalendarDaysMap, p: string): (r: CalendarDaysMap)
    ensures forall k :: k in r <==> k in m && !EmptiedBy(m[k], p)
    ensures forall k :: k in r ==> r[k] == Without(m[k], p)
  {
    map k | k in m && !EmptiedBy(m[k], p) :: Without(m[k], p)
  }

  /** Removal completeness: no bucket holds an item of `p` afterwards. */
  lemma RemovalComplete(m: CalendarDaysMap, p: string)
    ensures !HasPath(RemovePath(m, p), p)
  {
    var r := RemovePath(m, p);
    forall k | k in r ensures !HasItemWithPath(r[k], p) {
      assert r[k] == Without(m[k], p);
    }
  }

  /** Removal deletes each bucket it empties, so it keeps "no empty bucket". */
  lemma {:induction false} RemovePathNoEmpty(m: CalendarDaysMap, p: string)
    requires NoEmptyBuckets(m)
    ensures NoEmptyBuckets(RemovePath(m, p))
  {
    var r := RemovePath(m, p);
    forall k | k in r ensures r[k] != [] {
      assert |Without(m[k], p)| < |m[k]| ==> HasItemWithPath(m[k], p);
    }
  }

  /**
   * Removal leaves a bucket without items of `p` as it was, and keeps the
   * items of every other path in every day, in their relative order.
   */
  lemma {:induction false} RemovePathKeepsOthers(m: CalendarDaysMap, p: string, q: string, d: string)
    requires q != p
    ensures d in m && !HasItemWithPath(m[d], p) ==> d in RemovePath(m, p) && RemovePath(m, p)[d] == m[d]
    ensures Only(Bucket(RemovePath(m, p), d), q) == Only(Bucket(m, d), q)
  {
    if d in m {
      OnlyWithout(m[d], p, q);
      if !HasItemWithPath(m[d], p) {
        WithoutNothing(m[d], p);
      }
      if EmptiedBy(m[d], p) {
        assert Only(Without(m[d], p), q) == [];
      }
    }
  }

  /** The change flag of removal: the map changes exactly when it held an item of `p`. */
  lemma {:induction false} RemovePathChanged(m: CalendarDaysMap, p: string)
    ensures RemovePath(m, p) != m <==> HasPath(m, p)
  {
    var r := RemovePath(m, p);
    if HasPath(m, p) {
      var k :| k in m && HasItemWithPath(m[k], p);
      assert k !in r || |r[k]| < |m[k]|;
    } else {
      forall k | k in m ensures k in r && r[k] == m[k] {
        WithoutNothing(m[k], p);
      }
      assert r == m;
    }
  }

  lemma RemovePathIdempotent(m: CalendarDaysMap, p: string)
    ensures RemovePath(RemovePath(m, p), p) == RemovePath(m, p)
  {
    RemovalComplete(m, p);
    RemovePathChanged(RemovePath(m, p), p);
  }

  /** Adding entries of other paths never brings path `p` back. */
  lemma AddAllAbsent(m: CalendarDaysMap, es: seq<Entry>, p: string)
    requires !HasPath(m, p)
    requires forall i :: 0 <= i < |es| ==> es[i].item.path != p
    ensures !HasPath(AddAll(m, es), p)
  {
    var r := AddAll(m, es);
    forall k | k in r ensures !HasItemWithPath(r[k], p) {
      AddAllBucket(m, es, k);
      forall x | x in ItemsOn(es, k) ensures x.path != p {
        ItemsOnMember(es, k, x);
      }
      assert r[k] == Bucket(m, k) + ItemsOn(es, k);
    }
  }

  predicate AllOfPath(es: seq<Entry>, p: string) {
    forall i :: 0 <= i < |es| ==> es[i].item.path == p
  }

  lemma AddedBucket(m: CalendarDaysMap, p: string, d: string, x: CalendarItem)
    requires x.path == p
    ensures Without(Add(m, d, x)[d], p) == Without(Bucket(m, d), p)
    ensures HasItemWithPath(Add(m, d, x)[d], p)
  {
    WithoutConcat(Bucket(m, d), [x], p);
    assert Without([x], p) == [];
    assert x in Add(m, d, x)[d];
  }

  lemma RemoveAfterAddKeys(m: CalendarDaysMap, p: string, d: string, x: CalendarItem)
    requires NoEmptyBuckets(m)
    requires x.path == p
    ensures forall k :: k in RemovePath(Add(m, d, x), p) <==> k in RemovePath(m, p)
  {
    var after := Add(m, d, x);
    var r1, r2 := RemovePath(after, p), RemovePath(m, p);
    AddedBucket(m, p, d, x);
    assert d in r1 <==> d in r2 by {
      if d in m {
        assert m[d][0] in m[d];
        assert EmptiedBy(m[d], p) <==> Without(m[d], p) == [];
      }
    }
    forall k | k != d ensures k in r1 <==> k in r2 {
      assert k in after <==> k in m;
      assert k in m ==> after[k] == m[k];
    }
  }

  lemma RemoveAfterAddValues(m: CalendarDaysMap, p: string, d: string, x: CalendarItem)
    requires NoEmptyBuckets(m)
    requires x.path == p
    ensures forall k :: k in RemovePath(Add(m, d, x), p) && k in RemovePath(m, p) ==>
                          RemovePath(Add(m, d, x), p)[k] == RemovePath(m, p)[k]
  {
    var r1, r2 := RemovePath(Add(m, d, x), p), RemovePath(m, p);
    AddedBucket(m, p, d, x);
    forall k | k in r1 && k in r2 ensures r1[k] == r2[k] {
      if k != d {
        assert Add(m, d, x)[k] == m[k];
      }
    }
  }

  /** Removing `p` forgets an item of `p` just added. */
  lemma RemoveAfterAdd(m: CalendarDaysMap, p: string, d: string, x: CalendarItem)
    requires NoEmptyBuckets(m)
    requires x.path == p
    ensures RemovePath(Add(m, d, x), p) == RemovePath(m, p)
  {
    RemoveAfterAddKeys(m, p, d, x);
    RemoveAfterAddValues(m, p, d, x);
  }

  /** Removing `p` forgets every entry of `p` added since. */
  lemma {:induction false} RemoveAfterAddAll(m: CalendarDaysMap, p: string, es: seq<Entry>)
    requires NoEmptyBuckets(m)
    requires AllOfPath(es, p)
    ensures RemovePath(AddAll(m, es), p) == RemovePath(m, p)
  {
    if es != [] {
      var n := |es| - 1;
      RemoveAfterAddAll(m, p, es[..n]);
      AddAllNoEmpty(m, es[..n]);
      RemoveAfterAdd(AddAll(m, es[..n]), p, es[n].date, es[n].item);
    }
  }

  /**
   * The per-document reconciliation of every event handler: drop the path,
   * then add what the strategies found for it.
   */
  function Upsert(m: CalendarDaysMap, p: string, es: seq<Entry>): CalendarDaysMap {
    AddAll(RemovePath(m, p), es)
  }

  /** Reconciling the same document twice gives the index of reconciling it once. */
  lemma UpsertIdempotent(m: CalendarDaysMap, p: string, es: seq<Entry>)
    requires NoEmptyBuckets(m)
    requires AllOfPath(es, p)
    ensures Upsert(Upsert(m, p, es), p, es) == Upsert(m, p, es)
  {
    RemovePathNoEmpty(m, p);
    RemoveAfterAddAll(RemovePath(m, p), p, es);
    RemovePathIdempotent(m, p);
  }

  lemma {:induction false} OnlyItemsOn(es: seq<Entry>, p: string, q: string, d: string)
    requires AllOfPath(es, p)
    ensures Only(ItemsOn(es, d), q) == if p == q then ItemsOn(es, d) else []
  {
    if es != [] {
      var n := |es| - 1;
      OnlyItemsOn(es[..n], p, q, d);
      var last := if es[n].date == d then [es[n].item] else [];
      OnlyConcat(ItemsOn(es[..n], d), last, q);
    }
  }

  lemma {:induction false} OnlyNone(s: seq<CalendarItem>, q: string)
    requires !HasItemWithPath(s, q)
    ensures Only(s, q) == []
  {
    if Only(s, q) != [] {
      assert Only(s, q)[0] in Only(s, q);
    }
  }

  /** After reconciling path `p`, the items of `p` in day `d` are exactly the new entries dated `d`, in order. */
  lemma UpsertOwnPath(m: CalendarDaysMap, p: string, es: seq<Entry>, d: string)
    requires AllOfPath(es, p)
    ensures Only(Bucket(Upsert(m, p, es), d), p) == ItemsOn(es, d)
  {
    var r := RemovePath(m, p);
    AddAllBucket(r, es, d);
    OnlyConcat(Bucket(r, d), ItemsOn(es, d), p);
    OnlyItemsOn(es, p, p, d);
    RemovalComplete(m, p);
    assert !HasItemWithPath(Bucket(r, d), p);
    OnlyNone(Bucket(r, d), p);
  }

  /** Reconciling path `p` leaves the items of every other path in every day as they were. */
  lemma UpsertOtherPaths(m: CalendarDaysMap, p: string, es: seq<Entry>, q: string, d: string)
    requires AllOfPath(es, p)
    requires q != p
    ensures Only(Bucket(Upsert(m, p, es), d), q) == Only(Bucket(m, d), q)
  {
    var r := RemovePath(m, p);
    AddAllBucket(r, es, d);
    OnlyConcat(Bucket(r, d), ItemsOn(es, d), q);
    OnlyItemsOn(es, p, q, d);
    RemovePathKeepsOthers(m, p, q, d);
  }
}
