/** The bounded search cache of the portal backend. A Python dict keeps its keys in
    insertion order and an update keeps the position, so it is a sequence of entries with
    distinct keys here. Times are in seconds. */
module SearchCache {
  import opened Common

  const TTL: real := 30.0
  const MAX_ENTRIES: nat := 200
  const EVICT: nat := 50

  type Items = seq<string>

  datatype Entry = Entry(key: string, at: real, items: Items)

  // ----- dict operations -----

  function Keys(entries: seq<Entry>): set<string> {
    if entries == [] then {} else {entries[0].key} + Keys(entries[1..])
  }

  predicate DistinctKeys(entries: seq<Entry>) {
    entries == [] || (entries[0].key !in Keys(entries[1..]) && DistinctKeys(entries[1..]))
  }

  function Find(entries: seq<Entry>, key: string): Option<Entry> {
    if entries == [] then None
    else if entries[0].key == key then Some(entries[0])
    else Find(entries[1..], key)
  }

  function Put(entries: seq<Entry>, e: Entry): seq<Entry> {
    if entries == [] then [e]
    else if entries[0].key == e.key then [e] + entries[1..]
    else [entries[0]] + Put(entries[1..], e)
  }

  function Without(entries: seq<Entry>, keys: set<string>): seq<Entry> {
    if entries == [] then []
    else (if entries[0].key in keys then [] else [entries[0]]) + Without(entries[1..], keys)
  }

  // ----- the stable sort by age -----

  function InsertByAge(sorted: seq<Entry>, e: Entry): (r: seq<Entry>)
    ensures |r| == |sorted| + 1
    decreases |sorted|
  {
    if sorted == [] || sorted[|sorted| - 1].at <= e.at then sorted + [e]
    else InsertByAge(sorted[..|sorted| - 1], e) + [sorted[|sorted| - 1]]
  }

  function SortByAge(entries: seq<Entry>): (r: seq<Entry>)
    ensures |r| == |entries|
    decreases |entries|
  {
    if entries == [] then []
    else InsertByAge(SortByAge(entries[..|entries| - 1]), entries[|entries| - 1])
  }

  predicate AgeOrdered(entries: seq<Entry>) {
    forall i, j :: 0 <= i < j < |entries| ==> entries[i].at <= entries[j].at
  }

  // The entries written at time `at`, in order.
  function WrittenAt(entries: seq<Entry>, at: real): seq<Entry>
    decreases |entries|
  {
    if entries == [] then []
    else WrittenAt(entries[..|entries| - 1], at) +
         (if entries[|entries| - 1].at == at then [entries[|entries| - 1]] else [])
  }

  // Being ordered, cut at the last entry.
  lemma OrderedSnoc(init: seq<Entry>, last: Entry)
    ensures AgeOrdered(init + [last]) <==> AgeOrdered(init) && forall x :: x in init ==> x.at <= last.at
  {
    var all := init + [last];
    assert all[|init|] == last && forall i :: 0 <= i < |init| ==> all[i] == init[i];
    if AgeOrdered(all) {
      forall i, j | 0 <= i < j < |init| ensures init[i].at <= init[j].at {
        assert all[i].at <= all[j].at;
      }
      forall x | x in init ensures x.at <= last.at {
        var i :| 0 <= i < |init| && init[i] == x;
        assert all[i].at <= all[|init|].at;
      }
    }
  }

  lemma InsertMembers(sorted: seq<Entry>, r: seq<Entry>, e: Entry)
    requires multiset(r) == multiset(sorted) + multiset{e}
    ensures forall x :: x in r <==> x in sorted || x == e
  {
    assert forall x :: x in r <==> x in multiset(r);
    assert forall x :: x in sorted <==> x in multiset(sorted);
  }

  lemma {:induction false} InsertSorts(sorted: seq<Entry>, e: Entry)
    requires AgeOrdered(sorted)
    ensures AgeOrdered(InsertByAge(sorted, e))
    ensures multiset(InsertByAge(sorted, e)) == multiset(sorted) + multiset{e}
    decreases |sorted|
  {
    if sorted != [] {
      var init, last := sorted[..|sorted| - 1], sorted[|sorted| - 1];
      assert sorted == init + [last];
      OrderedSnoc(init, last);
      if last.at <= e.at {
        OrderedSnoc(sorted, e);
      } else {
        InsertSorts(init, e);
        InsertMembers(init, InsertByAge(init, e), e);
        OrderedSnoc(InsertByAge(init, e), last);
      }
    }
  }

  lemma {:induction false} InsertIsStable(sorted: seq<Entry>, e: Entry, at: real)
    ensures WrittenAt(InsertByAge(sorted, e), at) == WrittenAt(sorted, at) + if e.at == at then [e] else []
    decreases |sorted|
  {
    if sorted == [] || sorted[|sorted| - 1].at <= e.at {
      assert (sorted + [e])[..|sorted|] == sorted;
    } else {
      var init, last := sorted[..|sorted| - 1], sorted[|sorted| - 1];
      InsertIsStable(init, e, at);
      assert (InsertByAge(init, e) + [last])[..|InsertByAge(init, e)|] == InsertByAge(init, e);
    }
  }

  lemma {:induction false} SortOrders(entries: seq<Entry>)
    ensures AgeOrdered(SortByAge(entries))
    ensures multiset(SortByAge(entries)) == multiset(entries)
    decreases |entries|
  {
    if entries != [] {
      var init, last := entries[..|entries| - 1], entries[|entries| - 1];
      SortOrders(init);
      InsertSorts(SortByAge(init), last);
      assert entries == init + [last];
    }
  }

  /** Python's `sorted` by time: ordered, a permutation, and stable. */
  lemma {:induction false} SortIsStable(entries: seq<Entry>, at: real)
    ensures AgeOrdered(SortByAge(entries))
    ensures multiset(SortByAge(entries)) == multiset(entries)
    ensures WrittenAt(SortByAge(entries), at) == WrittenAt(entries, at)
    decreases |entries|
  {
    SortOrders(entries);
    if entries != [] {
      var init, last := entries[..|entries| - 1], entries[|entries| - 1];
      SortIsStable(init, at);
      InsertIsStable(SortByAge(init), last, at);
    }
  }

  // ----- the cache -----

  function Evict(entries: seq<Entry>): seq<Entry> {
    if |entries| <= MAX_ENTRIES then entries
    else Without(entries, Keys(SortByAge(entries)[..EVICT]))
  }

  function SetEntry(entries: seq<Entry>, e: Entry): seq<Entry> {
    Evict(Put(entries, e))
  }

  function GetItems(entries: seq<Entry>, key: string, now: real): Option<Items> {
    match Find(entries, key)
    case Some(e) => if now - e.at < TTL then Some(e.items) else None
    case None => None
  }

  lemma {:induction false} KeysAppend(a: seq<Entry>, b: seq<Entry>)
    ensures Keys(a + b) == Keys(a) + Keys(b)
  {
    if a == [] {
      assert a + b == b;
    } else {
      assert (a + b)[1..] == a[1..] + b;
      KeysAppend(a[1..], b);
    }
  }

  lemma WithoutNothing(entries: seq<Entry>)
    ensures Without(entries, Keys([])) == entries
  {
  }

  lemma {:induction false} WithoutTwice(entries: seq<Entry>, a: set<string>, b: set<string>)
    ensures Without(Without(entries, a), b) == Without(entries, a + b)
  {
    if entries != [] {
      WithoutTwice(entries[1..], a, b);
      var rest := Without(entries[1..], a);
      if entries[0].key in a {
        assert Without(entries, a) == rest;
      } else {
        assert Without(entries, a) == [entries[0]] + rest && ([entries[0]] + rest)[1..] == rest;
      }
    }
  }

  class SearchCache {
    var entries: seq<Entry>

    constructor ()
      ensures entries == []
    {
      entries := [];
    }

    method Get(key: string, now: real) returns (r: Option<Items>)
      ensures r == GetItems(entries, key, now)
    {
      r := None;
      var k := 0;
      while k < |entries|
        invariant 0 <= k <= |entries|
        invariant r == None && Find(entries[k..], key) == Find(entries, key)
      {
        if entries[k].key == key {
          if now - entries[k].at < TTL {
            r := Some(entries[k].items);
          }
          return;
        }
        k := k + 1;
      }
    }

    method Set(key: string, items: Items, now: real)
      modifies this
      ensures entries == SetEntry(old(entries), Entry(key, now, items))
    {
      entries := Put(entries, Entry(key, now, items));
      if |entries| > MAX_ENTRIES {
        var full, oldest := entries, SortByAge(entries)[..EVICT];
        var k := 0;
        WithoutNothing(full);
        while k < |oldest|
          invariant 0 <= k <= |oldest|
          invariant entries == Without(full, Keys(oldest[..k]))
        {
          WithoutTwice(full, Keys(oldest[..k]), {oldest[k].key});
          assert oldest[..k + 1] == oldest[..k] + [oldest[k]];
          KeysAppend(oldest[..k], [oldest[k]]);
          assert Keys([oldest[k]]) == {oldest[k].key};
          entries := Without(entries, {oldest[k].key});
          k := k + 1;
        }
        assert oldest[..k] == oldest;
      }
    }
  }

  // ----- what the dict operations do to a lookup -----

  lemma {:induction false} FindIsMembership(entries: seq<Entry>, key: string)
    ensures Find(entries, key).Some? <==> key in Keys(entries)
    ensures Find(entries, key).Some? ==> Find(entries, key).value in entries && Find(entries, key).value.key == key
    ensures DistinctKeys(entries) ==> forall e :: e in entries && e.key == key ==> Find(entries, key) == Some(e)
  {
    if entries != [] {
      FindIsMembership(entries[1..], key);
      assert entries == [entries[0]] + entries[1..];
    }
  }

  lemma {:induction false} MemberKeys(entries: seq<Entry>)
    ensures forall e :: e in entries ==> e.key in Keys(entries)
    ensures forall key :: key in Keys(entries) ==> exists i :: 0 <= i < |entries| && entries[i].key == key
  {
    forall e | e in entries ensures e.key in Keys(entries) {
      var i :| 0 <= i < |entries| && entries[i] == e;
      KeysAppend(entries[..i], entries[i..]);
      assert entries[..i] + entries[i..] == entries;
    }
    forall key | key in Keys(entries) ensures exists i :: 0 <= i < |entries| && entries[i].key == key {
      FindIsMembership(entries, key);
    }
  }

  /** As in a Python dict, a write to a key that is there keeps the place of the key and all
      other entries, and a new key comes last. */
  lemma {:induction false} PutKeepsPlaces(entries: seq<Entry>, e: Entry)
    requires DistinctKeys(entries)
    ensures var after := Put(entries, e);
      && |after| == |entries| + (if e.key in Keys(entries) then 0 else 1)
      && (forall i :: 0 <= i < |entries| ==> after[i] == if entries[i].key == e.key then e else entries[i])
      && (e.key !in Keys(entries) ==> after[|entries|] == e)
  {
    if entries != [] {
      PutKeepsPlaces(entries[1..], e);
      MemberKeys(entries[1..]);
      assert forall i :: 0 < i < |entries| ==> entries[i] == entries[1..][i - 1];
    }
  }

  lemma {:induction false} PutUpdates(entries: seq<Entry>, e: Entry, key: string)
    requires DistinctKeys(entries)
    ensures DistinctKeys(Put(entries, e)) && Keys(Put(entries, e)) == Keys(entries) + {e.key}
    ensures Find(Put(entries, e), key) == if key == e.key then Some(e) else Find(entries, key)
    ensures e.key !in Keys(entries) ==> Put(entries, e) == entries + [e]
    ensures e.key in Keys(entries) ==> |Put(entries, e)| == |entries|
  {
    if entries != [] {
      var head, rest := entries[0], entries[1..];
      if head.key != e.key {
        PutUpdates(rest, e, key);
        assert ([head] + Put(rest, e))[1..] == Put(rest, e);
      } else {
        assert ([e] + rest)[1..] == rest;
      }
    }
  }

  lemma {:induction false} WithoutRemoves(entries: seq<Entry>, keys: set<string>, key: string)
    requires DistinctKeys(entries)
    ensures DistinctKeys(Without(entries, keys)) && Keys(Without(entries, keys)) == Keys(entries) - keys
    ensures Find(Without(entries, keys), key) == if key in keys then None else Find(entries, key)
  {
    if entries != [] {
      var head, rest := entries[0], entries[1..];
      WithoutRemoves(rest, keys, key);
      if head.key in keys {
        assert Without(entries, keys) == Without(rest, keys);
      } else {
        assert Without(entries, keys) == [head] + Without(rest, keys);
        assert ([head] + Without(rest, keys))[1..] == Without(rest, keys);
      }
    }
  }

  lemma {:induction false} KeysCount(entries: seq<Entry>)
    ensures |Keys(entries)| <= |entries|
    ensures DistinctKeys(entries) ==> |Keys(entries)| == |entries|
  {
    if entries != [] {
      KeysCount(entries[1..]);
    }
  }

  lemma SortedMembers(entries: seq<Entry>)
    ensures forall e :: e in SortByAge(entries) <==> e in entries
  {
    SortOrders(entries);
    forall e ensures e in SortByAge(entries) <==> e in entries {
      assert e in multiset(SortByAge(entries)) <==> e in multiset(entries);
    }
  }

  // ----- main results -----

  // Of a full cache, `gone` are the keys evicted.
  function Gone(entries: seq<Entry>): set<string>
    requires |entries| > MAX_ENTRIES
  {
    Keys(SortByAge(entries)[..EVICT])
  }

  lemma SomeAreGone(entries: seq<Entry>)
    requires |entries| > MAX_ENTRIES
    ensures Gone(entries) * Keys(entries) != {} && |Gone(entries)| <= EVICT
  {
    var oldest := SortByAge(entries)[..EVICT];
    KeysCount(oldest);
    SortedMembers(entries);
    assert oldest[0] in SortByAge(entries);
    MemberKeys(entries);
    assert oldest[0].key in Gone(entries) * Keys(entries);
  }

  lemma EvictCount(entries: seq<Entry>)
    requires DistinctKeys(entries) && |entries| > MAX_ENTRIES
    ensures DistinctKeys(Evict(entries)) && Keys(Evict(entries)) == Keys(entries) - Gone(entries)
    ensures |entries| - EVICT <= |Evict(entries)| < |entries|
  {
    var keys, gone := Keys(entries), Gone(entries);
    WithoutRemoves(entries, gone, "");
    KeysCount(entries);
    KeysCount(Evict(entries));
    SomeAreGone(entries);
    SubsetCount(gone * keys, gone);
    assert keys == (keys - gone) + gone * keys;
  }

  lemma EvictedIsOlder(entries: seq<Entry>, e: Entry, f: Entry)
    requires DistinctKeys(entries) && |entries| > MAX_ENTRIES
    requires e in entries && e.key in Gone(entries) && f in entries && f.key !in Gone(entries)
    ensures e.at <= f.at
  {
    var sorted := SortByAge(entries);
    SortedMembers(entries);
    SortOrders(entries);
    MemberKeys(sorted[..EVICT]);
    var i :| 0 <= i < EVICT && sorted[..EVICT][i].key == e.key;
    assert sorted[i] in sorted;
    FindIsMembership(entries, e.key);
    assert sorted[i] == e;
    assert f in sorted;
    assert sorted == sorted[..EVICT] + sorted[EVICT..];
    var j :| 0 <= j < |sorted[EVICT..]| && sorted[EVICT..][j] == f;
    assert sorted[EVICT + j] == f;
  }

  /** Eviction drops the least recent: every evicted entry is no younger than each of the
      at least `|entries| - 50` that stay, and at least one entry goes. */
  lemma EvictDropsTheOldest(entries: seq<Entry>)
    requires DistinctKeys(entries) && |entries| > MAX_ENTRIES
    ensures var kept := Evict(entries);
      && DistinctKeys(kept) && Keys(kept) <= Keys(entries)
      && |entries| - EVICT <= |kept| < |entries|
      && (forall key :: key in Keys(kept) ==> Find(kept, key) == Find(entries, key))
      && (forall e, f :: e in entries && e.key !in Keys(kept) && f in kept ==> e.at <= f.at)
  {
    var kept := Evict(entries);
    EvictCount(entries);
    forall key | key in Keys(kept) ensures Find(kept, key) == Find(entries, key) {
      WithoutRemoves(entries, Gone(entries), key);
    }
    MemberKeys(entries);
    MemberKeys(kept);
    forall e, f | e in entries && e.key !in Keys(kept) && f in kept ensures e.at <= f.at {
      FindIsMembership(kept, f.key);
      FindIsMembership(entries, f.key);
      EvictedIsOlder(entries, e, f);
    }
  }

  lemma {:induction false} SubsetCount(a: set<string>, b: set<string>)
    requires a <= b
    ensures |a| <= |b|
  {
    if a != {} {
      var x :| x in a;
      SubsetCount(a - {x}, b - {x});
    }
  }

  // Among entries none of which is younger, the last one is sorted last.
  lemma YoungestIsLast(entries: seq<Entry>, e: Entry)
    requires forall f :: f in entries ==> f.at <= e.at
    ensures SortByAge(entries + [e]) == SortByAge(entries) + [e]
  {
    var sorted := SortByAge(entries);
    SortedMembers(entries);
    assert (entries + [e])[..|entries|] == entries;
    assert sorted != [] ==> sorted[|sorted| - 1] in sorted;
  }

  lemma YoungestIsNotAmongTheOldest(entries: seq<Entry>, e: Entry)
    requires |entries| == MAX_ENTRIES && e.key !in Keys(entries)
    requires forall f :: f in entries ==> f.at <= e.at
    ensures e.key !in Gone(entries + [e])
  {
    YoungestIsLast(entries, e);
    var oldest := SortByAge(entries)[..EVICT];
    assert SortByAge(entries + [e])[..EVICT] == oldest;
    SortedMembers(entries);
    MemberKeys(entries);
    MemberKeys(oldest);
    forall i | 0 <= i < |oldest| ensures oldest[i].key != e.key {
      assert oldest[i] in SortByAge(entries);
    }
  }

  /** A set never evicts the key it just wrote, when no entry is younger than now. */
  lemma SetKeepsItsKey(entries: seq<Entry>, e: Entry)
    requires DistinctKeys(entries) && |entries| <= MAX_ENTRIES
    requires forall f :: f in entries ==> f.at <= e.at
    ensures Find(SetEntry(entries, e), e.key) == Some(e)
  {
    PutUpdates(entries, e, e.key);
    var full := Put(entries, e);
    if |full| > MAX_ENTRIES {
      assert full == entries + [e];
      YoungestIsNotAmongTheOldest(entries, e);
      WithoutRemoves(full, Gone(full), e.key);
    }
  }

  // The cache, and the last write per key, after a sequence of sets.
  function RunCache(writes: seq<Entry>): seq<Entry>
    decreases |writes|
  {
    if writes == [] then []
    else SetEntry(RunCache(writes[..|writes| - 1]), writes[|writes| - 1])
  }

  function LastWrite(writes: seq<Entry>, key: string): Option<Entry>
    decreases |writes|
  {
    if writes == [] then None
    else if writes[|writes| - 1].key == key then Some(writes[|writes| - 1])
    else LastWrite(writes[..|writes| - 1], key)
  }

  // The other keys written at or after `at`.
  function Busy(writes: seq<Entry>, at: real, key: string): set<string> {
    set w | w in writes && w.at >= at && w.key != key :: w.key
  }

  ghost predicate Refines(writes: seq<Entry>) {
    var cache := RunCache(writes);
    && DistinctKeys(cache) && |cache| <= MAX_ENTRIES
    && (forall e :: e in cache ==> e in writes)
    && forall key :: KeyRefines(writes, key)
  }

  lemma BusyGrows(writes: seq<Entry>, w: Entry, at: real, key: string)
    ensures |Busy(writes, at, key)| <= |Busy(writes + [w], at, key)|
  {
    SubsetCount(Busy(writes, at, key), Busy(writes + [w], at, key));
  }

  // The entry of one key, or how it went missing.
  ghost predicate KeyRefines(writes: seq<Entry>, key: string) {
    || Find(RunCache(writes), key) == LastWrite(writes, key)
    || (Find(RunCache(writes), key).None?
      && |Busy(writes, LastWrite(writes, key).value.at, key)| >= MAX_ENTRIES - EVICT)
  }

  lemma StepRefinesKey(init: seq<Entry>, w: Entry, key: string)
    requires KeyRefines(init, key) && DistinctKeys(RunCache(init)) && |RunCache(init)| <= MAX_ENTRIES
    requires forall e :: e in RunCache(init) ==> e in init
    ensures KeyRefines(init + [w], key)
  {
    var writes, before := init + [w], RunCache(init);
    var full := Put(before, w);
    assert writes[..|writes| - 1] == init;
    PutMembers(before, w);
    PutUpdates(before, w, key);
    PutUpdates(before, w, w.key);
    KeysCount(full);
    if |full| > MAX_ENTRIES {
      EvictDropsTheOldest(full);
    }
    FindIsMembership(full, key);
    FindIsMembership(RunCache(writes), key);
    if Find(full, key).Some? && Find(RunCache(writes), key).None? {
      EvictedWasCrowdedOut(writes, full, Find(full, key).value);
    } else if key != w.key && Find(before, key) != LastWrite(init, key) {
      BusyGrows(init, w, LastWrite(init, key).value.at, key);
    }
  }

  lemma StepKeepsTheCache(init: seq<Entry>, w: Entry)
    requires DistinctKeys(RunCache(init)) && |RunCache(init)| <= MAX_ENTRIES
    requires forall e :: e in RunCache(init) ==> e in init
    ensures var cache := RunCache(init + [w]);
      DistinctKeys(cache) && |cache| <= MAX_ENTRIES && forall e :: e in cache ==> e in init + [w]
  {
    var writes, before := init + [w], RunCache(init);
    var full := Put(before, w);
    assert writes[..|writes| - 1] == init;
    PutMembers(before, w);
    PutUpdates(before, w, w.key);
    KeysCount(full);
    if |full| > MAX_ENTRIES {
      EvictDropsTheOldest(full);
    }
    forall e | e in RunCache(writes) ensures e in writes {
      FindIsMembership(RunCache(writes), e.key);
      FindIsMembership(full, e.key);
    }
  }

  /** However the sets come, the cache is the unbounded map of last writes with some keys
      missing, at most 200 in all; and a key goes missing only after at least 150 other
      keys were written at its time or later. */
  lemma {:induction false} CacheRefinesLastWrites(writes: seq<Entry>)
    ensures Refines(writes)
    decreases |writes|
  {
    if writes != [] {
      var init, w := writes[..|writes| - 1], writes[|writes| - 1];
      assert writes == init + [w];
      CacheRefinesLastWrites(init);
      StepKeepsTheCache(init, w);
      forall key ensures KeyRefines(writes, key) {
        assert KeyRefines(init, key);
        StepRefinesKey(init, w, key);
      }
    }
  }

  lemma {:induction false} PutMembers(entries: seq<Entry>, e: Entry)
    ensures forall f :: f in Put(entries, e) ==> f == e || f in entries
  {
    if entries != [] {
      PutMembers(entries[1..], e);
    }
  }

  lemma EvictedWasCrowdedOut(writes: seq<Entry>, full: seq<Entry>, e: Entry)
    requires DistinctKeys(full) && |full| == MAX_ENTRIES + 1 && forall f :: f in full ==> f in writes
    requires e in full && e.key !in Keys(Evict(full))
    ensures |Busy(writes, e.at, e.key)| >= MAX_ENTRIES - EVICT
  {
    EvictDropsTheOldest(full);
    var kept := Evict(full);
    KeysCount(kept);
    forall key | key in Keys(kept) ensures key in Busy(writes, e.at, e.key) {
      FindIsMembership(kept, key);
      FindIsMembership(full, key);
    }
    SubsetCount(Keys(kept), Busy(writes, e.at, e.key));
  }

  /** Every hit returns the items of the last set of that key, less than 30 seconds old. */
  lemma HitIsTheLastWrite(writes: seq<Entry>, key: string, now: real)
    requires GetItems(RunCache(writes), key, now).Some?
    ensures LastWrite(writes, key).Some?
    ensures GetItems(RunCache(writes), key, now).value == LastWrite(writes, key).value.items
    ensures now - LastWrite(writes, key).value.at < TTL
  {
    CacheRefinesLastWrites(writes);
    assert KeyRefines(writes, key);
  }

  /** A miss means: never set, or 30 seconds old, or crowded out by 150 other keys. */
  lemma MissIsExplained(writes: seq<Entry>, key: string, now: real)
    requires GetItems(RunCache(writes), key, now).None?
    ensures LastWrite(writes, key).Some? ==>
      || now - LastWrite(writes, key).value.at >= TTL
      || |Busy(writes, LastWrite(writes, key).value.at, key)| >= MAX_ENTRIES - EVICT
  {
    CacheRefinesLastWrites(writes);
    assert KeyRefines(writes, key);
  }

  /** With a clock that never runs backwards, the key set last is always a hit. */
  lemma JustSetIsAHit(writes: seq<Entry>)
    requires writes != [] && AgeOrdered(writes)
    ensures var w := writes[|writes| - 1]; GetItems(RunCache(writes), w.key, w.at) == Some(w.items)
  {
    var init, w := writes[..|writes| - 1], writes[|writes| - 1];
    CacheRefinesLastWrites(init);
    forall f | f in RunCache(init) ensures f.at <= w.at {
      assert f in init;
    }
    SetKeepsItsKey(RunCache(init), w);
  }
}
