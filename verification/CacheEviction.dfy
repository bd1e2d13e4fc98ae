/** Which entries a full search cache loses: exactly the fifty that come first by time and, at
    equal times, by their place in the dictionary. */
module CacheEviction {
  import opened Common
  import opened SearchCache

  // ----- distinct keys by position -----

  lemma {:induction false} DistinctAt(s: seq<Entry>, i: nat, j: nat)
    requires DistinctKeys(s) && i < j < |s|
    ensures s[i].key != s[j].key
  {
    if i == 0 {
      MemberKeys(s[1..]);
      assert s[j] == s[1..][j - 1];
    } else {
      DistinctAt(s[1..], i - 1, j - 1);
    }
  }

  lemma DoubleKey(s: seq<Entry>)
    requires s != []
    ensures s[0].key in Keys(s[1..]) ==> Keys(s) == Keys(s[1..])
  {
  }

  lemma {:induction false} AsManyKeys(s: seq<Entry>)
    requires |Keys(s)| == |s|
    ensures DistinctKeys(s)
  {
    if s != [] {
      KeysCount(s[1..]);
      DoubleKey(s);
      AsManyKeys(s[1..]);
    }
  }

  lemma {:induction false} DistinctFront(a: seq<Entry>, b: seq<Entry>)
    requires DistinctKeys(a + b)
    ensures DistinctKeys(a)
  {
    if a != [] {
      assert (a + b)[1..] == a[1..] + b;
      KeysAppend(a[1..], b);
      DistinctFront(a[1..], b);
    }
  }

  lemma SortedIsDistinct(entries: seq<Entry>)
    requires DistinctKeys(entries)
    ensures DistinctKeys(SortByAge(entries)) && Keys(SortByAge(entries)) == Keys(entries)
  {
    var sorted := SortByAge(entries);
    SortedMembers(entries);
    MemberKeys(sorted);
    MemberKeys(entries);
    forall key ensures key in Keys(sorted) <==> key in Keys(entries) {
      if key in Keys(sorted) {
        var i :| 0 <= i < |sorted| && sorted[i].key == key;
        assert sorted[i] in sorted;
      }
      if key in Keys(entries) {
        var i :| 0 <= i < |entries| && entries[i].key == key;
        assert entries[i] in entries;
      }
    }
    assert Keys(sorted) == Keys(entries);
    KeysCount(entries);
    AsManyKeys(sorted);
  }

  // ----- fifty go -----

  lemma FrontKeys(sorted: seq<Entry>, n: nat)
    requires DistinctKeys(sorted) && n <= |sorted|
    ensures |Keys(sorted[..n])| == n && Keys(sorted[..n]) <= Keys(sorted)
  {
    assert sorted == sorted[..n] + sorted[n..];
    DistinctFront(sorted[..n], sorted[n..]);
    KeysCount(sorted[..n]);
    KeysAppend(sorted[..n], sorted[n..]);
  }

  lemma Difference(keys: set<string>, gone: set<string>)
    requires gone <= keys
    ensures |keys - gone| == |keys| - |gone|
  {
    assert keys == (keys - gone) + gone;
  }

  lemma FiftyGo(entries: seq<Entry>)
    requires DistinctKeys(entries) && |entries| > MAX_ENTRIES
    ensures |Gone(entries)| == 50 && Gone(entries) <= Keys(entries)
    ensures |Evict(entries)| == |entries| - 50
  {
    SortedIsDistinct(entries);
    FrontKeys(SortByAge(entries), EVICT);
    EvictCount(entries);
    KeysCount(entries);
    KeysCount(Evict(entries));
    Difference(Keys(entries), Gone(entries));
  }

  // ----- the order among entries of one time -----

  ghost predicate Before(s: seq<Entry>, e: Entry, f: Entry) {
    exists p, q :: 0 <= p < q < |s| && s[p] == e && s[q] == f
  }

  lemma {:induction false} WrittenAtHas(s: seq<Entry>, e: Entry)
    requires e in s
    ensures e in WrittenAt(s, e.at)
    decreases |s|
  {
    if e != s[|s| - 1] {
      WrittenAtHas(s[..|s| - 1], e);
    }
  }

  lemma {:induction false} WrittenAtComesFrom(s: seq<Entry>, at: real, e: Entry)
    requires e in WrittenAt(s, at)
    ensures e in s
    decreases |s|
  {
    var init, last := s[..|s| - 1], s[|s| - 1];
    if e in WrittenAt(init, at) {
      WrittenAtComesFrom(init, at, e);
    }
  }

  lemma BeforeAppend(s: seq<Entry>, more: seq<Entry>, e: Entry, f: Entry)
    requires Before(s, e, f)
    ensures Before(s + more, e, f)
  {
    var p, q :| 0 <= p < q < |s| && s[p] == e && s[q] == f;
    assert (s + more)[p] == e && (s + more)[q] == f;
  }

  lemma BeforeLast(s: seq<Entry>, e: Entry, f: Entry)
    requires e in s
    ensures Before(s + [f], e, f)
  {
    var p :| 0 <= p < |s| && s[p] == e;
    assert (s + [f])[p] == e && (s + [f])[|s|] == f;
  }

  // Taking out the entries of one time keeps their order.
  lemma {:induction false} WrittenAtKeepsOrder(s: seq<Entry>, e: Entry, f: Entry)
    requires Before(s, e, f) && e.at == f.at
    ensures Before(WrittenAt(s, e.at), e, f)
    decreases |s|
  {
    var init, last := s[..|s| - 1], s[|s| - 1];
    var p, q :| 0 <= p < q < |s| && s[p] == e && s[q] == f;
    if q < |init| {
      assert init[p] == e && init[q] == f;
      WrittenAtKeepsOrder(init, e, f);
      BeforeAppend(WrittenAt(init, e.at), if last.at == e.at then [last] else [], e, f);
    } else {
      assert init[p] == e;
      WrittenAtHas(init, e);
      BeforeLast(WrittenAt(init, e.at), e, f);
    }
  }

  lemma {:induction false} WrittenAtHasOrder(s: seq<Entry>, at: real, e: Entry, f: Entry)
    requires Before(WrittenAt(s, at), e, f)
    ensures Before(s, e, f)
    decreases |s|
  {
    if s != [] {
      var init, last, before := s[..|s| - 1], s[|s| - 1], WrittenAt(s[..|s| - 1], at);
      assert s == init + [last];
      var p, q :| 0 <= p < q < |WrittenAt(s, at)| && WrittenAt(s, at)[p] == e && WrittenAt(s, at)[q] == f;
      if q < |before| {
        assert before[p] == e && before[q] == f;
        WrittenAtHasOrder(init, at, e, f);
        BeforeAppend(init, [last], e, f);
      } else {
        assert before[p] == e;
        WrittenAtComesFrom(init, at, e);
        BeforeLast(init, e, f);
      }
    }
  }

  // The sort leaves entries of one time in the order they had.
  lemma SortKeepsTies(entries: seq<Entry>, e: Entry, f: Entry)
    requires Before(SortByAge(entries), e, f) && e.at == f.at
    ensures Before(entries, e, f)
  {
    WrittenAtKeepsOrder(SortByAge(entries), e, f);
    SortIsStable(entries, e.at);
    WrittenAtHasOrder(entries, e.at, e, f);
  }

  lemma EvictedBeforeKept(entries: seq<Entry>, e: Entry, f: Entry)
    requires DistinctKeys(entries) && |entries| > MAX_ENTRIES
    requires e in entries && e.key in Gone(entries) && f in entries && f.key !in Gone(entries)
    ensures Before(SortByAge(entries), e, f)
  {
    var sorted := SortByAge(entries);
    SortedMembers(entries);
    MemberKeys(sorted[..EVICT]);
    var p :| 0 <= p < EVICT && sorted[..EVICT][p].key == e.key;
    assert sorted[p] in sorted;
    SameKeySameEntry(entries, sorted[p], e);
    assert f in sorted;
    var q :| 0 <= q < |sorted| && sorted[q] == f;
    forall k | 0 <= k < EVICT ensures sorted[k].key in Gone(entries) {
      assert sorted[..EVICT][k] == sorted[k];
    }
  }

  lemma SameKeySameEntry(entries: seq<Entry>, e: Entry, f: Entry)
    requires DistinctKeys(entries) && e in entries && f in entries && e.key == f.key
    ensures e == f
  {
    var i :| 0 <= i < |entries| && entries[i] == e;
    var j :| 0 <= j < |entries| && entries[j] == f;
    if i < j {
      DistinctAt(entries, i, j);
    } else if j < i {
      DistinctAt(entries, j, i);
    }
  }

  lemma {:induction false} WithoutKeepsOrder(entries: seq<Entry>, keys: set<string>, e: Entry, f: Entry)
    requires Before(Without(entries, keys), e, f)
    ensures Before(entries, e, f)
  {
    if entries != [] {
      var head, rest := entries[0], entries[1..];
      var all := Without(entries, keys);
      var p, q :| 0 <= p < q < |all| && all[p] == e && all[q] == f;
      if head.key in keys || p > 0 {
        var k := if head.key in keys then 0 else 1;
        assert Without(rest, keys)[p - k] == e && Without(rest, keys)[q - k] == f;
        WithoutKeepsOrder(rest, keys, e, f);
        var i, j :| 0 <= i < j < |rest| && rest[i] == e && rest[j] == f;
        assert entries[i + 1] == e && entries[j + 1] == f;
      } else {
        assert Without(rest, keys)[q - 1] == f;
        WithoutComesFrom(rest, keys, f);
        var j :| 0 <= j < |rest| && rest[j] == f;
        assert entries[0] == e && entries[j + 1] == f;
      }
    }
  }

  lemma {:induction false} WithoutComesFrom(entries: seq<Entry>, keys: set<string>, f: Entry)
    requires f in Without(entries, keys)
    ensures f in entries
  {
    if entries != [] && !(entries[0].key !in keys && entries[0] == f) {
      WithoutComesFrom(entries[1..], keys, f);
    }
  }

  // The entry at `i` was written before the one at `j`, or at its time and stands before it.
  predicate Sooner(entries: seq<Entry>, i: nat, j: nat)
    requires i < |entries| && j < |entries|
  {
    entries[i].at < entries[j].at || (entries[i].at == entries[j].at && i < j)
  }

  /** A cache that is too full loses exactly fifty entries, each of which was written before every
      entry that stays, or at its time and stands before it; so which ones is determined. Those
      that stay keep their order. */
  lemma EvictsTheFirstFifty(entries: seq<Entry>)
    requires DistinctKeys(entries) && |entries| > MAX_ENTRIES
    ensures var kept := Evict(entries);
      && |kept| == |entries| - 50
      && (forall i, j :: 0 <= i < |entries| && 0 <= j < |entries| ==>
            (entries[i].key !in Keys(kept) && entries[j].key in Keys(kept) ==> Sooner(entries, i, j)))
      && (forall e, f :: Before(kept, e, f) ==> Before(entries, e, f))
  {
    var kept := Evict(entries);
    FiftyGo(entries);
    EvictCount(entries);
    forall i, j | 0 <= i < |entries| && 0 <= j < |entries| && entries[i].key !in Keys(kept)
                  && entries[j].key in Keys(kept)
      ensures Sooner(entries, i, j)
    {
      GoesSooner(entries, i, j);
    }
    forall e, f | Before(kept, e, f) ensures Before(entries, e, f) {
      WithoutKeepsOrder(entries, Gone(entries), e, f);
    }
  }

  lemma GoesSooner(entries: seq<Entry>, i: nat, j: nat)
    requires DistinctKeys(entries) && |entries| > MAX_ENTRIES && i < |entries| && j < |entries|
    requires entries[i].key !in Keys(Evict(entries)) && entries[j].key in Keys(Evict(entries))
    ensures Sooner(entries, i, j)
  {
    var e, f := entries[i], entries[j];
    EvictCount(entries);
    MemberKeys(entries);
    assert e.key in Keys(entries) && f.key in Keys(entries);
    EvictedIsOlder(entries, e, f);
    EvictedBeforeKept(entries, e, f);
    if e.at == f.at {
      SortKeepsTies(entries, e, f);
      var p, q :| 0 <= p < q < |entries| && entries[p] == e && entries[q] == f;
      OnePlace(entries, p, i);
      OnePlace(entries, q, j);
    }
  }

  lemma OnePlace(entries: seq<Entry>, p: nat, i: nat)
    requires DistinctKeys(entries) && p < |entries| && i < |entries| && entries[p] == entries[i]
    ensures p == i
  {
    if p < i {
      DistinctAt(entries, p, i);
    } else if i < p {
      DistinctAt(entries, i, p);
    }
  }
}
