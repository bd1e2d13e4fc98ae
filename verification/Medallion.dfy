/** The medallion pipeline: routing of micro-batches to bronze tables, latest-wins silver by
    MERGE, and the gold funnel. */
module Medallion {
  import opened Common
  import opened StreamRouting

  // ----- bronze: routing -----

  datatype Raw = Raw(stream: Option<string>, payload: string)

  function TableOf(row: Raw): Option<string> {
    if row.stream.None? then None else StreamToTable(row.stream.value)
  }

  type Tables = map<string, multiset<string>>

  function Content(tables: Tables, table: string): multiset<string> {
    if table in tables then tables[table] else multiset{}
  }

  // The payloads of the rows of one stream.
  function OfStream(batch: seq<Raw>, stream: string): multiset<string> {
    if batch == [] then multiset{}
    else (if batch[0].stream == Some(stream) then multiset{batch[0].payload} else multiset{})
         + OfStream(batch[1..], stream)
  }

  /** The payloads of the rows that belong to one table. */
  function PayloadsOf(batch: seq<Raw>, table: string): multiset<string> {
    if batch == [] then multiset{}
    else (if TableOf(batch[0]) == Some(table) then multiset{batch[0].payload} else multiset{})
         + PayloadsOf(batch[1..], table)
  }

  // The payloads of the rows that belong to one table, among the streams of `streams`.
  function OfTable(batch: seq<Raw>, table: string, streams: set<string>): multiset<string> {
    if batch == [] then multiset{}
    else (if batch[0].stream.Some? && batch[0].stream.value in streams && TableOf(batch[0]) == Some(table)
          then multiset{batch[0].payload} else multiset{}) + OfTable(batch[1..], table, streams)
  }

  function Streams(batch: seq<Raw>): set<string> {
    set row | row in batch && row.stream.Some? :: row.stream.value
  }

  lemma {:induction false} OneMoreStream(batch: seq<Raw>, table: string, streams: set<string>, stream: string)
    requires stream !in streams
    ensures OfTable(batch, table, streams + {stream}) ==
      OfTable(batch, table, streams)
      + if StreamToTable(stream) == Some(table) then OfStream(batch, stream) else multiset{}
  {
    if batch != [] {
      OneMoreStream(batch[1..], table, streams, stream);
    }
  }

  lemma {:induction false} AllStreams(batch: seq<Raw>, table: string, streams: set<string>)
    requires Streams(batch) <= streams
    ensures OfTable(batch, table, streams) == PayloadsOf(batch, table)
  {
    if batch != [] {
      assert batch == [batch[0]] + batch[1..];
      assert batch[0].stream.Some? ==> batch[0].stream.value in Streams(batch);
      AllStreams(batch[1..], table, streams);
    }
  }

  function AppendRows(tables: Tables, table: Option<string>, rows: multiset<string>): Tables {
    if table.None? then tables else tables[table.value := Content(tables, table.value) + rows]
  }

  // `now` is `was` plus the rows of `streams`, each in its table.
  ghost predicate Routed(was: Tables, now: Tables, batch: seq<Raw>, streams: set<string>) {
    forall t :: Content(now, t) == Content(was, t) + OfTable(batch, t, streams)
  }

  lemma StreamRouted(was: Tables, now: Tables, batch: seq<Raw>, streams: set<string>, stream: string)
    requires Routed(was, now, batch, streams) && stream !in streams
    ensures Routed(was, AppendRows(now, StreamToTable(stream), OfStream(batch, stream)), batch, streams + {stream})
  {
    var then' := AppendRows(now, StreamToTable(stream), OfStream(batch, stream));
    forall t ensures Content(then', t) == Content(was, t) + OfTable(batch, t, streams + {stream}) {
      OneMoreStream(batch, t, streams, stream);
      assert Content(now, t) == Content(was, t) + OfTable(batch, t, streams);
    }
  }

  class Bronze {
    var tables: Tables

    constructor ()
      ensures tables == map[]
    {
      tables := map[];
    }

    /** Every row with a recognised stream is appended once to its table, the others nowhere. */
    method ProcessBatch(batch: seq<Raw>)
      modifies this
      ensures forall t :: Content(tables, t) == Content(old(tables), t) + PayloadsOf(batch, t)
    {
      ghost var was := tables;
      var todo, done := Streams(batch), {};
      NoStreams(batch);
      while todo != {}
        invariant todo + done == Streams(batch) && todo !! done
        invariant Routed(was, tables, batch, done)
        decreases todo
      {
        var stream := AnyOf(todo);
        var table := StreamToTable(stream);
        StreamRouted(was, tables, batch, done, stream);
        if table.Some? {
          tables := tables[table.value := Content(tables, table.value) + OfStream(batch, stream)];
        }
        todo, done := todo - {stream}, done + {stream};
      }
      assert done == Streams(batch);
      forall t ensures Content(tables, t) == Content(was, t) + PayloadsOf(batch, t) {
        AllStreams(batch, t, done);
      }
    }
  }

  lemma {:induction false} NoStreams(batch: seq<Raw>)
    ensures forall t :: OfTable(batch, t, {}) == multiset{}
  {
    if batch != [] {
      NoStreams(batch[1..]);
    }
  }

  // ----- silver: latest event per id -----

  /** A parsed bronze row. A missing source time sorts last. */
  datatype Event = Event(id: Option<string>, ts: Option<int>, datum: Option<int>, onderdeel: Option<string>,
                         status: Option<string>)

  predicate NotOlder(a: Event, b: Event) {
    b.ts.None? || (a.ts.Some? && a.ts.value >= b.ts.value)
  }

  predicate DistinctIds(rows: seq<Event>) {
    forall i, j :: 0 <= i < j < |rows| ==> rows[i].id != rows[j].id
  }

  // `out` keeps one row per id of `bronze`, the latest; among equals any of them.
  ghost predicate LatestPerId(bronze: seq<Event>, out: seq<Event>) {
    && DistinctIds(out)
    && (forall r :: r in out ==> r in bronze && r.id.Some?)
    && (forall r, b :: r in out && b in bronze && b.id == r.id ==> NotOlder(r, b))
    && (forall b :: b in bronze && b.id.Some? ==> HasId(out, b.id))
  }

  predicate HasId(rows: seq<Event>, id: Option<string>) {
    exists i :: 0 <= i < |rows| && rows[i].id == id
  }

  function RowOf(rows: seq<Event>, id: Option<string>): Option<Event> {
    if rows == [] then None else if rows[0].id == id then Some(rows[0]) else RowOf(rows[1..], id)
  }

  // MERGE: a matched row is replaced, an unmatched source row is inserted.
  function Updated(target: seq<Event>, source: seq<Event>): (r: seq<Event>)
    ensures |r| == |target|
  {
    if target == [] then []
    else [match RowOf(source, target[0].id) case Some(s) => s case None => target[0]] + Updated(target[1..], source)
  }

  function Inserted(target: seq<Event>, source: seq<Event>): seq<Event> {
    if source == [] then []
    else (if RowOf(target, source[0].id).None? then [source[0]] else []) + Inserted(target, source[1..])
  }

  function Merge(target: seq<Event>, source: seq<Event>): seq<Event> {
    Updated(target, source) + Inserted(target, source)
  }

  lemma UpdatedStep(target: seq<Event>, source: seq<Event>, k: nat, out: seq<Event>, row: Event)
    requires k < |target| && row == (match RowOf(source, target[k].id) case Some(s) => s case None => target[k])
    ensures out + Updated(target[k..], source) == (out + [row]) + Updated(target[k + 1..], source)
  {
    assert target[k..][1..] == target[k + 1..];
    Regroup(out, [row], Updated(target[k + 1..], source));
  }

  lemma InsertedStep(target: seq<Event>, source: seq<Event>, k: nat, out: seq<Event>)
    requires k < |source|
    ensures out + Inserted(target, source[k..]) ==
      (if RowOf(target, source[k].id).None? then out + [source[k]] else out) + Inserted(target, source[k + 1..])
  {
    assert source[k..][1..] == source[k + 1..];
    var rest := Inserted(target, source[k + 1..]);
    if RowOf(target, source[k].id).None? {
      Regroup(out, [source[k]], rest);
    } else {
      assert [] + rest == rest;
    }
  }

  // The matched half of a MERGE.
  method UpdateMatched(target: seq<Event>, source: seq<Event>) returns (out: seq<Event>)
    ensures out == Updated(target, source)
  {
    out := [];
    assert target[0..] == target;
    for k := 0 to |target|
      invariant out + Updated(target[k..], source) == Updated(target, source)
    {
      var match' := RowOf(source, target[k].id);
      var row := if match'.Some? then match'.value else target[k];
      UpdatedStep(target, source, k, out, row);
      out := out + [row];
    }
  }

  // The unmatched half.
  method InsertUnmatched(target: seq<Event>, source: seq<Event>) returns (out: seq<Event>)
    ensures out == Inserted(target, source)
  {
    out := [];
    assert source[0..] == source;
    for k := 0 to |source|
      invariant out + Inserted(target, source[k..]) == Inserted(target, source)
    {
      InsertedStep(target, source, k, out);
      if RowOf(target, source[k].id).None? {
        out := out + [source[k]];
      }
    }
  }

  lemma {:induction false} RowOfFinds(rows: seq<Event>, id: Option<string>)
    ensures RowOf(rows, id).Some? <==> HasId(rows, id)
    ensures RowOf(rows, id).Some? ==> RowOf(rows, id).value in rows && RowOf(rows, id).value.id == id
  {
    if rows != [] {
      RowOfFinds(rows[1..], id);
      assert rows == [rows[0]] + rows[1..];
      assert forall i :: 0 < i < |rows| ==> rows[i] == rows[1..][i - 1];
      assert HasId(rows[1..], id) ==> HasId(rows, id) by {
        if HasId(rows[1..], id) {
          var i :| 0 <= i < |rows[1..]| && rows[1..][i].id == id;
          assert rows[i + 1].id == id;
        }
      }
    }
  }

  lemma {:induction false} UpdatedAt(target: seq<Event>, source: seq<Event>, i: nat)
    requires i < |target|
    ensures Updated(target, source)[i] == (match RowOf(source, target[i].id) case Some(s) => s case None => target[i])
    ensures Updated(target, source)[i].id == target[i].id
  {
    RowOfFinds(source, target[i].id);
    if i > 0 {
      UpdatedAt(target[1..], source, i - 1);
    }
  }

  lemma {:induction false} InsertedRows(target: seq<Event>, source: seq<Event>)
    requires DistinctIds(source)
    ensures DistinctIds(Inserted(target, source))
    ensures forall s :: s in Inserted(target, source) <==> s in source && !HasId(target, s.id)
  {
    if source != [] {
      var rest := Inserted(target, source[1..]);
      InsertedRows(target, source[1..]);
      RowOfFinds(target, source[0].id);
      assert source == [source[0]] + source[1..];
      forall i | 0 <= i < |rest| ensures rest[i].id != source[0].id {
        assert rest[i] in source[1..];
        var j :| 0 <= j < |source[1..]| && source[1..][j] == rest[i];
        assert source[j + 1] == rest[i];
      }
    }
  }

  // Merging the latest rows of all of bronze into a silver whose ids bronze still has.
  lemma MergeIsLatest(bronze: seq<Event>, silver: seq<Event>, deduped: seq<Event>)
    requires LatestPerId(bronze, deduped) && DistinctIds(silver)
    requires forall r :: r in silver ==> r.id.Some? && HasId(deduped, r.id)
    ensures LatestPerId(bronze, Merge(silver, deduped))
  {
    var updated: seq<Event>, inserted: seq<Event> := Updated(silver, deduped), Inserted(silver, deduped);
    var merged := updated + inserted;
    InsertedRows(silver, deduped);
    forall i | 0 <= i < |silver| ensures updated[i] in deduped && updated[i].id == silver[i].id {
      UpdatedAt(silver, deduped, i);
      RowOfFinds(deduped, silver[i].id);
      assert silver[i] in silver;
    }
    forall r | r in merged ensures r in deduped {
      assert r in updated || r in inserted;
    }
    MergedIdsDistinct(silver, updated, inserted);
    forall b | b in bronze && b.id.Some? ensures HasId(merged, b.id) {
      assert HasId(deduped, b.id);
      MergeHasTheIds(silver, deduped, b.id);
    }
  }

  lemma MergeHasTheIds(silver: seq<Event>, deduped: seq<Event>, id: Option<string>)
    requires DistinctIds(deduped) && HasId(deduped, id)
    ensures HasId(Merge(silver, deduped), id)
  {
    var updated: seq<Event>, inserted: seq<Event> := Updated(silver, deduped), Inserted(silver, deduped);
    if HasId(silver, id) {
      var i :| 0 <= i < |silver| && silver[i].id == id;
      UpdatedAt(silver, deduped, i);
      assert (updated + inserted)[i].id == id;
    } else {
      InsertedRows(silver, deduped);
      var k :| 0 <= k < |deduped| && deduped[k].id == id;
      assert deduped[k] in inserted;
      var j :| 0 <= j < |inserted| && inserted[j] == deduped[k];
      assert (updated + inserted)[|updated| + j].id == id;
    }
  }

  lemma MergedIdsDistinct(silver: seq<Event>, updated: seq<Event>, inserted: seq<Event>)
    requires DistinctIds(silver) && DistinctIds(inserted) && |updated| == |silver|
    requires forall i :: 0 <= i < |silver| ==> updated[i].id == silver[i].id
    requires forall s :: s in inserted ==> !HasId(silver, s.id)
    ensures DistinctIds(updated + inserted)
  {
    var merged := updated + inserted;
    forall i, j | 0 <= i < j < |merged| ensures merged[i].id != merged[j].id {
      if i < |silver| <= j {
        assert merged[j] in inserted && merged[i].id == silver[i].id;
      }
    }
  }

  // ----- runs of the pipeline -----

  datatype Step =
    | Append(rows: seq<Event>)          // a micro-batch, delivered again or not
    | SilverRun(deduped: seq<Event>)    // with the row_number choice it made

  datatype Lake = Lake(bronze: seq<Event>, silver: Option<seq<Event>>)

  const NEW: Lake := Lake([], None)

  function Next(s: Lake, step: Step): Lake {
    match step
    case Append(rows) => s.(bronze := s.bronze + rows)
    case SilverRun(deduped) =>
      if s.bronze == [] then s
      else s.(silver := Some(match s.silver case Some(rows) => Merge(rows, deduped) case None => deduped))
  }

  function Run(s: Lake, steps: seq<Step>): Lake
    decreases |steps|
  {
    if steps == [] then s else Run(Next(s, steps[0]), steps[1..])
  }

  ghost predicate Legal(s: Lake, steps: seq<Step>)
    decreases |steps|
  {
    steps == [] ||
    ((steps[0].SilverRun? ==> LatestPerId(s.bronze, steps[0].deduped)) && Legal(Next(s, steps[0]), steps[1..]))
  }

  // Silver holds ids that bronze has, each once.
  ghost predicate SilverOk(s: Lake) {
    s.silver.Some? ==>
      DistinctIds(s.silver.value) && forall r :: r in s.silver.value ==> r.id.Some? && HasId(s.bronze, r.id)
  }

  lemma LatestHasTheIds(bronze: seq<Event>, out: seq<Event>)
    requires LatestPerId(bronze, out)
    ensures forall r :: r in out ==> HasId(bronze, r.id)
  {
    forall r | r in out ensures HasId(bronze, r.id) {
      var i :| 0 <= i < |bronze| && bronze[i] == r;
    }
  }

  lemma SilverRunIsLatest(s: Lake, deduped: seq<Event>)
    requires SilverOk(s) && s.bronze != [] && LatestPerId(s.bronze, deduped)
    ensures LatestPerId(s.bronze, Next(s, SilverRun(deduped)).silver.value)
  {
    if s.silver.Some? {
      forall r | r in s.silver.value ensures HasId(deduped, r.id) {
        var i :| 0 <= i < |s.bronze| && s.bronze[i].id == r.id;
        assert s.bronze[i] in s.bronze;
      }
      MergeIsLatest(s.bronze, s.silver.value, deduped);
    }
  }

  lemma {:induction false} RunKeepsSilver(s: Lake, steps: seq<Step>)
    requires SilverOk(s) && Legal(s, steps)
    ensures SilverOk(Run(s, steps))
    decreases |steps|
  {
    if steps != [] {
      var t := Next(s, steps[0]);
      assert SilverOk(t) by {
        if steps[0].SilverRun? && s.bronze != [] {
          SilverRunIsLatest(s, steps[0].deduped);
          LatestHasTheIds(t.bronze, t.silver.value);
        } else if s.silver.Some? && steps[0].Append? {
          forall r | r in s.silver.value ensures HasId(t.bronze, r.id) {
            var i :| 0 <= i < |s.bronze| && s.bronze[i].id == r.id;
            assert t.bronze[i].id == r.id;
          }
        }
      }
      RunKeepsSilver(t, steps[1..]);
    }
  }

  /** Incremental is recompute: after any sequence of micro-batches and silver runs, one
      more silver run leaves exactly one row per id of all of bronze, the latest, whatever
      the earlier runs chose among equal times. */
  lemma SilverIsLatestOfAll(steps: seq<Step>, deduped: seq<Event>)
    requires Legal(NEW, steps) && Run(NEW, steps).bronze != [] && LatestPerId(Run(NEW, steps).bronze, deduped)
    ensures LatestPerId(Run(NEW, steps).bronze, Next(Run(NEW, steps), SilverRun(deduped)).silver.value)
  {
    RunKeepsSilver(NEW, steps);
    SilverRunIsLatest(Run(NEW, steps), deduped);
  }

  /** Rows delivered again do not matter: what silver may be depends on which rows bronze
      has, not on how often. */
  lemma DuplicatesDoNotMatter(bronze: seq<Event>, again: seq<Event>, out: seq<Event>)
    requires forall r :: r in bronze <==> r in again
    ensures LatestPerId(bronze, out) <==> LatestPerId(again, out)
  {
  }

  /** Without ties there is one outcome per id. */
  lemma LatestIsUnique(bronze: seq<Event>, a: seq<Event>, b: seq<Event>)
    requires LatestPerId(bronze, a) && LatestPerId(bronze, b)
    requires forall r, q :: r in bronze && q in bronze && r.id == q.id && NotOlder(r, q) && NotOlder(q, r) ==> r == q
    ensures forall r :: r in a <==> r in b
  {
    OneSide(bronze, a, b);
    OneSide(bronze, b, a);
  }

  lemma OneSide(bronze: seq<Event>, a: seq<Event>, b: seq<Event>)
    requires LatestPerId(bronze, a) && LatestPerId(bronze, b)
    requires forall r, q :: r in bronze && q in bronze && r.id == q.id && NotOlder(r, q) && NotOlder(q, r) ==> r == q
    ensures forall r :: r in a ==> r in b
  {
    forall r | r in a ensures r in b {
      assert HasId(b, r.id);
      var k :| 0 <= k < |b| && b[k].id == r.id;
      assert b[k] in b;
      assert NotOlder(r, b[k]) && NotOlder(b[k], r);
    }
  }

  // ----- the silver job -----

  method FindId(rows: seq<Event>, id: Option<string>) returns (i: nat)
    ensures i <= |rows| && (i < |rows| ==> rows[i].id == id)
    ensures i == |rows| <==> !HasId(rows, id)
  {
    i := 0;
    while i < |rows| && rows[i].id != id
      invariant 0 <= i <= |rows|
      invariant forall k :: 0 <= k < i ==> rows[k].id != id
    {
      i := i + 1;
    }
  }

  lemma KeepsLatest(bronze: seq<Event>, out: seq<Event>, e: Event, i: nat)
    requires LatestPerId(bronze, out) && i < |out| && out[i].id == e.id && e.id.Some?
    ensures LatestPerId(bronze + [e], if NotOlder(out[i], e) then out else out[i := e])
  {
    var new' := if NotOlder(out[i], e) then out else out[i := e];
    assert forall k :: 0 <= k < |out| ==> new'[k].id == out[k].id;
    forall r | r in new' ensures r in bronze + [e] && r.id.Some? {
      assert r == e || r in out;
    }
    forall r, b | r in new' && b in bronze + [e] && b.id == r.id ensures NotOlder(r, b) {
      StaysLatest(bronze, out, e, i, r, b);
    }
    forall b | b in bronze + [e] && b.id.Some? ensures HasId(new', b.id) {
      HasIdStays(bronze, out, e, i, b);
      var k :| 0 <= k < |out| && out[k].id == b.id;
      assert new'[k].id == b.id;
    }
  }

  lemma HasIdStays(bronze: seq<Event>, out: seq<Event>, e: Event, i: nat, b: Event)
    requires LatestPerId(bronze, out) && i < |out| && out[i].id == e.id
    requires b in bronze + [e] && b.id.Some?
    ensures HasId(out, b.id)
  {
    if b != e {
      assert b in bronze;
    }
  }

  lemma StaysLatest(bronze: seq<Event>, out: seq<Event>, e: Event, i: nat, r: Event, b: Event)
    requires LatestPerId(bronze, out) && i < |out| && out[i].id == e.id && e.id.Some?
    requires r in if NotOlder(out[i], e) then out else out[i := e]
    requires b in bronze + [e] && b.id == r.id
    ensures NotOlder(r, b)
  {
    assert out[i] in out;
    if r.id == e.id {
      var new' := if NotOlder(out[i], e) then out else out[i := e];
      var k :| 0 <= k < |new'| && new'[k] == r;
      assert k == i by {
        assert out[k].id == out[i].id;
      }
    } else {
      assert r in out && b in bronze;
    }
  }

  lemma AddsLatest(bronze: seq<Event>, out: seq<Event>, e: Event)
    requires LatestPerId(bronze, out) && !HasId(out, e.id) && e.id.Some?
    ensures LatestPerId(bronze + [e], out + [e])
  {
    var new' := out + [e];
    forall b | b in bronze ensures b.id != e.id {
      assert b.id.Some? ==> HasId(out, b.id);
    }
    forall b | b in bronze + [e] && b.id.Some? ensures HasId(new', b.id) {
      if b in bronze {
        assert HasId(out, b.id);
        var k :| 0 <= k < |out| && out[k].id == b.id;
        assert new'[k].id == b.id;
      } else {
        assert new'[|out|].id == b.id;
      }
    }
  }

  /** Rows without an id are filtered out; of the others the latest per id is kept. */
  method Dedupe(bronze: seq<Event>) returns (out: seq<Event>)
    ensures LatestPerId(bronze, out)
  {
    out := [];
    for k := 0 to |bronze|
      invariant LatestPerId(bronze[..k], out)
    {
      var e := bronze[k];
      assert bronze[..k + 1] == bronze[..k] + [e];
      if e.id.Some? {
        var i := FindId(out, e.id);
        if i == |out| {
          AddsLatest(bronze[..k], out, e);
          out := out + [e];
        } else {
          KeepsLatest(bronze[..k], out, e, i);
          if !NotOlder(out[i], e) {
            out := out[i := e];
          }
        }
      }
    }
    assert bronze[..|bronze|] == bronze;
  }

  class SilverTable {
    var rows: Option<seq<Event>>

    constructor ()
      ensures rows == None
    {
      rows := None;
    }

    /** One run of the job over all of bronze: the first one writes the table, the later
        ones MERGE into it. */
    method RunJob(bronze: seq<Event>) returns (ghost deduped: seq<Event>)
      requires SilverOk(Lake(bronze, rows))
      modifies this
      ensures LatestPerId(bronze, deduped) && rows == Next(Lake(bronze, old(rows)), SilverRun(deduped)).silver
      ensures if bronze == [] then rows == old(rows) else rows.Some? && LatestPerId(bronze, rows.value)
    {
      var latest := Dedupe(bronze);
      deduped := latest;
      if bronze == [] {
        return;
      }
      SilverRunIsLatest(Lake(bronze, rows), latest);
      if rows.None? {
        rows := Some(latest);
      } else {
        var updated := UpdateMatched(rows.value, latest);
        var inserted := InsertUnmatched(rows.value, latest);
        rows := Some(updated + inserted);
      }
    }
  }

  // ----- gold: the funnel -----

  type Key = (Option<int>, Option<string>, Option<string>)

  function KeyOf(r: Event): Key {
    (r.datum, r.onderdeel, r.status)
  }

  function CountOf(rows: seq<Event>, key: Key): nat {
    if rows == [] then 0 else (if KeyOf(rows[0]) == key then 1 else 0) + CountOf(rows[1..], key)
  }

  function Funnel(rows: seq<Event>): map<Key, nat> {
    map key | key in (set r | r in rows :: KeyOf(r)) :: CountOf(rows, key)
  }

  // An empty silver leaves gold as it is.
  function GoldRun(gold: map<Key, nat>, silver: seq<Event>): map<Key, nat> {
    if silver == [] then gold else Funnel(silver)
  }

  ghost function Total(m: map<Key, nat>): nat
    decreases |m|
  {
    if m == map[] then 0
    else
      var k :| k in m;
      m[k] + Total(m - {k})
  }

  lemma {:induction false} TotalWithout(m: map<Key, nat>, k: Key)
    requires k in m
    ensures Total(m) == m[k] + Total(m - {k})
    decreases |m|
  {
    var p :| p in m && Total(m) == m[p] + Total(m - {p});
    if p != k {
      TotalWithout(m - {p}, k);
      TotalWithout(m - {k}, p);
      assert m - {p} - {k} == m - {k} - {p};
    }
  }

  lemma {:induction false} CountAbsent(rows: seq<Event>, key: Key)
    ensures CountOf(rows, key) > 0 <==> exists r :: r in rows && KeyOf(r) == key
  {
    if rows != [] {
      CountAbsent(rows[1..], key);
      assert rows == [rows[0]] + rows[1..];
    }
  }

  lemma FunnelStep(rows: seq<Event>)
    requires rows != []
    ensures KeyOf(rows[0]) in Funnel(rows) && Funnel(rows)[KeyOf(rows[0])] == CountOf(rows, KeyOf(rows[0]))
    ensures Funnel(rows) - {KeyOf(rows[0])} == Funnel(rows[1..]) - {KeyOf(rows[0])}
  {
    var key, rest, all := KeyOf(rows[0]), Funnel(rows[1..]), Funnel(rows);
    assert rows == [rows[0]] + rows[1..];
    assert rows[0] in rows;
    forall k | k != key ensures (k in all <==> k in rest) && CountOf(rows, k) == CountOf(rows[1..], k) {
      FunnelKeys(rows, k);
      FunnelKeys(rows[1..], k);
      CountAbsent(rows, k);
      CountAbsent(rows[1..], k);
    }
  }

  lemma FunnelKeys(rows: seq<Event>, key: Key)
    ensures key in Funnel(rows) <==> exists r :: r in rows && KeyOf(r) == key
  {
  }

  lemma {:induction false} FunnelTotal(rows: seq<Event>)
    ensures Total(Funnel(rows)) == |rows|
  {
    if rows != [] {
      var key, rest, all := KeyOf(rows[0]), Funnel(rows[1..]), Funnel(rows);
      FunnelTotal(rows[1..]);
      FunnelStep(rows);
      TotalWithout(all, key);
      FunnelKeys(rows[1..], key);
      CountAbsent(rows[1..], key);
      if key in rest {
        TotalWithout(rest, key);
      } else {
        assert rest - {key} == rest;
      }
    }
  }

  function Ids(rows: seq<Event>): set<Option<string>> {
    set r | r in rows && r.id.Some? :: r.id
  }

  lemma {:induction false} DistinctIdsCount(rows: seq<Event>)
    requires DistinctIds(rows) && forall r :: r in rows ==> r.id.Some?
    ensures |Ids(rows)| == |rows|
  {
    if rows != [] {
      DistinctIdsCount(rows[1..]);
      assert rows == [rows[0]] + rows[1..];
      assert Ids(rows) == {rows[0].id} + Ids(rows[1..]);
    }
  }

  /** End to end: gold counts every distinct id of bronze once, so its counts add up to the
      number of silver rows, which is the number of ids bronze has seen. */
  lemma GoldCountsEveryIdOnce(bronze: seq<Event>, silver: seq<Event>, gold: map<Key, nat>)
    requires LatestPerId(bronze, silver) && silver != []
    ensures Total(GoldRun(gold, silver)) == |silver| == |Ids(bronze)|
    ensures forall key :: key in GoldRun(gold, silver) <==> exists r :: r in silver && KeyOf(r) == key
  {
    FunnelTotal(silver);
    DistinctIdsCount(silver);
    assert Ids(silver) == Ids(bronze) by {
      forall id | id in Ids(bronze) ensures id in Ids(silver) {
        var b :| b in bronze && b.id.Some? && b.id == id;
        assert HasId(silver, b.id);
        var k :| 0 <= k < |silver| && silver[k].id == b.id;
        assert silver[k] in silver;
      }
    }
  }

  // The fields the funnel groups by.
  predicate InGroup(r: Event, datum: Option<int>, onderdeel: Option<string>, status: Option<string>) {
    r.datum == datum && r.onderdeel == onderdeel && r.status == status
  }

  // The ids of the rows of one group.
  function GroupIds(rows: seq<Event>, datum: Option<int>, onderdeel: Option<string>, status: Option<string>)
    : set<Option<string>>
  {
    set r | r in rows && InGroup(r, datum, onderdeel, status) :: r.id
  }

  lemma GroupStep(rows: seq<Event>, datum: Option<int>, onderdeel: Option<string>, status: Option<string>)
    requires rows != [] && DistinctIds(rows)
    ensures var all, rest := GroupIds(rows, datum, onderdeel, status), GroupIds(rows[1..], datum, onderdeel, status);
      if InGroup(rows[0], datum, onderdeel, status) then all == rest + {rows[0].id} && rows[0].id !in rest
      else all == rest
  {
    assert rows == [rows[0]] + rows[1..];
    assert forall i :: 0 <= i < |rows[1..]| ==> rows[1..][i].id != rows[0].id;
  }

  lemma {:induction false} CountIsGroupIds(rows: seq<Event>, datum: Option<int>, onderdeel: Option<string>,
                                           status: Option<string>)
    requires DistinctIds(rows)
    ensures CountOf(rows, (datum, onderdeel, status)) == |GroupIds(rows, datum, onderdeel, status)|
  {
    if rows != [] {
      CountIsGroupIds(rows[1..], datum, onderdeel, status);
      GroupStep(rows, datum, onderdeel, status);
    }
  }

  /** The funnel of a silver that is not empty: a day, a department and a status make a row of
      gold exactly when some silver row has these three, and its count is the number of
      different ids among the silver rows that have them. An empty silver leaves gold alone. */
  lemma GoldGroups(silver: seq<Event>, gold: map<Key, nat>, datum: Option<int>, onderdeel: Option<string>,
                   status: Option<string>)
    requires DistinctIds(silver)
    ensures var after, key := GoldRun(gold, silver), (datum, onderdeel, status);
      if silver == [] then after == gold
      else
        && (key in after <==> exists r :: r in silver && InGroup(r, datum, onderdeel, status))
        && (key in after ==> after[key] == |GroupIds(silver, datum, onderdeel, status)|)
  {
    FunnelKeys(silver, (datum, onderdeel, status));
    CountIsGroupIds(silver, datum, onderdeel, status);
    assert forall r :: InGroup(r, datum, onderdeel, status) <==> KeyOf(r) == (datum, onderdeel, status);
  }

  // ----- from raw rows to gold -----

  /** A pipeline run: micro-batches of raw rows of all streams, and silver runs. */
  datatype RawStep = Batch(rows: seq<Raw>) | Silver(deduped: seq<Event>)

  // The bronze rows of one table, in the order they arrive.
  function RowsOf(raws: seq<Raw>, table: string): seq<string> {
    if raws == [] then []
    else (if TableOf(raws[0]) == Some(table) then [raws[0].payload] else []) + RowsOf(raws[1..], table)
  }

  function Parsed(rows: seq<string>, parse: string -> Event): seq<Event> {
    seq(|rows|, i requires 0 <= i < |rows| => parse(rows[i]))
  }

  // The steps of one table's lake; `parse` stands for reading the payload.
  function LakeSteps(steps: seq<RawStep>, table: string, parse: string -> Event): seq<Step> {
    if steps == [] then []
    else
      [match steps[0]
       case Batch(rows) => Append(Parsed(RowsOf(rows, table), parse))
       case Silver(deduped) => SilverRun(deduped)]
      + LakeSteps(steps[1..], table, parse)
  }

  function Delivered(steps: seq<RawStep>): seq<Raw> {
    if steps == [] then []
    else (match steps[0] case Batch(rows) => rows case Silver(_) => []) + Delivered(steps[1..])
  }

  lemma {:induction false} RowsArePayloads(raws: seq<Raw>, table: string)
    ensures multiset(RowsOf(raws, table)) == PayloadsOf(raws, table)
  {
    if raws != [] {
      RowsArePayloads(raws[1..], table);
    }
  }

  lemma {:induction false} RowsConcat(a: seq<Raw>, b: seq<Raw>, table: string)
    ensures RowsOf(a + b, table) == RowsOf(a, table) + RowsOf(b, table)
  {
    if a == [] {
      assert a + b == b;
    } else {
      assert (a + b)[1..] == a[1..] + b;
      RowsConcat(a[1..], b, table);
    }
  }

  lemma {:induction false} RowsAreRaws(raws: seq<Raw>, table: string, payload: string)
    ensures payload in RowsOf(raws, table)
      <==> exists r :: r in raws && TableOf(r) == Some(table) && r.payload == payload
  {
    if raws != [] {
      RowsAreRaws(raws[1..], table, payload);
      assert raws == [raws[0]] + raws[1..];
    }
  }

  lemma ParsedConcat(a: seq<string>, b: seq<string>, parse: string -> Event)
    ensures Parsed(a + b, parse) == Parsed(a, parse) + Parsed(b, parse)
  {
  }

  lemma {:induction false} BronzeIsDelivered(s: Lake, steps: seq<RawStep>, table: string, parse: string -> Event)
    ensures Run(s, LakeSteps(steps, table, parse)).bronze == s.bronze + Parsed(RowsOf(Delivered(steps), table), parse)
    decreases |steps|
  {
    if steps == [] {
      assert s.bronze + [] == s.bronze;
    } else {
      var all, rest := LakeSteps(steps, table, parse), Delivered(steps[1..]);
      assert all[1..] == LakeSteps(steps[1..], table, parse);
      BronzeIsDelivered(Next(s, all[0]), steps[1..], table, parse);
      match steps[0]
      case Batch(rows) =>
        var a, b := RowsOf(rows, table), RowsOf(rest, table);
        RowsConcat(rows, rest, table);
        ParsedConcat(a, b, parse);
        Regroup(s.bronze, Parsed(a, parse), Parsed(b, parse));
      case Silver(_) =>
        assert [] + rest == rest;
    }
  }

  // The event of a raw row of that table.
  ghost predicate Source(raws: seq<Raw>, table: string, parse: string -> Event, e: Event) {
    exists r :: r in raws && TableOf(r) == Some(table) && parse(r.payload) == e
  }

  lemma ParsedHasSource(raws: seq<Raw>, table: string, parse: string -> Event, e: Event)
    ensures e in Parsed(RowsOf(raws, table), parse) <==> Source(raws, table, parse, e)
  {
    var rows := RowsOf(raws, table);
    if e in Parsed(rows, parse) {
      var i :| 0 <= i < |rows| && parse(rows[i]) == e;
      RowsAreRaws(raws, table, rows[i]);
    }
    if Source(raws, table, parse, e) {
      var r :| r in raws && TableOf(r) == Some(table) && parse(r.payload) == e;
      RowsAreRaws(raws, table, r.payload);
      var i :| 0 <= i < |rows| && rows[i] == r.payload;
      assert Parsed(rows, parse)[i] == e;
    }
  }

  function RawIds(raws: seq<Raw>, table: string, parse: string -> Event): set<Option<string>> {
    set r | r in raws && TableOf(r) == Some(table) && parse(r.payload).id.Some? :: parse(r.payload).id
  }

  lemma RawIdsAreIds(raws: seq<Raw>, table: string, parse: string -> Event)
    ensures Ids(Parsed(RowsOf(raws, table), parse)) == RawIds(raws, table, parse)
  {
    var events := Parsed(RowsOf(raws, table), parse);
    forall id ensures id in Ids(events) <==> id in RawIds(raws, table, parse) {
      if id in Ids(events) {
        var e :| e in events && e.id.Some? && e.id == id;
        ParsedHasSource(raws, table, parse, e);
      }
      if id in RawIds(raws, table, parse) {
        var r :| r in raws && TableOf(r) == Some(table) && parse(r.payload).id.Some? && parse(r.payload).id == id;
        ParsedHasSource(raws, table, parse, parse(r.payload));
      }
    }
  }

  // Where the second has a source time, the first has one that is as late or later.
  predicate NotEarlier(r: Event, e: Event) {
    e.ts.Some? ==> r.ts.Some? && e.ts.value <= r.ts.value
  }

  // Gold's row of a group: there if some silver row is in the group, with their ids counted.
  ghost predicate GoldRowIs(gold: map<Key, nat>, silver: seq<Event>, datum: Option<int>, onderdeel: Option<string>,
                            status: Option<string>) {
    var key := (datum, onderdeel, status);
    && (key in gold <==> exists r :: r in silver && InGroup(r, datum, onderdeel, status))
    && (key in gold ==> gold[key] == |GroupIds(silver, datum, onderdeel, status)|)
  }

  /** The whole pipeline, over any micro-batches and silver runs: after one more silver run
      each silver row is some raw row routed to the table, and for each such raw row with an id
      silver has a row of that id whose source time is not earlier; gold has a row for each day,
      department and status of a silver row, with the number of ids that have them; and its
      counts add up to the number of different ids among the raw rows of the table. */
  lemma RawRowsReachGold(steps: seq<RawStep>, table: string, parse: string -> Event, deduped: seq<Event>,
                         gold: map<Key, nat>)
    requires Legal(NEW, LakeSteps(steps, table, parse))
    requires var bronze := Run(NEW, LakeSteps(steps, table, parse)).bronze; bronze != [] && LatestPerId(bronze, deduped)
    ensures var raws := Delivered(steps);
      var silver := Next(Run(NEW, LakeSteps(steps, table, parse)), SilverRun(deduped)).silver.value;
      && multiset(RowsOf(raws, table)) == PayloadsOf(raws, table)
      && DistinctIds(silver)
      && (forall e :: e in silver ==> Source(raws, table, parse, e))
      && (forall e :: Source(raws, table, parse, e) && e.id.Some? ==>
            exists r :: r in silver && r.id == e.id && NotEarlier(r, e))
      && (silver != [] ==> forall d, o, s :: GoldRowIs(GoldRun(gold, silver), silver, d, o, s))
      && (silver != [] ==> Total(GoldRun(gold, silver)) == |silver| == |RawIds(raws, table, parse)|)
  {
    var raws, lake := Delivered(steps), Run(NEW, LakeSteps(steps, table, parse));
    var silver := Next(lake, SilverRun(deduped)).silver.value;
    RowsArePayloads(raws, table);
    BronzeIsDelivered(NEW, steps, table, parse);
    assert lake.bronze == Parsed(RowsOf(raws, table), parse);
    SilverIsLatestOfAll(LakeSteps(steps, table, parse), deduped);
    forall e | e in silver ensures Source(raws, table, parse, e) {
      ParsedHasSource(raws, table, parse, e);
    }
    forall e | Source(raws, table, parse, e) && e.id.Some?
      ensures exists r :: r in silver && r.id == e.id && NotEarlier(r, e)
    {
      ParsedHasSource(raws, table, parse, e);
      HeldAndNotOlder(lake.bronze, silver, e);
    }
    RawIdsAreIds(raws, table, parse);
    if silver != [] {
      GoldCountsEveryIdOnce(lake.bronze, silver, gold);
      forall d, o, s ensures GoldRowIs(GoldRun(gold, silver), silver, d, o, s) {
        GoldGroups(silver, gold, d, o, s);
      }
    }
  }

  lemma HeldAndNotOlder(bronze: seq<Event>, silver: seq<Event>, e: Event)
    requires LatestPerId(bronze, silver) && e in bronze && e.id.Some?
    ensures exists r :: r in silver && r.id == e.id && NotEarlier(r, e)
  {
    assert HasId(silver, e.id);
    var k :| 0 <= k < |silver| && silver[k].id == e.id;
    assert silver[k] in silver;
  }
}
