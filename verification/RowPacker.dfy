/** The clean-up of a Superset dashboard: which charts of one name are kept, and how the
    kept ones are packed into rows of twelve columns. */
module RowPacker {

  const COLUMNS: nat := 12

  // ----- packing: the lengths of the rows -----

  function Sum(widths: seq<nat>): nat {
    if widths == [] then 0 else widths[0] + Sum(widths[1..])
  }

  // How many of the next charts still fit when `used` columns are taken.
  function Fit(widths: seq<nat>, used: nat): (k: nat)
    ensures k <= |widths|
  {
    if widths == [] || used + widths[0] > COLUMNS then 0 else 1 + Fit(widths[1..], used + widths[0])
  }

  // The first chart of a row is placed whatever its width.
  function FirstRow(widths: seq<nat>): (k: nat)
    requires widths != []
    ensures 1 <= k <= |widths|
  {
    1 + Fit(widths[1..], widths[0])
  }

  function Pack(widths: seq<nat>): seq<nat>
    decreases |widths|
  {
    if widths == [] then [] else [FirstRow(widths)] + Pack(widths[FirstRow(widths)..])
  }

  // ----- the layout built in place -----

  datatype Block = Block(number: nat, chartId: int, name: string, width: nat)

  // `zip` stops at the shortest list.
  function ZipLength(ids: seq<int>, names: seq<string>, widths: seq<nat>): (n: nat)
    ensures n <= |ids| && n <= |names| && n <= |widths|
    ensures n == |ids| || n == |names| || n == |widths|
  {
    if |ids| <= |names| && |ids| <= |widths| then |ids| else if |names| <= |widths| then |names| else |widths|
  }

  function Blocks(ids: seq<int>, names: seq<string>, widths: seq<nat>): seq<Block> {
    var n := ZipLength(ids, names, widths);
    seq(n, i requires 0 <= i < n => Block(i + 1, ids[i], names[i], widths[i]))
  }

  function Flat(rows: seq<seq<Block>>): seq<Block> {
    if rows == [] then [] else rows[0] + Flat(rows[1..])
  }

  function Lengths(rows: seq<seq<Block>>): seq<nat> {
    seq(|rows|, i requires 0 <= i < |rows| => |rows[i]|)
  }

  lemma {:induction false} FlatAppend(rows: seq<seq<Block>>, row: seq<Block>)
    ensures Flat(rows + [row]) == Flat(rows) + row
  {
    if rows == [] {
      assert [row][1..] == [];
      assert row + [] == row && [] + [row] == [row];
    } else {
      assert (rows + [row])[1..] == rows[1..] + [row];
      FlatAppend(rows[1..], row);
    }
  }

  // Packing with one row open: `open` charts are in it, taking `used` columns.
  function PackFrom(open: nat, used: nat, widths: seq<nat>): seq<nat> {
    [open + Fit(widths, used)] + Pack(widths[Fit(widths, used)..])
  }

  lemma PackStarts(widths: seq<nat>)
    requires widths != []
    ensures Pack(widths) == PackFrom(1, widths[0], widths[1..])
  {
    assert widths[FirstRow(widths)..] == widths[1..][FirstRow(widths) - 1..];
  }

  lemma PackCloses(open: nat, used: nat, widths: seq<nat>)
    requires widths == [] || used + widths[0] > COLUMNS
    ensures PackFrom(open, used, widths) == [open] + Pack(widths)
  {
    assert widths[0..] == widths;
  }

  lemma PackExtends(open: nat, used: nat, widths: seq<nat>)
    requires widths != [] && used + widths[0] <= COLUMNS
    ensures PackFrom(open, used, widths) == PackFrom(open + 1, used + widths[0], widths[1..])
  {
    var k := Fit(widths, used);
    assert widths[k..] == widths[1..][k - 1..];
  }

  // A chart that does not fit closes the open row and opens the next.
  lemma CloseRow(closed: seq<nat>, open: nat, used: nat, rest: seq<nat>)
    requires rest != [] && used + rest[0] > COLUMNS
    ensures closed + PackFrom(open, used, rest) == closed + [open] + PackFrom(1, rest[0], rest[1..])
  {
    PackCloses(open, used, rest);
    PackStarts(rest);
  }

  lemma LengthsAppend(rows: seq<seq<Block>>, row: seq<Block>)
    ensures Lengths(rows + [row]) == Lengths(rows) + [|row|]
  {
  }

  /** The layout while it is built: the closed rows, and the open one with its used columns. */
  datatype Layout = Layout(rows: seq<seq<Block>>, row: seq<Block>, used: nat)

  const EMPTY: Layout := Layout([], [], 0)

  function Place(l: Layout, block: Block): Layout {
    if l.row == [] then Layout(l.rows, [block], block.width)
    else if l.used + block.width > COLUMNS then Layout(l.rows + [l.row], [block], block.width)
    else Layout(l.rows, l.row + [block], l.used + block.width)
  }

  function Rows(l: Layout): seq<seq<Block>> {
    if l.row == [] then l.rows else l.rows + [l.row]
  }

  function PlaceAll(l: Layout, blocks: seq<Block>): Layout
    decreases |blocks|
  {
    if blocks == [] then l else PlaceAll(Place(l, blocks[0]), blocks[1..])
  }

  /** `zip` of the ids with the fixed names and widths, row by row; `row` is the open one. */
  method BuildLayout(ids: seq<int>, names: seq<string>, widths: seq<nat>) returns (rows: seq<seq<Block>>)
    ensures rows == Rows(PlaceAll(EMPTY, Blocks(ids, names, widths)))
  {
    rows := [];
    var row: seq<Block>, used: nat := [], 0;
    var i, n := 0, ZipLength(ids, names, widths);
    ghost var blocks := Blocks(ids, names, widths);
    while i < n
      invariant 0 <= i <= n
      invariant PlaceAll(Layout(rows, row, used), blocks[i..]) == PlaceAll(EMPTY, blocks)
    {
      var block := Block(i + 1, ids[i], names[i], widths[i]);
      assert blocks[i..][0] == block && blocks[i..][1..] == blocks[i + 1..];
      if row == [] {
        row, used := [block], widths[i];
      } else if used + widths[i] > COLUMNS {
        rows := rows + [row];
        row, used := [block], widths[i];
      } else {
        row, used := row + [block], used + widths[i];
      }
      i := i + 1;
    }
    if row != [] {
      rows := rows + [row];
    }
  }

  function Widths(blocks: seq<Block>): seq<nat> {
    seq(|blocks|, i requires 0 <= i < |blocks| => blocks[i].width)
  }

  // What an open layout and the blocks to come are packed into.
  function PackLayout(l: Layout, widths: seq<nat>): seq<nat> {
    Lengths(l.rows) + if l.row == [] then Pack(widths) else PackFrom(|l.row|, l.used, widths)
  }

  // The three branches of `Place`.
  lemma OpenPacks(l: Layout, block: Block, widths: seq<nat>)
    requires l.row == [] && widths != [] && widths[0] == block.width
    ensures PackLayout(Place(l, block), widths[1..]) == PackLayout(l, widths)
  {
    PackStarts(widths);
  }

  lemma ClosePacks(l: Layout, block: Block, widths: seq<nat>)
    requires l.row != [] && l.used + block.width > COLUMNS && widths != [] && widths[0] == block.width
    ensures PackLayout(Place(l, block), widths[1..]) == PackLayout(l, widths)
  {
    CloseRow(Lengths(l.rows), |l.row|, l.used, widths);
    LengthsAppend(l.rows, l.row);
  }

  lemma PlacePacks(l: Layout, block: Block, widths: seq<nat>)
    requires widths != [] && widths[0] == block.width
    ensures PackLayout(Place(l, block), widths[1..]) == PackLayout(l, widths)
  {
    if l.row == [] {
      OpenPacks(l, block, widths);
    } else if l.used + block.width > COLUMNS {
      ClosePacks(l, block, widths);
    } else {
      PackExtends(|l.row|, l.used, widths);
    }
  }

  lemma WidthsFirst(blocks: seq<Block>)
    requires blocks != []
    ensures Widths(blocks) != [] && Widths(blocks)[0] == blocks[0].width && Widths(blocks)[1..] == Widths(blocks[1..])
  {
  }

  lemma RowsPack(l: Layout)
    ensures Lengths(Rows(l)) == PackLayout(l, [])
  {
    if l.row != [] {
      PackCloses(|l.row|, l.used, []);
      LengthsAppend(l.rows, l.row);
    }
  }

  lemma {:induction false} PlaceAllPacks(l: Layout, blocks: seq<Block>)
    ensures Lengths(Rows(PlaceAll(l, blocks))) == PackLayout(l, Widths(blocks))
    decreases |blocks|
  {
    if blocks == [] {
      RowsPack(l);
    } else {
      PlaceAllPacks(Place(l, blocks[0]), blocks[1..]);
      WidthsFirst(blocks);
      PlacePacks(l, blocks[0], Widths(blocks));
    }
  }

  lemma PlaceIsFlat(l: Layout, block: Block)
    ensures Flat(Rows(Place(l, block))) == Flat(Rows(l)) + [block]
  {
    var t := Place(l, block);
    FlatAppend(t.rows, t.row);
    FlatAppend(l.rows, l.row);
    if l.row != [] && t.rows == l.rows {
      assert Flat(l.rows) + (l.row + [block]) == Flat(l.rows) + l.row + [block];
    }
  }

  lemma {:induction false} PlaceAllIsFlat(l: Layout, blocks: seq<Block>)
    ensures Flat(Rows(PlaceAll(l, blocks))) == Flat(Rows(l)) + blocks
    decreases |blocks|
  {
    if blocks == [] {
      assert Flat(Rows(l)) + [] == Flat(Rows(l));
    } else {
      PlaceIsFlat(l, blocks[0]);
      PlaceAllIsFlat(Place(l, blocks[0]), blocks[1..]);
      assert Flat(Rows(l)) + [blocks[0]] + blocks[1..] == Flat(Rows(l)) + blocks;
    }
  }

  function Least(a: nat, b: nat): nat {
    if a <= b then a else b
  }

  /** The layout places every chart once and in order, with its name, width and number, and its
      rows are those of Pack. */
  lemma LayoutIsThePacking(ids: seq<int>, names: seq<string>, widths: seq<nat>)
    ensures var rows := Rows(PlaceAll(EMPTY, Blocks(ids, names, widths)));
      && |Flat(rows)| == Least(|ids|, Least(|names|, |widths|))
      && (forall i :: 0 <= i < |Flat(rows)| ==> Flat(rows)[i] == Block(i + 1, ids[i], names[i], widths[i]))
      && Lengths(rows) == Pack(widths[..|Flat(rows)|])
  {
    var blocks := Blocks(ids, names, widths);
    PlaceAllIsFlat(EMPTY, blocks);
    PlaceAllPacks(EMPTY, blocks);
    assert Widths(blocks) == widths[..ZipLength(ids, names, widths)];
    assert Flat(Rows(EMPTY)) == [] && [] + blocks == blocks;
    assert [] + Pack(Widths(blocks)) == Pack(Widths(blocks));
  }

  // ----- rows are full, and few -----

  // `lengths` cuts `widths` into rows that keep to twelve columns.
  predicate FitsRows(widths: seq<nat>, lengths: seq<nat>)
    decreases |lengths|
  {
    if lengths == [] then widths == []
    else lengths[0] <= |widths| && Sum(widths[..lengths[0]]) <= COLUMNS && FitsRows(widths[lengths[0]..], lengths[1..])
  }

  predicate Narrow(widths: seq<nat>) {
    forall i :: 0 <= i < |widths| ==> widths[i] <= COLUMNS
  }

  // The fit is right, and the longest there is.
  lemma {:induction false} FitIsLongest(widths: seq<nat>, used: nat, a: nat)
    requires used <= COLUMNS && a <= |widths|
    ensures used + Sum(widths[..Fit(widths, used)]) <= COLUMNS
    ensures used + Sum(widths[..a]) <= COLUMNS ==> a <= Fit(widths, used)
  {
    var k := Fit(widths, used);
    if widths != [] && used + widths[0] <= COLUMNS {
      FitIsLongest(widths[1..], used + widths[0], if a == 0 then 0 else a - 1);
      assert widths[..k][1..] == widths[1..][..k - 1];
      if a > 0 {
        assert widths[..a][1..] == widths[1..][..a - 1];
      }
    }
  }

  lemma FirstRowIsLongest(widths: seq<nat>, a: nat)
    requires widths != [] && widths[0] <= COLUMNS && a <= |widths|
    ensures Sum(widths[..FirstRow(widths)]) <= COLUMNS
    ensures Sum(widths[..a]) <= COLUMNS ==> a <= FirstRow(widths)
  {
    FitIsLongest(widths[1..], widths[0], if a == 0 then 0 else a - 1);
    var k := FirstRow(widths);
    assert widths[..k][1..] == widths[1..][..k - 1];
    if a > 0 {
      assert widths[..a][1..] == widths[1..][..a - 1];
    }
  }

  lemma {:induction false} PackFits(widths: seq<nat>)
    requires Narrow(widths)
    ensures FitsRows(widths, Pack(widths))
    decreases |widths|
  {
    if widths != [] {
      FirstRowIsLongest(widths, 0);
      PackFits(widths[FirstRow(widths)..]);
      assert Pack(widths)[1..] == Pack(widths[FirstRow(widths)..]);
    }
  }

  lemma {:induction false} SumDrop(widths: seq<nat>, a: nat)
    requires 0 < a <= |widths|
    ensures Sum(widths[1..][..a - 1]) <= Sum(widths[..a])
  {
    assert widths[..a][1..] == widths[1..][..a - 1];
  }

  // The first row without the first chart reaches at least as far.
  lemma NextRowReaches(widths: seq<nat>)
    requires Narrow(widths) && |widths| > 1
    ensures FirstRow(widths) <= FirstRow(widths[1..]) + 1
  {
    var k := FirstRow(widths);
    FirstRowIsLongest(widths, k);
    SumDrop(widths, k);
    FirstRowIsLongest(widths[1..], k - 1);
  }

  lemma LeaveOutOne(widths: seq<nat>)
    requires Narrow(widths) && widths != []
    ensures |Pack(widths[1..])| <= |Pack(widths)|
    decreases |widths|, 0
  {
    if |widths| > 1 {
      var k, k' := FirstRow(widths), FirstRow(widths[1..]);
      NextRowReaches(widths);
      FewerChartsFewerRows(widths[k..], k' + 1 - k);
      assert widths[1..][k'..] == widths[k..][k' + 1 - k..];
    }
  }

  // Leaving out charts at the front never takes more rows.
  lemma {:induction false} FewerChartsFewerRows(widths: seq<nat>, d: nat)
    requires Narrow(widths) && d <= |widths|
    ensures |Pack(widths[d..])| <= |Pack(widths)|
    decreases |widths|, 1
  {
    if d == 0 {
      assert widths[0..] == widths;
    } else {
      LeaveOutOne(widths);
      FewerChartsFewerRows(widths[1..], d - 1);
      assert widths[d..] == widths[1..][d - 1..];
    }
  }

  lemma NarrowTail(widths: seq<nat>, a: nat)
    requires Narrow(widths) && a <= |widths|
    ensures Narrow(widths[a..])
  {
  }

  // Starting later never takes more rows.
  lemma LaterFewerRows(widths: seq<nat>, a: nat, k: nat)
    requires Narrow(widths) && a <= k <= |widths|
    ensures |Pack(widths[k..])| <= |Pack(widths[a..])|
  {
    var rest := widths[a..];
    NarrowTail(widths, a);
    assert widths[k..] == rest[k - a..];
    FewerChartsFewerRows(rest, k - a);
  }

  lemma PackLength(widths: seq<nat>)
    requires widths != []
    ensures |Pack(widths)| == 1 + |Pack(widths[FirstRow(widths)..])|
  {
  }

  lemma {:induction false} NoFewerRows(widths: seq<nat>, lengths: seq<nat>)
    requires Narrow(widths) && FitsRows(widths, lengths)
    ensures |Pack(widths)| <= |lengths|
    decreases |lengths|
  {
    if widths != [] {
      var a := lengths[0];
      FirstRowIsLongest(widths, a);
      NarrowTail(widths, a);
      NoFewerRows(widths[a..], lengths[1..]);
      LaterFewerRows(widths, a, FirstRow(widths));
      PackLength(widths);
    }
  }

  // The row takes what fits, one chart at least, and the next chart would not fit any more.
  predicate TakesWhatFits(widths: seq<nat>, n: nat) {
    && 1 <= n <= |widths|
    && (n == 1 || Sum(widths[..n]) <= 12)
    && (n < |widths| ==> Sum(widths[..n]) + widths[n] > 12)
  }

  predicate Greedy(widths: seq<nat>, lengths: seq<nat>)
    decreases |lengths|
  {
    if lengths == [] then widths == []
    else TakesWhatFits(widths, lengths[0]) && Greedy(widths[lengths[0]..], lengths[1..])
  }

  lemma {:induction false} FitStops(widths: seq<nat>, used: nat)
    ensures var k := Fit(widths, used);
      && (k > 0 ==> used + Sum(widths[..k]) <= COLUMNS)
      && (k < |widths| ==> used + Sum(widths[..k]) + widths[k] > COLUMNS)
  {
    var k := Fit(widths, used);
    if k > 0 {
      FitStops(widths[1..], used + widths[0]);
      assert widths[..k][1..] == widths[1..][..k - 1];
    }
  }

  lemma FirstRowTakes(widths: seq<nat>)
    requires widths != []
    ensures TakesWhatFits(widths, FirstRow(widths))
  {
    var k := FirstRow(widths);
    FitStops(widths[1..], widths[0]);
    assert widths[..k][1..] == widths[1..][..k - 1];
  }

  /** The rows are filled greedily, whatever the widths: each takes charts until the next one
      does not fit, and only a single chart may be wider than a row. */
  lemma {:induction false} PackIsGreedy(widths: seq<nat>)
    ensures Greedy(widths, Pack(widths))
    decreases |widths|
  {
    if widths != [] {
      FirstRowTakes(widths);
      PackIsGreedy(widths[FirstRow(widths)..]);
      assert Pack(widths)[1..] == Pack(widths[FirstRow(widths)..]);
    }
  }

  /** For charts of at most twelve columns, every row keeps to twelve, and no other way to
      cut the same order into such rows takes fewer of them. */
  lemma PackIsOptimal(widths: seq<nat>)
    requires Narrow(widths)
    ensures FitsRows(widths, Pack(widths))
    ensures forall lengths :: FitsRows(widths, lengths) ==> |Pack(widths)| <= |lengths|
  {
    PackFits(widths);
    forall lengths | FitsRows(widths, lengths) ensures |Pack(widths)| <= |lengths| {
      NoFewerRows(widths, lengths);
    }
  }

  // ----- which charts are kept -----

  datatype Chart = Chart(id: int, name: string)

  function IdsOf(charts: seq<Chart>, name: string): seq<int> {
    if charts == [] then []
    else (if charts[0].name == name then [charts[0].id] else []) + IdsOf(charts[1..], name)
  }

  function InsertDown(sorted: seq<int>, id: int): (r: seq<int>)
    ensures r != [] && multiset(r) == multiset(sorted) + multiset{id}
    ensures r[0] == if sorted == [] || sorted[0] <= id then id else sorted[0]
  {
    if sorted == [] || sorted[0] <= id then [id] + sorted
    else
      assert sorted == [sorted[0]] + sorted[1..];
      [sorted[0]] + InsertDown(sorted[1..], id)
  }

  function SortDown(ids: seq<int>): (r: seq<int>)
    ensures multiset(r) == multiset(ids) && |r| == |ids|
    ensures forall id :: id in ids ==> id <= r[0]
  {
    if ids == [] then []
    else
      assert ids == [ids[0]] + ids[1..];
      var r := InsertDown(SortDown(ids[1..]), ids[0]);
      assert |multiset(r)| == |multiset(ids)|;
      r
  }

  // The names that have a chart.
  function Present(names: seq<string>, charts: seq<Chart>): seq<string> {
    if names == [] then []
    else (if IdsOf(charts, names[0]) == [] then [] else [names[0]]) + Present(names[1..], charts)
  }

  // Of the ids of one name: the first in descending order, and the others.
  function First(charts: seq<Chart>, name: string): seq<int> {
    if IdsOf(charts, name) == [] then [] else [SortDown(IdsOf(charts, name))[0]]
  }

  function Others(charts: seq<Chart>, name: string): seq<int> {
    if IdsOf(charts, name) == [] then [] else SortDown(IdsOf(charts, name))[1..]
  }

  function Keep(names: seq<string>, charts: seq<Chart>): seq<int>
    decreases |names|
  {
    if names == [] then [] else First(charts, names[0]) + Keep(names[1..], charts)
  }

  function Drop(names: seq<string>, charts: seq<Chart>): seq<int>
    decreases |names|
  {
    if names == [] then [] else Others(charts, names[0]) + Drop(names[1..], charts)
  }

  function AllIds(names: seq<string>, charts: seq<Chart>): seq<int>
    decreases |names|
  {
    if names == [] then [] else IdsOf(charts, names[0]) + AllIds(names[1..], charts)
  }

  lemma KeepOneMore(keep: seq<int>, delete: seq<int>, names: seq<string>, charts: seq<Chart>, k: nat)
    requires k < |names|
    ensures keep + Keep(names[k..], charts) == keep + First(charts, names[k]) + Keep(names[k + 1..], charts)
    ensures delete + Drop(names[k..], charts) == delete + Others(charts, names[k]) + Drop(names[k + 1..], charts)
  {
    assert names[k..][0] == names[k] && names[k..][1..] == names[k + 1..];
  }

  method KeepAndDelete(names: seq<string>, charts: seq<Chart>) returns (keep: seq<int>, delete: seq<int>)
    ensures keep == Keep(names, charts) && delete == Drop(names, charts)
  {
    keep, delete := [], [];
    var k := 0;
    while k < |names|
      invariant 0 <= k <= |names|
      invariant keep + Keep(names[k..], charts) == Keep(names, charts)
      invariant delete + Drop(names[k..], charts) == Drop(names, charts)
    {
      KeepOneMore(keep, delete, names, charts, k);
      keep, delete := keep + First(charts, names[k]), delete + Others(charts, names[k]);
      k := k + 1;
    }
  }

  /** Keep and delete split up the ids of all charts with a listed name: none is left out,
      none is in both more often than it was listed. */
  lemma {:induction false} KeepAndDropPartition(names: seq<string>, charts: seq<Chart>)
    ensures multiset(Keep(names, charts)) + multiset(Drop(names, charts)) == multiset(AllIds(names, charts))
    decreases |names|
  {
    if names != [] {
      KeepAndDropPartition(names[1..], charts);
      var ids := SortDown(IdsOf(charts, names[0]));
      if ids != [] {
        assert ids == [ids[0]] + ids[1..];
      }
    }
  }

  // Each kept id is the greatest of the name at its place.
  predicate AllGreatest(keep: seq<int>, present: seq<string>, charts: seq<Chart>) {
    |keep| == |present| && forall i :: 0 <= i < |keep| ==> Greatest(keep[i], IdsOf(charts, present[i]))
  }

  lemma GreatestCons(id: int, name: string, keep: seq<int>, present: seq<string>, charts: seq<Chart>)
    requires AllGreatest(keep, present, charts) && Greatest(id, IdsOf(charts, name))
    ensures AllGreatest([id] + keep, [name] + present, charts)
  {
    var keep', present' := [id] + keep, [name] + present;
    forall i | 0 <= i < |keep'| ensures Greatest(keep'[i], IdsOf(charts, present'[i])) {
      if i > 0 {
        assert keep'[i] == keep[i - 1] && present'[i] == present[i - 1];
      }
    }
  }

  lemma KeepStep(names: seq<string>, charts: seq<Chart>)
    requires names != []
    ensures var ids, keep, present := IdsOf(charts, names[0]), Keep(names[1..], charts), Present(names[1..], charts);
      if ids == [] then Keep(names, charts) == keep && Present(names, charts) == present
      else Keep(names, charts) == [SortDown(ids)[0]] + keep && Present(names, charts) == [names[0]] + present
  {
  }

  /** Kept is, per name that has a chart, the greatest of its ids. */
  lemma {:induction false} KeepsTheGreatest(names: seq<string>, charts: seq<Chart>)
    ensures AllGreatest(Keep(names, charts), Present(names, charts), charts)
    decreases |names|
  {
    if names != [] {
      var ids := IdsOf(charts, names[0]);
      KeepsTheGreatest(names[1..], charts);
      KeepStep(names, charts);
      if ids != [] {
        FirstIsGreatest(ids);
        GreatestCons(SortDown(ids)[0], names[0], Keep(names[1..], charts), Present(names[1..], charts), charts);
      }
    }
  }

  predicate Greatest(id: int, ids: seq<int>) {
    id in ids && forall other :: other in ids ==> other <= id
  }

  lemma FirstIsGreatest(ids: seq<int>)
    requires ids != []
    ensures Greatest(SortDown(ids)[0], ids)
  {
    assert SortDown(ids)[0] in multiset(SortDown(ids));
  }

  // ----- ids against names -----

  // A chart has one name.
  ghost predicate OneName(charts: seq<Chart>) {
    forall a, b :: a in charts && b in charts && a.id == b.id ==> a.name == b.name
  }

  lemma {:induction false} IdHasChart(charts: seq<Chart>, name: string, id: int)
    requires id in IdsOf(charts, name)
    ensures Chart(id, name) in charts
  {
    if !(charts[0].name == name && charts[0].id == id) {
      IdHasChart(charts[1..], name, id);
    }
  }

  // ----- kept and deleted -----

  // How often the listing shows a chart.
  function Times(charts: seq<Chart>, id: int): nat {
    if charts == [] then 0 else (if charts[0].id == id then 1 else 0) + Times(charts[1..], id)
  }

  lemma {:induction false} TimesByName(charts: seq<Chart>, name: string, id: int)
    requires forall c :: c in charts && c.id == id ==> c.name == name
    ensures multiset(IdsOf(charts, name))[id] == Times(charts, id)
  {
    if charts != [] {
      assert charts == [charts[0]] + charts[1..];
      TimesByName(charts[1..], name, id);
    }
  }

  lemma {:induction false} AllIdsHave(names: seq<string>, charts: seq<Chart>, id: int)
    ensures id in AllIds(names, charts) <==> exists n :: n in names && id in IdsOf(charts, n)
    decreases |names|
  {
    if names != [] {
      AllIdsHave(names[1..], charts, id);
      assert names[0] in names && forall n :: n in names <==> n == names[0] || n in names[1..];
      assert id in AllIds(names, charts) <==> id in IdsOf(charts, names[0]) || id in AllIds(names[1..], charts);
    }
  }

  // An id belongs to one of the names only.
  lemma OnlyHere(names: seq<string>, charts: seq<Chart>, id: int)
    requires OneName(charts) && DistinctNames(names) && names != [] && id in IdsOf(charts, names[0])
    ensures id !in AllIds(names[1..], charts)
  {
    AllIdsHave(names[1..], charts, id);
    if n :| n in names[1..] && id in IdsOf(charts, n) {
      IdHasChart(charts, n, id);
      IdHasChart(charts, names[0], id);
    }
  }

  lemma {:induction false} TimesInAll(names: seq<string>, charts: seq<Chart>, id: int)
    requires OneName(charts) && DistinctNames(names) && id in AllIds(names, charts)
    ensures multiset(AllIds(names, charts))[id] == Times(charts, id)
    decreases |names|
  {
    if id in IdsOf(charts, names[0]) {
      OnlyHere(names, charts, id);
      IdHasChart(charts, names[0], id);
      TimesByName(charts, names[0], id);
      assert multiset(AllIds(names[1..], charts))[id] == 0;
    } else {
      TimesInAll(names[1..], charts, id);
      assert multiset(IdsOf(charts, names[0]))[id] == 0;
    }
  }

  lemma FirstIsOfName(names: seq<string>, charts: seq<Chart>, id: int)
    requires names != []
    ensures id in First(charts, names[0]) ==> id in IdsOf(charts, names[0])
    ensures multiset(First(charts, names[0]))[id] <= 1
    ensures id in Keep(names[1..], charts) ==> id in AllIds(names[1..], charts)
  {
    var first := First(charts, names[0]);
    if first != [] {
      FirstIsGreatest(IdsOf(charts, names[0]));
      assert first == [first[0]] && multiset(first) == multiset{first[0]};
    }
    KeepAndDropPartition(names[1..], charts);
    if id in Keep(names[1..], charts) {
      assert id in multiset(Keep(names[1..], charts)) + multiset(Drop(names[1..], charts));
      assert id in multiset(AllIds(names[1..], charts));
    }
  }

  lemma {:induction false} KeptOnce(names: seq<string>, charts: seq<Chart>, id: int)
    requires OneName(charts) && DistinctNames(names)
    ensures multiset(Keep(names, charts))[id] <= 1
    decreases |names|
  {
    if names != [] {
      KeptOnce(names[1..], charts, id);
      FirstIsOfName(names, charts, id);
      if id in First(charts, names[0]) {
        OnlyHere(names, charts, id);
        assert multiset(Keep(names[1..], charts))[id] == 0;
      } else {
        assert multiset(First(charts, names[0]))[id] == 0;
      }
    }
  }

  /** The clean-up as a whole: each chart with a listed name is kept or deleted, and a kept one
      is deleted as well exactly when the listing showed it twice, as a listing by pages can. */
  lemma KeptIsDeletedIff(names: seq<string>, charts: seq<Chart>, id: int)
    requires OneName(charts) && DistinctNames(names)
    ensures id in AllIds(names, charts) <==> id in Keep(names, charts) || id in Drop(names, charts)
    ensures id in Keep(names, charts) ==> (id in Drop(names, charts) <==> Times(charts, id) > 1)
  {
    KeepAndDropPartition(names, charts);
    KeptOnce(names, charts, id);
    var keep, drop := multiset(Keep(names, charts)), multiset(Drop(names, charts));
    assert multiset(AllIds(names, charts))[id] == keep[id] + drop[id];
    assert id in AllIds(names, charts) <==> id in multiset(AllIds(names, charts));
    if id in keep {
      TimesInAll(names, charts, id);
    }
  }

  // ----- missing names -----

  // Missing names only at the end.
  predicate NoGap(names: seq<string>, charts: seq<Chart>) {
    forall i, j :: 0 <= i < j < |names| && IdsOf(charts, names[i]) == [] ==> IdsOf(charts, names[j]) == []
  }

  lemma {:induction false} PresentIsShort(names: seq<string>, charts: seq<Chart>)
    ensures |Present(names, charts)| <= |names|
    ensures forall n :: n in Present(names, charts) ==> n in names && IdsOf(charts, n) != []
  {
    if names != [] {
      PresentIsShort(names[1..], charts);
    }
  }

  predicate DistinctNames(names: seq<string>) {
    names == [] || (names[0] !in names[1..] && DistinctNames(names[1..]))
  }

  lemma PrefixCons(x: string, p: seq<string>, s: seq<string>)
    ensures [x] + p <= [x] + s <==> p <= s
  {
    assert ([x] + p)[1..] == p && ([x] + s)[1..] == s;
  }

  lemma PrefixWithout(p: seq<string>, s: seq<string>)
    requires s != [] && s[0] !in p
    ensures p <= s <==> p == []
  {
    assert p != [] ==> p[0] in p;
  }

  lemma {:induction false} PrefixIffNoGap(names: seq<string>, charts: seq<Chart>)
    requires DistinctNames(names)
    ensures (Present(names, charts) <= names) <==> NoGap(names, charts)
  {
    if names != [] {
      var present := Present(names[1..], charts);
      PrefixIffNoGap(names[1..], charts);
      GapSplits(names, charts);
      if IdsOf(charts, names[0]) == [] {
        PresentIsShort(names[1..], charts);
        PrefixWithout(present, names);
      } else {
        PrefixCons(names[0], present, names[1..]);
        assert names == [names[0]] + names[1..];
      }
    }
  }

  lemma {:induction false} AbsentAll(names: seq<string>, charts: seq<Chart>)
    ensures Present(names, charts) == [] <==> forall i :: 0 <= i < |names| ==> IdsOf(charts, names[i]) == []
  {
    if names != [] {
      AbsentAll(names[1..], charts);
      assert forall i :: 0 < i < |names| ==> names[i] == names[1..][i - 1];
      assert forall i :: 0 <= i < |names| - 1 ==> names[1..][i] == names[i + 1];
    }
  }

  lemma GapSplits(names: seq<string>, charts: seq<Chart>)
    requires names != []
    ensures NoGap(names, charts) <==>
      NoGap(names[1..], charts) && (IdsOf(charts, names[0]) == [] ==> Present(names[1..], charts) == [])
  {
    var rest := names[1..];
    AbsentAll(rest, charts);
    assert forall i :: 0 <= i < |rest| ==> rest[i] == names[i + 1];
    if NoGap(rest, charts) && (IdsOf(charts, names[0]) == [] ==> Present(rest, charts) == []) {
      forall i, j | 0 <= i < j < |names| && IdsOf(charts, names[i]) == [] ensures IdsOf(charts, names[j]) == [] {
        assert names[j] == rest[j - 1];
        assert i > 0 ==> names[i] == rest[i - 1];
      }
    }
  }

  // The i-th kept id belongs to the i-th name exactly when that is the i-th present name.
  lemma KeptOfNameIff(names: seq<string>, charts: seq<Chart>, i: nat)
    requires OneName(charts) && i < |Keep(names, charts)|
    ensures i < |names| && i < |Present(names, charts)|
    ensures Keep(names, charts)[i] in IdsOf(charts, names[i]) <==> Present(names, charts)[i] == names[i]
  {
    KeepsTheGreatest(names, charts);
    PresentIsShort(names, charts);
    var id, present := Keep(names, charts)[i], Present(names, charts);
    assert Greatest(id, IdsOf(charts, present[i]));
    if id in IdsOf(charts, names[i]) {
      IdHasChart(charts, names[i], id);
      IdHasChart(charts, present[i], id);
    }
  }

  predicate Aligned(blocks: seq<Block>, charts: seq<Chart>) {
    forall i :: 0 <= i < |blocks| ==> blocks[i].chartId in IdsOf(charts, blocks[i].name)
  }

  /** The layout pairs ids with names by position, after names without a chart were
      skipped. So every block shows a chart of its own name exactly when the names without
      a chart come last. */
  lemma BlocksAreAlignedIff(names: seq<string>, charts: seq<Chart>, widths: seq<nat>)
    requires OneName(charts) && DistinctNames(names) && |names| <= |widths|
    ensures |Keep(names, charts)| <= |names|
    ensures Aligned(Blocks(Keep(names, charts), names, widths), charts) <==> NoGap(names, charts)
  {
    var keep, present := Keep(names, charts), Present(names, charts);
    assert |keep| == |present| <= |names| by {
      KeepsTheGreatest(names, charts);
      PresentIsShort(names, charts);
    }
    var blocks := Blocks(keep, names, widths);
    forall i: nat | i < |keep| ensures blocks[i].chartId in IdsOf(charts, blocks[i].name) <==> present[i] == names[i] {
      KeptOfNameIff(names, charts, i);
    }
    PrefixIff(present, names);
    PrefixIffNoGap(names, charts);
  }

  lemma PrefixIff(a: seq<string>, b: seq<string>)
    requires |a| <= |b|
    ensures a <= b <==> forall i :: 0 <= i < |a| ==> a[i] == b[i]
  {
  }
}
