/** The block parser of the Markdown printer, over the line classes its patterns decide. */
module MarkdownBlocks {

  /** Which patterns a line matches. A blank line matches none of the others. */
  datatype Line = Line(blank: bool, fence: bool, heading: bool, hrule: bool, row: bool, sep: bool,
                       ul: bool, ol: bool, quote: bool)

  predicate IsBlank(l: Line) {
    l == Line(true, false, false, false, false, false, false, false, false)
  }

  datatype Kind = Fence | Heading | Rule | Table | Bullets | Numbers | Quote | Paragraph

  /** The lines `lo .. hi` of a document, read as one block. */
  datatype Block = Block(kind: Kind, lo: nat, hi: nat)

  // A header row directly above a separator row.
  predicate TableAt(lines: seq<Line>, i: nat)
    requires i < |lines|
  {
    lines[i].row && i + 1 < |lines| && lines[i + 1].sep
  }

  /** The block a non-blank line opens; the first pattern that matches decides. */
  function KindAt(lines: seq<Line>, i: nat): Kind
    requires i < |lines|
  {
    var l := lines[i];
    if l.fence then Fence
    else if l.heading then Heading
    else if l.hrule then Rule
    else if TableAt(lines, i) then Table
    else if l.ul then Bullets
    else if l.ol then Numbers
    else if l.quote then Quote
    else Paragraph
  }

  /** Line `k` may go on in a block of the given kind. */
  predicate Continues(kind: Kind, lines: seq<Line>, k: nat)
    requires k < |lines|
  {
    match kind
    case Fence => !lines[k].fence
    case Heading => false
    case Rule => false
    case Table => lines[k].row
    case Bullets => lines[k].ul
    case Numbers => lines[k].ol
    case Quote => lines[k].quote
    case Paragraph => !lines[k].blank && KindAt(lines, k) == Paragraph
  }

  // Where the freely continuing part of a block begins.
  function Head(b: Block): nat {
    b.lo + if b.kind.Table? then 2 else 1
  }

  /** A block no closing fence ends. */
  predicate Open(lines: seq<Line>, b: Block)
    requires b.lo < b.hi <= |lines|
  {
    b.kind.Fence? && (b.hi == b.lo + 1 || !lines[b.hi - 1].fence)
  }

  // Where the content ends: before the closing fence of code that has one.
  function Tail(lines: seq<Line>, b: Block): nat
    requires b.lo < b.hi <= |lines|
  {
    if b.kind.Fence? && !Open(lines, b) then b.hi - 1 else b.hi
  }

  /** A block opened by its first line, of lines that continue it, and as long as can be. */
  ghost predicate IsBlock(lines: seq<Line>, b: Block) {
    && b.lo < b.hi <= |lines|
    && !lines[b.lo].blank
    && b.kind == KindAt(lines, b.lo)
    && Head(b) <= b.hi
    && (Open(lines, b) ==> b.hi == |lines|)
    && (forall k :: Head(b) <= k < Tail(lines, b) ==> Continues(b.kind, lines, k))
    && (Tail(lines, b) < |lines| ==> !Continues(b.kind, lines, Tail(lines, b)))
  }

  predicate AllBlank(lines: seq<Line>, lo: nat, hi: nat) {
    lo <= hi <= |lines| && forall k :: lo <= k < hi ==> lines[k].blank
  }

  /** The blocks, in order, are the lines `start .. end` but for blank lines between them. */
  ghost predicate Parses(lines: seq<Line>, start: nat, blocks: seq<Block>, end: nat)
    decreases |blocks|
  {
    if blocks == [] then
      AllBlank(lines, start, end)
    else
      && AllBlank(lines, start, blocks[0].lo)
      && IsBlock(lines, blocks[0])
      && Parses(lines, blocks[0].hi, blocks[1..], end)
  }

  lemma ParsesEarlier(lines: seq<Line>, start: nat, mid: nat, blocks: seq<Block>, end: nat)
    requires AllBlank(lines, start, mid) && Parses(lines, mid, blocks, end)
    ensures Parses(lines, start, blocks, end)
  {
  }

  lemma ParsesCons(lines: seq<Line>, start: nat, b: Block, rest: seq<Block>, end: nat)
    requires AllBlank(lines, start, b.lo) && IsBlock(lines, b) && Parses(lines, b.hi, rest, end)
    ensures Parses(lines, start, [b] + rest, end)
  {
    assert ([b] + rest)[1..] == rest;
  }

  lemma HeadFirst<T>(x: seq<T>, z: seq<T>)
    requires x != []
    ensures x + z == [x[0]] + (x[1..] + z)
  {
  }

  lemma {:induction false} ParsesAppend(lines: seq<Line>, start: nat, blocks: seq<Block>, mid: nat, more: seq<Block>,
                                        end: nat)
    requires Parses(lines, start, blocks, mid) && Parses(lines, mid, more, end)
    ensures Parses(lines, start, blocks + more, end)
    decreases |blocks|
  {
    if blocks == [] {
      assert blocks + more == more;
      ParsesEarlier(lines, start, mid, more, end);
    } else {
      ParsesAppend(lines, blocks[0].hi, blocks[1..], mid, more, end);
      ParsesCons(lines, start, blocks[0], blocks[1..] + more, end);
      HeadFirst(blocks, more);
    }
  }

  lemma ParsesBlank(lines: seq<Line>, blocks: seq<Block>, i: nat)
    requires Parses(lines, 0, blocks, i) && i < |lines| && lines[i].blank
    ensures Parses(lines, 0, blocks, i + 1)
  {
    assert Parses(lines, i, [], i + 1);
    ParsesAppend(lines, 0, blocks, i, [], i + 1);
    assert blocks + [] == blocks;
  }

  lemma ParsesOne(lines: seq<Line>, blocks: seq<Block>, b: Block)
    requires Parses(lines, 0, blocks, b.lo) && IsBlock(lines, b)
    ensures Parses(lines, 0, blocks + [b], b.hi)
  {
    assert [b][1..] == [] && Parses(lines, b.hi, [], b.hi);
    ParsesAppend(lines, 0, blocks, b.lo, [b], b.hi);
  }

  lemma EndsOpenAppend(lines: seq<Line>, blocks: seq<Block>, b: Block)
    requires b.lo < b.hi <= |lines|
    ensures EndsOpen(lines, blocks + [b]) <==> EndsOpen(lines, blocks) || Open(lines, b)
  {
    assert b in blocks + [b];
    if EndsOpen(lines, blocks) {
      var c :| c in blocks && c.lo < c.hi <= |lines| && Open(lines, c);
      assert c in blocks + [b];
    }
  }

  // ----- the parser -----

  method ParseTable(lines: seq<Line>, i: nat) returns (j: nat)
    requires i < |lines| && TableAt(lines, i)
    ensures i + 2 <= j <= |lines|
    ensures forall k :: i + 2 <= k < j ==> lines[k].row
    ensures j < |lines| ==> !lines[j].row
  {
    j := i + 2;
    while j < |lines| && lines[j].row
      invariant i + 2 <= j <= |lines|
      invariant forall k :: i + 2 <= k < j ==> lines[k].row
    {
      j := j + 1;
    }
  }

  method ParseList(lines: seq<Line>, i: nat, ordered: bool) returns (j: nat)
    requires i < |lines| && if ordered then lines[i].ol else lines[i].ul
    ensures i < j <= |lines|
    ensures forall k :: i <= k < j ==> if ordered then lines[k].ol else lines[k].ul
    ensures j < |lines| ==> !if ordered then lines[j].ol else lines[j].ul
  {
    j := i;
    while j < |lines|
      invariant i <= j <= |lines|
      invariant forall k :: i <= k < j ==> if ordered then lines[k].ol else lines[k].ul
    {
      var m := if ordered then lines[j].ol else lines[j].ul;
      if !m {
        break;
      }
      j := j + 1;
    }
  }

  method ParseFence(lines: seq<Line>, i: nat) returns (j: nat)
    requires i < |lines|
    ensures i < j <= |lines| + 1
    ensures forall k :: i < k < j - 1 ==> !lines[k].fence
    ensures j <= |lines| ==> i < j - 1 && lines[j - 1].fence
  {
    j := i + 1;
    while j < |lines| && !lines[j].fence
      invariant i < j <= |lines|
      invariant forall k :: i < k < j ==> !lines[k].fence
    {
      j := j + 1;
    }
    j := j + 1;
  }

  method ParseQuote(lines: seq<Line>, i: nat) returns (j: nat)
    requires i < |lines| && lines[i].quote
    ensures i < j <= |lines|
    ensures forall k :: i < k < j ==> lines[k].quote
    ensures j < |lines| ==> !lines[j].quote
  {
    j := i;
    while j < |lines| && lines[j].quote
      invariant i <= j <= |lines|
      invariant forall k :: i <= k < j ==> lines[k].quote
    {
      j := j + 1;
    }
  }

  method ParseParagraph(lines: seq<Line>, i: nat) returns (j: nat)
    requires i < |lines|
    ensures i < j <= |lines|
    ensures forall k :: i < k < j ==> Continues(Paragraph, lines, k)
    ensures j < |lines| ==> !Continues(Paragraph, lines, j)
  {
    j := i + 1;
    while j < |lines|
      invariant i < j <= |lines|
      invariant forall k :: i < k < j ==> Continues(Paragraph, lines, k)
    {
      var l := lines[j];
      if l.blank {
        break;
      }
      if l.heading || l.fence || l.hrule || l.ul || l.ol || l.quote || (l.row && j + 1 < |lines| && lines[j + 1].sep) {
        break;
      }
      j := j + 1;
    }
  }

  // The block at a non-blank line, and the index after it.
  method ParseBlock(lines: seq<Line>, i: nat) returns (b: Block, j: nat)
    requires i < |lines| && !lines[i].blank
    ensures IsBlock(lines, b) && b.lo == i
    ensures j == if Open(lines, b) then |lines| + 1 else b.hi
  {
    var l := lines[i];
    if l.fence {
      j := ParseFence(lines, i);
      b := Block(Fence, i, if j <= |lines| then j else |lines|);
    } else if l.heading {
      b, j := Block(Heading, i, i + 1), i + 1;
    } else if l.hrule {
      b, j := Block(Rule, i, i + 1), i + 1;
    } else if l.row && i + 1 < |lines| && lines[i + 1].sep {
      j := ParseTable(lines, i);
      b := Block(Table, i, j);
    } else if l.ul {
      j := ParseList(lines, i, false);
      b := Block(Bullets, i, j);
    } else if l.ol {
      j := ParseList(lines, i, true);
      b := Block(Numbers, i, j);
    } else if l.quote {
      j := ParseQuote(lines, i);
      b := Block(Quote, i, j);
    } else {
      j := ParseParagraph(lines, i);
      b := Block(Paragraph, i, j);
    }
  }

  /** The block loop. The index ends on the last line, or one past it after an open fence. */
  method ParseBlocks(lines: seq<Line>) returns (blocks: seq<Block>, end: nat)
    ensures Parses(lines, 0, blocks, |lines|)
    ensures end == if EndsOpen(lines, blocks) then |lines| + 1 else |lines|
  {
    var i, n := 0, |lines|;
    blocks := [];
    while i < n
      invariant 0 <= i <= n + 1
      invariant Parses(lines, 0, blocks, if i <= n then i else n)
      invariant i == n + 1 <==> EndsOpen(lines, blocks)
      decreases n - i
    {
      if lines[i].blank {
        ParsesBlank(lines, blocks, i);
        i := i + 1;
      } else {
        var b, j := ParseBlock(lines, i);
        ParsesOne(lines, blocks, b);
        EndsOpenAppend(lines, blocks, b);
        blocks, i := blocks + [b], j;
      }
    }
    end := i;
  }

  /** The document leaves a code fence open. */
  predicate EndsOpen(lines: seq<Line>, blocks: seq<Block>) {
    exists b :: b in blocks && b.lo < b.hi <= |lines| && Open(lines, b)
  }

  // ----- what a parse is -----

  lemma TailIsFixed(lines: seq<Line>, a: Block, b: Block)
    requires IsBlock(lines, a) && IsBlock(lines, b) && a.lo == b.lo
    ensures Tail(lines, a) >= Tail(lines, b)
  {
  }

  /** Two blocks from one line are one. */
  lemma BlockIsUnique(lines: seq<Line>, a: Block, b: Block)
    requires IsBlock(lines, a) && IsBlock(lines, b) && a.lo == b.lo
    ensures a == b
  {
    TailIsFixed(lines, a, b);
    TailIsFixed(lines, b, a);
  }

  /** Every document has one parse. */
  lemma {:induction false} ParseIsUnique(lines: seq<Line>, start: nat, a: seq<Block>, b: seq<Block>)
    requires Parses(lines, start, a, |lines|) && Parses(lines, start, b, |lines|)
    ensures a == b
    decreases |a|
  {
    if a != [] && b != [] {
      assert !lines[a[0].lo].blank && !lines[b[0].lo].blank;
      BlockIsUnique(lines, a[0], b[0]);
      ParseIsUnique(lines, a[0].hi, a[1..], b[1..]);
      assert a == [a[0]] + a[1..] && b == [b[0]] + b[1..];
    }
  }

  lemma {:induction false} BlocksOf(lines: seq<Line>, start: nat, blocks: seq<Block>, end: nat, i: nat)
    requires Parses(lines, start, blocks, end) && i < |blocks|
    ensures IsBlock(lines, blocks[i]) && start <= blocks[i].lo
    ensures forall j :: i < j < |blocks| ==> blocks[i].hi <= blocks[j].lo
    decreases |blocks|
  {
    if i > 0 {
      BlocksOf(lines, blocks[0].hi, blocks[1..], end, i - 1);
      forall j | i < j < |blocks| ensures blocks[i].hi <= blocks[j].lo {
        assert blocks[j] == blocks[1..][j - 1];
      }
    } else {
      forall j | 0 < j < |blocks| ensures blocks[0].hi <= blocks[j].lo {
        BlocksOf(lines, blocks[0].hi, blocks[1..], end, j - 1);
        assert blocks[j] == blocks[1..][j - 1];
      }
    }
  }

  predicate Within(b: Block, k: nat) {
    b.lo <= k < b.hi
  }

  /** Every non-blank line is in a block, and in no other. */
  lemma {:induction false} EveryLineInOneBlock(lines: seq<Line>, start: nat, blocks: seq<Block>, k: nat)
    requires Parses(lines, start, blocks, |lines|) && start <= k < |lines| && !lines[k].blank
    ensures exists i :: 0 <= i < |blocks| && Within(blocks[i], k)
    ensures forall i, j :: 0 <= i < j < |blocks| ==> !(Within(blocks[i], k) && Within(blocks[j], k))
    decreases |blocks|
  {
    if k < blocks[0].hi {
      assert Within(blocks[0], k);
    } else {
      EveryLineInOneBlock(lines, blocks[0].hi, blocks[1..], k);
      var i :| 0 <= i < |blocks[1..]| && Within(blocks[1..][i], k);
      assert blocks[i + 1] == blocks[1..][i];
    }
    forall i, j | 0 <= i < j < |blocks| ensures !(Within(blocks[i], k) && Within(blocks[j], k)) {
      BlocksOf(lines, start, blocks, |lines|, i);
    }
  }

  /** A paragraph absorbs no line that would open another block. */
  lemma ParagraphsStopInTime(lines: seq<Line>, blocks: seq<Block>, i: nat, k: nat)
    requires Parses(lines, 0, blocks, |lines|) && i < |blocks| && blocks[i].kind.Paragraph?
    requires blocks[i].lo < k < blocks[i].hi
    ensures k < |lines| && !lines[k].blank && KindAt(lines, k) == Paragraph
    ensures forall b :: IsBlock(lines, b) && b.lo == k ==> b.kind.Paragraph? && b.hi == blocks[i].hi
  {
    BlocksOf(lines, 0, blocks, |lines|, i);
    assert Continues(Paragraph, lines, k);
    forall b | IsBlock(lines, b) && b.lo == k ensures b.kind.Paragraph? && b.hi == blocks[i].hi {
      BlockIsUnique(lines, b, Block(Paragraph, k, blocks[i].hi));
    }
  }

  // ----- the blocks by the patterns of their lines -----

  // A header row with a separator row below it.
  predicate StartsTable(lines: seq<Line>, k: nat)
    requires k < |lines|
  {
    lines[k].row && k < |lines| - 1 && lines[k + 1].sep
  }

  // A line that is text and nothing else.
  predicate PlainText(lines: seq<Line>, k: nat)
    requires k < |lines|
  {
    var l := lines[k];
    !(l.blank || l.fence || l.heading || l.hrule || l.ul || l.ol || l.quote || StartsTable(lines, k))
  }

  // The kind of a block is that of the first of these patterns its first line matches.
  predicate KindIs(lines: seq<Line>, b: Block)
    requires b.lo < |lines|
  {
    var l, table := lines[b.lo], StartsTable(lines, b.lo);
    && (b.kind == Fence <==> l.fence)
    && (b.kind == Heading <==> l.heading && !l.fence)
    && (b.kind == Rule <==> l.hrule && !l.heading && !l.fence)
    && (b.kind == Table <==> table && !l.hrule && !l.heading && !l.fence)
    && (b.kind == Bullets <==> l.ul && !table && !l.hrule && !l.heading && !l.fence)
    && (b.kind == Numbers <==> l.ol && !l.ul && !table && !l.hrule && !l.heading && !l.fence)
    && (b.kind == Quote <==> l.quote && !l.ol && !l.ul && !table && !l.hrule && !l.heading && !l.fence)
    && (b.kind == Paragraph <==> PlainText(lines, b.lo))
  }

  // A fence reaches to the next one, or to the end if there is none.
  ghost predicate FenceEnds(lines: seq<Line>, b: Block)
    requires b.lo < b.hi <= |lines|
  {
    || (b.hi == |lines| && forall k :: b.lo < k < b.hi ==> !lines[k].fence)
    || (b.lo < b.hi - 1 && lines[b.hi - 1].fence && forall k :: b.lo < k < b.hi - 1 ==> !lines[k].fence)
  }

  // All lines from `lo` on match, and the next one does not.
  predicate Through(matches: seq<bool>, lo: nat, hi: nat) {
    lo <= hi <= |matches| && (forall k :: lo <= k < hi ==> matches[k]) && (hi < |matches| ==> !matches[hi])
  }

  ghost predicate ExtentIs(lines: seq<Line>, b: Block)
    requires b.lo < b.hi <= |lines|
  {
    match b.kind
    case Fence => FenceEnds(lines, b)
    case Heading => b.hi == b.lo + 1
    case Rule => b.hi == b.lo + 1
    case Table => Through(seq(|lines|, k requires 0 <= k < |lines| => lines[k].row), b.lo + 2, b.hi)
    case Bullets => Through(seq(|lines|, k requires 0 <= k < |lines| => lines[k].ul), b.lo + 1, b.hi)
    case Numbers => Through(seq(|lines|, k requires 0 <= k < |lines| => lines[k].ol), b.lo + 1, b.hi)
    case Quote => Through(seq(|lines|, k requires 0 <= k < |lines| => lines[k].quote), b.lo + 1, b.hi)
    case Paragraph => Through(seq(|lines|, k requires 0 <= k < |lines| => PlainText(lines, k)), b.lo + 1, b.hi)
  }

  lemma KindOfBlock(lines: seq<Line>, b: Block)
    requires IsBlock(lines, b)
    ensures KindIs(lines, b)
  {
  }

  lemma FenceOfBlock(lines: seq<Line>, b: Block)
    requires IsBlock(lines, b) && b.kind.Fence?
    ensures FenceEnds(lines, b)
  {
    forall k | b.lo < k < Tail(lines, b) ensures !lines[k].fence {
      assert Continues(Fence, lines, k);
    }
  }

  lemma OneLineBlock(lines: seq<Line>, b: Block)
    requires IsBlock(lines, b) && (b.kind.Heading? || b.kind.Rule?)
    ensures b.hi == b.lo + 1
  {
    assert b.lo + 1 < b.hi ==> Continues(b.kind, lines, b.lo + 1);
  }

  // The other kinds go on as long as their lines match.
  lemma LinesOfBlock(lines: seq<Line>, b: Block, matches: seq<bool>)
    requires IsBlock(lines, b) && !b.kind.Fence? && |matches| == |lines|
    requires forall k :: 0 <= k < |lines| ==> (matches[k] <==> Continues(b.kind, lines, k))
    ensures Through(matches, Head(b), b.hi)
  {
  }

  lemma ParagraphGoesOn(lines: seq<Line>, k: nat)
    requires k < |lines|
    ensures Continues(Paragraph, lines, k) <==> PlainText(lines, k)
  {
  }

  lemma ExtentOfBlock(lines: seq<Line>, b: Block)
    requires IsBlock(lines, b)
    ensures ExtentIs(lines, b)
  {
    match b.kind
    case Fence => FenceOfBlock(lines, b);
    case Heading => OneLineBlock(lines, b);
    case Rule => OneLineBlock(lines, b);
    case Table => LinesOfBlock(lines, b, seq(|lines|, k requires 0 <= k < |lines| => lines[k].row));
    case Bullets => LinesOfBlock(lines, b, seq(|lines|, k requires 0 <= k < |lines| => lines[k].ul));
    case Numbers => LinesOfBlock(lines, b, seq(|lines|, k requires 0 <= k < |lines| => lines[k].ol));
    case Quote => LinesOfBlock(lines, b, seq(|lines|, k requires 0 <= k < |lines| => lines[k].quote));
    case Paragraph =>
      forall k | 0 <= k < |lines| ensures Continues(Paragraph, lines, k) <==> PlainText(lines, k) {
        ParagraphGoesOn(lines, k);
      }
      LinesOfBlock(lines, b, seq(|lines|, k requires 0 <= k < |lines| => PlainText(lines, k)));
  }

  /** What the blocks of a parse are, by the patterns of the lines alone: a fence before a heading,
      a rule, a table, bullets, numbers, a quote and text; code up to the next fence, a table from
      its two first lines through all rows, lists and quotes through all lines of their pattern,
      text up to the first line that is blank or opens another block. */
  lemma WhatBlocksAre(lines: seq<Line>, blocks: seq<Block>, i: nat)
    requires Parses(lines, 0, blocks, |lines|) && i < |blocks|
    ensures var b := blocks[i];
      b.lo < b.hi <= |lines| && !lines[b.lo].blank && KindIs(lines, b) && ExtentIs(lines, b)
  {
    BlocksOf(lines, 0, blocks, |lines|, i);
    KindOfBlock(lines, blocks[i]);
    ExtentOfBlock(lines, blocks[i]);
  }

  // ----- a blank line separates -----

  function Shift(b: Block, off: nat): Block {
    Block(b.kind, b.lo + off, b.hi + off)
  }

  function ShiftAll(blocks: seq<Block>, off: nat): seq<Block> {
    seq(|blocks|, i requires 0 <= i < |blocks| => Shift(blocks[i], off))
  }

  lemma BlockStays(a: seq<Line>, all: seq<Line>, blk: Block)
    requires |a| < |all| && all[..|a|] == a && IsBlank(all[|a|])
    requires IsBlock(a, blk) && !Open(a, blk)
    ensures IsBlock(all, blk)
  {
    assert forall k :: 0 <= k < |a| ==> all[k] == a[k];
    assert Tail(all, blk) == Tail(a, blk);
    forall k | Head(blk) <= k < Tail(a, blk) ensures Continues(blk.kind, all, k) {
      assert Continues(blk.kind, a, k);
    }
  }

  lemma ShutHead(lines: seq<Line>, x: seq<Block>)
    requires x != [] && IsBlock(lines, x[0]) && !EndsOpen(lines, x)
    ensures !Open(lines, x[0]) && !EndsOpen(lines, x[1..])
  {
    assert x[0] in x;
    forall c | c in x[1..] ensures c in x {}
  }

  lemma {:induction false} ParseStays(a: seq<Line>, all: seq<Line>, start: nat, x: seq<Block>, z: seq<Block>)
    requires |a| < |all| && all[..|a|] == a && IsBlank(all[|a|])
    requires Parses(a, start, x, |a|) && !EndsOpen(a, x)
    requires Parses(all, |a| + 1, z, |all|)
    ensures Parses(all, start, x + z, |all|)
    decreases |x|
  {
    assert forall k :: 0 <= k < |a| ==> all[k] == a[k];
    if x == [] {
      assert x + z == z;
      ParsesEarlier(all, start, |a| + 1, z, |all|);
    } else {
      ShutHead(a, x);
      BlockStays(a, all, x[0]);
      ParseStays(a, all, x[0].hi, x[1..], z);
      ParsesCons(all, start, x[0], x[1..] + z, |all|);
      HeadFirst(x, z);
    }
  }

  lemma BlockShifts(all: seq<Line>, off: nat, b: seq<Line>, blk: Block)
    requires off <= |all| && all[off..] == b
    requires IsBlock(b, blk)
    ensures IsBlock(all, Shift(blk, off))
  {
    var s := Shift(blk, off);
    assert forall k :: off <= k < |all| ==> all[k] == b[k - off];
    assert Tail(all, s) == Tail(b, blk) + off;
    forall k | Head(s) <= k < Tail(all, s) ensures Continues(s.kind, all, k) {
      assert Continues(blk.kind, b, k - off);
    }
  }

  lemma {:induction false} ParseShifts(all: seq<Line>, off: nat, b: seq<Line>, start: nat, y: seq<Block>, there: nat)
    requires off <= |all| && all[off..] == b && there == start + off
    requires Parses(b, start, y, |b|)
    ensures Parses(all, there, ShiftAll(y, off), |all|)
    decreases |y|
  {
    assert forall k :: off <= k < |all| ==> all[k] == b[k - off];
    if y != [] {
      BlockShifts(all, off, b, y[0]);
      ParseShifts(all, off, b, y[0].hi, y[1..], y[0].hi + off);
      assert ShiftAll(y, off)[1..] == ShiftAll(y[1..], off);
    }
  }

  lemma OpenFenceLeaks(a: seq<Line>, all: seq<Line>, x: seq<Block>, z: seq<Block>)
    requires |a| < |all| && all[..|a|] == a
    requires Parses(a, 0, x, |a|) && EndsOpen(a, x)
    ensures !Parses(all, 0, x + z, |all|)
  {
    var c :| c in x && c.lo < c.hi <= |a| && Open(a, c);
    var i :| 0 <= i < |x| && x[i] == c;
    assert all[c.hi - 1] == a[c.hi - 1] && (x + z)[i] == c;
    if Parses(all, 0, x + z, |all|) {
      BlocksOf(a, 0, x, |a|, i);
      BlocksOf(all, 0, x + z, |all|, i);
    }
  }

  lemma BlankLineSeparates(a: seq<Line>, b: seq<Line>, all: seq<Line>, x: seq<Block>, y: seq<Block>)
    requires |all| == |a| + 1 + |b| && all[..|a|] == a && IsBlank(all[|a|]) && all[|a| + 1..] == b
    requires Parses(a, 0, x, |a|) && Parses(b, 0, y, |b|) && !EndsOpen(a, x)
    ensures Parses(all, 0, x + ShiftAll(y, |a| + 1), |all|)
  {
    ParseShifts(all, |a| + 1, b, 0, y, |a| + 1);
    ParseStays(a, all, 0, x, ShiftAll(y, |a| + 1));
  }

  /** A blank line between two documents keeps them apart, each with its own blocks, exactly
      when the first does not leave a code fence open. */
  lemma BlankLineSeparatesIff(a: seq<Line>, b: seq<Line>, all: seq<Line>, x: seq<Block>, y: seq<Block>)
    requires |all| == |a| + 1 + |b| && all[..|a|] == a && IsBlank(all[|a|]) && all[|a| + 1..] == b
    requires Parses(a, 0, x, |a|) && Parses(b, 0, y, |b|)
    ensures Parses(all, 0, x + ShiftAll(y, |a| + 1), |all|) <==> !EndsOpen(a, x)
  {
    if EndsOpen(a, x) {
      OpenFenceLeaks(a, all, x, ShiftAll(y, |a| + 1));
    } else {
      BlankLineSeparates(a, b, all, x, y);
    }
  }
}
