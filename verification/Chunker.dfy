/** The overlapping Markdown chunker of the documentation index. */
module Chunker {
  import opened Common
  import opened Text

  datatype Chunk = Chunk(heading: string, body: string)

  /** What the loop carries: the buffered lines, and `size`, its count of their length. */
  datatype State = State(heading: string, buf: seq<string>, size: nat)

  const START: State := State("", [], 0)

  // `lstrip("# ")`
  function StripMarks(s: string): string {
    if s != "" && (s[0] == '#' || s[0] == ' ') then StripMarks(s[1..]) else s
  }

  function Heading(before: string, line: string): string {
    if line != "" && line[0] == '#' && Strip(StripMarks(line)) != "" then Strip(StripMarks(line)) else before
  }

  function Body(buf: seq<string>): string {
    Strip(Join(buf, '\n'))
  }

  function Tail(body: string, overlap: nat): string {
    if |body| <= overlap then body else body[|body| - overlap..]
  }

  function Take(s: State, line: string): State {
    State(Heading(s.heading, line), s.buf + [line], s.size + |line| + 1)
  }

  function Flushed(s: State, overlap: nat): State {
    var tail := Tail(Body(s.buf), overlap);
    State(s.heading, if tail == "" then [] else [tail], |tail|)
  }

  function Emit(s: State): seq<Chunk> {
    if Body(s.buf) == "" then [] else [Chunk(s.heading, Body(s.buf))]
  }

  /** The chunks of the remaining lines. */
  function Chunks(s: State, lines: seq<string>, limit: int, overlap: nat): seq<Chunk>
    decreases |lines|
  {
    if lines == [] then Emit(s)
    else
      var t := Take(s, lines[0]);
      if t.size >= limit then Emit(t) + Chunks(Flushed(t, overlap), lines[1..], limit, overlap)
      else Chunks(t, lines[1..], limit, overlap)
  }

  lemma ReadLine(chunks: seq<Chunk>, s: State, lines: seq<string>, k: nat, limit: int, overlap: nat)
    requires k < |lines|
    ensures var t := Take(s, lines[k]);
      chunks + Chunks(s, lines[k..], limit, overlap) ==
        if t.size >= limit then chunks + Emit(t) + Chunks(Flushed(t, overlap), lines[k + 1..], limit, overlap)
        else chunks + Chunks(t, lines[k + 1..], limit, overlap)
  {
    assert lines[k..][0] == lines[k] && lines[k..][1..] == lines[k + 1..];
  }

  // What a full or final buffer adds to the chunks, and its body.
  method Append(chunks: seq<Chunk>, ghost s: State, heading: string, buf: seq<string>)
    returns (all: seq<Chunk>, body: string)
    requires heading == s.heading && buf == s.buf
    ensures all == chunks + Emit(s) && body == Body(s.buf)
  {
    body := Body(buf);
    all := if body == "" then chunks else chunks + [Chunk(heading, body)];
  }

  lemma AllRead(chunks: seq<Chunk>, s: State, lines: seq<string>, limit: int, overlap: nat)
    ensures chunks + Chunks(s, lines[|lines|..], limit, overlap) == chunks + Emit(s)
  {
  }

  method ChunkMarkdown(lines: seq<string>, limit: int, overlap: nat) returns (chunks: seq<Chunk>)
    ensures chunks == Chunks(START, lines, limit, overlap)
  {
    chunks := [];
    var heading, buf: seq<string>, size: nat := "", [], 0;
    ghost var total := Chunks(START, lines, limit, overlap);
    ghost var s := START;
    var k := 0;
    var body: string;
    while k < |lines|
      invariant 0 <= k <= |lines| && s == State(heading, buf, size)
      invariant chunks + Chunks(s, lines[k..], limit, overlap) == total
    {
      ReadLine(chunks, s, lines, k, limit, overlap);
      s := Take(s, lines[k]);
      heading := Heading(heading, lines[k]);
      buf := buf + [lines[k]];
      size := size + |lines[k]| + 1;
      if size >= limit {
        chunks, body := Append(chunks, s, heading, buf);
        s := Flushed(s, overlap);
        var tail := Tail(body, overlap);
        buf := if tail == "" then [] else [tail];
        size := |tail|;
      }
      k := k + 1;
    }
    AllRead(chunks, s, lines, limit, overlap);
    chunks, body := Append(chunks, s, heading, buf);
  }

  // ----- text without white space -----

  function Ink(s: string): string {
    if s == "" then "" else (if IsSpace(s[0]) then "" else [s[0]]) + Ink(s[1..])
  }

  lemma {:induction false} InkConcat(a: string, b: string)
    ensures Ink(a + b) == Ink(a) + Ink(b)
  {
    if a == "" {
      assert a + b == b;
    } else {
      assert (a + b)[1..] == a[1..] + b;
      InkConcat(a[1..], b);
    }
  }

  lemma {:induction false} InkStripLeft(s: string)
    ensures Ink(StripLeft(s)) == Ink(s) && |StripLeft(s)| <= |s|
  {
    if s != "" && IsSpace(s[0]) {
      InkStripLeft(s[1..]);
    }
  }

  lemma {:induction false} InkStripRight(s: string)
    ensures Ink(StripRight(s)) == Ink(s) && |StripRight(s)| <= |s|
    decreases |s|
  {
    if s != "" && IsSpace(s[|s| - 1]) {
      var init, last := s[..|s| - 1], [s[|s| - 1]];
      InkStripRight(init);
      assert s == init + last;
      InkConcat(init, last);
      assert Ink(last) == "";
    }
  }

  lemma InkStrip(s: string)
    ensures Ink(Strip(s)) == Ink(s) && |Strip(s)| <= |s|
  {
    InkStripLeft(s);
    InkStripRight(StripLeft(s));
  }

  function InkAll(parts: seq<string>): string {
    if parts == [] then "" else Ink(parts[0]) + InkAll(parts[1..])
  }

  lemma {:induction false} InkJoin(parts: seq<string>)
    ensures Ink(Join(parts, '\n')) == InkAll(parts)
  {
    if |parts| == 1 {
      assert Ink(parts[0]) + "" == Ink(parts[0]);
    } else if parts != [] {
      InkJoin(parts[1..]);
      var rest := Join(parts[1..], '\n');
      InkConcat(parts[0] + ['\n'], rest);
      InkConcat(parts[0], ['\n']);
      assert Ink(['\n']) == "" by {
        assert ['\n'][1..] == "";
      }
      assert Ink(parts[0]) + "" == Ink(parts[0]);
    }
  }

  lemma {:induction false} InkAllConcat(a: seq<string>, b: seq<string>)
    ensures InkAll(a + b) == InkAll(a) + InkAll(b)
  {
    if a == [] {
      assert a + b == b;
    } else {
      assert (a + b)[1..] == a[1..] + b;
      InkAllConcat(a[1..], b);
    }
  }

  lemma BodyInk(buf: seq<string>)
    ensures Ink(Body(buf)) == InkAll(buf) && |Body(buf)| <= |Join(buf, '\n')|
  {
    InkStrip(Join(buf, '\n'));
    InkJoin(buf);
  }

  // ----- nothing is lost or doubled beyond the overlap -----

  // The ink a chunk adds to what the tail of the body before it brought along.
  function OwnInk(carried: string, body: string): string {
    if |Ink(carried)| <= |Ink(body)| then Ink(body)[|Ink(carried)|..] else ""
  }

  function AllOwnInk(carried: string, chunks: seq<Chunk>, overlap: nat): string
    decreases |chunks|
  {
    if chunks == [] then ""
    else OwnInk(carried, chunks[0].body) + AllOwnInk(Tail(chunks[0].body, overlap), chunks[1..], overlap)
  }

  // Each chunk starts with the ink of the tail before it.
  predicate Overlapping(carried: string, chunks: seq<Chunk>, overlap: nat)
    decreases |chunks|
  {
    chunks == [] || (
      && Ink(carried) <= Ink(chunks[0].body)
      && Overlapping(Tail(chunks[0].body, overlap), chunks[1..], overlap))
  }

  function Carry(tail: string): seq<string> {
    if tail == "" then [] else [tail]
  }

  lemma CarryInk(tail: string, own: seq<string>)
    ensures InkAll(Carry(tail) + own) == Ink(tail) + InkAll(own)
  {
    InkAllConcat(Carry(tail), own);
    assert Ink(tail) + "" == Ink(tail);
    if tail != "" {
      assert [tail][1..] == [];
    }
  }

  lemma {:induction false} StrippedEndsInInk(s: string)
    ensures StripRight(s) == "" || !IsSpace(StripRight(s)[|StripRight(s)| - 1])
    decreases |s|
  {
    if s != "" && IsSpace(s[|s| - 1]) {
      StrippedEndsInInk(s[..|s| - 1]);
    }
  }

  // A tail that is carried over holds ink, because a stripped body ends in ink.
  lemma TailHasInk(buf: seq<string>, overlap: nat)
    ensures Tail(Body(buf), overlap) != "" ==> Ink(Tail(Body(buf), overlap)) != ""
  {
    var body, tail := Body(buf), Tail(Body(buf), overlap);
    StrippedEndsInInk(StripLeft(Join(buf, '\n')));
    if tail != "" {
      var init, last := tail[..|tail| - 1], [tail[|tail| - 1]];
      assert tail == init + last && tail[|tail| - 1] == body[|body| - 1];
      InkConcat(init, last);
    }
  }

  lemma OwnGrows(own: seq<string>, lines: seq<string>)
    requires lines != []
    ensures InkAll(own + [lines[0]]) + InkAll(lines[1..]) == InkAll(own) + InkAll(lines)
  {
    InkAllConcat(own, [lines[0]]);
    assert InkAll([lines[0]]) == Ink(lines[0]) by {
      assert [lines[0]][1..] == [];
      assert Ink(lines[0]) + "" == Ink(lines[0]);
    }
    Regroup(InkAll(own), Ink(lines[0]), InkAll(lines[1..]));
  }

  lemma ConservesAtTheEnd(s: State, carried: string, own: seq<string>, overlap: nat)
    requires s.buf == Carry(carried) + own && (carried != "" ==> Ink(carried) != "")
    ensures AllOwnInk(carried, Emit(s), overlap) == InkAll(own) && Overlapping(carried, Emit(s), overlap)
  {
    EmitConserves(s, carried, own, [], overlap);
    assert Emit(s) + [] == Emit(s);
    assert InkAll(own) + "" == InkAll(own);
  }

  // The chunks of a buffer `Carry(carried) + own` and the lines still to come.
  lemma {:induction false} Conserves(s: State, carried: string, own: seq<string>, lines: seq<string>, limit: int,
                                     overlap: nat)
    requires s.buf == Carry(carried) + own && (carried != "" ==> Ink(carried) != "")
    ensures var chunks := Chunks(s, lines, limit, overlap);
      AllOwnInk(carried, chunks, overlap) == InkAll(own) + InkAll(lines) && Overlapping(carried, chunks, overlap)
    decreases |lines|
  {
    if lines == [] {
      ConservesAtTheEnd(s, carried, own, overlap);
      assert InkAll(own) + InkAll(lines) == InkAll(own);
    } else {
      var t, more := Take(s, lines[0]), own + [lines[0]];
      OwnGrows(own, lines);
      CarryMore(carried, own, lines[0]);
      if t.size >= limit {
        var next, tail := Flushed(t, overlap), Tail(Body(t.buf), overlap);
        TailHasInk(t.buf, overlap);
        CarryNone(tail);
        Conserves(next, tail, [], lines[1..], limit, overlap);
        EmitConserves(t, carried, more, Chunks(next, lines[1..], limit, overlap), overlap);
        assert InkAll([]) + InkAll(lines[1..]) == InkAll(lines[1..]);
      } else {
        Conserves(t, carried, more, lines[1..], limit, overlap);
      }
    }
  }

  lemma CarryMore(carried: string, own: seq<string>, line: string)
    ensures Carry(carried) + own + [line] == Carry(carried) + (own + [line])
  {
  }

  lemma CarryNone(tail: string)
    ensures Carry(tail) + [] == Carry(tail)
  {
  }

  // Emitting the buffer in front of chunks that go on from its tail.
  lemma EmitConserves(t: State, carried: string, own: seq<string>, later: seq<Chunk>, overlap: nat)
    requires t.buf == Carry(carried) + own && (carried != "" ==> Ink(carried) != "")
    requires Overlapping(Tail(Body(t.buf), overlap), later, overlap)
    ensures AllOwnInk(carried, Emit(t) + later, overlap)
      == InkAll(own) + AllOwnInk(Tail(Body(t.buf), overlap), later, overlap)
    ensures Overlapping(carried, Emit(t) + later, overlap)
  {
    var body := Body(t.buf);
    BodyInk(t.buf);
    CarryInk(carried, own);
    assert Ink(body) == Ink(carried) + InkAll(own);
    if body == "" {
      assert carried == "" && InkAll(own) == "";
      assert Emit(t) + later == later;
      assert "" + AllOwnInk("", later, overlap) == AllOwnInk("", later, overlap);
    } else {
      assert (Emit(t) + later)[1..] == later;
      assert Ink(body)[|Ink(carried)|..] == InkAll(own);
    }
  }

  // ----- main results -----

  /** Without the tails carried over, the chunks hold the document's characters other than
      white space, in order and once; and each chunk starts with its tail. */
  lemma ChunksConserveTheText(lines: seq<string>, limit: int, overlap: nat)
    ensures var chunks := Chunks(START, lines, limit, overlap);
      AllOwnInk("", chunks, overlap) == Ink(Join(lines, '\n')) && Overlapping("", chunks, overlap)
  {
    assert START.buf == Carry("") + [];
    Conserves(START, "", [], lines, limit, overlap);
    InkJoin(lines);
    assert "" + InkAll(lines) == InkAll(lines);
  }

  // ----- size and label, with the place where each chunk was cut -----

  /** A chunk and the number of lines read when it was emitted. */
  datatype Piece = Piece(chunk: Chunk, upto: nat)

  function Pieces(s: State, lines: seq<string>, read: nat, limit: int, overlap: nat): seq<Piece>
    requires read <= |lines|
    decreases |lines| - read
  {
    if read == |lines| then EmitAt(s, read)
    else
      var t := Take(s, lines[read]);
      if t.size >= limit then EmitAt(t, read + 1) + Pieces(Flushed(t, overlap), lines, read + 1, limit, overlap)
      else Pieces(t, lines, read + 1, limit, overlap)
  }

  function EmitAt(s: State, upto: nat): seq<Piece> {
    if Emit(s) == [] then [] else [Piece(Emit(s)[0], upto)]
  }

  function ChunksOf(pieces: seq<Piece>): seq<Chunk> {
    seq(|pieces|, i requires 0 <= i < |pieces| => pieces[i].chunk)
  }

  lemma {:induction false} PiecesAreTheChunks(s: State, lines: seq<string>, read: nat, limit: int, overlap: nat)
    requires read <= |lines|
    ensures ChunksOf(Pieces(s, lines, read, limit, overlap)) == Chunks(s, lines[read..], limit, overlap)
    decreases |lines| - read
  {
    if read < |lines| {
      assert lines[read..][0] == lines[read] && lines[read..][1..] == lines[read + 1..];
      var t := Take(s, lines[read]);
      PiecesAreTheChunks(if t.size >= limit then Flushed(t, overlap) else t, lines, read + 1, limit, overlap);
    }
  }

  // The last non-empty heading of the lines.
  function LastHeading(lines: seq<string>): string
    decreases |lines|
  {
    if lines == [] then "" else Heading(LastHeading(lines[..|lines| - 1]), lines[|lines| - 1])
  }

  function Max(a: int, b: int): int {
    if a < b then b else a
  }

  // The bound on a chunk: what the buffer can hold before its last line, and that line.
  function Bound(lines: seq<string>, upto: nat, limit: int, overlap: nat): int
    requires upto <= |lines|
  {
    Max(limit - 1, overlap) + if upto == 0 then 0 else 1 + |lines[upto - 1]|
  }

  predicate PieceOk(p: Piece, lines: seq<string>, limit: int, overlap: nat) {
    && p.upto <= |lines|
    && p.chunk.heading == LastHeading(lines[..p.upto])
    && |p.chunk.body| <= Bound(lines, p.upto, limit, overlap)
  }

  // `size` is the length of the joined buffer, plus one if no tail was carried into it.
  predicate TracksSize(s: State) {
    s.size == |Join(s.buf, '\n')| || (s.buf != [] && s.size == |Join(s.buf, '\n')| + 1)
  }

  lemma {:induction false} JoinOneMore(buf: seq<string>, line: string)
    ensures |Join(buf + [line], '\n')| == |line| + if buf == [] then 0 else |Join(buf, '\n')| + 1
  {
    if buf == [] {
      assert buf + [line] == [line];
    } else {
      assert (buf + [line])[1..] == buf[1..] + [line];
      JoinOneMore(buf[1..], line);
    }
  }

  lemma TakeTracks(s: State, line: string)
    requires TracksSize(s)
    ensures TracksSize(Take(s, line))
  {
    JoinOneMore(s.buf, line);
  }

  lemma FlushTracks(s: State, overlap: nat)
    ensures TracksSize(Flushed(s, overlap)) && Flushed(s, overlap).size <= overlap
  {
  }

  lemma {:induction false} PiecesOk(s: State, lines: seq<string>, read: nat, limit: int, overlap: nat)
    requires read <= |lines| && TracksSize(s) && s.heading == LastHeading(lines[..read])
    requires s.size <= Max(limit - 1, overlap)
    ensures forall p :: p in Pieces(s, lines, read, limit, overlap) ==> PieceOk(p, lines, limit, overlap)
    decreases |lines| - read
  {
    if read == |lines| {
      BodyInk(s.buf);
    } else {
      var t := Take(s, lines[read]);
      assert lines[..read + 1][..read] == lines[..read];
      TakeTracks(s, lines[read]);
      BodyInk(t.buf);
      FlushTracks(t, overlap);
      PiecesOk(if t.size >= limit then Flushed(t, overlap) else t, lines, read + 1, limit, overlap);
    }
  }

  /** Every chunk is labelled with the last non-empty heading read so far, and is no longer
      than the limit (or the overlap, if that is larger) and its last line. */
  lemma ChunksAreLabelledAndBounded(lines: seq<string>, limit: int, overlap: nat)
    requires limit > 0
    ensures var pieces := Pieces(START, lines, 0, limit, overlap);
      && ChunksOf(pieces) == Chunks(START, lines, limit, overlap)
      && (forall p :: p in pieces ==> PieceOk(p, lines, limit, overlap))
      && (overlap < limit ==> forall p :: p in pieces && p.upto > 0 ==> |p.chunk.body| <= limit + |lines[p.upto - 1]|)
  {
    PiecesAreTheChunks(START, lines, 0, limit, overlap);
    assert lines[0..] == lines;
    PiecesOk(START, lines, 0, limit, overlap);
    assert forall p :: p in Pieces(START, lines, 0, limit, overlap) ==> PieceOk(p, lines, limit, overlap);
  }
}
