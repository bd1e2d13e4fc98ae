/** Where the chunker cuts a document, what each chunk carries over from the one before, and how
    it is labelled, said without the loop. */
module ChunkWindows {
  import opened Text
  import opened Chunker

  // ----- headings -----

  predicate IsMark(c: char) {
    c == '#' || c == ' '
  }

  // The line is a heading with that title: marks, the first of them '#', and then the title
  // with white space around it.
  ghost predicate Titled(line: string, title: string) {
    exists marks, rest, left, right :: TitledBy(line, title, marks, rest, left, right)
  }

  ghost predicate TitledBy(line: string, title: string, marks: string, rest: string, left: string, right: string) {
    && line == marks + rest && marks != "" && marks[0] == '#' && (forall c :: c in marks ==> IsMark(c))
    && (rest != "" ==> !IsMark(rest[0]))
    && Trimmed(rest, left, title, right) && title != ""
  }

  lemma {:induction false} MarksCut(s: string) returns (marks: string)
    ensures s == marks + StripMarks(s) && forall c :: c in marks ==> IsMark(c)
    ensures StripMarks(s) != "" ==> !IsMark(StripMarks(s)[0])
    ensures s != "" && IsMark(s[0]) ==> marks != "" && marks[0] == s[0]
  {
    marks := "";
    if s != "" && IsMark(s[0]) {
      var more := MarksCut(s[1..]);
      marks := [s[0]] + more;
    }
  }

  lemma {:induction false} MarksStripped(marks: string, rest: string)
    requires (forall c :: c in marks ==> IsMark(c)) && (rest != "" ==> !IsMark(rest[0]))
    ensures StripMarks(marks + rest) == rest
  {
    if marks == "" {
      assert marks + rest == rest;
    } else {
      assert (marks + rest)[1..] == marks[1..] + rest;
      assert marks[0] in marks && forall c :: c in marks[1..] ==> c in marks;
      MarksStripped(marks[1..], rest);
    }
  }

  lemma TitledIff(line: string, title: string)
    ensures Titled(line, title) <==> line != "" && line[0] == '#' && title == Strip(StripMarks(line)) && title != ""
  {
    if marks, rest, left, right :| TitledBy(line, title, marks, rest, left, right) {
      MarksStripped(marks, rest);
      StripIs(rest, left, title, right);
    }
    if line != "" && line[0] == '#' && title == Strip(StripMarks(line)) && title != "" {
      var marks := MarksCut(line);
      var left, right := StripTrims(StripMarks(line));
      assert TitledBy(line, title, marks, StripMarks(line), left, right);
    }
  }

  // The line is no heading, or one without a title.
  ghost predicate Untitled(line: string) {
    forall title :: !Titled(line, title)
  }

  // The line at `i` is the last heading with a title, which is that one.
  ghost predicate LabelAt(lines: seq<string>, title: string, i: nat) {
    i < |lines| && Titled(lines[i], title) && forall k :: i < k < |lines| ==> Untitled(lines[k])
  }

  // The label after the lines: the title of the last heading among them, if any.
  ghost predicate LabelOf(lines: seq<string>, title: string) {
    || (title == "" && forall k :: 0 <= k < |lines| ==> Untitled(lines[k]))
    || exists i: nat :: LabelAt(lines, title, i)
  }

  lemma LastIsUntitled(lines: seq<string>, title: string)
    requires lines != [] && LabelOf(lines[..|lines| - 1], title) && Untitled(lines[|lines| - 1])
    ensures LabelOf(lines, title)
  {
    var init := lines[..|lines| - 1];
    if i: nat :| LabelAt(init, title, i) {
      assert LabelAt(lines, title, i);
    }
  }

  lemma {:induction false} LabelIs(lines: seq<string>)
    ensures LabelOf(lines, LastHeading(lines))
    decreases |lines|
  {
    if lines != [] {
      var last := lines[|lines| - 1];
      LabelIs(lines[..|lines| - 1]);
      TitledIff(last, Strip(StripMarks(last)));
      if Titled(last, Strip(StripMarks(last))) {
        assert LabelAt(lines, LastHeading(lines), |lines| - 1);
      } else {
        forall title ensures !Titled(last, title) {
          TitledIff(last, title);
        }
        LastIsUntitled(lines, LastHeading(lines));
      }
    }
  }

  // ----- the cuts -----

  /** The lines from `from` to `upto`, behind the tail that was carried over, and their text. */
  datatype Window = Window(from: nat, upto: nat, tail: string, body: string)

  // What the loop counts for the lines.
  function LinesSize(lines: seq<string>): nat
    decreases |lines|
  {
    if lines == [] then 0 else LinesSize(lines[..|lines| - 1]) + |lines[|lines| - 1]| + 1
  }

  // The lines behind the tail, each on a line of its own.
  function TextOf(tail: string, lines: seq<string>): string {
    Join(if tail == "" then lines else [tail] + lines, '\n')
  }

  // That text without the white space around it.
  ghost predicate IsText(body: string, tail: string, lines: seq<string>) {
    exists left, right :: Trimmed(TextOf(tail, lines), left, body, right)
  }

  // The tail is the end of the body, as long as the overlap or the body.
  predicate IsTail(tail: string, body: string, overlap: nat) {
    tail == body[|body| - (if overlap < |body| then overlap else |body|)..]
  }

  // The window is full with its last line, and was not before.
  predicate Full(w: Window, lines: seq<string>, limit: int)
    requires w.from <= w.upto <= |lines|
  {
    && w.from < w.upto && |w.tail| + LinesSize(lines[w.from..w.upto]) >= limit
    && (w.from < w.upto - 1 ==> |w.tail| + LinesSize(lines[w.from..w.upto - 1]) < limit)
  }

  /** The windows follow each other from line `from` on to the end; all but the last are full,
      and each but the first carries the tail of the text before it. */
  ghost predicate CutUp(ws: seq<Window>, from: nat, tail: string, lines: seq<string>, limit: int, overlap: nat)
    decreases |ws|
  {
    && ws != [] && ws[0].from == from <= ws[0].upto <= |lines| && ws[0].tail == tail
    && IsText(ws[0].body, tail, lines[from..ws[0].upto])
    && if |ws| == 1 then
         ws[0].upto == |lines| && (from < |lines| ==> |tail| + LinesSize(lines[from..]) < limit)
       else
         Full(ws[0], lines, limit) && IsTail(ws[1].tail, ws[0].body, overlap)
         && CutUp(ws[1..], ws[0].upto, ws[1].tail, lines, limit, overlap)
  }

  // The chunks are the texts that are not empty, labelled with the last heading read.
  ghost predicate ChunksAre(chunks: seq<Chunk>, ws: seq<Window>, lines: seq<string>)
    decreases |ws|
  {
    if ws == [] then chunks == []
    else if ws[0].body == "" then ChunksAre(chunks, ws[1..], lines)
    else
      && chunks != [] && chunks[0].body == ws[0].body && ws[0].upto <= |lines|
      && LabelOf(lines[..ws[0].upto], chunks[0].heading)
      && ChunksAre(chunks[1..], ws[1..], lines)
  }

  lemma TailIsTail(body: string, overlap: nat)
    ensures IsTail(Tail(body, overlap), body, overlap)
  {
    assert |body| <= overlap ==> body[0..] == body;
  }

  // The state of the loop after `read` lines, in a window that started at `from`.
  ghost predicate InWindow(s: State, tail: string, from: nat, read: nat, lines: seq<string>) {
    && from <= read <= |lines| && s.buf == Carry(tail) + lines[from..read]
    && s.size == |tail| + LinesSize(lines[from..read]) && s.heading == LastHeading(lines[..read])
  }

  lemma WindowGrows(lines: seq<string>, from: nat, read: nat)
    requires from <= read < |lines|
    ensures lines[from..read + 1] == lines[from..read] + [lines[read]]
    ensures LinesSize(lines[from..read + 1]) == LinesSize(lines[from..read]) + |lines[read]| + 1
  {
    var now, next := lines[from..read], lines[from..read + 1];
    assert next[..|next| - 1] == now;
  }

  lemma HeadingGrows(lines: seq<string>, read: nat)
    requires read < |lines|
    ensures LastHeading(lines[..read + 1]) == Heading(LastHeading(lines[..read]), lines[read])
  {
    assert lines[..read + 1][..read] == lines[..read];
  }

  lemma TakeStays(s: State, tail: string, from: nat, read: nat, lines: seq<string>)
    requires InWindow(s, tail, from, read, lines) && read < |lines|
    ensures InWindow(Take(s, lines[read]), tail, from, read + 1, lines)
  {
    WindowGrows(lines, from, read);
    HeadingGrows(lines, read);
    CarryMore(tail, lines[from..read], lines[read]);
  }

  lemma FlushStarts(t: State, lines: seq<string>, read: nat, overlap: nat)
    requires read <= |lines| && t.heading == LastHeading(lines[..read])
    ensures InWindow(Flushed(t, overlap), Tail(Body(t.buf), overlap), read, read, lines)
  {
    var tail := Tail(Body(t.buf), overlap);
    CarryNone(tail);
    assert lines[read..read] == [];
  }

  lemma BodyIsText(s: State, tail: string, from: nat, read: nat, lines: seq<string>)
    requires InWindow(s, tail, from, read, lines)
    ensures IsText(Body(s.buf), tail, lines[from..read])
  {
    assert s.buf == if tail == "" then lines[from..read] else [tail] + lines[from..read];
    var left, right := StripTrims(TextOf(tail, lines[from..read]));
  }

  lemma EmitIs(s: State, upto: nat, lines: seq<string>, w: Window, later: seq<Chunk>, ws: seq<Window>)
    requires upto <= |lines| && s.heading == LastHeading(lines[..upto])
    requires w.upto == upto && w.body == Body(s.buf) && ChunksAre(later, ws, lines)
    ensures ChunksAre(Emit(s) + later, [w] + ws, lines)
  {
    LabelIs(lines[..upto]);
    assert ([w] + ws)[1..] == ws;
    if Body(s.buf) == "" {
      assert Emit(s) + later == later;
    } else {
      assert (Emit(s) + later)[1..] == later;
    }
  }

  lemma LastWindow(s: State, tail: string, from: nat, lines: seq<string>, limit: int, overlap: nat)
    requires InWindow(s, tail, from, |lines|, lines) && (from < |lines| ==> s.size < limit)
    ensures var w := Window(from, |lines|, tail, Body(s.buf));
      CutUp([w], from, tail, lines, limit, overlap) && ChunksAre(Emit(s), [w], lines)
  {
    var w := Window(from, |lines|, tail, Body(s.buf));
    BodyIsText(s, tail, from, |lines|, lines);
    assert lines[from..] == lines[from..|lines|];
    EmitIs(s, |lines|, lines, w, [], []);
    assert Emit(s) + [] == Emit(s) && [w] + [] == [w];
  }

  // The window that the line before `upto` fills, in front of the windows behind it.
  lemma FullWindow(t: State, tail: string, from: nat, upto: nat, lines: seq<string>, limit: int, overlap: nat,
                   rest: seq<Window>, later: seq<Chunk>)
    requires InWindow(t, tail, from, upto, lines)
    requires Full(Window(from, upto, tail, Body(t.buf)), lines, limit)
    requires CutUp(rest, upto, Tail(Body(t.buf), overlap), lines, limit, overlap) && ChunksAre(later, rest, lines)
    ensures var ws := [Window(from, upto, tail, Body(t.buf))] + rest;
      CutUp(ws, from, tail, lines, limit, overlap) && ChunksAre(Emit(t) + later, ws, lines)
  {
    var w := Window(from, upto, tail, Body(t.buf));
    BodyIsText(t, tail, from, upto, lines);
    TailIsTail(w.body, overlap);
    assert ([w] + rest)[1..] == rest;
    EmitIs(t, upto, lines, w, later, rest);
  }

  lemma FillsUp(s: State, tail: string, from: nat, read: nat, lines: seq<string>, limit: int)
    requires InWindow(s, tail, from, read, lines) && read < |lines| && (from < read ==> s.size < limit)
    requires Take(s, lines[read]).size >= limit
    ensures Full(Window(from, read + 1, tail, Body(Take(s, lines[read]).buf)), lines, limit)
  {
    TakeStays(s, tail, from, read, lines);
  }

  lemma ChunksStep(s: State, lines: seq<string>, read: nat, limit: int, overlap: nat)
    requires read < |lines|
    ensures var t := Take(s, lines[read]);
      Chunks(s, lines[read..], limit, overlap) ==
        if t.size >= limit then Emit(t) + Chunks(Flushed(t, overlap), lines[read + 1..], limit, overlap)
        else Chunks(t, lines[read + 1..], limit, overlap)
  {
    assert lines[read..][0] == lines[read] && lines[read..][1..] == lines[read + 1..];
  }

  lemma {:induction false} Cutting(s: State, tail: string, from: nat, read: nat, lines: seq<string>, limit: int,
                                   overlap: nat) returns (ws: seq<Window>)
    requires InWindow(s, tail, from, read, lines) && (from < read ==> s.size < limit)
    ensures CutUp(ws, from, tail, lines, limit, overlap)
    ensures ChunksAre(Chunks(s, lines[read..], limit, overlap), ws, lines)
    decreases |lines| - read
  {
    if read == |lines| {
      LastWindow(s, tail, from, lines, limit, overlap);
      ws := [Window(from, read, tail, Body(s.buf))];
    } else {
      var t := Take(s, lines[read]);
      TakeStays(s, tail, from, read, lines);
      ChunksStep(s, lines, read, limit, overlap);
      if t.size >= limit {
        var next, carried := Flushed(t, overlap), Tail(Body(t.buf), overlap);
        FillsUp(s, tail, from, read, lines, limit);
        FlushStarts(t, lines, read + 1, overlap);
        var rest := Cutting(next, carried, read + 1, read + 1, lines, limit, overlap);
        FullWindow(t, tail, from, read + 1, lines, limit, overlap, rest,
                   Chunks(next, lines[read + 1..], limit, overlap));
        ws := [Window(from, read + 1, tail, Body(t.buf))] + rest;
      } else {
        ws := Cutting(t, tail, from, read + 1, lines, limit, overlap);
      }
    }
  }

  /** The chunks of a document are the texts of its windows: lines are added to a window until it
      reaches the limit, the next one starts with the last characters of the text before it, and
      each chunk is labelled with the last heading up to its end. */
  lemma ChunksAreWindows(lines: seq<string>, limit: int, overlap: nat) returns (ws: seq<Window>)
    ensures CutUp(ws, 0, "", lines, limit, overlap)
    ensures ChunksAre(Chunks(START, lines, limit, overlap), ws, lines)
  {
    assert lines[0..0] == [] && lines[..0] == [] && Carry("") + [] == [];
    ws := Cutting(START, "", 0, 0, lines, limit, overlap);
    assert lines[0..] == lines;
  }

  // ----- a document has one such cut -----

  lemma OneText(a: string, b: string, tail: string, lines: seq<string>)
    requires IsText(a, tail, lines) && IsText(b, tail, lines)
    ensures a == b
  {
    var s := TextOf(tail, lines);
    var left, right :| Trimmed(s, left, a, right);
    StripIs(s, left, a, right);
    var left', right' :| Trimmed(s, left', b, right');
    StripIs(s, left', b, right');
  }

  lemma {:induction false} SizeGrows(lines: seq<string>, from: nat, a: nat, b: nat)
    requires from <= a <= b <= |lines|
    ensures LinesSize(lines[from..a]) <= LinesSize(lines[from..b])
    decreases b
  {
    if a < b {
      SizeGrows(lines, from, a, b - 1);
      assert lines[from..b][..b - from - 1] == lines[from..b - 1];
    }
  }

  // A window that is full ends where it first is.
  lemma OneEnd(w: Window, upto: nat, lines: seq<string>, limit: int)
    requires w.from <= w.upto <= |lines| && Full(w, lines, limit)
    requires w.from < upto <= |lines|
    ensures upto < w.upto ==> |w.tail| + LinesSize(lines[w.from..upto]) < limit
    ensures upto >= w.upto ==> |w.tail| + LinesSize(lines[w.from..upto]) >= limit
  {
    if upto < w.upto {
      SizeGrows(lines, w.from, upto, w.upto - 1);
    } else {
      SizeGrows(lines, w.from, w.upto, upto);
    }
  }

  lemma SameEnd(ws: seq<Window>, vs: seq<Window>, from: nat, tail: string, lines: seq<string>, limit: int, overlap: nat)
    requires CutUp(ws, from, tail, lines, limit, overlap) && CutUp(vs, from, tail, lines, limit, overlap)
    requires |ws| > 1
    ensures |vs| > 1 && vs[0].upto == ws[0].upto
  {
    NotAtOnce(ws[0], vs, tail, lines, limit, overlap);
    FullAtOnce(ws[0], vs[0], lines, limit);
  }

  // Behind a full window there is another one.
  lemma NotAtOnce(w: Window, vs: seq<Window>, tail: string, lines: seq<string>, limit: int, overlap: nat)
    requires w.from <= w.upto <= |lines| && Full(w, lines, limit) && w.tail == tail
    requires CutUp(vs, w.from, tail, lines, limit, overlap)
    ensures |vs| > 1
  {
    assert lines[w.from..] == lines[w.from..|lines|];
    OneEnd(w, |lines|, lines, limit);
  }

  lemma FullAtOnce(w: Window, v: Window, lines: seq<string>, limit: int)
    requires w.from <= w.upto <= |lines| && Full(w, lines, limit)
    requires v.from <= v.upto <= |lines| && Full(v, lines, limit)
    requires w.from == v.from && w.tail == v.tail
    ensures w.upto == v.upto
  {
    OneEnd(w, v.upto, lines, limit);
    OneEnd(v, w.upto, lines, limit);
  }

  lemma SameFirst(ws: seq<Window>, vs: seq<Window>, from: nat, tail: string, lines: seq<string>, limit: int,
                  overlap: nat)
    requires CutUp(ws, from, tail, lines, limit, overlap) && CutUp(vs, from, tail, lines, limit, overlap)
    requires ws[0].upto == vs[0].upto
    ensures ws[0] == vs[0]
  {
    OneText(ws[0].body, vs[0].body, tail, lines[from..ws[0].upto]);
  }

  lemma SameLength(ws: seq<Window>, vs: seq<Window>, from: nat, tail: string, lines: seq<string>, limit: int,
                   overlap: nat)
    requires CutUp(ws, from, tail, lines, limit, overlap) && CutUp(vs, from, tail, lines, limit, overlap)
    ensures |ws| > 1 <==> |vs| > 1
    ensures ws[0] == vs[0]
  {
    if |ws| > 1 {
      SameEnd(ws, vs, from, tail, lines, limit, overlap);
    } else if |vs| > 1 {
      SameEnd(vs, ws, from, tail, lines, limit, overlap);
    }
    SameFirst(ws, vs, from, tail, lines, limit, overlap);
  }

  lemma Cons(ws: seq<Window>, vs: seq<Window>)
    requires ws != [] && vs != [] && ws[0] == vs[0] && ws[1..] == vs[1..]
    ensures ws == vs
  {
    assert ws == [ws[0]] + ws[1..] && vs == [vs[0]] + vs[1..];
  }

  /** So the cut is determined: two ways to cut a document up like this are the same. */
  lemma {:induction false} OneCut(ws: seq<Window>, vs: seq<Window>, from: nat, tail: string, lines: seq<string>,
                                  limit: int, overlap: nat)
    requires CutUp(ws, from, tail, lines, limit, overlap) && CutUp(vs, from, tail, lines, limit, overlap)
    ensures ws == vs
    decreases |ws|
  {
    SameLength(ws, vs, from, tail, lines, limit, overlap);
    if |ws| > 1 {
      OneCut(ws[1..], vs[1..], ws[0].upto, ws[1].tail, lines, limit, overlap);
    }
    Cons(ws, vs);
  }

  // ----- successive chunks -----

  lemma {:induction false} OverlapAt(carried: string, chunks: seq<Chunk>, overlap: nat, k: nat)
    requires Overlapping(carried, chunks, overlap) && k + 1 < |chunks|
    ensures Ink(Tail(chunks[k].body, overlap)) <= Ink(chunks[k + 1].body)
    decreases k
  {
    if k > 0 {
      OverlapAt(Tail(chunks[0].body, overlap), chunks[1..], overlap, k - 1);
    }
  }

  lemma TailInFront(chunks: seq<Chunk>, overlap: nat, k: nat) returns (front: string, tail: string)
    requires Overlapping("", chunks, overlap) && k + 1 < |chunks|
    ensures chunks[k].body == front + tail && Ink(tail) <= Ink(chunks[k + 1].body)
    ensures |tail| == if overlap < |chunks[k].body| then overlap else |chunks[k].body|
  {
    OverlapAt("", chunks, overlap, k);
    tail := Tail(chunks[k].body, overlap);
    front := chunks[k].body[..|chunks[k].body| - |tail|];
  }

  /** Of two successive chunks the second starts with the last characters of the first, as
      many as the overlap says or the first has, white space aside. */
  lemma ChunksOverlap(lines: seq<string>, limit: int, overlap: nat, k: nat) returns (front: string, tail: string)
    requires k + 1 < |Chunks(START, lines, limit, overlap)|
    ensures var chunks := Chunks(START, lines, limit, overlap);
      && chunks[k].body == front + tail
      && |tail| == (if overlap < |chunks[k].body| then overlap else |chunks[k].body|)
      && Ink(tail) <= Ink(chunks[k + 1].body)
  {
    ChunksConserveTheText(lines, limit, overlap);
    front, tail := TailInFront(Chunks(START, lines, limit, overlap), overlap, k);
  }

  // ----- a document that ends with a full window -----

  lemma OneLine(line: string)
    requires forall c :: c in line ==> !IsSpace(c)
    ensures Body([line]) == line
  {
    NoSpaceToStrip(line);
  }

  /** When the last line fills its window there is one chunk more, which only repeats the end of
      the chunk before it. The shortest such document is one long line. */
  lemma FullLineIsRepeated(line: string, limit: int, overlap: nat)
    requires (forall c :: c in line ==> !IsSpace(c)) && 0 < overlap < |line| && limit <= |line| + 1
    ensures var heading, end := Heading("", line), line[|line| - overlap..];
      Chunks(START, [line], limit, overlap) == [Chunk(heading, line), Chunk(heading, end)]
  {
    var t, end := Take(START, line), line[|line| - overlap..];
    assert t.buf == [line] && [line][1..] == [];
    OneLine(line);
    assert forall c :: c in end ==> c in line;
    OneLine(end);
    assert Flushed(t, overlap) == State(t.heading, [end], overlap);
    assert Chunks(Flushed(t, overlap), [], limit, overlap) == [Chunk(t.heading, end)];
  }
}
