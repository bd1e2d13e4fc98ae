/** From the path of a raw file to its stream, and from the stream to its bronze table. */
module StreamRouting {
  import opened Common
  import opened Text

  const BUCKET: string := "/uwv-raw/"
  const DATE: string := "/dt="

  /** `uwv.<domain>.<entity...>` to `uwv.<domain>_<entity...>` */
  function StreamToTable(stream: string): Option<string> {
    var parts := Split(stream, '.');
    if |parts| < 3 || parts[0] != "uwv" then None
    else Some("uwv." + parts[1] + "_" + Join(parts[2..], '_'))
  }

  // The shortest text of one character or more, without a line break, before a date.
  function Lazy(t: string): Option<string> {
    if t == "" || t[0] == '\n' then None
    else if StartsWith(t[1..], DATE) then Some([t[0]])
    else match Lazy(t[1..]) case None => None case Some(p) => Some([t[0]] + p)
  }

  // The leftmost match of the pattern.
  function Search(s: string): Option<string> {
    if s == "" then None
    else if StartsWith(s, BUCKET) && Lazy(s[|BUCKET|..]).Some? then Lazy(s[|BUCKET|..])
    else Search(s[1..])
  }

  function Dotted(s: string): string {
    if s == "" then "" else [if s[0] == '/' then '.' else s[0]] + Dotted(s[1..])
  }

  function ExtractStream(path: string): Option<string> {
    match Search(path) case None => None case Some(p) => Some(Dotted(p))
  }

  // ----- paths as they are written -----

  predicate Segment(s: string) {
    s != "" && '/' !in s && '\n' !in s
  }

  predicate AllSegments(segments: seq<string>) {
    forall s :: s in segments ==> Segment(s)
  }

  function PathOf(segments: seq<string>, rest: string): string {
    "s3a:/" + (BUCKET + (Join(segments, '/') + (DATE + rest)))
  }

  // The segments up to a later one that looks like a date.
  function BeforeDate(segments: seq<string>): (r: seq<string>)
    requires segments != []
    ensures r != [] && r[0] == segments[0] && |r| <= |segments|
  {
    if |segments| == 1 || StartsWith(segments[1], "dt=") then [segments[0]]
    else [segments[0]] + BeforeDate(segments[1..])
  }

  lemma {:induction false} LazyChars(a: string, t: string)
    requires Segment(a) && t != "" && t[0] == '/'
    ensures Lazy(a + t) == if StartsWith(t, DATE) then Some(a)
      else match Lazy(t) case None => None case Some(p) => Some(a + p)
  {
    assert (a + t)[0] == a[0] && (a + t)[1..] == a[1..] + t;
    if |a| == 1 {
      assert a[1..] + t == t && [a[0]] == a;
    } else {
      LazyChars(a[1..], t);
      assert (a[1..] + t)[0] == a[1] && a[1] in a;
      assert DATE[0] == '/';
      assert forall p: string :: [a[0]] + (a[1..] + p) == a + p;
      assert [a[0]] + a[1..] == a;
    }
  }

  // Whether a date follows is decided by the next segment alone.
  lemma DateAhead(next: string, more: string)
    requires Segment(next) && more != "" && more[0] == '/'
    ensures StartsWith("/" + (next + more), DATE) <==> StartsWith(next, "dt=")
  {
    var t := "/" + (next + more);
    assert DATE == "/" + "dt=";
    assert t[1..] == next + more;
    assert t[1 + |next|] == '/';
    if StartsWith(t, DATE) {
      assert t[..4] == DATE && t[1] == 'd' && t[2] == 't' && t[3] == '=';
      assert next[..3] == t[1..4] == "dt=";
    }
    if StartsWith(next, "dt=") {
      assert t[..4] == "/" + next[..3];
    }
  }

  lemma LazySlash(x: string, segments: seq<string>, tail: string)
    requires segments != [] && AllSegments(segments) && x == Join(segments, '/') + tail
    ensures !StartsWith("/" + x, DATE) ==>
      Lazy("/" + x) == match Lazy(x) case None => None case Some(p) => Some("/" + p)
  {
    assert segments[0] in segments && x[0] == segments[0][0] && segments[0][0] in segments[0];
    assert ("/" + x)[1..] == x;
    assert DATE[0] == '/';
    assert !StartsWith(x, DATE) by {
      assert |x| >= 4 ==> x[..4][0] == x[0];
    }
  }

  lemma JoinFront(segments: seq<string>, tail: string)
    requires |segments| > 1
    ensures Join(segments, '/') + tail == segments[0] + ("/" + (Join(segments[1..], '/') + tail))
  {
  }

  lemma {:induction false} LazyJoin(segments: seq<string>, rest: string)
    requires segments != [] && AllSegments(segments)
    ensures Lazy(Join(segments, '/') + (DATE + rest)) == Some(Join(BeforeDate(segments), '/'))
    decreases |segments|
  {
    var tail := DATE + rest;
    assert segments[0] in segments && tail[0] == '/' && tail[..4] == DATE;
    if |segments| == 1 {
      LazyChars(segments[0], tail);
    } else {
      var x := Join(segments[1..], '/') + tail;
      assert forall s :: s in segments[1..] ==> s in segments;
      LazyJoin(segments[1..], rest);
      JoinFront(segments, tail);
      LazySlash(x, segments[1..], tail);
      LazyChars(segments[0], "/" + x);
      NextSegment(segments[1..], tail);
      if !StartsWith(segments[1], "dt=") {
        JoinKept(segments);
      }
    }
  }

  lemma JoinKept(segments: seq<string>)
    requires |segments| > 1 && !StartsWith(segments[1], "dt=")
    ensures Join(BeforeDate(segments), '/') == segments[0] + ("/" + Join(BeforeDate(segments[1..]), '/'))
  {
    var kept := BeforeDate(segments[1..]);
    assert BeforeDate(segments) == [segments[0]] + kept && ([segments[0]] + kept)[1..] == kept;
  }

  lemma NextSegment(segments: seq<string>, tail: string)
    requires segments != [] && AllSegments(segments) && tail != "" && tail[0] == '/'
    ensures StartsWith("/" + (Join(segments, '/') + tail), DATE) <==> StartsWith(segments[0], "dt=")
  {
    assert segments[0] in segments;
    if |segments| == 1 {
      DateAhead(segments[0], tail);
    } else {
      JoinFront(segments, tail);
      DateAhead(segments[0], "/" + (Join(segments[1..], '/') + tail));
    }
  }

  lemma {:induction false} DottedConcat(s: string, t: string)
    ensures Dotted(s + t) == Dotted(s) + Dotted(t)
  {
    if s == "" {
      assert s + t == t;
    } else {
      assert (s + t)[1..] == s[1..] + t;
      DottedConcat(s[1..], t);
    }
  }

  lemma {:induction false} DottedPlain(s: string)
    requires '/' !in s
    ensures Dotted(s) == s
  {
    if s != "" {
      DottedPlain(s[1..]);
    }
  }

  lemma {:induction false} DottedJoin(segments: seq<string>)
    requires AllSegments(segments)
    ensures Dotted(Join(segments, '/')) == Join(segments, '.')
  {
    if segments != [] {
      assert segments[0] in segments;
      DottedPlain(segments[0]);
      if |segments| > 1 {
        assert forall s :: s in segments[1..] ==> s in segments;
        DottedJoin(segments[1..]);
        DottedConcat(segments[0] + ['/'], Join(segments[1..], '/'));
        DottedConcat(segments[0], ['/']);
        assert Dotted(['/']) == ['.'] by {
          assert ['/'][1..] == "";
        }
      }
    }
  }

  lemma SearchSkips(c: char, s: string)
    requires s != "" && (c != '/' || s[0] != 'u')
    ensures Search([c] + s) == Search(s)
  {
    assert ([c] + s)[1..] == s;
    assert BUCKET[0] == '/' && BUCKET[1] == 'u';
    assert |s| >= 8 ==> ([c] + s)[..9][0] == c && ([c] + s)[..9][1] == s[0];
  }

  lemma SearchFinds(t: string)
    requires Lazy(t).Some?
    ensures Search("s3a:/" + (BUCKET + t)) == Lazy(t)
  {
    var s := BUCKET + t;
    assert s[..9] == BUCKET && s[9..] == t && s[0] == '/';
    assert Search(s) == Lazy(t);
    assert "s3a:/" + s == ['s'] + (['3'] + (['a'] + ([':'] + (['/'] + s))));
    SearchSkips('/', s);
    SearchSkips(':', ['/'] + s);
    SearchSkips('a', [':'] + (['/'] + s));
    SearchSkips('3', ['a'] + ([':'] + (['/'] + s)));
    SearchSkips('s', ['3'] + (['a'] + ([':'] + (['/'] + s))));
  }

  lemma {:induction false} BeforeDateSegments(segments: seq<string>)
    requires segments != [] && AllSegments(segments)
    ensures AllSegments(BeforeDate(segments))
  {
    assert segments[0] in segments;
    if |segments| > 1 && !StartsWith(segments[1], "dt=") {
      assert forall s :: s in segments[1..] ==> s in segments;
      BeforeDateSegments(segments[1..]);
    }
  }

  /** The stream of a raw file is its directory names, joined by dots, up to the first later
      name that looks like a date. */
  lemma PathGivesItsStream(segments: seq<string>, rest: string)
    requires segments != [] && AllSegments(segments)
    ensures ExtractStream(PathOf(segments, rest)) == Some(Join(BeforeDate(segments), '.'))
  {
    var t := Join(segments, '/') + (DATE + rest);
    LazyJoin(segments, rest);
    SearchFinds(t);
    BeforeDateSegments(segments);
    DottedJoin(BeforeDate(segments));
  }

  lemma JoinedName(parts: seq<string>)
    requires |parts| >= 3
    ensures "uwv." + parts[1] + "_" + Join(parts[2..], '_') == "uwv." + Join(parts[1..], '_')
  {
    var head, tail := parts[1] + ['_'], Join(parts[2..], '_');
    assert parts[1..][1..] == parts[2..];
    assert "uwv." + parts[1] + "_" == "uwv." + head;
    Regroup("uwv.", head, tail);
  }

  lemma TableOfParts(stream: string)
    ensures var parts := Split(stream, '.');
      StreamToTable(stream) == if |parts| >= 3 && parts[0] == "uwv" then Some("uwv." + Join(parts[1..], '_')) else None
  {
    var parts := Split(stream, '.');
    if |parts| >= 3 {
      JoinedName(parts);
    }
  }

  lemma TableOfSegments(segments: seq<string>)
    requires segments != [] && Free(segments, '.')
    ensures StreamToTable(Join(segments, '.')) ==
      if |segments| >= 3 && segments[0] == "uwv" then Some("uwv." + Join(segments[1..], '_')) else None
  {
    SplitJoin(segments, '.');
    TableOfParts(Join(segments, '.'));
  }

  /** Two streams have different tables when their names hold no underscore. */
  lemma StreamsKeepApart(a: seq<string>, b: seq<string>)
    requires |a| >= 3 && |b| >= 3 && a[0] == b[0] == "uwv"
    requires Free(a, '.') && Free(b, '.') && Free(a, '_') && Free(b, '_')
    ensures StreamToTable(Join(a, '.')) == StreamToTable(Join(b, '.')) <==> a == b
  {
    TableOfSegments(a);
    TableOfSegments(b);
    var x, y := Join(a[1..], '_'), Join(b[1..], '_');
    assert ("uwv." + x)[4..] == x && ("uwv." + y)[4..] == y;
    assert Split(x, '_') == a[1..] by { SplitJoin(a[1..], '_'); }
    assert Split(y, '_') == b[1..] by { SplitJoin(b[1..], '_'); }
    assert a == [a[0]] + a[1..] && b == [b[0]] + b[1..];
    assert "uwv." + x == "uwv." + y <==> a == b;
  }

  lemma TableOfThree(x: string, y: string)
    requires '.' !in x && '.' !in y
    ensures StreamToTable(Join(["uwv", x, y], '.')) == Some("uwv." + (x + ['_'] + y))
  {
    var a := ["uwv", x, y];
    TableOfSegments(a);
    assert a[1..] == [x, y] && [x, y][1..] == [y];
  }

  /** With underscores they may share one: both kinds of rows then land in the same table. */
  lemma StreamsMayShareATable(x: string, y: string, z: string)
    requires '.' !in x && '.' !in y && '.' !in z
    ensures var a, b := ["uwv", x + "_" + y, z], ["uwv", x, y + "_" + z];
      a != b && StreamToTable(Join(a, '.')) == StreamToTable(Join(b, '.')) != None
  {
    TableOfThree(x + "_" + y, z);
    TableOfThree(x, y + "_" + z);
    assert x + "_" + y + ['_'] + z == x + ['_'] + (y + "_" + z);
    assert |["uwv", x + "_" + y, z][1]| > |x|;
  }

  // The names of a stream the router accepts.
  predicate StreamNames(names: seq<string>) {
    |names| >= 3 && names[0] == "uwv" && Free(names, '.')
  }

  predicate SameTable(a: seq<string>, b: seq<string>) {
    StreamToTable(Join(a, '.')) == StreamToTable(Join(b, '.'))
  }

  lemma SameTableIff(a: seq<string>, b: seq<string>)
    requires StreamNames(a) && StreamNames(b)
    ensures SameTable(a, b) <==> Join(a[1..], '_') == Join(b[1..], '_')
  {
    TableOfSegments(a);
    TableOfSegments(b);
    var x, y := Join(a[1..], '_'), Join(b[1..], '_');
    assert ("uwv." + x)[4..] == x && ("uwv." + y)[4..] == y;
  }

  lemma {:induction false} JoinSplit(s: string, sep: char)
    ensures Join(Split(s, sep), sep) == s
  {
    if s != "" {
      var rest := Split(s[1..], sep);
      JoinSplit(s[1..], sep);
      if s[0] == sep {
        assert ([""] + rest)[1..] == rest && "" + [sep] + Join(rest, sep) == s;
      } else {
        JoinFirst([s[0]], rest, sep);
        assert [s[0]] + s[1..] == s;
      }
    }
  }

  // Text put in front of the first part.
  lemma JoinFirst(x: string, parts: seq<string>, sep: char)
    requires parts != []
    ensures Join([x + parts[0]] + parts[1..], sep) == x + Join(parts, sep)
  {
    var longer := [x + parts[0]] + parts[1..];
    assert longer[1..] == parts[1..];
    if |parts| > 1 {
      assert x + parts[0] + [sep] + Join(parts[1..], sep) == x + (parts[0] + [sep] + Join(parts[1..], sep));
    }
  }

  // A text that splits into one part is that part.
  lemma SplitOne(s: string, x: string, sep: char)
    requires Split(s, sep) == [x]
    ensures s == x && sep !in s
  {
    JoinSplit(s, sep);
    SplitIsFree(s, sep);
    assert Join([x], sep) == x && x in [x];
  }

  lemma JoinHasSeparator(names: seq<string>)
    ensures |names| > 1 ==> '_' in Join(names, '_')
  {
    assert |names| > 1 ==> Join(names, '_')[|names[0]|] == '_';
  }

  // Two names without an underscore are the only ones that join to the same text.
  lemma TwoNamesOnly(x: string, y: string, names: seq<string>)
    requires '_' !in x && '_' !in y && |names| >= 2
    requires Join(names, '_') == Join([x, y], '_')
    ensures names == [x, y]
  {
    var rest := Join(names[1..], '_');
    JoinHasSeparator(names[1..]);
    assert Free([x, y], '_');
    SplitJoin([x, y], '_');
    SplitConcat(names[0], rest, '_');
    assert Split(names[0], '_') + Split(rest, '_') == [x, y];
    assert |Split(names[0], '_')| == 1 && |Split(rest, '_')| == 1;
    assert Split(names[0], '_') == [x] && Split(rest, '_') == [y] by {
      assert (Split(names[0], '_') + Split(rest, '_'))[0] == Split(names[0], '_')[0];
      assert (Split(names[0], '_') + Split(rest, '_'))[1] == Split(rest, '_')[0];
    }
    SplitOne(names[0], x, '_');
    SplitOne(rest, y, '_');
    assert names == [names[0]] + names[1..] && names[1..] == [rest];
  }

  // Of more than two names the later ones can be written as one.
  lemma LongStreamShares(a: seq<string>) returns (b: seq<string>)
    requires StreamNames(a) && |a| > 3
    ensures StreamNames(b) && b != a && SameTable(a, b)
  {
    b := ["uwv", a[1], Join(a[2..], '_')];
    assert a[1] in a;
    JoinHasNoDot(a[2..]);
    assert a[1..][1..] == a[2..];
    assert b[1..] == [a[1], Join(a[2..], '_')] && b[1..][1..] == [Join(a[2..], '_')];
    assert Free(b, '.') by {
      assert a[0] in a && forall s :: s in b ==> s == b[0] || s == b[1] || s == b[2];
    }
    SameTableIff(a, b);
  }

  lemma {:induction false} JoinHasNoDot(names: seq<string>)
    requires Free(names, '.')
    ensures '.' !in Join(names, '_')
  {
    if names != [] {
      assert names[0] in names;
      if |names| > 1 {
        JoinHasNoDot(names[1..]);
      }
    }
  }

  // A name with an underscore can be written as two.
  lemma {:induction false} JoinWithin(front: seq<string>, p: string, q: string, back: seq<string>)
    ensures Join(front + [p, q] + back, '_') == Join(front + [p + ['_'] + q] + back, '_')
  {
    if front == [] {
      assert [] + [p, q] + back == [p, q] + back && ([p, q] + back)[1..] == [q] + back && ([q] + back)[1..] == back;
      assert [] + [p + ['_'] + q] + back == [p + ['_'] + q] + back && ([p + ['_'] + q] + back)[1..] == back;
      if back != [] {
        assert p + ['_'] + (q + ['_'] + Join(back, '_')) == p + ['_'] + q + ['_'] + Join(back, '_');
      }
    } else {
      JoinWithin(front[1..], p, q, back);
      assert (front + [p, q] + back)[1..] == front[1..] + [p, q] + back;
      assert (front + [p + ['_'] + q] + back)[1..] == front[1..] + [p + ['_'] + q] + back;
    }
  }

  lemma Cut(s: string) returns (p: string, q: string)
    requires '_' in s
    ensures s == p + ['_'] + q
  {
    var i :| 0 <= i < |s| && s[i] == '_';
    p, q := s[..i], s[i + 1..];
  }

  lemma UnderscoreShares(a: seq<string>, i: nat) returns (b: seq<string>)
    requires StreamNames(a) && 1 <= i < |a| && '_' in a[i]
    ensures StreamNames(b) && b != a && SameTable(a, b)
  {
    var p, q := Cut(a[i]);
    var front, back := a[1..i], a[i + 1..];
    assert a[i] in a && '.' !in p && '.' !in q;
    b := ["uwv"] + (front + [p, q] + back);
    assert a == ["uwv"] + (front + [a[i]] + back);
    JoinWithin(front, p, q, back);
    assert a[1..] == front + [a[i]] + back && b[1..] == front + [p, q] + back;
    assert Free(b, '.') by {
      assert forall s :: s in b ==> s in a || s == p || s == q;
    }
    assert |b| == |a| + 1;
    SameTableIff(a, b);
  }

  /** Exactly when a stream has a table of its own: when it has three names and neither of
      the last two holds an underscore. Otherwise another stream's rows land there too. */
  lemma StreamOwnsItsTableIff(a: seq<string>)
    requires StreamNames(a)
    ensures (forall b :: StreamNames(b) && SameTable(a, b) ==> b == a)
      <==> (|a| == 3 && '_' !in a[1] && '_' !in a[2])
  {
    if |a| > 3 {
      var b := LongStreamShares(a);
    } else if '_' in a[1] {
      var b := UnderscoreShares(a, 1);
    } else if '_' in a[2] {
      var b := UnderscoreShares(a, 2);
    } else {
      forall b | StreamNames(b) && SameTable(a, b) ensures b == a {
        SameTableIff(a, b);
        assert a[1..] == [a[1], a[2]];
        TwoNamesOnly(a[1], a[2], b[1..]);
        assert a == ["uwv"] + a[1..] && b == ["uwv"] + b[1..];
      }
    }
  }

  // ----- from the file to the table -----

  // The table named after all directories of a file.
  predicate ReachesItsTable(segments: seq<string>, rest: string)
    requires segments != []
  {
    var stream := ExtractStream(PathOf(segments, rest));
    && segments[0] == "uwv" && stream.Some?
    && StreamToTable(stream.value) == Some("uwv." + Join(segments[1..], '_'))
  }

  lemma {:induction false} JoinLength(names: seq<string>, c: char, d: char)
    ensures |Join(names, c)| == |Join(names, d)|
  {
    if |names| > 1 {
      JoinLength(names[1..], c, d);
    }
  }

  // Cutting names off makes the joined text shorter.
  lemma {:induction false} FewerNamesShorter(names: seq<string>, c: char)
    requires names != []
    ensures |Join(BeforeDate(names), c)| <= |Join(names, c)|
    ensures |Join(BeforeDate(names), c)| == |Join(names, c)| ==> BeforeDate(names) == names
  {
    if |names| > 1 {
      if StartsWith(names[1], "dt=") {
        assert |Join(names, c)| == |names[0]| + 1 + |Join(names[1..], c)|;
      } else {
        var kept := BeforeDate(names[1..]);
        FewerNamesShorter(names[1..], c);
        assert ([names[0]] + kept)[1..] == kept;
        assert names == [names[0]] + names[1..];
      }
    }
  }

  // The joined parts of a text: as long as it is, and without a dot.
  lemma Underscored(x: string)
    ensures var own := Join(Split(x, '.'), '_'); '.' !in own && |own| == |x|
  {
    SplitIsFree(x, '.');
    JoinHasNoDot(Split(x, '.'));
    JoinLength(Split(x, '.'), '.', '_');
    JoinSplit(x, '.');
  }

  lemma {:induction false} DotStays(names: seq<string>)
    ensures '.' !in Join(names, '_') ==> Free(names, '.')
  {
    if |names| == 1 {
      assert forall p :: p in names ==> p == names[0];
    } else if names != [] {
      DotStays(names[1..]);
      assert names == [names[0]] + names[1..];
      assert forall c :: c in names[0] || c in Join(names[1..], '_') ==> c in Join(names, '_');
    }
  }

  lemma UwvInFront(x: string)
    ensures Split("uwv" + ['.'] + x, '.') == ["uwv"] + Split(x, '.')
  {
    SplitHead("uwv", "", '.');
    assert "uwv" + "" == "uwv";
    SplitConcat("uwv", x, '.');
  }

  // The table of a path whose first name is `uwv`.
  lemma TableOfKept(kept: seq<string>)
    requires kept != [] && kept[0] == "uwv" && StreamToTable(Join(kept, '.')).Some?
    ensures |kept| >= 2
    ensures var parts := Split(Join(kept[1..], '.'), '.');
      StreamToTable(Join(kept, '.')) == Some("uwv." + Join(parts, '_')) && |parts| >= 2
  {
    if |kept| == 1 {
      assert kept == ["uwv"];
      OnlyUwv();
    } else {
      var x := Join(kept[1..], '.');
      assert Join(kept, '.') == "uwv" + ['.'] + x;
      UwvInFront(x);
      TableOfParts(Join(kept, '.'));
      assert (["uwv"] + Split(x, '.'))[1..] == Split(x, '.');
    }
  }

  lemma SameAfterSchema(x: string, y: string)
    requires "uwv." + x == "uwv." + y
    ensures x == y
  {
    assert ("uwv." + x)[4..] == x && ("uwv." + y)[4..] == y;
  }

  lemma OnlyItsNames(segments: seq<string>, rest: string)
    requires segments != [] && AllSegments(segments) && ReachesItsTable(segments, rest)
    ensures |segments| >= 3 && Free(segments, '.') && BeforeDate(segments) == segments
  {
    var kept := BeforeDate(segments);
    PathGivesItsStream(segments, rest);
    TableOfKept(kept);
    NamesOfItsTable(segments);
  }

  lemma NamesOfItsTable(segments: seq<string>)
    requires segments != [] && segments[0] == "uwv" && |BeforeDate(segments)| >= 2
    requires var parts := Split(Join(BeforeDate(segments)[1..], '.'), '.');
      |parts| >= 2 && "uwv." + Join(parts, '_') == "uwv." + Join(segments[1..], '_')
    ensures |segments| >= 3 && Free(segments, '.') && BeforeDate(segments) == segments
  {
    var x := Join(BeforeDate(segments)[1..], '.');
    SameAfterSchema(Join(Split(x, '.'), '_'), Join(segments[1..], '_'));
    Underscored(x);
    KeptAll(segments, x);
    DotStays(segments[1..]);
    SplitJoin(segments[1..], '.');
    assert segments == [segments[0]] + segments[1..];
  }

  lemma OnlyUwv()
    ensures StreamToTable(Join(["uwv"], '.')) == None
  {
    assert Free(["uwv"], '.');
    TableOfSegments(["uwv"]);
  }

  lemma KeptAll(segments: seq<string>, x: string)
    requires |segments| >= 2 && |BeforeDate(segments)| >= 2 && x == Join(BeforeDate(segments)[1..], '.')
    requires |x| == |Join(segments[1..], '_')|
    ensures BeforeDate(segments) == segments
  {
    var kept := BeforeDate(segments);
    JoinLength(segments[1..], '_', '.');
    FewerNamesShorter(segments, '.');
    assert |Join(kept, '.')| == |kept[0]| + 1 + |x|;
    assert |Join(segments, '.')| == |segments[0]| + 1 + |Join(segments[1..], '.')|;
  }

  /** Path and routing together: a file lands in the table named after all its directories
      exactly when there are three or more, the first is `uwv`, none holds a dot, and no later
      one looks like a date. */
  lemma FileReachesItsTable(segments: seq<string>, rest: string)
    requires segments != [] && AllSegments(segments)
    ensures ReachesItsTable(segments, rest)
      <==> (|segments| >= 3 && segments[0] == "uwv" && Free(segments, '.') && BeforeDate(segments) == segments)
  {
    if ReachesItsTable(segments, rest) {
      OnlyItsNames(segments, rest);
    }
    if |segments| >= 3 && segments[0] == "uwv" && Free(segments, '.') && BeforeDate(segments) == segments {
      PathGivesItsStream(segments, rest);
      TableOfSegments(segments);
      assert ReachesItsTable(segments, rest);
    }
  }
}
