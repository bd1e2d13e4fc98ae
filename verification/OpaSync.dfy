/** From the tags of OpenMetadata tables to the purposes of the OPA data: parsing table
    names, aggregating per schema, merging. The sorted list of a schema's purposes is the
    set of them here. */
module OpaSync {
  import opened Common
  import opened Text
  import opened Enrich

  // ----- the scanner of fully qualified names -----

  // `parts` are the finished segments and `cur` is the one being read.
  function Scan(s: string, cur: string, inQuote: bool, parts: seq<string>): seq<string>
    decreases |s|
  {
    if s == "" then (if cur == "" then parts else parts + [cur])
    else if s[0] == '"' then Scan(s[1..], cur, !inQuote, parts)
    else if s[0] == '.' && !inQuote then Scan(s[1..], "", inQuote, parts + [cur])
    else Scan(s[1..], cur + [s[0]], inQuote, parts)
  }

  function Segments(fqn: string): seq<string> {
    Scan(fqn, "", false, [])
  }

  function GlobFromFqn(fqn: string): Option<string> {
    var parts := Segments(fqn);
    if |parts| < 4 then None else Some(parts[1] + "." + parts[2] + ".*")
  }

  method GlobFromFqnLoop(fqn: string) returns (glob: Option<string>)
    ensures glob == GlobFromFqn(fqn)
  {
    var parts: seq<string>, cur, inQuote := [], "", false;
    var k := 0;
    while k < |fqn|
      invariant 0 <= k <= |fqn|
      invariant Scan(fqn[k..], cur, inQuote, parts) == Segments(fqn)
    {
      assert fqn[k..][1..] == fqn[k + 1..];
      if fqn[k] == '"' {
        inQuote := !inQuote;
      } else if fqn[k] == '.' && !inQuote {
        parts := parts + [cur];
        cur := "";
      } else {
        cur := cur + [fqn[k]];
      }
      k := k + 1;
    }
    if cur != "" {
      parts := parts + [cur];
    }
    glob := if |parts| < 4 then None else Some(parts[1] + "." + parts[2] + ".*");
  }

  /** How OpenMetadata writes a segment: in quotes when it holds a dot. */
  function Quoted(segment: string): string {
    if '.' in segment then "\"" + segment + "\"" else segment
  }

  function PrintFqn(segments: seq<string>): string {
    if segments == [] then ""
    else if |segments| == 1 then Quoted(segments[0])
    else Quoted(segments[0]) + "." + PrintFqn(segments[1..])
  }

  lemma {:induction false} ScanPlain(segment: string, rest: string, cur: string, inQuote: bool, parts: seq<string>)
    requires '"' !in segment && (inQuote || '.' !in segment)
    ensures Scan(segment + rest, cur, inQuote, parts) == Scan(rest, cur + segment, inQuote, parts)
    decreases |segment|
  {
    if segment == "" {
      assert segment + rest == rest && cur + segment == cur;
    } else {
      assert (segment + rest)[1..] == segment[1..] + rest;
      ScanPlain(segment[1..], rest, cur + [segment[0]], inQuote, parts);
      assert cur + [segment[0]] + segment[1..] == cur + segment;
    }
  }

  lemma ScanQuoted(segment: string, rest: string, parts: seq<string>)
    requires '"' !in segment
    ensures Scan(Quoted(segment) + rest, "", false, parts) == Scan(rest, segment, false, parts)
  {
    assert "" + segment == segment;
    if '.' in segment {
      var tail := "\"" + rest;
      assert Quoted(segment) + rest == "\"" + (segment + tail);
      assert ("\"" + (segment + tail))[1..] == segment + tail;
      ScanPlain(segment, tail, "", true, parts);
      assert tail[1..] == rest;
    } else {
      ScanPlain(segment, rest, "", false, parts);
    }
  }

  // What the scanner keeps: a last segment that is empty is dropped.
  function Kept(segments: seq<string>): seq<string>
    requires segments != []
  {
    if segments[|segments| - 1] == "" then segments[..|segments| - 1] else segments
  }

  lemma KeptStep(parts: seq<string>, segments: seq<string>)
    requires |segments| > 1
    ensures (parts + [segments[0]]) + Kept(segments[1..]) == parts + Kept(segments)
  {
  }

  lemma PrintStep(segments: seq<string>)
    requires |segments| > 1
    ensures PrintFqn(segments) == Quoted(segments[0]) + ("." + PrintFqn(segments[1..]))
  {
  }

  lemma {:induction false} ScanPrinted(segments: seq<string>, parts: seq<string>)
    requires segments != [] && forall s :: s in segments ==> '"' !in s
    ensures Scan(PrintFqn(segments), "", false, parts) == parts + Kept(segments)
    decreases |segments|
  {
    if |segments| == 1 {
      assert Quoted(segments[0]) + "" == Quoted(segments[0]);
      ScanQuoted(segments[0], "", parts);
      assert segments == [segments[0]];
    } else {
      var rest := PrintFqn(segments[1..]);
      PrintStep(segments);
      ScanQuoted(segments[0], "." + rest, parts);
      assert Scan("." + rest, segments[0], false, parts) == Scan(rest, "", false, parts + [segments[0]]) by {
        assert ("." + rest)[1..] == rest;
      }
      ScanPrinted(segments[1..], parts + [segments[0]]);
      KeptStep(parts, segments);
    }
  }

  /** The scanner inverts the printer for quote-free segments, dots and empty segments
      included, exactly when the last segment is not empty; that one it drops. */
  lemma ScannerInvertsPrinter(segments: seq<string>)
    requires segments != [] && forall s :: s in segments ==> '"' !in s
    ensures Segments(PrintFqn(segments)) == Kept(segments)
    ensures Segments(PrintFqn(segments)) == segments <==> segments[|segments| - 1] != ""
  {
    ScanPrinted(segments, []);
    assert [] + Kept(segments) == Kept(segments);
  }

  // The scanner only adds segments, none of which holds a quote, and one for what follows
  // exactly when that is more than quotes.
  lemma {:induction false} ScanAdds(s: string, cur: string, inQuote: bool, parts: seq<string>)
    requires '"' !in cur && forall p :: p in parts ==> '"' !in p
    ensures var r := Scan(s, cur, inQuote, parts);
      && parts <= r && (forall p :: p in r ==> '"' !in p)
      && (|r| > |parts| <==> cur != "" || exists c :: c in s && c != '"')
    decreases |s|
  {
    if s != "" {
      assert s == [s[0]] + s[1..];
      assert s[0] in s && forall c :: c in s <==> c == s[0] || c in s[1..];
      if s[0] == '"' {
        ScanAdds(s[1..], cur, !inQuote, parts);
      } else if s[0] == '.' && !inQuote {
        ScanAdds(s[1..], "", inQuote, parts + [cur]);
      } else {
        ScanAdds(s[1..], cur + [s[0]], inQuote, parts);
      }
    }
  }

  // Without quotes the scanner splits at the dots.
  lemma {:induction false} ScanUnquoted(x: string, rest: string, cur: string, parts: seq<string>)
    requires '"' !in x
    ensures Scan(x + ("." + rest), cur, false, parts)
         == Scan(rest, "", false, parts + ([cur + Split(x, '.')[0]] + Split(x, '.')[1..]))
    decreases |x|
  {
    var s, split := x + ("." + rest), Split(x, '.');
    if x == "" {
      assert s == "." + rest && s[1..] == rest;
      assert cur + "" == cur && [cur] + split[1..] == [cur];
    } else {
      var more := Split(x[1..], '.');
      assert s[0] == x[0] && s[1..] == x[1..] + ("." + rest);
      if x[0] == '.' {
        ScanUnquoted(x[1..], rest, "", parts + [cur]);
        assert "" + more[0] == more[0] && [more[0]] + more[1..] == more && cur + "" == cur;
        Regroup(parts, [cur], more);
      } else {
        ScanUnquoted(x[1..], rest, cur + [x[0]], parts);
        assert cur + [x[0]] + more[0] == cur + ([x[0]] + more[0]);
      }
    }
  }

  lemma {:induction false} PlainFqn(segments: seq<string>)
    requires segments != [] && forall s :: s in segments ==> '.' !in s
    ensures PrintFqn(segments) == Join(segments, '.')
  {
    if |segments| > 1 {
      PlainFqn(segments[1..]);
    }
  }

  /** A schema's glob names the schema when its names have no dots. */
  lemma GlobNamesTheSchema(catalog: string, schema: string, catalog': string, schema': string)
    requires '.' !in catalog && '.' !in schema && '.' !in catalog' && '.' !in schema'
    ensures catalog + "." + schema + ".*" == catalog' + "." + schema' + ".*"
      <==> catalog == catalog' && schema == schema'
  {
    var a, b := catalog + "." + schema + ".*", catalog' + "." + schema' + ".*";
    if a == b {
      SplitThree(catalog, schema);
      SplitThree(catalog', schema');
    }
  }

  lemma SplitThree(catalog: string, schema: string)
    requires '.' !in catalog && '.' !in schema
    ensures Split(catalog + "." + schema + ".*", '.') == [catalog, schema, "*"]
  {
    var parts := [catalog, schema, "*"];
    assert parts[1..] == [schema, "*"] && parts[1..][1..] == ["*"];
    assert Join(parts, '.') == catalog + "." + schema + ".*" by {
      assert Join(["*"], '.') == "*" && Join([schema, "*"], '.') == schema + "." + "*";
      assert catalog + "." + (schema + "." + "*") == catalog + "." + schema + ".*";
    }
    SplitJoin(parts, '.');
  }

  lemma {:induction false} OnePart(s: string)
    requires |Split(s, '.')| == 1
    ensures '.' !in s
  {
    if s != "" {
      OnePart(s[1..]);
    }
  }

  lemma PlainPart(s: string)
    requires '.' !in s
    ensures Split(s, '.') == [s]
  {
    SplitHead(s, "", '.');
    assert s + "" == s;
  }

  lemma SameGlob(x: string, y: string)
    ensures x + ".*" == y + ".*" <==> x == y
  {
    assert (x + ".*")[..|x + ".*"| - 2] == x && (y + ".*")[..|y + ".*"| - 2] == y;
  }

  predicate SameGlobAs(catalog: string, schema: string, catalog': string, schema': string) {
    catalog' + "." + schema' + ".*" == catalog + "." + schema + ".*"
  }

  // The names of one glob split into the same parts.
  lemma SamePartsOfGlob(catalog: string, schema: string, catalog': string, schema': string)
    requires SameGlobAs(catalog, schema, catalog', schema')
    ensures Split(catalog', '.') + Split(schema', '.') == Split(catalog, '.') + Split(schema, '.')
  {
    SameGlob(catalog' + "." + schema', catalog + "." + schema);
    SplitConcat(catalog, schema, '.');
    SplitConcat(catalog', schema', '.');
    assert catalog + ['.'] + schema == catalog + "." + schema && catalog' + ['.'] + schema' == catalog' + "." + schema';
  }

  lemma DotMoves(p: string, q: string, s: string)
    ensures SameGlobAs(p + "." + q, s, p, q + "." + s) && p != p + "." + q
  {
    assert (p + "." + q) + "." + s == p + "." + (q + "." + s);
    assert |p| < |p + "." + q|;
  }

  lemma CutAtDot(s: string) returns (p: string, q: string)
    requires '.' in s
    ensures s == p + "." + q
  {
    var i :| 0 <= i < |s| && s[i] == '.';
    p, q := s[..i], s[i + 1..];
  }

  /** Exactly when a glob speaks of one schema only: when neither name holds a dot. */
  lemma GlobOwnsItsSchemaIff(catalog: string, schema: string)
    ensures (forall c, s :: SameGlobAs(catalog, schema, c, s) ==> c == catalog && s == schema)
      <==> ('.' !in catalog && '.' !in schema)
  {
    if '.' in catalog {
      var p, q := CutAtDot(catalog);
      DotMoves(p, q, schema);
      assert SameGlobAs(catalog, schema, p, q + "." + schema) && p != catalog;
    } else if '.' in schema {
      var q, s := CutAtDot(schema);
      DotMoves(catalog, q, s);
      assert SameGlobAs(catalog, schema, catalog + "." + q, s) && catalog + "." + q != catalog;
    } else {
      forall c, s | SameGlobAs(catalog, schema, c, s) ensures c == catalog && s == schema {
        SamePartsOfGlob(catalog, schema, c, s);
        PlainPart(catalog);
        PlainPart(schema);
        TwoParts(Split(c, '.'), Split(s, '.'), catalog, schema);
        OnePart(c);
        OnePart(s);
        PlainPart(c);
        PlainPart(s);
      }
    }
  }

  lemma TwoParts(a: seq<string>, b: seq<string>, x: string, y: string)
    requires a != [] && b != [] && a + b == [x] + [y]
    ensures a == [x] && b == [y]
  {
    assert |a + b| == 2 && (a + b)[0] == x && (a + b)[1] == y;
  }

  /** Two tables of different schemas that get one glob: the scanner drops the quotes that
      tell their names apart. Each of the schemas then allows the purposes of the other. */
  lemma SchemasMayShareAGlob(service: string, p: string, q: string, s: string, table: string)
    requires forall name :: name in [service, p, q, s, table] ==> '"' !in name
    requires table != ""
    ensures GlobFromFqn(PrintFqn([service, p + "." + q, s, table]))
         == GlobFromFqn(PrintFqn([service, p, q + "." + s, table]))
         == Some(p + "." + (q + "." + s) + ".*")
  {
    var names := [service, p, q, s, table];
    assert names[0] == service && names[1] == p && names[2] == q && names[3] == s && names[4] == table;
    GlobOfPrinted(service, p + "." + q, s, table);
    GlobOfPrinted(service, p, q + "." + s, table);
    DotMoves(p, q, s);
  }

  lemma GlobOfPrinted(service: string, catalog: string, schema: string, table: string)
    requires '"' !in service && '"' !in catalog && '"' !in schema && '"' !in table && table != ""
    ensures GlobFromFqn(PrintFqn([service, catalog, schema, table])) == Some(catalog + "." + schema + ".*")
  {
    ScannerInvertsPrinter([service, catalog, schema, table]);
  }

  /** A printed name has a glob exactly when at least four segments are kept of it, the last one
      counting only if it is not empty. */
  lemma GlobNeedsFourSegments(segments: seq<string>)
    requires segments != [] && forall s :: s in segments ==> '"' !in s
    ensures GlobFromFqn(PrintFqn(segments)) == None
      <==> |segments| < 4 || (|segments| == 4 && segments[3] == "")
  {
    ScanPrinted(segments, []);
    assert [] + Kept(segments) == Kept(segments);
  }

  // ----- aggregation -----

  const PREFIX: string := "Doelbinding."

  function Purposes(tags: seq<Tag>): set<string> {
    set t | t in tags && StartsWith(t.fqn, PREFIX) :: Lower(t.fqn[|PREFIX|..])
  }

  method ExtractDoelbindingen(tags: seq<Tag>) returns (out: set<string>)
    ensures out == Purposes(tags)
  {
    out := {};
    var k := 0;
    while k < |tags|
      invariant 0 <= k <= |tags| && out == Purposes(tags[..k])
    {
      assert tags[..k + 1] == tags[..k] + [tags[k]];
      if StartsWith(tags[k].fqn, PREFIX) {
        out := out + {Lower(tags[k].fqn[|PREFIX|..])};
      }
      k := k + 1;
    }
    assert tags[..k] == tags;
  }

  // The purposes of all tables under one glob.
  function Under(tables: seq<Table>, glob: string): set<string> {
    set t, p | t in tables && GlobFromFqn(t.fqn) == Some(glob) && p in Purposes(Items(t.tags)) :: p
  }

  function UnderOne(t: Table, glob: string): set<string> {
    if GlobFromFqn(t.fqn) == Some(glob) then Purposes(Items(t.tags)) else {}
  }

  ghost predicate Aggregates(r: map<string, set<string>>, tables: seq<Table>) {
    && (forall g :: g in r ==> r[g] == Under(tables, g) && r[g] != {})
    && (forall g :: Under(tables, g) != {} ==> g in r)
  }

  method AggregateResourcePurposes(tables: seq<Table>) returns (r: map<string, set<string>>)
    ensures Aggregates(r, tables)
  {
    var byGlob: map<string, set<string>> := map[];
    var k := 0;
    while k < |tables|
      invariant 0 <= k <= |tables|
      invariant forall g :: Under(tables[..k], g) == if g in byGlob then byGlob[g] else {}
    {
      var glob := GlobFromFqnLoop(tables[k].fqn);
      var purposes := ExtractDoelbindingen(Items(tables[k].tags));
      UnderOneMore(tables, k);
      if glob.Some? {
        byGlob := byGlob[glob.value := (if glob.value in byGlob then byGlob[glob.value] else {}) + purposes];
      }
      k := k + 1;
    }
    assert tables[..k] == tables;
    r := map g | g in byGlob && byGlob[g] != {} :: byGlob[g];
  }

  // The tag allows the purpose: it is named like it, in any case, behind "Doelbinding.".
  predicate Allows(tag: Tag, purpose: string) {
    |tag.fqn| >= 12 && tag.fqn[..12] == "Doelbinding." && Lower(tag.fqn[12..]) == purpose
  }

  lemma AllowsIff(tags: seq<Tag>, purpose: string)
    ensures purpose in Purposes(tags) <==> exists tag :: tag in tags && Allows(tag, purpose)
  {
    assert |"Doelbinding."| == 12;
  }

  /** A purpose is in the aggregate under a glob exactly when a table with that glob has a tag
      that allows it. */
  lemma AggregatedIff(r: map<string, set<string>>, tables: seq<Table>, glob: string, purpose: string)
    requires Aggregates(r, tables)
    ensures (glob in r && purpose in r[glob]) <==>
      exists t, tag :: t in tables && GlobFromFqn(t.fqn) == Some(glob) && tag in Items(t.tags) && Allows(tag, purpose)
  {
    assert purpose in Under(tables, glob) <==> glob in r && purpose in r[glob];
    if purpose in Under(tables, glob) {
      var t :| t in tables && GlobFromFqn(t.fqn) == Some(glob) && purpose in Purposes(Items(t.tags));
      AllowsIff(Items(t.tags), purpose);
    }
    if t, tag :| t in tables && GlobFromFqn(t.fqn) == Some(glob) && tag in Items(t.tags) && Allows(tag, purpose) {
      AllowsIff(Items(t.tags), purpose);
    }
  }

  lemma UnderOneMore(tables: seq<Table>, k: nat)
    requires k < |tables|
    ensures forall g :: Under(tables[..k + 1], g) == Under(tables[..k], g) + UnderOne(tables[k], g)
  {
    assert tables[..k + 1] == tables[..k] + [tables[k]];
  }

  /** The aggregate depends only on which tables there are, not on their order or on how
      often a page of the listing repeats one. */
  lemma AggregateIgnoresOrder(tables: seq<Table>, again: seq<Table>,
                              r: map<string, set<string>>, r': map<string, set<string>>)
    requires forall t :: t in tables <==> t in again
    requires Aggregates(r, tables) && Aggregates(r', again)
    ensures r == r'
  {
    forall g ensures Under(tables, g) == Under(again, g) {}
  }

  // ----- the merge into the OPA data -----

  function Merge(existing: map<string, set<string>>, om: map<string, set<string>>): map<string, set<string>> {
    if om == map[] then existing else existing + om
  }

  method MergePurposes(existing: map<string, set<string>>, om: map<string, set<string>>)
    returns (merged: map<string, set<string>>)
    ensures merged == Merge(existing, om)
  {
    merged := existing;
    var todo := om.Keys;
    while todo != {}
      invariant todo <= om.Keys
      invariant merged == existing + map g | g in om && g !in todo :: om[g]
      decreases todo
    {
      var glob := AnyOf(todo);
      merged := merged[glob := om[glob]];
      todo := todo - {glob};
    }
  }

  /** What OM covers wins, the rest keeps its value, and merging twice is merging once. */
  lemma MergeCoversAndKeeps(existing: map<string, set<string>>, om: map<string, set<string>>, glob: string)
    ensures var merged := Merge(existing, om);
      && (glob in om ==> glob in merged && merged[glob] == om[glob])
      && (glob !in om ==> (glob in merged <==> glob in existing))
      && (glob !in om && glob in existing ==> merged[glob] == existing[glob])
      && Merge(merged, om) == merged
  {
    assert existing + om + om == existing + om;
  }
}
