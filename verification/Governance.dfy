/** The governance chain end to end: dbt metadata is put on OpenMetadata tables by one
    program, and a second one turns the tags into the purposes OPA checks. */
module Governance {
  import opened Common
  import opened Text
  import opened Enrich
  import opened Patches
  import opened OpaSync
  import GrantParser

  /** The tables of one service by fully qualified name. */
  type Store = map<string, Table>

  ghost predicate WellKept(store: Store) {
    forall f :: f in store ==> store[f].fqn == f
  }

  // ----- the enrichment run -----

  predicate Complete(node: Node) {
    node.isModel && node.database != "" && node.schema != "" && node.name != ""
  }

  // The enricher does not quote.
  function NodeFqn(service: string, node: Node): string {
    service + "." + node.database + "." + node.schema + "." + node.name
  }

  function EnrichOne(store: Store, service: string, node: Node, m: Mapping, d: Directory): Store {
    var fqn := NodeFqn(service, node);
    if !Complete(node) || fqn !in store then store
    else
      match ApplyAll(store[fqn], BuildOps(store[fqn], node, m, d))
      case None => store
      case Some(patched) => store[fqn := patched]
  }

  function EnrichAll(store: Store, service: string, nodes: seq<Node>, m: Mapping, d: Directory): Store
    decreases |nodes|
  {
    if nodes == [] then store else EnrichAll(EnrichOne(store, service, nodes[0], m, d), service, nodes[1..], m, d)
  }

  method EnrichAllLoop(store: Store, service: string, nodes: seq<Node>, m: Mapping, d: Directory) returns (r: Store)
    ensures r == EnrichAll(store, service, nodes, m, d)
  {
    r := store;
    var k := 0;
    while k < |nodes|
      invariant 0 <= k <= |nodes|
      invariant EnrichAll(r, service, nodes[k..], m, d) == EnrichAll(store, service, nodes, m, d)
    {
      assert nodes[k..][1..] == nodes[k + 1..];
      r := EnrichOne(r, service, nodes[k], m, d);
      k := k + 1;
    }
  }

  // Tables may only gain tag FQNs.
  ghost predicate Gains(a: Store, b: Store) {
    && a.Keys == b.Keys && WellKept(b)
    && forall f :: f in a ==> Fqns(Items(a[f].tags)) <= Fqns(Items(b[f].tags))
  }

  lemma OneTable(store: Store, service: string, node: Node, m: Mapping, d: Directory, fqn: string)
    requires fqn in store
    ensures var after := EnrichOne(store, service, node, m, d);
      && after.Keys == store.Keys
      && after[fqn] == if Complete(node) && NodeFqn(service, node) == fqn then Enriched(store[fqn], node, m, d)
                       else store[fqn]
  {
    if Complete(node) && NodeFqn(service, node) in store {
      PatchEnriches(store[NodeFqn(service, node)], node, m, d);
    }
  }

  lemma TableGains(t: Table, node: Node, m: Mapping, d: Directory)
    ensures var e := Enriched(t, node, m, d);
      && e.fqn == t.fqn && Fqns(Items(t.tags)) <= Fqns(Items(e.tags))
      && Wanted(WantedTags(node, m)) <= Fqns(Items(e.tags))
  {
    EnrichKeepsTags(t, node, m, d);
  }

  lemma EnrichOneGains(store: Store, service: string, node: Node, m: Mapping, d: Directory)
    requires WellKept(store)
    ensures var after := EnrichOne(store, service, node, m, d);
      && Gains(store, after)
      && (Complete(node) && NodeFqn(service, node) in store ==>
            Wanted(WantedTags(node, m)) <= Fqns(Items(after[NodeFqn(service, node)].tags)))
  {
    var after := EnrichOne(store, service, node, m, d);
    forall f | f in store
      ensures f in after && after[f].fqn == f && Fqns(Items(store[f].tags)) <= Fqns(Items(after[f].tags))
    {
      OneTable(store, service, node, m, d, f);
      TableGains(store[f], node, m, d);
    }
    if Complete(node) && NodeFqn(service, node) in store {
      OneTable(store, service, node, m, d, NodeFqn(service, node));
      TableGains(store[NodeFqn(service, node)], node, m, d);
    }
    assert after.Keys == store.Keys;
  }

  lemma {:induction false} EnrichAllGains(store: Store, service: string, nodes: seq<Node>, m: Mapping, d: Directory)
    requires WellKept(store)
    ensures Gains(store, EnrichAll(store, service, nodes, m, d))
    decreases |nodes|
  {
    if nodes != [] {
      EnrichOneGains(store, service, nodes[0], m, d);
      EnrichAllGains(EnrichOne(store, service, nodes[0], m, d), service, nodes[1..], m, d);
    }
  }

  /** After the run every model whose table exists finds all its tags on it, whatever the
      models before and after it did. */
  lemma {:induction false} EveryModelIsTagged(store: Store, service: string, nodes: seq<Node>, m: Mapping,
                                              d: Directory, node: Node)
    requires WellKept(store) && node in nodes && Complete(node) && NodeFqn(service, node) in store
    ensures var after := EnrichAll(store, service, nodes, m, d);
      && NodeFqn(service, node) in after
      && Wanted(WantedTags(node, m)) <= Fqns(Items(after[NodeFqn(service, node)].tags))
    decreases |nodes|
  {
    var next := EnrichOne(store, service, nodes[0], m, d);
    EnrichOneGains(store, service, nodes[0], m, d);
    if nodes[0] == node {
      EnrichAllGains(next, service, nodes[1..], m, d);
    } else {
      EveryModelIsTagged(next, service, nodes[1..], m, d, node);
    }
  }

  // ----- end to end -----

  predicate Plain(s: string) {
    '.' !in s && '"' !in s
  }

  function SchemaGlob(node: Node): string {
    node.database + "." + node.schema + ".*"
  }

  // The names of a model whose unquoted FQN names its own schema.
  predicate NamesItsSchema(node: Node) {
    Plain(node.database) && Plain(node.schema) && exists c :: c in node.name && c != '"'
  }

  function SchemaName(node: Node): string {
    node.database + "." + node.schema
  }

  lemma NodeScan(service: string, node: Node)
    requires Plain(service)
    ensures Segments(NodeFqn(service, node)) == Scan(SchemaName(node) + ("." + node.name), "", false, [service])
  {
    var tail := SchemaName(node) + ("." + node.name);
    assert NodeFqn(service, node) == service + ("." + tail);
    ScanPlain(service, "." + tail, "", false, []);
    assert "" + service == service && [] + [service] == [service];
    assert ("." + tail)[1..] == tail;
  }

  lemma SplitSchemaName(node: Node)
    ensures Split(SchemaName(node), '.') == Split(node.database, '.') + Split(node.schema, '.')
  {
    SplitConcat(node.database, node.schema, '.');
    assert node.database + ['.'] + node.schema == SchemaName(node);
  }

  // What the segments are when the schema's name has no quotes.
  lemma NodeSegments(service: string, node: Node)
    requires Plain(service) && '"' !in SchemaName(node)
    ensures var parts := Segments(NodeFqn(service, node)); var names := Split(SchemaName(node), '.');
      && [service] + names <= parts
      && (|parts| > 1 + |names| <==> exists c :: c in node.name && c != '"')
  {
    var names := Split(SchemaName(node), '.');
    NodeScan(service, node);
    ScanUnquoted(SchemaName(node), node.name, "", [service]);
    assert "" + names[0] == names[0] && [names[0]] + names[1..] == names;
    NoQuotes(SchemaName(node));
    ScanAdds(node.name, "", false, [service] + names);
  }

  lemma {:induction false} NoQuotes(s: string)
    requires '"' !in s
    ensures forall p :: p in Split(s, '.') ==> '"' !in p
  {
    if s != "" {
      NoQuotes(s[1..]);
    }
  }

  lemma GlobIsTheSchemas(service: string, node: Node)
    requires Plain(service) && GlobFromFqn(NodeFqn(service, node)) == Some(SchemaGlob(node))
    ensures NamesItsSchema(node)
  {
    var parts := Segments(NodeFqn(service, node));
    var name := SchemaName(node);
    assert SchemaGlob(node) == name + ".*";
    SameGlob(parts[1] + "." + parts[2], name);
    ScanAdds(NodeFqn(service, node), "", false, []);
    assert parts[1] in parts && parts[2] in parts && '"' !in name;
    NodeSegments(service, node);
    SplitSchemaName(node);
    var names := Split(name, '.');
    assert parts[1] == names[0] && parts[2] == names[1];
    SplitIsFree(name, '.');
    assert names[0] in names && names[1] in names;
    SplitJoin([names[0], names[1]], '.');
    assert Join([names[0], names[1]], '.') == name by {
      assert [names[0], names[1]][1..] == [names[1]];
    }
    assert |Split(node.database, '.')| == 1 && |Split(node.schema, '.')| == 1;
    OnePart(node.database);
    OnePart(node.schema);
    assert forall c :: c in node.database || c in node.schema ==> c in name;
  }

  /** The FQN the enricher writes for a model is scanned to the model's own schema exactly when
      database and schema hold neither a dot nor a quote, and the name is more than quotes. */
  lemma NodeGlob(service: string, node: Node)
    requires Plain(service)
    ensures GlobFromFqn(NodeFqn(service, node)) == Some(SchemaGlob(node)) <==> NamesItsSchema(node)
  {
    if NamesItsSchema(node) {
      assert forall c :: c in SchemaName(node) ==> c in node.database || c in node.schema || c == '.';
      NodeSegments(service, node);
      SplitSchemaName(node);
      PlainPart(node.database);
      PlainPart(node.schema);
      var parts := Segments(NodeFqn(service, node));
      assert parts[1] == node.database && parts[2] == node.schema;
    } else if GlobFromFqn(NodeFqn(service, node)) == Some(SchemaGlob(node)) {
      GlobIsTheSchemas(service, node);
    }
  }

  lemma PlainIsFound(service: string, node: Node)
    requires '.' !in service && '.' !in node.database && '.' !in node.schema && '.' !in node.name
    ensures NodeFqn(service, node) == PrintFqn([service, node.database, node.schema, node.name])
  {
    PrintFour(service, node.database, node.schema, node.name);
    assert NodeFqn(service, node) == service + "." + (node.database + "." + (node.schema + "." + node.name));
  }

  lemma FoundIsPlain(store: Store, service: string, node: Node)
    requires forall f :: f in store ==> exists a, b, c, d :: Quotable(a, b, c, d) && f == PrintFqn([a, b, c, d])
    requires Quotable(service, node.database, node.schema, node.name) && NodeFqn(service, node) in store
    ensures '.' !in service && '.' !in node.database && '.' !in node.schema && '.' !in node.name
  {
    var fqn := NodeFqn(service, node);
    var a, b, c, d :| Quotable(a, b, c, d) && fqn == PrintFqn([a, b, c, d]);
    assert '"' !in fqn;
    PrintFour(a, b, c, d);
    UnquotedIsPlain(a, b, c, d);
    FourParts(a, b, c, d);
    PartCount(service, node);
    OnePart(service);
    OnePart(node.database);
    OnePart(node.schema);
    OnePart(node.name);
  }

  /** OpenMetadata quotes names with dots and the enricher does not. So a model whose table is
      there is found exactly when none of its names holds a dot, and passed over otherwise. */
  lemma DottedModelsAreMissed(store: Store, service: string, node: Node)
    requires forall f :: f in store ==> exists a, b, c, d :: Quotable(a, b, c, d) && f == PrintFqn([a, b, c, d])
    requires Quotable(service, node.database, node.schema, node.name)
    requires PrintFqn([service, node.database, node.schema, node.name]) in store
    ensures NodeFqn(service, node) in store
      <==> ('.' !in service && '.' !in node.database && '.' !in node.schema && '.' !in node.name)
  {
    if NodeFqn(service, node) in store {
      FoundIsPlain(store, service, node);
    }
    if '.' !in service && '.' !in node.database && '.' !in node.schema && '.' !in node.name {
      PlainIsFound(service, node);
    }
  }

  predicate Quotable(a: string, b: string, c: string, d: string) {
    '"' !in a && '"' !in b && '"' !in c && '"' !in d
  }

  lemma UnquotedIsPlain(a: string, b: string, c: string, d: string)
    requires '"' !in Quoted(a) + "." + (Quoted(b) + "." + (Quoted(c) + "." + Quoted(d)))
    ensures '.' !in a && '.' !in b && '.' !in c && '.' !in d
  {
    assert forall x: string :: '.' in x ==> Quoted(x)[0] == '"';
  }

  lemma FourParts(a: string, b: string, c: string, d: string)
    requires '.' !in a && '.' !in b && '.' !in c && '.' !in d
    ensures |Split(PrintFqn([a, b, c, d]), '.')| == 4
  {
    PlainFqn([a, b, c, d]);
    SplitJoin([a, b, c, d], '.');
  }

  lemma PartCount(service: string, node: Node)
    ensures |Split(NodeFqn(service, node), '.')| ==
      |Split(service, '.')| + |Split(node.database, '.')| + |Split(node.schema, '.')| + |Split(node.name, '.')|
  {
    var x := service + "." + node.database;
    SplitConcat(service, node.database, '.');
    SplitConcat(x, node.schema, '.');
    SplitConcat(x + "." + node.schema, node.name, '.');
    assert service + ['.'] + node.database == x && x + ['.'] + node.schema == x + "." + node.schema;
    assert x + "." + node.schema + ['.'] + node.name == NodeFqn(service, node);
  }

  // `v` is a doelbinding of a model that has a table, mapped to a Doelbinding tag.
  predicate Mapped(store: Store, service: string, nodes: seq<Node>, m: Mapping, node: Node, v: string) {
    && node in nodes && Complete(node) && NodeFqn(service, node) in store
    && v in node.meta.doelbinding && StartsWith(Get(m.doelbinding, Lower(v)), PREFIX)
  }

  function PurposeOf(m: Mapping, v: string): string
    requires StartsWith(Get(m.doelbinding, Lower(v)), PREFIX)
  {
    Lower(Get(m.doelbinding, Lower(v))[|PREFIX|..])
  }

  // The listing shows exactly the tables of the store, in any order and with any repetition.
  ghost predicate Lists(listing: seq<Table>, store: Store) {
    forall t :: t in listing <==> t.fqn in store && store[t.fqn] == t
  }

  /** From dbt to OPA: enrich by all nodes, list the tables in any order and with any
      repetition, aggregate, merge. Then each mapped doelbinding of each model with a table
      allows its purpose on the schema its FQN is scanned to, which is the model's own exactly
      as `NodeGlob` says; a covered glob allows exactly the purposes tagged on the tables
      scanned to it, which are those of one schema exactly as `OpaSync.GlobOwnsItsSchemaIff`
      says; and what OpenMetadata does not cover is as it was. */
  lemma MetadataReachesOpa(store: Store, service: string, nodes: seq<Node>, m: Mapping, d: Directory,
                           listing: seq<Table>, om: map<string, set<string>>, existing: map<string, set<string>>)
    requires WellKept(store)
    requires Lists(listing, EnrichAll(store, service, nodes, m, d)) && Aggregates(om, listing)
    ensures var merged := Merge(existing, om);
      && (forall node, v :: Mapped(store, service, nodes, m, node, v) && GlobFromFqn(NodeFqn(service, node)).Some? ==>
            var glob := GlobFromFqn(NodeFqn(service, node)).value;
            glob in merged && PurposeOf(m, v) in merged[glob])
      && (forall node, v :: Mapped(store, service, nodes, m, node, v) && Plain(service) && NamesItsSchema(node) ==>
            SchemaGlob(node) in merged && PurposeOf(m, v) in merged[SchemaGlob(node)])
      && (forall g :: Under(listing, g) != {} ==> g in merged && merged[g] == Under(listing, g))
      && (forall g :: Under(listing, g) == {} ==>
           (g in merged <==> g in existing) && (g in existing ==> merged[g] == existing[g]))
  {
    var merged := Merge(existing, om);
    forall node, v | Mapped(store, service, nodes, m, node, v) && GlobFromFqn(NodeFqn(service, node)).Some?
      ensures var glob := GlobFromFqn(NodeFqn(service, node)).value; glob in merged && PurposeOf(m, v) in merged[glob]
    {
      DoelbindingReachesAggregate(store, service, nodes, m, d, listing, node, v);
      MergeCoversAndKeeps(existing, om, GlobFromFqn(NodeFqn(service, node)).value);
    }
    forall node, v | Mapped(store, service, nodes, m, node, v) && Plain(service) && NamesItsSchema(node)
      ensures SchemaGlob(node) in merged && PurposeOf(m, v) in merged[SchemaGlob(node)]
    {
      NodeGlob(service, node);
    }
    forall g ensures Under(listing, g) != {} ==> g in merged && merged[g] == Under(listing, g)
             ensures Under(listing, g) == {} ==>
               (g in merged <==> g in existing) && (g in existing ==> merged[g] == existing[g])
    {
      MergeCoversAndKeeps(existing, om, g);
    }
  }

  lemma DoelbindingReachesAggregate(store: Store, service: string, nodes: seq<Node>, m: Mapping, d: Directory,
                                    listing: seq<Table>, node: Node, v: string)
    requires WellKept(store) && Lists(listing, EnrichAll(store, service, nodes, m, d))
    requires Mapped(store, service, nodes, m, node, v) && GlobFromFqn(NodeFqn(service, node)).Some?
    ensures PurposeOf(m, v) in Under(listing, GlobFromFqn(NodeFqn(service, node)).value)
  {
    var after, fqn, tag := EnrichAll(store, service, nodes, m, d), NodeFqn(service, node), Get(m.doelbinding, Lower(v));
    EnrichAllGains(store, service, nodes, m, d);
    EveryModelIsTagged(store, service, nodes, m, d, node);
    DoelbindingIsWanted(node, m, v);
    var table := after[fqn];
    assert table in listing && tag in Fqns(Items(table.tags));
    FqnsAreMembers(Items(table.tags));
    var t :| t in Items(table.tags) && t.fqn == tag;
    assert Lower(tag[|PREFIX|..]) in Purposes(Items(table.tags));
  }

  // ----- the same schema in the access bridge -----

  lemma SplitSegment(a: string, rest: string)
    requires '.' !in a
    ensures Split(a + "." + rest, '.') == [a] + Split(rest, '.')
  {
    SplitHead(a, "." + rest, '.');
    assert ("." + rest)[1..] == rest;
    assert a + "." + rest == a + ("." + rest);
    assert a + "" == a && ([""] + Split(rest, '.'))[1..] == Split(rest, '.');
  }

  lemma SplitQuoted(a: string, rest: string)
    ensures var parts := Split("\"" + a + rest, '.'); parts[0] != "" && parts[0][0] == '"'
  {
    SplitHead("\"", a + rest, '.');
    assert "\"" + a + rest == "\"" + (a + rest);
  }

  lemma PrintFour(a: string, b: string, c: string, d: string)
    ensures PrintFqn([a, b, c, d]) == Quoted(a) + "." + (Quoted(b) + "." + (Quoted(c) + "." + Quoted(d)))
  {
    var segments := [a, b, c, d];
    assert segments[1..] == [b, c, d] && [b, c, d][1..] == [c, d] && [c, d][1..] == [d];
    assert PrintFqn([d]) == Quoted(d) && PrintFqn([c, d]) == Quoted(c) + "." + Quoted(d);
    assert PrintFqn([b, c, d]) == Quoted(b) + "." + PrintFqn([c, d]);
  }

  // The role of a table name whose first segment is a supported service.
  lemma RoleOfParts(service: string, rest: string)
    requires service in GrantParser.SUPPORTED
    ensures var parts := Split(rest, '.');
      GrantParser.RoleOf(service + "." + rest) ==
        if |parts| < 2 then None else Some("data_access:" + parts[0] + "." + parts[1])
  {
    GrantParser.SupportedName(service);
    GrantParser.NotWrapped(service + "." + rest);
    SplitSegment(service, rest);
  }

  lemma DottedCatalog(catalog: string, rest: string)
    requires '.' in catalog
    ensures var parts := Split(Quoted(catalog) + rest, '.'); parts[0] != "" && parts[0][0] == '"'
  {
    SplitQuoted(catalog, "\"" + rest);
    assert Quoted(catalog) + rest == "\"" + catalog + ("\"" + rest);
  }

  lemma DottedSchema(catalog: string, schema: string, rest: string)
    requires '.' !in catalog && '.' in schema
    ensures var parts := Split(catalog + "." + (Quoted(schema) + rest), '.');
      |parts| >= 2 && parts[0] == catalog && parts[1] != "" && parts[1][0] == '"'
  {
    DottedCatalog(schema, rest);
    SplitSegment(catalog, Quoted(schema) + rest);
  }

  lemma PlainCatalogAndSchema(catalog: string, schema: string, rest: string)
    requires '.' !in catalog && '.' !in schema
    ensures var parts := Split(catalog + "." + (schema + "." + rest), '.');
      |parts| >= 2 && parts[0] == catalog && parts[1] == schema
  {
    SplitSegment(schema, rest);
    SplitSegment(catalog, schema + "." + rest);
  }

  // Two roles with the parts `a`, `b` and `c`, `d`, of which the first pair starts with a quote.
  lemma QuotedRoleDiffers(a: string, b: string, c: string, d: string)
    requires '"' !in c && '"' !in d && ((a != "" && a[0] == '"') || (a == c && b != "" && b[0] == '"'))
    ensures "data_access:" + a + "." + b != "data_access:" + c + "." + d
  {
    var role, role' := "data_access:" + a + "." + b, "data_access:" + c + "." + d;
    assert '"' !in "data_access:" && '"' !in ".";
    assert '"' !in role';
    if a != "" && a[0] == '"' {
      assert role[12] == '"';
    } else {
      assert role[13 + |a|] == '"';
    }
  }

  // The role of `c` and `d` comes from a rest of a name exactly when it splits into them first.
  lemma RoleIff(service: string, rest: string, catalog: string, schema: string)
    requires service in GrantParser.SUPPORTED && '"' !in catalog && '"' !in schema
    requires var parts := Split(rest, '.');
      |parts| < 2 || (parts[0] == catalog && parts[1] == schema)
      || (parts[0] != "" && parts[0][0] == '"') || (parts[0] == catalog && parts[1] != "" && parts[1][0] == '"')
    ensures var parts := Split(rest, '.');
      (GrantParser.RoleOf(service + "." + rest) == Some("data_access:" + catalog + "." + schema))
      <==> (|parts| >= 2 && parts[0] == catalog && parts[1] == schema)
  {
    RoleOfParts(service, rest);
    var parts := Split(rest, '.');
    if |parts| >= 2 && !(parts[0] == catalog && parts[1] == schema) {
      QuotedRoleDiffers(parts[0], parts[1], catalog, schema);
    }
  }

  // The printed name after the service.
  function AfterService(catalog: string, schema: string, table: string): string {
    Quoted(catalog) + ("." + (Quoted(schema) + ("." + Quoted(table))))
  }

  lemma PrintAfterService(service: string, catalog: string, schema: string, table: string)
    requires service in GrantParser.SUPPORTED
    ensures PrintFqn([service, catalog, schema, table]) == service + "." + AfterService(catalog, schema, table)
  {
    PrintFour(service, catalog, schema, table);
    GrantParser.SupportedName(service);
    assert Quoted(schema) + "." + Quoted(table) == Quoted(schema) + ("." + Quoted(table));
    assert Quoted(catalog) + "." + (Quoted(schema) + ("." + Quoted(table))) == AfterService(catalog, schema, table);
  }

  lemma PartsAfterService(catalog: string, schema: string, table: string)
    ensures var parts := Split(AfterService(catalog, schema, table), '.');
      if '.' in catalog then parts[0] != "" && parts[0][0] == '"'
      else |parts| >= 2 && parts[0] == catalog &&
           if '.' in schema then parts[1] != "" && parts[1][0] == '"' else parts[1] == schema
  {
    var tail := "." + Quoted(table);
    if '.' in catalog {
      DottedCatalog(catalog, "." + (Quoted(schema) + tail));
    } else {
      assert AfterService(catalog, schema, table) == catalog + "." + (Quoted(schema) + tail);
      if '.' in schema {
        DottedSchema(catalog, schema, tail);
      } else {
        assert schema + tail == schema + "." + Quoted(table);
        PlainCatalogAndSchema(catalog, schema, Quoted(table));
      }
    }
  }

  /** The bridge splits table names at every dot, quoted or not, so it grants the role of
      the table's own catalog and schema exactly when neither name holds a dot, which is
      when role and OPA glob name the same schema. */
  lemma RoleNamesTheSchemaIff(service: string, catalog: string, schema: string, table: string)
    requires service in GrantParser.SUPPORTED && '"' !in catalog && '"' !in schema
    ensures (GrantParser.RoleOf(PrintFqn([service, catalog, schema, table]))
      == Some("data_access:" + catalog + "." + schema))
      <==> ('.' !in catalog && '.' !in schema)
  {
    PrintAfterService(service, catalog, schema, table);
    PartsAfterService(catalog, schema, table);
    RoleIff(service, AfterService(catalog, schema, table), catalog, schema);
  }
}
