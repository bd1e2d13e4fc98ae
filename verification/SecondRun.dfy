/** The enrichment run repeated: for any list of models, those that share a table included,
    a second run leaves every table as the first one left it. */
module SecondRun {
  import opened Text
  import opened Enrich
  import opened Patches
  import opened Governance

  // ----- one table, enriched by several nodes in turn -----

  function EnrichedBy(t: Table, nodes: seq<Node>, m: Mapping, d: Directory): Table
    decreases |nodes|
  {
    if nodes == [] then t else EnrichedBy(Enriched(t, nodes[0], m, d), nodes[1..], m, d)
  }

  type Extension = Member<map<string, Value>>

  function Extend(old': Extension, added: map<string, Value>): Extension {
    if added == map[] then old' else Has(Entries(old') + added)
  }

  // Everything the node asks for is there, but for the extension, which other nodes overwrite.
  predicate Settled(t: Table, node: Node, m: Mapping, d: Directory) {
    Enriched(t, node, m, d) == t.(extension := Extend(t.extension, BuildExtension(node.meta)))
  }

  lemma SettledTags(tags: seq<Tag>, wanted: seq<(string, string)>, others: seq<(string, string)>)
    requires UnionTags(tags, wanted) == tags
    ensures var after := UnionTags(tags, others); UnionTags(after, wanted) == after
  {
    UnionTagsUnites(tags, wanted);
    UnionTagsUnites(tags, others);
    var after := UnionTags(tags, others);
    ByFqnFqns(after);
    AddMissingFqns(after, wanted);
  }

  lemma SettledDomains(t: Table, node: Node, other: Node, m: Mapping, d: Directory)
    requires Extended(t.domains, NewDomains(t, node, m, d)) == t.domains
    ensures NewDomains(Enriched(t, other, m, d), node, m, d) == []
  {
    var before, after := Items(t.domains), Items(Enriched(t, other, m, d).domains);
    assert NewDomains(t, node, m, d) == [];
    assert after == before + NewDomains(t, other, m, d);
    assert forall r :: r in before ==> r in after;
  }

  lemma SettledProducts(t: Table, node: Node, other: Node, m: Mapping, d: Directory)
    requires Extended(t.products, NewProducts(t, node, m, d)) == t.products
    ensures NewProducts(Enriched(t, other, m, d), node, m, d) == []
  {
    var before, after := Items(t.products), Items(Enriched(t, other, m, d).products);
    var wanted := ResolveProducts(m.products, node.configTags, d);
    assert NewProducts(t, node, m, d) == [];
    assert after == before + NewProducts(t, other, m, d);
    MissingRefs(wanted, Names(before));
    assert forall r :: r in before ==> r in after;
    forall r | r in wanted ensures r.name in Names(after) {
      assert r !in Missing(wanted, Names(before));
      var q :| q in before && q.name == r.name;
    }
    NothingMissing(wanted, Names(after));
  }

  lemma SettledColumn(columns: seq<Column>, names: seq<string>, others: seq<string>, m: Mapping, i: nat)
    requires i < |columns| && EnrichedColumn(columns, i, names, m) == columns[i]
    ensures var after := EnrichedColumns(columns, others, m); EnrichedColumn(after, i, names, m) == after[i]
  {
    var after := EnrichedColumns(columns, others, m);
    SameNamesSameIndex(after, columns, Lower(columns[i].name));
    if after[i] != columns[i] {
      FqnsConcat(Items(columns[i].tags), [Label(Get(m.pii, Lower(columns[i].name)), "Classification")]);
    }
  }

  lemma SettledColumns(columns: seq<Column>, names: seq<string>, others: seq<string>, m: Mapping)
    requires EnrichedColumns(columns, names, m) == columns
    ensures var after := EnrichedColumns(columns, others, m); EnrichedColumns(after, names, m) == after
  {
    forall i | 0 <= i < |columns|
      ensures var after := EnrichedColumns(columns, others, m); EnrichedColumn(after, i, names, m) == after[i]
    {
      assert EnrichedColumns(columns, names, m)[i] == columns[i];
      SettledColumn(columns, names, others, m, i);
    }
  }

  lemma SettledTableTags(t: Table, node: Node, other: Node, m: Mapping, d: Directory)
    requires Settled(t, node, m, d)
    ensures var e := Enriched(t, other, m, d); Enriched(e, node, m, d).tags == e.tags
  {
    var wanted := WantedTags(node, m);
    assert UnionTags(Items(t.tags), wanted) == Items(t.tags);
    SettledTags(Items(t.tags), wanted, WantedTags(other, m));
  }

  lemma SettledOwners(t: Table, node: Node, other: Node, m: Mapping, d: Directory)
    requires Settled(t, node, m, d)
    ensures var e := Enriched(t, other, m, d); Enriched(e, node, m, d).owners == e.owners
  {
    assert Items(t.owners) != [] || ResolveOwner(node, m, d).None?;
  }

  lemma SettledReferences(t: Table, node: Node, other: Node, m: Mapping, d: Directory)
    requires Settled(t, node, m, d)
    ensures var e := Enriched(t, other, m, d); var f := Enriched(e, node, m, d);
      f.domains == e.domains && f.products == e.products
  {
    SettledDomains(t, node, other, m, d);
    SettledProducts(t, node, other, m, d);
  }

  lemma SettledTableColumns(t: Table, node: Node, other: Node, m: Mapping, d: Directory)
    requires Settled(t, node, m, d)
    ensures var e := Enriched(t, other, m, d); Enriched(e, node, m, d).columns == e.columns
  {
    if t.columns.Has? {
      SettledColumns(t.columns.value, node.meta.piiColumns, other.meta.piiColumns, m);
    }
  }

  // What one node asked for stays there whatever another one does.
  lemma SettledStays(t: Table, node: Node, other: Node, m: Mapping, d: Directory)
    requires Settled(t, node, m, d)
    ensures Settled(Enriched(t, other, m, d), node, m, d)
  {
    SettledTableTags(t, node, other, m, d);
    SettledOwners(t, node, other, m, d);
    SettledReferences(t, node, other, m, d);
    SettledTableColumns(t, node, other, m, d);
  }

  lemma {:induction false} SettledStaysBy(t: Table, node: Node, nodes: seq<Node>, m: Mapping, d: Directory)
    requires Settled(t, node, m, d)
    ensures Settled(EnrichedBy(t, nodes, m, d), node, m, d)
    decreases |nodes|
  {
    if nodes != [] {
      SettledStays(t, node, nodes[0], m, d);
      SettledStaysBy(Enriched(t, nodes[0], m, d), node, nodes[1..], m, d);
    }
  }

  predicate AllSettled(t: Table, nodes: seq<Node>, m: Mapping, d: Directory) {
    nodes == [] || (Settled(t, nodes[0], m, d) && AllSettled(t, nodes[1..], m, d))
  }

  lemma {:induction false} AllStay(t: Table, nodes: seq<Node>, others: seq<Node>, m: Mapping, d: Directory)
    requires AllSettled(t, nodes, m, d)
    ensures AllSettled(EnrichedBy(t, others, m, d), nodes, m, d)
  {
    if nodes != [] {
      SettledStaysBy(t, nodes[0], others, m, d);
      AllStay(t, nodes[1..], others, m, d);
    }
  }

  lemma ByOne(t: Table, node: Node, m: Mapping, d: Directory)
    ensures EnrichedBy(t, [node], m, d) == Enriched(t, node, m, d)
  {
    assert [node][1..] == [];
  }

  lemma {:induction false} AllSettle(t: Table, nodes: seq<Node>, m: Mapping, d: Directory)
    ensures AllSettled(EnrichedBy(t, nodes, m, d), nodes, m, d)
    decreases |nodes|
  {
    if nodes != [] {
      EnrichedTwice(t, nodes[0], m, d);
      SettledStaysBy(Enriched(t, nodes[0], m, d), nodes[0], nodes[1..], m, d);
      AllSettle(Enriched(t, nodes[0], m, d), nodes[1..], m, d);
    }
  }

  // ----- the extension -----

  function AllEntries(nodes: seq<Node>): map<string, Value> {
    if nodes == [] then map[] else BuildExtension(nodes[0].meta) + AllEntries(nodes[1..])
  }

  lemma ExtendTwice(x: Extension, a: map<string, Value>, b: map<string, Value>)
    ensures Extend(Extend(x, a), b) == Extend(x, a + b)
  {
    assert a == map[] ==> a + b == b;
    assert b == map[] ==> a + b == a;
    assert a + b == map[] ==> (a + b).Keys == {} && a.Keys == {} && b.Keys == {};
    assert Entries(x) + a + b == Entries(x) + (a + b);
  }

  lemma {:induction false} ExtensionBy(t: Table, nodes: seq<Node>, m: Mapping, d: Directory)
    ensures EnrichedBy(t, nodes, m, d).extension == Extend(t.extension, AllEntries(nodes))
    decreases |nodes|
  {
    if nodes != [] {
      ExtensionBy(Enriched(t, nodes[0], m, d), nodes[1..], m, d);
      ExtendTwice(t.extension, BuildExtension(nodes[0].meta), AllEntries(nodes[1..]));
    }
  }

  // A table on which all nodes are settled only has its extension written again.
  lemma {:induction false} OnlyExtends(t: Table, nodes: seq<Node>, m: Mapping, d: Directory)
    requires AllSettled(t, nodes, m, d)
    ensures EnrichedBy(t, nodes, m, d) == t.(extension := Extend(t.extension, AllEntries(nodes)))
    decreases |nodes|
  {
    if nodes != [] {
      ByOne(t, nodes[0], m, d);
      AllStay(t, nodes[1..], [nodes[0]], m, d);
      OnlyExtends(Enriched(t, nodes[0], m, d), nodes[1..], m, d);
      ExtendTwice(t.extension, BuildExtension(nodes[0].meta), AllEntries(nodes[1..]));
    }
  }

  /** One table: whatever the nodes in between overwrote, the second round ends where the
      first one did. */
  lemma TableSettles(t: Table, nodes: seq<Node>, m: Mapping, d: Directory)
    ensures var once := EnrichedBy(t, nodes, m, d); EnrichedBy(once, nodes, m, d) == once
  {
    var once, all := EnrichedBy(t, nodes, m, d), AllEntries(nodes);
    ExtensionBy(t, nodes, m, d);
    ExtendTwice(t.extension, all, all);
    assert all + all == all;
    assert Extend(once.extension, all) == once.extension;
    AllSettle(t, nodes, m, d);
    OnlyExtends(once, nodes, m, d);
  }

  // ----- the store -----

  // The nodes that reach one table.
  function NodesOf(fqn: string, service: string, nodes: seq<Node>): seq<Node> {
    if nodes == [] then []
    else (if Complete(nodes[0]) && NodeFqn(service, nodes[0]) == fqn then [nodes[0]] else [])
         + NodesOf(fqn, service, nodes[1..])
  }

  lemma ByFirst(t: Table, node: Node, rest: seq<Node>, m: Mapping, d: Directory)
    ensures EnrichedBy(t, [node] + rest, m, d) == EnrichedBy(Enriched(t, node, m, d), rest, m, d)
    ensures [] + rest == rest
  {
    assert ([node] + rest)[1..] == rest;
  }

  /** The run enriches every table by the models that name it, in their order, and by no other. */
  lemma {:induction false} RunByTable(store: Store, service: string, nodes: seq<Node>, m: Mapping, d: Directory,
                                      fqn: string)
    requires fqn in store
    ensures var after := EnrichAll(store, service, nodes, m, d);
      after.Keys == store.Keys && after[fqn] == EnrichedBy(store[fqn], NodesOf(fqn, service, nodes), m, d)
    decreases |nodes|
  {
    if nodes != [] {
      OneTable(store, service, nodes[0], m, d, fqn);
      RunByTable(EnrichOne(store, service, nodes[0], m, d), service, nodes[1..], m, d, fqn);
      ByFirst(store[fqn], nodes[0], NodesOf(fqn, service, nodes[1..]), m, d);
    }
  }

  lemma {:induction false} NoTables(service: string, nodes: seq<Node>, m: Mapping, d: Directory)
    ensures EnrichAll(map[], service, nodes, m, d) == map[]
    decreases |nodes|
  {
    if nodes != [] {
      NoTables(service, nodes[1..], m, d);
    }
  }

  /** A second run over the same models changes nothing, in any store. */
  lemma SecondRunChangesNothing(store: Store, service: string, nodes: seq<Node>, m: Mapping, d: Directory)
    ensures var once := EnrichAll(store, service, nodes, m, d); EnrichAll(once, service, nodes, m, d) == once
  {
    var once := EnrichAll(store, service, nodes, m, d);
    var twice := EnrichAll(once, service, nodes, m, d);
    if store == map[] {
      NoTables(service, nodes, m, d);
    } else {
      var some :| some in store;
      RunByTable(store, service, nodes, m, d, some);
      RunByTable(once, service, nodes, m, d, some);
      forall fqn | fqn in store ensures twice[fqn] == once[fqn] {
        RunByTable(store, service, nodes, m, d, fqn);
        RunByTable(once, service, nodes, m, d, fqn);
        TableSettles(store[fqn], NodesOf(fqn, service, nodes), m, d);
      }
    }
  }
}
