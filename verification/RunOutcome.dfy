/** What a run over all models leaves behind: the tags of every table, and through the sync the
    purposes OPA allows, each with the models it comes from. */
module RunOutcome {
  import opened Common
  import opened Text
  import opened Enrich
  import opened Patches
  import opened OpaSync
  import opened Governance
  import opened Annotations
  import opened SecondRun

  // ----- the tags of a table after the run -----

  // The entry of the manifest is a model with all names, and these name the table.
  predicate Reaches(node: Node, service: string, fqn: string) {
    && node.isModel && node.database != "" && node.schema != "" && node.name != ""
    && fqn == service + "." + node.database + "." + node.schema + "." + node.name
  }

  // The node asks for a tag of that name.
  ghost predicate AsksFor(node: Node, m: Mapping, tag: string) {
    Asked(node, m, tag, "Classification") || Asked(node, m, tag, "Glossary")
  }

  lemma {:induction false} TagsBy(t: Table, nodes: seq<Node>, m: Mapping, d: Directory, tag: string)
    ensures tag in Fqns(Items(EnrichedBy(t, nodes, m, d).tags))
      <==> tag in Fqns(Items(t.tags)) || exists node :: node in nodes && AsksFor(node, m, tag)
    decreases |nodes|
  {
    if nodes != [] {
      TableTags(t, nodes[0], m, d);
      TagsBy(Enriched(t, nodes[0], m, d), nodes[1..], m, d, tag);
      assert nodes[0] in nodes && forall node :: node in nodes <==> node == nodes[0] || node in nodes[1..];
    }
  }

  lemma {:induction false} NodesOfIff(fqn: string, service: string, nodes: seq<Node>, node: Node)
    ensures node in NodesOf(fqn, service, nodes) <==>
      node in nodes && Reaches(node, service, fqn)
  {
    if nodes != [] {
      NodesOfIff(fqn, service, nodes[1..], node);
      assert nodes[0] in nodes && (node in nodes <==> node == nodes[0] || node in nodes[1..]);
    }
  }

  /** After the run over all models a table has exactly the tag names it had and those that
      some model of its name asks for. */
  lemma RunTags(store: Store, service: string, nodes: seq<Node>, m: Mapping, d: Directory, fqn: string, tag: string)
    requires fqn in store
    ensures var after := EnrichAll(store, service, nodes, m, d);
      && fqn in after
      && (tag in Fqns(Items(after[fqn].tags)) <==>
            tag in Fqns(Items(store[fqn].tags)) ||
            exists node :: node in nodes && Reaches(node, service, fqn) && AsksFor(node, m, tag))
  {
    RunByTable(store, service, nodes, m, d, fqn);
    TagsBy(store[fqn], NodesOf(fqn, service, nodes), m, d, tag);
    forall node ensures node in NodesOf(fqn, service, nodes) <==> node in nodes && Reaches(node, service, fqn) {
      NodesOfIff(fqn, service, nodes, node);
    }
  }

  // ----- what OPA allows after the run -----

  // A tag name allows the purpose: it is "Doelbinding." and the purpose in some case.
  predicate NameAllows(name: string, purpose: string) {
    |name| >= 12 && name[..12] == "Doelbinding." && Lower(name[12..]) == purpose
  }

  // The table had a tag of that name, or some model of the run that reaches it asks for one.
  ghost predicate Carries(store: Store, service: string, nodes: seq<Node>, m: Mapping, fqn: string, name: string) {
    && fqn in store
    && (name in Fqns(Items(store[fqn].tags))
        || exists node :: node in nodes && Reaches(node, service, fqn) && AsksFor(node, m, name))
  }

  lemma TagAllows(t: Table, purpose: string)
    ensures (exists tag :: tag in Items(t.tags) && Allows(tag, purpose))
      <==> (exists name :: name in Fqns(Items(t.tags)) && NameAllows(name, purpose))
  {
    FqnsAreMembers(Items(t.tags));
    if name :| name in Fqns(Items(t.tags)) && NameAllows(name, purpose) {
      var tag :| tag in Items(t.tags) && tag.fqn == name;
      assert Allows(tag, purpose);
    }
    if tag :| tag in Items(t.tags) && Allows(tag, purpose) {
      assert NameAllows(tag.fqn, purpose);
    }
  }

  lemma CarriesIff(store: Store, service: string, nodes: seq<Node>, m: Mapping, d: Directory, fqn: string, name: string)
    ensures var after := EnrichAll(store, service, nodes, m, d);
      (fqn in after && name in Fqns(Items(after[fqn].tags))) <==> Carries(store, service, nodes, m, fqn, name)
  {
    var after := EnrichAll(store, service, nodes, m, d);
    if fqn in store {
      RunTags(store, service, nodes, m, d, fqn, name);
    } else {
      SameTables(store, service, nodes, m, d);
    }
  }

  lemma SameTables(store: Store, service: string, nodes: seq<Node>, m: Mapping, d: Directory)
    ensures EnrichAll(store, service, nodes, m, d).Keys == store.Keys
  {
    if store == map[] {
      NoTables(service, nodes, m, d);
    } else {
      var fqn :| fqn in store;
      RunByTable(store, service, nodes, m, d, fqn);
    }
  }

  /** From the manifest to OPA, both ways: after a run over all models and a sync of the tables,
      listed in any order, a purpose is allowed under a glob exactly when some table scanned to
      it had a tag for it before the run, or a model that reaches it asks for one. */
  lemma PurposesComeFromModels(store: Store, service: string, nodes: seq<Node>, m: Mapping, d: Directory,
                               listing: seq<Table>, om: map<string, set<string>>, glob: string, purpose: string)
    requires WellKept(store)
    requires Lists(listing, EnrichAll(store, service, nodes, m, d)) && Aggregates(om, listing)
    ensures (glob in om && purpose in om[glob]) <==>
      exists fqn, name :: GlobFromFqn(fqn) == Some(glob) && Carries(store, service, nodes, m, fqn, name)
                          && NameAllows(name, purpose)
  {
    var after := EnrichAll(store, service, nodes, m, d);
    EnrichAllGains(store, service, nodes, m, d);
    AggregatedIff(om, listing, glob, purpose);
    if t, tag :| t in listing && GlobFromFqn(t.fqn) == Some(glob) && tag in Items(t.tags) && Allows(tag, purpose) {
      TagAllows(t, purpose);
      var name :| name in Fqns(Items(t.tags)) && NameAllows(name, purpose);
      CarriesIff(store, service, nodes, m, d, t.fqn, name);
    }
    if fqn, name :| GlobFromFqn(fqn) == Some(glob) && Carries(store, service, nodes, m, fqn, name)
                    && NameAllows(name, purpose) {
      CarriesIff(store, service, nodes, m, d, fqn, name);
      TagAllows(after[fqn], purpose);
      assert after[fqn] in listing;
    }
  }
}
