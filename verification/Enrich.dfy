/** Enrichment of OpenMetadata tables from dbt metadata: what the JSON Patch of one table
    is made of, and what applying it does. An empty string stands for a missing value. */
module Enrich {
  import opened Common
  import opened Text

  /** A member of a JSON object. */
  datatype Member<+T> = Absent | Null | Has(value: T)

  datatype Tag = Tag(fqn: string, source: string, labelType: string)
  datatype Ref = Ref(id: string, kind: string, name: string)
  datatype Value = Num(n: int) | Txt(s: string) | Flag(b: bool)
  datatype Column = Column(name: string, tags: Member<seq<Tag>>)

  datatype Table = Table(fqn: string, tags: Member<seq<Tag>>, extension: Member<map<string, Value>>,
                         owners: Member<seq<Ref>>, domains: Member<seq<Ref>>, products: Member<seq<Ref>>,
                         columns: Member<seq<Column>>)

  datatype Meta = Meta(doelbinding: seq<string>, legalBasis: string, bio: string, riskTier: string,
                       cgmTerms: seq<string>, piiColumns: seq<string>, eigenaar: string, domain: string,
                       retention: Option<int>, dpiaId: string, algorithmId: string, flags: map<string, bool>)

  datatype Node = Node(isModel: bool, database: string, schema: string, name: string, configTags: seq<string>,
                       meta: Meta)

  datatype Product = Product(name: string, dbtTag: string)

  datatype Mapping = Mapping(doelbinding: map<string, string>, legalBasis: map<string, seq<string>>,
                             bio: map<string, string>, risk: map<string, string>, pii: map<string, string>,
                             tierDefault: string, tierByTag: map<string, string>, teams: map<string, string>,
                             domains: map<string, string>, products: seq<Product>)

  /** What OpenMetadata answers to name lookups. */
  datatype Directory = Directory(teams: map<string, string>, users: map<string, string>,
                                 domains: map<string, string>, products: map<string, string>)

  function Items<T>(m: Member<seq<T>>): seq<T> {
    match m case Has(v) => v case _ => []
  }

  function Get(m: map<string, string>, key: string): string {
    if key in m then m[key] else ""
  }

  // ----- tags -----

  function Label(fqn: string, source: string): Tag {
    Tag(fqn, source, "Automated")
  }

  function Fqns(tags: seq<Tag>): set<string> {
    if tags == [] then {} else {tags[0].fqn} + Fqns(tags[1..])
  }

  predicate DistinctFqns(tags: seq<Tag>) {
    tags == [] || (tags[0].fqn !in Fqns(tags[1..]) && DistinctFqns(tags[1..]))
  }

  // A dict entry set: an existing key keeps its place.
  function PutTag(tags: seq<Tag>, t: Tag): seq<Tag> {
    if tags == [] then [t]
    else if tags[0].fqn == t.fqn then [t] + tags[1..]
    else [tags[0]] + PutTag(tags[1..], t)
  }

  function ByFqn(existing: seq<Tag>): seq<Tag>
    decreases |existing|
  {
    if existing == [] then [] else PutTag(ByFqn(existing[..|existing| - 1]), existing[|existing| - 1])
  }

  function AddMissing(tags: seq<Tag>, wanted: seq<(string, string)>): seq<Tag>
    decreases |wanted|
  {
    if wanted == [] then tags
    else AddMissing(if wanted[0].0 in Fqns(tags) then tags else tags + [Label(wanted[0].0, wanted[0].1)], wanted[1..])
  }

  function UnionTags(existing: seq<Tag>, wanted: seq<(string, string)>): seq<Tag> {
    AddMissing(ByFqn(existing), wanted)
  }

  method UnionTagsLoop(existing: seq<Tag>, wanted: seq<(string, string)>) returns (tags: seq<Tag>)
    ensures tags == UnionTags(existing, wanted)
  {
    tags := [];
    var k := 0;
    while k < |existing|
      invariant 0 <= k <= |existing| && tags == ByFqn(existing[..k])
    {
      assert existing[..k + 1][..k] == existing[..k];
      tags := PutTag(tags, existing[k]);
      k := k + 1;
    }
    assert existing[..k] == existing;
    k := 0;
    while k < |wanted|
      invariant 0 <= k <= |wanted|
      invariant AddMissing(tags, wanted[k..]) == UnionTags(existing, wanted)
    {
      if wanted[k].0 !in Fqns(tags) {
        tags := tags + [Label(wanted[k].0, wanted[k].1)];
      }
      k := k + 1;
    }
  }

  lemma {:induction false} FqnsConcat(a: seq<Tag>, b: seq<Tag>)
    ensures Fqns(a + b) == Fqns(a) + Fqns(b)
    ensures DistinctFqns(a + b) <==> DistinctFqns(a) && DistinctFqns(b) && Fqns(a) !! Fqns(b)
  {
    if a == [] {
      assert a + b == b;
    } else {
      assert (a + b)[1..] == a[1..] + b;
      FqnsConcat(a[1..], b);
    }
  }

  lemma {:induction false} FqnsAreMembers(tags: seq<Tag>)
    ensures forall t :: t in tags ==> t.fqn in Fqns(tags)
    ensures forall f :: f in Fqns(tags) ==> exists t :: t in tags && t.fqn == f
  {
    if tags != [] {
      FqnsAreMembers(tags[1..]);
      assert tags == [tags[0]] + tags[1..];
    }
  }

  lemma {:induction false} PutTagFqns(tags: seq<Tag>, t: Tag)
    requires DistinctFqns(tags)
    ensures DistinctFqns(PutTag(tags, t)) && Fqns(PutTag(tags, t)) == Fqns(tags) + {t.fqn}
    ensures t.fqn !in Fqns(tags) ==> PutTag(tags, t) == tags + [t]
  {
    if tags != [] {
      if tags[0].fqn == t.fqn {
        assert ([t] + tags[1..])[1..] == tags[1..];
      } else {
        PutTagFqns(tags[1..], t);
        assert ([tags[0]] + PutTag(tags[1..], t))[1..] == PutTag(tags[1..], t);
      }
    }
  }

  lemma {:induction false} ByFqnFqns(existing: seq<Tag>)
    ensures DistinctFqns(ByFqn(existing)) && Fqns(ByFqn(existing)) == Fqns(existing)
    ensures DistinctFqns(existing) ==> ByFqn(existing) == existing
    decreases |existing|
  {
    if existing != [] {
      var init, last := existing[..|existing| - 1], existing[|existing| - 1];
      assert existing == init + [last];
      ByFqnFqns(init);
      PutTagFqns(ByFqn(init), last);
      FqnsConcat(init, [last]);
      assert Fqns([last]) == {last.fqn};
    }
  }

  function Wanted(wanted: seq<(string, string)>): set<string> {
    set w | w in wanted :: w.0
  }

  lemma {:induction false} AddMissingFqns(tags: seq<Tag>, wanted: seq<(string, string)>)
    requires DistinctFqns(tags)
    ensures var r := AddMissing(tags, wanted);
      && DistinctFqns(r) && Fqns(r) == Fqns(tags) + Wanted(wanted)
      && tags <= r
      && (Wanted(wanted) <= Fqns(tags) ==> r == tags)
    decreases |wanted|
  {
    if wanted != [] {
      var tags' := if wanted[0].0 in Fqns(tags) then tags else tags + [Label(wanted[0].0, wanted[0].1)];
      FqnsConcat(tags, [Label(wanted[0].0, wanted[0].1)]);
      assert Fqns([Label(wanted[0].0, wanted[0].1)]) == {wanted[0].0};
      assert wanted == [wanted[0]] + wanted[1..];
      assert Wanted(wanted) == {wanted[0].0} + Wanted(wanted[1..]);
      AddMissingFqns(tags', wanted[1..]);
    } else {
      assert Wanted(wanted) == {};
    }
  }

  /** The union keeps every existing tag FQN, adds every wanted one, holds none twice, and
      doing it again changes nothing. */
  lemma UnionTagsUnites(existing: seq<Tag>, wanted: seq<(string, string)>)
    ensures var r := UnionTags(existing, wanted);
      && DistinctFqns(r) && Fqns(r) == Fqns(existing) + Wanted(wanted)
      && UnionTags(r, wanted) == r
      && (DistinctFqns(existing) ==> existing <= r)
  {
    ByFqnFqns(existing);
    AddMissingFqns(ByFqn(existing), wanted);
    var r := UnionTags(existing, wanted);
    ByFqnFqns(r);
    AddMissingFqns(r, wanted);
  }

  // ----- the tier -----

  function Rank(tier: string): nat {
    if tier == "Tier1" then 1
    else if tier == "Tier2" then 2
    else if tier == "Tier3" then 3
    else if tier == "Tier4" then 4
    else 5
  }

  function DeriveTier(configTags: seq<string>, m: Mapping): string
    decreases |configTags|
  {
    if configTags == [] then m.tierDefault
    else
      var best := DeriveTier(configTags[..|configTags| - 1], m);
      var candidate := Get(m.tierByTag, configTags[|configTags| - 1]);
      if candidate != "" && Rank(candidate) < Rank(best) then candidate else best
  }

  /** The tier is the default or a candidate, and none of these ranks better. */
  method DeriveTierLoop(configTags: seq<string>, m: Mapping) returns (best: string)
    ensures best == DeriveTier(configTags, m)
    ensures best == m.tierDefault || exists t :: t in configTags && t in m.tierByTag && m.tierByTag[t] == best
    ensures Rank(best) <= Rank(m.tierDefault)
    ensures forall t :: t in configTags && t in m.tierByTag && m.tierByTag[t] != "" ==>
      Rank(best) <= Rank(m.tierByTag[t])
  {
    best := m.tierDefault;
    var k := 0;
    while k < |configTags|
      invariant 0 <= k <= |configTags| && best == DeriveTier(configTags[..k], m)
      invariant best == m.tierDefault || exists t :: t in configTags && t in m.tierByTag && m.tierByTag[t] == best
      invariant Rank(best) <= Rank(m.tierDefault)
      invariant forall t :: t in configTags[..k] && t in m.tierByTag && m.tierByTag[t] != "" ==>
        Rank(best) <= Rank(m.tierByTag[t])
    {
      var candidate := Get(m.tierByTag, configTags[k]);
      assert configTags[..k + 1] == configTags[..k] + [configTags[k]];
      if candidate != "" && Rank(candidate) < Rank(best) {
        best := candidate;
      }
      k := k + 1;
    }
    assert configTags[..k] == configTags;
  }

  // ----- what a node asks for -----

  function MapAll(values: seq<string>, mapping: map<string, string>): seq<(string, string)> {
    if values == [] then []
    else (if Get(mapping, Lower(values[0])) == "" then [] else [(Get(mapping, Lower(values[0])), "Classification")]) +
         MapAll(values[1..], mapping)
  }

  function Classified(fqns: seq<string>): seq<(string, string)> {
    seq(|fqns|, i requires 0 <= i < |fqns| => (fqns[i], "Classification"))
  }

  function Single(fqn: string): seq<(string, string)> {
    if fqn == "" then [] else [(fqn, "Classification")]
  }

  function Glossary(terms: seq<string>): seq<(string, string)> {
    seq(|terms|, i requires 0 <= i < |terms| => ("CGM." + terms[i], "Glossary"))
  }

  function HumanInTheLoop(flags: map<string, bool>): seq<(string, string)> {
    if "human_in_the_loop" in flags && flags["human_in_the_loop"] then [("AI.HumanInTheLoop", "Classification")] else []
  }

  /** The tag FQNs a node asks for, in the order they are collected. */
  function WantedTags(node: Node, m: Mapping): (w: seq<(string, string)>)
    ensures w != []
  {
    var meta := node.meta;
    MapAll(meta.doelbinding, m.doelbinding)
    + Classified(if meta.legalBasis != "" && meta.legalBasis in m.legalBasis then m.legalBasis[meta.legalBasis] else [])
    + Single(if meta.bio == "" then "" else Get(m.bio, Lower(meta.bio)))
    + Single(if meta.riskTier == "" then "" else Get(m.risk, Lower(meta.riskTier)))
    + [("Tier." + DeriveTier(Lowered(node.configTags), m), "Classification")]
    + Glossary(meta.cgmTerms)
    + HumanInTheLoop(meta.flags)
  }

  lemma {:induction false} MappedAreWanted(values: seq<string>, mapping: map<string, string>, v: string)
    requires v in values && Get(mapping, Lower(v)) != ""
    ensures (Get(mapping, Lower(v)), "Classification") in MapAll(values, mapping)
  {
    if values[0] != v {
      MappedAreWanted(values[1..], mapping, v);
    }
  }

  /** Every mapped doelbinding of the node is among them. */
  lemma DoelbindingIsWanted(node: Node, m: Mapping, v: string)
    requires v in node.meta.doelbinding && Get(m.doelbinding, Lower(v)) != ""
    ensures Get(m.doelbinding, Lower(v)) in Wanted(WantedTags(node, m))
  {
    MappedAreWanted(node.meta.doelbinding, m.doelbinding, v);
    var w := (Get(m.doelbinding, Lower(v)), "Classification");
    assert w in WantedTags(node, m);
  }

  const FLAGS: set<string> := {
    "human_in_the_loop", "toegang_via_OPA_policies", "profilering", "opt_out_supported",
    "sandbox_only", "pseudonymized", "publiek_te_publiceren", "juistheid_AVG_art_5_1d"}

  function Property(key: string, s: string): map<string, Value> {
    if s == "" then map[] else map[key := Txt(s)]
  }

  function BuildExtension(meta: Meta): map<string, Value> {
    (match meta.retention case Some(n) => map["bewaartermijn_jaren" := Num(n)] case None => map[])
    + Property("dpia_id", meta.dpiaId)
    + Property("algoritmeregister_id", meta.algorithmId)
    + Property("legal_basis_text", meta.legalBasis)
    + Property("dbt_domain", meta.domain)
    + map f | f in FLAGS && f in meta.flags :: Flag(meta.flags[f])
  }

  function ResolveOwner(node: Node, m: Mapping, d: Directory): Option<Ref> {
    var eigenaar := node.meta.eigenaar;
    if eigenaar == "" then None
    else
      var team := if eigenaar in m.teams then m.teams[eigenaar] else eigenaar;
      if Get(d.teams, team) != "" then Some(Ref(d.teams[team], "team", team))
      else if Get(d.users, eigenaar) != "" then Some(Ref(d.users[eigenaar], "user", eigenaar))
      else None
  }

  function ResolveDomain(node: Node, m: Mapping, d: Directory): Option<Ref> {
    if node.meta.domain == "" then None
    else
      var name := Get(m.domains, Lower(node.meta.domain));
      if name == "" || name !in d.domains then None else Some(Ref(d.domains[name], "domain", name))
  }

  function ResolveProducts(products: seq<Product>, configTags: seq<string>, d: Directory): seq<Ref> {
    if products == [] then []
    else
      var p := products[0];
      (if p.dbtTag != "" && Lower(p.dbtTag) in Lowered(configTags) && p.name in d.products
       then [Ref(d.products[p.name], "dataProduct", p.name)] else [])
      + ResolveProducts(products[1..], configTags, d)
  }
}
