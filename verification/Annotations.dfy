/** What an enriched table carries, said by the fields of the model: where each tag, extension
    value, owner, domain, product and column tag comes from. */
module Annotations {
  import opened Common
  import opened Text
  import opened Enrich
  import opened Patches

  // ----- the tier -----

  // A better tier has the lower number; any other name comes last.
  predicate Better(a: string, b: string) {
    || (a == "Tier1" && b != "Tier1")
    || (a == "Tier2" && b != "Tier1" && b != "Tier2")
    || (a == "Tier3" && b != "Tier1" && b != "Tier2" && b != "Tier3")
    || (a == "Tier4" && b != "Tier1" && b != "Tier2" && b != "Tier3" && b != "Tier4")
  }

  lemma RankIsBetter(a: string, b: string)
    ensures Rank(a) < Rank(b) <==> Better(a, b)
  {
  }

  // The tier that the mapping has for a tag, if any.
  predicate TierOfTag(m: Mapping, tag: string, tier: string) {
    tag in m.tierByTag && m.tierByTag[tag] == tier
  }

  // No tag stands for a better tier.
  ghost predicate Unbeaten(m: Mapping, tags: seq<string>, tier: string) {
    forall k, c :: 0 <= k < |tags| && TierOfTag(m, tags[k], c) ==> !Better(c, tier)
  }

  // The tag at `i` is the first one with the best tier, and that beats the default.
  ghost predicate TierFrom(m: Mapping, tags: seq<string>, tier: string, i: nat) {
    && i < |tags| && TierOfTag(m, tags[i], tier) && Better(tier, m.tierDefault) && Unbeaten(m, tags, tier)
    && forall k :: 0 <= k < i ==> !TierOfTag(m, tags[k], tier)
  }

  ghost predicate IsTier(m: Mapping, tags: seq<string>, tier: string) {
    (tier == m.tierDefault && Unbeaten(m, tags, tier)) || (exists i: nat :: TierFrom(m, tags, tier, i))
  }

  lemma BetterIsTransitive(c: string, candidate: string, before: string)
    requires Better(candidate, before) && !Better(c, before)
    ensures !Better(c, candidate)
  {
  }

  lemma NotBetterThanItself(tier: string)
    ensures !Better(tier, tier) && !Better("", tier)
  {
  }

  lemma {:induction false} TierIsBest(tags: seq<string>, m: Mapping)
    ensures Unbeaten(m, tags, DeriveTier(tags, m))
    decreases |tags|
  {
    if tags != [] {
      var init, last := tags[..|tags| - 1], tags[|tags| - 1];
      TierIsBest(init, m);
      var before, candidate := DeriveTier(init, m), Get(m.tierByTag, last);
      var best := DeriveTier(tags, m);
      RankIsBetter(candidate, before);
      NotBetterThanItself(best);
      NotBetterThanItself(before);
      forall k, c | 0 <= k < |tags| && TierOfTag(m, tags[k], c) ensures !Better(c, best) {
        if k < |init| {
          assert init[k] == tags[k] && TierOfTag(m, init[k], c);
          if best != before {
            BetterIsTransitive(c, candidate, before);
          }
        } else {
          assert c == candidate;
        }
      }
    }
  }

  // What is better than something better than the default is better than the default.
  lemma BetterThanBoth(candidate: string, before: string, default': string)
    requires Better(candidate, before) && (before == default' || Better(before, default'))
    ensures Better(candidate, default')
  {
  }

  lemma {:induction false} TierIsFromATag(tags: seq<string>, m: Mapping)
    ensures var best := DeriveTier(tags, m);
      best == m.tierDefault ||
        (Better(best, m.tierDefault) && exists i :: 0 <= i < |tags| && TierOfTag(m, tags[i], best))
    decreases |tags|
  {
    if tags != [] {
      var init, last := tags[..|tags| - 1], tags[|tags| - 1];
      TierIsFromATag(init, m);
      var before, candidate := DeriveTier(init, m), Get(m.tierByTag, last);
      RankIsBetter(candidate, before);
      if candidate != "" && Better(candidate, before) {
        BetterThanBoth(candidate, before, m.tierDefault);
        assert TierOfTag(m, tags[|init|], candidate);
      } else if before != m.tierDefault {
        var i :| 0 <= i < |init| && TierOfTag(m, init[i], before);
        assert tags[i] == init[i];
      }
    }
  }

  lemma FirstWith(tags: seq<string>, m: Mapping, tier: string, i: nat) returns (first: nat)
    requires i < |tags| && TierOfTag(m, tags[i], tier)
    ensures first <= i && TierOfTag(m, tags[first], tier) && forall k :: 0 <= k < first ==> !TierOfTag(m, tags[k], tier)
  {
    first := 0;
    while !TierOfTag(m, tags[first], tier)
      invariant first <= i && forall k :: 0 <= k < first ==> !TierOfTag(m, tags[k], tier)
      decreases i - first
    {
      first := first + 1;
    }
  }

  /** The tier is the default, unless tags stand for a better one; then it is the best of these. */
  lemma TierIff(tags: seq<string>, m: Mapping, tier: string)
    ensures tier == DeriveTier(tags, m) <==> IsTier(m, tags, tier)
  {
    var best := DeriveTier(tags, m);
    TierIsBest(tags, m);
    TierIsFromATag(tags, m);
    if best != m.tierDefault {
      var i :| 0 <= i < |tags| && TierOfTag(m, tags[i], best);
      var first := FirstWith(tags, m, best, i);
      assert TierFrom(m, tags, best, first);
    }
    if IsTier(m, tags, tier) && tier != best {
      OneBestTier(tags, m, tier, best);
    }
  }

  lemma NotBeaten(tags: seq<string>, m: Mapping, a: string, b: string)
    requires IsTier(m, tags, a) && IsTier(m, tags, b)
    ensures !Better(b, a)
    ensures a == m.tierDefault || Better(a, m.tierDefault)
  {
    if b == m.tierDefault {
      NotBetterThanItself(b);
      BetterIsOneWay(a, b);
    }
  }

  lemma BetterIsOneWay(a: string, b: string)
    requires a == b || Better(a, b)
    ensures !Better(b, a)
  {
  }

  lemma EquallyGood(a: string, b: string, default': string)
    requires !Better(a, b) && !Better(b, a)
    requires (a == default' || Better(a, default')) && (b == default' || Better(b, default'))
    ensures a == b
  {
  }

  lemma OneBestTier(tags: seq<string>, m: Mapping, a: string, b: string)
    requires IsTier(m, tags, a) && IsTier(m, tags, b)
    ensures a == b
  {
    NotBeaten(tags, m, a, b);
    NotBeaten(tags, m, b, a);
    EquallyGood(a, b, m.tierDefault);
  }

  // ----- the tags -----

  // The mapping has that tag for the value of a field.
  predicate MappedTo(mapping: map<string, string>, value: string, fqn: string) {
    value != "" && Lower(value) in mapping && mapping[Lower(value)] == fqn && fqn != ""
  }

  ghost predicate FromDoelbinding(node: Node, m: Mapping, fqn: string) {
    exists v :: v in node.meta.doelbinding && Lower(v) in m.doelbinding && m.doelbinding[Lower(v)] == fqn && fqn != ""
  }

  predicate FromLegalBasis(node: Node, m: Mapping, fqn: string) {
    node.meta.legalBasis != "" && node.meta.legalBasis in m.legalBasis && fqn in m.legalBasis[node.meta.legalBasis]
  }

  ghost predicate FromTier(node: Node, m: Mapping, fqn: string) {
    exists tier :: IsTier(m, Lowered(node.configTags), tier) && fqn == "Tier." + tier
  }

  predicate FromFlag(node: Node, fqn: string) {
    "human_in_the_loop" in node.meta.flags && node.meta.flags["human_in_the_loop"] && fqn == "AI.HumanInTheLoop"
  }

  ghost predicate FromTerm(node: Node, fqn: string) {
    exists term :: term in node.meta.cgmTerms && fqn == "CGM." + term
  }

  /** The model asks for that tag: for one of its doelbindingen, its legal basis, its BIO class,
      its risk tier, its tier, or as AI with a human in the loop, all under the source
      Classification; or as one of its terms, under the source Glossary. */
  ghost predicate Asked(node: Node, m: Mapping, fqn: string, source: string) {
    || (source == "Classification" && (
          || FromDoelbinding(node, m, fqn) || FromLegalBasis(node, m, fqn)
          || MappedTo(m.bio, node.meta.bio, fqn) || MappedTo(m.risk, node.meta.riskTier, fqn)
          || FromTier(node, m, fqn) || FromFlag(node, fqn)))
    || (source == "Glossary" && FromTerm(node, fqn))
  }

  lemma {:induction false} MapAllIff(values: seq<string>, mapping: map<string, string>, fqn: string, source: string)
    ensures (fqn, source) in MapAll(values, mapping) <==>
      source == "Classification" && fqn != "" &&
      exists v :: v in values && Lower(v) in mapping && mapping[Lower(v)] == fqn
  {
    if values != [] {
      MapAllIff(values[1..], mapping, fqn, source);
      assert values[0] in values && forall v :: v in values <==> v == values[0] || v in values[1..];
    }
  }

  lemma ClassifiedIff(fqns: seq<string>, fqn: string, source: string)
    ensures (fqn, source) in Classified(fqns) <==> source == "Classification" && fqn in fqns
  {
    if source == "Classification" && fqn in fqns {
      var i :| 0 <= i < |fqns| && fqns[i] == fqn;
      assert Classified(fqns)[i] == (fqn, source);
    }
  }

  lemma TermsIff(node: Node, fqn: string, source: string)
    ensures (fqn, source) in Glossary(node.meta.cgmTerms) <==> source == "Glossary" && FromTerm(node, fqn)
  {
    var terms := node.meta.cgmTerms;
    if source == "Glossary" && FromTerm(node, fqn) {
      var term :| term in terms && fqn == "CGM." + term;
      var i :| 0 <= i < |terms| && terms[i] == term;
      assert Glossary(terms)[i] == (fqn, source);
    }
  }

  lemma FromTierIff(node: Node, m: Mapping, fqn: string)
    ensures FromTier(node, m, fqn) <==> fqn == "Tier." + DeriveTier(Lowered(node.configTags), m)
  {
    var tags := Lowered(node.configTags);
    TierIff(tags, m, DeriveTier(tags, m));
    if FromTier(node, m, fqn) {
      var tier :| IsTier(m, tags, tier) && fqn == "Tier." + tier;
      TierIff(tags, m, tier);
    }
  }

  lemma AnyOfSeven<T>(x: T, a: seq<T>, b: seq<T>, c: seq<T>, d: seq<T>, e: seq<T>, f: seq<T>, g: seq<T>)
    ensures x in a + b + c + d + e + f + g <==>
      x in a || x in b || x in c || x in d || x in e || x in f || x in g
  {
  }

  lemma SingleIff(mapping: map<string, string>, value: string, fqn: string, source: string)
    ensures (fqn, source) in Single(if value == "" then "" else Get(mapping, Lower(value)))
      <==> source == "Classification" && MappedTo(mapping, value, fqn)
  {
  }

  lemma WantedIff(node: Node, m: Mapping, fqn: string, source: string)
    ensures (fqn, source) in WantedTags(node, m) <==> Asked(node, m, fqn, source)
  {
    var meta := node.meta;
    var legal := if meta.legalBasis != "" && meta.legalBasis in m.legalBasis then m.legalBasis[meta.legalBasis] else [];
    MapAllIff(meta.doelbinding, m.doelbinding, fqn, source);
    ClassifiedIff(legal, fqn, source);
    SingleIff(m.bio, meta.bio, fqn, source);
    SingleIff(m.risk, meta.riskTier, fqn, source);
    FromTierIff(node, m, fqn);
    TermsIff(node, fqn, source);
    AnyOfSeven((fqn, source), MapAll(meta.doelbinding, m.doelbinding), Classified(legal),
      Single(if meta.bio == "" then "" else Get(m.bio, Lower(meta.bio))),
      Single(if meta.riskTier == "" then "" else Get(m.risk, Lower(meta.riskTier))),
      [("Tier." + DeriveTier(Lowered(node.configTags), m), "Classification")],
      Glossary(meta.cgmTerms), HumanInTheLoop(meta.flags));
  }

  lemma {:induction false} PutTagMembers(tags: seq<Tag>, t: Tag)
    ensures forall x :: x in PutTag(tags, t) ==> x in tags || x == t
  {
    if tags != [] {
      PutTagMembers(tags[1..], t);
      assert forall x :: x in tags[1..] ==> x in tags;
    }
  }

  lemma {:induction false} ByFqnMembers(existing: seq<Tag>)
    ensures forall x :: x in ByFqn(existing) ==> x in existing
    decreases |existing|
  {
    if existing != [] {
      var init := existing[..|existing| - 1];
      ByFqnMembers(init);
      PutTagMembers(ByFqn(init), existing[|existing| - 1]);
      assert forall x :: x in init ==> x in existing;
    }
  }

  // A tag that was not there is one of the wanted ones, with its source.
  ghost predicate AddedOf(x: Tag, tags: seq<Tag>, wanted: seq<(string, string)>) {
    x.fqn !in Fqns(tags) && x.labelType == "Automated" && (x.fqn, x.source) in wanted
  }

  lemma {:induction false} AddMissingMembers(tags: seq<Tag>, wanted: seq<(string, string)>)
    ensures forall x :: x in AddMissing(tags, wanted) ==> x in tags || AddedOf(x, tags, wanted)
    decreases |wanted|
  {
    if wanted != [] {
      var added := Label(wanted[0].0, wanted[0].1);
      var next := if wanted[0].0 in Fqns(tags) then tags else tags + [added];
      AddMissingMembers(next, wanted[1..]);
      FqnsConcat(tags, [added]);
      assert wanted[0] in wanted && forall w :: w in wanted[1..] ==> w in wanted;
      forall x | x in AddMissing(next, wanted[1..]) ensures x in tags || AddedOf(x, tags, wanted) {
        if x == added && x !in tags && wanted[0].0 !in Fqns(tags) {
          assert (x.fqn, x.source) == wanted[0];
        }
      }
    }
  }

  lemma UnionMembers(existing: seq<Tag>, wanted: seq<(string, string)>, x: Tag)
    requires x in UnionTags(existing, wanted)
    ensures x in existing || AddedOf(x, existing, wanted)
  {
    ByFqnMembers(existing);
    ByFqnFqns(existing);
    AddMissingMembers(ByFqn(existing), wanted);
  }

  /** The tags of an enriched table: no name twice; those it had, and those the model asks for;
      and a tag whose name it did not have is one the model asks for, under that source. */
  lemma TableTags(t: Table, node: Node, m: Mapping, d: Directory)
    ensures var had, tags := Items(t.tags), Items(Enriched(t, node, m, d).tags);
      && DistinctFqns(tags)
      && (forall fqn :: fqn in Fqns(tags) <==>
            fqn in Fqns(had) || Asked(node, m, fqn, "Classification") || Asked(node, m, fqn, "Glossary"))
      && (forall x :: x in tags ==>
            x in had || (x.fqn !in Fqns(had) && x.labelType == "Automated" && Asked(node, m, x.fqn, x.source)))
  {
    var had, tags := Items(t.tags), Items(Enriched(t, node, m, d).tags);
    var wanted := WantedTags(node, m);
    UnionTagsUnites(had, wanted);
    forall fqn ensures fqn in Wanted(wanted) <==>
      Asked(node, m, fqn, "Classification") || Asked(node, m, fqn, "Glossary")
    {
      WantedNames(node, m, fqn);
    }
    forall x | x in tags
      ensures x in had || (x.fqn !in Fqns(had) && x.labelType == "Automated" && Asked(node, m, x.fqn, x.source))
    {
      UnionMembers(had, wanted, x);
      WantedIff(node, m, x.fqn, x.source);
    }
  }

  lemma WantedNames(node: Node, m: Mapping, fqn: string)
    ensures fqn in Wanted(WantedTags(node, m)) <==>
      Asked(node, m, fqn, "Classification") || Asked(node, m, fqn, "Glossary")
  {
    WantedIff(node, m, fqn, "Classification");
    WantedIff(node, m, fqn, "Glossary");
    if fqn in Wanted(WantedTags(node, m)) {
      var w :| w in WantedTags(node, m) && w.0 == fqn;
      WantedIff(node, m, w.0, w.1);
    }
  }

  // ----- the extension -----

  /** The value the model gives an extension key, if any. */
  function ValueFor(meta: Meta, key: string): Option<Value> {
    if key == "bewaartermijn_jaren" then (if meta.retention.Some? then Some(Num(meta.retention.value)) else None)
    else if key == "dpia_id" then TextValue(meta.dpiaId)
    else if key == "algoritmeregister_id" then TextValue(meta.algorithmId)
    else if key == "legal_basis_text" then TextValue(meta.legalBasis)
    else if key == "dbt_domain" then TextValue(meta.domain)
    else if key in meta.flags && IsFlag(key) then Some(Flag(meta.flags[key]))
    else None
  }

  function TextValue(s: string): Option<Value> {
    if s == "" then None else Some(Txt(s))
  }

  predicate IsFlag(key: string) {
    || key == "human_in_the_loop" || key == "toegang_via_OPA_policies" || key == "profilering"
    || key == "opt_out_supported" || key == "sandbox_only" || key == "pseudonymized"
    || key == "publiek_te_publiceren" || key == "juistheid_AVG_art_5_1d"
  }

  lemma FlagKeys(key: string)
    ensures key in FLAGS <==> IsFlag(key)
    ensures key in ["bewaartermijn_jaren", "dpia_id", "algoritmeregister_id", "legal_basis_text", "dbt_domain"] ==>
      !IsFlag(key)
  {
    if IsFlag(key) {
      assert |"bewaartermijn_jaren"| == 19 && |"dpia_id"| == 7 && |"algoritmeregister_id"| == 20;
      assert |"legal_basis_text"| == 16 && |"dbt_domain"| == 10;
      assert |"human_in_the_loop"| == 17 && |"toegang_via_OPA_policies"| == 24 && |"profilering"| == 11;
      assert |"opt_out_supported"| == 17 && |"sandbox_only"| == 12 && |"pseudonymized"| == 13;
      assert |"publiek_te_publiceren"| == 21 && |"juistheid_AVG_art_5_1d"| == 22;
    }
  }

  lemma PropertyIs(key: string, s: string, k: string)
    ensures k in Property(key, s) <==> k == key && s != ""
    ensures k in Property(key, s) ==> Property(key, s)[k] == Txt(s)
  {
  }

  /** The extension of an enriched table: under each key the value of the model, if it gives
      one, and otherwise what was there. */
  lemma TableExtension(t: Table, node: Node, m: Mapping, d: Directory, key: string)
    ensures var was, now := Entries(t.extension), Entries(Enriched(t, node, m, d).extension);
      match ValueFor(node.meta, key)
      case Some(v) => key in now && now[key] == v
      case None => (key in now <==> key in was) && (key in was ==> now[key] == was[key])
  {
    EnrichKeepsExtension(t, node, m, d);
    ExtensionIs(node.meta, key);
  }

  lemma ExtensionIs(meta: Meta, key: string)
    ensures var added := BuildExtension(meta);
      match ValueFor(meta, key) case Some(v) => key in added && added[key] == v case None => key !in added
  {
    FlagKeys(key);
    DistinctKeys();
    PropertyIs("dpia_id", meta.dpiaId, key);
    PropertyIs("algoritmeregister_id", meta.algorithmId, key);
    PropertyIs("legal_basis_text", meta.legalBasis, key);
    PropertyIs("dbt_domain", meta.domain, key);
  }

  lemma DistinctKeys()
    ensures var keys := ["bewaartermijn_jaren", "dpia_id", "algoritmeregister_id", "legal_basis_text", "dbt_domain"];
      forall i, j :: 0 <= i < j < |keys| ==> keys[i] != keys[j]
  {
    assert |"bewaartermijn_jaren"| == 19 && |"dpia_id"| == 7 && |"algoritmeregister_id"| == 20;
    assert |"legal_basis_text"| == 16 && |"dbt_domain"| == 10;
  }

  // ----- owner, domain, products -----

  // The directory has an id for the name.
  predicate Known(names: map<string, string>, name: string) {
    name in names && names[name] != ""
  }

  function TeamOf(m: Mapping, eigenaar: string): string {
    if eigenaar in m.teams then m.teams[eigenaar] else eigenaar
  }

  /** A table without owners gets one: the team the model's owner is mapped to, or else is named
      like, if it is known; else the user of that name; else none. A table with owners keeps them. */
  lemma TableOwner(t: Table, node: Node, m: Mapping, d: Directory)
    ensures var owners, eigenaar := Enriched(t, node, m, d).owners, node.meta.eigenaar;
      var team := TeamOf(m, eigenaar);
      && (Items(t.owners) != [] || eigenaar == "" ==> owners == t.owners)
      && (Items(t.owners) == [] && eigenaar != "" ==>
            if Known(d.teams, team) then owners == Has([Ref(d.teams[team], "team", team)])
            else if Known(d.users, eigenaar) then owners == Has([Ref(d.users[eigenaar], "user", eigenaar)])
            else owners == t.owners)
  {
  }

  // The domain the model is mapped to, if the directory has it.
  predicate DomainIs(node: Node, m: Mapping, d: Directory, name: string) {
    MappedTo(m.domains, node.meta.domain, name) && name in d.domains
  }

  /** The domain of the model is appended if it is mapped, known and not there by name; nothing
      else changes. */
  lemma TableDomains(t: Table, node: Node, m: Mapping, d: Directory)
    ensures forall name :: DomainIs(node, m, d, name) && name !in Names(Items(t.domains)) ==>
      Items(Enriched(t, node, m, d).domains) == Items(t.domains) + [Ref(d.domains[name], "domain", name)]
    ensures (forall name :: DomainIs(node, m, d, name) ==> name in Names(Items(t.domains))) ==>
      Enriched(t, node, m, d).domains == t.domains
  {
    if r: Ref :| ResolveDomain(node, m, d) == Some(r) {
      assert DomainIs(node, m, d, r.name);
    }
  }

  function RefOf(d: Directory, p: Product): Ref
    requires p.name in d.products
  {
    Ref(d.products[p.name], "dataProduct", p.name)
  }

  // The position holds a product that is added, as that reference.
  predicate AddsAs(products: seq<Product>, configTags: seq<string>, d: Directory, names: set<string>, i: nat, r: Ref) {
    i < |products| && Adds(products[i], configTags, d, names) && r == RefOf(d, products[i])
  }

  predicate Rising(at: seq<nat>) {
    forall k, l :: 0 <= k < l < |at| ==> at[k] < at[l]
  }

  // Every product that is added is at one of the positions.
  ghost predicate Covers(products: seq<Product>, configTags: seq<string>, d: Directory, names: set<string>,
                         at: seq<nat>) {
    forall i: nat :: i < |products| && Adds(products[i], configTags, d, names) ==> i in at
  }

  // `at` lists, in order, the positions of the mapping's products that are added.
  ghost predicate AddedAt(products: seq<Product>, configTags: seq<string>, d: Directory, names: set<string>,
                          at: seq<nat>, added: seq<Ref>) {
    && |at| == |added|
    && (forall k :: 0 <= k < |at| ==> AddsAs(products, configTags, d, names, at[k], added[k]))
    && Rising(at) && Covers(products, configTags, d, names, at)
  }

  function Shifted(at: seq<nat>): seq<nat> {
    seq(|at|, k requires 0 <= k < |at| => at[k] + 1)
  }

  lemma TailAddsAs(products: seq<Product>, configTags: seq<string>, d: Directory, names: set<string>, i: nat, r: Ref)
    requires products != []
    ensures AddsAs(products, configTags, d, names, i + 1, r) <==> AddsAs(products[1..], configTags, d, names, i, r)
  {
  }

  lemma TailCovers(products: seq<Product>, configTags: seq<string>, d: Directory, names: set<string>, at: seq<nat>,
                   i: nat)
    requires products != [] && Covers(products[1..], configTags, d, names, at)
    requires i + 1 < |products| && Adds(products[i + 1], configTags, d, names)
    ensures i + 1 in Shifted(at)
  {
    assert products[1..][i] == products[i + 1];
    var k :| 0 <= k < |at| && at[k] == i;
    assert Shifted(at)[k] == i + 1;
  }

  lemma TailPositions(products: seq<Product>, configTags: seq<string>, d: Directory, names: set<string>,
                      at: seq<nat>, added: seq<Ref>)
    requires products != [] && AddedAt(products[1..], configTags, d, names, at, added)
    requires !Adds(products[0], configTags, d, names)
    ensures AddedAt(products, configTags, d, names, Shifted(at), added)
  {
    forall k | 0 <= k < |at| ensures AddsAs(products, configTags, d, names, Shifted(at)[k], added[k]) {
      TailAddsAs(products, configTags, d, names, at[k], added[k]);
    }
    forall i: nat | i < |products| && Adds(products[i], configTags, d, names) ensures i in Shifted(at) {
      TailCovers(products, configTags, d, names, at, i - 1);
    }
  }

  lemma FirstPosition(products: seq<Product>, configTags: seq<string>, d: Directory, names: set<string>,
                      at: seq<nat>, added: seq<Ref>)
    requires products != [] && AddedAt(products[1..], configTags, d, names, at, added)
    requires Adds(products[0], configTags, d, names)
    ensures AddedAt(products, configTags, d, names, [0] + Shifted(at), [RefOf(d, products[0])] + added)
  {
    var all, refs := [0] + Shifted(at), [RefOf(d, products[0])] + added;
    forall k | 0 <= k < |all| ensures AddsAs(products, configTags, d, names, all[k], refs[k]) {
      if k > 0 {
        assert all[k] == at[k - 1] + 1 && refs[k] == added[k - 1];
        TailAddsAs(products, configTags, d, names, at[k - 1], added[k - 1]);
      }
    }
    forall i: nat | i < |products| && Adds(products[i], configTags, d, names) ensures i in all {
      if i == 0 {
        assert all[0] == 0;
      } else {
        TailCovers(products, configTags, d, names, at, i - 1);
      }
    }
    FirstRises(at);
  }

  lemma FirstRises(at: seq<nat>)
    requires Rising(at)
    ensures Rising([0] + Shifted(at)) && Rising(Shifted(at))
  {
  }

  lemma {:induction false} AddedPositions(products: seq<Product>, configTags: seq<string>, d: Directory,
                                          names: set<string>) returns (at: seq<nat>)
    ensures AddedAt(products, configTags, d, names, at, Added(products, configTags, d, names))
  {
    at := [];
    if products != [] {
      AddedFirst(products, configTags, d, names);
      var rest := AddedPositions(products[1..], configTags, d, names);
      var added := Added(products[1..], configTags, d, names);
      if Adds(products[0], configTags, d, names) {
        FirstPosition(products, configTags, d, names, rest, added);
        at := [0] + Shifted(rest);
      } else {
        TailPositions(products, configTags, d, names, rest, added);
        at := Shifted(rest);
      }
    }
  }

  /** The products of the mapping that have a tag of the model, are known and not there by name
      are appended in the order of the mapping, and nothing else changes. */
  lemma TableProducts(t: Table, node: Node, m: Mapping, d: Directory) returns (at: seq<nat>, added: seq<Ref>)
    ensures Items(Enriched(t, node, m, d).products) == Items(t.products) + added
    ensures AddedAt(m.products, node.configTags, d, Names(Items(t.products)), at, added)
  {
    added := NewProducts(t, node, m, d);
    at := AddedPositions(m.products, node.configTags, d, Names(Items(t.products)));
  }

  // ----- the columns -----

  // The column is the last one whose name is, in lower case, that of a listed PII column,
  // and the mapping has a tag for it.
  ghost predicate IsPii(columns: seq<Column>, i: nat, node: Node, m: Mapping, fqn: string) {
    && i < |columns|
    && (exists n :: n in node.meta.piiColumns && Lower(n) == Lower(columns[i].name))
    && (forall k :: i < k < |columns| ==> Lower(columns[k].name) != Lower(columns[i].name))
    && Lower(columns[i].name) in m.pii && m.pii[Lower(columns[i].name)] == fqn && fqn != ""
  }

  lemma {:induction false} LastIndex(columns: seq<Column>, i: nat)
    requires i < |columns|
    ensures IndexOf(columns, Lower(columns[i].name)) == Some(i)
      <==> forall k :: i < k < |columns| ==> Lower(columns[k].name) != Lower(columns[i].name)
    decreases |columns|
  {
    var init := columns[..|columns| - 1];
    if i < |init| {
      LastIndex(init, i);
      IndexIsRight(init, Lower(columns[i].name));
      assert forall k :: 0 <= k < |init| ==> init[k] == columns[k];
    }
  }

  /** A column gets the tag of its PII name at the end of its tags unless it has it already, and
      every other column stays as it is. */
  lemma TableColumns(t: Table, node: Node, m: Mapping, d: Directory, i: nat)
    requires i < |Items(t.columns)|
    ensures var was, now := Items(t.columns), Items(Enriched(t, node, m, d).columns);
      && |now| == |was|
      && (forall fqn :: IsPii(was, i, node, m, fqn) && fqn !in Fqns(Items(was[i].tags)) ==>
            now[i] == Column(was[i].name, Has(Items(was[i].tags) + [Tag(fqn, "Classification", "Automated")])))
      && ((forall fqn :: IsPii(was, i, node, m, fqn) ==> fqn in Fqns(Items(was[i].tags))) ==> now[i] == was[i])
  {
    var was := Items(t.columns);
    EnrichedColumnIs(t, node, m, d, i);
    LastIndex(was, i);
    LoweredMember(node.meta.piiColumns, Lower(was[i].name));
    var fqn := Get(m.pii, Lower(was[i].name));
    if EnrichedColumn(was, i, node.meta.piiColumns, m) != was[i] {
      assert IsPii(was, i, node, m, fqn);
    }
  }
}
