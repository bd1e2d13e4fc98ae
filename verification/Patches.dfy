/** The JSON Patch of one table (RFC 6902), and what applying it makes of the table. */
module Patches {
  import opened Common
  import opened Text
  import opened Enrich

  /** An `add` (section 4.1) or a `replace` (section 4.3) of one member. */
  datatype Op =
    | PutTags(replace: bool, tags: seq<Tag>)
    | PutExtension(replace: bool, extension: map<string, Value>)
    | PutOwners(replace: bool, refs: seq<Ref>)
    | PutDomains(replace: bool, refs: seq<Ref>)
    | PutProducts(replace: bool, refs: seq<Ref>)
    | PutColumnTags(replace: bool, index: nat, tags: seq<Tag>)

  // `replace` needs an existing member, `add` does not.
  function Put<T>(member: Member<T>, replace: bool, value: T): Option<Member<T>> {
    if replace && member.Absent? then None else Some(Has(value))
  }

  function ApplyColumn(columns: seq<Column>, op: Op): Option<seq<Column>>
    requires op.PutColumnTags?
  {
    if op.index >= |columns| then None
    else
      match Put(columns[op.index].tags, op.replace, op.tags)
      case None => None
      case Some(tags) => Some(columns[op.index := columns[op.index].(tags := tags)])
  }

  function Apply(t: Table, op: Op): Option<Table> {
    match op
    case PutTags(replace, tags) =>
      (match Put(t.tags, replace, tags) case None => None case Some(v) => Some(t.(tags := v)))
    case PutExtension(replace, extension) =>
      (match Put(t.extension, replace, extension) case None => None case Some(v) => Some(t.(extension := v)))
    case PutOwners(replace, refs) =>
      (match Put(t.owners, replace, refs) case None => None case Some(v) => Some(t.(owners := v)))
    case PutDomains(replace, refs) =>
      (match Put(t.domains, replace, refs) case None => None case Some(v) => Some(t.(domains := v)))
    case PutProducts(replace, refs) =>
      (match Put(t.products, replace, refs) case None => None case Some(v) => Some(t.(products := v)))
    case PutColumnTags(_, _, _) =>
      if !t.columns.Has? then None
      else match ApplyColumn(t.columns.value, op) case None => None case Some(v) => Some(t.(columns := Has(v)))
  }

  // A patch is applied as a whole or not at all.
  function ApplyAll(t: Table, ops: seq<Op>): Option<Table>
    decreases |ops|
  {
    if ops == [] then Some(t)
    else match Apply(t, ops[0]) case None => None case Some(t') => ApplyAll(t', ops[1..])
  }

  // ----- building the patch -----

  function Entries(m: Member<map<string, Value>>): map<string, Value> {
    match m case Has(v) => v case _ => map[]
  }

  function Names(refs: seq<Ref>): set<string> {
    set r | r in refs :: r.name
  }

  function Missing(refs: seq<Ref>, names: set<string>): seq<Ref> {
    if refs == [] then []
    else (if refs[0].name in names then [] else [refs[0]]) + Missing(refs[1..], names)
  }

  function TagOps(t: Table, node: Node, m: Mapping): seq<Op> {
    [PutTags(Items(t.tags) != [], UnionTags(Items(t.tags), WantedTags(node, m)))]
  }

  function ExtensionOps(t: Table, node: Node): seq<Op> {
    var added := BuildExtension(node.meta);
    if added == map[] then [] else [PutExtension(Entries(t.extension) != map[], Entries(t.extension) + added)]
  }

  function OwnerOps(t: Table, node: Node, m: Mapping, d: Directory): seq<Op> {
    if Items(t.owners) != [] then []
    else match ResolveOwner(node, m, d) case None => [] case Some(owner) => [PutOwners(false, [owner])]
  }

  function NewDomains(t: Table, node: Node, m: Mapping, d: Directory): seq<Ref> {
    match ResolveDomain(node, m, d)
    case None => []
    case Some(domain) => if domain.name in Names(Items(t.domains)) then [] else [domain]
  }

  function NewProducts(t: Table, node: Node, m: Mapping, d: Directory): seq<Ref> {
    Missing(ResolveProducts(m.products, node.configTags, d), Names(Items(t.products)))
  }

  function DomainOps(t: Table, node: Node, m: Mapping, d: Directory): seq<Op> {
    var added := NewDomains(t, node, m, d);
    if added == [] then [] else [PutDomains(Items(t.domains) != [], Items(t.domains) + added)]
  }

  function ProductOps(t: Table, node: Node, m: Mapping, d: Directory): seq<Op> {
    var added := NewProducts(t, node, m, d);
    if added == [] then [] else [PutProducts(Items(t.products) != [], Items(t.products) + added)]
  }

  // The last column of that name, ignoring case.
  function IndexOf(columns: seq<Column>, name: string): Option<nat>
    decreases |columns|
  {
    if columns == [] then None
    else if Lower(columns[|columns| - 1].name) == name then Some(|columns| - 1)
    else IndexOf(columns[..|columns| - 1], name)
  }

  function WithTag(tags: seq<Tag>, fqn: string): seq<Tag> {
    tags + [Label(fqn, "Classification")]
  }

  function ColumnOp(columns: seq<Column>, name: string, m: Mapping): seq<Op> {
    match IndexOf(columns, Lower(name))
    case None => []
    case Some(i) =>
      var fqn := Get(m.pii, Lower(name));
      if i >= |columns| || fqn == "" || fqn in Fqns(Items(columns[i].tags)) then []
      else [PutColumnTags(Items(columns[i].tags) != [], i, WithTag(Items(columns[i].tags), fqn))]
  }

  function ColumnOps(columns: seq<Column>, names: seq<string>, m: Mapping): seq<Op> {
    if names == [] then [] else ColumnOp(columns, names[0], m) + ColumnOps(columns, names[1..], m)
  }

  // Column names, ignoring case, with the last index of each.
  method ColumnIndex(columns: seq<Column>) returns (index: map<string, nat>)
    ensures forall n :: IndexOf(columns, n) == if n in index then Some(index[n]) else None
  {
    index := map[];
    for k := 0 to |columns|
      invariant forall n :: IndexOf(columns[..k], n) == if n in index then Some(index[n]) else None
    {
      assert columns[..k + 1][..k] == columns[..k];
      index := index[Lower(columns[k].name) := k];
    }
    assert columns[..|columns|] == columns;
  }

  lemma ColumnOpsStep(columns: seq<Column>, names: seq<string>, m: Mapping, k: nat, ops: seq<Op>)
    requires k < |names|
    ensures ops + ColumnOps(columns, names[k..], m) ==
      (ops + ColumnOp(columns, names[k], m)) + ColumnOps(columns, names[k + 1..], m)
  {
    assert names[k..][1..] == names[k + 1..];
  }

  method BuildColumnPatches(columns: seq<Column>, names: seq<string>, m: Mapping) returns (ops: seq<Op>)
    ensures ops == ColumnOps(columns, names, m)
  {
    var index := ColumnIndex(columns);
    ops := [];
    assert names[0..] == names;
    for k := 0 to |names|
      invariant ops + ColumnOps(columns, names[k..], m) == ColumnOps(columns, names, m)
    {
      ColumnOpsStep(columns, names, m, k, ops);
      var name := Lower(names[k]);
      assert IndexOf(columns, name) == if name in index then Some(index[name]) else None;
      ghost var step := ColumnOp(columns, names[k], m);
      ghost var before := ops;
      if name in index && index[name] < |columns| {
        var fqn, existing := Get(m.pii, name), Items(columns[index[name]].tags);
        if fqn != "" && fqn !in Fqns(existing) {
          ops := ops + [PutColumnTags(existing != [], index[name], WithTag(existing, fqn))];
        }
      }
      assert ops == before + step;
    }
  }

  function BuildOps(t: Table, node: Node, m: Mapping, d: Directory): seq<Op> {
    TagOps(t, node, m) + ExtensionOps(t, node) + OwnerOps(t, node, m, d) + DomainOps(t, node, m, d)
    + ProductOps(t, node, m, d) + ColumnOps(Items(t.columns), node.meta.piiColumns, m)
  }

  // ----- what enrichment means, without patches -----

  function EnrichedColumn(columns: seq<Column>, i: nat, names: seq<string>, m: Mapping): Column
    requires i < |columns|
  {
    var name := Lower(columns[i].name);
    var fqn := Get(m.pii, name);
    if name in Lowered(names) && IndexOf(columns, name) == Some(i) && fqn != "" && fqn !in Fqns(Items(columns[i].tags))
    then columns[i].(tags := Has(WithTag(Items(columns[i].tags), fqn)))
    else columns[i]
  }

  function EnrichedColumns(columns: seq<Column>, names: seq<string>, m: Mapping): (r: seq<Column>)
    ensures |r| == |columns|
  {
    seq(|columns|, i requires 0 <= i < |columns| => EnrichedColumn(columns, i, names, m))
  }

  function Extended(refs: Member<seq<Ref>>, added: seq<Ref>): Member<seq<Ref>> {
    if added == [] then refs else Has(Items(refs) + added)
  }

  function Enriched(t: Table, node: Node, m: Mapping, d: Directory): Table {
    var extension := BuildExtension(node.meta);
    Table(t.fqn,
          Has(UnionTags(Items(t.tags), WantedTags(node, m))),
          if extension == map[] then t.extension else Has(Entries(t.extension) + extension),
          if Items(t.owners) != [] || ResolveOwner(node, m, d).None? then t.owners
            else Has([ResolveOwner(node, m, d).value]),
          Extended(t.domains, NewDomains(t, node, m, d)),
          Extended(t.products, NewProducts(t, node, m, d)),
          if t.columns.Has? then Has(EnrichedColumns(t.columns.value, node.meta.piiColumns, m)) else t.columns)
  }

  // ----- applying the patch -----

  lemma {:induction false} ApplyConcat(t: Table, a: seq<Op>, b: seq<Op>)
    ensures ApplyAll(t, a + b) == match ApplyAll(t, a) case None => None case Some(t') => ApplyAll(t', b)
    decreases |a|
  {
    if a == [] {
      assert a + b == b;
    } else {
      assert (a + b)[1..] == a[1..] + b;
      match Apply(t, a[0])
      case None =>
      case Some(t') => ApplyConcat(t', a[1..], b);
    }
  }

  lemma ApplyOne(t: Table, op: Op)
    ensures ApplyAll(t, [op]) == Apply(t, op)
  {
    match Apply(t, op)
    case None =>
    case Some(t') => assert [op][1..] == [];
  }

  lemma {:induction false} IndexIsRight(columns: seq<Column>, name: string)
    ensures match IndexOf(columns, name)
      case Some(i) => i < |columns| && Lower(columns[i].name) == name
      case None => forall i :: 0 <= i < |columns| ==> Lower(columns[i].name) != name
    decreases |columns|
  {
    if columns != [] && Lower(columns[|columns| - 1].name) != name {
      IndexIsRight(columns[..|columns| - 1], name);
    }
  }

  lemma LoweredMember(names: seq<string>, name: string)
    ensures name in Lowered(names) <==> exists n :: n in names && Lower(n) == name
  {
    if n :| n in names && Lower(n) == name {
      var i :| 0 <= i < |names| && names[i] == n;
      assert Lowered(names)[i] == name;
    }
  }

  lemma {:induction false} ApplyColumnOps(t: Table, columns: seq<Column>, done: seq<string>, names: seq<string>,
                                          m: Mapping)
    requires t.columns == Has(EnrichedColumns(columns, done, m))
    ensures ApplyAll(t, ColumnOps(columns, names, m))
      == Some(t.(columns := Has(EnrichedColumns(columns, done + names, m))))
    decreases |names|
  {
    if names == [] {
      assert done + names == done;
    } else {
      var op := ColumnOp(columns, names[0], m);
      var t' := t.(columns := Has(EnrichedColumns(columns, done + [names[0]], m)));
      ApplyColumnOp(t, columns, done, names[0], m);
      ApplyConcat(t, op, ColumnOps(columns, names[1..], m));
      ApplyColumnOps(t', columns, done + [names[0]], names[1..], m);
      Regroup(done, [names[0]], names[1..]);
      assert [names[0]] + names[1..] == names;
    }
  }

  // One name more concerns at most the column it means.
  lemma OneNameMore(columns: seq<Column>, done: seq<string>, name: string, m: Mapping, i: nat)
    requires i < |columns| && IndexOf(columns, Lower(name)) != Some(i)
    ensures EnrichedColumn(columns, i, done + [name], m) == EnrichedColumn(columns, i, done, m)
  {
    IndexIsRight(columns, Lower(name));
    LoweredMember(done, Lower(columns[i].name));
    LoweredMember(done + [name], Lower(columns[i].name));
  }

  lemma NamedColumn(columns: seq<Column>, done: seq<string>, name: string, m: Mapping, i: nat)
    requires IndexOf(columns, Lower(name)) == Some(i)
    ensures i < |columns|
    ensures var before, after := EnrichedColumn(columns, i, done, m), EnrichedColumn(columns, i, done + [name], m);
      var ops := ColumnOp(columns, name, m);
      if ops == [] then after == before
      else ops == [PutColumnTags(Items(columns[i].tags) != [], i, Items(after.tags))]
           && after == columns[i].(tags := Has(Items(after.tags)))
  {
    IndexIsRight(columns, Lower(name));
    LoweredMember(done, Lower(name));
    LoweredMember(done + [name], Lower(name));
    assert name in done + [name];
  }

  lemma ApplyColumnOp(t: Table, columns: seq<Column>, done: seq<string>, name: string, m: Mapping)
    requires t.columns == Has(EnrichedColumns(columns, done, m))
    ensures ApplyAll(t, ColumnOp(columns, name, m))
      == Some(t.(columns := Has(EnrichedColumns(columns, done + [name], m))))
  {
    var before, after := EnrichedColumns(columns, done, m), EnrichedColumns(columns, done + [name], m);
    forall i | 0 <= i < |columns| && IndexOf(columns, Lower(name)) != Some(i) ensures after[i] == before[i] {
      OneNameMore(columns, done, name, m, i);
    }
    if IndexOf(columns, Lower(name)).Some? {
      var i := IndexOf(columns, Lower(name)).value;
      NamedColumn(columns, done, name, m, i);
      if ColumnOp(columns, name, m) == [] {
        assert after == before;
      } else {
        ApplyOne(t, ColumnOp(columns, name, m)[0]);
        assert before[i := after[i]] == after;
      }
    } else {
      assert after == before;
    }
  }

  // The groups of operations touch different members, so each finds its own untouched.
  lemma TagStep(t: Table, node: Node, m: Mapping)
    ensures ApplyAll(t, TagOps(t, node, m)) == Some(t.(tags := Has(UnionTags(Items(t.tags), WantedTags(node, m)))))
  {
    ApplyOne(t, TagOps(t, node, m)[0]);
  }

  lemma ExtensionStep(t: Table, now: Table, node: Node)
    requires now.extension == t.extension
    ensures var added := BuildExtension(node.meta);
      ApplyAll(now, ExtensionOps(t, node)) ==
        Some(now.(extension := if added == map[] then t.extension else Has(Entries(t.extension) + added)))
  {
    if ExtensionOps(t, node) != [] {
      ApplyOne(now, ExtensionOps(t, node)[0]);
    }
  }

  lemma OwnerStep(t: Table, now: Table, node: Node, m: Mapping, d: Directory)
    requires now.owners == t.owners
    ensures ApplyAll(now, OwnerOps(t, node, m, d)) == Some(now.(owners := Enriched(t, node, m, d).owners))
  {
    if OwnerOps(t, node, m, d) != [] {
      ApplyOne(now, OwnerOps(t, node, m, d)[0]);
    }
  }

  lemma DomainStep(t: Table, now: Table, node: Node, m: Mapping, d: Directory)
    requires now.domains == t.domains
    ensures ApplyAll(now, DomainOps(t, node, m, d)) == Some(now.(domains := Enriched(t, node, m, d).domains))
  {
    if DomainOps(t, node, m, d) != [] {
      ApplyOne(now, DomainOps(t, node, m, d)[0]);
    }
  }

  lemma ProductStep(t: Table, now: Table, node: Node, m: Mapping, d: Directory)
    requires now.products == t.products
    ensures ApplyAll(now, ProductOps(t, node, m, d)) == Some(now.(products := Enriched(t, node, m, d).products))
  {
    if ProductOps(t, node, m, d) != [] {
      ApplyOne(now, ProductOps(t, node, m, d)[0]);
    }
  }

  lemma {:induction false} NoColumnsNoOps(names: seq<string>, m: Mapping)
    ensures ColumnOps([], names, m) == []
  {
    if names != [] {
      NoColumnsNoOps(names[1..], m);
    }
  }

  lemma ColumnStep(t: Table, now: Table, node: Node, m: Mapping, d: Directory)
    requires now.columns == t.columns
    ensures ApplyAll(now, ColumnOps(Items(t.columns), node.meta.piiColumns, m)) ==
      Some(now.(columns := Enriched(t, node, m, d).columns))
  {
    if t.columns.Has? {
      var columns := t.columns.value;
      assert EnrichedColumns(columns, [], m) == columns;
      ApplyColumnOps(now, columns, [], node.meta.piiColumns, m);
      assert [] + node.meta.piiColumns == node.meta.piiColumns;
    } else {
      NoColumnsNoOps(node.meta.piiColumns, m);
    }
  }

  // ----- main results -----

  /** The generated patch always applies: every `replace` meets an existing member and every
      column index exists. What it makes of the table is the enrichment stated directly. */
  lemma PatchEnriches(t: Table, node: Node, m: Mapping, d: Directory)
    ensures ApplyAll(t, BuildOps(t, node, m, d)) == Some(Enriched(t, node, m, d))
  {
    var e := Enriched(t, node, m, d);
    var t1 := t.(tags := e.tags);
    var t2 := t1.(extension := e.extension);
    var t3 := t2.(owners := e.owners);
    var t4 := t3.(domains := e.domains);
    var t5 := t4.(products := e.products);
    TagStep(t, node, m);
    ExtensionStep(t, t1, node);
    OwnerStep(t, t2, node, m, d);
    DomainStep(t, t3, node, m, d);
    ProductStep(t, t4, node, m, d);
    ColumnStep(t, t5, node, m, d);
    var o1 := TagOps(t, node, m);
    var o2 := o1 + ExtensionOps(t, node);
    var o3 := o2 + OwnerOps(t, node, m, d);
    var o4 := o3 + DomainOps(t, node, m, d);
    var o5 := o4 + ProductOps(t, node, m, d);
    ApplyConcat(t, o1, ExtensionOps(t, node));
    ApplyConcat(t, o2, OwnerOps(t, node, m, d));
    ApplyConcat(t, o3, DomainOps(t, node, m, d));
    ApplyConcat(t, o4, ProductOps(t, node, m, d));
    ApplyConcat(t, o5, ColumnOps(Items(t.columns), node.meta.piiColumns, m));
    assert t5.(columns := e.columns) == e;
  }

  // The operation replaces the member exactly when the table has something there.
  predicate FlagRight(t: Table, op: Op) {
    match op
    case PutTags(replace, _) => replace == (Items(t.tags) != [])
    case PutExtension(replace, _) => replace == (Entries(t.extension) != map[])
    case PutOwners(replace, _) => !replace && Items(t.owners) == []
    case PutDomains(replace, _) => replace == (Items(t.domains) != [])
    case PutProducts(replace, _) => replace == (Items(t.products) != [])
    case PutColumnTags(replace, i, _) =>
      i < |Items(t.columns)| && replace == (Items(Items(t.columns)[i].tags) != [])
  }

  lemma {:induction false} ColumnFlags(t: Table, names: seq<string>, m: Mapping)
    ensures forall op :: op in ColumnOps(Items(t.columns), names, m) ==> op.PutColumnTags? && FlagRight(t, op)
  {
    if names != [] {
      ColumnFlags(t, names[1..], m);
    }
  }

  lemma AnyOfSix<T>(x: T, a: seq<T>, b: seq<T>, c: seq<T>, d: seq<T>, e: seq<T>, f: seq<T>)
    ensures x in a + b + c + d + e + f <==> x in a || x in b || x in c || x in d || x in e || x in f
  {
  }

  // Which group an operation of the patch is from.
  lemma FromGroup(t: Table, node: Node, m: Mapping, d: Directory, op: Op)
    ensures op in BuildOps(t, node, m, d) <==>
      match op
      case PutTags(_, _) => op in TagOps(t, node, m)
      case PutExtension(_, _) => op in ExtensionOps(t, node)
      case PutOwners(_, _) => op in OwnerOps(t, node, m, d)
      case PutDomains(_, _) => op in DomainOps(t, node, m, d)
      case PutProducts(_, _) => op in ProductOps(t, node, m, d)
      case PutColumnTags(_, _, _) => op in ColumnOps(Items(t.columns), node.meta.piiColumns, m)
  {
    ColumnFlags(t, node.meta.piiColumns, m);
    AnyOfSix(op, TagOps(t, node, m), ExtensionOps(t, node), OwnerOps(t, node, m, d), DomainOps(t, node, m, d),
             ProductOps(t, node, m, d), ColumnOps(Items(t.columns), node.meta.piiColumns, m));
  }

  /** The patch says `replace` for what the table has and `add` for what it has not. */
  lemma PatchFlags(t: Table, node: Node, m: Mapping, d: Directory, op: Op)
    requires op in BuildOps(t, node, m, d)
    ensures FlagRight(t, op)
  {
    FromGroup(t, node, m, d, op);
    ColumnFlags(t, node.meta.piiColumns, m);
  }

  /** The patch holds an operation on extension, owners, domains or products exactly if there is
      something to change: for the extension any value of the model, for the others a longer list. */
  lemma PatchParts(t: Table, node: Node, m: Mapping, d: Directory)
    ensures var ops, e := BuildOps(t, node, m, d), Enriched(t, node, m, d);
      && ((exists op :: op in ops && op.PutExtension?) <==> BuildExtension(node.meta) != map[])
      && ((exists op :: op in ops && op.PutOwners?) <==> |Items(e.owners)| > |Items(t.owners)|)
      && ((exists op :: op in ops && op.PutDomains?) <==> |Items(e.domains)| > |Items(t.domains)|)
      && ((exists op :: op in ops && op.PutProducts?) <==> |Items(e.products)| > |Items(t.products)|)
  {
    HasExtension(t, node, m, d);
    HasOwners(t, node, m, d);
    MoreOwners(t, node, m, d);
    HasDomains(t, node, m, d);
    MoreDomains(t, node, m, d);
    HasProducts(t, node, m, d);
    MoreProducts(t, node, m, d);
  }

  lemma HasExtension(t: Table, node: Node, m: Mapping, d: Directory)
    ensures (exists op :: op in BuildOps(t, node, m, d) && op.PutExtension?) <==> BuildExtension(node.meta) != map[]
  {
    if op :| op in BuildOps(t, node, m, d) && op.PutExtension? {
      FromGroup(t, node, m, d, op);
    }
    if BuildExtension(node.meta) != map[] {
      FromGroup(t, node, m, d, ExtensionOps(t, node)[0]);
    }
  }

  lemma HasOwners(t: Table, node: Node, m: Mapping, d: Directory)
    ensures (exists op :: op in BuildOps(t, node, m, d) && op.PutOwners?) <==> OwnerOps(t, node, m, d) != []
  {
    if op :| op in BuildOps(t, node, m, d) && op.PutOwners? {
      FromGroup(t, node, m, d, op);
    }
    if OwnerOps(t, node, m, d) != [] {
      FromGroup(t, node, m, d, OwnerOps(t, node, m, d)[0]);
    }
  }

  lemma MoreOwners(t: Table, node: Node, m: Mapping, d: Directory)
    ensures OwnerOps(t, node, m, d) != [] <==> |Items(Enriched(t, node, m, d).owners)| > |Items(t.owners)|
  {
  }

  lemma HasDomains(t: Table, node: Node, m: Mapping, d: Directory)
    ensures (exists op :: op in BuildOps(t, node, m, d) && op.PutDomains?) <==> DomainOps(t, node, m, d) != []
  {
    if op :| op in BuildOps(t, node, m, d) && op.PutDomains? {
      FromGroup(t, node, m, d, op);
    }
    if DomainOps(t, node, m, d) != [] {
      FromGroup(t, node, m, d, DomainOps(t, node, m, d)[0]);
    }
  }

  lemma MoreDomains(t: Table, node: Node, m: Mapping, d: Directory)
    ensures DomainOps(t, node, m, d) != [] <==> |Items(Enriched(t, node, m, d).domains)| > |Items(t.domains)|
  {
  }

  lemma HasProducts(t: Table, node: Node, m: Mapping, d: Directory)
    ensures (exists op :: op in BuildOps(t, node, m, d) && op.PutProducts?) <==> ProductOps(t, node, m, d) != []
  {
    if op :| op in BuildOps(t, node, m, d) && op.PutProducts? {
      FromGroup(t, node, m, d, op);
    }
    if ProductOps(t, node, m, d) != [] {
      FromGroup(t, node, m, d, ProductOps(t, node, m, d)[0]);
    }
  }

  lemma MoreProducts(t: Table, node: Node, m: Mapping, d: Directory)
    ensures ProductOps(t, node, m, d) != [] <==> |Items(Enriched(t, node, m, d).products)| > |Items(t.products)|
  {
  }

  lemma {:induction false} MissingRefs(refs: seq<Ref>, names: set<string>)
    ensures forall r :: r in Missing(refs, names) <==> r in refs && r.name !in names
  {
    if refs != [] {
      MissingRefs(refs[1..], names);
      assert refs == [refs[0]] + refs[1..];
    }
  }

  lemma NothingMissing(refs: seq<Ref>, names: set<string>)
    requires forall r :: r in refs ==> r.name in names
    ensures Missing(refs, names) == []
  {
    MissingRefs(refs, names);
    if Missing(refs, names) != [] {
      assert Missing(refs, names)[0] in Missing(refs, names);
    }
  }

  lemma ProductsTwice(t: Table, node: Node, m: Mapping, d: Directory)
    ensures NewProducts(Enriched(t, node, m, d), node, m, d) == []
  {
    var wanted, once := ResolveProducts(m.products, node.configTags, d), Items(Enriched(t, node, m, d).products);
    var added := NewProducts(t, node, m, d);
    assert once == Items(t.products) + added;
    MissingRefs(wanted, Names(Items(t.products)));
    forall r | r in wanted ensures r.name in Names(once) {
      if r.name !in Names(Items(t.products)) {
        assert r in added;
        assert r in once;
      } else {
        var q :| q in Items(t.products) && q.name == r.name;
        assert q in once;
      }
    }
    NothingMissing(wanted, Names(once));
  }

  lemma DomainsTwice(t: Table, node: Node, m: Mapping, d: Directory)
    ensures NewDomains(Enriched(t, node, m, d), node, m, d) == []
  {
    var once := Items(Enriched(t, node, m, d).domains);
    assert once == Items(t.domains) + NewDomains(t, node, m, d);
    if r :| r in Items(t.domains) && ResolveDomain(node, m, d).Some? && r.name == ResolveDomain(node, m, d).value.name {
      assert r in once;
    } else if ResolveDomain(node, m, d).Some? {
      assert ResolveDomain(node, m, d).value in once;
    }
  }

  lemma {:induction false} SameNamesSameIndex(a: seq<Column>, b: seq<Column>, name: string)
    requires |a| == |b| && forall i :: 0 <= i < |a| ==> a[i].name == b[i].name
    ensures IndexOf(a, name) == IndexOf(b, name)
    decreases |a|
  {
    if a != [] {
      SameNamesSameIndex(a[..|a| - 1], b[..|b| - 1], name);
    }
  }

  lemma ColumnsTwice(columns: seq<Column>, names: seq<string>, m: Mapping)
    ensures var once := EnrichedColumns(columns, names, m); EnrichedColumns(once, names, m) == once
  {
    var once := EnrichedColumns(columns, names, m);
    forall i | 0 <= i < |once| ensures EnrichedColumn(once, i, names, m) == once[i] {
      SameNamesSameIndex(once, columns, Lower(columns[i].name));
      if once[i] != columns[i] {
        FqnsConcat(Items(columns[i].tags), [Label(Get(m.pii, Lower(columns[i].name)), "Classification")]);
      }
    }
  }

  lemma TagsTwice(t: Table, node: Node, m: Mapping, d: Directory)
    ensures var once := Enriched(t, node, m, d); Enriched(once, node, m, d).tags == once.tags
  {
    UnionTagsUnites(Items(t.tags), WantedTags(node, m));
  }

  lemma ExtensionTwice(t: Table, node: Node, m: Mapping, d: Directory)
    ensures var once := Enriched(t, node, m, d); Enriched(once, node, m, d).extension == once.extension
  {
    var added := BuildExtension(node.meta);
    assert Entries(t.extension) + added + added == Entries(t.extension) + added;
  }

  lemma TableColumnsTwice(t: Table, node: Node, m: Mapping, d: Directory)
    ensures var once := Enriched(t, node, m, d); Enriched(once, node, m, d).columns == once.columns
  {
    if t.columns.Has? {
      ColumnsTwice(t.columns.value, node.meta.piiColumns, m);
    }
  }

  lemma EnrichedTwice(t: Table, node: Node, m: Mapping, d: Directory)
    ensures var once := Enriched(t, node, m, d); Enriched(once, node, m, d) == once
  {
    TagsTwice(t, node, m, d);
    ExtensionTwice(t, node, m, d);
    DomainsTwice(t, node, m, d);
    ProductsTwice(t, node, m, d);
    TableColumnsTwice(t, node, m, d);
  }

  /** A second enrichment by the same node leaves the table as it is. */
  lemma EnrichIsIdempotent(t: Table, node: Node, m: Mapping, d: Directory)
    ensures var once := Enriched(t, node, m, d); ApplyAll(once, BuildOps(once, node, m, d)) == Some(once)
  {
    PatchEnriches(Enriched(t, node, m, d), node, m, d);
    EnrichedTwice(t, node, m, d);
  }

  /** Enrichment takes no tag FQN away, adds all it wants, and leaves none double. */
  lemma EnrichKeepsTags(t: Table, node: Node, m: Mapping, d: Directory)
    ensures var e := Enriched(t, node, m, d);
      Fqns(Items(e.tags)) == Fqns(Items(t.tags)) + Wanted(WantedTags(node, m)) && DistinctFqns(Items(e.tags))
  {
    UnionTagsUnites(Items(t.tags), WantedTags(node, m));
  }

  lemma MergeNothing(old': Member<map<string, Value>>, added: map<string, Value>)
    ensures Entries(if added == map[] then old' else Has(Entries(old') + added)) == Entries(old') + added
  {
    assert Entries(old') + map[] == Entries(old');
  }

  /** Extension keys it does not derive keep their value, and the derived ones are set. */
  lemma EnrichKeepsExtension(t: Table, node: Node, m: Mapping, d: Directory)
    ensures Entries(Enriched(t, node, m, d).extension) == Entries(t.extension) + BuildExtension(node.meta)
  {
    MergeNothing(t.extension, BuildExtension(node.meta));
  }

  /** Owners set by hand, domains and products stay, in their places. */
  lemma EnrichKeepsReferences(t: Table, node: Node, m: Mapping, d: Directory)
    ensures Items(t.owners) != [] ==> Enriched(t, node, m, d).owners == t.owners
    ensures Items(t.domains) <= Items(Enriched(t, node, m, d).domains)
    ensures Items(t.products) <= Items(Enriched(t, node, m, d).products)
  {
    assert Items(Enriched(t, node, m, d).domains) == Items(t.domains) + NewDomains(t, node, m, d);
    assert Items(Enriched(t, node, m, d).products) == Items(t.products) + NewProducts(t, node, m, d);
  }

  /** The domain and every data product the node resolves to are there afterwards. */
  lemma EnrichAddsReferences(t: Table, node: Node, m: Mapping, d: Directory)
    ensures var e := Enriched(t, node, m, d);
      && (forall r :: r in ResolveProducts(m.products, node.configTags, d) ==> r.name in Names(Items(e.products)))
      && (ResolveDomain(node, m, d).Some? ==> ResolveDomain(node, m, d).value.name in Names(Items(e.domains)))
  {
    var e := Enriched(t, node, m, d);
    DomainsTwice(t, node, m, d);
    ProductsTwice(t, node, m, d);
    var wanted, names := ResolveProducts(m.products, node.configTags, d), Names(Items(e.products));
    MissingRefs(wanted, names);
    assert Missing(wanted, names) == [];
  }

  lemma EnrichedColumnIs(t: Table, node: Node, m: Mapping, d: Directory, i: nat)
    requires i < |Items(t.columns)|
    ensures var columns := Items(Enriched(t, node, m, d).columns);
      && |columns| == |Items(t.columns)|
      && columns[i] == EnrichedColumn(Items(t.columns), i, node.meta.piiColumns, m)
  {
  }

  /** No column changes its place or name, or loses a tag. */
  lemma EnrichKeepsColumns(t: Table, node: Node, m: Mapping, d: Directory, i: nat)
    requires i < |Items(t.columns)|
    ensures var columns := Items(Enriched(t, node, m, d).columns);
      && |columns| == |Items(t.columns)| && columns[i].name == Items(t.columns)[i].name
      && Items(Items(t.columns)[i].tags) <= Items(columns[i].tags)
  {
    EnrichedColumnIs(t, node, m, d, i);
  }

  lemma PiiTag(columns: seq<Column>, names: seq<string>, m: Mapping, name: string, i: nat)
    requires name in names && Get(m.pii, Lower(name)) != "" && IndexOf(columns, Lower(name)) == Some(i)
    ensures i < |columns| && Lower(columns[i].name) == Lower(name)
    ensures Get(m.pii, Lower(name)) in Fqns(Items(EnrichedColumn(columns, i, names, m).tags))
  {
    IndexIsRight(columns, Lower(name));
    LoweredMember(names, Lower(name));
    FqnsConcat(Items(columns[i].tags), [Label(Get(m.pii, Lower(name)), "Classification")]);
  }

  /** A PII column named in the metadata, in any case, carries its mapped tag afterwards. */
  lemma PiiColumnIsTagged(t: Table, node: Node, m: Mapping, d: Directory, name: string)
    requires name in node.meta.piiColumns && Get(m.pii, Lower(name)) != ""
    requires IndexOf(Items(t.columns), Lower(name)).Some?
    ensures exists c :: c in Items(Enriched(t, node, m, d).columns) &&
              Lower(c.name) == Lower(name) && Get(m.pii, Lower(name)) in Fqns(Items(c.tags))
  {
    var i := IndexOf(Items(t.columns), Lower(name)).value;
    PiiTag(Items(t.columns), node.meta.piiColumns, m, name, i);
    EnrichedColumnIs(t, node, m, d, i);
    EnrichKeepsColumns(t, node, m, d, i);
    var c := Items(Enriched(t, node, m, d).columns)[i];
    assert c in Items(Enriched(t, node, m, d).columns);
  }

  predicate DistinctNames(refs: seq<Ref>) {
    forall i, j :: 0 <= i < j < |refs| ==> refs[i].name != refs[j].name
  }

  // The product of the mapping is added: its tag is one of the node's, the directory has it,
  // and the table has none of that name yet.
  predicate Adds(p: Product, configTags: seq<string>, d: Directory, names: set<string>) {
    p.dbtTag != "" && Lower(p.dbtTag) in Lowered(configTags) && p.name in d.products && p.name !in names
  }

  predicate NoClash(products: seq<Product>, configTags: seq<string>, d: Directory, names: set<string>) {
    forall i, j :: 0 <= i < j < |products| && products[i].name == products[j].name ==>
      !(Adds(products[i], configTags, d, names) && Adds(products[j], configTags, d, names))
  }

  function Added(products: seq<Product>, configTags: seq<string>, d: Directory, names: set<string>): seq<Ref> {
    Missing(ResolveProducts(products, configTags, d), names)
  }

  lemma AddedFirst(products: seq<Product>, configTags: seq<string>, d: Directory, names: set<string>)
    requires products != []
    ensures var p, rest := products[0], Added(products[1..], configTags, d, names);
      Added(products, configTags, d, names) ==
        if Adds(p, configTags, d, names) then [Ref(d.products[p.name], "dataProduct", p.name)] + rest else rest
  {
    var p, rest := products[0], ResolveProducts(products[1..], configTags, d);
    if p.dbtTag != "" && Lower(p.dbtTag) in Lowered(configTags) && p.name in d.products {
      assert ([Ref(d.products[p.name], "dataProduct", p.name)] + rest)[1..] == rest;
    } else {
      assert [] + rest == rest;
    }
  }

  // The names that are added.
  lemma {:induction false} AddedNames(products: seq<Product>, configTags: seq<string>, d: Directory,
                                      names: set<string>, name: string)
    ensures (exists r :: r in Added(products, configTags, d, names) && r.name == name)
      <==> (exists i :: 0 <= i < |products| && Adds(products[i], configTags, d, names) && products[i].name == name)
  {
    if products != [] {
      AddedFirst(products, configTags, d, names);
      AddedNames(products[1..], configTags, d, names, name);
      var all, rest := Added(products, configTags, d, names), Added(products[1..], configTags, d, names);
      if r :| r in all && r.name == name && r !in rest {
        assert Adds(products[0], configTags, d, names) && products[0].name == name;
      }
      if i :| 0 <= i < |products| && Adds(products[i], configTags, d, names) && products[i].name == name {
        if i > 0 {
          assert products[1..][i - 1] == products[i];
        } else {
          assert Added(products, configTags, d, names)[0].name == name;
          assert Added(products, configTags, d, names)[0] in Added(products, configTags, d, names);
        }
      }
      var later := products[1..];
      if i :| 0 <= i < |later| && Adds(later[i], configTags, d, names) && later[i].name == name {
        assert products[i + 1] == products[1..][i];
      }
    }
  }

  lemma DistinctCons(r: Ref, rest: seq<Ref>)
    ensures DistinctNames([r] + rest) <==> DistinctNames(rest) && forall q :: q in rest ==> q.name != r.name
  {
    var all := [r] + rest;
    assert all[0] == r && forall i :: 0 <= i < |rest| ==> all[i + 1] == rest[i];
    assert forall i :: 0 < i < |all| ==> all[i] == rest[i - 1];
    if DistinctNames(all) {
      forall q | q in rest ensures q.name != r.name {
        var k :| 0 <= k < |rest| && rest[k] == q;
        assert all[0].name != all[k + 1].name;
      }
      forall i, j | 0 <= i < j < |rest| ensures rest[i].name != rest[j].name {
        assert all[i + 1].name != all[j + 1].name;
      }
    }
  }

  lemma NoClashFirst(products: seq<Product>, configTags: seq<string>, d: Directory, names: set<string>)
    requires products != []
    ensures NoClash(products, configTags, d, names) <==>
      NoClash(products[1..], configTags, d, names) &&
      (Adds(products[0], configTags, d, names) ==>
        forall i :: 0 <= i < |products[1..]| && Adds(products[1..][i], configTags, d, names) ==>
          products[1..][i].name != products[0].name)
  {
    assert forall i :: 0 <= i < |products[1..]| ==> products[1..][i] == products[i + 1];
    assert forall i :: 0 < i < |products| ==> products[i] == products[1..][i - 1];
  }

  lemma {:induction false} AddedDistinctIff(products: seq<Product>, configTags: seq<string>, d: Directory,
                                            names: set<string>)
    ensures DistinctNames(Added(products, configTags, d, names)) <==> NoClash(products, configTags, d, names)
  {
    if products != [] {
      var p, rest := products[0], Added(products[1..], configTags, d, names);
      AddedFirst(products, configTags, d, names);
      AddedDistinctIff(products[1..], configTags, d, names);
      NoClashFirst(products, configTags, d, names);
      if Adds(p, configTags, d, names) {
        DistinctCons(Ref(d.products[p.name], "dataProduct", p.name), rest);
        AddedNames(products[1..], configTags, d, names, p.name);
      }
    }
  }

  lemma DistinctAppend(old': seq<Ref>, added: seq<Ref>)
    requires forall r :: r in added ==> r.name !in Names(old')
    ensures DistinctNames(old' + added) <==> DistinctNames(old') && DistinctNames(added)
  {
    var all := old' + added;
    if DistinctNames(all) {
      assert forall i :: 0 <= i < |old'| ==> all[i] == old'[i];
      assert forall i :: 0 <= i < |added| ==> all[|old'| + i] == added[i];
    }
    if DistinctNames(old') && DistinctNames(added) {
      forall i, j | 0 <= i < j < |all| ensures all[i].name != all[j].name {
        if i < |old'| <= j {
          assert all[i] in old' && added[j - |old'|] in added;
        }
      }
    }
  }

  /** Data products are the one list that can get a name twice: it stays free of doubles
      exactly when it was, and no two products of the mapping share a name that the table does
      not have while both have a tag of the node and the directory knows the name. */
  lemma ProductsStayDistinctIff(t: Table, node: Node, m: Mapping, d: Directory)
    ensures DistinctNames(Items(Enriched(t, node, m, d).products)) <==>
      DistinctNames(Items(t.products)) && NoClash(m.products, node.configTags, d, Names(Items(t.products)))
  {
    var old', added := Items(t.products), NewProducts(t, node, m, d);
    assert Items(Enriched(t, node, m, d).products) == old' + added;
    MissingRefs(ResolveProducts(m.products, node.configTags, d), Names(old'));
    DistinctAppend(old', added);
    AddedDistinctIff(m.products, node.configTags, d, Names(old'));
  }
}
