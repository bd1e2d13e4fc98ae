/** Where a rewritten link leads: the new target of each branch of the hook, by the directories
    the old one resolves to. */
module LinkTargets {
  import opened Text
  import opened LinkRewriter

  // The directories and the name a target leads to, below docs if it leads there.
  function Below(pageDir: string, target: string): seq<string> {
    var stack := TargetStack(pageDir, target);
    if InDocs(pageDir, target) then stack[1..] else stack
  }

  // A path to docs itself counts only with its slash.
  predicate InDocs(pageDir: string, target: string) {
    var stack := TargetStack(pageDir, target);
    stack != [] && stack[0] == "docs" && (|stack| > 1 || EndsWithSlash(target))
  }

  predicate Relative(target: string) {
    target != "" && !IsAbsolute(target) && !StartsWith(target, "docs/")
  }

  lemma BelowIsStripped(pageDir: string, target: string)
    requires target != ""
    ensures Stripped(pageDir, target) == Print(Below(pageDir, target), EndsWithSlash(target))
    ensures AllOrdinary(Below(pageDir, target))
    ensures StartsWith(Normalise(Full(pageDir, target)), "docs/") <==> InDocs(pageDir, target)
  {
    var stack, slash := TargetStack(pageDir, target), EndsWithSlash(target);
    FullResolves(pageDir, target);
    FullEnds(pageDir, target);
    StacksAreOrdinary(pageDir, target);
    DocsPrefix(stack, slash);
    assert forall s :: s in Below(pageDir, target) ==> s in stack;
  }

  // The first directory, or the file, is one of the repository's own.
  predicate LeadsOut(pageDir: string, target: string) {
    Below(pageDir, target) != [] && Known(Below(pageDir, target)[0])
  }

  lemma LeadsOutIff(pageDir: string, target: string)
    requires target != ""
    ensures IsExternal(Stripped(pageDir, target)) <==> LeadsOut(pageDir, target)
  {
    BelowIsStripped(pageDir, target);
    PrintedResolves(Below(pageDir, target), EndsWithSlash(target));
    ExternalIff(Stripped(pageDir, target));
  }

  // ----- links to directories below docs -----

  predicate ToDirectory(pageDir: string, target: string) {
    EndsWithSlash(target) && '?' !in target && '#' !in target && InDocs(pageDir, target) && !LeadsOut(pageDir, target)
  }

  lemma ToDirectoryIff(pageDir: string, target: string)
    ensures DirectoryLink(pageDir, target) <==> ToDirectory(pageDir, target)
  {
    if target != "" {
      BelowIsStripped(pageDir, target);
      LeadsOutIff(pageDir, target);
    }
  }

  // ----- links to the security page -----

  predicate ToSecurity(pageDir: string, target: string) {
    Below(pageDir, target) == ["SECURITY.md"] && !EndsWithSlash(target)
  }

  lemma ToSecurityIff(pageDir: string, target: string)
    requires target != ""
    ensures Stripped(pageDir, target) == "SECURITY.md" <==> ToSecurity(pageDir, target)
  {
    var below := Below(pageDir, target);
    BelowIsStripped(pageDir, target);
    PrintedResolves(below, EndsWithSlash(target));
    OneSegment("SECURITY.md");
    assert [] + ["SECURITY.md"] == ["SECURITY.md"];
    assert "SECURITY.md"[10] == 'd' && |"SECURITY.md"| == 11;
  }

  // ----- links out of docs -----

  // The path without its fragment; the fragment starts at the first '#'.
  ghost predicate Fragment(path: string, before: string, fragment: string) {
    path == before + fragment && '#' !in before && (fragment == "" || fragment[0] == '#')
  }

  lemma {:induction false} PathOfIs(path: string, before: string, fragment: string)
    requires Fragment(path, before, fragment)
    ensures PathOf(path) == before
    decreases |before|
  {
    if before == "" {
      assert path == fragment;
    } else {
      assert path[0] == before[0] && path[1..] == before[1..] + fragment;
      PathOfIs(path[1..], before[1..], fragment);
    }
  }

  // The parts joined by slashes, with one behind them if the target ended so.
  function Path(parts: seq<string>, slash: bool): string {
    Join(parts, '/') + if slash then "/" else ""
  }

  /** A link to a directory or file of the repository becomes the address of exactly that path
      on GitHub, as a tree if the path without its fragment ends in a slash and else as a blob. */
  lemma OutsideLink(pageDir: string, target: string, before: string, fragment: string)
    requires Relative(target) && LeadsOut(pageDir, target)
    requires Fragment(Path(Below(pageDir, target), EndsWithSlash(target)), before, fragment)
    ensures Rewrite(pageDir, target) ==
      "https://" + ("github.com/fresh-minds/FreshStackableDataPlatform/"
                    + (if EndsWithSlash(before) then "tree/main/" else "blob/main/"))
      + Path(Below(pageDir, target), EndsWithSlash(target))
  {
    BelowIsStripped(pageDir, target);
    LeadsOutIff(pageDir, target);
    ToDirectoryIff(pageDir, target);
    ToSecurityIff(pageDir, target);
    KnownNames(Below(pageDir, target)[0]);
    PathOfIs(Stripped(pageDir, target), before, fragment);
  }

  lemma {:induction false} HasFragment(path: string) returns (before: string, fragment: string)
    ensures Fragment(path, before, fragment)
  {
    if path == "" || path[0] == '#' {
      before, fragment := "", path;
    } else {
      var b, f := HasFragment(path[1..]);
      before, fragment := [path[0]] + b, f;
    }
  }

  // The address of a path.
  lemma AddressIs(pageDir: string, target: string) returns (tree: bool)
    requires Relative(target) && LeadsOut(pageDir, target)
    ensures var path := Path(Below(pageDir, target), EndsWithSlash(target));
      && Rewrite(pageDir, target) == (if tree then REPO_TREE else REPO_BLOB) + path
      && tree == EndsWithSlash(PathOf(path))
  {
    var before, fragment := HasFragment(Path(Below(pageDir, target), EndsWithSlash(target)));
    OutsideLink(pageDir, target, before, fragment);
    PathOfIs(Path(Below(pageDir, target), EndsWithSlash(target)), before, fragment);
    tree := EndsWithSlash(before);
  }

  /** Two links out of docs get one address exactly when they lead to one path. */
  lemma OneAddressIff(pageDir: string, target: string, otherDir: string, other: string)
    requires Relative(target) && LeadsOut(pageDir, target) && Relative(other) && LeadsOut(otherDir, other)
    ensures Rewrite(pageDir, target) == Rewrite(otherDir, other) <==>
      Below(pageDir, target) == Below(otherDir, other) && EndsWithSlash(target) == EndsWithSlash(other)
  {
    var tree := AddressIs(pageDir, target);
    var tree' := AddressIs(otherDir, other);
    BaseThenPath(tree, Path(Below(pageDir, target), EndsWithSlash(target)),
                 tree', Path(Below(otherDir, other), EndsWithSlash(other)));
    BelowIsStripped(pageDir, target);
    BelowIsStripped(otherDir, other);
    OnePath(Below(pageDir, target), EndsWithSlash(target), Below(otherDir, other), EndsWithSlash(other));
  }

  lemma OnePath(parts: seq<string>, slash: bool, others: seq<string>, slash': bool)
    requires AllOrdinary(parts) && AllOrdinary(others) && parts != [] && others != []
    ensures Path(parts, slash) == Path(others, slash') <==> parts == others && slash == slash'
  {
    PrintedResolves(parts, slash);
    PrintedResolves(others, slash');
    assert Path(parts, slash) == Print(parts, slash) && Path(others, slash') == Print(others, slash');
  }

  lemma OneBase(tree: bool, a: string, b: string)
    ensures var base := if tree then REPO_TREE else REPO_BLOB; base + a == base + b <==> a == b
  {
    var base := if tree then REPO_TREE else REPO_BLOB;
    assert (base + a)[|base|..] == a && (base + b)[|base|..] == b;
  }

  lemma TwoBases(a: string, b: string)
    ensures REPO_TREE + a != REPO_BLOB + b
  {
    var front := "https://" + REPO;
    assert REPO_TREE + a == front + ("tree/main/" + a) && REPO_BLOB + b == front + ("blob/main/" + b);
    assert (front + ("tree/main/" + a))[|front|] == 't' && (front + ("blob/main/" + b))[|front|] == 'b';
  }

  lemma BaseThenPath(tree: bool, a: string, tree': bool, b: string)
    ensures (if tree then REPO_TREE else REPO_BLOB) + a == (if tree' then REPO_TREE else REPO_BLOB) + b
      <==> tree == tree' && a == b
  {
    OneBase(tree, a, b);
    TwoBases(a, b);
    TwoBases(b, a);
  }

  // ----- all links together -----

  // The parts of the link to the rendered security page: up to docs, and down to the page.
  function SecurityParts(pageDir: string): seq<string> {
    seq(|DirSegments(pageDir)|, _ => "..") + ["security.md"]
  }

  /** What becomes of a relative link that does not start with docs/: a directory below docs
      gets its index page, a link to SECURITY.md goes up from the page and down to the rendered
      one, a link out of docs becomes an address, and every other link stays as it is. */
  lemma WhereLinksLead(pageDir: string, target: string)
    requires Relative(target)
    ensures var new' := Rewrite(pageDir, target);
      if ToDirectory(pageDir, target) then
        new' == target + "index.md" && TargetStack(pageDir, new') == TargetStack(pageDir, target) + ["index.md"]
      else if ToSecurity(pageDir, target) then Split(new', '/') == SecurityParts(pageDir)
      else if LeadsOut(pageDir, target) then IsAbsolute(new')
      else new' == target
  {
    BelowIsStripped(pageDir, target);
    LeadsOutIff(pageDir, target);
    ToDirectoryIff(pageDir, target);
    ToSecurityIff(pageDir, target);
    if ToDirectory(pageDir, target) {
      IndexStack(pageDir, target);
    } else if ToSecurity(pageDir, target) {
      SecurityGoesUp(pageDir);
    } else if LeadsOut(pageDir, target) {
      UrlIsAbsolute(Stripped(pageDir, target));
    }
  }

  lemma SecurityGoesUp(pageDir: string)
    ensures Split(UpDirs(Depth(pageDir)) + "security.md", '/') == SecurityParts(pageDir)
  {
    UpSegments(Depth(pageDir), "security.md");
    if pageDir != "" {
      SegmentCount(pageDir);
    }
  }
}
