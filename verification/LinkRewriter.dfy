/** The MkDocs hook: path normalisation, and rewriting of one link target. */
module LinkRewriter {
  import opened Text

  // ----- path normalisation -----

  // What one segment does to the stack of directories.
  function Walk(stack: seq<string>, segment: string): seq<string> {
    if segment == ".." then (if stack == [] then [] else stack[..|stack| - 1])
    else if segment == "" || segment == "." then stack
    else stack + [segment]
  }

  /** Resolution of a path, clamped at the root. */
  function Resolve(stack: seq<string>, segments: seq<string>): seq<string>
    decreases |segments|
  {
    if segments == [] then stack else Resolve(Walk(stack, segments[0]), segments[1..])
  }

  predicate EndsWithSlash(path: string) {
    path != "" && path[|path| - 1] == '/'
  }

  function Print(parts: seq<string>, slash: bool): string {
    Join(parts, '/') + if slash && parts != [] then "/" else ""
  }

  function Normalise(path: string): string {
    Print(Resolve([], Split(path, '/')), EndsWithSlash(path))
  }

  method NormaliseLoop(path: string) returns (r: string)
    ensures r == Normalise(path)
  {
    var parts: seq<string>, segments := [], Split(path, '/');
    var k := 0;
    while k < |segments|
      invariant 0 <= k <= |segments|
      invariant Resolve(parts, segments[k..]) == Resolve([], segments)
    {
      var segment := segments[k];
      assert segments[k..][1..] == segments[k + 1..];
      if segment == ".." {
        if parts != [] {
          parts := parts[..|parts| - 1];
        }
      } else if segment != "" && segment != "." {
        parts := parts + [segment];
      }
      k := k + 1;
    }
    var suffix := if EndsWithSlash(path) && parts != [] then "/" else "";
    r := Join(parts, '/') + suffix;
  }

  // A real name: what a segment of a normalised path is.
  predicate Ordinary(segment: string) {
    segment != "" && segment != "." && segment != ".." && '/' !in segment
  }

  predicate AllOrdinary(segments: seq<string>) {
    forall s :: s in segments ==> Ordinary(s)
  }

  lemma {:induction false} ResolveConcat(stack: seq<string>, a: seq<string>, b: seq<string>)
    ensures Resolve(stack, a + b) == Resolve(Resolve(stack, a), b)
    decreases |a|
  {
    if a == [] {
      assert a + b == b;
    } else {
      assert (a + b)[1..] == a[1..] + b;
      ResolveConcat(Walk(stack, a[0]), a[1..], b);
    }
  }

  lemma {:induction false} ResolveIsOrdinary(stack: seq<string>, segments: seq<string>)
    requires AllOrdinary(stack) && Free(segments, '/')
    ensures AllOrdinary(Resolve(stack, segments))
    decreases |segments|
  {
    if segments != [] {
      assert segments[0] in segments;
      ResolveIsOrdinary(Walk(stack, segments[0]), segments[1..]);
    }
  }

  lemma {:induction false} ResolveOrdinary(stack: seq<string>, segments: seq<string>)
    requires AllOrdinary(segments)
    ensures Resolve(stack, segments) == stack + segments
    decreases |segments|
  {
    if segments == [] {
      assert stack + segments == stack;
    } else {
      assert segments[0] in segments;
      ResolveOrdinary(stack + [segments[0]], segments[1..]);
      assert stack + [segments[0]] + segments[1..] == stack + segments;
    }
  }

  // The stack of a printed path.
  lemma PrintedResolves(parts: seq<string>, slash: bool)
    requires AllOrdinary(parts)
    ensures Resolve([], Split(Print(parts, slash), '/')) == parts
    ensures EndsWithSlash(Print(parts, slash)) <==> slash && parts != []
  {
    if parts == [] {
      assert Resolve([], [""]) == Resolve([], [""][1..]);
    } else {
      SplitJoin(parts, '/');
      ResolveOrdinary([], parts);
      assert [] + parts == parts;
      JoinOrdinary(parts);
      if slash {
        SplitConcat(Join(parts, '/'), "", '/');
        assert Join(parts, '/') + ['/'] + "" == Print(parts, slash);
        ResolveConcat([], parts, [""]);
        assert Resolve(parts, [""]) == Resolve(parts, [""][1..]);
      } else {
        assert Join(parts, '/') + "" == Join(parts, '/');
      }
    }
  }

  lemma {:induction false} JoinOrdinary(parts: seq<string>)
    requires AllOrdinary(parts) && parts != []
    ensures !EndsWithSlash(Join(parts, '/')) && Join(parts, '/') != ""
  {
    if |parts| == 1 {
      assert parts[0] in parts;
    } else {
      JoinOrdinary(parts[1..]);
    }
  }

  /** Normalising is idempotent, and leaves only ordinary segments. */
  lemma NormaliseIsIdempotent(path: string)
    ensures Normalise(Normalise(path)) == Normalise(path)
    ensures AllOrdinary(Resolve([], Split(path, '/')))
  {
    SplitIsFree(path, '/');
    ResolveIsOrdinary([], Split(path, '/'));
    PrintedResolves(Resolve([], Split(path, '/')), EndsWithSlash(path));
  }

  /** The directory part of a path may be normalised first. */
  lemma NormaliseComposes(a: string, b: string)
    ensures Normalise(a + "/" + b) == Normalise(Normalise(a) + "/" + b)
  {
    SplitConcat(a, b, '/');
    SplitConcat(Normalise(a), b, '/');
    assert a + ['/'] + b == a + "/" + b && Normalise(a) + ['/'] + b == Normalise(a) + "/" + b;
    ResolveConcat([], Split(a, '/'), Split(b, '/'));
    ResolveConcat([], Split(Normalise(a), '/'), Split(b, '/'));
    SplitIsFree(a, '/');
    ResolveIsOrdinary([], Split(a, '/'));
    PrintedResolves(Resolve([], Split(a, '/')), EndsWithSlash(a));
    assert EndsWithSlash(a + "/" + b) <==> EndsWithSlash(Normalise(a) + "/" + b);
  }

  // ----- rewriting -----

  const REPO: string := "github.com/fresh-minds/FreshStackableDataPlatform/"
  const REPO_BLOB: string := "https://" + (REPO + "blob/main/")
  const REPO_TREE: string := "https://" + (REPO + "tree/main/")

  const EXTERNAL_ROOTS: set<string> := {
    ".github", "data-generation", "dbt", "infrastructure", "nifi-flows", "opa-policies-src", "platform",
    "platform-overlays", "portal", "scripts", "spark-jobs", "tests", "ci", "logs"}

  const EXTERNAL_FILES: set<string> := {
    "README.md", "WORKLOG.md", "LICENSE", "Makefile", "platform-config.yaml", "docker-compose.yml",
    "referentiearchitectuur-uwv-data-analytics.md", "requirements-compliant-data-analyseplatform.md",
    "uwv-platform-adr-0002-iceberg-vs-delta.md", "uwv-platform-mapping-research.md",
    "uwv-platform-master-agent-prompt-v2.md"}

  // Up to the first '#' of `s`, and the rest.
  function PathOf(s: string): string {
    if s == "" || s[0] == '#' then "" else [s[0]] + PathOf(s[1..])
  }

  function ToGithubUrl(path: string): string {
    (if EndsWithSlash(PathOf(path)) then REPO_TREE else REPO_BLOB) + path
  }

  predicate HasScheme(norm: string) {
    StartsWith(norm, "http://") || StartsWith(norm, "https://") || StartsWith(norm, "mailto:") || StartsWith(norm, "#")
  }

  predicate IsExternal(path: string) {
    var norm := Normalise(path);
    if norm == "" then false
    else if HasScheme(norm) then false
    else Split(norm, '/')[0] in EXTERNAL_ROOTS || Split(norm, '/')[0] in EXTERNAL_FILES
  }

  predicate IsAbsolute(target: string) {
    StartsWith(target, "http://") || StartsWith(target, "https://") || StartsWith(target, "mailto:") ||
    StartsWith(target, "tel:") || StartsWith(target, "#") || StartsWith(target, "/")
  }

  function Full(pageDir: string, target: string): string {
    if pageDir == "" then "docs/" + target else "docs/" + pageDir + "/" + target
  }

  function StripDocs(s: string): string {
    if StartsWith(s, "docs/") then s[5..] else s
  }

  function CountSlash(s: string): nat {
    if s == "" then 0 else (if s[0] == '/' then 1 else 0) + CountSlash(s[1..])
  }

  function UpDirs(n: nat): string {
    if n == 0 then "" else "../" + UpDirs(n - 1)
  }

  function Depth(pageDir: string): nat {
    CountSlash(pageDir) + if pageDir == "" then 0 else 1
  }

  predicate DirectoryLink(pageDir: string, target: string) {
    && '?' !in target && '#' !in target && EndsWithSlash(target)
    && StartsWith(Normalise(Full(pageDir, target)), "docs/")
    && !IsExternal(Normalise(Full(pageDir, target))[5..])
  }

  /** The new target of a link on a page in `pageDir`, which is relative to docs. A link
      without a target does not match the link pattern. */
  function Rewrite(pageDir: string, target: string): string {
    if target == "" || IsAbsolute(target) then target
    else if StartsWith(target, "docs/") then target[5..]
    else if DirectoryLink(pageDir, target) then target + "index.md"
    else
      var stripped := StripDocs(Normalise(Full(pageDir, target)));
      if stripped == "SECURITY.md" then UpDirs(Depth(pageDir)) + "security.md"
      else if !IsExternal(stripped) then target
      else ToGithubUrl(stripped)
  }

  // ----- where a target leads -----

  function DirSegments(pageDir: string): seq<string> {
    if pageDir == "" then [] else Split(pageDir, '/')
  }

  // The stack below which the targets of a page are resolved.
  function PageStack(pageDir: string): seq<string> {
    Resolve(["docs"], DirSegments(pageDir))
  }

  function TargetStack(pageDir: string, target: string): seq<string> {
    Resolve(PageStack(pageDir), Split(target, '/'))
  }

  lemma OneSegment(name: string)
    requires '/' !in name
    ensures Split(name, '/') == [name]
    ensures Ordinary(name) ==> forall stack :: Resolve(stack, [name]) == stack + [name]
  {
    SplitHead(name, "", '/');
    assert name + "" == name;
    assert [name][1..] == [];
  }

  lemma FullSplits(pageDir: string, target: string)
    ensures Split(Full(pageDir, target), '/') == ["docs"] + (DirSegments(pageDir) + Split(target, '/'))
  {
    OneSegment("docs");
    var inner := if pageDir == "" then target else pageDir + ['/'] + target;
    assert Full(pageDir, target) == "docs" + ['/'] + inner;
    SplitConcat("docs", inner, '/');
    if pageDir == "" {
      assert DirSegments(pageDir) + Split(target, '/') == Split(target, '/');
    } else {
      SplitConcat(pageDir, target, '/');
    }
  }

  lemma FullResolves(pageDir: string, target: string)
    ensures Resolve([], Split(Full(pageDir, target), '/')) == TargetStack(pageDir, target)
  {
    FullSplits(pageDir, target);
    OneSegment("docs");
    assert [] + ["docs"] == ["docs"];
    ResolveConcat([], ["docs"], DirSegments(pageDir) + Split(target, '/'));
    ResolveConcat(["docs"], DirSegments(pageDir), Split(target, '/'));
  }

  lemma FullEnds(pageDir: string, target: string)
    ensures EndsWithSlash(Full(pageDir, target)) <==> target == "" || EndsWithSlash(target)
  {
    if target == "" {
      assert Full(pageDir, target)[|Full(pageDir, target)| - 1] == '/';
    } else {
      assert Full(pageDir, target)[|Full(pageDir, target)| - 1] == target[|target| - 1];
    }
  }

  lemma StacksAreOrdinary(pageDir: string, target: string)
    ensures AllOrdinary(PageStack(pageDir)) && AllOrdinary(TargetStack(pageDir, target))
  {
    assert Ordinary("docs");
    SplitIsFree(target, '/');
    SplitIsFree(pageDir, '/');
    ResolveIsOrdinary(["docs"], DirSegments(pageDir));
    ResolveIsOrdinary(PageStack(pageDir), Split(target, '/'));
  }

  lemma {:induction false} SegmentCount(s: string)
    ensures |Split(s, '/')| == CountSlash(s) + 1
  {
    if s != "" {
      SegmentCount(s[1..]);
    }
  }

  lemma {:induction false} UpSegments(n: nat, name: string)
    requires '/' !in name
    ensures Split(UpDirs(n) + name, '/') == seq(n, _ => "..") + [name]
  {
    if n == 0 {
      SplitHead(name, "", '/');
      assert UpDirs(0) + name == name + "";
      assert name + "" == name;
    } else {
      UpSegments(n - 1, name);
      var rest := UpDirs(n - 1) + name;
      assert UpDirs(n) + name == ".." + ['/'] + rest;
      SplitConcat("..", rest, '/');
      SplitHead("..", "", '/');
      assert ".." + "" == "..";
      assert seq(n, _ => "..") == [".."] + seq(n - 1, _ => "..");
    }
  }

  lemma {:induction false} UpPops(stack: seq<string>, n: nat)
    ensures Resolve(stack, seq(n, _ => "..")) == stack[..if |stack| < n then 0 else |stack| - n]
    decreases n
  {
    if n > 0 {
      assert seq(n, _ => "..")[1..] == seq(n - 1, _ => "..");
      UpPops(Walk(stack, ".."), n - 1);
    }
  }

  // Each segment adds at most one directory, and adds one only if it is ordinary.
  lemma {:induction false} DepthBound(stack: seq<string>, segments: seq<string>)
    requires Free(segments, '/')
    ensures |Resolve(stack, segments)| <= |stack| + |segments|
    ensures |Resolve(stack, segments)| == |stack| + |segments| <==> AllOrdinary(segments)
    decreases |segments|
  {
    if segments != [] {
      assert segments[0] in segments;
      assert segments == [segments[0]] + segments[1..];
      DepthBound(Walk(stack, segments[0]), segments[1..]);
    }
  }

  lemma SecurityStack(pageDir: string)
    ensures TargetStack(pageDir, UpDirs(Depth(pageDir)) + "security.md") ==
      (if AllOrdinary(DirSegments(pageDir)) then ["docs"] else []) + ["security.md"]
  {
    var n, segments, stack := Depth(pageDir), DirSegments(pageDir), PageStack(pageDir);
    SegmentCount(pageDir);
    SplitIsFree(pageDir, '/');
    DepthBound(["docs"], segments);
    UpSegments(n, "security.md");
    OneSegment("security.md");
    ResolveConcat(stack, seq(n, _ => ".."), ["security.md"]);
    UpPops(stack, n);
    if AllOrdinary(segments) {
      ResolveOrdinary(["docs"], segments);
      assert stack[..1] == ["docs"];
    }
  }

  lemma SecurityPaths()
    ensures Join(["docs"] + ["security.md"], '/') == "docs/security.md"
      && Join([] + ["security.md"], '/') == "security.md"
    ensures "docs/security.md" != "security.md"
  {
    var parts := ["docs"] + ["security.md"];
    assert parts[1..] == ["security.md"] && [] + ["security.md"] == ["security.md"];
    assert |"docs/security.md"| == 16 && |"security.md"| == 11;
  }

  /** The link to the security page from any page directory resolves to docs/security.md
      exactly when that directory is spelled with ordinary segments only. */
  lemma SecurityLinkResolvesIff(pageDir: string)
    ensures Normalise(Full(pageDir, UpDirs(Depth(pageDir)) + "security.md")) == "docs/security.md"
      <==> AllOrdinary(DirSegments(pageDir))
  {
    var target := UpDirs(Depth(pageDir)) + "security.md";
    SecurityStack(pageDir);
    SecurityPaths();
    FullResolves(pageDir, target);
    FullEnds(pageDir, target);
    assert target[|target| - 1] == 'd';
  }

  // ----- rewriting twice -----

  predicate Known(name: string) {
    name in EXTERNAL_ROOTS || name in EXTERNAL_FILES
  }

  lemma KnownRoots(name: string)
    requires name in EXTERNAL_ROOTS
    ensures name != "" && name[0] !in "hm#S" && name != "index.md" && name != "security.md"
  {
    assert ".github"[0] == '.' && "data-generation"[0] == 'd' && "dbt"[0] == 'd' && "infrastructure"[0] == 'i';
    assert "nifi-flows"[0] == 'n' && "opa-policies-src"[0] == 'o' && "platform"[0] == 'p'
      && "platform-overlays"[0] == 'p';
    assert "portal"[0] == 'p' && "scripts"[0] == 's' && "spark-jobs"[0] == 's' && "tests"[0] == 't';
    assert "ci"[0] == 'c' && "logs"[0] == 'l';
    assert |"infrastructure"| == 14 && |"ci"| == 2 && |"scripts"| == 7 && |"spark-jobs"| == 10;
  }

  lemma KnownFiles(name: string)
    requires name in EXTERNAL_FILES
    ensures name != "" && name[0] !in "hm#S" && name != "index.md" && name != "security.md"
  {
    assert "README.md"[0] == 'R' && "WORKLOG.md"[0] == 'W' && "LICENSE"[0] == 'L' && "Makefile"[0] == 'M';
    assert "platform-config.yaml"[0] == 'p' && "docker-compose.yml"[0] == 'd';
    assert "referentiearchitectuur-uwv-data-analytics.md"[0] == 'r';
    assert "requirements-compliant-data-analyseplatform.md"[0] == 'r';
    assert "uwv-platform-adr-0002-iceberg-vs-delta.md"[0] == 'u';
    assert "uwv-platform-mapping-research.md"[0] == 'u';
    assert "uwv-platform-master-agent-prompt-v2.md"[0] == 'u';
  }

  lemma KnownNames(name: string)
    requires Known(name)
    ensures name != "" && name[0] !in "hm#S" && name != "index.md" && name != "security.md"
  {
    if name in EXTERNAL_ROOTS {
      KnownRoots(name);
    } else {
      KnownFiles(name);
    }
  }

  lemma SchemeHead(norm: string)
    requires HasScheme(norm)
    ensures norm != "" && norm[0] in "hm#"
  {
    var p := if StartsWith(norm, "http://") then "http://" else if StartsWith(norm, "https://") then "https://"
             else if StartsWith(norm, "mailto:") then "mailto:" else "#";
    assert p[0] in "hm#";
    assert norm[..|p|][0] == p[0];
  }

  lemma PrintHead(parts: seq<string>, slash: bool)
    requires parts != [] && Ordinary(parts[0])
    ensures Print(parts, slash) != "" && Print(parts, slash)[0] == parts[0][0]
    ensures Split(Print(parts, slash), '/')[0] == parts[0]
  {
    if |parts| == 1 {
      SplitHead(parts[0], if slash then "/" else "", '/');
      assert parts[0] + "" == parts[0];
    } else {
      var rest := "/" + (Join(parts[1..], '/') + if slash then "/" else "");
      assert Print(parts, slash) == parts[0] + rest;
      SplitHead(parts[0], rest, '/');
      assert parts[0] + "" == parts[0];
    }
  }

  // A path is external when the first directory it resolves to is a known one.
  lemma ExternalIff(path: string)
    ensures var stack := Resolve([], Split(path, '/')); IsExternal(path) <==> stack != [] && Known(stack[0])
  {
    var stack, slash := Resolve([], Split(path, '/')), EndsWithSlash(path);
    SplitIsFree(path, '/');
    ResolveIsOrdinary([], Split(path, '/'));
    if stack != [] {
      PrintHead(stack, slash);
      if Known(stack[0]) {
        KnownNames(stack[0]);
        if HasScheme(Normalise(path)) {
          SchemeHead(Normalise(path));
        }
      }
    }
  }

  lemma PrintTail(parts: seq<string>, slash: bool)
    requires AllOrdinary(parts) && parts != [] && (|parts| > 1 || slash)
    ensures Print(parts, slash) == parts[0] + "/" + Print(parts[1..], slash)
  {
    if |parts| > 1 {
      assert parts[0] + ['/'] + Join(parts[1..], '/') + (if slash then "/" else "")
          == parts[0] + "/" + (Join(parts[1..], '/') + (if slash then "/" else ""));
    }
  }

  lemma DocsPrefix(parts: seq<string>, slash: bool)
    requires AllOrdinary(parts)
    ensures StartsWith(Print(parts, slash), "docs/") <==> parts != [] && parts[0] == "docs" && (|parts| > 1 || slash)
    ensures StartsWith(Print(parts, slash), "docs/") ==> Print(parts, slash)[5..] == Print(parts[1..], slash)
  {
    var s := Print(parts, slash);
    if StartsWith(s, "docs/") {
      assert parts != [];
      PrintHead(parts, slash);
      assert s == "docs" + ("/" + s[5..]);
      SplitHead("docs", "/" + s[5..], '/');
      assert Split(s, '/')[0] == "docs" + "" == "docs";
    }
    if parts != [] && parts[0] == "docs" && (|parts| > 1 || slash) {
      PrintTail(parts, slash);
      assert "docs" + "/" == "docs/";
    }
  }

  lemma StillNoPrefix(target: string, p: string)
    requires EndsWithSlash(target) && !StartsWith(target, p)
    requires forall k :: 0 < k < |p| && p[k - 1] == '/' ==> p[k] != 'i'
    ensures !StartsWith(target + "index.md", p)
  {
    var s := target + "index.md";
    if |p| <= |target| {
      assert s[..|p|] == target[..|p|];
    } else if |p| <= |s| {
      assert s[..|p|][|target| - 1] == '/' && s[..|p|][|target|] == 'i';
    }
  }

  lemma StillRelative(target: string)
    requires EndsWithSlash(target) && !IsAbsolute(target) && !StartsWith(target, "docs/")
    ensures !IsAbsolute(target + "index.md") && !StartsWith(target + "index.md", "docs/")
  {
    StillNoPrefix(target, "http://");
    StillNoPrefix(target, "https://");
    StillNoPrefix(target, "mailto:");
    StillNoPrefix(target, "tel:");
    StillNoPrefix(target, "#");
    StillNoPrefix(target, "/");
    StillNoPrefix(target, "docs/");
  }

  lemma ResolveLast(stack: seq<string>, segments: seq<string>, last: string)
    ensures Resolve(stack, segments + [last]) == Walk(Resolve(stack, segments), last)
  {
    ResolveConcat(stack, segments, [last]);
    var end := Resolve(stack, segments);
    assert [last][1..] == [];
    assert Resolve(end, [last]) == Resolve(Walk(end, last), []);
  }

  lemma IndexStack(pageDir: string, target: string)
    requires EndsWithSlash(target)
    ensures TargetStack(pageDir, target + "index.md") == TargetStack(pageDir, target) + ["index.md"]
  {
    var x := target[..|target| - 1];
    assert target == x + ['/'] + "" && target + "index.md" == x + ['/'] + "index.md";
    SplitConcat(x, "", '/');
    SplitConcat(x, "index.md", '/');
    OneSegment("index.md");
    ResolveLast(PageStack(pageDir), Split(x, '/'), "");
    ResolveLast(PageStack(pageDir), Split(x, '/'), "index.md");
  }

  // What is left of a file target, given its stack below docs.
  lemma FileTarget(pageDir: string, target: string, below: seq<string>)
    requires target != "" && !EndsWithSlash(target) && below != []
    requires TargetStack(pageDir, target) == ["docs"] + below
      || (TargetStack(pageDir, target) == below && below[0] != "docs")
    ensures StripDocs(Normalise(Full(pageDir, target))) == Print(below, false)
    ensures IsExternal(Print(below, false)) <==> Known(below[0])
    ensures AllOrdinary(below)
  {
    FullResolves(pageDir, target);
    FullEnds(pageDir, target);
    StacksAreOrdinary(pageDir, target);
    var stack := TargetStack(pageDir, target);
    if stack == ["docs"] + below {
      assert stack[1..] == below;
      assert forall s :: s in below ==> s in stack;
    }
    DocsPrefix(stack, false);
    PrintedResolves(below, false);
    ExternalIff(Print(below, false));
  }

  lemma SecurityMdIsOneName(parts: seq<string>)
    requires AllOrdinary(parts) && parts != [] && parts[|parts| - 1] != "SECURITY.md"
    ensures Print(parts, false) != "SECURITY.md"
  {
    PrintedResolves(parts, false);
    OneSegment("SECURITY.md");
    assert [] + ["SECURITY.md"] == ["SECURITY.md"];
  }

  // A directory link leads below docs, and to no directory of the repository.
  lemma DirectoryStack(pageDir: string, target: string)
    requires DirectoryLink(pageDir, target)
    ensures var stack := TargetStack(pageDir, target);
      stack != [] && stack[0] == "docs" && (|stack| > 1 ==> !Known(stack[1]))
  {
    var stack := TargetStack(pageDir, target);
    FullResolves(pageDir, target);
    FullEnds(pageDir, target);
    StacksAreOrdinary(pageDir, target);
    DocsPrefix(stack, true);
    PrintedResolves(stack[1..], true);
    ExternalIff(Print(stack[1..], true));
  }

  // A relative link to a file below docs, under no directory of the repository, is left alone.
  lemma FileStays(pageDir: string, target: string, below: seq<string>)
    requires !IsAbsolute(target) && !StartsWith(target, "docs/") && target != "" && !EndsWithSlash(target)
    requires below != [] && TargetStack(pageDir, target) == ["docs"] + below
    requires !Known(below[0]) && below[|below| - 1] != "SECURITY.md"
    ensures Rewrite(pageDir, target) == target
  {
    FileTarget(pageDir, target, below);
    SecurityMdIsOneName(below);
  }

  lemma IndexIsAFile(target: string, stack: seq<string>)
    requires stack != [] && stack[0] == "docs" && (|stack| > 1 ==> !Known(stack[1]))
    ensures target + "index.md" != "" && !EndsWithSlash(target + "index.md")
    ensures var below := stack[1..] + ["index.md"];
      below != [] && stack + ["index.md"] == ["docs"] + below && !Known(below[0]) && below[|below| - 1] != "SECURITY.md"
  {
    assert (target + "index.md")[|target| + 7] == 'd';
    if |stack| == 1 && Known("index.md") {
      KnownNames("index.md");
    }
  }

  lemma IndexIsRewrittenOnce(pageDir: string, target: string)
    requires !IsAbsolute(target) && !StartsWith(target, "docs/") && DirectoryLink(pageDir, target)
    ensures Rewrite(pageDir, target + "index.md") == target + "index.md"
  {
    var new', stack := target + "index.md", TargetStack(pageDir, target);
    DirectoryStack(pageDir, target);
    StillRelative(target);
    IndexStack(pageDir, target);
    IndexIsAFile(target, stack);
    FileStays(pageDir, new', stack[1..] + ["index.md"]);
  }

  lemma OtherHead(target: string, p: string)
    requires target != "" && p != "" && target[0] != p[0]
    ensures !StartsWith(target, p)
  {
    if |p| <= |target| {
      assert target[..|p|][0] == target[0];
    }
  }

  // What a target that is not absolute is left with below docs.
  function Stripped(pageDir: string, target: string): string {
    StripDocs(Normalise(Full(pageDir, target)))
  }

  lemma SecurityTargetIsRelative(pageDir: string)
    ensures var target := UpDirs(Depth(pageDir)) + "security.md";
      target != "" && !EndsWithSlash(target) && !IsAbsolute(target) && !StartsWith(target, "docs/")
  {
    var target := UpDirs(Depth(pageDir)) + "security.md";
    assert target[|target| - 1] == 'd';
    assert target[0] == '.' || target[0] == 's';
    OtherHead(target, "http://");
    OtherHead(target, "https://");
    OtherHead(target, "mailto:");
    OtherHead(target, "tel:");
    OtherHead(target, "#");
    OtherHead(target, "/");
    OtherHead(target, "docs/");
  }

  // The link to the rendered security page leads neither to SECURITY.md nor out of docs.
  lemma SecurityPageIsInside(pageDir: string)
    ensures var stripped := Stripped(pageDir, UpDirs(Depth(pageDir)) + "security.md");
      stripped != "SECURITY.md" && !IsExternal(stripped)
  {
    SecurityStack(pageDir);
    SecurityTargetIsRelative(pageDir);
    assert [] + ["security.md"] == ["security.md"];
    FileTarget(pageDir, UpDirs(Depth(pageDir)) + "security.md", ["security.md"]);
    SecurityMdIsOneName(["security.md"]);
    if Known("security.md") {
      KnownNames("security.md");
    }
  }

  lemma SecurityIsRewrittenOnce(pageDir: string)
    ensures var new' := UpDirs(Depth(pageDir)) + "security.md"; Rewrite(pageDir, new') == new'
  {
    SecurityTargetIsRelative(pageDir);
    SecurityPageIsInside(pageDir);
  }

  lemma UrlIsAbsolute(path: string)
    ensures IsAbsolute(ToGithubUrl(path))
  {
    var rest := REPO + (if EndsWithSlash(PathOf(path)) then "tree/main/" else "blob/main/") + path;
    assert ToGithubUrl(path) == "https://" + rest;
    assert ("https://" + rest)[..8] == "https://";
  }

  /** Rewriting is idempotent for every link that does not start with docs/. */
  lemma RewriteIsIdempotent(pageDir: string, target: string)
    requires !StartsWith(target, "docs/")
    ensures Rewrite(pageDir, Rewrite(pageDir, target)) == Rewrite(pageDir, target)
  {
    if target == "" || IsAbsolute(target) {
    } else if DirectoryLink(pageDir, target) {
      IndexIsRewrittenOnce(pageDir, target);
    } else {
      SecurityIsRewrittenOnce(pageDir);
      UrlIsAbsolute(StripDocs(Normalise(Full(pageDir, target))));
    }
  }

  lemma DocsIsRelative(target: string)
    requires StartsWith(target, "docs/")
    ensures !IsAbsolute(target)
  {
    assert target[..5][0] == 'd';
    if HasScheme(target) {
      SchemeHead(target);
    }
    OtherHead(target, "tel:");
    OtherHead(target, "/");
  }

  /** No branch of the hook takes the target: it is empty or absolute, or it does not start
      with docs/, is no directory link, and leads neither to the security page nor below a
      directory of the repository. */
  predicate Untouched(pageDir: string, target: string) {
    target == "" || IsAbsolute(target) || (
      && !StartsWith(target, "docs/") && !DirectoryLink(pageDir, target)
      && Stripped(pageDir, target) != "SECURITY.md" && !IsExternal(Stripped(pageDir, target)))
  }

  /** A link is left as it is exactly when no branch takes it: each branch that takes one
      changes it. */
  lemma RewriteChangesIff(pageDir: string, target: string)
    ensures Rewrite(pageDir, target) == target <==> Untouched(pageDir, target)
  {
    if !Untouched(pageDir, target) {
      if StartsWith(target, "docs/") {
        assert |Rewrite(pageDir, target)| == |target| - 5;
      } else if DirectoryLink(pageDir, target) {
        assert |Rewrite(pageDir, target)| == |target| + 8;
      } else if Stripped(pageDir, target) == "SECURITY.md" {
        SecurityPageIsInside(pageDir);
      } else {
        UrlIsAbsolute(Stripped(pageDir, target));
      }
    }
  }

  /** A link that starts with docs/ loses that start, and one pass settles it exactly when
      no branch takes the rest. */
  lemma DocsLinkSettlesIff(pageDir: string, rest: string)
    ensures Rewrite(pageDir, "docs/" + rest) == rest
    ensures Rewrite(pageDir, Rewrite(pageDir, "docs/" + rest)) == Rewrite(pageDir, "docs/" + rest)
      <==> Untouched(pageDir, rest)
  {
    var target := "docs/" + rest;
    assert target[..5] == "docs/" && target[5..] == rest;
    DocsIsRelative(target);
    RewriteChangesIff(pageDir, rest);
  }

  /** All links together: a second pass changes nothing exactly when the link does not start
      with docs/, or no branch takes what is left without that start. */
  lemma RewriteSettlesIff(pageDir: string, target: string)
    ensures Rewrite(pageDir, Rewrite(pageDir, target)) == Rewrite(pageDir, target)
      <==> (StartsWith(target, "docs/") ==> Untouched(pageDir, target[5..]))
  {
    if StartsWith(target, "docs/") {
      assert target == "docs/" + target[5..];
      DocsLinkSettlesIff(pageDir, target[5..]);
    } else {
      RewriteIsIdempotent(pageDir, target);
    }
  }

  // `n` passes of a rewriter.
  function Passes(pass: string -> string, target: string, n: nat): string
    decreases n
  {
    if n == 0 then target else Passes(pass, pass(target), n - 1)
  }

  lemma {:induction false} OnePassMore(pass: string -> string, target: string, n: nat)
    ensures Passes(pass, target, n + 1) == pass(Passes(pass, target, n))
    decreases n
  {
    if n > 0 {
      OnePassMore(pass, pass(target), n - 1);
    }
  }

  function DocsStarts(n: nat, rest: string): string {
    if n == 0 then rest else "docs/" + DocsStarts(n - 1, rest)
  }

  // A rewriter that takes one start away takes `k` away in `k` passes.
  lemma {:induction false} PassTakesOne(pass: string -> string, n: nat, rest: string, k: nat)
    requires k <= n && forall m: nat :: pass(DocsStarts(m + 1, rest)) == DocsStarts(m, rest)
    ensures Passes(pass, DocsStarts(n, rest), k) == DocsStarts(n - k, rest)
    decreases k
  {
    if k > 0 {
      PassTakesOne(pass, n, rest, k - 1);
      OnePassMore(pass, DocsStarts(n, rest), k - 1);
      assert pass(DocsStarts(n - k + 1, rest)) == DocsStarts(n - k, rest);
    }
  }

  lemma {:induction false} StartsLength(n: nat, rest: string)
    ensures |DocsStarts(n, rest)| == 5 * n + |rest|
  {
    if n > 0 {
      StartsLength(n - 1, rest);
    }
  }

  // One pass of the hook over the links of a page.
  function Hook(pageDir: string): string -> string {
    target => Rewrite(pageDir, target)
  }

  lemma HookTakesOne(pageDir: string, rest: string)
    ensures forall m: nat :: Hook(pageDir)(DocsStarts(m + 1, rest)) == DocsStarts(m, rest)
  {
    forall m: nat ensures Hook(pageDir)(DocsStarts(m + 1, rest)) == DocsStarts(m, rest) {
      DocsLinkSettlesIff(pageDir, DocsStarts(m, rest));
    }
  }

  /** How many passes settle a link with `n` starts: each of the first `n` passes changes it,
      to the rest in the end, which is settled exactly when no branch takes it; and after one
      pass more it is settled. */
  lemma DocsLinksSettleLater(pageDir: string, n: nat, rest: string)
    requires !StartsWith(rest, "docs/")
    ensures var pass, link := Hook(pageDir), DocsStarts(n, rest);
      && (forall k: nat :: k < n ==> Passes(pass, link, k + 1) != Passes(pass, link, k))
      && Passes(pass, link, n) == rest
      && (Passes(pass, link, n + 1) == rest <==> Untouched(pageDir, rest))
      && Passes(pass, link, n + 2) == Passes(pass, link, n + 1)
  {
    var pass, link := Hook(pageDir), DocsStarts(n, rest);
    HookTakesOne(pageDir, rest);
    forall k: nat | k < n ensures Passes(pass, link, k + 1) != Passes(pass, link, k) {
      PassTakesOne(pass, n, rest, k);
      PassTakesOne(pass, n, rest, k + 1);
      StartsLength(n - k, rest);
      StartsLength(n - k - 1, rest);
    }
    PassTakesOne(pass, n, rest, n);
    OnePassMore(pass, link, n);
    OnePassMore(pass, link, n + 1);
    assert pass(rest) == Rewrite(pageDir, rest) && pass(pass(rest)) == Rewrite(pageDir, Rewrite(pageDir, rest));
    RewriteChangesIff(pageDir, rest);
    RewriteIsIdempotent(pageDir, rest);
  }
}
