/** The Python string operations the modelled functions use. */
module Text {

  /** `str.isspace` for one character. */
  predicate IsSpace(c: char) {
    var n := c as int;
    9 <= n <= 13 || 28 <= n <= 32 || n == 0x85 || n == 0xA0 || n == 0x1680 || 0x2000 <= n <= 0x200A ||
    n == 0x2028 || n == 0x2029 || n == 0x202F || n == 0x205F || n == 0x3000
  }

  function StripLeft(s: string): string {
    if s != "" && IsSpace(s[0]) then StripLeft(s[1..]) else s
  }

  function StripRight(s: string): string
    decreases |s|
  {
    if s != "" && IsSpace(s[|s| - 1]) then StripRight(s[..|s| - 1]) else s
  }

  /** `str.strip()` */
  function Strip(s: string): string {
    StripRight(StripLeft(s))
  }

  predicate StartsWith(s: string, prefix: string) {
    |prefix| <= |s| && s[..|prefix|] == prefix
  }

  /** `str.lower` on ASCII letters. */
  function LowerChar(c: char): char {
    if 'A' <= c <= 'Z' then (c as int + 32) as char else c
  }

  function Lower(s: string): (r: string)
    ensures |r| == |s| && forall i :: 0 <= i < |s| ==> r[i] == LowerChar(s[i])
  {
    if s == "" then "" else [LowerChar(s[0])] + Lower(s[1..])
  }

  function Lowered(parts: seq<string>): seq<string> {
    seq(|parts|, i requires 0 <= i < |parts| => Lower(parts[i]))
  }

  function Repeat(c: char, n: nat): (r: string)
    ensures |r| == n && forall i :: 0 <= i < n ==> r[i] == c
  {
    seq(n, _ => c)
  }

  /** `sep.join(parts)` */
  function Join(parts: seq<string>, sep: char): string {
    if parts == [] then ""
    else if |parts| == 1 then parts[0]
    else parts[0] + [sep] + Join(parts[1..], sep)
  }

  /** `s.split(sep)`: never empty, and a part never holds the separator. */
  function Split(s: string, sep: char): (parts: seq<string>)
    ensures parts != []
  {
    if s == "" then [""]
    else if s[0] == sep then [""] + Split(s[1..], sep)
    else var rest := Split(s[1..], sep); [[s[0]] + rest[0]] + rest[1..]
  }

  predicate Free(parts: seq<string>, sep: char) {
    forall p :: p in parts ==> sep !in p
  }

  lemma {:induction false} SplitHead(a: string, s: string, sep: char)
    requires sep !in a
    ensures Split(a + s, sep) == [a + Split(s, sep)[0]] + Split(s, sep)[1..]
  {
    if a == "" {
      assert a + s == s && a + Split(s, sep)[0] == Split(s, sep)[0];
      assert [Split(s, sep)[0]] + Split(s, sep)[1..] == Split(s, sep);
    } else {
      SplitHead(a[1..], s, sep);
      assert (a + s)[1..] == a[1..] + s;
      assert [a[0]] + (a[1..] + Split(s, sep)[0]) == a + Split(s, sep)[0];
    }
  }

  lemma {:induction false} SplitJoin(parts: seq<string>, sep: char)
    requires parts != [] && Free(parts, sep)
    ensures Split(Join(parts, sep), sep) == parts
  {
    if |parts| == 1 {
      SplitHead(parts[0], "", sep);
      assert parts[0] + "" == parts[0];
    } else {
      SplitJoin(parts[1..], sep);
      var rest := Join(parts[1..], sep);
      SplitHead(parts[0], [sep] + rest, sep);
      assert ([sep] + rest)[1..] == rest;
      assert parts[0] + ([sep] + rest) == parts[0] + [sep] + rest;
      assert ([""] + parts[1..])[1..] == parts[1..];
      assert parts[0] + "" == parts[0] && [parts[0]] + parts[1..] == parts;
    }
  }

  lemma {:induction false} SplitIsFree(s: string, sep: char)
    ensures Free(Split(s, sep), sep)
  {
    if s != "" {
      SplitIsFree(s[1..], sep);
    }
  }

  // What one more character in front does to the parts.
  function SplitFront(c: char, sep: char, parts: seq<string>): seq<string>
    requires parts != []
  {
    if c == sep then [""] + parts else [[c] + parts[0]] + parts[1..]
  }

  lemma SplitStep(c: char, s: string, sep: char)
    ensures Split([c] + s, sep) == SplitFront(c, sep, Split(s, sep))
  {
    assert ([c] + s)[1..] == s;
  }

  lemma SplitFrontAppend(c: char, sep: char, parts: seq<string>, more: seq<string>)
    requires parts != []
    ensures SplitFront(c, sep, parts + more) == SplitFront(c, sep, parts) + more
  {
    assert (parts + more)[1..] == parts[1..] + more;
  }

  lemma {:induction false} SplitConcat(a: string, b: string, sep: char)
    ensures Split(a + [sep] + b, sep) == Split(a, sep) + Split(b, sep)
  {
    if a == "" {
      SplitStep(sep, b, sep);
      assert a + [sep] + b == [sep] + b;
    } else {
      var c, rest := a[0], a[1..];
      SplitConcat(rest, b, sep);
      SplitStep(c, rest, sep);
      SplitStep(c, rest + [sep] + b, sep);
      SplitFrontAppend(c, sep, Split(rest, sep), Split(b, sep));
      assert a == [c] + rest && a + [sep] + b == [c] + (rest + [sep] + b);
    }
  }

  lemma NoSpaceToStrip(s: string)
    requires forall c :: c in s ==> !IsSpace(c)
    ensures Strip(s) == s
  {
  }

  lemma {:induction false} JoinSplit(s: string, sep: char)
    ensures Join(Split(s, sep), sep) == s
  {
    if s != "" {
      var parts, rest := Split(s, sep), Split(s[1..], sep);
      JoinSplit(s[1..], sep);
      if s[0] == sep {
        assert parts[1..] == rest;
        assert Join(parts, sep) == "" + [sep] + s[1..];
      } else {
        assert parts[1..] == rest[1..];
        assert |rest| > 1 ==> [s[0]] + rest[0] + [sep] + Join(rest[1..], sep) == [s[0]] + Join(rest, sep);
      }
    }
  }

  // White space in front of and behind a text that neither starts nor ends with any.
  ghost predicate Trimmed(s: string, left: string, core: string, right: string) {
    && s == left + core + right
    && (forall c :: c in left || c in right ==> IsSpace(c))
    && (core != "" ==> !IsSpace(core[0]) && !IsSpace(core[|core| - 1]))
  }

  lemma {:induction false} StripLeftCuts(s: string) returns (left: string)
    ensures s == left + StripLeft(s) && forall c :: c in left ==> IsSpace(c)
    ensures StripLeft(s) != "" ==> !IsSpace(StripLeft(s)[0])
  {
    left := "";
    if s != "" && IsSpace(s[0]) {
      var rest := StripLeftCuts(s[1..]);
      left := [s[0]] + rest;
    }
  }

  lemma {:induction false} StripRightCuts(s: string) returns (right: string)
    ensures s == StripRight(s) + right && forall c :: c in right ==> IsSpace(c)
    ensures StripRight(s) != "" ==> StripRight(s)[0] == s[0] && !IsSpace(StripRight(s)[|StripRight(s)| - 1])
    decreases |s|
  {
    right := "";
    if s != "" && IsSpace(s[|s| - 1]) {
      var init := s[..|s| - 1];
      var rest := StripRightCuts(init);
      right := rest + [s[|s| - 1]];
      assert s == init + [s[|s| - 1]];
    }
  }

  /** Stripping takes away white space at both ends and nothing else. */
  lemma StripTrims(s: string) returns (left: string, right: string)
    ensures Trimmed(s, left, Strip(s), right)
  {
    left := StripLeftCuts(s);
    right := StripRightCuts(StripLeft(s));
  }

  lemma {:induction false} StripLeftIs(left: string, s: string)
    requires (forall c :: c in left ==> IsSpace(c)) && (s != "" ==> !IsSpace(s[0]))
    ensures StripLeft(left + s) == s
  {
    if left == "" {
      assert left + s == s;
    } else {
      assert (left + s)[1..] == left[1..] + s;
      assert left[0] in left && forall c :: c in left[1..] ==> c in left;
      StripLeftIs(left[1..], s);
    }
  }

  lemma {:induction false} StripRightIs(s: string, right: string)
    requires (forall c :: c in right ==> IsSpace(c)) && (s != "" ==> !IsSpace(s[|s| - 1]))
    ensures StripRight(s + right) == s
    decreases |right|
  {
    if right == "" {
      assert s + right == s;
    } else {
      var init := right[..|right| - 1];
      assert (s + right)[..|s + right| - 1] == s + init;
      assert right[|right| - 1] in right && forall c :: c in init ==> c in right;
      StripRightIs(s, init);
    }
  }

  lemma {:induction false} AllSpace(s: string)
    requires forall c :: c in s ==> IsSpace(c)
    ensures StripLeft(s) == ""
  {
    if s != "" {
      assert s[0] in s && forall c :: c in s[1..] ==> c in s;
      AllSpace(s[1..]);
    }
  }

  lemma StripIs(s: string, left: string, core: string, right: string)
    requires Trimmed(s, left, core, right)
    ensures Strip(s) == core
  {
    if core == "" {
      AllSpace(s);
    } else {
      assert left + core + right == left + (core + right);
      StripLeftIs(left, core + right);
      StripRightIs(core, right);
    }
  }

  /** `sub in s` */
  predicate Contains(s: string, sub: string) {
    StartsWith(s, sub) || (s != "" && Contains(s[1..], sub))
  }

  ghost predicate OccursAt(s: string, sub: string, i: nat) {
    i + |sub| <= |s| && s[i..i + |sub|] == sub
  }

  ghost predicate Occurs(s: string, sub: string) {
    exists i: nat :: OccursAt(s, sub, i)
  }

  lemma {:induction false} ContainsIff(s: string, sub: string)
    ensures Contains(s, sub) <==> Occurs(s, sub)
  {
    assert StartsWith(s, sub) <==> OccursAt(s, sub, 0);
    if s != "" {
      ContainsIff(s[1..], sub);
      forall i: nat ensures OccursAt(s[1..], sub, i) <==> OccursAt(s, sub, i + 1) {
        assert i + 1 + |sub| <= |s| ==> s[1..][i..i + |sub|] == s[i + 1..i + 1 + |sub|];
      }
      if i: nat :| OccursAt(s, sub, i) {
        assert i > 0 ==> OccursAt(s[1..], sub, i - 1);
      }
    }
  }

  predicate EndsWith(s: string, suffix: string) {
    |suffix| <= |s| && s[|s| - |suffix|..] == suffix
  }

  lemma OccursInFront(x: string, y: string, sub: string)
    requires Occurs(x, sub)
    ensures Occurs(x + y, sub)
  {
    var i: nat :| OccursAt(x, sub, i);
    assert (x + y)[i..i + |sub|] == x[i..i + |sub|];
    assert OccursAt(x + y, sub, i);
  }

  lemma OccursBehind(x: string, y: string, sub: string)
    requires Occurs(y, sub)
    ensures Occurs(x + y, sub)
  {
    var i: nat :| OccursAt(y, sub, i);
    assert (x + y)[|x| + i..|x| + i + |sub|] == y[i..i + |sub|];
    assert OccursAt(x + y, sub, |x| + i);
  }

  lemma OccursAtTheSeam(x: string, y: string, a: string, b: string)
    requires EndsWith(x, a) && StartsWith(y, b)
    ensures Occurs(x + " " + y, a + " " + b)
  {
    var s, sub, i := x + " " + y, a + " " + b, |x| - |a|;
    assert s[i..i + |sub|] == x[i..] + " " + y[..|b|];
    assert OccursAt(s, sub, i);
  }

  lemma OneSpace(a: string, b: string, k: nat)
    requires ' ' !in a && ' ' !in b && k < |a + " " + b|
    ensures (a + " " + b)[k] == ' ' <==> k == |a|
  {
    var sub := a + " " + b;
    if k < |a| {
      assert sub[k] == a[k] && a[k] in a;
    } else if k > |a| {
      assert sub[k] == b[k - |a| - 1] && b[k - |a| - 1] in b;
    }
  }

  // An occurrence that covers the joining space has its own space there.
  lemma SpaceFits(x: string, y: string, a: string, b: string, i: nat)
    requires ' ' !in a && ' ' !in b && i <= |x| < i + |a + " " + b|
    requires OccursAt(x + " " + y, a + " " + b, i)
    ensures EndsWith(x, a) && StartsWith(y, b)
  {
    var s, sub := x + " " + y, a + " " + b;
    var at, k := s[i..i + |sub|], |x| - i;
    assert s[|x|] == ' ' && at[k] == s[i + k];
    assert sub[k] == ' ';
    OneSpace(a, b, k);
    assert sub[..|a|] == a && sub[|a| + 1..] == b && |x| == i + |a|;
    assert s[i..|x|] == x[i..] && s[|x| + 1..|x| + 1 + |b|] == y[..|b|];
    assert at[..|a|] == s[i..|x|] && at[|a| + 1..] == s[|x| + 1..|x| + 1 + |b|];
  }

  // Two words with a space between them occur in one of two texts, or across the space
  // that joins them.
  lemma PhraseAcross(x: string, y: string, a: string, b: string)
    requires ' ' !in a && ' ' !in b
    ensures Occurs(x + " " + y, a + " " + b) <==>
      Occurs(x, a + " " + b) || Occurs(y, a + " " + b) || (EndsWith(x, a) && StartsWith(y, b))
  {
    var s, sub := x + " " + y, a + " " + b;
    if i: nat :| OccursAt(s, sub, i) {
      if i + |sub| <= |x| {
        assert x[i..i + |sub|] == s[i..i + |sub|];
        assert OccursAt(x, sub, i);
      } else if i > |x| {
        var j: nat := i - |x| - 1;
        assert y[j..j + |sub|] == s[i..i + |sub|];
        assert OccursAt(y, sub, j);
      } else {
        SpaceFits(x, y, a, b, i);
      }
    }
    PhraseStays(x, y, a, b);
  }

  lemma PhraseStays(x: string, y: string, a: string, b: string)
    ensures var sub := a + " " + b;
      Occurs(x, sub) || Occurs(y, sub) || (EndsWith(x, a) && StartsWith(y, b)) ==> Occurs(x + " " + y, sub)
  {
    var sub := a + " " + b;
    if Occurs(x, sub) {
      OccursInFront(x, " " + y, sub);
      assert x + (" " + y) == x + " " + y;
    } else if Occurs(y, sub) {
      OccursBehind(x + " ", y, sub);
    } else if EndsWith(x, a) && StartsWith(y, b) {
      OccursAtTheSeam(x, y, a, b);
    }
  }

  function Digits(n: nat): string {
    if n < 10 then [('0' as int + n) as char] else Digits(n / 10) + [('0' as int + n % 10) as char]
  }

  /** `str` of an integer */
  function Decimal(n: int): string {
    if n < 0 then "-" + Digits(-n) else Digits(n)
  }

  predicate IsDigit(c: char) {
    '0' <= c <= '9'
  }

  // The number a text of digits stands for.
  function NumberOf(s: string): int
    decreases |s|
  {
    if s == "" then 0 else 10 * NumberOf(s[..|s| - 1]) + (s[|s| - 1] as int - '0' as int)
  }

  lemma {:induction false} DigitsRead(n: nat)
    ensures NumberOf(Digits(n)) == n && Digits(n) != "" && (forall c :: c in Digits(n) ==> IsDigit(c))
    ensures |Digits(n)| > 1 ==> Digits(n)[0] != '0'
  {
    if n < 10 {
      assert Digits(n)[..0] == "" && NumberOf("") == 0;
    } else {
      DigitsRead(n / 10);
      var init := Digits(n / 10);
      assert Digits(n)[..|init|] == init;
      if n / 10 < 10 {
        assert init == [('0' as int + n / 10) as char];
      }
    }
  }
}
