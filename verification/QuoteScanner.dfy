/** Turning a TypeScript literal into JSON: cutting line comments, and exchanging single
    quotes for double quotes. */
module QuoteScanner {
  import opened Common

  // ----- the comment cutter -----

  // Where `s` is cut when the scan enters it inside a literal or not.
  function Cut(s: string, inSingle: bool, inDouble: bool): (k: nat)
    ensures k <= |s|
    decreases |s|
  {
    if s == "" then 0
    else if s[0] == '\\' && |s| > 1 then 2 + Cut(s[2..], inSingle, inDouble)
    else if s[0] == '\'' && !inDouble then 1 + Cut(s[1..], !inSingle, inDouble)
    else if s[0] == '"' && !inSingle then 1 + Cut(s[1..], inSingle, !inDouble)
    else if !inSingle && !inDouble && |s| > 1 && s[0] == '/' && s[1] == '/' then 0
    else 1 + Cut(s[1..], inSingle, inDouble)
  }

  function Kept(line: string): string {
    line[..Cut(line, false, false)]
  }

  method StripLineComment(line: string) returns (kept: string)
    ensures kept == Kept(line)
  {
    var inSingle, inDouble := false, false;
    var i := 0;
    while i < |line|
      invariant 0 <= i <= |line|
      invariant i + Cut(line[i..], inSingle, inDouble) == Cut(line, false, false)
    {
      var ch := line[i];
      assert line[i..][1..] == line[i + 1..];
      if ch == '\\' && i + 1 < |line| {
        assert line[i..][2..] == line[i + 2..];
        i := i + 2;
        continue;
      }
      if ch == '\'' && !inDouble {
        inSingle := !inSingle;
      } else if ch == '"' && !inSingle {
        inDouble := !inDouble;
      } else if !inSingle && !inDouble && ch == '/' && i + 1 < |line| && line[i + 1] == '/' {
        return line[..i];
      }
      i := i + 1;
    }
    kept := line;
  }

  // ----- the quote swapper -----

  // In text after an opening single quote, the place of the closing one, or the end.
  function ClosingQuote(s: string): (j: nat)
    ensures j <= |s|
    decreases |s|
  {
    if s == "" then 0
    else if s[0] == '\\' && |s| > 1 then 2 + ClosingQuote(s[2..])
    else if s[0] == '\'' then 0
    else 1 + ClosingQuote(s[1..])
  }

  // `replace` of backslashes and then of double quotes.
  function Escape(s: string): string {
    if s == "" then ""
    else (if s[0] == '\\' then "\\\\" else if s[0] == '"' then "\\\"" else [s[0]]) + Escape(s[1..])
  }

  // `after` says that the character before `s` is a backslash.
  function Swap(s: string, after: bool, inDouble: bool): string
    decreases |s|
  {
    if s == "" then ""
    else if s[0] == '"' && !after then "\"" + Swap(s[1..], false, !inDouble)
    else if s[0] == '\'' && !inDouble then
      var j := ClosingQuote(s[1..]);
      "\"" + Escape(s[1..][..j]) + "\"" + if j + 1 < |s| then Swap(s[j + 2..], false, inDouble) else ""
    else [s[0]] + Swap(s[1..], s[0] == '\\', inDouble)
  }

  method FindClosingQuote(text: string, start: nat) returns (j: nat)
    requires start <= |text|
    ensures j == start + ClosingQuote(text[start..])
  {
    j := start;
    while j < |text|
      invariant start <= j <= |text|
      invariant j + ClosingQuote(text[j..]) == start + ClosingQuote(text[start..])
    {
      if text[j] == '\\' && j + 1 < |text| {
        assert text[j..][2..] == text[j + 2..];
        j := j + 2;
        continue;
      }
      if text[j] == '\'' {
        return;
      }
      assert text[j..][1..] == text[j + 1..];
      j := j + 1;
    }
  }

  // What is still to come when the loop is at `i`.
  function From(text: string, i: nat, inDouble: bool): string {
    if i <= |text| then Swap(text[i..], i > 0 && text[i - 1] == '\\', inDouble) else ""
  }

  lemma StepChar(text: string, i: nat, inDouble: bool, result: string)
    requires i < |text| && (text[i] == '\'' ==> inDouble)
    ensures var toggles := text[i] == '"' && !(i > 0 && text[i - 1] == '\\');
      result + From(text, i, inDouble)
        == (result + [text[i]]) + From(text, i + 1, if toggles then !inDouble else inDouble)
  {
    assert text[i..][1..] == text[i + 1..];
    Regroup(result, [text[i]],
      From(text, i + 1, if text[i] == '"' && !(i > 0 && text[i - 1] == '\\') then !inDouble else inDouble));
  }

  lemma LiteralFrom(text: string, i: nat, j: nat)
    requires i < |text| && text[i] == '\'' && j == i + 1 + ClosingQuote(text[i + 1..])
    ensures From(text, i, false) == ("\"" + Escape(text[i + 1..j]) + "\"") + From(text, j + 1, false)
  {
    var rest := text[i..];
    assert rest[1..] == text[i + 1..] && rest[1..][..j - i - 1] == text[i + 1..j];
    assert j < |text| ==> rest[j - i + 1..] == text[j + 1..];
    ClosingQuoteIsAQuote(text[i + 1..]);
  }

  lemma StepLiteral(text: string, i: nat, j: nat, result: string)
    requires i < |text| && text[i] == '\'' && j == i + 1 + ClosingQuote(text[i + 1..])
    ensures result + From(text, i, false)
      == (result + ("\"" + Escape(text[i + 1..j]) + "\"")) + From(text, j + 1, false)
  {
    LiteralFrom(text, i, j);
    Regroup(result, "\"" + Escape(text[i + 1..j]) + "\"", From(text, j + 1, false));
  }

  method SwapQuotes(text: string) returns (result: string)
    ensures result == Swap(text, false, false)
  {
    result := "";
    var i, inDouble := 0, false;
    ghost var all := Swap(text, false, false);
    assert From(text, 0, false) == all by { assert text[0..] == text; }
    while i < |text|
      invariant 0 <= i <= |text| + 1
      invariant result + From(text, i, inDouble) == all
    {
      if text[i] == '"' && (i == 0 || text[i - 1] != '\\') {
        StepChar(text, i, inDouble, result);
        inDouble := !inDouble;
        result := result + ['"'];
        i := i + 1;
      } else if text[i] == '\'' && !inDouble {
        var j := FindClosingQuote(text, i + 1);
        StepLiteral(text, i, j, result);
        result := result + ("\"" + Escape(text[i + 1..j]) + "\"");
        i := j + 1;
      } else {
        StepChar(text, i, inDouble, result);
        result := result + [text[i]];
        i := i + 1;
      }
    }
    assert From(text, i, inDouble) == "";
  }

  lemma {:induction false} ClosingQuoteIsAQuote(s: string)
    ensures ClosingQuote(s) < |s| ==> s[ClosingQuote(s)] == '\''
    decreases |s|
  {
    if s != "" {
      if s[0] == '\\' && |s| > 1 {
        ClosingQuoteIsAQuote(s[2..]);
      } else if s[0] != '\'' {
        ClosingQuoteIsAQuote(s[1..]);
      }
    }
  }

  // ----- lines as token streams -----

  datatype Piece = Raw(c: char) | Esc(c: char)

  datatype Token = Plain(c: char) | Single(body: seq<Piece>) | Double(body: seq<Piece>)

  predicate BodyOk(body: seq<Piece>, quote: char) {
    forall p :: p in body ==> (p.Raw? ==> p.c != '\\' && p.c != quote)
  }

  predicate TokenOk(t: Token) {
    match t
    case Plain(c) => c != '\\' && c != '\'' && c != '"'
    case Single(body) => BodyOk(body, '\'')
    case Double(body) => BodyOk(body, '"')
  }

  // No comment starts inside the stream.
  predicate StreamOk(tokens: seq<Token>) {
    tokens == [] || (
      && TokenOk(tokens[0])
      && (tokens[0] == Plain('/') && |tokens| > 1 ==> tokens[1] != Plain('/'))
      && StreamOk(tokens[1..]))
  }

  function PieceText(p: Piece): string {
    match p case Raw(c) => [c] case Esc(c) => ['\\', c]
  }

  function Text(body: seq<Piece>): string {
    if body == [] then "" else PieceText(body[0]) + Text(body[1..])
  }

  lemma TextFront(body: seq<Piece>, t: string)
    requires body != []
    ensures Text(body) + t == PieceText(body[0]) + (Text(body[1..]) + t)
  {
  }

  function Literal(body: seq<Piece>, quote: char): string {
    [quote] + Text(body) + [quote]
  }

  function TokenText(t: Token): string {
    match t
    case Plain(c) => [c]
    case Single(body) => Literal(body, '\'')
    case Double(body) => Literal(body, '"')
  }

  function Render(tokens: seq<Token>): string {
    if tokens == [] then "" else TokenText(tokens[0]) + Render(tokens[1..])
  }

  // The text in which each single-quoted literal became a double-quoted one.
  function RenderJson(tokens: seq<Token>): string {
    if tokens == [] then ""
    else (match tokens[0]
          case Single(body) => "\"" + Escape(Text(body)) + "\""
          case t => TokenText(t)) + RenderJson(tokens[1..])
  }

  lemma CutPiece(p: Piece, quote: char, rest: string)
    requires (quote == '\'' || quote == '"') && (p.Raw? ==> p.c != '\\' && p.c != quote)
    ensures Cut(PieceText(p) + rest, quote == '\'', quote == '"')
      == |PieceText(p)| + Cut(rest, quote == '\'', quote == '"')
  {
    assert (PieceText(p) + rest)[|PieceText(p)|..] == rest;
  }

  lemma {:induction false} CutBody(body: seq<Piece>, quote: char, rest: string)
    requires (quote == '\'' || quote == '"') && BodyOk(body, quote)
    ensures Cut(Text(body) + ([quote] + rest), quote == '\'', quote == '"')
      == |Text(body)| + 1 + Cut(rest, false, false)
  {
    if body == [] {
      assert Text(body) + ([quote] + rest) == [quote] + rest && ([quote] + rest)[1..] == rest;
    } else {
      assert body[0] in body;
      TextFront(body, [quote] + rest);
      CutPiece(body[0], quote, Text(body[1..]) + ([quote] + rest));
      CutBody(body[1..], quote, rest);
    }
  }

  lemma CutLiteral(body: seq<Piece>, quote: char, rest: string)
    requires (quote == '\'' || quote == '"') && BodyOk(body, quote)
    ensures Cut(Literal(body, quote) + rest, false, false) == |Literal(body, quote)| + Cut(rest, false, false)
  {
    var s := Literal(body, quote) + rest;
    assert s[0] == quote && s[1..] == Text(body) + ([quote] + rest);
    CutBody(body, quote, rest);
  }

  lemma CutToken(t: Token, rest: string)
    requires TokenOk(t) && (t == Plain('/') ==> rest == "" || rest[0] != '/')
    ensures Cut(TokenText(t) + rest, false, false) == |TokenText(t)| + Cut(rest, false, false)
  {
    match t
    case Plain(c) => assert ([c] + rest)[1..] == rest;
    case Single(body) => CutLiteral(body, '\'', rest);
    case Double(body) => CutLiteral(body, '"', rest);
  }

  // A stream starts with a slash only if its first token is one.
  lemma RenderStarts(tokens: seq<Token>)
    requires tokens != [] && TokenOk(tokens[0])
    ensures Render(tokens) != "" && (Render(tokens)[0] == '/' <==> tokens[0] == Plain('/'))
  {
  }

  // The first token and the others are passed one after the other.
  lemma CutFront(tokens: seq<Token>, rest: string)
    requires tokens != []
    requires Cut(TokenText(tokens[0]) + (Render(tokens[1..]) + rest), false, false)
          == |TokenText(tokens[0])| + Cut(Render(tokens[1..]) + rest, false, false)
    ensures Cut(Render(tokens) + rest, false, false)
      == |TokenText(tokens[0])| + Cut(Render(tokens[1..]) + rest, false, false)
    ensures |Render(tokens)| == |TokenText(tokens[0])| + |Render(tokens[1..])|
  {
    assert Render(tokens) + rest == TokenText(tokens[0]) + (Render(tokens[1..]) + rest);
  }

  // The slash of a division is not followed by another one.
  lemma TailHasNoSlash(tokens: seq<Token>, rest: string)
    requires StreamOk(tokens) && tokens != [] && tokens[0] == Plain('/')
    requires tokens[|tokens| - 1] == Plain('/') ==> rest == "" || rest[0] != '/'
    ensures var tail := Render(tokens[1..]) + rest; tail == "" || tail[0] != '/'
  {
    if tokens[1..] == [] {
      assert Render(tokens[1..]) + rest == rest;
    } else {
      RenderStarts(tokens[1..]);
    }
  }

  lemma {:induction false} CutStream(tokens: seq<Token>, rest: string)
    requires StreamOk(tokens)
    requires tokens != [] && tokens[|tokens| - 1] == Plain('/') ==> rest == "" || rest[0] != '/'
    ensures Cut(Render(tokens) + rest, false, false) == |Render(tokens)| + Cut(rest, false, false)
  {
    if tokens == [] {
      assert Render(tokens) + rest == rest;
    } else {
      var tail := Render(tokens[1..]) + rest;
      if tokens[0] == Plain('/') {
        TailHasNoSlash(tokens, rest);
      }
      CutToken(tokens[0], tail);
      CutStream(tokens[1..], rest);
      CutFront(tokens, rest);
    }
  }

  // ----- main results: comments -----

  /** A line of tokens and a comment is cut exactly where the comment starts, however many
      slashes, quotes and escapes the literals hold. */
  lemma CutsAtTheComment(tokens: seq<Token>, comment: string)
    requires StreamOk(tokens) && (tokens != [] ==> tokens[|tokens| - 1] != Plain('/'))
    ensures Kept(Render(tokens) + ("//" + comment)) == Render(tokens)
  {
    CutStream(tokens, "//" + comment);
    assert Cut("//" + comment, false, false) == 0;
    assert (Render(tokens) + ("//" + comment))[..|Render(tokens)|] == Render(tokens);
  }

  lemma {:induction false} StreamIsNotCut(tokens: seq<Token>)
    requires StreamOk(tokens)
    ensures Cut(Render(tokens), false, false) == |Render(tokens)|
  {
    if tokens != [] {
      if tokens[1..] != [] {
        RenderStarts(tokens[1..]);
      }
      CutToken(tokens[0], Render(tokens[1..]));
      StreamIsNotCut(tokens[1..]);
    }
  }

  /** A line of tokens without a comment is not cut. */
  lemma NothingElseIsCut(tokens: seq<Token>)
    requires StreamOk(tokens)
    ensures Kept(Render(tokens)) == Render(tokens)
  {
    StreamIsNotCut(tokens);
  }

  // ----- single-quoted literals -----

  lemma {:induction false} FindsItsQuote(body: seq<Piece>, rest: string)
    requires BodyOk(body, '\'')
    ensures ClosingQuote(Text(body) + ("'" + rest)) == |Text(body)|
  {
    var s := Text(body) + ("'" + rest);
    if body != [] {
      assert body[0] in body;
      var tail := Text(body[1..]) + ("'" + rest);
      FindsItsQuote(body[1..], rest);
      match body[0]
      case Raw(c) => assert s == [c] + tail && s[1..] == tail;
      case Esc(c) => assert s == ['\\', c] + tail && s[2..] == tail;
    }
  }

  lemma SwapSingle(body: seq<Piece>, rest: string)
    requires BodyOk(body, '\'')
    ensures Swap(TokenText(Single(body)) + rest, false, false)
      == "\"" + Escape(Text(body)) + "\"" + Swap(rest, false, false)
  {
    var s, inner := TokenText(Single(body)) + rest, Text(body) + ("'" + rest);
    FindsItsQuote(body, rest);
    assert s == "'" + inner && s[1..] == inner;
    assert inner[..|Text(body)|] == Text(body);
    assert s[|Text(body)| + 2..] == rest;
  }

  // ----- double-quoted literals -----

  // The text does not end in a backslash, so the closing quote is not taken for an escaped one.
  predicate EndsPlainly(body: seq<Piece>) {
    body == [] || body[|body| - 1] != Esc('\\')
  }

  // Each double quote of `x` follows a backslash; `after` says that `x` itself does.
  predicate Guarded(x: string, after: bool) {
    x == "" || ((x[0] == '"' ==> after) && Guarded(x[1..], x[0] == '\\'))
  }

  // Whether what follows `x` follows a backslash.
  function EndsIn(x: string, after: bool): bool {
    if x == "" then after else x[|x| - 1] == '\\'
  }

  // Inside a literal everything guarded is copied, outside everything without single quotes.
  lemma {:induction false} Copies(x: string, y: string, after: bool, inDouble: bool)
    requires Guarded(x, after) && (inDouble || '\'' !in x)
    ensures Swap(x + y, after, inDouble) == x + Swap(y, EndsIn(x, after), inDouble)
  {
    if x == "" {
      assert x + y == y && x + Swap(y, after, inDouble) == Swap(y, after, inDouble);
    } else {
      assert (x + y)[0] == x[0] && (x + y)[1..] == x[1..] + y;
      Copies(x[1..], y, x[0] == '\\', inDouble);
      Regroup([x[0]], x[1..], Swap(y, EndsIn(x, after), inDouble));
      assert [x[0]] + x[1..] == x;
    }
  }

  lemma {:induction false} TextIsGuarded(body: seq<Piece>, after: bool)
    requires BodyOk(body, '"')
    ensures Guarded(Text(body), after)
    ensures EndsIn(Text(body), false) == !EndsPlainly(body)
  {
    if body != [] {
      assert body[0] in body;
      var rest, piece := Text(body[1..]), PieceText(body[0]);
      TextIsGuarded(body[1..], body[0] == Esc('\\'));
      assert Text(body)[|piece|..] == rest;
      if body[0].Esc? {
        assert Text(body)[1..] == [body[0].c] + rest && ([body[0].c] + rest)[1..] == rest;
      } else {
        assert Text(body)[1..] == rest;
      }
      if body[1..] == [] {
        assert Text(body) == piece;
      } else {
        assert body[1..][|body| - 2] == body[|body| - 1] && rest != "";
      }
    }
  }

  lemma DoubleText(body: seq<Piece>, rest: string)
    ensures TokenText(Double(body)) + rest == "\"" + (Text(body) + ("\"" + rest))
  {
  }

  // A quote toggles unless it follows a backslash; it is copied either way.
  lemma SwapQuote(rest: string, after: bool, inDouble: bool)
    ensures Swap("\"" + rest, after, inDouble) == "\"" + Swap(rest, false, if after then inDouble else !inDouble)
  {
    assert ("\"" + rest)[1..] == rest;
  }

  // A double-quoted literal that is met inside a literal (`inDouble`) or outside.
  lemma SwapDouble(body: seq<Piece>, rest: string, inDouble: bool)
    requires BodyOk(body, '"') && (inDouble ==> '\'' !in Text(body))
    ensures Swap(TokenText(Double(body)) + rest, false, inDouble)
         == TokenText(Double(body)) + Swap(rest, false, inDouble != !EndsPlainly(body))
  {
    var inner, after := Text(body) + ("\"" + rest), Swap(rest, false, inDouble != !EndsPlainly(body));
    DoubleText(body, rest);
    SwapQuote(inner, false, inDouble);
    TextIsGuarded(body, false);
    Copies(Text(body), "\"" + rest, false, !inDouble);
    SwapQuote(rest, !EndsPlainly(body), !inDouble);
    DoubleText(body, after);
  }

  // ----- main results: quotes -----

  lemma SameFront(a: string, x: string, y: string)
    ensures a + x == a + y <==> x == y
  {
    assert (a + x)[|a|..] == x && (a + y)[|a|..] == y;
  }

  /** What does not upset the swapper. `inDouble` says that it takes the place for the inside
      of a double-quoted literal: it does after such a literal that ends in an escaped
      backslash, until the next one of that kind. Then no single-quoted literal may come, and
      no single quote inside a double-quoted one. */
  predicate Unharmed(tokens: seq<Token>, inDouble: bool) {
    tokens == [] ||
    match tokens[0]
    case Plain(_) => Unharmed(tokens[1..], inDouble)
    case Single(_) => !inDouble && Unharmed(tokens[1..], inDouble)
    case Double(body) => (inDouble ==> '\'' !in Text(body)) && Unharmed(tokens[1..], inDouble != !EndsPlainly(body))
  }

  lemma DifferAt(a: string, b: string, k: nat)
    requires k < |a| && k < |b| && a[k] != b[k]
    ensures a != b
  {
  }

  // A single-quoted literal that is taken for text is not replaced.
  lemma SingleInside(body: seq<Piece>, rest: string, other: string)
    ensures Swap(TokenText(Single(body)) + rest, false, true) != "\"" + Escape(Text(body)) + "\"" + other
  {
    var s := TokenText(Single(body)) + rest;
    assert s[0] == '\'' && Swap(s, false, true)[0] == '\'';
    DifferAt(Swap(s, false, true), "\"" + Escape(Text(body)) + "\"" + other, 0);
  }

  // Outside, the first single quote of a guarded text comes out as a double one.
  lemma QuoteIsReplaced(x: string, more: string)
    requires Guarded(x, false) && '\'' in x
    ensures var k := FirstQuote(x); |Swap(x + more, false, false)| > k && Swap(x + more, false, false)[k] == '"'
  {
    var k := FirstQuote(x);
    var tail := x[k..] + more;
    GuardedPrefix(x, k, false);
    assert x + more == x[..k] + tail && tail[0] == '\'';
    Copies(x[..k], tail, false, false);
    assert Swap(tail, EndsIn(x[..k], false), false)[0] == '"';
  }

  // A single quote inside a double-quoted literal that is taken for text is replaced.
  lemma DoubleInside(body: seq<Piece>, rest: string, other: string)
    requires BodyOk(body, '"') && '\'' in Text(body)
    ensures Swap(TokenText(Double(body)) + rest, false, true) != TokenText(Double(body)) + other
  {
    var x, k := Text(body), FirstQuote(Text(body));
    TextIsGuarded(body, false);
    DoubleText(body, rest);
    DoubleText(body, other);
    SwapQuote(x + ("\"" + rest), false, true);
    QuoteIsReplaced(x, "\"" + rest);
    OneFurther(Swap(x + ("\"" + rest), false, false), x + ("\"" + other), k);
  }

  lemma OneFurther(a: string, b: string, k: nat)
    requires k < |a| && k < |b| && a[k] != b[k]
    ensures "\"" + a != "\"" + b
  {
    assert ("\"" + a)[k + 1] == a[k] && ("\"" + b)[k + 1] == b[k];
  }

  function FirstQuote(x: string): (k: nat)
    requires '\'' in x
    ensures k < |x| && x[k] == '\'' && '\'' !in x[..k]
  {
    if x[0] == '\'' then 0 else 1 + FirstQuote(x[1..])
  }

  lemma {:induction false} GuardedPrefix(x: string, k: nat, after: bool)
    requires Guarded(x, after) && k <= |x|
    ensures Guarded(x[..k], after)
  {
    if k > 0 {
      GuardedPrefix(x[1..], k - 1, x[0] == '\\');
      assert x[..k][1..] == x[1..][..k - 1];
    }
  }

  lemma {:induction false} SwapIff(tokens: seq<Token>, inDouble: bool)
    requires forall t :: t in tokens ==> TokenOk(t)
    ensures Swap(Render(tokens), false, inDouble) == RenderJson(tokens) <==> Unharmed(tokens, inDouble)
  {
    if tokens != [] {
      var rest, json := Render(tokens[1..]), RenderJson(tokens[1..]);
      assert tokens[0] in tokens;
      match tokens[0]
      case Plain(c) =>
        SwapIff(tokens[1..], inDouble);
        assert ([c] + rest)[1..] == rest;
        SameFront([c], Swap(rest, false, inDouble), json);
      case Single(body) =>
        if inDouble {
          SingleInside(body, rest, json);
        } else {
          SwapIff(tokens[1..], inDouble);
          SwapSingle(body, rest);
          SameFront("\"" + Escape(Text(body)) + "\"", Swap(rest, false, false), json);
        }
      case Double(body) =>
        if inDouble && '\'' in Text(body) {
          DoubleInside(body, rest, json);
        } else {
          SwapIff(tokens[1..], inDouble != !EndsPlainly(body));
          SwapDouble(body, rest, inDouble);
          SameFront(TokenText(Double(body)), Swap(rest, false, inDouble != !EndsPlainly(body)), json);
        }
    }
  }

  /** Single-quoted literals, and nothing else, are replaced, each by its own text between
      double quotes with backslashes and double quotes escaped: for every stream of tokens
      exactly when no literal meets the swapper in the wrong state. */
  lemma SwapsExactlyTheSinglesIff(tokens: seq<Token>)
    requires forall t :: t in tokens ==> TokenOk(t)
    ensures Swap(Render(tokens), false, false) == RenderJson(tokens) <==> Unharmed(tokens, false)
  {
    SwapIff(tokens, false);
  }

  predicate SwapsWell(t: Token) {
    TokenOk(t) && (t.Double? ==> EndsPlainly(t.body))
  }

  /** It never is in the wrong state without a double-quoted literal that ends in an escaped
      backslash. */
  lemma {:induction false} SwapsExactlyTheSingles(tokens: seq<Token>)
    requires forall t :: t in tokens ==> SwapsWell(t)
    ensures Swap(Render(tokens), false, false) == RenderJson(tokens)
  {
    WellIsUnharmed(tokens);
    SwapIff(tokens, false);
  }

  lemma {:induction false} WellIsUnharmed(tokens: seq<Token>)
    requires forall t :: t in tokens ==> SwapsWell(t)
    ensures Unharmed(tokens, false)
  {
    if tokens != [] {
      assert tokens[0] in tokens;
      WellIsUnharmed(tokens[1..]);
    }
  }

  // The characters of a JSON string (RFC 8259 section 7) without its quotes; of its
  // escapes only the two the swapper writes.
  function JsonChars(s: string): Option<string>
    decreases |s|
  {
    if s == "" then Some("")
    else if s[0] == '"' || s[0] < ' ' then None
    else if s[0] == '\\' then
      if |s| > 1 && (s[1] == '\\' || s[1] == '"') then
        match JsonChars(s[2..]) case None => None case Some(r) => Some([s[1]] + r)
      else None
    else match JsonChars(s[1..]) case None => None case Some(r) => Some([s[0]] + r)
  }

  predicate Printable(s: string) {
    forall i :: 0 <= i < |s| ==> s[i] >= ' '
  }

  lemma {:induction false} EscapeDecodes(s: string)
    requires Printable(s)
    ensures JsonChars(Escape(s)) == Some(s)
  {
    if s != "" {
      EscapeDecodes(s[1..]);
      var e := Escape(s[1..]);
      assert [s[0]] + s[1..] == s;
      if s[0] == '\\' {
        assert ("\\\\" + e)[2..] == e;
      } else if s[0] == '"' {
        assert ("\\\"" + e)[2..] == e;
      } else {
        assert ([s[0]] + e)[1..] == e;
      }
    }
  }

  // ----- what a literal means in TypeScript, in UTF-16 code units -----

  function CodePoint(v: int): seq<int>
    requires 0 <= v <= 0x10FFFF
  {
    if v < 0x10000 then [v] else [0xD800 + (v - 0x10000) / 0x400, 0xDC00 + (v - 0x10000) % 0x400]
  }

  function Units(s: string): seq<int> {
    if s == "" then [] else CodePoint(s[0] as int) + Units(s[1..])
  }

  function HexDigit(p: Piece): Option<int> {
    if p.Esc? then None
    else if '0' <= p.c <= '9' then Some(p.c as int - '0' as int)
    else if 'a' <= p.c <= 'f' then Some(p.c as int - 'a' as int + 10)
    else if 'A' <= p.c <= 'F' then Some(p.c as int - 'A' as int + 10)
    else None
  }

  // How many hex digits come first, and their value.
  function HexRun(body: seq<Piece>): (n: nat)
    ensures n <= |body|
  {
    if body == [] || HexDigit(body[0]).None? then 0 else 1 + HexRun(body[1..])
  }

  function HexValue(body: seq<Piece>, n: nat): int
    requires n <= HexRun(body)
  {
    if n == 0 then 0 else HexValue(body, n - 1) * 16 + HexDigitAt(body, n - 1)
  }

  function HexDigitAt(body: seq<Piece>, k: nat): int
    requires k < HexRun(body)
  {
    if k == 0 then HexDigit(body[0]).value else HexDigitAt(body[1..], k - 1)
  }

  /** The escape that starts a body: the units it stands for and the pieces it takes. None is
      a syntax error. */
  function Escaped(body: seq<Piece>): (r: Option<(seq<int>, nat)>)
    requires body != [] && body[0].Esc?
    ensures r.Some? ==> 0 < r.value.1 <= |body|
    ensures r.Some? ==> |r.value.0| <= |CodePoint(body[0].c as int)| || (r.value.1 >= 3 && |r.value.0| <= 2)
  {
    var c, rest := body[0].c, body[1..];
    if c == 'x' then
      if HexRun(rest) >= 2 then Some(([HexValue(rest, 2)], 3)) else None
    else if c == 'u' && rest != [] && rest[0] == Raw('{') then
      var n := HexRun(rest[1..]);
      if n >= 1 && n + 2 <= |rest| && rest[n + 1] == Raw('}') && 0 <= HexValue(rest[1..], n) <= 0x10FFFF
      then Some((CodePoint(HexValue(rest[1..], n)), n + 3)) else None
    else if c == 'u' then
      if HexRun(rest) >= 4 then Some(([HexValue(rest, 4)], 5)) else None
    else if '0' <= c <= '9' then
      if c == '0' && (rest == [] || rest[0].Esc? || !('0' <= rest[0].c <= '9')) then Some(([0], 1)) else None
    else if c in "\n\r\U{2028}\U{2029}" then Some(([], 1))
    else Some((SimpleEscape(c), 1))
  }

  function SimpleEscape(c: char): (units: seq<int>)
    ensures |units| <= |CodePoint(c as int)|
  {
    if c == 'n' then [10] else if c == 't' then [9] else if c == 'r' then [13]
    else if c == 'b' then [8] else if c == 'f' then [12] else if c == 'v' then [11]
    else CodePoint(c as int)
  }

  /** The value of a single-quoted literal; None for one that is a syntax error. */
  function Meaning(body: seq<Piece>): Option<seq<int>>
    decreases |body|
  {
    if body == [] then Some([])
    else if body[0].Raw? then
      match Meaning(body[1..]) case None => None case Some(m) => Some(CodePoint(body[0].c as int) + m)
    else
      match Escaped(body)
      case None => None
      case Some((units, taken)) =>
        match Meaning(body[taken..]) case None => None case Some(m) => Some(units + m)
  }

  lemma {:induction false} UnitsConcat(s: string, t: string)
    ensures Units(s + t) == Units(s) + Units(t)
  {
    if s == "" {
      assert s + t == t;
    } else {
      assert (s + t)[1..] == s[1..] + t;
      UnitsConcat(s[1..], t);
    }
  }

  lemma PieceUnits(body: seq<Piece>)
    requires body != []
    ensures Units(Text(body)) == Units(PieceText(body[0])) + Units(Text(body[1..]))
    ensures body[0].Raw? ==> Units(PieceText(body[0])) == CodePoint(body[0].c as int)
    ensures body[0].Esc? ==> |Units(PieceText(body[0]))| == 1 + |CodePoint(body[0].c as int)|
  {
    UnitsConcat(PieceText(body[0]), Text(body[1..]));
    assert [body[0].c][1..] == "";
    assert ['\\', body[0].c][1..] == [body[0].c];
  }

  // Pieces have a unit each, or more.
  lemma {:induction false} DropUnits(body: seq<Piece>, k: nat)
    requires k <= |body|
    ensures |Units(Text(body))| >= k + |Units(Text(body[k..]))|
  {
    if k > 0 {
      PieceUnits(body);
      DropUnits(body[1..], k - 1);
      assert body[1..][k - 1..] == body[k..];
    } else {
      assert body[0..] == body;
    }
  }

  // A text loses more units with its first pieces than an escape stands for.
  lemma TakingLosesMore(body: seq<Piece>, units: nat, taken: nat)
    requires body != [] && body[0].Esc? && 0 < taken <= |body|
    requires units <= |CodePoint(body[0].c as int)| || (taken >= 3 && units <= 2)
    ensures units + |Units(Text(body[taken..]))| < |Units(Text(body))|
  {
    PieceUnits(body);
    DropUnits(body[1..], taken - 1);
    assert body[1..][taken - 1..] == body[taken..];
  }

  lemma {:induction false} MeaningIsShorter(body: seq<Piece>)
    ensures Meaning(body).Some? ==> |Meaning(body).value| <= |Units(Text(body))|
    ensures Meaning(body).Some? && (exists p :: p in body && p.Esc?) ==> |Meaning(body).value| < |Units(Text(body))|
    ensures (forall p :: p in body ==> p.Raw?) ==> Meaning(body) == Some(Units(Text(body)))
    decreases |body|
  {
    if body != [] {
      assert body == [body[0]] + body[1..];
      if body[0].Raw? {
        MeaningIsShorter(body[1..]);
        PieceUnits(body);
      } else if Escaped(body).Some? {
        var (units, taken) := Escaped(body).value;
        TakingLosesMore(body, |units|, taken);
        MeaningIsShorter(body[taken..]);
      }
    }
  }

  /** The JSON string written for a single-quoted literal without control characters reads
      as the literal's own source text. So it has the literal's meaning exactly when the
      literal holds no escape, of any kind; each backslash comes through doubled. */
  lemma LiteralKeepsItsMeaningIff(body: seq<Piece>)
    requires Printable(Text(body))
    ensures JsonChars(Escape(Text(body))) == Some(Text(body))
    ensures Meaning(body) == Some(Units(JsonChars(Escape(Text(body))).value)) <==> forall p :: p in body ==> p.Raw?
  {
    EscapeDecodes(Text(body));
    MeaningIsShorter(body);
  }
}
