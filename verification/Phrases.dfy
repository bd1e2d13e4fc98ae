/** Two words in a list of texts that are joined by spaces, empty ones left out. */
module Phrases {
  import opened Common
  import opened Text
  import opened GrantParser

  // The first text that is not empty starts with the word.
  predicate Leads(texts: seq<string>, b: string) {
    texts != [] && if texts[0] == "" then Leads(texts[1..], b) else StartsWith(texts[0], b)
  }

  // Both words are in the text at `i`, or it ends with the first and the next one that is
  // not empty starts with the second.
  ghost predicate SaysAt(texts: seq<string>, a: string, b: string, i: nat) {
    i < |texts| && (Occurs(texts[i], a + " " + b) || (EndsWith(texts[i], a) && Leads(texts[i + 1..], b)))
  }

  ghost predicate Says(texts: seq<string>, a: string, b: string) {
    exists i: nat :: SaysAt(texts, a, b, i)
  }

  function Joined(texts: seq<string>): string {
    Join(NonEmpty(texts), ' ')
  }

  lemma JoinedFirst(texts: seq<string>)
    requires texts != []
    ensures Joined(texts) ==
      if texts[0] == "" then Joined(texts[1..])
      else if NonEmpty(texts[1..]) == [] then texts[0]
      else texts[0] + " " + Joined(texts[1..])
  {
    var rest := NonEmpty(texts[1..]);
    if texts[0] == "" {
      assert [] + rest == rest;
    } else {
      assert ([texts[0]] + rest)[1..] == rest;
    }
  }

  lemma {:induction false} AllEmpty(texts: seq<string>, b: string)
    requires NonEmpty(texts) == [] && b != ""
    ensures Joined(texts) == "" && !Leads(texts, b)
  {
    if texts != [] {
      AllEmpty(texts[1..], b);
      JoinedFirst(texts);
    }
  }

  lemma StartIsInFront(x: string, y: string, b: string)
    requires ' ' !in b
    ensures StartsWith(x + " " + y, b) <==> StartsWith(x, b)
  {
    var s := x + " " + y;
    if |b| <= |x| {
      assert s[..|b|] == x[..|b|];
    } else if |b| <= |s| {
      assert s[..|b|][|x|] == ' ' && b[|x|] in b;
    }
  }

  lemma {:induction false} JoinedLeads(texts: seq<string>, b: string)
    requires ' ' !in b && b != ""
    ensures StartsWith(Joined(texts), b) <==> Leads(texts, b)
  {
    if texts != [] {
      JoinedLeads(texts[1..], b);
      JoinedFirst(texts);
      StartIsInFront(texts[0], Joined(texts[1..]), b);
    }
  }

  lemma SaysLater(texts: seq<string>, a: string, b: string, i: nat)
    requires texts != []
    ensures SaysAt(texts, a, b, i + 1) <==> SaysAt(texts[1..], a, b, i)
  {
    if i + 1 < |texts| {
      assert texts[1..][i] == texts[i + 1] && texts[1..][i + 1..] == texts[i + 2..];
    }
  }

  lemma SaysFirst(texts: seq<string>, a: string, b: string)
    requires texts != []
    ensures Says(texts, a, b) <==> SaysAt(texts, a, b, 0) || Says(texts[1..], a, b)
  {
    if i: nat :| SaysAt(texts, a, b, i) {
      if i > 0 {
        SaysLater(texts, a, b, i - 1);
      }
    }
    if i: nat :| SaysAt(texts[1..], a, b, i) {
      SaysLater(texts, a, b, i);
    }
  }

  lemma NothingOccursInNothing(sub: string)
    requires sub != ""
    ensures !Occurs("", sub)
  {
  }

  lemma {:induction false} EmptySaysNothing(texts: seq<string>, a: string, b: string)
    requires NonEmpty(texts) == [] && a != "" && b != ""
    ensures !Says(texts, a, b)
  {
    if texts != [] {
      EmptySaysNothing(texts[1..], a, b);
      SaysFirst(texts, a, b);
      NothingOccursInNothing(a + " " + b);
    }
  }

  /** Two words occur in the joined texts exactly when they occur in one of them, or one text
      ends with the first word and the next one starts with the second. */
  lemma {:induction false} JoinedSays(texts: seq<string>, a: string, b: string)
    requires ' ' !in a && ' ' !in b && a != "" && b != ""
    ensures Occurs(Joined(texts), a + " " + b) <==> Says(texts, a, b)
  {
    NothingOccursInNothing(a + " " + b);
    if NonEmpty(texts) == [] {
      AllEmpty(texts, b);
      EmptySaysNothing(texts, a, b);
    } else {
      var rest := texts[1..];
      JoinedSays(rest, a, b);
      JoinedFirst(texts);
      SaysFirst(texts, a, b);
      assert texts[0 + 1..] == rest;
      JoinedLeads(rest, b);
      if NonEmpty(rest) == [] {
        AllEmpty(rest, b);
      } else {
        PhraseAcross(texts[0], Joined(rest), a, b);
      }
    }
  }

  lemma {:induction false} LowerConcat(x: string, y: string)
    ensures Lower(x + y) == Lower(x) + Lower(y)
  {
    if x == "" {
      assert x + y == y;
    } else {
      assert (x + y)[1..] == x[1..] + y;
      LowerConcat(x[1..], y);
    }
  }

  lemma LoweredFirst(texts: seq<string>)
    requires texts != []
    ensures Lowered(texts) != [] && Lowered(texts)[0] == Lower(texts[0]) && Lowered(texts)[1..] == Lowered(texts[1..])
  {
  }

  lemma {:induction false} LowerJoined(texts: seq<string>)
    ensures Lower(Joined(texts)) == Joined(Lowered(texts))
    ensures NonEmpty(texts) == [] <==> NonEmpty(Lowered(texts)) == []
  {
    if texts != [] {
      LowerJoined(texts[1..]);
      JoinedFirst(texts);
      JoinedFirst(Lowered(texts));
      LoweredFirst(texts);
      LowerConcat(texts[0] + " ", Joined(texts[1..]));
      LowerConcat(texts[0], " ");
      assert Lower(" ") == " ";
    }
  }
}
