/** Decoding of the webhook signature: hex first, then base64 in its two alphabets. */
module Signature {
  import opened Common
  import opened Text

  type byte = b: int | 0 <= b < 256

  const DIGEST: nat := 32

  // ----- base64 text of bytes, RFC 4648 sections 4 and 5 -----

  type sextet = v: int | 0 <= v < 64

  function Symbol(v: sextet, urlSafe: bool): char {
    if v < 26 then ('A' as int + v) as char
    else if v < 52 then ('a' as int + v - 26) as char
    else if v < 62 then ('0' as int + v - 52) as char
    else if v == 62 then (if urlSafe then '-' else '+')
    else (if urlSafe then '_' else '/')
  }

  // The symbols of one, two and three bytes.
  function One(a: byte, urlSafe: bool): string {
    [Symbol(a / 4, urlSafe), Symbol(a % 4 * 16, urlSafe)]
  }

  function Two(a: byte, b: byte, urlSafe: bool): string {
    [Symbol(a / 4, urlSafe), Symbol(a % 4 * 16 + b / 16, urlSafe), Symbol(b % 16 * 4, urlSafe)]
  }

  function Three(a: byte, b: byte, c: byte, urlSafe: bool): string {
    [Symbol(a / 4, urlSafe), Symbol(a % 4 * 16 + b / 16, urlSafe),
     Symbol(b % 16 * 4 + c / 64, urlSafe), Symbol(c % 64, urlSafe)]
  }

  function Encode(d: seq<byte>, urlSafe: bool, pad: bool): string {
    if d == [] then ""
    else if |d| == 1 then One(d[0], urlSafe) + if pad then "==" else ""
    else if |d| == 2 then Two(d[0], d[1], urlSafe) + if pad then "=" else ""
    else Three(d[0], d[1], d[2], urlSafe) + Encode(d[3..], urlSafe, pad)
  }

  // ----- the lenient decoder of Python's binascii -----

  function Value(c: char): Option<sextet> {
    if 'A' <= c <= 'Z' then Some(c as int - 'A' as int)
    else if 'a' <= c <= 'z' then Some(c as int - 'a' as int + 26)
    else if '0' <= c <= '9' then Some(c as int - '0' as int + 52)
    else if c == '+' then Some(62)
    else if c == '/' then Some(63)
    else None
  }

  // `quad` symbols of the current group were read, `left` holds their bits not yet written.
  datatype Reader = Reader(quad: int, left: int, pads: int, out: seq<byte>)

  predicate ReaderOk(r: Reader) {
    && 0 <= r.quad < 4 && r.pads >= 0
    && 0 <= r.left < (match r.quad case 0 => 1 case 1 => 64 case 2 => 16 case _ => 4)
  }

  function Read(r: Reader, v: sextet): (r': Reader)
    requires ReaderOk(r)
    ensures ReaderOk(r')
  {
    match r.quad
    case 0 => Reader(1, v, 0, r.out)
    case 1 => Reader(2, v % 16, 0, r.out + [r.left * 4 + v / 16])
    case 2 => Reader(3, v % 4, 0, r.out + [r.left * 16 + v / 4])
    case _ => Reader(0, 0, 0, r.out + [r.left * 64 + v])
  }

  // Characters outside the alphabet are skipped; enough padding ends the reading.
  function Decode64(s: string, r: Reader): Option<seq<byte>>
    requires ReaderOk(r)
    decreases |s|
  {
    if s == "" then (if r.quad == 0 then Some(r.out) else None)
    else if s[0] == '=' then
      if r.quad < 2 then Decode64(s[1..], r)
      else if r.quad + r.pads + 1 >= 4 then Some(r.out)
      else Decode64(s[1..], r.(pads := r.pads + 1))
    else
      match Value(s[0])
      case Some(v) => Decode64(s[1..], Read(r, v))
      case None => Decode64(s[1..], r)
  }

  const START: Reader := Reader(0, 0, 0, [])

  function FromUrlSafe(s: string): (t: string)
    ensures |t| == |s|
  {
    if s == "" then ""
    else [if s[0] == '-' then '+' else if s[0] == '_' then '/' else s[0]] + FromUrlSafe(s[1..])
  }

  // ----- hex, RFC 4648 section 8 -----

  function HexValue(c: char): Option<int> {
    if '0' <= c <= '9' then Some(c as int - '0' as int)
    else if 'a' <= c <= 'f' then Some(c as int - 'a' as int + 10)
    else if 'A' <= c <= 'F' then Some(c as int - 'A' as int + 10)
    else None
  }

  predicate AllHex(s: string) {
    forall c :: c in s ==> HexValue(c).Some?
  }

  function FromHex(s: string): seq<byte>
    requires AllHex(s)
  {
    if |s| < 2 then []
    else
      assert s[0] in s && s[1] in s;
      [HexValue(s[0]).value * 16 + HexValue(s[1]).value] + FromHex(s[2..])
  }

  function HexSymbol(v: int, upper: bool): char
    requires 0 <= v < 16
  {
    if v < 10 then ('0' as int + v) as char
    else if upper then ('A' as int + v - 10) as char
    else ('a' as int + v - 10) as char
  }

  function ToHex(d: seq<byte>, upper: bool): string {
    if d == [] then "" else [HexSymbol(d[0] / 16, upper), HexSymbol(d[0] % 16, upper)] + ToHex(d[1..], upper)
  }

  // ----- the decoder of the bridge -----

  datatype Decoded = Digest(raw: seq<byte>, kind: string) | Undecodable | TypeError

  /** The two base64 decoders are both called with the keyword `validate`. Python 3.11's
      `urlsafe_b64decode` has no such parameter, so that call raises a TypeError, which is
      not among the errors caught. `urlSafeTakesKeyword` says what the library does. */
  function DecodeSignature(received: string, urlSafeTakesKeyword: bool): Decoded {
    var s := Strip(received);
    if |s| == 64 && AllHex(s) then Digest(FromHex(s), "hex")
    else
      var padded := s + Repeat('=', (-|s|) % 4);
      match Decode64(padded, START)
      case Some(raw) => if |raw| == DIGEST then Digest(raw, "base64") else SecondDecoder(padded, urlSafeTakesKeyword)
      case None => SecondDecoder(padded, urlSafeTakesKeyword)
  }

  function SecondDecoder(padded: string, urlSafeTakesKeyword: bool): Decoded {
    if !urlSafeTakesKeyword then TypeError
    else
      match Decode64(FromUrlSafe(padded), START)
      case Some(raw) => if |raw| == DIGEST then Digest(raw, "base64") else Undecodable
      case None => Undecodable
  }

  // ----- base64 round trip -----

  lemma SymbolHasItsValue(v: sextet)
    ensures Value(Symbol(v, false)) == Some(v) && Symbol(v, false) != '='
  {
  }

  lemma ReadSymbol(v: sextet, s: string, r: Reader)
    requires ReaderOk(r)
    ensures Decode64([Symbol(v, false)] + s, r) == Decode64(s, Read(r, v))
  {
    SymbolHasItsValue(v);
    assert ([Symbol(v, false)] + s)[1..] == s;
  }

  lemma ReadTwo(v0: sextet, v1: sextet, s: string, out: seq<byte>)
    ensures Decode64([Symbol(v0, false), Symbol(v1, false)] + s, Reader(0, 0, 0, out))
         == Decode64(s, Reader(2, v1 % 16, 0, out + [v0 * 4 + v1 / 16]))
  {
    assert [Symbol(v0, false), Symbol(v1, false)] + s == [Symbol(v0, false)] + ([Symbol(v1, false)] + s);
    ReadSymbol(v0, [Symbol(v1, false)] + s, Reader(0, 0, 0, out));
    ReadSymbol(v1, s, Reader(1, v0, 0, out));
  }

  lemma ReadThree(v0: sextet, v1: sextet, v2: sextet, s: string, out: seq<byte>)
    ensures Decode64([Symbol(v0, false), Symbol(v1, false), Symbol(v2, false)] + s, Reader(0, 0, 0, out))
         == Decode64(s, Reader(3, v2 % 4, 0, out + [v0 * 4 + v1 / 16, v1 % 16 * 16 + v2 / 4]))
  {
    var rest := [Symbol(v2, false)] + s;
    assert [Symbol(v0, false), Symbol(v1, false), Symbol(v2, false)] + s
      == [Symbol(v0, false), Symbol(v1, false)] + rest;
    ReadTwo(v0, v1, rest, out);
    ReadSymbol(v2, s, Reader(2, v1 % 16, 0, out + [v0 * 4 + v1 / 16]));
    assert out + [v0 * 4 + v1 / 16] + [v1 % 16 * 16 + v2 / 4] == out + [v0 * 4 + v1 / 16, v1 % 16 * 16 + v2 / 4];
  }

  lemma ReadFour(v0: sextet, v1: sextet, v2: sextet, v3: sextet, s: string, out: seq<byte>)
    ensures Decode64([Symbol(v0, false), Symbol(v1, false), Symbol(v2, false), Symbol(v3, false)] + s,
                     Reader(0, 0, 0, out))
         == Decode64(s, Reader(0, 0, 0, out + [v0 * 4 + v1 / 16, v1 % 16 * 16 + v2 / 4, v2 % 4 * 64 + v3]))
  {
    var rest := [Symbol(v3, false)] + s;
    assert [Symbol(v0, false), Symbol(v1, false), Symbol(v2, false), Symbol(v3, false)] + s
        == [Symbol(v0, false), Symbol(v1, false), Symbol(v2, false)] + rest;
    ReadThree(v0, v1, v2, rest, out);
    var two := [v0 * 4 + v1 / 16, v1 % 16 * 16 + v2 / 4];
    ReadSymbol(v3, s, Reader(3, v2 % 4, 0, out + two));
    assert out + two + [v2 % 4 * 64 + v3] == out + [v0 * 4 + v1 / 16, v1 % 16 * 16 + v2 / 4, v2 % 4 * 64 + v3];
  }

  // Cutting two neighbouring bytes into sextets and gluing them again.
  lemma Reglue(a: byte, b: byte, c: byte)
    ensures a / 4 * 4 + (a % 4 * 16 + b / 16) / 16 == a
    ensures (a % 4 * 16 + b / 16) % 16 * 16 + (b % 16 * 4 + c / 64) / 4 == b
    ensures (b % 16 * 4 + c / 64) % 4 * 64 + c % 64 == c
  {
    assert 0 <= b / 16 < 16 && 0 <= c / 64 < 4;
  }

  lemma ReadThreeBytes(a: byte, b: byte, c: byte, s: string, out: seq<byte>)
    ensures Decode64(Three(a, b, c, false) + s, Reader(0, 0, 0, out)) == Decode64(s, Reader(0, 0, 0, out + [a, b, c]))
  {
    ReadFour(a / 4, a % 4 * 16 + b / 16, b % 16 * 4 + c / 64, c % 64, s, out);
    Reglue(a, b, c);
  }

  lemma ReadOneByte(a: byte, out: seq<byte>)
    ensures Decode64(One(a, false) + "==", Reader(0, 0, 0, out)) == Some(out + [a])
  {
    ReadTwo(a / 4, a % 4 * 16, "==", out);
    Reglue(a, 0, 0);
    assert "=="[1..] == "=";
  }

  lemma ReadTwoBytes(a: byte, b: byte, out: seq<byte>)
    ensures Decode64(Two(a, b, false) + "=", Reader(0, 0, 0, out)) == Some(out + [a, b])
  {
    ReadThree(a / 4, a % 4 * 16 + b / 16, b % 16 * 4, "=", out);
    Reglue(a, b, 0);
  }

  lemma {:induction false} DecodeEncode(d: seq<byte>, out: seq<byte>)
    ensures Decode64(Encode(d, false, true), Reader(0, 0, 0, out)) == Some(out + d)
    decreases |d|
  {
    if d == [] {
      assert out + d == out;
    } else if |d| == 1 {
      ReadOneByte(d[0], out);
      assert [d[0]] == d;
    } else if |d| == 2 {
      ReadTwoBytes(d[0], d[1], out);
      assert [d[0], d[1]] == d;
    } else {
      ReadThreeBytes(d[0], d[1], d[2], Encode(d[3..], false, true), out);
      DecodeEncode(d[3..], out + [d[0], d[1], d[2]]);
      assert out + [d[0], d[1], d[2]] + d[3..] == out + d;
    }
  }

  // ----- what the lenient decoder makes of text with foreign characters -----

  function SymbolCount(s: string): nat {
    if s == "" then 0 else (if Value(s[0]).Some? then 1 else 0) + SymbolCount(s[1..])
  }

  // Four symbols are needed for every three bytes.
  lemma {:induction false} BytesNeedSymbols(s: string, r: Reader)
    requires ReaderOk(r) && Decode64(s, r).Some?
    ensures 4 * (|Decode64(s, r).value| - |r.out|) <= 3 * SymbolCount(s) + (if r.quad == 0 then 0 else 4 - r.quad)
    decreases |s|
  {
    if s != "" {
      if s[0] == '=' {
        if r.quad < 2 {
          BytesNeedSymbols(s[1..], r);
        } else if r.quad + r.pads + 1 < 4 {
          BytesNeedSymbols(s[1..], r.(pads := r.pads + 1));
        }
      } else if Value(s[0]).Some? {
        BytesNeedSymbols(s[1..], Read(r, Value(s[0]).value));
      } else {
        BytesNeedSymbols(s[1..], r);
      }
    }
  }

  lemma {:induction false} CountConcat(s: string, t: string)
    ensures SymbolCount(s + t) == SymbolCount(s) + SymbolCount(t)
  {
    if s == "" {
      assert s + t == t;
    } else {
      assert (s + t)[1..] == s[1..] + t;
      CountConcat(s[1..], t);
    }
  }

  predicate Foreign(c: char) {
    c == '-' || c == '_'
  }

  predicate HasForeign(s: string) {
    exists c :: c in s && Foreign(c)
  }

  lemma {:induction false} ForeignAreNotCounted(s: string)
    ensures SymbolCount(s) <= |s|
    ensures HasForeign(s) ==> SymbolCount(s) < |s|
  {
    if s != "" {
      ForeignAreNotCounted(s[1..]);
      assert s == [s[0]] + s[1..];
    }
  }

  // ----- the two alphabets, and the length of the text -----

  lemma PlainSymbol(v: sextet, urlSafe: bool)
    ensures !IsSpace(Symbol(v, urlSafe)) && Symbol(v, urlSafe) != '='
    ensures FromUrlSafe([Symbol(v, true)]) == [Symbol(v, false)]
    ensures !Foreign(Symbol(v, true)) ==> Symbol(v, true) == Symbol(v, false)
  {
    assert [Symbol(v, true)][1..] == "";
  }

  lemma {:induction false} TextLength(d: seq<byte>, urlSafe: bool)
    ensures |Encode(d, urlSafe, false)| == |d| / 3 * 4 + (if |d| % 3 == 0 then 0 else |d| % 3 + 1)
    decreases |d|
  {
    if |d| >= 3 {
      TextLength(d[3..], urlSafe);
    }
  }

  lemma {:induction false} PlainText(d: seq<byte>, urlSafe: bool)
    ensures forall c :: c in Encode(d, urlSafe, false) ==> !IsSpace(c) && c != '='
    decreases |d|
  {
    forall v: sextet ensures !IsSpace(Symbol(v, urlSafe)) && Symbol(v, urlSafe) != '=' {
      PlainSymbol(v, urlSafe);
    }
    if |d| >= 3 {
      PlainText(d[3..], urlSafe);
    }
  }

  function Pads(n: nat): string {
    Repeat('=', if n % 3 == 0 then 0 else 3 - n % 3)
  }

  lemma ShortPadding(d: seq<byte>, urlSafe: bool)
    requires |d| < 3
    ensures Encode(d, urlSafe, true) == Encode(d, urlSafe, false) + Pads(|d|)
  {
    assert Repeat('=', 1) == "=" && Repeat('=', 2) == "==" && Repeat('=', 0) == "";
  }

  lemma PadsStep(n: nat)
    requires n >= 3
    ensures Pads(n - 3) == Pads(n)
  {
  }

  lemma {:induction false} Padding(d: seq<byte>, urlSafe: bool)
    ensures Encode(d, urlSafe, true) == Encode(d, urlSafe, false) + Pads(|d|)
    decreases |d|
  {
    if |d| < 3 {
      ShortPadding(d, urlSafe);
    } else {
      var head, rest, pads := Three(d[0], d[1], d[2], urlSafe), d[3..], Pads(|d|);
      PadsStep(|d|);
      Padding(rest, urlSafe);
      assert Encode(rest, urlSafe, true) == Encode(rest, urlSafe, false) + pads;
      Regroup(head, Encode(rest, urlSafe, false), pads);
    }
  }

  lemma {:induction false} TranslateConcat(s: string, t: string)
    ensures FromUrlSafe(s + t) == FromUrlSafe(s) + FromUrlSafe(t)
  {
    if s == "" {
      assert s + t == t;
    } else {
      assert (s + t)[1..] == s[1..] + t;
      TranslateConcat(s[1..], t);
    }
  }

  lemma {:induction false} TranslateUrlSafe(s: string, t: string)
    requires |s| == |t|
    requires forall i :: 0 <= i < |s| ==> t[i] == (if s[i] == '-' then '+' else if s[i] == '_' then '/' else s[i])
    ensures FromUrlSafe(s) == t
  {
    if s != "" {
      TranslateUrlSafe(s[1..], t[1..]);
    }
  }

  lemma ThreeTranslates(a: byte, b: byte, c: byte)
    ensures FromUrlSafe(Three(a, b, c, true)) == Three(a, b, c, false)
  {
    TranslateUrlSafe(Three(a, b, c, true), Three(a, b, c, false));
  }

  lemma ShortTranslates(d: seq<byte>, pad: bool)
    requires |d| < 3
    ensures FromUrlSafe(Encode(d, true, pad)) == Encode(d, false, pad)
  {
    TranslateUrlSafe(Encode(d, true, pad), Encode(d, false, pad));
  }

  lemma {:induction false} TwoAlphabets(d: seq<byte>, pad: bool)
    ensures FromUrlSafe(Encode(d, true, pad)) == Encode(d, false, pad)
    decreases |d|
  {
    if |d| < 3 {
      ShortTranslates(d, pad);
    } else {
      ThreeTranslates(d[0], d[1], d[2]);
      TwoAlphabets(d[3..], pad);
      TranslateConcat(Three(d[0], d[1], d[2], true), Encode(d[3..], true, pad));
    }
  }

  lemma {:induction false} NothingToTranslate(s: string)
    requires !HasForeign(s)
    ensures FromUrlSafe(s) == s
  {
    if s != "" {
      assert s[0] in s;
      assert forall c :: c in s[1..] ==> c in s;
      NothingToTranslate(s[1..]);
    }
  }

  // ----- main results -----

  lemma OnePadding()
    ensures Pads(DIGEST) == "=" && Repeat('=', (-43) % 4) == "=" && Repeat('=', (-44) % 4) == ""
  {
    assert Repeat('=', 1) == "=" && Repeat('=', 0) == "";
  }

  // What the decoder sees of a 32-byte digest, padded by its sender or not.
  lemma PaddedText(d: seq<byte>, urlSafe: bool, pad: bool)
    requires |d| == DIGEST
    ensures var s := Encode(d, urlSafe, pad);
      Strip(s) == s && |s| != 64 && s + Repeat('=', (-|s|) % 4) == Encode(d, urlSafe, true)
    ensures |Encode(d, urlSafe, false)| == 43 && Encode(d, urlSafe, true) == Encode(d, urlSafe, false) + "="
  {
    TextLength(d, urlSafe);
    PlainText(d, urlSafe);
    Padding(d, urlSafe);
    OnePadding();
    NoSpaceToStrip(Encode(d, urlSafe, pad));
  }

  /** A standard base64 digest, padded or not, decodes to its bytes. */
  lemma StandardRoundTrip(d: seq<byte>, pad: bool, urlSafeTakesKeyword: bool)
    requires |d| == DIGEST
    ensures DecodeSignature(Encode(d, false, pad), urlSafeTakesKeyword) == Digest(d, "base64")
  {
    PaddedText(d, false, pad);
    DecodeEncode(d, []);
    assert [] + d == d;
  }

  // The first decoder drops '-' and '_', and what is left is too short for a digest.
  lemma UrlSafeFailsTheFirstDecoder(d: seq<byte>)
    requires |d| == DIGEST && HasForeign(Encode(d, true, false))
    ensures var r := Decode64(Encode(d, true, true), START); r.None? || |r.value| <= 31
  {
    PaddedText(d, true, true);
    var s := Encode(d, true, false);
    ForeignAreNotCounted(s);
    CountConcat(s, "=");
    assert SymbolCount("=") == 0;
    if Decode64(Encode(d, true, true), START).Some? {
      BytesNeedSymbols(Encode(d, true, true), START);
    }
  }

  lemma SecondDecoderReads(d: seq<byte>)
    requires |d| == DIGEST
    ensures SecondDecoder(Encode(d, true, true), true) == Digest(d, "base64")
  {
    TwoAlphabets(d, true);
    DecodeEncode(d, []);
    assert [] + d == d;
  }

  lemma SecondIsAsked(s: string, padded: string, keyword: bool)
    requires Strip(s) == s && |s| != 64 && s + Repeat('=', (-|s|) % 4) == padded
    requires var r := Decode64(padded, START); r.None? || |r.value| != DIGEST
    ensures DecodeSignature(s, keyword) == SecondDecoder(padded, keyword)
  {
  }

  lemma ForeignIsNoPadding(d: seq<byte>, pad: bool)
    requires |d| == DIGEST && HasForeign(Encode(d, true, pad))
    ensures HasForeign(Encode(d, true, false))
  {
    var c :| c in Encode(d, true, pad) && Foreign(c);
    PaddedText(d, true, true);
    assert c in Encode(d, true, false);
  }

  lemma ForeignRoundTrip(d: seq<byte>, pad: bool)
    requires |d| == DIGEST && HasForeign(Encode(d, true, pad))
    ensures DecodeSignature(Encode(d, true, pad), true) == Digest(d, "base64")
    ensures DecodeSignature(Encode(d, true, pad), false) == TypeError
  {
    PaddedText(d, true, pad);
    ForeignIsNoPadding(d, pad);
    UrlSafeFailsTheFirstDecoder(d);
    SecondIsAsked(Encode(d, true, pad), Encode(d, true, true), true);
    SecondIsAsked(Encode(d, true, pad), Encode(d, true, true), false);
    SecondDecoderReads(d);
  }

  /** A URL-safe base64 digest decodes to its bytes if the library's URL-safe decoder takes
      the keyword; the fallback is then right for every digest. As the library is, it
      decodes exactly when its text holds neither '-' nor '_', and raises otherwise. */
  lemma UrlSafeRoundTrip(d: seq<byte>, pad: bool)
    requires |d| == DIGEST
    ensures DecodeSignature(Encode(d, true, pad), true) == Digest(d, "base64")
    ensures DecodeSignature(Encode(d, true, pad), false) ==
      if HasForeign(Encode(d, true, pad)) then TypeError else Digest(d, "base64")
  {
    if HasForeign(Encode(d, true, pad)) {
      ForeignRoundTrip(d, pad);
    } else {
      TwoAlphabets(d, pad);
      NothingToTranslate(Encode(d, true, pad));
      assert Encode(d, true, pad) == Encode(d, false, pad);
      StandardRoundTrip(d, pad, true);
      StandardRoundTrip(d, pad, false);
    }
  }

  lemma HexSymbolHasItsValue(v: int, upper: bool)
    requires 0 <= v < 16
    ensures HexValue(HexSymbol(v, upper)) == Some(v) && !IsSpace(HexSymbol(v, upper))
  {
  }

  lemma HexByte(b: byte, upper: bool)
    ensures var hi, lo := HexValue(HexSymbol(b / 16, upper)), HexValue(HexSymbol(b % 16, upper));
      hi.Some? && lo.Some? && hi.value * 16 + lo.value == b
  {
    HexSymbolHasItsValue(b / 16, upper);
    HexSymbolHasItsValue(b % 16, upper);
  }

  lemma {:induction false} HexIsPlain(d: seq<byte>, upper: bool)
    ensures |ToHex(d, upper)| == 2 * |d| && AllHex(ToHex(d, upper))
    ensures forall c :: c in ToHex(d, upper) ==> !IsSpace(c)
  {
    if d != [] {
      HexIsPlain(d[1..], upper);
      HexSymbolHasItsValue(d[0] / 16, upper);
      HexSymbolHasItsValue(d[0] % 16, upper);
    }
  }

  lemma HexStep(hi: char, lo: char, rest: string)
    requires HexValue(hi).Some? && HexValue(lo).Some? && AllHex(rest)
    ensures AllHex([hi, lo] + rest)
    ensures FromHex([hi, lo] + rest) == [HexValue(hi).value * 16 + HexValue(lo).value] + FromHex(rest)
  {
    assert ([hi, lo] + rest)[2..] == rest;
  }

  lemma {:induction false} HexRoundTrip(d: seq<byte>, upper: bool)
    requires AllHex(ToHex(d, upper))
    ensures FromHex(ToHex(d, upper)) == d
  {
    if d != [] {
      HexIsPlain(d[1..], upper);
      HexRoundTrip(d[1..], upper);
      HexByte(d[0], upper);
      HexStep(HexSymbol(d[0] / 16, upper), HexSymbol(d[0] % 16, upper), ToHex(d[1..], upper));
      assert d == [d[0]] + d[1..];
    }
  }

  /** A hex digest in either case decodes to its bytes. */
  lemma HexDigestRoundTrip(d: seq<byte>, upper: bool, urlSafeTakesKeyword: bool)
    requires |d| == DIGEST
    ensures DecodeSignature(ToHex(d, upper), urlSafeTakesKeyword) == Digest(d, "hex")
  {
    HexIsPlain(d, upper);
    HexRoundTrip(d, upper);
    NoSpaceToStrip(ToHex(d, upper));
  }

  /** The failing family is not empty: 32 bytes of 255 start with '_' in URL-safe text. */
  lemma UrlSafeDigestThatRaises(d: seq<byte>)
    requires |d| == DIGEST && forall i :: 0 <= i < |d| ==> d[i] == 255
    ensures DecodeSignature(Encode(d, true, true), false) == TypeError
  {
    assert Encode(d, true, true)[0] == Symbol(63, true) == '_';
    assert Encode(d, true, true)[0] in Encode(d, true, true);
    UrlSafeRoundTrip(d, true);
  }

  // ----- everything else -----

  lemma {:induction false} FromHexLength(s: string)
    requires AllHex(s)
    ensures |FromHex(s)| == |s| / 2
  {
    if |s| >= 2 {
      FromHexLength(s[2..]);
    }
  }

  /** Whatever is received, a digest that comes out has 32 bytes, as SHA-256 makes them. */
  lemma DigestsHave32Bytes(received: string, urlSafeTakesKeyword: bool)
    ensures var r := DecodeSignature(received, urlSafeTakesKeyword); r.Digest? ==> |r.raw| == 32
  {
    if AllHex(Strip(received)) {
      FromHexLength(Strip(received));
    }
  }

  /** White space around a signature does not matter. */
  lemma SpacesAroundAreIgnored(left: string, core: string, right: string, urlSafeTakesKeyword: bool)
    requires Trimmed(left + core + right, left, core, right)
    ensures DecodeSignature(left + core + right, urlSafeTakesKeyword) == DecodeSignature(core, urlSafeTakesKeyword)
  {
    StripIs(left + core + right, left, core, right);
    assert Trimmed(core, "", core, "") by {
      assert "" + core + "" == core;
    }
    StripIs(core, "", core, "");
  }

  /** A character outside the alphabet, '-' and '_' among them, changes nothing for the first
      decoder wherever it stands. */
  lemma {:induction false} ForeignIsSkipped(a: string, c: char, b: string, r: Reader)
    requires ReaderOk(r) && Value(c).None? && c != '='
    ensures Decode64(a + [c] + b, r) == Decode64(a + b, r)
    decreases |a|
  {
    if a == "" {
      assert a + [c] + b == [c] + b && ([c] + b)[1..] == b && a + b == b;
    } else {
      assert (a + [c] + b)[1..] == a[1..] + [c] + b && (a + b)[1..] == a[1..] + b;
      ForeignIsSkipped(a[1..], c, b, r);
      ForeignIsSkipped(a[1..], c, b, r.(pads := r.pads + 1));
      if Value(a[0]).Some? {
        ForeignIsSkipped(a[1..], c, b, Read(r, Value(a[0]).value));
      }
    }
  }
}
