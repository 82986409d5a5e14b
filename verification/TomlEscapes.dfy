/**
 * Quoted values as anyone may write them, not only as AgentBell does: plain stretches between
 * escapes of every kind. Each escape is given by what it stands for and how that is spelled,
 * and the audit reads exactly that back.
 */
module TomlEscapes {
  import opened Common
  import opened Text
  import opened ShellWords
  import opened Toml
  import Utf8

  // ---------------------------------------------------------------- spelling numbers

  const LOWER := "0123456789abcdef"
  const UPPER := "0123456789ABCDEF"

  function DigitChar(d: nat, upper: bool): char
    requires d < 16
  {
    if upper then UPPER[d] else LOWER[d]
  }

  function OctalChar(d: nat): char
    requires d < 8
  {
    (48 + d) as char
  }

  /** The last n hexadecimal digits of a number. */
  function HexSpelled(v: nat, n: nat, upper: bool): (s: string)
    ensures |s| == n
  {
    if n == 0 then "" else HexSpelled(v / 16, n - 1, upper) + [DigitChar(v % 16, upper)]
  }

  /** The number has at most n hexadecimal digits. */
  predicate HexFits(v: nat, n: nat) {
    if n == 0 then v == 0 else HexFits(v / 16, n - 1)
  }

  lemma DigitIs(d: nat, upper: bool)
    requires d < 16
    ensures HexValue(DigitChar(d, upper)) == d
  {
  }

  lemma LastDigit(s: string, i: nat, front: string, c: char)
    requires At(s, i, front + [c])
    ensures At(s, i, front) && i + |front| < |s| && s[i + |front|] == c
  {
    AtSplit(s, i, front, [c]);
    assert s[i + |front|] == s[i + |front|..i + |front| + 1][0];
  }

  lemma DigitsSnoc(s: string, i: nat, n: nat, high: nat, d: nat)
    requires i + n < |s| && Digits(s, i, n, 16) == high && HexValue(s[i + n]) == d
    ensures Digits(s, i, n + 1, 16) == high * 16 + d
  {
  }

  /** Reading undoes spelling. */
  lemma {:induction false} HexRead(s: string, i: nat, v: nat, n: nat, upper: bool)
    requires HexFits(v, n) && At(s, i, HexSpelled(v, n, upper))
    ensures Digits(s, i, n, 16) == v
    decreases n
  {
    if n > 0 {
      var q, d := v / 16, v % 16;
      LastDigit(s, i, HexSpelled(q, n - 1, upper), DigitChar(d, upper));
      HexRead(s, i, q, n - 1, upper);
      DigitIs(d, upper);
      DigitsSnoc(s, i, n - 1, q, d);
    }
  }

  // ---------------------------------------------------------------- pieces of a quoted value

  /** A stretch of text, a one-letter escape, a byte in hexadecimal or octal, or a code point in four or eight digits. */
  datatype Piece =
    | Stretch(text: string)
    | Letter(c: char)
    | HexByte(v: nat, upper: bool)
    | OctalByte(high: nat, middle: nat, low: nat)
    | Short(v: nat, upper: bool)
    | Long(v: nat, upper: bool)

  predicate Good(p: Piece) {
    match p
    case Stretch(text) => '\n' !in text
    case Letter(c) => c in "abfnrtv"
    case HexByte(v, _) => v < 256
    case OctalByte(a, b, c) => a < 4 && b < 8 && c < 8
    case Short(v, _) => v < 0x10000 && !(0xD800 <= v < 0xE000)
    case Long(v, _) => v < 0x110000 && !(0xD800 <= v < 0xE000)
  }

  /** What a piece stands for. */
  function Meaning(p: Piece): string
    requires Good(p)
  {
    match p
    case Stretch(text) => Utf8.Repaired(text)
    case Letter(c) =>
      if c == 'a' then [7 as char] else if c == 'b' then [8 as char] else if c == 't' then [9 as char]
      else if c == 'n' then [10 as char] else if c == 'v' then [11 as char] else if c == 'f' then [12 as char]
      else [13 as char]
    case HexByte(v, _) => [v as char]
    case OctalByte(a, b, c) => [(64 * a + 8 * b + c) as char]
    case Short(v, _) => Utf8.Encode(v)
    case Long(v, _) => Utf8.Encode(v)
  }

  function Source(p: Piece): string
    requires Good(p)
  {
    match p
    case Stretch(text) => Written(text)
    case Letter(c) => ['\\', c]
    case HexByte(v, upper) => ['\\', 'x'] + HexSpelled(v, 2, upper)
    case OctalByte(a, b, c) => ['\\', OctalChar(a)] + [OctalChar(b), OctalChar(c)]
    case Short(v, upper) => ['\\', 'u'] + HexSpelled(v, 4, upper)
    case Long(v, upper) => ['\\', 'U'] + HexSpelled(v, 8, upper)
  }

  /** Good pieces, with an escape between any two stretches of text. */
  ghost predicate GoodPieces(ps: seq<Piece>) {
    && (forall i :: 0 <= i < |ps| ==> Good(ps[i]))
    && (forall i :: 0 < i < |ps| ==> ps[i - 1].Stretch? ==> !ps[i].Stretch?)
  }

  function SourceOf(ps: seq<Piece>): string
    requires forall i :: 0 <= i < |ps| ==> Good(ps[i])
  {
    if ps == [] then "" else Source(ps[0]) + SourceOf(ps[1..])
  }

  function MeaningOf(ps: seq<Piece>): string
    requires forall i :: 0 <= i < |ps| ==> Good(ps[i])
  {
    if ps == [] then "" else Meaning(ps[0]) + MeaningOf(ps[1..])
  }

  // ---------------------------------------------------------------- reading one escape

  lemma HeadOf(s: string, i: nat, a: char, b: char, rest: string)
    requires At(s, i, [a, b] + rest)
    ensures i + 2 <= |s| && s[i] == a && s[i + 1] == b && At(s, i + 2, rest)
  {
    AtSplit(s, i, [a, b], rest);
    assert s[i] == s[i..i + 2][0] && s[i + 1] == s[i..i + 2][1];
  }

  lemma ReadLetter(s: string, i: nat, c: char)
    requires c in "abfnrtv" && At(s, i, ['\\', c])
    ensures Escape(s, i) == Decoded(Meaning(Letter(c)), i + 2)
  {
    assert ['\\', c] + "" == ['\\', c];
    HeadOf(s, i, '\\', c, "");
  }

  lemma ReadHexByte(s: string, i: nat, v: nat, upper: bool)
    requires v < 256 && At(s, i, Source(HexByte(v, upper)))
    ensures Escape(s, i) == Decoded([v as char], i + 4)
  {
    HeadOf(s, i, '\\', 'x', HexSpelled(v, 2, upper));
    assert HexFits(v, 2);
    HexRead(s, i + 2, v, 2, upper);
  }

  lemma ReadShort(s: string, i: nat, v: nat, upper: bool)
    requires Good(Short(v, upper)) && At(s, i, Source(Short(v, upper)))
    ensures Escape(s, i) == Decoded(Utf8.Encode(v), i + 6)
  {
    HeadOf(s, i, '\\', 'u', HexSpelled(v, 4, upper));
    assert HexFits(v, 4) by {
      assert HexFits(v / 16 / 16, 2);
    }
    HexRead(s, i + 2, v, 4, upper);
  }

  lemma ReadLong(s: string, i: nat, v: nat, upper: bool)
    requires Good(Long(v, upper)) && At(s, i, Source(Long(v, upper)))
    ensures Escape(s, i) == Decoded(Utf8.Encode(v), i + 10)
  {
    HeadOf(s, i, '\\', 'U', HexSpelled(v, 8, upper));
    LongFits(v);
    HexRead(s, i + 2, v, 8, upper);
  }

  lemma LongFits(v: nat)
    requires v < 0x110000
    ensures HexFits(v, 8)
  {
    var a := v / 16;
    var b := a / 16;
    var c := b / 16;
    var d := c / 16;
    assert b < 0x1100 && d < 0x11;
    assert HexFits(d, 4) by {
      assert d / 16 < 2 && d / 16 / 16 == 0;
      assert HexFits(0, 2);
    }
    assert HexFits(b, 6);
  }

  lemma ReadOctal(s: string, i: nat, a: nat, b: nat, c: nat)
    requires Good(OctalByte(a, b, c)) && At(s, i, Source(OctalByte(a, b, c)))
    ensures Escape(s, i) == Decoded([(64 * a + 8 * b + c) as char], i + 4)
  {
    HeadOf(s, i, '\\', OctalChar(a), [OctalChar(b), OctalChar(c)]);
    assert s[i + 2] == s[i + 2..i + 4][0] && s[i + 3] == s[i + 2..i + 4][1];
    OctalDigits(s, i + 1, a, b, c);
    assert SimpleEscape(s[i + 1]).None?;
  }

  lemma OctalDigits(s: string, i: nat, a: nat, b: nat, c: nat)
    requires i + 3 <= |s| && a < 8 && b < 8 && c < 8 && s[i] == OctalChar(a) && s[i + 1] == OctalChar(b) && s[i + 2] == OctalChar(c)
    ensures Digits(s, i, 3, 8) == 64 * a + 8 * b + c
  {
    assert Digits(s, i, 1, 8) == a;
    assert Digits(s, i, 2, 8) == 8 * a + b;
  }

  /** An escape is read as what it stands for, wherever it is. */
  lemma ReadEscape(s: string, i: nat, p: Piece)
    requires Good(p) && !p.Stretch? && At(s, i, Source(p))
    ensures i < |s| && s[i] == '\\' && Escape(s, i) == Decoded(Meaning(p), i + |Source(p)|)
  {
    assert s[i] == s[i..i + |Source(p)|][0];
    match p
    case Letter(c) => ReadLetter(s, i, c);
    case HexByte(v, upper) => ReadHexByte(s, i, v, upper);
    case OctalByte(a, b, c) => ReadOctal(s, i, a, b, c);
    case Short(v, upper) => ReadShort(s, i, v, upper);
    case Long(v, upper) => ReadLong(s, i, v, upper);
  }

  // ---------------------------------------------------------------- reading a value

  lemma ReadPiece(s: string, i: nat, p: Piece, text: string, next: nat, longer: string)
    requires Good(p) && At(s, i, Source(p)) && next == i + |Source(p)| && longer == text + Meaning(p)
    requires next < |s| && (p.Stretch? ==> Utf8.IsAscii(s[next]))
    ensures Decode(s, i, text) == Decode(s, next, longer)
  {
    if p.Stretch? {
      DecodeEscaped(s, i, p.text, text, next, longer);
    } else {
      ReadEscape(s, i, p);
    }
  }

  lemma EscapeHead(p: Piece)
    requires Good(p) && !p.Stretch?
    ensures Source(p) != "" && Source(p)[0] == '\\'
  {
  }

  /** After a stretch comes an escape or the closing quote. */
  lemma AfterStretch(s: string, i: nat, ps: seq<Piece>, end: nat)
    requires GoodPieces(ps) && At(s, i, SourceOf(ps)) && end == i + |SourceOf(ps)| && end < |s| && Utf8.IsAscii(s[end]) && (ps == [] || !ps[0].Stretch?)
    ensures i < |s| && Utf8.IsAscii(s[i])
  {
    if ps != [] {
      EscapeHead(ps[0]);
      assert s[i] == s[i..i + |SourceOf(ps)|][0];
    }
  }

  lemma SourceSplit(s: string, i: nat, ps: seq<Piece>, first: string, rest: string)
    requires GoodPieces(ps) && ps != [] && first == Source(ps[0]) && rest == SourceOf(ps[1..]) && At(s, i, SourceOf(ps))
    ensures |SourceOf(ps)| == |first| + |rest| && At(s, i, first) && At(s, i + |first|, rest)
  {
    AtSplit(s, i, first, rest);
  }

  lemma ReadFirst(s: string, i: nat, ps: seq<Piece>, text: string, end: nat, next: nat, longer: string)
    requires GoodPieces(ps) && ps != [] && At(s, i, SourceOf(ps)) && end == i + |SourceOf(ps)| && end < |s| && Utf8.IsAscii(s[end])
    requires next == i + |Source(ps[0])| && longer == text + Meaning(ps[0])
    ensures At(s, next, SourceOf(ps[1..])) && end == next + |SourceOf(ps[1..])|
    ensures Decode(s, i, text) == Decode(s, next, longer)
  {
    SourceSplit(s, i, ps, Source(ps[0]), SourceOf(ps[1..]));
    RestIsGood(ps);
    if ps[0].Stretch? {
      AfterStretch(s, next, ps[1..], end);
    }
    ReadPiece(s, i, ps[0], text, next, longer);
  }

  lemma MeaningHead(ps: seq<Piece>, first: string, rest: string)
    requires GoodPieces(ps) && ps != [] && GoodPieces(ps[1..]) && first == Meaning(ps[0]) && rest == MeaningOf(ps[1..])
    ensures MeaningOf(ps) == first + rest
  {
  }

  lemma MeaningSplit(ps: seq<Piece>, text: string, longer: string, whole: string)
    requires GoodPieces(ps) && ps != [] && GoodPieces(ps[1..]) && longer == text + Meaning(ps[0]) && whole == text + MeaningOf(ps)
    ensures whole == longer + MeaningOf(ps[1..])
  {
    var first, rest := Meaning(ps[0]), MeaningOf(ps[1..]);
    MeaningHead(ps, first, rest);
    Regroup(text, first, rest);
  }

  lemma {:induction false} ReadPieces(s: string, i: nat, ps: seq<Piece>, text: string, end: nat, whole: string)
    requires GoodPieces(ps) && At(s, i, SourceOf(ps)) && end == i + |SourceOf(ps)| && end < |s| && Utf8.IsAscii(s[end])
    requires whole == text + MeaningOf(ps)
    ensures Decode(s, i, text) == Decode(s, end, whole)
    decreases |ps|
  {
    if ps == [] {
      assert whole == text;
    } else {
      var next, longer := i + |Source(ps[0])|, text + Meaning(ps[0]);
      ReadFirst(s, i, ps, text, end, next, longer);
      RestIsGood(ps);
      MeaningSplit(ps, text, longer, whole);
      ReadPieces(s, next, ps[1..], longer, end, whole);
    }
  }

  lemma RestIsGood(ps: seq<Piece>)
    requires GoodPieces(ps) && ps != []
    ensures GoodPieces(ps[1..]) && (ps[0].Stretch? && |ps| > 1 ==> !ps[1].Stretch?)
  {
    var rest := ps[1..];
    forall i | 0 < i < |rest| ensures rest[i - 1].Stretch? ==> !rest[i].Stretch? {
      assert rest[i - 1] == ps[i] && rest[i] == ps[i + 1];
      assert ps[i + 1 - 1].Stretch? ==> !ps[i + 1].Stretch?;
    }
  }

  /** A quoted value is read as what its pieces stand for. */
  lemma QuotedMeans(ps: seq<Piece>)
    requires GoodPieces(ps)
    ensures Unquote("\"" + SourceOf(ps) + "\"") == Some(MeaningOf(ps))
  {
    var body := SourceOf(ps);
    var s, end := "\"" + body + "\"", 1 + |body|;
    assert At(s, 1, body);
    assert s[end] == '"' && s[0] == '"' && |s| == end + 1;
    assert "" + MeaningOf(ps) == MeaningOf(ps);
    ReadPieces(s, 1, ps, "", end, MeaningOf(ps));
  }

  // ---------------------------------------------------------------- what is refused

  predicate IsHexDigit(c: char) {
    '0' <= c <= '9' || 'a' <= c <= 'f' || 'A' <= c <= 'F'
  }

  lemma {:induction false} DigitsIff(s: string, i: nat, n: nat)
    requires i + n <= |s|
    ensures Digits(s, i, n, 16) >= 0 <==> forall k :: i <= k < i + n ==> IsHexDigit(s[k])
    decreases n
  {
    if n > 0 {
      DigitsIff(s, i, n - 1);
    }
  }

  /** A backslash must be followed by a letter escape, a quote, a backslash, or digits enough for a byte or a code point. */
  lemma EscapeIff(s: string, i: nat)
    requires i < |s|
    ensures Escape(s, i).Decoded? <==>
      && i + 1 < |s|
      && var c := s[i + 1];
         || c in "abfnrtv\\\""
         || (c == 'x' && HexAt(s, i + 2, 2))
         || (c == 'u' && HexAt(s, i + 2, 4) && CodePoint(Digits(s, i + 2, 4, 16)))
         || (c == 'U' && HexAt(s, i + 2, 8) && CodePoint(Digits(s, i + 2, 8, 16)))
         || ('0' <= c <= '7' && i + 4 <= |s| && 0 <= Digits(s, i + 1, 3, 8) <= 255)
  {
    if i + 4 <= |s| {
      DigitsIff(s, i + 2, 2);
      ByteBound(s, i + 2);
    }
    if i + 6 <= |s| {
      DigitsIff(s, i + 2, 4);
    }
    if i + 10 <= |s| {
      DigitsIff(s, i + 2, 8);
    }
  }

  lemma ByteBound(s: string, i: nat)
    requires i + 2 <= |s|
    ensures Digits(s, i, 2, 16) < 256
  {
    assert Digits(s, i, 1, 16) < 16 by {
      assert Digits(s, i, 0, 16) == 0;
    }
  }

  predicate HexAt(s: string, i: nat, n: nat) {
    i + n <= |s| && forall k :: i <= k < i + n ==> IsHexDigit(s[k])
  }

  predicate CodePoint(v: int) {
    0 <= v < 0x110000 && !(0xD800 <= v < 0xE000)
  }
}
