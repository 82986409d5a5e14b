/** TOML basic strings as Install writes them, and the unquoting the audit reads them with. */
module Toml {
  import opened Common
  import opened Text
  import opened ShellWords
  import Utf8

  /** tomlBasicString: backslashes first, then double quotes. */
  function Escaped(v: string): string {
    Replace(Replace(v, '\\', "\\\\"), '"', "\\\"")
  }

  function BasicString(v: string): string {
    "\"" + Escaped(v) + "\""
  }

  // ---------------------------------------------------------------- unquoting

  function HexValue(c: char): (d: int)
    ensures -1 <= d < 16
  {
    if '0' <= c <= '9' then c as int - '0' as int
    else if 'a' <= c <= 'f' then c as int - 'a' as int + 10
    else if 'A' <= c <= 'F' then c as int - 'A' as int + 10
    else -1
  }

  /** The number n digits of the given base spell from index i, -1 when one of them is no digit. */
  function Digits(s: string, i: nat, n: nat, base: nat): (v: int)
    requires i + n <= |s| && base <= 16
    ensures v >= -1
  {
    if n == 0 then 0
    else
      var high, d := Digits(s, i, n - 1, base), HexValue(s[i + n - 1]);
      if high < 0 || d < 0 || d >= base then -1 else high * base + d
  }

  datatype Decoded = Refused | Decoded(text: string, at: nat)

  function SimpleEscape(c: char): Option<string> {
    match c
    case 'a' => Some([7 as char])
    case 'b' => Some([8 as char])
    case 'f' => Some([12 as char])
    case 'n' => Some("\n")
    case 'r' => Some("\r")
    case 't' => Some("\t")
    case 'v' => Some([11 as char])
    case '\\' => Some("\\")
    case '"' => Some("\"")
    case _ => None
  }

  function NumericEscape(s: string, i: nat, n: nat, byte: bool): (d: Decoded)
    requires i <= |s|
    ensures d.Decoded? ==> i <= d.at <= |s|
  {
    if i + n > |s| then Refused
    else
      var v := Digits(s, i, n, 16);
      if v < 0 then Refused
      else if byte then if v < 256 then Decoded([v as char], i + n) else Refused
      else if Utf8.ValidRune(v) then Decoded(Utf8.Encode(v), i + n)
      else Refused
  }

  function OctalEscape(s: string, i: nat): (d: Decoded)
    requires i <= |s|
    ensures d.Decoded? ==> i <= d.at <= |s|
  {
    if i + 3 > |s| then Refused
    else
      var v := Digits(s, i, 3, 8);
      if 0 <= v <= 255 then Decoded([v as char], i + 3) else Refused
  }

  /** The escape sequence whose backslash stands at index i. */
  function Escape(s: string, i: nat): (d: Decoded)
    requires i < |s|
    ensures d.Decoded? ==> i < d.at <= |s|
  {
    if i + 1 == |s| then Refused
    else
      var c := s[i + 1];
      if SimpleEscape(c).Some? then Decoded(SimpleEscape(c).value, i + 2)
      else if c == 'x' then NumericEscape(s, i + 2, 2, true)
      else if c == 'u' then NumericEscape(s, i + 2, 4, false)
      else if c == 'U' then NumericEscape(s, i + 2, 8, false)
      else if '0' <= c <= '7' then OctalEscape(s, i + 1)
      else Refused
  }

  /** Reads on from index i up to the closing quote, one code point or one bad byte at a time. */
  function Decode(s: string, i: nat, text: string): (d: Decoded)
    requires i <= |s|
    decreases |s| - i
  {
    if i == |s| || s[i] == '\n' then Refused
    else if s[i] == '"' then Decoded(text, i + 1)
    else if s[i] != '\\' then Decode(s, i + Utf8.Step(s, i), text + Utf8.Rune(s, i))
    else if Escape(s, i).Refused? then Refused
    else Decode(s, Escape(s, i).at, text + Escape(s, i).text)
  }

  /** parseAuditTOMLString. */
  function Unquote(value: string): Option<string> {
    if |value| < 2 || value[0] != '"' || value[|value| - 1] != '"' then None
    else if Decode(value, 1, "").Refused? || Decode(value, 1, "").at != |value| then None
    else Some(Decode(value, 1, "").text)
  }

  // ---------------------------------------------------------------- the round trip

  function EscapedChar(c: char): string {
    if c == '\\' then "\\\\" else if c == '"' then "\\\"" else [c]
  }

  lemma ReplaceChar(c: char, d: char, sub: string)
    ensures Replace([c], d, sub) == if c == d then sub else [c]
  {
    assert [c][1..] == "";
    assert Replace("", d, sub) == "";
  }

  lemma EscapeOneChar(c: char)
    ensures Escaped([c]) == EscapedChar(c)
  {
    ReplaceChar(c, '\\', "\\\\");
    if c == '\\' {
      ReplaceNone("\\\\", '"', "\\\"");
    } else {
      ReplaceChar(c, '"', "\\\"");
    }
  }

  lemma EscapedCons(v: string)
    requires v != ""
    ensures Escaped(v) == EscapedChar(v[0]) + Escaped(v[1..])
  {
    assert v == [v[0]] + v[1..];
    ReplaceAppend([v[0]], v[1..], '\\', "\\\\");
    ReplaceAppend(Replace([v[0]], '\\', "\\\\"), Replace(v[1..], '\\', "\\\\"), '"', "\\\"");
    EscapeOneChar(v[0]);
  }

  /** The same text, character by character. */
  function Written(v: string): string {
    if v == "" then "" else EscapedChar(v[0]) + Written(v[1..])
  }

  lemma {:induction false} EscapedIsWritten(v: string)
    ensures Escaped(v) == Written(v)
  {
    if v != "" {
      EscapedCons(v);
      EscapedIsWritten(v[1..]);
    }
  }

  lemma DecodeChar(s: string, i: nat, c: char, text: string, next: nat, longer: string)
    requires c != '\n' && Utf8.IsAscii(c) && At(s, i, EscapedChar(c)) && next == i + |EscapedChar(c)| && longer == text + [c]
    ensures Decode(s, i, text) == Decode(s, next, longer)
  {
    var q := EscapedChar(c);
    assert s[i] == s[i..i + |q|][0];
    if c == '\\' || c == '"' {
      assert s[i + 1] == s[i..i + 2][1];
    }
  }

  /** Bytes that are not ASCII are written as they are. */
  lemma {:induction false} EscapedRun(v: string, m: nat)
    requires m <= |v| && forall k :: 0 <= k < m ==> !Utf8.IsAscii(v[k])
    ensures Written(v) == v[..m] + Written(v[m..])
    decreases m
  {
    if m == 0 {
      assert v[0..] == v;
    } else {
      EscapedRun(v[1..], m - 1);
      assert v[1..][m - 1..] == v[m..];
      assert v[..m] == [v[0]] + v[1..][..m - 1];
    }
  }

  lemma RunCopied(s: string, i: nat, run: string, rest: string)
    requires At(s, i, run + rest)
    ensures At(s, i + |run|, rest) && At(s, i, run) && forall k :: 0 <= k < |run| ==> s[i + k] == run[k]
  {
    AtSplit(s, i, run, rest);
    forall k | 0 <= k < |run| ensures s[i + k] == run[k] {
      assert s[i + k] == s[i..i + |run|][k];
    }
  }

  lemma EscapedHead(w: string, e: string)
    requires e == Written(w) && (w == "" || Utf8.IsAscii(w[0]))
    ensures e == "" || Utf8.IsAscii(e[0])
  {
    if w != "" {
      assert EscapedChar(w[0]) != "";
    }
  }

  lemma HeadIsAscii(s: string, j: nat, rest: string, end: nat)
    requires At(s, j, rest) && end == j + |rest| && end < |s| && Utf8.IsAscii(s[end]) && (rest == "" || Utf8.IsAscii(rest[0]))
    ensures j < |s| && Utf8.IsAscii(s[j])
  {
    if rest != "" {
      assert s[j] == s[j..j + |rest|][0];
    }
  }

  /** Escaped text is followed by an ASCII byte: inside it by a backslash or the byte itself, at its end by `s[end]`. */
  lemma RunStops(s: string, i: nat, v: string, m: nat, rest: string, end: nat)
    requires m <= |v| && At(s, i, v[..m] + rest) && (rest == "" || Utf8.IsAscii(rest[0]))
    requires end == i + m + |rest| && end < |s| && Utf8.IsAscii(s[end])
    ensures i + m < |s| && Utf8.IsAscii(s[i + m]) && forall k :: 0 <= k < m ==> s[i + k] == v[k]
  {
    RunCopied(s, i, v[..m], rest);
    HeadIsAscii(s, i + m, rest, end);
  }

  /** What stands at index i is read as in the text itself. */
  lemma WidthCopied(s: string, i: nat, v: string, e: string, end: nat)
    requires v != "" && !Utf8.IsAscii(v[0]) && e == Written(v) && At(s, i, e) && end == i + |e| && end < |s| && Utf8.IsAscii(s[end])
    ensures Utf8.Width(s, i) == Utf8.Width(v, 0)
  {
    var m := Utf8.Run(v);
    var rest := Written(v[m..]);
    EscapedRun(v, m);
    EscapedHead(v[m..], rest);
    WidthBefore(s, i, v, m, rest, end);
  }

  lemma WidthBefore(s: string, i: nat, v: string, m: nat, rest: string, end: nat)
    requires v != "" && !Utf8.IsAscii(v[0]) && m == Utf8.Run(v) && At(s, i, v[..m] + rest) && (rest == "" || Utf8.IsAscii(rest[0]))
    requires end == i + m + |rest| && end < |s| && Utf8.IsAscii(s[end])
    ensures Utf8.Width(s, i) == Utf8.Width(v, 0)
  {
    RunStops(s, i, v, m, rest, end);
    Utf8.WidthByRun(s, i, v);
  }

  lemma RuneCopied(s: string, i: nat, v: string)
    requires v != "" && i < |s| && Utf8.Width(s, i) == Utf8.Width(v, 0) && At(s, i, v[..Utf8.Step(v, 0)])
    ensures Utf8.Step(s, i) == Utf8.Step(v, 0) && Utf8.Rune(s, i) == Utf8.Rune(v, 0)
  {
  }

  lemma DecodeStep(s: string, i: nat, text: string, k: nat, longer: string)
    requires i < |s| && !Utf8.IsAscii(s[i]) && k == Utf8.Step(s, i) && longer == text + Utf8.Rune(s, i)
    ensures i + k <= |s| && Decode(s, i, text) == Decode(s, i + k, longer)
  {
  }

  /** One sequence or one bad byte that is not ASCII. */
  lemma DecodeHigh(s: string, i: nat, v: string, e: string, text: string, end: nat, k: nat, rest: string, longer: string)
    requires v != "" && !Utf8.IsAscii(v[0]) && e == Written(v) && At(s, i, e) && end == i + |e| && end < |s| && Utf8.IsAscii(s[end])
    requires k == Utf8.Step(v, 0) && rest == Written(v[k..]) && longer == text + Utf8.Rune(v, 0)
    ensures At(s, i + k, rest) && end == i + k + |rest|
    ensures Decode(s, i, text) == Decode(s, i + k, longer)
  {
    WidthCopied(s, i, v, e, end);
    StepInRun(v);
    EscapedRun(v, k);
    RunCopied(s, i, v[..k], rest);
    RuneCopied(s, i, v);
    DecodeStep(s, i, text, k, longer);
  }

  lemma StepInRun(v: string)
    requires v != "" && !Utf8.IsAscii(v[0])
    ensures Utf8.Step(v, 0) <= Utf8.Run(v)
  {
  }

  lemma {:induction false} DecodeEscaped(s: string, i: nat, v: string, text: string, end: nat, whole: string)
    requires '\n' !in v && At(s, i, Written(v)) && end == i + |Written(v)| && end < |s| && Utf8.IsAscii(s[end])
    requires whole == text + Utf8.Repaired(v)
    ensures Decode(s, i, text) == Decode(s, end, whole)
    decreases |v|
  {
    if v == "" {
      assert whole == text;
    } else {
      var k, longer := Utf8.Step(v, 0), text + Utf8.Rune(v, 0);
      var next := DecodeOne(s, i, v, text, end, k, Written(v[k..]), longer);
      RepairOne(v, text, k, longer, whole);
      DecodeEscaped(s, next, v[k..], longer, end, whole);
    }
  }

  lemma RepairOne(v: string, text: string, k: nat, longer: string, whole: string)
    requires v != "" && k == Utf8.Step(v, 0) && longer == text + Utf8.Rune(v, 0) && whole == text + Utf8.Repaired(v)
    ensures whole == longer + Utf8.Repaired(v[k..])
  {
  }

  lemma DecodeOne(s: string, i: nat, v: string, text: string, end: nat, k: nat, rest: string, longer: string) returns (next: nat)
    requires '\n' !in v && v != "" && At(s, i, Written(v)) && end == i + |Written(v)| && end < |s| && Utf8.IsAscii(s[end])
    requires k == Utf8.Step(v, 0) && rest == Written(v[k..]) && longer == text + Utf8.Rune(v, 0)
    ensures At(s, next, rest) && end == next + |rest|
    ensures Decode(s, i, text) == Decode(s, next, longer)
  {
    if Utf8.IsAscii(v[0]) {
      AtSplit(s, i, EscapedChar(v[0]), rest);
      next := i + |EscapedChar(v[0])|;
      assert Utf8.Rune(v, 0) == [v[0]];
      DecodeChar(s, i, v[0], text, next, longer);
    } else {
      next := i + k;
      DecodeHigh(s, i, v, Written(v), text, end, k, rest, longer);
    }
  }

  /** Unquoting what was quoted refuses a newline and replaces every byte that is not valid UTF-8. */
  lemma UnquoteQuoted(v: string)
    ensures Unquote(BasicString(v)) == if '\n' in v then None else Some(Utf8.Repaired(v))
  {
    var s := BasicString(v);
    var e := Written(v);
    EscapedIsWritten(v);
    assert s == "\"" + e + "\"";
    assert At(s, 1, e);
    assert s[0] == '"' && s[|s| - 1] == '"';
    if '\n' in v {
      NewlineRefused(s, v);
    } else {
      var read := Utf8.Repaired(v);
      assert "" + read == read;
      DecodeEscaped(s, 1, v, "", 1 + |e|, read);
    }
  }

  /** Unquoting undoes quoting exactly for valid UTF-8 without a newline. */
  lemma UnquoteBasic(v: string)
    ensures Unquote(BasicString(v)) == Some(v) <==> '\n' !in v && Utf8.Valid(v)
  {
    UnquoteQuoted(v);
    Utf8.RepairedIff(v);
  }

  lemma {:induction false} WrittenAppend(a: string, b: string)
    ensures Written(a + b) == Written(a) + Written(b)
  {
    if a == "" {
      assert a + b == b;
    } else {
      WrittenAppend(a[1..], b);
      WrittenHead(a, a[0], a[1..]);
      assert a + b == [a[0]] + (a[1..] + b);
      WrittenHead(a + b, a[0], a[1..] + b);
      Regroup(EscapedChar(a[0]), Written(a[1..]), Written(b));
    }
  }

  lemma WrittenHead(v: string, c: char, rest: string)
    requires v == [c] + rest
    ensures Written(v) == EscapedChar(c) + Written(rest)
  {
    assert v[1..] == rest;
  }

  lemma Regroup(a: string, b: string, c: string)
    ensures a + b + c == a + (b + c)
  {
  }

  lemma NewlineRefused(s: string, v: string)
    requires '\n' in v && At(s, 1, Written(v))
    ensures Decode(s, 1, "") == Refused
  {
    var k := Find(v, '\n');
    assert v == v[..k] + ("\n" + v[k + 1..]) && '\n' !in v[..k];
    RefusedAt(s, v[..k], v[k + 1..], Written(v[..k]));
  }

  lemma RefusedAt(s: string, a: string, b: string, e: string)
    requires '\n' !in a && e == Written(a) && At(s, 1, Written(a + ("\n" + b)))
    ensures Decode(s, 1, "") == Refused
  {
    NewlineAt(s, a, e, b, 1 + |e|);
    var read := Utf8.Repaired(a);
    assert "" + read == read;
    DecodeEscaped(s, 1, a, "", 1 + |e|, read);
  }

  lemma NewlineAt(s: string, a: string, e: string, b: string, end: nat)
    requires e == Written(a) && At(s, 1, Written(a + ("\n" + b))) && end == 1 + |e|
    ensures At(s, 1, e) && end < |s| && s[end] == '\n'
  {
    WrittenAppend(a, "\n" + b);
    var rest := Written(("\n" + b)[1..]);
    AtSplit(s, 1, e, "\n" + rest);
    assert s[end] == s[end..end + |"\n" + rest|][0];
  }
}
