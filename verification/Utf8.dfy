/** UTF-8 over text of one byte per character: sequences, validity, and the repair of bad bytes. */
module Utf8 {
  import opened Common

  predicate ValidRune(v: int) {
    0 <= v < 0xD800 || 0xE000 <= v <= 0x10FFFF
  }

  /** The bytes of a code point. */
  function Encode(v: int): string
    requires ValidRune(v)
  {
    if v < 0x80 then [v as char]
    else if v < 0x800 then [(0xC0 + v / 64) as char, (0x80 + v % 64) as char]
    else if v < 0x10000 then [(0xE0 + v / 4096) as char, (0x80 + v / 64 % 64) as char, (0x80 + v % 64) as char]
    else [(0xF0 + v / 262144) as char, (0x80 + v / 4096 % 64) as char, (0x80 + v / 64 % 64) as char, (0x80 + v % 64) as char]
  }

  // ---------------------------------------------------------------- one sequence

  predicate IsAscii(c: char) {
    c < '\U{80}'
  }

  predicate IsContinuation(c: char) {
    '\U{80}' <= c <= '\U{BF}'
  }

  /** How long the sequence is that starts with this byte; 0 when none does. */
  function Length(c: char): (n: nat)
    ensures n <= 4 && (n == 1 <==> IsAscii(c))
  {
    if IsAscii(c) then 1
    else if '\U{C2}' <= c <= '\U{DF}' then 2
    else if '\U{E0}' <= c <= '\U{EF}' then 3
    else if '\U{F0}' <= c <= '\U{F4}' then 4
    else 0
  }

  /** The second byte shuts out overlong forms, surrogates and what lies beyond the last code point. */
  predicate IsSecond(first: char, c: char) {
    && IsContinuation(c)
    && (first == '\U{E0}' ==> c >= '\U{A0}')
    && (first == '\U{ED}' ==> c <= '\U{9F}')
    && (first == '\U{F0}' ==> c >= '\U{90}')
    && (first == '\U{F4}' ==> c <= '\U{8F}')
  }

  /** The width of the sequence at index i, 0 for a bad byte. */
  function Width(s: string, i: nat): (w: nat)
    requires i < |s|
    ensures i + w <= |s| && (IsAscii(s[i]) ==> w == 1)
  {
    var n := Length(s[i]);
    if n < 2 then n
    else if i + n > |s| || !IsSecond(s[i], s[i + 1]) then 0
    else if n > 2 && !IsContinuation(s[i + 2]) then 0
    else if n > 3 && !IsContinuation(s[i + 3]) then 0
    else n
  }

  /** How far a decoder moves at index i: over the sequence, or over one bad byte. */
  function Step(s: string, i: nat): (k: nat)
    requires i < |s|
    ensures 1 <= k && i + k <= |s|
  {
    if Width(s, i) == 0 then 1 else Width(s, i)
  }

  const REPLACEMENT := ['\U{EF}', '\U{BF}', '\U{BD}']

  /** What a decoder makes of it: the sequence itself, or U+FFFD. */
  function Rune(s: string, i: nat): string
    requires i < |s|
  {
    if Width(s, i) == 0 then REPLACEMENT else s[i..i + Width(s, i)]
  }

  // ---------------------------------------------------------------- validity and repair

  predicate Valid(v: string)
    decreases |v|
  {
    v == "" || (Width(v, 0) > 0 && Valid(v[Width(v, 0)..]))
  }

  /** The text with every bad byte replaced. */
  function Repaired(v: string): string
    decreases |v|
  {
    if v == "" then "" else Rune(v, 0) + Repaired(v[Step(v, 0)..])
  }

  lemma {:induction false} RepairGrows(v: string)
    ensures |Repaired(v)| >= |v|
    ensures !Valid(v) ==> |Repaired(v)| > |v|
    ensures Valid(v) ==> Repaired(v) == v
    decreases |v|
  {
    if v != "" {
      RepairGrows(v[Step(v, 0)..]);
      if Width(v, 0) > 0 {
        assert v == v[..Width(v, 0)] + v[Width(v, 0)..];
      }
    }
  }

  /** Repair leaves exactly the valid texts as they are. */
  lemma RepairedIff(v: string)
    ensures Repaired(v) == v <==> Valid(v)
  {
    RepairGrows(v);
  }

  lemma {:induction false} AsciiIsValid(v: string)
    requires forall i :: 0 <= i < |v| ==> IsAscii(v[i])
    ensures Valid(v)
    decreases |v|
  {
    if v != "" {
      AsciiIsValid(v[1..]);
    }
  }

  // ---------------------------------------------------------------- text in context

  /** The number of leading bytes that are not ASCII. */
  function Run(v: string): (m: nat)
    ensures m <= |v| && (forall i :: 0 <= i < m ==> !IsAscii(v[i])) && (m < |v| ==> IsAscii(v[m]))
  {
    if v == "" || IsAscii(v[0]) then 0 else 1 + Run(v[1..])
  }

  /** A sequence does not depend on what follows the first ASCII byte. */
  lemma WidthByRun(s: string, i: nat, v: string)
    requires v != "" && !IsAscii(v[0]) && i + Run(v) < |s| && IsAscii(s[i + Run(v)])
    requires forall k :: 0 <= k < Run(v) ==> s[i + k] == v[k]
    ensures Width(s, i) == Width(v, 0)
  {
    var m := Run(v);
    assert m >= 1;
    assert s[i] == v[0];
    if m > 1 {
      assert s[i + 1] == v[1];
    }
    if m > 2 {
      assert s[i + 2] == v[2];
    }
    if m > 3 {
      assert s[i + 3] == v[3];
    }
  }

  lemma WidthBeforeAscii(a: string, c: char, b: string)
    requires a != "" && IsAscii(c)
    ensures Width(a + [c] + b, 0) == Width(a, 0)
  {
    var s := a + [c] + b;
    if !IsAscii(a[0]) {
      assert s[Run(a)] == if Run(a) < |a| then a[Run(a)] else c;
      WidthByRun(s, 0, a);
    }
  }

  /** An ASCII byte splits text: the whole is valid exactly when both sides are. */
  lemma {:induction false} ValidSplit(a: string, c: char, b: string)
    requires IsAscii(c)
    ensures Valid(a + [c] + b) <==> Valid(a) && Valid(b)
    decreases |a|
  {
    var s := a + [c] + b;
    if a == "" {
      assert s[0] == c && s[1..] == b;
    } else {
      WidthBeforeAscii(a, c, b);
      var w := Width(a, 0);
      if w > 0 {
        ValidSplit(a[w..], c, b);
        assert s[w..] == a[w..] + [c] + b;
      }
    }
  }

  // ---------------------------------------------------------------- code points

  function EncodeAll(runes: seq<int>): string
    requires forall i :: 0 <= i < |runes| ==> ValidRune(runes[i])
  {
    if runes == [] then "" else Encode(runes[0]) + EncodeAll(runes[1..])
  }

  /** The bytes q form one sequence. */
  predicate IsSequence(q: string) {
    && q != "" && Length(q[0]) == |q|
    && (|q| > 1 ==> IsSecond(q[0], q[1]))
    && (|q| > 2 ==> IsContinuation(q[2]))
    && (|q| > 3 ==> IsContinuation(q[3]))
  }

  lemma SequenceWidth(q: string, rest: string)
    requires IsSequence(q)
    ensures Width(q + rest, 0) == |q|
  {
  }

  lemma EncodedTwo(v: int)
    requires 0x80 <= v < 0x800
    ensures IsSequence(Encode(v))
  {
    assert 2 <= v / 64 < 32 && 0 <= v % 64 < 64;
  }

  lemma EncodedThree(v: int)
    requires 0x800 <= v < 0x10000 && ValidRune(v)
    ensures IsSequence(Encode(v))
  {
    var x, y, z := v / 4096, v / 64 % 64, v % 64;
    assert v / 64 == 64 * x + y;
    assert v == 4096 * x + 64 * y + z;
  }

  lemma EncodedFour(v: int)
    requires 0x10000 <= v <= 0x10FFFF
    ensures IsSequence(Encode(v))
  {
    var x, y, z, u := v / 262144, v / 4096 % 64, v / 64 % 64, v % 64;
    assert v / 4096 == 64 * x + y;
    assert v / 64 == 64 * (v / 4096) + z;
    assert v == 262144 * x + 4096 * y + 64 * z + u;
  }

  lemma EncodedWidth(v: int, rest: string)
    requires ValidRune(v)
    ensures Width(Encode(v) + rest, 0) == |Encode(v)|
  {
    if 0x80 <= v < 0x800 {
      EncodedTwo(v);
    } else if 0x800 <= v < 0x10000 {
      EncodedThree(v);
    } else if 0x10000 <= v {
      EncodedFour(v);
    }
    SequenceWidth(Encode(v), rest);
  }

  lemma {:induction false} EncodedIsValid(runes: seq<int>)
    requires forall i :: 0 <= i < |runes| ==> ValidRune(runes[i])
    ensures Valid(EncodeAll(runes))
  {
    if runes != [] {
      var rest := EncodeAll(runes[1..]);
      EncodedIsValid(runes[1..]);
      EncodedWidth(runes[0], rest);
      assert (Encode(runes[0]) + rest)[|Encode(runes[0])|..] == rest;
    }
  }

  /** The code point of a sequence. */
  lemma RuneOf(v: string) returns (r: int)
    requires v != "" && Width(v, 0) > 0
    ensures ValidRune(r) && Encode(r) == v[..Width(v, 0)]
  {
    var w := Width(v, 0);
    var a := v[0] as int;
    if w == 1 {
      r := a;
    } else if w == 2 {
      r := TwoBytes(v[0], v[1]);
      assert v[..2] == [v[0], v[1]];
    } else if w == 3 {
      r := ThreeBytes(v[0], v[1], v[2]);
      assert v[..3] == [v[0], v[1], v[2]];
    } else {
      r := FourBytes(v[0], v[1], v[2], v[3]);
      assert v[..4] == [v[0], v[1], v[2], v[3]];
    }
  }

  lemma TwoBytes(a: char, b: char) returns (r: int)
    requires Length(a) == 2 && IsSecond(a, b)
    ensures ValidRune(r) && Encode(r) == [a, b]
  {
    var x, y := a as int - 0xC0, b as int - 0x80;
    r := 64 * x + y;
    assert r / 64 == x && r % 64 == y;
  }

  lemma ThreeBytes(a: char, b: char, c: char) returns (r: int)
    requires Length(a) == 3 && IsSecond(a, b) && IsContinuation(c)
    ensures ValidRune(r) && Encode(r) == [a, b, c]
  {
    var x, y, z := a as int - 0xE0, b as int - 0x80, c as int - 0x80;
    r := 4096 * x + 64 * y + z;
    assert r / 4096 == x && r / 64 == 64 * x + y && r % 64 == z;
    assert (64 * x + y) % 64 == y;
  }

  lemma FourBytes(a: char, b: char, c: char, d: char) returns (r: int)
    requires Length(a) == 4 && IsSecond(a, b) && IsContinuation(c) && IsContinuation(d)
    ensures ValidRune(r) && Encode(r) == [a, b, c, d]
  {
    var x, y, z, u := a as int - 0xF0, b as int - 0x80, c as int - 0x80, d as int - 0x80;
    r := 262144 * x + 4096 * y + 64 * z + u;
    assert r / 262144 == x && r / 4096 == 64 * x + y && r / 64 == 4096 * x + 64 * y + z && r % 64 == u;
    assert (64 * x + y) % 64 == y && (4096 * x + 64 * y + z) % 64 == z;
  }

  /** Text is valid exactly when it spells code points. */
  lemma {:induction false} ValidSpells(v: string) returns (runes: seq<int>)
    requires Valid(v)
    ensures (forall i :: 0 <= i < |runes| ==> ValidRune(runes[i])) && EncodeAll(runes) == v
    decreases |v|
  {
    if v == "" {
      runes := [];
    } else {
      var w := Width(v, 0);
      var r := RuneOf(v);
      var rest := ValidSpells(v[w..]);
      runes := [r] + rest;
      assert runes[1..] == rest;
      assert v == v[..w] + v[w..];
    }
  }

  /** The byte table of `Width` accepts exactly the spellings of code points. */
  lemma ValidIff(v: string)
    ensures Valid(v) <==> exists runes: seq<int> :: (forall i :: 0 <= i < |runes| ==> ValidRune(runes[i])) && EncodeAll(runes) == v
  {
    if Valid(v) {
      var runes := ValidSpells(v);
    }
    if runes: seq<int> :| (forall i :: 0 <= i < |runes| ==> ValidRune(runes[i])) && EncodeAll(runes) == v {
      EncodedIsValid(runes);
    }
  }
}
