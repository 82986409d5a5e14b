/**
 * Binding codes: random bytes regrouped into five-bit symbols through a small bit buffer,
 * printed in four dashed groups, and read back in canonical form.
 */
module Crockford {
  import opened Common
  import opened Text

  type Byte = b: int | 0 <= b < 256
  type Bits = seq<bool>

  const ALPHABET := "0123456789ABCDEFGHJKMNPQRSTVWXYZ"

  /** Where a symbol stands: after the digits, each letter moves up for every one left out before it. */
  function SymbolAt(i: nat): int
    requires i < 32
  {
    if i < 10 then '0' as int + i
    else 'A' as int + i - 10 + (if i < 18 then 0 else if i < 20 then 1 else if i < 22 then 2 else if i < 27 then 3 else 4)
  }

  lemma AlphabetAt(i: nat)
    requires i < 32
    ensures |ALPHABET| == 32 && ALPHABET[i] as int == SymbolAt(i)
  {
  }

  /** Crockford's alphabet: the digits and the capital letters in order, without I, L, O and U. */
  lemma AlphabetIs(c: char)
    ensures c in ALPHABET <==> ('0' <= c <= '9' || 'A' <= c <= 'Z') && c != 'I' && c != 'L' && c != 'O' && c != 'U'
    ensures |ALPHABET| == 32 && forall i, j :: 0 <= i < j < 32 ==> ALPHABET[i] < ALPHABET[j]
  {
    forall i: nat | i < 32 ensures |ALPHABET| == 32 && ALPHABET[i] as int == SymbolAt(i) {
      AlphabetAt(i);
    }
    var n := c as int;
    if ('0' <= c <= '9' || 'A' <= c <= 'Z') && c != 'I' && c != 'L' && c != 'O' && c != 'U' {
      var at: nat := if n < 58 then n - 48 else n - 55 - (if n < 73 then 0 else if n < 76 then 1 else if n < 79 then 2 else if n < 85 then 3 else 4);
      AlphabetAt(at);
      assert ALPHABET[at] == c;
    }
    if c in ALPHABET {
      var i :| 0 <= i < |ALPHABET| && ALPHABET[i] == c;
      AlphabetAt(i);
    }
  }

  function Pow2(n: nat): (p: nat)
    ensures p > 0
  {
    if n == 0 then 1 else 2 * Pow2(n - 1)
  }

  // ---------------------------------------------------------------- bit strings

  /** The number a bit string spells, most significant bit first. */
  function Val(b: Bits): nat {
    if b == [] then 0 else 2 * Val(b[..|b| - 1]) + (if b[|b| - 1] then 1 else 0)
  }

  /** The n low bits of x. */
  function BitsOf(x: nat, n: nat): (b: Bits)
    ensures |b| == n
  {
    if n == 0 then [] else BitsOf(x / 2, n - 1) + [x % 2 == 1]
  }

  function BitString(v: seq<Byte>): (b: Bits)
    ensures |b| == 8 * |v|
  {
    if v == [] then [] else BitString(v[..|v| - 1]) + BitsOf(v[|v| - 1], 8)
  }

  lemma {:induction false} ValBound(b: Bits)
    ensures Val(b) < Pow2(|b|)
  {
    if b != [] {
      ValBound(b[..|b| - 1]);
    }
  }

  lemma {:induction false} ValOfBits(x: nat, n: nat)
    requires x < Pow2(n)
    ensures Val(BitsOf(x, n)) == x
  {
    if n > 0 {
      ValOfBits(x / 2, n - 1);
      assert BitsOf(x, n)[..n - 1] == BitsOf(x / 2, n - 1);
    }
  }

  lemma {:induction false} ValAppend(a: Bits, b: Bits)
    ensures Val(a + b) == Val(a) * Pow2(|b|) + Val(b)
    decreases |b|
  {
    if b == [] {
      assert a + b == a;
    } else {
      var front := b[..|b| - 1];
      ValAppend(a, front);
      assert (a + b)[..|a + b| - 1] == a + front;
      assert Val(a) * Pow2(|b|) == 2 * (Val(a) * Pow2(|front|));
    }
  }

  lemma {:induction false} ValInjective(a: Bits, b: Bits)
    requires |a| == |b|
    ensures Val(a) == Val(b) <==> a == b
  {
    if a != [] {
      ValInjective(a[..|a| - 1], b[..|b| - 1]);
      assert a == a[..|a| - 1] + [a[|a| - 1]] && b == b[..|b| - 1] + [b[|b| - 1]];
    }
  }

  /** The bits of a prefix are a prefix of the bits. */
  lemma {:induction false} PrefixBits(v: seq<Byte>, i: nat)
    requires i <= |v|
    ensures BitString(v)[..8 * i] == BitString(v[..i])
  {
    if i == |v| {
      assert v[..i] == v;
    } else {
      PrefixBits(v[..|v| - 1], i);
      assert v[..|v| - 1][..i] == v[..i];
    }
  }

  lemma ByteAt(v: seq<Byte>, i: nat)
    requires i < |v|
    ensures Val(BitString(v)[8 * i..8 * i + 8]) == v[i]
  {
    PrefixBits(v, i + 1);
    assert v[..i + 1][..i] == v[..i];
    var all := BitString(v);
    assert BitString(v[..i + 1]) == BitString(v[..i]) + BitsOf(v[i], 8);
    assert all[8 * i..8 * i + 8] == all[..8 * (i + 1)][8 * i..];
    assert all[8 * i..8 * i + 8] == BitsOf(v[i], 8);
    assert Pow2(8) == 256 by {
      assert Pow2(4) == 16;
    }
    ValOfBits(v[i], 8);
  }

  // ---------------------------------------------------------------- symbols

  /** Zero bits up to the next multiple of five. */
  function Padded(b: Bits): (p: Bits)
    ensures |p| % 5 == 0 && |b| <= |p| < |b| + 5
    ensures p[..|b|] == b && forall i :: |b| <= i < |p| ==> !p[i]
  {
    b + seq((5 - |b| % 5) % 5, i => false)
  }

  function Symbol(b: Bits): char
    requires |b| == 5
  {
    ValBound(b);
    assert Pow2(5) == 32;
    ALPHABET[Val(b)]
  }

  /** The five-bit groups of a padded bit string, in order. */
  function Symbols(b: Bits): (s: string)
    ensures |s| == |Padded(b)| / 5
    ensures forall k :: 0 <= k < |s| ==> s[k] == Symbol(Padded(b)[5 * k..5 * k + 5])
  {
    var p := Padded(b);
    seq(|p| / 5, k requires 0 <= k < |p| / 5 => Symbol(p[5 * k..5 * k + 5]))
  }

  lemma AlphabetStep(i: nat)
    requires i < 31
    ensures ALPHABET[i] < ALPHABET[i + 1]
  {
  }

  lemma {:induction false} AlphabetAscends(i: nat, j: nat)
    requires i < j < 32
    ensures ALPHABET[i] < ALPHABET[j]
  {
    AlphabetStep(j - 1);
    if i < j - 1 {
      AlphabetAscends(i, j - 1);
    }
  }

  lemma SymbolInAlphabet(b: Bits)
    requires |b| == 5
    ensures Symbol(b) in ALPHABET
  {
    ValBound(b);
    assert Pow2(5) == 32;
    assert ALPHABET[Val(b)] in ALPHABET;
  }

  lemma SymbolInjective(a: Bits, b: Bits)
    requires |a| == 5 && |b| == 5
    ensures Symbol(a) == Symbol(b) <==> a == b
  {
    ValBound(a);
    ValBound(b);
    assert Pow2(5) == 32;
    if Val(a) < Val(b) {
      AlphabetAscends(Val(a), Val(b));
    } else if Val(b) < Val(a) {
      AlphabetAscends(Val(b), Val(a));
    }
    ValInjective(a, b);
  }

  // ---------------------------------------------------------------- the bit buffer

  const WORD := 0x1_0000_0000

  /** 32-bit shifts and masks on values. */
  function ShiftLeft(x: nat, n: nat): nat {
    x * Pow2(n) % WORD
  }

  function ShiftRight(x: nat, n: nat): nat {
    Quotient(x, Pow2(n))
  }

  function Quotient(x: nat, m: nat): nat
    requires m > 0
  {
    x / m
  }

  function LowBits(x: nat, n: nat): nat {
    x % Pow2(n)
  }

  lemma DivMod(q: nat, m: nat, r: nat)
    requires r < m
    ensures (q * m + r) / m == q && (q * m + r) % m == r
  {
    var x := q * m + r;
    assert x == (x / m) * m + x % m;
    assert (x / m - q) * m == r - x % m;
    NoMultipleBetween(x / m - q, m);
  }

  lemma NoMultipleBetween(d: int, m: int)
    requires m > 0 && -m < d * m < m
    ensures d == 0
  {
  }

  lemma SmallPowers(n: nat)
    requires n <= 12
    ensures Pow2(n) <= 4096 && Pow2(5) == 32 && Pow2(8) == 256
    ensures n < 5 ==> Pow2(n) <= 16
  {
    assert Pow2(4) == 16;
    assert Pow2(8) == 256;
    assert Pow2(12) == 4096;
    PowMonotone(n, 12);
    if n < 5 {
      PowMonotone(n, 4);
    }
  }

  lemma {:induction false} PowMonotone(m: nat, n: nat)
    requires m <= n
    ensures Pow2(m) <= Pow2(n)
  {
    if m < n {
      PowMonotone(m, n - 1);
    }
  }

  /** The buffer holds the bits read and not yet written, and shifting in a byte keeps it below 2^12. */
  lemma ShiftInByte(all: Bits, from: nat, to: nat, byte: Byte)
    requires from <= to && to + 8 <= |all| && to - from < 5 && Val(all[to..to + 8]) == byte
    ensures Val(all[from..to]) < 16
    ensures ShiftLeft(Val(all[from..to]), 8) + byte == Val(all[from..to + 8]) < 4096
  {
    var held := all[from..to];
    ValBound(held);
    SmallPowers(to - from);
    assert all[from..to + 8] == held + all[to..to + 8];
    ValAppend(held, all[to..to + 8]);
  }

  /** The five oldest bits come out, the rest stay. */
  lemma ShiftOutSymbol(all: Bits, from: nat, to: nat)
    requires from + 5 <= to <= |all| && to - from <= 12
    ensures var buffer := Val(all[from..to]); var left := to - from - 5;
      && ShiftRight(buffer, left) == Val(all[from..from + 5]) < 32
      && LowBits(buffer, left) == Val(all[from + 5..to])
  {
    var head, tail := all[from..from + 5], all[from + 5..to];
    assert all[from..to] == head + tail;
    ValAppend(head, tail);
    ValBound(head);
    ValBound(tail);
    SmallPowers(5);
    DivMod(Val(head), Pow2(|tail|), Val(tail));
  }

  /** The last bits are padded with zeros on the right. */
  lemma PadSymbol(all: Bits, from: nat)
    requires from < |all| < from + 5 && from % 5 == 0
    ensures var left := |all| - from;
      ShiftLeft(Val(all[from..]), 5 - left) == Val(Padded(all)[from..from + 5]) < 32
  {
    var tail := all[from..];
    var zeros := Padded(all)[|all|..from + 5];
    assert Padded(all)[from..from + 5] == tail + zeros;
    ValAppend(tail, zeros);
    ValOfZeros(zeros);
    ValBound(Padded(all)[from..from + 5]);
    SmallPowers(5);
  }

  lemma {:induction false} ValOfZeros(b: Bits)
    requires forall i :: 0 <= i < |b| ==> !b[i]
    ensures Val(b) == 0
  {
    if b != [] {
      ValOfZeros(b[..|b| - 1]);
    }
  }

  /** The first |s| groups of the bit string are written. */
  ghost predicate Wrote(s: string, all: Bits) {
    && 5 * |s| <= |all|
    && forall k :: 0 <= k < |s| ==> s[k] == Symbol(all[5 * k..5 * k + 5])
  }

  lemma WroteNext(s: string, all: Bits, c: char)
    requires Wrote(s, all) && 5 * |s| + 5 <= |all| && c == Symbol(all[5 * |s|..5 * |s| + 5])
    ensures Wrote(s + [c], all)
  {
  }

  lemma WroteAll(s: string, all: Bits)
    requires Wrote(s, Padded(all)) && 5 * |s| == |Padded(all)|
    ensures s == Symbols(all)
  {
  }

  lemma PaddedSlice(all: Bits, k: nat)
    requires 5 * k + 5 <= |all|
    ensures Padded(all)[5 * k..5 * k + 5] == all[5 * k..5 * k + 5]
  {
    assert Padded(all)[..|all|][5 * k..5 * k + 5] == all[5 * k..5 * k + 5];
  }

  /** One symbol goes out: the buffer keeps the bits after it. */
  lemma DrainStep(s: string, all: Bits, to: nat)
    requires Wrote(s, Padded(all)) && 5 * |s| + 5 <= to <= |all| && to - 5 * |s| <= 12
    ensures var buffer := Val(all[5 * |s|..to]); var left := to - 5 * |s| - 5;
      && ShiftRight(buffer, left) < 32
      && Wrote(s + [ALPHABET[ShiftRight(buffer, left)]], Padded(all))
      && LowBits(buffer, left) == Val(all[5 * |s| + 5..to]) < 4096
  {
    ShiftOutSymbol(all, 5 * |s|, to);
    PaddedSlice(all, |s|);
    WroteNext(s, Padded(all), ALPHABET[Val(all[5 * |s|..5 * |s| + 5])]);
    ValBound(all[5 * |s| + 5..to]);
    SmallPowers(to - 5 * |s| - 5);
  }

  /** The inner loop: symbols go out while five bits are left. */
  method Drain(written: string, held: nat, count: nat, ghost all: Bits, ghost to: nat) returns (s: string, buffer: nat, bits: nat)
    requires count <= 12 && to <= |all| && 5 * |written| + count == to
    requires held == Val(all[5 * |written|..to]) < 4096 && Wrote(written, Padded(all))
    ensures bits < 5 && 5 * |s| + bits == to
    ensures buffer == Val(all[5 * |s|..to]) && Wrote(s, Padded(all))
  {
    s, buffer, bits := written, held, count;
    while bits >= 5
      invariant bits <= 12 && 5 * |s| + bits == to
      invariant buffer == Val(all[5 * |s|..to]) < 4096
      invariant Wrote(s, Padded(all))
    {
      DrainStep(s, all, to);
      bits := bits - 5;
      ghost var next := |s| + 1;
      s := s + [ALPHABET[ShiftRight(buffer, bits)]];
      assert |s| == next;
      buffer := if bits == 0 then 0 else LowBits(buffer, bits);
    }
  }

  lemma LastSymbol(s: string, all: Bits)
    requires Wrote(s, Padded(all)) && 5 * |s| < |all| < 5 * |s| + 5
    ensures var pad := ShiftLeft(Val(all[5 * |s|..]), 5 * |s| + 5 - |all|);
      pad < 32 && Wrote(s + [ALPHABET[pad]], Padded(all)) && 5 * |s| + 5 == |Padded(all)|
  {
    PadSymbol(all, 5 * |s|);
    WroteNext(s, Padded(all), ALPHABET[Val(Padded(all)[5 * |s|..5 * |s| + 5])]);
  }

  lemma ByteBits(v: seq<Byte>, i: nat, to: nat)
    requires i < |v| && to == 8 * i
    ensures to + 8 <= |BitString(v)| && Val(BitString(v)[to..to + 8]) == v[i]
  {
    ByteAt(v, i);
  }

  /** The bits that are left over make one more symbol. */
  method Flush(written: string, buffer: nat, bits: nat, ghost all: Bits) returns (s: string)
    requires bits < 5 && 5 * |written| + bits == |all| && buffer == Val(all[5 * |written|..]) && Wrote(written, Padded(all))
    ensures s == Symbols(all)
  {
    s := written;
    if bits > 0 {
      LastSymbol(s, all);
      s := s + [ALPHABET[ShiftLeft(buffer, 5 - bits)]];
    }
    WroteAll(s, all);
  }

  /** The encoder: every byte shifts in eight bits, every five bits shift out a symbol. */
  method Encode(v: seq<Byte>) returns (s: string)
    ensures s == Symbols(BitString(v))
  {
    ghost var all := BitString(v);
    s := "";
    var buffer, bits: nat := 0, 0;
    for i := 0 to |v|
      invariant 5 * |s| + bits == 8 * i && bits < 5
      invariant buffer == Val(all[5 * |s|..8 * i])
      invariant Wrote(s, Padded(all))
    {
      ghost var from, to := 5 * |s|, 8 * i;
      ByteBits(v, i, to);
      ShiftInByte(all, from, to, v[i]);
      s, buffer, bits := Drain(s, ShiftLeft(buffer, 8) + v[i], bits + 8, all, to + 8);
    }
    assert all[5 * |s|..8 * |v|] == all[5 * |s|..];
    s := Flush(s, buffer, bits, all);
  }

  // ---------------------------------------------------------------- codes

  /** Four dashed groups of five. */
  function Printed(e: string): string
    requires |e| == 20
  {
    "AGB-" + Join([e[0..5], e[5..10], e[10..15], e[15..20]], '-')
  }

  function CodeOf(v: seq<Byte>): string
    requires |v| == 13
  {
    Printed(Symbols(BitString(v))[..20])
  }

  /** Thirteen random bytes always make a code. */
  method NewCode(v: seq<Byte>) returns (code: Option<string>)
    requires |v| == 13
    ensures code == Some(CodeOf(v))
  {
    var encoded := Encode(v);
    if |encoded| < 20 {
      return None;
    }
    encoded := encoded[..20];
    code := Some("AGB-" + Join([encoded[0..5], encoded[5..10], encoded[10..15], encoded[15..20]], '-'));
  }

  /** Character by character. */
  lemma PrintedAt(e: string)
    requires |e| == 20
    ensures var p := Printed(e);
      && |p| == 27 && p[..4] == "AGB-"
      && p[4..9] == e[0..5] && p[9] == '-' && p[10..15] == e[5..10] && p[15] == '-'
      && p[16..21] == e[10..15] && p[21] == '-' && p[22..27] == e[15..20]
  {
    JoinFour(e[0..5], e[5..10], e[10..15], e[15..20], '-');
  }

  lemma JoinFour(a: string, b: string, c: string, d: string, sep: char)
    ensures Join([a, b, c, d], sep) == a + [sep] + b + [sep] + c + [sep] + d
  {
    assert [a, b, c, d][1..] == [b, c, d];
    assert [b, c, d][1..] == [c, d];
    assert [c, d][1..] == [d];
    assert Join([c, d], sep) == c + [sep] + d;
    assert Join([b, c, d], sep) == b + [sep] + (c + [sep] + d);
  }

  lemma PrintedInjective(d: string, e: string)
    requires |d| == 20 && |e| == 20
    ensures Printed(d) == Printed(e) <==> d == e
  {
    PrintedAt(d);
    PrintedAt(e);
    assert d == d[0..5] + d[5..10] + d[10..15] + d[15..20];
    assert e == e[0..5] + e[5..10] + e[10..15] + e[15..20];
  }

  lemma SymbolsAgree(a: Bits, b: Bits)
    requires |a| == |b| && |a| >= 100
    ensures Symbols(a)[..20] == Symbols(b)[..20] <==> a[..100] == b[..100]
  {
    forall k | 0 <= k < 20 ensures Symbols(a)[k] == Symbols(b)[k] <==> a[5 * k..5 * k + 5] == b[5 * k..5 * k + 5] {
      PaddedSlice(a, k);
      PaddedSlice(b, k);
      SymbolInjective(a[5 * k..5 * k + 5], b[5 * k..5 * k + 5]);
    }
    if Symbols(a)[..20] == Symbols(b)[..20] {
      forall i | 0 <= i < 100 ensures a[i] == b[i] {
        var k := i / 5;
        assert Symbols(a)[..20][k] == Symbols(b)[..20][k];
        assert a[5 * k..5 * k + 5][i - 5 * k] == b[5 * k..5 * k + 5][i - 5 * k];
      }
    }
    if a[..100] == b[..100] {
      forall k | 0 <= k < 20 ensures Symbols(a)[k] == Symbols(b)[k] {
        assert a[5 * k..5 * k + 5] == a[..100][5 * k..5 * k + 5];
        assert b[5 * k..5 * k + 5] == b[..100][5 * k..5 * k + 5];
      }
    }
  }

  /** Two codes agree exactly when the first hundred bits they are made of agree. */
  lemma CodesAgree(v: seq<Byte>, w: seq<Byte>)
    requires |v| == 13 && |w| == 13
    ensures CodeOf(v) == CodeOf(w) <==> BitString(v)[..100] == BitString(w)[..100]
  {
    SymbolsAgree(BitString(v), BitString(w));
    PrintedInjective(Symbols(BitString(v))[..20], Symbols(BitString(w))[..20]);
  }

  // ---------------------------------------------------------------- reading codes back

  predicate GoodGroup(p: string) {
    |p| == 5 && forall i :: 0 <= i < |p| ==> p[i] in ALPHABET
  }

  ghost predicate GoodParts(parts: seq<string>) {
    |parts| == 5 && parts[0] == "AGB" && forall j :: 1 <= j < 5 ==> GoodGroup(parts[j])
  }

  method CanonicalCode(code: string) returns (r: Option<string>)
    ensures r == Canonical(code)
  {
    var value := ToUpper(TrimSpace(code));
    PartsOfCode(value);
    var good := CheckParts(Split(value, '-'));
    r := if good then Some(value) else None;
  }

  method CheckParts(parts: seq<string>) returns (good: bool)
    ensures good <==> GoodParts(parts)
  {
    if |parts| != 5 || parts[0] != "AGB" {
      return false;
    }
    for i := 1 to 5
      invariant forall j :: 1 <= j < i ==> GoodGroup(parts[j])
    {
      good := CheckGroup(parts[i]);
      if !good {
        return;
      }
    }
    return true;
  }

  method CheckGroup(p: string) returns (good: bool)
    ensures good <==> GoodGroup(p)
  {
    if |p| != 5 {
      return false;
    }
    for k := 0 to |p|
      invariant forall m :: 0 <= m < k ==> p[m] in ALPHABET
    {
      if p[k] !in ALPHABET {
        return false;
      }
    }
    return true;
  }

  /** What canonicalCode accepts: any casing and surrounding space of the printed form of twenty symbols. */
  ghost function Canonical(code: string): Option<string> {
    var value := ToUpper(TrimSpace(code));
    if IsCode(value) then Some(value) else None
  }

  ghost predicate IsCode(value: string) {
    exists e :: IsPrinted(value, e)
  }

  /** The value is the printed form of twenty symbols. */
  ghost predicate IsPrinted(value: string, e: string) {
    |e| == 20 && (forall i :: 0 <= i < 20 ==> e[i] in ALPHABET) && value == Printed(e)
  }

  lemma PartsOfCode(value: string)
    ensures GoodParts(Split(value, '-')) <==> IsCode(value)
  {
    if GoodParts(Split(value, '-')) {
      GoodPartsMakeCode(value);
    }
    if e :| IsPrinted(value, e) {
      CodeHasGoodParts(value, e);
    }
  }

  lemma GoodPartsMakeCode(value: string)
    requires GoodParts(Split(value, '-'))
    ensures IsCode(value)
  {
    var parts := Split(value, '-');
    JoinSplit(value, '-');
    var e := parts[1] + parts[2] + parts[3] + parts[4];
    assert e[0..5] == parts[1] && e[5..10] == parts[2] && e[10..15] == parts[3] && e[15..20] == parts[4];
    assert parts[1..] == [e[0..5], e[5..10], e[10..15], e[15..20]];
    assert value == "AGB" + ['-'] + Join(parts[1..], '-');
    assert "AGB" + ['-'] == "AGB-";
    GroupsInAlphabet(parts[1], parts[2], parts[3], parts[4]);
    assert IsPrinted(value, e);
  }

  lemma GroupsInAlphabet(a: string, b: string, c: string, d: string)
    requires GoodGroup(a) && GoodGroup(b) && GoodGroup(c) && GoodGroup(d)
    ensures var e := a + b + c + d; |e| == 20 && forall i :: 0 <= i < 20 ==> e[i] in ALPHABET
  {
    var e := a + b + c + d;
    forall i | 0 <= i < 20 ensures e[i] in ALPHABET {
      assert e[i] == if i < 5 then a[i] else if i < 10 then b[i - 5] else if i < 15 then c[i - 10] else d[i - 15];
    }
  }

  lemma GroupOfCode(e: string, j: nat)
    requires |e| == 20 && j <= 15 && forall i :: 0 <= i < 20 ==> e[i] in ALPHABET
    ensures GoodGroup(e[j..j + 5]) && '-' !in e[j..j + 5]
  {
    var p := e[j..j + 5];
    AlphabetIs('-');
    forall i | 0 <= i < 5 ensures p[i] in ALPHABET && p[i] != '-' {
      assert p[i] == e[j + i];
    }
  }

  lemma PartsOf(groups: seq<string>, value: string)
    requires |groups| == 4 && value == "AGB" + ['-'] + Join(groups, '-')
    requires forall j :: 0 <= j < 4 ==> GoodGroup(groups[j]) && '-' !in groups[j]
    ensures GoodParts(Split(value, '-'))
  {
    SplitJoin(groups, '-');
    SplitCons("AGB", Join(groups, '-'), '-');
  }

  lemma CodeHasGoodParts(value: string, e: string)
    requires IsPrinted(value, e)
    ensures GoodParts(Split(value, '-'))
  {
    GroupOfCode(e, 0);
    GroupOfCode(e, 5);
    GroupOfCode(e, 10);
    GroupOfCode(e, 15);
    assert "AGB" + ['-'] == "AGB-";
    PartsOf([e[0..5], e[5..10], e[10..15], e[15..20]], value);
  }

  /** Codes are read back unchanged. */
  lemma CodeIsCanonical(v: seq<Byte>)
    requires |v| == 13
    ensures Canonical(CodeOf(v)) == Some(CodeOf(v))
  {
    var e := Symbols(BitString(v))[..20];
    forall i | 0 <= i < 20 ensures e[i] in ALPHABET {
      assert e[i] == Symbols(BitString(v))[i];
      SymbolInAlphabet(Padded(BitString(v))[5 * i..5 * i + 5]);
    }
    PrintedCanonical(e);
  }

  lemma PrintedCanonical(e: string)
    requires |e| == 20 && forall i :: 0 <= i < 20 ==> e[i] in ALPHABET
    ensures Canonical(Printed(e)) == Some(Printed(e))
  {
    var p := Printed(e);
    PrintedAt(e);
    forall i | 0 <= i < 27 ensures p[i] in ALPHABET || p[i] in "AGB-" {
      if 4 <= i < 9 {
        assert p[i] == p[4..9][i - 4];
      } else if 10 <= i < 15 {
        assert p[i] == p[10..15][i - 10];
      } else if 16 <= i < 21 {
        assert p[i] == p[16..21][i - 16];
      } else if 22 <= i {
        assert p[i] == p[22..27][i - 22];
      } else if i < 4 {
        assert p[i] == p[..4][i];
      }
    }
    forall i | 0 <= i < 27 ensures IsSolid(p[i]) && !('a' <= p[i] <= 'z') {
      UpperAlphabet(p[i]);
    }
    TrimNothing(p);
    assert ToUpper(p) == p;
    assert IsPrinted(p, e);
  }

  lemma UpperAlphabet(c: char)
    requires c in ALPHABET || c in "AGB-"
    ensures IsSolid(c) && !('a' <= c <= 'z')
  {
    if i: nat :| i < 32 && ALPHABET[i] == c {
      if i > 0 {
        AlphabetAscends(0, i);
      }
      if i < 31 {
        AlphabetAscends(i, 31);
      }
    }
  }

  /** Canonical form is stable. */
  lemma CanonicalIsStable(code: string)
    ensures Canonical(code).Some? ==> Canonical(Canonical(code).value) == Canonical(code)
  {
    if Canonical(code).Some? {
      var e :| IsPrinted(ToUpper(TrimSpace(code)), e);
      PrintedCanonical(e);
    }
  }
}