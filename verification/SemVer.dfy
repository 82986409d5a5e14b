/** Semantic versions: parsing, and precedence as section 11 of Semantic Versioning 2.0.0 orders them. */
module SemVer {
  import opened Common
  import opened Text

  const UINT64 := 0x1_0000_0000_0000_0000

  datatype Version = Version(major: nat, minor: nat, patch: nat, pre: seq<string>)

  // ---------------------------------------------------------------- identifiers

  predicate IsDigit(c: char) {
    '0' <= c <= '9'
  }

  predicate AllDigits(s: string) {
    forall i :: 0 <= i < |s| ==> IsDigit(s[i])
  }

  predicate NumericIdentifier(s: string) {
    s != "" && AllDigits(s)
  }

  predicate ValidNumeric(s: string) {
    NumericIdentifier(s) && (|s| > 1 ==> s[0] != '0')
  }

  predicate IdentifierChar(c: char) {
    'a' <= c <= 'z' || 'A' <= c <= 'Z' || IsDigit(c) || c == '-'
  }

  predicate ValidIdentifier(s: string, strict: bool) {
    && s != "" && (forall i :: 0 <= i < |s| ==> IdentifierChar(s[i]))
    && (strict && AllDigits(s) ==> ValidNumeric(s))
  }

  predicate ValidIdentifiers(value: string, strict: bool) {
    var parts := Split(value, '.');
    forall i :: 0 <= i < |parts| ==> ValidIdentifier(parts[i], strict)
  }

  function Pow10(n: nat): (p: nat)
    ensures p > 0
  {
    if n == 0 then 1 else 10 * Pow10(n - 1)
  }

  function Digit(c: char): (d: nat)
    requires IsDigit(c)
    ensures d < 10
  {
    c as int - '0' as int
  }

  /** The number a digit string spells, of any length. */
  function Value(s: string): nat
    requires AllDigits(s)
  {
    if s == "" then 0 else Digit(s[0]) * Pow10(|s| - 1) + Value(s[1..])
  }

  function ParseUint(s: string): Option<nat>
    requires AllDigits(s)
  {
    if Value(s) < UINT64 then Some(Value(s)) else None
  }

  // ---------------------------------------------------------------- parsing

  function ParseCore(core: string, pre: seq<string>): Option<Version> {
    var numbers := Split(core, '.');
    if |numbers| != 3 || !ValidNumeric(numbers[0]) || !ValidNumeric(numbers[1]) || !ValidNumeric(numbers[2]) then None
    else
      var major, minor, patch := ParseUint(numbers[0]), ParseUint(numbers[1]), ParseUint(numbers[2]);
      if major.None? || minor.None? || patch.None? then None
      else Some(Version(major.value, minor.value, patch.value, pre))
  }

  /** A version without build metadata. */
  function ParsePlain(value: string): Option<Version> {
    var k := Find(value, '-');
    if k == |value| then ParseCore(value, [])
    else if value[k + 1..] == "" || !ValidIdentifiers(value[k + 1..], true) then None
    else ParseCore(value[..k], Split(value[k + 1..], '.'))
  }

  function Parse(value: string): Option<Version> {
    if value == "" || TrimSpace(value) != value then None
    else
      var k := Find(value, '+');
      if k < |value| && ('+' in value[k + 1..] || !ValidIdentifiers(value[k + 1..], false)) then None
      else ParsePlain(value[..k])
  }

  // ---------------------------------------------------------------- comparing

  function IdentifierCompare(s: string, t: string): int {
    var m, n := NumericIdentifier(s), NumericIdentifier(t);
    if m && n then if |s| != |t| then Sign(|s|, |t|) else LexCompare(s, t)
    else if m then -1
    else if n then 1
    else LexCompare(s, t)
  }

  function PreCompare(a: seq<string>, b: seq<string>): int {
    if a == [] || b == [] then Sign(|a|, |b|)
    else
      var c := IdentifierCompare(a[0], b[0]);
      if c != 0 then c else PreCompare(a[1..], b[1..])
  }

  function Compare(a: Version, b: Version): int {
    if a.major != b.major then Sign(a.major, b.major)
    else if a.minor != b.minor then Sign(a.minor, b.minor)
    else if a.patch != b.patch then Sign(a.patch, b.patch)
    else if a.pre == [] && b.pre == [] then 0
    else if a.pre == [] then 1
    else if b.pre == [] then -1
    else PreCompare(a.pre, b.pre)
  }

  // ---------------------------------------------------------------- a total order

  lemma IdentifierOrder(s: string, t: string)
    ensures IdentifierCompare(s, t) == -IdentifierCompare(t, s) && -1 <= IdentifierCompare(s, t) <= 1
    ensures IdentifierCompare(s, t) == 0 <==> s == t
  {
    LexOrder(s, t);
  }

  lemma IdentifierTransitive(s: string, t: string, u: string)
    requires IdentifierCompare(s, t) <= 0 && IdentifierCompare(t, u) <= 0
    ensures IdentifierCompare(s, u) <= 0
  {
    if LexCompare(s, t) <= 0 && LexCompare(t, u) <= 0 {
      LexTransitive(s, t, u);
    }
  }

  lemma {:induction false} PreOrder(a: seq<string>, b: seq<string>)
    ensures PreCompare(a, b) == -PreCompare(b, a) && -1 <= PreCompare(a, b) <= 1
    ensures PreCompare(a, b) == 0 <==> a == b
    decreases |a|
  {
    if a != [] && b != [] {
      IdentifierOrder(a[0], b[0]);
      PreOrder(a[1..], b[1..]);
      assert a == [a[0]] + a[1..] && b == [b[0]] + b[1..];
    }
  }

  lemma {:induction false} PreTransitive(a: seq<string>, b: seq<string>, c: seq<string>)
    requires PreCompare(a, b) <= 0 && PreCompare(b, c) <= 0
    ensures PreCompare(a, c) <= 0
    decreases |a|
  {
    if a != [] && b != [] && c != [] {
      IdentifierOrder(a[0], b[0]);
      IdentifierOrder(b[0], c[0]);
      IdentifierTransitive(a[0], b[0], c[0]);
      IdentifierOrder(a[0], c[0]);
      if a[0] == c[0] {
        IdentifierOrder(c[0], b[0]);
        PreTransitive(a[1..], b[1..], c[1..]);
      }
    }
  }

  /** Precedence is antisymmetric, and zero only between versions with the same core and prerelease. */
  lemma CompareOrder(a: Version, b: Version)
    ensures Compare(a, b) == -Compare(b, a) && -1 <= Compare(a, b) <= 1
    ensures Compare(a, b) == 0 <==> a == b
  {
    PreOrder(a.pre, b.pre);
  }

  lemma CompareTransitive(a: Version, b: Version, c: Version)
    requires Compare(a, b) <= 0 && Compare(b, c) <= 0
    ensures Compare(a, c) <= 0
    ensures Compare(a, b) < 0 || Compare(b, c) < 0 ==> Compare(a, c) < 0
  {
    CompareOrder(a, b);
    CompareOrder(b, c);
    CompareOrder(a, c);
    if PreCompare(a.pre, b.pre) <= 0 && PreCompare(b.pre, c.pre) <= 0 {
      PreTransitive(a.pre, b.pre, c.pre);
    }
    if a == c {
      assert Compare(c, b) == -Compare(b, c);
    }
  }

  // ---------------------------------------------------------------- numbers of any length

  lemma DigitTimes(d: nat, p: nat, x: nat)
    requires d < 10 && x < p
    ensures d * p + x < 10 * p
  {
    assert d * p <= 9 * p;
  }

  lemma {:induction false} ValueBound(s: string)
    requires AllDigits(s)
    ensures Value(s) < Pow10(|s|)
  {
    if s != "" {
      ValueBound(s[1..]);
      DigitTimes(Digit(s[0]), Pow10(|s| - 1), Value(s[1..]));
    }
  }

  lemma LeadingDecides(d: nat, e: nat, p: nat, x: nat, y: nat)
    requires d < e && x < p
    ensures d * p + x < e * p + y
  {
    var more: nat := e - d - 1;
    assert e == d + 1 + more;
    assert e * p == d * p + p + more * p;
  }

  lemma {:induction false} SameLengthValue(s: string, t: string)
    requires AllDigits(s) && AllDigits(t) && |s| == |t|
    ensures LexCompare(s, t) == Sign(Value(s), Value(t))
  {
    if s != "" {
      SameLengthValue(s[1..], t[1..]);
      ValueBound(s[1..]);
      ValueBound(t[1..]);
      if s[0] < t[0] {
        LeadingDecides(Digit(s[0]), Digit(t[0]), Pow10(|s| - 1), Value(s[1..]), Value(t[1..]));
      } else if t[0] < s[0] {
        LeadingDecides(Digit(t[0]), Digit(s[0]), Pow10(|s| - 1), Value(t[1..]), Value(s[1..]));
      }
    }
  }

  lemma {:induction false} Pow10Monotone(m: nat, n: nat)
    requires m <= n
    ensures Pow10(m) <= Pow10(n)
  {
    if m < n {
      Pow10Monotone(m, n - 1);
    }
  }

  lemma ShorterIsLess(s: string, t: string)
    requires ValidNumeric(s) && ValidNumeric(t) && |s| < |t|
    ensures Value(s) < Value(t)
  {
    ValueBound(s);
    Pow10Monotone(|s|, |t| - 1);
    LeadingDecides(0, Digit(t[0]), Pow10(|t| - 1), Value(s), Value(t[1..]));
  }

  /** Length first, then text: the same as comparing the numbers, however long they are. */
  lemma NumericByValue(s: string, t: string)
    requires ValidNumeric(s) && ValidNumeric(t)
    ensures IdentifierCompare(s, t) == Sign(Value(s), Value(t))
  {
    if |s| < |t| {
      ShorterIsLess(s, t);
    } else if |t| < |s| {
      ShorterIsLess(t, s);
    } else {
      SameLengthValue(s, t);
    }
  }

  // ---------------------------------------------------------------- precedence as the standard states it

  /** Lower in ASCII sort order: at the first difference, or by being a proper prefix. */
  ghost predicate TextLower(s: string, t: string) {
    exists k :: 0 <= k <= |s| && k <= |t| && s[..k] == t[..k] && (if k < |s| then k < |t| && s[k] < t[k] else k < |t|)
  }

  /** Rule 4 of section 11, one identifier: numbers by value, text in ASCII order, numbers below text. */
  ghost predicate IdentifierLower(s: string, t: string) {
    if NumericIdentifier(s) && NumericIdentifier(t) then Value(s) < Value(t)
    else if NumericIdentifier(s) || NumericIdentifier(t) then NumericIdentifier(s)
    else TextLower(s, t)
  }

  /** Rule 4 of section 11: the first differing identifier decides, and a longer list wins when there is none. */
  ghost predicate DecidedAt(a: seq<string>, b: seq<string>, k: int) {
    0 <= k <= |a| && k <= |b| && a[..k] == b[..k] && (if k < |a| then k < |b| && IdentifierLower(a[k], b[k]) else k < |b|)
  }

  ghost predicate PreLower(a: seq<string>, b: seq<string>) {
    exists k :: DecidedAt(a, b, k)
  }

  /** Section 11: core numbers first, a prerelease below its release, then the prerelease identifiers. */
  ghost predicate Lower(a: Version, b: Version) {
    || a.major < b.major
    || (a.major == b.major && a.minor < b.minor)
    || (a.major == b.major && a.minor == b.minor && a.patch < b.patch)
    || (a.major == b.major && a.minor == b.minor && a.patch == b.patch && a.pre != [] && (b.pre == [] || PreLower(a.pre, b.pre)))
  }

  lemma {:induction false} TextByLex(s: string, t: string)
    ensures LexCompare(s, t) < 0 <==> TextLower(s, t)
    decreases |s|
  {
    if s == "" || t == "" {
      if LexCompare(s, t) < 0 {
        assert s[..0] == t[..0];
      }
    } else if s[0] != t[0] {
      assert s[..0] == t[..0];
      forall k | 0 < k <= |s| && k <= |t| ensures s[..k] != t[..k] {
        assert s[..k][0] == s[0] && t[..k][0] == t[0];
      }
    } else {
      TextByLex(s[1..], t[1..]);
      if j :| 0 <= j <= |s[1..]| && j <= |t[1..]| && s[1..][..j] == t[1..][..j] && (if j < |s[1..]| then j < |t[1..]| && s[1..][j] < t[1..][j] else j < |t[1..]|) {
        assert s[..j + 1] == [s[0]] + s[1..][..j] && t[..j + 1] == [t[0]] + t[1..][..j];
      }
      if k :| 0 <= k <= |s| && k <= |t| && s[..k] == t[..k] && (if k < |s| then k < |t| && s[k] < t[k] else k < |t|) {
        assert k > 0;
        assert s[1..][..k - 1] == s[..k][1..] && t[1..][..k - 1] == t[..k][1..];
      }
    }
  }

  ghost predicate GoodPre(pre: seq<string>) {
    forall i :: 0 <= i < |pre| ==> ValidIdentifier(pre[i], true)
  }

  lemma IdentifierByRule(s: string, t: string)
    requires ValidIdentifier(s, true) && ValidIdentifier(t, true)
    ensures IdentifierCompare(s, t) < 0 <==> IdentifierLower(s, t)
  {
    TextByLex(s, t);
    if NumericIdentifier(s) && NumericIdentifier(t) {
      NumericByValue(s, t);
    }
  }

  lemma {:induction false} PreByRule(a: seq<string>, b: seq<string>)
    requires GoodPre(a) && GoodPre(b)
    ensures PreCompare(a, b) < 0 <==> PreLower(a, b)
    decreases |a|
  {
    if a == [] || b == [] {
      if PreCompare(a, b) < 0 {
        assert DecidedAt(a, b, 0);
      }
    } else {
      IdentifierByRule(a[0], b[0]);
      IdentifierOrder(a[0], b[0]);
      if a[0] == b[0] {
        PreByRule(a[1..], b[1..]);
        if j :| DecidedAt(a[1..], b[1..], j) {
          assert a[..j + 1] == [a[0]] + a[1..][..j] && b[..j + 1] == [b[0]] + b[1..][..j];
          assert DecidedAt(a, b, j + 1);
        }
        if k :| DecidedAt(a, b, k) {
          DecidedLater(a, b, k);
        }
      } else {
        if PreCompare(a, b) < 0 {
          assert a[..0] == b[..0];
          assert DecidedAt(a, b, 0);
        }
        if k :| DecidedAt(a, b, k) {
          DecidedFirst(a, b, k);
        }
      }
    }
  }

  lemma DecidedLater(a: seq<string>, b: seq<string>, k: int)
    requires DecidedAt(a, b, k) && a != [] && b != [] && a[0] == b[0] && GoodPre(a)
    ensures DecidedAt(a[1..], b[1..], k - 1)
  {
    IdentifierOrder(a[0], a[0]);
    IdentifierByRule(a[0], a[0]);
    assert k > 0;
    assert a[1..][..k - 1] == a[..k][1..] && b[1..][..k - 1] == b[..k][1..];
  }

  lemma DecidedFirst(a: seq<string>, b: seq<string>, k: int)
    requires DecidedAt(a, b, k) && a != [] && b != [] && a[0] != b[0]
    ensures k == 0
  {
    if k > 0 {
      SameHead(a, b, k);
    }
  }

  lemma SameHead(a: seq<string>, b: seq<string>, k: nat)
    requires 0 < k <= |a| && k <= |b| && a[..k] == b[..k]
    ensures a[0] == b[0]
  {
    assert a[..k][0] == b[..k][0];
  }

  /** On parsed versions the comparison is the precedence of the standard. */
  lemma CompareIsPrecedence(a: Version, b: Version)
    requires GoodPre(a.pre) && GoodPre(b.pre)
    ensures Compare(a, b) < 0 <==> Lower(a, b)
    ensures Compare(a, b) > 0 <==> Lower(b, a)
  {
    CompareOrder(a, b);
    PreByRule(a.pre, b.pre);
    PreByRule(b.pre, a.pre);
    PreOrder(a.pre, b.pre);
  }

  // ---------------------------------------------------------------- parsing and printing

  ghost predicate GoodVersion(v: Version) {
    v.major < UINT64 && v.minor < UINT64 && v.patch < UINT64 && GoodPre(v.pre)
  }

  /** What parsing returns is fit for comparison. */
  lemma ParsedIsGood(value: string)
    ensures Parse(value).Some? ==> GoodVersion(Parse(value).value)
  {
  }

  function Decimal(n: nat): (s: string)
    ensures s != "" && AllDigits(s)
  {
    if n < 10 then [n as char + '0'] else Decimal(n / 10) + [(n % 10) as char + '0']
  }

  function Core(v: Version): string {
    Decimal(v.major) + ['.'] + (Decimal(v.minor) + ['.'] + Decimal(v.patch))
  }

  /** The canonical text of a version. */
  function Print(v: Version): string {
    if v.pre == [] then Core(v) else Core(v) + ['-'] + Join(v.pre, '.')
  }

  lemma {:induction false} ValueAppend(s: string, c: char)
    requires AllDigits(s) && IsDigit(c)
    ensures AllDigits(s + [c]) && Value(s + [c]) == 10 * Value(s) + Digit(c)
  {
    var t := s + [c];
    if s == "" {
      assert t[1..] == "";
      assert Pow10(0) == 1;
    } else {
      ValueAppend(s[1..], c);
      assert t[1..] == s[1..] + [c];
      assert Digit(s[0]) * Pow10(|s|) == 10 * (Digit(s[0]) * Pow10(|s| - 1));
    }
  }

  lemma {:induction false} DecimalIsValid(n: nat)
    ensures Value(Decimal(n)) == n
    ensures n > 0 ==> Decimal(n)[0] != '0'
    ensures ValidNumeric(Decimal(n))
  {
    if n < 10 {
      assert Decimal(n)[1..] == "";
      assert Pow10(0) == 1;
    } else {
      DecimalIsValid(n / 10);
      ValueAppend(Decimal(n / 10), (n % 10) as char + '0');
    }
  }

  lemma SplitThree(a: string, b: string, c: string)
    requires '.' !in a && '.' !in b && '.' !in c
    ensures Split(a + ['.'] + (b + ['.'] + c), '.') == [a, b, c]
  {
    SplitCons(a, b + ['.'] + c, '.');
    SplitCons(b, c, '.');
    SplitOne(c, '.');
  }

  lemma CoreOf(core: string, a: string, b: string, c: string, pre: seq<string>)
    requires Split(core, '.') == [a, b, c] && ValidNumeric(a) && ValidNumeric(b) && ValidNumeric(c)
    requires Value(a) < UINT64 && Value(b) < UINT64 && Value(c) < UINT64
    ensures ParseCore(core, pre) == Some(Version(Value(a), Value(b), Value(c), pre))
  {
  }

  lemma CoreParses(v: Version)
    requires GoodVersion(v)
    ensures ParseCore(Core(v), v.pre) == Some(v)
  {
    DecimalIsValid(v.major);
    DecimalIsValid(v.minor);
    DecimalIsValid(v.patch);
    SplitThree(Decimal(v.major), Decimal(v.minor), Decimal(v.patch));
    CoreOf(Core(v), Decimal(v.major), Decimal(v.minor), Decimal(v.patch), v.pre);
  }

  predicate CoreChar(c: char) {
    IsDigit(c) || c == '.'
  }

  lemma CoreChars(v: Version)
    ensures forall i :: 0 <= i < |Core(v)| ==> CoreChar(Core(v)[i])
    ensures Core(v) != "" && IsDigit(Core(v)[0]) && IsDigit(Core(v)[|Core(v)| - 1])
  {
  }

  lemma {:induction false} JoinChars(pre: seq<string>)
    requires GoodPre(pre)
    ensures forall i :: 0 <= i < |Join(pre, '.')| ==> IdentifierChar(Join(pre, '.')[i]) || Join(pre, '.')[i] == '.'
    ensures pre != [] ==> Join(pre, '.') != "" && IdentifierChar(Join(pre, '.')[|Join(pre, '.')| - 1])
  {
    if |pre| > 1 {
      JoinChars(pre[1..]);
      assert Join(pre, '.') == pre[0] + ['.'] + Join(pre[1..], '.');
    }
  }

  lemma PreSplits(pre: seq<string>)
    requires GoodPre(pre) && pre != []
    ensures Split(Join(pre, '.'), '.') == pre && ValidIdentifiers(Join(pre, '.'), true)
  {
    forall i | 0 <= i < |pre| ensures '.' !in pre[i] {
      assert ValidIdentifier(pre[i], true);
    }
    SplitJoin(pre, '.');
  }

  lemma PlainParses(v: Version)
    requires GoodVersion(v)
    ensures ParsePlain(Print(v)) == Some(v)
  {
    CoreParses(v);
    CoreChars(v);
    if v.pre == [] {
      FindNone(Core(v), '-');
    } else {
      JoinChars(v.pre);
      PreSplits(v.pre);
      PlainSplits(Core(v), Join(v.pre, '.'), v.pre);
    }
  }

  lemma PlainSplits(core: string, tail: string, pre: seq<string>)
    requires '-' !in core && tail != "" && ValidIdentifiers(tail, true) && Split(tail, '.') == pre
    ensures ParsePlain(core + ['-'] + tail) == ParseCore(core, pre)
  {
    var s := core + ['-'] + tail;
    FindAt(core, tail, '-');
    assert s[..|core|] == core && s[|core| + 1..] == tail;
  }

  lemma PrintChars(v: Version)
    requires GoodVersion(v)
    ensures var p := Print(v);
      && p != "" && IsSolid(p[0]) && IsSolid(p[|p| - 1])
      && '+' !in p
  {
    CoreChars(v);
    JoinChars(v.pre);
    var p := Print(v);
    assert p[0] == Core(v)[0];
    forall i | 0 <= i < |p| ensures p[i] != '+' {
      if i < |Core(v)| {
        assert p[i] == Core(v)[i];
      } else if i > |Core(v)| {
        assert p[i] == Join(v.pre, '.')[i - |Core(v)| - 1];
      }
    }
  }

  /** Parsing undoes printing. */
  lemma PrintParses(v: Version)
    requires GoodVersion(v)
    ensures Parse(Print(v)) == Some(v)
  {
    var p := Print(v);
    PrintChars(v);
    TrimNothing(p);
    FindNone(p, '+');
    assert p[..|p|] == p;
    PlainParses(v);
  }

  /** Build metadata does not change the version. */
  lemma BuildIsIgnored(v: Version, build: string)
    requires GoodVersion(v) && '+' !in build && ValidIdentifiers(build, false)
    ensures Parse(Print(v) + ['+'] + build) == Some(v)
  {
    var p := Print(v) + ['+'] + build;
    PrintChars(v);
    LastOfIdentifiers(build);
    assert p[0] == Print(v)[0] && p[|p| - 1] == build[|build| - 1];
    TrimNothing(p);
    FindAt(Print(v), build, '+');
    assert p[..|Print(v)|] == Print(v) && p[|Print(v)| + 1..] == build;
    PlainParses(v);
  }

  lemma {:induction false} LastOfIdentifiers(build: string)
    requires ValidIdentifiers(build, false)
    ensures build != "" && IdentifierChar(build[|build| - 1])
    decreases |build|
  {
    var k := Find(build, '.');
    var parts := Split(build, '.');
    if k == |build| {
      assert ValidIdentifier(parts[0], false);
    } else {
      var rest := build[k + 1..];
      forall i | 0 <= i < |Split(rest, '.')| ensures ValidIdentifier(Split(rest, '.')[i], false) {
        assert parts[i + 1] == Split(rest, '.')[i];
      }
      LastOfIdentifiers(rest);
    }
  }
}
