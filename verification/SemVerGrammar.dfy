/** The exact texts the version parser takes, and what it makes of each. */
module SemVerGrammar {
  import opened Common
  import opened Text
  import opened SemVer

  /** Letters, digits and dashes, at least one. */
  predicate IsIdentifier(s: string) {
    |s| > 0 && forall i :: 0 <= i < |s| ==> 'a' <= s[i] <= 'z' || 'A' <= s[i] <= 'Z' || '0' <= s[i] <= '9' || s[i] == '-'
  }

  /** A number is not padded with zeros. */
  predicate IsPadded(s: string) {
    |s| > 1 && s[0] == '0' && forall i :: 0 <= i < |s| ==> '0' <= s[i] <= '9'
  }

  /** Core numbers of 64 bits, and prerelease identifiers of which no number is padded. */
  ghost predicate IsVersion(v: Version) {
    && v.major < 18446744073709551616 && v.minor < 18446744073709551616 && v.patch < 18446744073709551616
    && forall i :: 0 <= i < |v.pre| ==> IsIdentifier(v.pre[i]) && !IsPadded(v.pre[i])
  }

  /** Build metadata: identifiers between dots. */
  ghost predicate IsBuild(build: string, parts: seq<string>) {
    |parts| > 0 && build == Join(parts, '.') && forall i :: 0 <= i < |parts| ==> IsIdentifier(parts[i])
  }

  /** The text spells the version, with or without build metadata. */
  ghost predicate Spells(value: string, v: Version) {
    value == Print(v) || exists build, parts :: IsBuild(build, parts) && value == Print(v) + ['+'] + build
  }

  lemma IdentifierIff(s: string)
    ensures ValidIdentifier(s, false) <==> IsIdentifier(s)
    ensures ValidIdentifier(s, true) <==> IsIdentifier(s) && !IsPadded(s)
  {
  }

  lemma VersionIff(v: Version)
    ensures GoodVersion(v) <==> IsVersion(v)
  {
    forall i | 0 <= i < |v.pre| ensures ValidIdentifier(v.pre[i], true) <==> IsIdentifier(v.pre[i]) && !IsPadded(v.pre[i]) {
      IdentifierIff(v.pre[i]);
    }
  }

  lemma BuildIff(build: string)
    ensures ValidIdentifiers(build, false) <==> exists parts :: IsBuild(build, parts)
    ensures ValidIdentifiers(build, false) ==> '+' !in build
  {
    if ValidIdentifiers(build, false) {
      var parts := Split(build, '.');
      forall i | 0 <= i < |parts| ensures IsIdentifier(parts[i]) {
        IdentifierIff(parts[i]);
      }
      JoinSplit(build, '.');
      assert IsBuild(build, parts);
      NoPlus(parts);
    }
    if parts :| IsBuild(build, parts) {
      forall i | 0 <= i < |parts| ensures ValidIdentifier(parts[i], false) && '.' !in parts[i] {
        IdentifierIff(parts[i]);
      }
      SplitJoin(parts, '.');
    }
  }

  lemma {:induction false} NoPlus(parts: seq<string>)
    requires |parts| > 0 && forall i :: 0 <= i < |parts| ==> IsIdentifier(parts[i])
    ensures '+' !in Join(parts, '.')
  {
    if |parts| > 1 {
      NoPlus(parts[1..]);
      assert Join(parts, '.') == parts[0] + ['.'] + Join(parts[1..], '.');
    }
  }

  /** Printing undoes reading a number. */
  lemma {:induction false} DecimalOfValue(s: string)
    requires ValidNumeric(s)
    ensures Decimal(Value(s)) == s
    decreases |s|
  {
    var front, c := s[..|s| - 1], s[|s| - 1];
    assert s == front + [c];
    ValueAppend(front, c);
    if front == "" {
      assert Value("") == 0;
    } else {
      LeadingIsPositive(front);
      DecimalOfValue(front);
      assert Value(s) / 10 == Value(front) && Value(s) % 10 == Digit(c);
    }
  }

  lemma LeadingIsPositive(s: string)
    requires s != "" && AllDigits(s) && s[0] != '0'
    ensures Value(s) > 0
  {
    assert Digit(s[0]) * Pow10(|s| - 1) >= 1;
  }

  lemma CoreIsPrinted(core: string, pre: seq<string>)
    requires ParseCore(core, pre).Some?
    ensures var v := ParseCore(core, pre).value; core == Core(v) && v.pre == pre
  {
    var numbers := Split(core, '.');
    DecimalOfValue(numbers[0]);
    DecimalOfValue(numbers[1]);
    DecimalOfValue(numbers[2]);
    JoinSplit(core, '.');
    assert Join(numbers[1..], '.') == numbers[1] + ['.'] + Join(numbers[1..][1..], '.');
    assert Join(numbers[2..], '.') == numbers[2];
    assert numbers[1..][1..] == numbers[2..];
  }

  lemma PlainIsPrinted(value: string)
    requires ParsePlain(value).Some?
    ensures value == Print(ParsePlain(value).value)
  {
    var k := Find(value, '-');
    if k == |value| {
      CoreIsPrinted(value, []);
    } else {
      var tail := value[k + 1..];
      CoreIsPrinted(value[..k], Split(tail, '.'));
      JoinSplit(tail, '.');
      assert value == value[..k] + ['-'] + tail;
    }
  }

  /** The parser takes exactly the spellings of versions, and reads each as the version it spells. */
  lemma ParseIff(value: string, v: Version)
    ensures Parse(value) == Some(v) <==> IsVersion(v) && Spells(value, v)
  {
    VersionIff(v);
    if Parse(value) == Some(v) {
      ParsedSpells(value);
    }
    if GoodVersion(v) && Spells(value, v) {
      if value == Print(v) {
        PrintParses(v);
      } else {
        var build, parts :| IsBuild(build, parts) && value == Print(v) + ['+'] + build;
        BuildIff(build);
        BuildIsIgnored(v, build);
      }
    }
  }

  /** The parts of an accepted text: a plain version, and the build metadata after the first plus. */
  lemma ParsedParts(value: string, k: nat)
    requires Parse(value).Some? && k == Find(value, '+')
    ensures ParsePlain(value[..k]) == Parse(value)
    ensures k < |value| ==> ValidIdentifiers(value[k + 1..], false)
  {
  }

  lemma BuiltSpells(plain: string, build: string, v: Version)
    requires plain == Print(v) && ValidIdentifiers(build, false)
    ensures Spells(plain + ['+'] + build, v)
  {
    BuildIff(build);
    var parts :| IsBuild(build, parts);
  }

  lemma PartsSpell(value: string, k: nat, plain: string, v: Version)
    requires k <= |value| && plain == value[..k] && ParsePlain(plain) == Some(v)
    requires k < |value| ==> value[k] == '+' && ValidIdentifiers(value[k + 1..], false)
    ensures Spells(value, v)
  {
    PlainIsPrinted(plain);
    if k == |value| {
      assert plain == value;
    } else {
      BuiltSpells(plain, value[k + 1..], v);
      assert value == plain + ['+'] + value[k + 1..];
    }
  }

  lemma ParsedSpells(value: string)
    requires Parse(value).Some?
    ensures GoodVersion(Parse(value).value) && Spells(value, Parse(value).value)
  {
    ParsedIsGood(value);
    var k := Find(value, '+');
    ParsedParts(value, k);
    PartsSpell(value, k, value[..k], Parse(value).value);
  }
}
