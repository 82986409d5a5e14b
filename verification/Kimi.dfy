/**
 * The marked region AgentBell keeps in Kimi's config.toml: finding it, installing or
 * replacing it, and taking it out again. The digest of a command is modelled by an
 * injective hexadecimal encoding.
 */
module Kimi {
  import opened Common
  import opened Text
  import opened Lines
  import opened Toml

  const BEGIN_PREFIX := "# agentbell:kimi-code:begin sha256:"
  const END_MARKER := "# agentbell:kimi-code:end"
  const EVENTS := ["Stop", "StopFailure", "PermissionRequest"]

  // ---------------------------------------------------------------- digests

  function HexDigit(d: nat): char
    requires d < 16
  {
    "0123456789abcdef"[d]
  }

  /** The last k hexadecimal digits. */
  function HexOf(n: nat, k: nat): (h: string)
    ensures |h| == k
  {
    if k == 0 then "" else HexOf(n / 16, k - 1) + [HexDigit(n % 16)]
  }

  function Digest(command: string): string {
    if command == "" then "" else HexOf(command[0] as int, 6) + Digest(command[1..])
  }

  lemma HexDigitInjective(a: nat, b: nat)
    requires a < 16 && b < 16 && HexDigit(a) == HexDigit(b)
    ensures a == b
  {
  }

  function Pow16(k: nat): nat {
    if k == 0 then 1 else 16 * Pow16(k - 1)
  }

  lemma {:induction false} HexInjective(m: nat, n: nat, k: nat)
    requires m < Pow16(k) && n < Pow16(k) && HexOf(m, k) == HexOf(n, k)
    ensures m == n
    decreases k
  {
    if k > 0 {
      var x, y := HexOf(m, k), HexOf(n, k);
      assert x[k - 1] == y[k - 1];
      assert x[..k - 1] == HexOf(m / 16, k - 1) && y[..k - 1] == HexOf(n / 16, k - 1);
      HexDigitInjective(m % 16, n % 16);
      HexInjective(m / 16, n / 16, k - 1);
    }
  }

  lemma CharIsSmall(c: char)
    ensures c as int < Pow16(6)
  {
    assert Pow16(3) == 4096;
    assert Pow16(6) == 4096 * Pow16(3);
  }

  lemma {:induction false} DigestInjective(a: string, b: string)
    ensures Digest(a) == Digest(b) <==> a == b
  {
    if Digest(a) == Digest(b) {
      if a != "" && b != "" {
        var x, y := HexOf(a[0] as int, 6), HexOf(b[0] as int, 6);
        assert Digest(a)[..6] == x && Digest(b)[..6] == y;
        assert Digest(a)[6..] == Digest(a[1..]) && Digest(b)[6..] == Digest(b[1..]);
        CharIsSmall(a[0]);
        CharIsSmall(b[0]);
        HexInjective(a[0] as int, b[0] as int, 6);
        DigestInjective(a[1..], b[1..]);
        assert a == [a[0]] + a[1..] && b == [b[0]] + b[1..];
      }
    }
  }

  predicate IsHex(c: char) {
    '0' <= c <= '9' || 'a' <= c <= 'f'
  }

  lemma HexDigitIsHex(d: nat)
    requires d < 16
    ensures IsHex(HexDigit(d))
  {
  }

  lemma {:induction false} HexIsHex(n: nat, k: nat)
    ensures forall i :: 0 <= i < k ==> IsHex(HexOf(n, k)[i])
    decreases k
  {
    if k > 0 {
      HexIsHex(n / 16, k - 1);
      HexDigitIsHex(n % 16);
    }
  }

  lemma {:induction false} DigestIsHex(c: string)
    ensures forall i :: 0 <= i < |Digest(c)| ==> IsHex(Digest(c)[i])
  {
    if c != "" {
      DigestIsHex(c[1..]);
      HexIsHex(c[0] as int, 6);
    }
  }

  // ---------------------------------------------------------------- markers

  predicate HasPrefix(s: string, p: string) {
    |p| <= |s| && s[..|p|] == p
  }

  predicate IsBegin(line: string) {
    HasPrefix(TrimSpace(line), BEGIN_PREFIX)
  }

  function HashIn(line: string): string
    requires IsBegin(line)
  {
    TrimSpace(line)[|BEGIN_PREFIX|..]
  }

  predicate IsEnd(line: string) {
    TrimSpace(line) == END_MARKER
  }

  /** What a line is to the search; no line is both a begin and an end. */
  datatype Mark = Other | Begin(hash: string) | End

  function MarkOf(line: string): Mark {
    if IsBegin(line) then Begin(HashIn(line)) else if IsEnd(line) then End else Other
  }

  function Marks(lines: seq<string>): (marks: seq<Mark>)
    ensures |marks| == |lines|
  {
    if lines == [] then [] else Marks(lines[..|lines| - 1]) + [MarkOf(lines[|lines| - 1])]
  }

  lemma {:induction false} MarkAt(lines: seq<string>, i: nat)
    requires i < |lines|
    ensures Marks(lines)[i] == MarkOf(lines[i])
  {
    if i < |lines| - 1 {
      MarkAt(lines[..|lines| - 1], i);
    }
  }

  ghost predicate AllOther(marks: seq<Mark>) {
    forall i :: 0 <= i < |marks| ==> marks[i] == Other
  }

  ghost predicate MarkerFree(lines: seq<string>) {
    AllOther(Marks(lines))
  }

  lemma MarksAppend(a: seq<string>, b: seq<string>)
    ensures Marks(a + b) == Marks(a) + Marks(b)
  {
    var whole, parts := Marks(a + b), Marks(a) + Marks(b);
    forall i | 0 <= i < |whole| ensures whole[i] == parts[i] {
      MarkOfAppend(a, b, i);
    }
  }

  lemma MarkOfAppend(a: seq<string>, b: seq<string>, i: nat)
    requires i < |a| + |b|
    ensures Marks(a + b)[i] == if i < |a| then Marks(a)[i] else Marks(b)[i - |a|]
  {
    MarkAt(a + b, i);
    if i < |a| {
      MarkAt(a, i);
    } else {
      MarkAt(b, i - |a|);
    }
  }

  // ---------------------------------------------------------------- finding the region

  datatype Scan = Scan(begins: nat, ends: nat, start: nat, end: nat, hash: string)

  datatype Search = Malformed | Absent | Found(start: nat, end: nat, hash: string)

  function Min(a: nat, b: nat): nat {
    if a < b then a else b
  }

  function ScanMark(s: Scan, mark: Mark, offset: nat, next: nat, size: nat): Scan {
    match mark
    case Other => s
    case Begin(hash) => s.(begins := s.begins + 1, start := offset, hash := hash)
    case End => s.(ends := s.ends + 1, end := Min(next, size))
  }

  /** The first n lines of a text of the given size. */
  function ScanMarks(marks: seq<Mark>, lines: seq<string>, n: nat, size: nat): Scan
    requires n <= |lines| == |marks|
  {
    if n == 0 then Scan(0, 0, 0, 0, "")
    else ScanMark(ScanMarks(marks, lines, n - 1, size), marks[n - 1], Start(lines, n - 1), Start(lines, n), size)
  }

  function Conclude(s: Scan): Search {
    if s.begins == 0 && s.ends == 0 then Absent
    else if s.begins != 1 || s.ends != 1 || s.start >= s.end then Malformed
    else Found(s.start, s.end, s.hash)
  }

  /** The region in some lines whose text has the given size. */
  function FindIn(lines: seq<string>, size: nat): Search {
    Conclude(ScanMarks(Marks(lines), lines, |lines|, size))
  }

  function FindRegion(content: string): Search {
    FindIn(LinesOf(content), |content|)
  }

  /** Line n of the text starts at the offset, or the offset lies past the end. */
  ghost predicate Cursor(content: string, lines: seq<string>, n: nat, offset: nat) {
    && n <= |lines| && offset == Start(lines, n)
    && if n == |lines| then offset > |content| else offset <= |content| && LinesOf(content[offset..]) == lines[n..]
  }

  lemma CursorStart(content: string)
    ensures Cursor(content, LinesOf(content), 0, 0)
  {
    var lines := LinesOf(content);
    assert content[0..] == content && lines[0..] == lines;
  }

  /** One line on. */
  lemma CursorNext(content: string, lines: seq<string>, n: nat, offset: nat)
    requires Cursor(content, lines, n, offset) && n < |lines|
    ensures var k := Find(content[offset..], NL);
      content[offset..offset + k] == lines[n] && Cursor(content, lines, n + 1, offset + k + 1)
  {
    var t, tail := content[offset..], lines[n..];
    var k := Find(t, NL);
    assert tail[0] == t[..k];
    assert content[offset..offset + k] == t[..k];
    assert tail[1..] == lines[n + 1..];
    if k < |t| {
      assert t[k + 1..] == content[offset + k + 1..];
    }
  }

  lemma CursorEnd(content: string, lines: seq<string>, n: nat, offset: nat)
    requires Cursor(content, lines, n, offset) && offset >= |content| && n < |lines|
    ensures n + 1 == |lines| && lines[n] == ""
  {
    assert content[offset..] == "";
    assert lines[n..] == [""];
    assert lines[n] == lines[n..][0];
  }

  /** The line at the offset, and where it ends. */
  method NextLine(content: string, offset: nat, ghost lines: seq<string>, ghost n: nat) returns (line: string, lineEnd: nat)
    requires offset < |content| && Cursor(content, lines, n, offset)
    ensures n < |lines| && line == lines[n] && offset <= lineEnd && lineEnd + 1 == Start(lines, n + 1)
    ensures Cursor(content, lines, n + 1, lineEnd + 1)
  {
    CursorNext(content, lines, n, offset);
    lineEnd := offset + Find(content[offset..], NL);
    line := content[offset..lineEnd];
  }

  lemma ScanToEnd(content: string, lines: seq<string>, n: nat, offset: nat)
    requires Cursor(content, lines, n, offset) && offset >= |content|
    ensures ScanMarks(Marks(lines), lines, |lines|, |content|) == ScanMarks(Marks(lines), lines, n, |content|)
  {
    if n < |lines| {
      CursorEnd(content, lines, n, offset);
      EmptyLine(lines, n, |content|);
    }
  }

  method ScanContent(content: string, ghost lines: seq<string>, ghost marks: seq<Mark>) returns (scan: Scan)
    requires Cursor(content, lines, 0, 0) && marks == Marks(lines)
    ensures scan == ScanMarks(marks, lines, |lines|, |content|)
  {
    ghost var n := 0;
    scan := Scan(0, 0, 0, 0, "");
    var offset := 0;
    while offset < |content|
      invariant n <= |lines| && offset == Start(lines, n) && Cursor(content, lines, n, offset)
      invariant scan == ScanMarks(marks, lines, n, |content|)
      decreases |content| - offset
    {
      var line, lineEnd := NextLine(content, offset, lines, n);
      MarkAt(lines, n);
      scan := ScanMark(scan, MarkOf(line), offset, lineEnd + 1, |content|);
      n := n + 1;
      offset := lineEnd + 1;
    }
    ScanToEnd(content, lines, n, offset);
  }

  /** findKimiRegion: line by line, by offsets. */
  method FindKimiRegion(content: string) returns (r: Search)
    ensures r == FindRegion(content)
  {
    ghost var lines := LinesOf(content);
    CursorStart(content);
    var scan := ScanContent(content, lines, Marks(lines));
    r := Conclude(scan);
  }

  lemma EmptyLine(lines: seq<string>, n: nat, size: nat)
    requires n + 1 == |lines| && lines[n] == ""
    ensures ScanMarks(Marks(lines), lines, |lines|, size) == ScanMarks(Marks(lines), lines, n, size)
  {
    assert TrimSpace("") == "";
    assert MarkOf("") == Other;
    MarkAt(lines, n);
  }

  // ---------------------------------------------------------------- the region's text

  function BlockLines(event: string, command: string): (lines: seq<string>)
    ensures |lines| == 5
  {
    ["[[hooks]]", "event = " + BasicString(event), "command = " + BasicString(command), "timeout = 5", ""]
  }

  function BlocksFor(events: seq<string>, command: string): seq<string> {
    if events == [] then [] else BlocksFor(events[..|events| - 1], command) + BlockLines(events[|events| - 1], command)
  }

  function RegionLines(command: string): seq<string> {
    [BEGIN_PREFIX + Digest(command)] + BlocksFor(EVENTS, command) + [END_MARKER]
  }

  function RegionText(command: string): string {
    Unlines(RegionLines(command))
  }

  method KimiBlockText(event: string, command: string) returns (text: string)
    ensures text == Unlines(BlockLines(event, command))
  {
    BlockText(event, command);
    text := "[[hooks]]\n";
    text := text + ("event = " + BasicString(event) + "\n");
    text := text + ("command = " + BasicString(command) + "\n");
    text := text + "timeout = 5\n\n";
  }

  method AppendBlocks(head: string, events: seq<string>, command: string) returns (text: string)
    ensures text == head + Unlines(BlocksFor(events, command))
  {
    text := head;
    var i := 0;
    while i < |events|
      invariant 0 <= i <= |events| && text == head + Unlines(BlocksFor(events[..i], command))
    {
      BlocksNext(head, text, events, i, command);
      var block := KimiBlockText(events[i], command);
      text := text + block;
      i := i + 1;
    }
    assert events[..i] == events;
  }

  lemma BlocksNext(head: string, text: string, events: seq<string>, i: nat, command: string)
    requires i < |events| && text == head + Unlines(BlocksFor(events[..i], command))
    ensures text + Unlines(BlockLines(events[i], command)) == head + Unlines(BlocksFor(events[..i + 1], command))
  {
    assert events[..i + 1][..i] == events[..i];
    UnlinesAppend(BlocksFor(events[..i], command), BlockLines(events[i], command));
  }

  lemma RegionSplit(first: string, blocks: seq<string>, last: string)
    ensures Unlines([first] + blocks + [last]) == first + [NL] + Unlines(blocks) + (last + [NL])
  {
    UnlinesAppend([first] + blocks, [last]);
    UnlinesAppend([first], blocks);
    OneLine(first);
    OneLine(last);
  }

  /** kimiRegionText, written piece by piece. */
  method KimiRegionText(command: string) returns (text: string)
    ensures text == RegionText(command)
  {
    RegionSplit(BEGIN_PREFIX + Digest(command), BlocksFor(EVENTS, command), END_MARKER);
    text := AppendBlocks(BEGIN_PREFIX + Digest(command) + [NL], EVENTS, command);
    text := text + (END_MARKER + [NL]);
  }

  lemma OneLine(line: string)
    ensures Unlines([line]) == line + [NL]
  {
    assert [line][1..] == [];
    assert Unlines([line][1..]) == "";
  }

  lemma BlockText(event: string, command: string)
    ensures Unlines(BlockLines(event, command)) ==
      "[[hooks]]\n" + ("event = " + BasicString(event) + "\n") + ("command = " + BasicString(command) + "\n") + "timeout = 5\n\n"
  {
    var b := BlockLines(event, command);
    assert b[1..] == [b[1], b[2], b[3], b[4]] && b[1..][1..] == [b[2], b[3], b[4]];
    assert [b[2], b[3], b[4]][1..] == [b[3], b[4]] && [b[3], b[4]][1..] == [b[4]] && [b[4]][1..] == [];
    assert Unlines([b[4]]) == "\n";
    assert Unlines([b[3], b[4]]) == "timeout = 5\n\n";
    assert Unlines([b[2], b[3], b[4]]) == b[2] + [NL] + "timeout = 5\n\n";
    assert Unlines(b[1..]) == b[1] + [NL] + (b[2] + [NL] + "timeout = 5\n\n");
  }

  // ---------------------------------------------------------------- lines of the region

  lemma TrimKeepsHead(line: string)
    requires line != "" && IsSolid(line[0])
    ensures TrimSpace(line) != "" && TrimSpace(line)[0] == line[0]
  {
    assert TrimLeft(line) == line;
    TrimRightKeepsHead(line);
  }

  lemma {:induction false} TrimRightKeepsHead(line: string)
    requires line != "" && IsSolid(line[0])
    ensures TrimRight(line) != "" && TrimRight(line)[0] == line[0]
  {
    if SpaceAtEnd(line) > 0 {
      TrimRightKeepsHead(line[..|line| - SpaceAtEnd(line)]);
    }
  }

  predicate IsInner(line: string) {
    line == "" || (line[0] != '#' && IsSolid(line[0]))
  }

  lemma PrefixHead(s: string, p: string)
    requires HasPrefix(s, p) && p != ""
    ensures s[0] == p[0]
  {
    assert s[..|p|][0] == s[0];
  }

  lemma InnerIsFree(line: string)
    requires IsInner(line)
    ensures MarkOf(line) == Other
  {
    if line == "" {
      assert TrimSpace(line) == "";
    } else {
      TrimKeepsHead(line);
      assert BEGIN_PREFIX[0] == '#' && END_MARKER[0] == '#';
      if IsBegin(line) {
        PrefixHead(TrimSpace(line), BEGIN_PREFIX);
      }
    }
  }

  lemma {:induction false} BlocksAreInner(events: seq<string>, command: string)
    ensures forall i :: 0 <= i < |BlocksFor(events, command)| ==> IsInner(BlocksFor(events, command)[i])
  {
    if events != [] {
      BlocksAreInner(events[..|events| - 1], command);
      var b := BlockLines(events[|events| - 1], command);
      assert b[1][0] == 'e' && b[2][0] == 'c';
    }
  }

  /** A prefix without white space at either end, followed by hexadecimal digits. */
  lemma PrefixLine(prefix: string, hash: string)
    requires prefix != "" && IsSolid(prefix[0]) && IsSolid(prefix[|prefix| - 1]) && NL !in prefix
    requires forall i :: 0 <= i < |hash| ==> IsHex(hash[i])
    ensures TrimSpace(prefix + hash) == prefix + hash && HasPrefix(prefix + hash, prefix)
    ensures (prefix + hash)[|prefix|..] == hash && NL !in prefix + hash
  {
    var line := prefix + hash;
    assert line[0] == prefix[0];
    assert line[|line| - 1] == if hash == "" then prefix[|prefix| - 1] else hash[|hash| - 1];
    TrimNothing(line);
  }

  lemma BeginLine(command: string)
    ensures var line := BEGIN_PREFIX + Digest(command);
      MarkOf(line) == Begin(Digest(command)) && NL !in line
  {
    DigestIsHex(command);
    assert NL !in BEGIN_PREFIX;
    PrefixLine(BEGIN_PREFIX, Digest(command));
  }

  lemma EndLine()
    ensures MarkOf(END_MARKER) == End && NL !in END_MARKER
  {
    TrimNothing(END_MARKER);
  }

  // ---------------------------------------------------------------- a region among other lines

  lemma {:induction false} ScanFree(marks: seq<Mark>, lines: seq<string>, a: nat, b: nat, size: nat)
    requires a <= b <= |lines| == |marks| && forall i :: a <= i < b ==> marks[i] == Other
    ensures ScanMarks(marks, lines, b, size) == ScanMarks(marks, lines, a, size)
    decreases b
  {
    if a < b {
      ScanFree(marks, lines, a, b - 1, size);
    }
  }

  /** One begin at k, one end at m after it, and nothing else. */
  ghost predicate OneRegion(marks: seq<Mark>, k: nat, m: nat) {
    && k < m < |marks| && marks[k].Begin? && marks[m].End?
    && forall i :: 0 <= i < |marks| && i != k && i != m ==> marks[i] == Other
  }

  lemma ScanRegion(marks: seq<Mark>, lines: seq<string>, k: nat, m: nat, size: nat)
    requires |marks| == |lines| && OneRegion(marks, k, m)
    ensures ScanMarks(marks, lines, |lines|, size) == Scan(1, 1, Start(lines, k), Min(Start(lines, m + 1), size), marks[k].hash)
  {
    ScanFree(marks, lines, 0, k, size);
    assert ScanMarks(marks, lines, 0, size) == Scan(0, 0, 0, 0, "");
    assert ScanMarks(marks, lines, k + 1, size) == Scan(1, 0, Start(lines, k), 0, marks[k].hash);
    ScanFree(marks, lines, k + 1, m, size);
    ScanFree(marks, lines, m + 1, |lines|, size);
  }

  lemma ConcludeRegion(marks: seq<Mark>, lines: seq<string>, k: nat, m: nat, size: nat)
    requires |marks| == |lines| && OneRegion(marks, k, m) && size + 1 == Start(lines, |lines|)
    ensures Conclude(ScanMarks(marks, lines, |lines|, size)) == Found(Start(lines, k), Min(Start(lines, m + 1), size), marks[k].hash)
  {
    ScanRegion(marks, lines, k, m, size);
    StartMonotone(lines, k, m);
    StartMonotone(lines, m, m + 1);
    StartMonotone(lines, m, |lines| - 1);
    StartMonotone(lines, |lines| - 1, |lines|);
  }

  /** The region is found exactly where it stands. */
  lemma FoundAt(lines: seq<string>, marks: seq<Mark>, k: nat, m: nat, size: nat)
    requires lines != [] && Marks(lines) == marks && OneRegion(marks, k, m) && size + 1 == Start(lines, |lines|)
    ensures FindIn(lines, size) == Found(Start(lines, k), Min(Start(lines, m + 1), size), marks[k].hash)
  {
    ConcludeRegion(marks, lines, k, m, size);
  }

  // ---------------------------------------------------------------- and back

  lemma {:induction false} NoneOf(marks: seq<Mark>, lines: seq<string>, n: nat, size: nat, i: nat)
    requires i < n <= |lines| == |marks|
    ensures ScanMarks(marks, lines, n, size).begins == 0 ==> !marks[i].Begin?
    ensures ScanMarks(marks, lines, n, size).ends == 0 ==> !marks[i].End?
    decreases n
  {
    if i < n - 1 {
      NoneOf(marks, lines, n - 1, size, i);
    }
  }

  lemma {:induction false} TheBegin(marks: seq<Mark>, lines: seq<string>, n: nat, size: nat) returns (k: nat)
    requires n <= |lines| == |marks| && ScanMarks(marks, lines, n, size).begins == 1
    ensures k < n && marks[k].Begin? && ScanMarks(marks, lines, n, size).start == Start(lines, k)
    ensures ScanMarks(marks, lines, n, size).hash == marks[k].hash
    ensures forall i :: 0 <= i < n && i != k ==> !marks[i].Begin?
    decreases n
  {
    if marks[n - 1].Begin? {
      k := n - 1;
      forall i | 0 <= i < n - 1 ensures !marks[i].Begin? {
        NoneOf(marks, lines, n - 1, size, i);
      }
    } else {
      k := TheBegin(marks, lines, n - 1, size);
    }
  }

  lemma {:induction false} TheEnd(marks: seq<Mark>, lines: seq<string>, n: nat, size: nat) returns (m: nat)
    requires n <= |lines| == |marks| && ScanMarks(marks, lines, n, size).ends == 1
    ensures m < n && marks[m].End? && ScanMarks(marks, lines, n, size).end == Min(Start(lines, m + 1), size)
    ensures forall i :: 0 <= i < n && i != m ==> !marks[i].End?
    decreases n
  {
    if marks[n - 1].End? {
      m := n - 1;
      forall i | 0 <= i < n - 1 ensures !marks[i].End? {
        NoneOf(marks, lines, n - 1, size, i);
      }
    } else {
      m := TheEnd(marks, lines, n - 1, size);
    }
  }

  lemma ShapeOf(marks: seq<Mark>, lines: seq<string>, size: nat) returns (k: nat, m: nat)
    requires |marks| == |lines| && Conclude(ScanMarks(marks, lines, |lines|, size)).Found?
    ensures OneRegion(marks, k, m)
    ensures Conclude(ScanMarks(marks, lines, |lines|, size)) == Found(Start(lines, k), Min(Start(lines, m + 1), size), marks[k].hash)
  {
    k := TheBegin(marks, lines, |lines|, size);
    m := TheEnd(marks, lines, |lines|, size);
    if m < k {
      StartMonotone(lines, m + 1, k);
    }
  }

  /** A region that is found stands between one begin line and one later end line. */
  lemma RegionShape(content: string, lines: seq<string>, marks: seq<Mark>) returns (k: nat, m: nat)
    requires LinesOf(content) == lines && Marks(lines) == marks && FindRegion(content).Found?
    ensures OneRegion(marks, k, m)
    ensures FindRegion(content) == Found(Start(lines, k), Min(Start(lines, m + 1), |content|), marks[k].hash)
  {
    k, m := ShapeOf(marks, lines, |content|);
  }
}
