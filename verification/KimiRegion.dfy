/** Installing, replacing and removing the marked region, and what each does to the rest of the file. */
module KimiRegions {
  import opened Common
  import opened Text
  import opened Lines
  import opened Toml
  import opened Kimi

  // ---------------------------------------------------------------- inline hooks

  datatype LineClass = Blank | Header | InlineHooks | Plain

  predicate IsPatternSpace(c: char) {
    c == ' ' || c == '\t' || c == '\n' || c == '\r' || c == 12 as char
  }

  function SkipPatternSpace(s: string, i: nat): (k: nat)
    requires i <= |s|
    ensures i <= k <= |s|
    decreases |s| - i
  {
    if i < |s| && IsPatternSpace(s[i]) then SkipPatternSpace(s, i + 1) else i
  }

  /** The line assigns to the key `hooks`. */
  predicate AssignsHooks(line: string) {
    HasPrefix(line, "hooks") &&
    var k := SkipPatternSpace(line, 5);
    k < |line| && line[k] == '='
  }

  function ClassOf(line: string): LineClass {
    var t := TrimSpace(line);
    if t == "" || t[0] == '#' then Blank
    else if t[0] == '[' then Header
    else if AssignsHooks(t) then InlineHooks
    else Plain
  }

  function Classes(lines: seq<string>): (classes: seq<LineClass>)
    ensures |classes| == |lines|
  {
    if lines == [] then [] else Classes(lines[..|lines| - 1]) + [ClassOf(lines[|lines| - 1])]
  }

  lemma {:induction false} ClassAt(lines: seq<string>, i: nat)
    requires i < |lines|
    ensures Classes(lines)[i] == ClassOf(lines[i])
  {
    if i < |lines| - 1 {
      ClassAt(lines[..|lines| - 1], i);
    }
  }

  ghost predicate InRoot(classes: seq<LineClass>, n: nat)
    requires n <= |classes|
  {
    forall i :: 0 <= i < n ==> !classes[i].Header?
  }

  /** An inline `hooks` value stands before every table header. */
  ghost predicate ConflictIn(classes: seq<LineClass>, n: nat)
    requires n <= |classes|
  {
    exists i :: 0 <= i < n && classes[i].InlineHooks? && InRoot(classes, i)
  }

  ghost predicate HasConflict(content: string) {
    var classes := Classes(LinesOf(content));
    ConflictIn(classes, |classes|)
  }

  /** hasInlineHooksConflict: line by line, by offsets. */
  method HasInlineHooksConflict(content: string) returns (conflict: bool)
    ensures conflict <==> HasConflict(content)
  {
    ghost var lines := LinesOf(content);
    CursorStart(content);
    conflict := ScanConflict(content, lines, Classes(lines));
  }

  lemma EmptyIsBlank()
    ensures ClassOf("") == Blank
  {
    assert TrimSpace("") == "";
  }

  method NextClass(content: string, offset: nat, ghost lines: seq<string>, ghost classes: seq<LineClass>, ghost n: nat)
    returns (kind: LineClass, lineEnd: nat)
    requires offset < |content| && Cursor(content, lines, n, offset) && classes == Classes(lines)
    ensures n < |lines| && kind == classes[n] && offset <= lineEnd && lineEnd + 1 == Start(lines, n + 1)
    ensures Cursor(content, lines, n + 1, lineEnd + 1)
  {
    var line;
    line, lineEnd := NextLine(content, offset, lines, n);
    ClassAt(lines, n);
    kind := ClassOf(line);
  }

  /** The rest of the text holds at most an empty line. */
  lemma ConflictToEnd(content: string, lines: seq<string>, n: nat, offset: nat)
    requires Cursor(content, lines, n, offset) && offset >= |content|
    ensures ConflictIn(Classes(lines), |lines|) <==> ConflictIn(Classes(lines), n)
  {
    if n < |lines| {
      CursorEnd(content, lines, n, offset);
      EmptyIsBlank();
      ClassAt(lines, n);
    }
  }

  lemma ConflictNext(classes: seq<LineClass>, n: nat)
    requires n < |classes|
    ensures InRoot(classes, n + 1) <==> InRoot(classes, n) && !classes[n].Header?
    ensures ConflictIn(classes, n + 1) <==> ConflictIn(classes, n) || (classes[n].InlineHooks? && InRoot(classes, n))
  {
  }

  lemma ConflictStays(classes: seq<LineClass>, n: nat)
    requires n <= |classes| && ConflictIn(classes, n)
    ensures ConflictIn(classes, |classes|)
  {
  }

  method ScanConflict(content: string, ghost lines: seq<string>, ghost classes: seq<LineClass>) returns (conflict: bool)
    requires Cursor(content, lines, 0, 0) && classes == Classes(lines)
    ensures conflict <==> ConflictIn(classes, |classes|)
  {
    ghost var n := 0;
    var inRoot := true;
    var offset := 0;
    while offset < |content|
      invariant n <= |lines| && offset == Start(lines, n) && Cursor(content, lines, n, offset)
      invariant inRoot <==> InRoot(classes, n)
      invariant !ConflictIn(classes, n)
      decreases |content| - offset
    {
      var kind, lineEnd := NextClass(content, offset, lines, classes, n);
      ConflictNext(classes, n);
      n := n + 1;
      offset := lineEnd + 1;
      if kind.InlineHooks? && inRoot {
        ConflictStays(classes, n);
        return true;
      }
      inRoot := inRoot && !kind.Header?;
    }
    ConflictToEnd(content, lines, n, offset);
    return false;
  }

  lemma ClassesAppend(a: seq<string>, b: seq<string>)
    ensures Classes(a + b) == Classes(a) + Classes(b)
  {
    var whole, parts := Classes(a + b), Classes(a) + Classes(b);
    forall i | 0 <= i < |whole| ensures whole[i] == parts[i] {
      ClassOfAppend(a, b, i);
    }
  }

  lemma ClassOfAppend(a: seq<string>, b: seq<string>, i: nat)
    requires i < |a| + |b|
    ensures Classes(a + b)[i] == if i < |a| then Classes(a)[i] else Classes(b)[i - |a|]
  {
    ClassAt(a + b, i);
    if i < |a| {
      ClassAt(a, i);
    } else {
      ClassAt(b, i - |a|);
    }
  }

  /** A comment and a table header after conflict-free lines leave no conflict, whatever follows. */
  lemma HeaderEndsRoot(before: seq<LineClass>, later: seq<LineClass>)
    requires !ConflictIn(before, |before|)
    ensures var classes := before + [Blank, Header] + later; !ConflictIn(classes, |classes|)
  {
    var classes := before + [Blank, Header] + later;
    var k := |before|;
    forall i | 0 <= i < |classes| ensures !(classes[i].InlineHooks? && InRoot(classes, i)) {
      if i < k {
        assert classes[i] == before[i];
        assert InRoot(classes, i) ==> InRoot(before, i) by {
          assert forall j :: 0 <= j < i ==> classes[j] == before[j];
        }
      } else if i > k + 1 {
        assert classes[k + 1] == Header;
      }
    }
  }

  // ---------------------------------------------------------------- installing and removing

  /** The content, with a final newline if it has any text. */
  function Terminated(content: string): string {
    if content != "" && content[|content| - 1] != NL then content + [NL] else content
  }

  datatype Edit = Edit(content: string, changed: bool)

  /** Writing a region text with the given digest. */
  ghost function InstallText(content: string, text: string, hash: string): Option<Edit> {
    match FindRegion(content)
    case Malformed => None
    case Found(start, end, was) =>
      if was == hash then Some(Edit(content, false))
      else if start <= end <= |content| then Some(Edit(content[..start] + text + content[end..], true))
      else None
    case Absent =>
      if HasConflict(content) then None else Some(Edit(Terminated(content) + text, true))
  }

  /** installKimiRegion: None when the markers are malformed or an inline value is in the way. */
  ghost function Install(content: string, command: string): Option<Edit> {
    InstallText(content, RegionText(command), Digest(command))
  }

  /** The edit Uninstall makes. */
  function Uninstall(content: string): Option<Edit> {
    match FindRegion(content)
    case Malformed => None
    case Absent => Some(Edit(content, false))
    case Found(start, end, _) => if start <= end <= |content| then Some(Edit(content[..start] + content[end..], true)) else None
  }

  method InstallKimiRegion(content: string, command: string) returns (r: Option<Edit>)
    ensures r == Install(content, command)
  {
    var region := FindKimiRegion(content);
    if region.Malformed? {
      return None;
    }
    var text := KimiRegionText(command);
    if region.Found? {
      if region.hash == Digest(command) {
        return Some(Edit(content, false));
      }
      FoundInside(content);
      return Some(Edit(content[..region.start] + text + content[region.end..], true));
    }
    var conflict := HasInlineHooksConflict(content);
    if conflict {
      return None;
    }
    var base := content;
    if content != "" && content[|content| - 1] != NL {
      base := content + [NL];
    }
    return Some(Edit(base + text, true));
  }

  method UninstallKimiRegion(content: string) returns (r: Option<Edit>)
    ensures r == Uninstall(content)
  {
    var region := FindKimiRegion(content);
    match region
    case Malformed => return None;
    case Absent => return Some(Edit(content, false));
    case Found(start, end, _) =>
      FoundInside(content);
      return Some(Edit(content[..start] + content[end..], true));
  }

  /** A region that is found lies inside the content. */
  lemma FoundInside(content: string)
    requires FindRegion(content).Found?
    ensures FindRegion(content).start < FindRegion(content).end <= |content|
  {
    var lines := LinesOf(content);
    var k, m := RegionShape(content, lines, Marks(lines));
  }

  // ---------------------------------------------------------------- the region among other lines

  lemma {:induction false} EscapedLacks(v: string, c: char)
    requires c !in v && c != '\\' && c != '"'
    ensures c !in Escaped(v)
  {
    if v == "" {
      assert Escaped(v) == "";
    } else {
      EscapedCons(v);
      assert c !in v[1..];
      EscapedLacks(v[1..], c);
    }
  }

  lemma BlockLinesAreLines(event: string, command: string)
    requires NL !in event && NL !in command
    ensures AreLines(BlockLines(event, command))
  {
    EscapedLacks(event, NL);
    EscapedLacks(command, NL);
    var b := BlockLines(event, command);
    assert NL !in b[0] && NL !in b[1] && NL !in b[2] && NL !in b[3];
  }

  lemma {:induction false} BlocksAreLines(events: seq<string>, command: string)
    requires NL !in command && forall i :: 0 <= i < |events| ==> NL !in events[i]
    ensures AreLines(BlocksFor(events, command))
  {
    if events != [] {
      BlocksAreLines(events[..|events| - 1], command);
      BlockLinesAreLines(events[|events| - 1], command);
    }
  }

  lemma EventsAreLines()
    ensures forall i :: 0 <= i < |EVENTS| ==> NL !in EVENTS[i]
  {
    assert NL !in EVENTS[0] && NL !in EVENTS[1] && NL !in EVENTS[2];
  }

  lemma SurroundedLines(first: string, blocks: seq<string>, last: string)
    requires NL !in first && AreLines(blocks) && NL !in last
    ensures AreLines([first] + blocks + [last])
  {
    var all := [first] + blocks + [last];
    forall i | 0 <= i < |all| ensures NL !in all[i] {
      assert all[i] == if i == 0 then first else if i <= |blocks| then blocks[i - 1] else last;
    }
  }

  lemma RegionAreLines(command: string)
    requires NL !in command
    ensures AreLines(RegionLines(command))
  {
    EventsAreLines();
    BlocksAreLines(EVENTS, command);
    BeginLine(command);
    EndLine();
    SurroundedLines(BEGIN_PREFIX + Digest(command), BlocksFor(EVENTS, command), END_MARKER);
  }

  lemma InnerBlocks(blocks: seq<string>)
    requires forall i :: 0 <= i < |blocks| ==> IsInner(blocks[i])
    ensures MarkerFree(blocks)
  {
    forall i | 0 <= i < |blocks| ensures Marks(blocks)[i] == Other {
      InnerIsFree(blocks[i]);
      MarkAt(blocks, i);
    }
  }

  lemma SurroundedMarks(first: string, blocks: seq<string>, last: string, hash: string)
    requires MarkOf(first) == Begin(hash) && MarkerFree(blocks) && MarkOf(last) == End
    ensures Marks([first] + blocks + [last]) == [Begin(hash)] + Marks(blocks) + [End]
  {
    MarksAppend([first] + blocks, [last]);
    MarksAppend([first], blocks);
    MarkAt([first], 0);
    MarkAt([last], 0);
    assert Marks([first]) == [Begin(hash)];
    assert Marks([last]) == [End];
  }

  /** One begin line, inner lines, one end line. */
  lemma RegionMarks(command: string) returns (inner: seq<Mark>)
    ensures AllOther(inner) && Marks(RegionLines(command)) == [Begin(Digest(command))] + inner + [End]
  {
    BeginLine(command);
    EndLine();
    BlocksAreInner(EVENTS, command);
    var blocks := BlocksFor(EVENTS, command);
    InnerBlocks(blocks);
    SurroundedMarks(BEGIN_PREFIX + Digest(command), blocks, END_MARKER, Digest(command));
    inner := Marks(blocks);
  }

  /** Free lines before and after do not disturb the region. */
  lemma AmongOthers(before: seq<Mark>, hash: string, inner: seq<Mark>, later: seq<Mark>)
    requires AllOther(before) && AllOther(inner) && AllOther(later)
    ensures var marks := before + ([Begin(hash)] + inner + [End]) + later;
      OneRegion(marks, |before|, |before| + |inner| + 1) && marks[|before|] == Begin(hash)
  {
  }

  lemma ComposedMarks(before: seq<string>, rl: seq<string>, later: seq<string>)
    ensures Marks(before + rl + later) == Marks(before) + Marks(rl) + Marks(later)
  {
    MarksAppend(before + rl, later);
    MarksAppend(before, rl);
  }

  lemma ComposedLines(before: seq<string>, rl: seq<string>, later: seq<string>)
    requires AreLines(before) && AreLines(rl) && AreLines(later)
    ensures AreLines(before + rl + later)
  {
    var all := before + rl + later;
    forall i | 0 <= i < |all| ensures NL !in all[i] {
      assert all[i] == if i < |before| then before[i] else if i < |before| + |rl| then rl[i - |before|] else later[i - |before| - |rl|];
    }
  }

  /** The lines, the marks inside and the digest of some region text. */
  ghost predicate IsRegion(text: string, rl: seq<string>, inner: seq<Mark>, hash: string) {
    Unlines(rl) == text && AreLines(rl) && Marks(rl) == [Begin(hash)] + inner + [End] && AllOther(inner)
  }

  lemma RegionIs(command: string) returns (rl: seq<string>, inner: seq<Mark>)
    requires NL !in command
    ensures IsRegion(RegionText(command), rl, inner, Digest(command))
  {
    rl := RegionLines(command);
    RegionAreLines(command);
    inner := RegionMarks(command);
  }

  /** Some free lines of a file, as text: terminated ones before the region, any lines after it. */
  ghost predicate FreeBefore(pre: string, before: seq<string>) {
    pre == Unlines(before) && AreLines(before) && MarkerFree(before)
  }

  ghost predicate FreeAfter(post: string, later: seq<string>) {
    later != [] && post == Join(later, NL) && AreLines(later) && MarkerFree(later)
  }

  lemma MarksAmong(before: seq<string>, rl: seq<string>, inner: seq<Mark>, hash: string, later: seq<string>) returns (marks: seq<Mark>)
    requires MarkerFree(before) && MarkerFree(later) && Marks(rl) == [Begin(hash)] + inner + [End] && AllOther(inner)
    ensures marks == Marks(before + rl + later) && OneRegion(marks, |before|, |before| + |rl| - 1) && marks[|before|] == Begin(hash)
  {
    ComposedMarks(before, rl, later);
    AmongOthers(Marks(before), hash, inner, Marks(later));
    marks := Marks(before) + ([Begin(hash)] + inner + [End]) + Marks(later);
  }

  lemma StartsAmong(before: seq<string>, rl: seq<string>, later: seq<string>, all: seq<string>, p: nat, t: nat, size: nat)
    requires all == before + rl + later && later != []
    requires p == |Unlines(before)| && t == |Unlines(rl)| && size == p + t + |Join(later, NL)|
    ensures Start(all, |before|) == p && Start(all, |before| + |rl|) == p + t && size + 1 == Start(all, |all|)
  {
    ComposedText(before, rl, later);
    JoinSize(all);
  }

  lemma AmongFacts(before: seq<string>, rl: seq<string>, inner: seq<Mark>, hash: string, later: seq<string>, all: seq<string>, p: nat, t: nat, size: nat, k: nat, m: nat)
    returns (marks: seq<Mark>)
    requires MarkerFree(before) && MarkerFree(later) && later != [] && all == before + rl + later
    requires Marks(rl) == [Begin(hash)] + inner + [End] && AllOther(inner)
    requires p == |Unlines(before)| && t == |Unlines(rl)| && size == p + t + |Join(later, NL)|
    requires k == |before| && m + 1 == |before| + |rl|
    ensures marks == Marks(all) && OneRegion(marks, k, m) && marks[k] == Begin(hash)
    ensures Start(all, k) == p && Start(all, m + 1) == p + t <= size && size + 1 == Start(all, |all|)
  {
    marks := MarksAmong(before, rl, inner, hash, later);
    StartsAmong(before, rl, later, all, p, t, size);
  }

  /** A region between free lines is found exactly where it stands. */
  lemma FindAmong(before: seq<string>, rl: seq<string>, inner: seq<Mark>, hash: string, later: seq<string>, all: seq<string>, p: nat, t: nat, size: nat)
    requires MarkerFree(before) && MarkerFree(later) && later != [] && all == before + rl + later
    requires Marks(rl) == [Begin(hash)] + inner + [End] && AllOther(inner)
    requires p == |Unlines(before)| && t == |Unlines(rl)| && size == p + t + |Join(later, NL)|
    ensures FindIn(all, size) == Found(p, p + t, hash)
  {
    var k := |before|;
    assert |Marks(rl)| == |inner| + 2;
    var m := k + |inner| + 1;
    var marks := AmongFacts(before, rl, inner, hash, later, all, p, t, size, k, m);
    FoundHere(all, marks, k, m, p, p + t, size, hash);
  }

  lemma FoundHere(lines: seq<string>, marks: seq<Mark>, k: nat, m: nat, start: nat, end: nat, size: nat, hash: string)
    requires Marks(lines) == marks && OneRegion(marks, k, m) && marks[k] == Begin(hash)
    requires start == Start(lines, k) && end == Start(lines, m + 1) <= size && size + 1 == Start(lines, |lines|)
    ensures FindIn(lines, size) == Found(start, end, hash)
  {
    FoundAt(lines, marks, k, m, size);
  }

  /** The lines of a composed file. */
  lemma LinesAmong(before: seq<string>, rl: seq<string>, later: seq<string>, content: string)
    requires AreLines(before) && AreLines(rl) && AreLines(later) && later != []
    requires content == Unlines(before) + Unlines(rl) + Join(later, NL)
    ensures LinesOf(content) == before + rl + later
  {
    ComposedLines(before, rl, later);
    ComposedText(before, rl, later);
    LinesOfJoin(before + rl + later);
  }

  lemma FindByLines(content: string, lines: seq<string>)
    requires LinesOf(content) == lines
    ensures FindRegion(content) == FindIn(lines, |content|)
  {
  }

  lemma FindComposed(pre: string, before: seq<string>, text: string, rl: seq<string>, inner: seq<Mark>, hash: string, post: string, later: seq<string>, content: string)
    requires FreeBefore(pre, before) && IsRegion(text, rl, inner, hash) && FreeAfter(post, later) && content == pre + text + post
    ensures FindRegion(content) == Found(|pre|, |pre| + |text|, hash)
  {
    var all := before + rl + later;
    LinesAmong(before, rl, later, content);
    FindAmong(before, rl, inner, hash, later, all, |pre|, |text|, |content|);
    FindByLines(content, all);
  }

  lemma ComposedText(before: seq<string>, rl: seq<string>, later: seq<string>)
    requires later != []
    ensures var all := before + rl + later;
      && Join(all, NL) == Unlines(before) + Unlines(rl) + Join(later, NL)
      && Start(all, |before|) == |Unlines(before)|
      && Start(all, |before| + |rl|) == |Unlines(before)| + |Unlines(rl)|
  {
    var all := before + rl + later;
    JoinAppend(before + rl, later);
    UnlinesAppend(before, rl);
    UnlinesSize(all, |before|);
    UnlinesSize(all, |before| + |rl|);
    assert all[..|before|] == before && all[..|before| + |rl|] == before + rl;
  }

  // ---------------------------------------------------------------- what is around the region

  lemma EmptyIsFree()
    ensures MarkerFree([""])
  {
    MarkAt([""], 0);
    assert IsInner("");
    InnerIsFree("");
  }

  lemma PartFree(lines: seq<string>, marks: seq<Mark>, head: seq<string>, mid: seq<string>, tail: seq<string>)
    requires lines == head + mid + tail && marks == Marks(lines) && forall i :: |head| <= i < |head| + |mid| ==> marks[i] == Other
    ensures MarkerFree(mid)
  {
    SliceMarks(lines, head, mid, tail);
    MiddleFree(marks, Marks(head), Marks(mid), Marks(tail));
  }

  lemma MiddleFree(marks: seq<Mark>, head: seq<Mark>, mid: seq<Mark>, tail: seq<Mark>)
    requires marks == head + mid + tail && forall i :: |head| <= i < |head| + |mid| ==> marks[i] == Other
    ensures AllOther(mid)
  {
    forall i | 0 <= i < |mid| ensures mid[i] == Other {
      assert mid[i] == marks[|head| + i];
    }
  }

  lemma SliceMarks(lines: seq<string>, head: seq<string>, mid: seq<string>, tail: seq<string>)
    requires lines == head + mid + tail
    ensures Marks(lines) == Marks(head) + Marks(mid) + Marks(tail)
  {
    ComposedMarks(head, mid, tail);
  }

  /** The lines of a file without markers, as the text before an appended region. */
  lemma AbsentIsFree(content: string) returns (before: seq<string>)
    requires FindRegion(content).Absent?
    ensures FreeBefore(Terminated(content), before)
    ensures |before| <= |LinesOf(content)| && before == LinesOf(content)[..|before|]
  {
    var lines := LinesOf(content);
    NoMarks(lines, Marks(lines), |content|);
    JoinOfLines(content);
    before := TerminatedLines(content, lines);
    var rest := lines[|before|..];
    assert lines == [] + before + rest;
    PartFree(lines, Marks(lines), [], before, rest);
  }

  lemma NoMarks(lines: seq<string>, marks: seq<Mark>, size: nat)
    requires marks == Marks(lines) && FindIn(lines, size).Absent?
    ensures AllOther(marks)
  {
    forall i | 0 <= i < |marks| ensures marks[i] == Other {
      NoneOf(marks, lines, |lines|, size, i);
    }
  }

  /** No region is found exactly in a file without marker lines. */
  lemma AbsentIff(content: string, lines: seq<string>)
    requires lines == LinesOf(content)
    ensures FindRegion(content).Absent? <==> MarkerFree(lines)
  {
    AbsentIn(lines, Marks(lines), |content|);
  }

  lemma AbsentIn(lines: seq<string>, marks: seq<Mark>, size: nat)
    requires marks == Marks(lines)
    ensures FindIn(lines, size).Absent? <==> AllOther(marks)
  {
    if AllOther(marks) {
      ScanFree(marks, lines, 0, |lines|, size);
    } else if FindIn(lines, size).Absent? {
      NoMarks(lines, marks, size);
    }
  }

  lemma TerminatedLines(content: string, lines: seq<string>) returns (before: seq<string>)
    requires lines != [] && AreLines(lines) && Join(lines, NL) == content
    ensures |before| <= |lines| && before == lines[..|before|] && Terminated(content) == Unlines(before) && AreLines(before)
  {
    var n := |lines| - 1;
    var at, last := Start(lines, n), lines[n];
    LastLine(content, lines, n, at, last);
    if last == "" {
      before := lines[..n];
      assert content == content[..at] + "" == Unlines(before);
      TerminatedText(before);
    } else {
      before := lines;
      EndsWithNewline(lines);
      LastOfText(content, content[..at], last);
      assert lines[..|lines|] == lines;
    }
  }

  lemma LastLine(content: string, lines: seq<string>, n: nat, at: nat, last: string)
    requires n + 1 == |lines| && Join(lines, NL) == content && at == Start(lines, n) && last == lines[n]
    ensures at <= |content| && content == content[..at] + last && content[..at] == Unlines(lines[..n])
  {
    SliceAt(lines, n);
    assert lines[n..] == [lines[n]];
    JoinOne(last);
  }

  lemma LastOfText(content: string, head: string, last: string)
    requires content == head + last && last != "" && NL !in last
    ensures Terminated(content) == content + [NL]
  {
    assert content[|content| - 1] == last[|last| - 1];
  }

  lemma {:induction false} TerminatedText(lines: seq<string>)
    ensures Unlines(lines) == "" || Unlines(lines)[|Unlines(lines)| - 1] == NL
  {
    if lines != [] {
      EndsWithNewline(lines);
    }
  }

  /** The text before and after a region that is found is free of markers. */
  lemma AroundIsFree(content: string) returns (before: seq<string>, later: seq<string>)
    requires FindRegion(content).Found?
    ensures var r := FindRegion(content);
      r.start <= r.end <= |content| && FreeBefore(content[..r.start], before) && FreeAfter(content[r.end..], later)
  {
    var lines := LinesOf(content);
    var marks := Marks(lines);
    var k, m := RegionShape(content, lines, marks);
    FoundInside(content);
    JoinOfLines(content);
    before := BeforeLine(content, lines, marks, k);
    later := AfterLine(content, lines, marks, m);
  }

  lemma BeforeLine(content: string, lines: seq<string>, marks: seq<Mark>, k: nat) returns (before: seq<string>)
    requires AreLines(lines) && Join(lines, NL) == content && marks == Marks(lines) && k < |lines| && forall i :: 0 <= i < k ==> marks[i] == Other
    ensures Start(lines, k) <= |content| && FreeBefore(content[..Start(lines, k)], before)
  {
    before := lines[..k];
    SliceAt(lines, k);
    assert lines == [] + before + lines[k..];
    PartFree(lines, marks, [], before, lines[k..]);
  }

  lemma AfterLine(content: string, lines: seq<string>, marks: seq<Mark>, m: nat) returns (later: seq<string>)
    requires AreLines(lines) && Join(lines, NL) == content && marks == Marks(lines) && m < |lines| && forall i :: m < i < |lines| ==> marks[i] == Other
    ensures FreeAfter(content[Min(Start(lines, m + 1), |content|)..], later)
  {
    if m + 1 < |lines| {
      SliceAt(lines, m + 1);
      later := LaterLines(lines, marks, m + 1);
    } else {
      JoinSize(lines);
      later := NothingAfter(content);
    }
  }

  lemma LaterLines(lines: seq<string>, marks: seq<Mark>, n: nat) returns (later: seq<string>)
    requires AreLines(lines) && marks == Marks(lines) && n < |lines| && forall i :: n <= i < |lines| ==> marks[i] == Other
    ensures FreeAfter(Join(lines[n..], NL), later)
  {
    later := lines[n..];
    assert lines == lines[..n] + later + [];
    PartFree(lines, marks, lines[..n], later, []);
  }

  lemma NothingAfter(content: string) returns (later: seq<string>)
    ensures FreeAfter(content[|content|..], later)
  {
    later := [""];
    EmptyIsFree();
    JoinOne("");
    assert content[|content|..] == "";
  }

  // ---------------------------------------------------------------- what install does

  /** The file is the region between free text. */
  ghost predicate Holds(content: string, pre: string, text: string, hash: string, post: string) {
    content == pre + text + post && FindRegion(content) == Found(|pre|, |pre| + |text|, hash)
  }

  /** After an install that wrote the text, the file holds it between what was there before. */
  lemma InstallWrites(content: string, text: string, rl: seq<string>, inner: seq<Mark>, hash: string, e: Edit) returns (pre: string, post: string)
    requires IsRegion(text, rl, inner, hash) && InstallText(content, text, hash) == Some(e) && e.changed
    ensures Holds(e.content, pre, text, hash, post)
    ensures FindRegion(content).Absent? ==> pre == Terminated(content) && post == ""
    ensures FindRegion(content).Found? ==>
      var r := FindRegion(content); r.start <= r.end <= |content| && pre == content[..r.start] && post == content[r.end..]
  {
    var r := FindRegion(content);
    var before, later;
    if r.Absent? {
      pre, post := Terminated(content), "";
      before := AbsentIsFree(content);
      later := [""];
      EmptyIsFree();
      JoinOne("");
      assert pre + text + post == pre + text;
    } else {
      before, later := AroundIsFree(content);
      pre, post := content[..r.start], content[r.end..];
    }
    FindComposed(pre, before, text, rl, inner, hash, post, later, e.content);
  }

  lemma TextTwice(content: string, text: string, rl: seq<string>, inner: seq<Mark>, hash: string, e: Edit)
    requires IsRegion(text, rl, inner, hash) && InstallText(content, text, hash) == Some(e)
    ensures InstallText(e.content, text, hash) == Some(Edit(e.content, false))
  {
    if e.changed {
      var pre, post := InstallWrites(content, text, rl, inner, hash, e);
    }
  }

  /** In a file that holds a region, another text takes its place. */
  lemma TextReplaced(content: string, pre: string, text: string, hash: string, post: string, text': string, hash': string)
    requires Holds(content, pre, text, hash, post) && hash != hash'
    ensures InstallText(content, text', hash') == Some(Edit(pre + text' + post, true))
  {
    HeldParts(content, pre, text, hash, post);
  }

  lemma HeldParts(content: string, pre: string, text: string, hash: string, post: string)
    requires Holds(content, pre, text, hash, post)
    ensures |pre| + |text| <= |content| && content[..|pre|] == pre && content[|pre| + |text|..] == post
  {
  }

  lemma TextReinstalled(content: string, text: string, rl: seq<string>, inner: seq<Mark>, hash: string, e: Edit,
    text': string, rl': seq<string>, inner': seq<Mark>, hash': string, f: Edit)
    requires IsRegion(text, rl, inner, hash) && IsRegion(text', rl', inner', hash') && (hash == hash' ==> text == text')
    requires InstallText(content, text, hash) == Some(e) && InstallText(content, text', hash') == Some(f) && e.changed && f.changed
    ensures InstallText(e.content, text', hash') == Some(Edit(f.content, hash != hash'))
  {
    if hash == hash' {
      TextTwice(content, text, rl, inner, hash, e);
    } else {
      var pre, post := InstallWrites(content, text, rl, inner, hash, e);
      TextReplaced(e.content, pre, text, hash, post, text', hash');
      if FindRegion(content).Absent? {
        assert pre + text' + post == Terminated(content) + text';
      }
    }
  }

  lemma TextRemoved(content: string, text: string, rl: seq<string>, inner: seq<Mark>, hash: string, e: Edit)
    requires IsRegion(text, rl, inner, hash) && InstallText(content, text, hash) == Some(e)
    ensures Uninstall(e.content).Some?
    ensures FindRegion(content).Absent? ==> Uninstall(e.content) == Some(Edit(Terminated(content), true))
    ensures FindRegion(content).Found? ==> Uninstall(e.content) == Uninstall(content)
  {
    if e.changed {
      var pre, post := InstallWrites(content, text, rl, inner, hash, e);
      HeldParts(e.content, pre, text, hash, post);
      assert pre + "" == pre;
    } else {
      FoundInside(content);
    }
  }

  // ---------------------------------------------------------------- the editor's laws

  /** Install is idempotent, on every file it accepts. */
  lemma InstallTwice(content: string, command: string, e: Edit)
    requires NL !in command && Install(content, command) == Some(e)
    ensures Install(e.content, command) == Some(Edit(e.content, false))
  {
    var rl, inner := RegionIs(command);
    TextTwice(content, RegionText(command), rl, inner, Digest(command), e);
  }

  /** Installing one command and then another is installing the other on the original. */
  lemma InstallAnother(content: string, command: string, other: string, e: Edit, f: Edit)
    requires NL !in command && NL !in other
    requires Install(content, command) == Some(e) && Install(content, other) == Some(f) && e.changed && f.changed
    ensures Install(e.content, other) == Some(Edit(f.content, command != other))
  {
    var rl, inner := RegionIs(command);
    var rl', inner' := RegionIs(other);
    DigestInjective(command, other);
    TextReinstalled(content, RegionText(command), rl, inner, Digest(command), e, RegionText(other), rl', inner', Digest(other), f);
  }

  /** Uninstall takes back exactly what install put in: up to one final newline, or up to the region that was there. */
  lemma UninstallUndoes(content: string, command: string, e: Edit)
    requires NL !in command && Install(content, command) == Some(e)
    ensures FindRegion(content).Absent? ==> Uninstall(e.content) == Some(Edit(Terminated(content), true))
    ensures FindRegion(content).Found? ==> Uninstall(e.content) == Uninstall(content)
  {
    var rl, inner := RegionIs(command);
    TextRemoved(content, RegionText(command), rl, inner, Digest(command), e);
  }

  /** All bytes outside the region are kept. */
  lemma OutsideIsKept(content: string, command: string, e: Edit) returns (pre: string, post: string)
    requires NL !in command && Install(content, command) == Some(e) && e.changed
    ensures Holds(e.content, pre, RegionText(command), Digest(command), post)
    ensures FindRegion(content).Absent? ==> pre == Terminated(content) && post == ""
    ensures FindRegion(content).Found? ==>
      var r := FindRegion(content); r.start <= r.end <= |content| && pre == content[..r.start] && post == content[r.end..]
  {
    var rl, inner := RegionIs(command);
    pre, post := InstallWrites(content, RegionText(command), rl, inner, Digest(command), e);
  }

  lemma HeldToEnd(content: string, pre: string, text: string, hash: string, post: string)
    requires Holds(content, pre, text, hash, post) && post == ""
    ensures FindRegion(content) == Found(|pre|, |content|, hash)
  {
  }

  /** An appended region reaches to the end of the file. */
  lemma FoundAfterInstall(content: string, command: string, e: Edit)
    requires FindRegion(content).Absent? && NL !in command && Install(content, command) == Some(e)
    ensures FindRegion(e.content) == Found(|Terminated(content)|, |e.content|, Digest(command))
  {
    var pre, post := OutsideIsKept(content, command, e);
    HeldToEnd(e.content, pre, RegionText(command), Digest(command), post);
  }
}
