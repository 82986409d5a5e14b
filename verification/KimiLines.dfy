/**
 * How the lines of a Kimi configuration file are taken, as a person may have written them:
 * markers and tables with blanks around them, assignments with any spacing, and an inline
 * `hooks` value in the way.
 */
module KimiLines {
  import opened Common
  import opened Text
  import opened Lines
  import opened Toml
  import opened Kimi
  import opened KimiRegions
  import opened KimiAudit
  import opened KimiHooks
  import HookAudit

  // ---------------------------------------------------------------- blanks around a text

  /** Spaces, tabs and carriage returns. */
  predicate Blanks(s: string) {
    forall i :: 0 <= i < |s| ==> s[i] == ' ' || s[i] == '\t' || s[i] == '\r'
  }

  lemma {:induction false} TrimLeftBlanks(a: string, t: string)
    requires Blanks(a) && t != "" && IsSolid(t[0])
    ensures TrimLeft(a + t) == t
    decreases |a|
  {
    var s := a + t;
    if a == "" {
      assert s == t;
    } else {
      assert s[0] == a[0] && IsSpace(s[0]);
      assert s[1..] == a[1..] + t;
      TrimLeftBlanks(a[1..], t);
    }
  }

  lemma {:induction false} TrimRightBlanks(t: string, b: string)
    requires Blanks(b) && t != "" && IsSolid(t[|t| - 1])
    ensures TrimRight(t + b) == t
    decreases |b|
  {
    var s := t + b;
    if b == "" {
      assert s == t;
    } else {
      assert s[|s| - 1] == b[|b| - 1] && IsSpace(s[|s| - 1]);
      assert s[..|s| - 1] == t + b[..|b| - 1];
      TrimRightBlanks(t, b[..|b| - 1]);
    }
  }

  lemma TrimAround(a: string, t: string, b: string)
    requires Blanks(a) && Blanks(b) && Tight(t)
    ensures TrimSpace(a + t + b) == t
  {
    assert a + t + b == a + (t + b);
    assert (t + b)[0] == t[0];
    TrimLeftBlanks(a, t + b);
    TrimRightBlanks(t, b);
  }

  // ---------------------------------------------------------------- markers

  /** A marker counts wherever it stands on its line, so an indented region or one with carriage returns is still found. */
  lemma MarkersAround(a: string, hash: string, b: string)
    requires Blanks(a) && Blanks(b) && forall i :: 0 <= i < |hash| ==> IsSolid(hash[i])
    ensures MarkOf(a + ("# agentbell:kimi-code:begin sha256:" + hash) + b) == Begin(hash)
    ensures MarkOf(a + "# agentbell:kimi-code:end" + b) == End
  {
    var begin := "# agentbell:kimi-code:begin sha256:" + hash;
    assert begin[0] == '#' && begin[|begin| - 1] == if hash == "" then ':' else hash[|hash| - 1];
    TrimAround(a, begin, b);
    assert begin[..|BEGIN_PREFIX|] == BEGIN_PREFIX && begin[|BEGIN_PREFIX|..] == hash;
    TrimAround(a, "# agentbell:kimi-code:end", b);
    EndIsNoBegin();
  }

  lemma EndIsNoBegin()
    ensures !HasPrefix("# agentbell:kimi-code:end", BEGIN_PREFIX)
  {
  }

  /** No other line is a marker. */
  lemma OnlyMarkers(line: string)
    ensures MarkOf(line).End? <==> TrimSpace(line) == "# agentbell:kimi-code:end"
    ensures MarkOf(line).Begin? <==> exists hash :: TrimSpace(line) == "# agentbell:kimi-code:begin sha256:" + hash
  {
    var t := TrimSpace(line);
    EndIsNoBegin();
    if HasPrefix(t, BEGIN_PREFIX) {
      assert t == BEGIN_PREFIX + t[|BEGIN_PREFIX|..];
    }
    if hash :| t == "# agentbell:kimi-code:begin sha256:" + hash {
      assert t[..|BEGIN_PREFIX|] == BEGIN_PREFIX;
    }
  }

  // ---------------------------------------------------------------- an inline value in the way

  predicate IsHeaderLine(line: string) {
    "[" <= TrimSpace(line)
  }

  /** The line sets the key `hooks`: the word, white space if any, and an equals sign. */
  ghost predicate SetsHooks(line: string) {
    exists gap, value :: Gap(gap) && TrimSpace(line) == "hooks" + gap + "=" + value
  }

  predicate Gap(s: string) {
    forall i :: 0 <= i < |s| ==> s[i] in [' ', '\t', '\n', '\r', '\U{C}']
  }

  lemma {:induction false} SkipIff(s: string, i: nat)
    requires i <= |s|
    ensures var k := SkipPatternSpace(s, i); Gap(s[i..k]) && (k < |s| ==> !IsPatternSpace(s[k]))
    decreases |s| - i
  {
    if i < |s| && IsPatternSpace(s[i]) {
      SkipIff(s, i + 1);
      var k := SkipPatternSpace(s, i + 1);
      assert s[i..k] == [s[i]] + s[i + 1..k];
    }
  }

  lemma {:induction false} SkipOver(s: string, i: nat, gap: string)
    requires i + |gap| < |s| && Gap(gap) && s[i..i + |gap|] == gap && s[i + |gap|] == '='
    ensures SkipPatternSpace(s, i) == i + |gap|
    decreases |gap|
  {
    if gap != "" {
      assert s[i] == s[i..i + |gap|][0] == gap[0];
      assert s[i + 1..i + |gap|] == s[i..i + |gap|][1..] == gap[1..];
      SkipOver(s, i + 1, gap[1..]);
    }
  }

  lemma AssignsIff(t: string)
    ensures AssignsHooks(t) <==> exists gap, value :: Gap(gap) && t == "hooks" + gap + "=" + value
  {
    if AssignsHooks(t) {
      var k := SkipPatternSpace(t, 5);
      SkipIff(t, 5);
      assert t == "hooks" + t[5..k] + "=" + t[k + 1..];
    }
    if gap, value :| Gap(gap) && t == "hooks" + gap + "=" + value {
      assert t[..5] == "hooks" && t[5..5 + |gap|] == gap && t[5 + |gap|] == '=';
      SkipOver(t, 5, gap);
    }
  }

  lemma ClassIff(line: string)
    ensures ClassOf(line).Header? <==> IsHeaderLine(line)
    ensures ClassOf(line).InlineHooks? <==> SetsHooks(line)
  {
    var t := TrimSpace(line);
    AssignsIff(t);
    if SetsHooks(line) {
      var gap, value :| Gap(gap) && t == "hooks" + gap + "=" + value;
      assert t[0] == 'h';
    }
  }

  /** Some line before the first table header sets `hooks`. */
  ghost predicate InTheWay(lines: seq<string>) {
    exists i :: 0 <= i < |lines| && SetsHooks(lines[i]) && NoHeader(lines, i)
  }

  ghost predicate NoHeader(lines: seq<string>, n: nat)
    requires n <= |lines|
  {
    forall j :: 0 <= j < n ==> !IsHeaderLine(lines[j])
  }

  ghost predicate Classified(lines: seq<string>, classes: seq<LineClass>) {
    && |classes| == |lines|
    && forall i :: 0 <= i < |lines| ==> (classes[i].Header? <==> IsHeaderLine(lines[i])) && (classes[i].InlineHooks? <==> SetsHooks(lines[i]))
  }

  lemma RootIff(lines: seq<string>, classes: seq<LineClass>, n: nat)
    requires Classified(lines, classes) && n <= |lines|
    ensures InRoot(classes, n) <==> NoHeader(lines, n)
  {
  }

  lemma ConflictInIff(lines: seq<string>, classes: seq<LineClass>)
    requires Classified(lines, classes)
    ensures ConflictIn(classes, |classes|) <==> InTheWay(lines)
  {
    if i :| 0 <= i < |lines| && SetsHooks(lines[i]) && NoHeader(lines, i) {
      RootIff(lines, classes, i);
    }
    if i :| 0 <= i < |classes| && classes[i].InlineHooks? && InRoot(classes, i) {
      RootIff(lines, classes, i);
    }
  }

  /** An install is refused for an inline value exactly when some line before the first table header sets `hooks`. */
  lemma ConflictIff(content: string)
    ensures HasConflict(content) <==> InTheWay(Split(content, '\n'))
  {
    var lines := LinesOf(content);
    var classes := Classes(lines);
    forall i | 0 <= i < |lines| ensures (classes[i].Header? <==> IsHeaderLine(lines[i])) && (classes[i].InlineHooks? <==> SetsHooks(lines[i])) {
      ClassAt(lines, i);
      ClassIff(lines[i]);
    }
    ConflictInIff(lines, classes);
  }

  // ---------------------------------------------------------------- tables

  /** A table header, a comment or another header is known with any blanks around it. */
  lemma HeadersAround(a: string, rest: string, b: string)
    requires Blanks(a) && Blanks(b)
    ensures ItemOf(a + "[[hooks]]" + b) == OpenTable
    ensures Tight(['#'] + rest) ==> ItemOf(a + (['#'] + rest) + b) == Nothing
    ensures Tight(['['] + rest) && ['['] + rest != "[[hooks]]" ==> ItemOf(a + (['['] + rest) + b) == OtherHeader
  {
    TrimAround(a, "[[hooks]]", b);
    if Tight(['#'] + rest) {
      TrimAround(a, ['#'] + rest, b);
      assert "[[hooks]]"[0] == '[';
    }
    if Tight(['['] + rest) {
      TrimAround(a, ['['] + rest, b);
    }
  }

  lemma TrimmedItem(line: string, left: string, right: string, name: string, value: string)
    requires TrimSpace(line) == left + ['='] + right && '=' !in left && left != "" && left[0] != '#' && left[0] != '['
    requires TrimSpace(left) == name && TrimSpace(right) == value
    ensures ItemOf(line) == Assignment(name, value)
  {
    var t := left + ['='] + right;
    CutAtEquals(left, right, t);
    assert t[0] == left[0] && "[[hooks]]"[0] == '[';
  }

  lemma TightAround(left: string, h: string, q: string, whole: string)
    requires left != "" && IsSolid(left[0]) && Tight(q) && whole == left + ['='] + (h + q)
    ensures Tight(whole)
  {
    assert whole[0] == left[0] && whole[|whole| - 1] == q[|q| - 1];
  }

  lemma SidesTrimmed(key: string, g: string, h: string, q: string)
    requires Blanks(g) && Blanks(h) && IsKey(key) && Tight(q)
    ensures TrimSpace(key + g) == key && TrimSpace(h + q) == q
    ensures '=' !in key + g && (key + g)[0] == key[0]
  {
    assert key + g == "" + key + g && h + q == h + q + "";
    TrimAround("", key, g);
    TrimAround(h, q, "");
  }

  /** A table's event and command are taken from an assignment with any spacing, and unquoted. */
  lemma AssignmentAround(a: string, key: string, g: string, h: string, q: string, b: string)
    requires Blanks(a) && Blanks(g) && Blanks(h) && Blanks(b) && IsKey(key) && Tight(q)
    ensures ItemOf(a + (key + g + ['='] + (h + q)) + b) ==
      if key == "event" then SetEvent(Unquote(q)) else if key == "command" then SetCommand(Unquote(q)) else Nothing
  {
    var left, right := key + g, h + q;
    SidesTrimmed(key, g, h, q);
    TightAround(left, h, q, left + ['='] + right);
    TrimAround(a, left + ['='] + right, b);
    TrimmedItem(a + (left + ['='] + right) + b, left, right, key, q);
  }

  /** The tables that prove ownership are exactly those of known events that start between the markers. */
  lemma {:induction false} ManagedIff(start: nat, end: nat, hash: string, blocks: seq<Block>, n: nat, b: Block)
    requires n <= |blocks|
    ensures b in ManagedOf(Found(start, end, hash), blocks, n) <==>
      b in blocks[..n] && start <= b.start < end && b.event.Some? && b.event.value in ["Stop", "StopFailure", "PermissionRequest"]
  {
    if n > 0 {
      ManagedIff(start, end, hash, blocks, n - 1, b);
      assert blocks[..n] == blocks[..n - 1] + [blocks[n - 1]];
    }
  }

  // ---------------------------------------------------------------- what a managed region proves

  lemma {:induction false} GoodBlocksSay(blocks: seq<Block>, n: nat)
    requires n <= |blocks| && GoodBlocks(EVENTS, blocks, n)
    ensures |EventsOf(blocks, n)| == n && EventsOf(blocks, n) <= {"Stop", "StopFailure", "PermissionRequest"}
    ensures forall e :: e in EventsOf(blocks, n) <==> exists i :: 0 <= i < n && blocks[i].event == Some(e)
    ensures forall i :: 0 <= i < n ==> blocks[i].command.Some?
  {
    if n > 0 {
      GoodBlocksSay(blocks, n - 1);
      assert blocks[n - 1].event.value in EVENTS;
    }
  }

  /** The tables run one command; an empty one does not count until another has been seen. */
  ghost predicate RunOne(blocks: seq<Block>, n: nat, command: string)
    requires n <= |blocks|
  {
    && (forall i :: 0 <= i < n ==> CommandOf(blocks[i]) == "" || CommandOf(blocks[i]) == command)
    && (forall i, j :: 0 <= i < j < n && CommandOf(blocks[i]) != "" ==> CommandOf(blocks[j]) == command)
    && (n > 0 ==> CommandOf(blocks[n - 1]) == command)
  }

  lemma {:induction false} OneCommandSays(blocks: seq<Block>, n: nat)
    requires n <= |blocks| && OneCommand(blocks, n).Some?
    ensures RunOne(blocks, n, OneCommand(blocks, n).value)
  {
    if n > 0 {
      OneCommandSays(blocks, n - 1);
    }
  }

  ghost predicate Proves(hash: string, blocks: seq<Block>, v: HookAudit.Invocation, command: string) {
    hash == Digest(command) && RunOne(blocks, |blocks|, command) && ShellInvocation(command) == Some(v)
  }

  lemma EventsCovered(blocks: seq<Block>, e: string)
    requires |blocks| == 3 && GoodBlocks(EVENTS, blocks, 3)
    ensures e == "Stop" || e == "StopFailure" || e == "PermissionRequest" <==> exists i :: 0 <= i < 3 && blocks[i].event == Some(e)
  {
    GoodBlocksSay(blocks, 3);
    SameSize(EventsOf(blocks, 3), {"Stop", "StopFailure", "PermissionRequest"});
  }

  /**
   * A region that is accepted has one table for each of the three events and no other; they run one
   * command, whose digest the region records and whose words are the invocation it proves.
   */
  lemma ManagedProves(hash: string, blocks: seq<Block>, e: string)
    requires ManagedInvocation(hash, blocks).Some?
    ensures |blocks| == 3
    ensures e == "Stop" || e == "StopFailure" || e == "PermissionRequest" <==> exists i :: 0 <= i < |blocks| && blocks[i].event == Some(e)
    ensures exists command :: Proves(hash, blocks, ManagedInvocation(hash, blocks).value, command)
  {
    EventsCovered(blocks, e);
    OneCommandSays(blocks, 3);
    assert Proves(hash, blocks, ManagedInvocation(hash, blocks).value, OneCommand(blocks, 3).value);
  }

  lemma SameSize(a: set<string>, b: set<string>)
    requires a <= b && |a| == |b|
    ensures a == b
  {
    assert |b - a| == |b| - |a|;
  }
}
