/**
 * The audit's own reader of config.toml: it splits the file into lines, collects the
 * [[hooks]] tables, unquotes their strings and tokenizes their commands.
 */
module KimiAudit {
  import opened Common
  import opened Text
  import opened Lines
  import opened Toml
  import ShellWords
  import Utf8
  import HookAudit
  import opened Kimi
  import opened KimiRegions

  // ---------------------------------------------------------------- lines as items

  datatype Item = OpenTable | OtherHeader | SetEvent(value: Option<string>) | SetCommand(value: Option<string>) | Nothing

  function Assignment(name: string, value: string): Item {
    if name == "event" then SetEvent(Unquote(value))
    else if name == "command" then SetCommand(Unquote(value))
    else Nothing
  }

  function ItemOf(line: string): Item {
    var t := TrimSpace(line);
    if t == "[[hooks]]" then OpenTable
    else if t == "" || t[0] == '#' then Nothing
    else if t[0] == '[' then OtherHeader
    else
      var k := Find(t, '=');
      if k == |t| then Nothing else Assignment(TrimSpace(t[..k]), TrimSpace(t[k + 1..]))
  }

  function Items(lines: seq<string>): (items: seq<Item>)
    ensures |items| == |lines|
  {
    if lines == [] then [] else Items(lines[..|lines| - 1]) + [ItemOf(lines[|lines| - 1])]
  }

  lemma {:induction false} ItemAt(lines: seq<string>, i: nat)
    requires i < |lines|
    ensures Items(lines)[i] == ItemOf(lines[i])
  {
    if i < |lines| - 1 {
      ItemAt(lines[..|lines| - 1], i);
    }
  }

  lemma ItemsAppend(a: seq<string>, b: seq<string>)
    ensures Items(a + b) == Items(a) + Items(b)
  {
    var whole, parts := Items(a + b), Items(a) + Items(b);
    forall i | 0 <= i < |whole| ensures whole[i] == parts[i] {
      ItemOfAppend(a, b, i);
    }
  }

  lemma ItemOfAppend(a: seq<string>, b: seq<string>, i: nat)
    requires i < |a| + |b|
    ensures Items(a + b)[i] == if i < |a| then Items(a)[i] else Items(b)[i - |a|]
  {
    ItemAt(a + b, i);
    if i < |a| {
      ItemAt(a, i);
    } else {
      ItemAt(b, i - |a|);
    }
  }

  // ---------------------------------------------------------------- collecting tables

  datatype Block = Block(index: nat, start: nat, event: Option<string>, command: Option<string>)

  datatype Parse = Failed | Parse(blocks: seq<Block>, current: Option<Block>)

  function Finish(p: Parse): seq<Block>
    requires p.Parse?
  {
    if p.current.None? then p.blocks else p.blocks + [p.current.value]
  }

  function ParseItem(p: Parse, item: Item, offset: nat): Parse {
    if p.Failed? then Failed
    else
      match item
      case OpenTable => Parse(Finish(p), Some(Block(|Finish(p)|, offset, None, None)))
      case OtherHeader => Parse(Finish(p), None)
      case SetEvent(value) =>
        if p.current.None? then p else if value.None? then Failed else p.(current := Some(p.current.value.(event := value)))
      case SetCommand(value) =>
        if p.current.None? then p else if value.None? then Failed else p.(current := Some(p.current.value.(command := value)))
      case Nothing => p
  }

  /** The tables of the first n lines, the last one possibly still open. */
  function ParseItems(items: seq<Item>, lines: seq<string>, n: nat): Parse
    requires n <= |lines| == |items|
  {
    if n == 0 then Parse([], None) else ParseItem(ParseItems(items, lines, n - 1), items[n - 1], Start(lines, n - 1))
  }

  function Tables(p: Parse): Option<seq<Block>> {
    if p.Failed? then None else Some(Finish(p))
  }

  function ParseBlocks(content: string): Option<seq<Block>> {
    var lines := LinesOf(content);
    Tables(ParseItems(Items(lines), lines, |lines|))
  }

  /** parseKimiAuditBlocks. */
  method ParseKimiAuditBlocks(content: string) returns (r: Option<seq<Block>>)
    ensures r == ParseBlocks(content)
  {
    var lines := LinesOf(content);
    r := ParseLines(lines);
  }

  method ParseLines(lines: seq<string>) returns (r: Option<seq<Block>>)
    ensures r == Tables(ParseItems(Items(lines), lines, |lines|))
  {
    ghost var items := Items(lines);
    var p := Parse([], None);
    var offset := 0;
    var i := 0;
    while i < |lines|
      invariant 0 <= i <= |lines| && offset == Start(lines, i) && p == ParseItems(items, lines, i) && p.Parse?
    {
      ItemAt(lines, i);
      p := ParseItem(p, ItemOf(lines[i]), offset);
      offset := offset + |lines[i]| + 1;
      i := i + 1;
      if p.Failed? {
        StaysFailed(items, lines, i, |lines|);
        return None;
      }
    }
    r := Some(Finish(p));
  }

  lemma {:induction false} StaysFailed(items: seq<Item>, lines: seq<string>, m: nat, n: nat)
    requires m <= n <= |lines| == |items| && ParseItems(items, lines, m).Failed?
    ensures ParseItems(items, lines, n).Failed?
    decreases n
  {
    if m < n {
      StaysFailed(items, lines, m, n - 1);
    }
  }

  // ---------------------------------------------------------------- the managed region

  /** parseAuditShellInvocation. */
  function ShellInvocation(command: string): Option<HookAudit.Invocation> {
    var words := ShellWords.Tokenize(command, 0);
    if words.None? || words.value == [] then None
    else Some(HookAudit.Invocation(HookAudit.FORM_SHELL, words.value[0], words.value[1..]))
  }

  /** The table names a known event and a command. */
  ghost predicate GoodBlock(known: seq<string>, b: Block) {
    b.event.Some? && b.command.Some? && b.event.value in known
  }

  function EventsOf(blocks: seq<Block>, n: nat): set<string>
    requires n <= |blocks|
  {
    if n == 0 then {}
    else if blocks[n - 1].event.None? then EventsOf(blocks, n - 1)
    else EventsOf(blocks, n - 1) + {blocks[n - 1].event.value}
  }

  /** Every table is good, and no event is named twice. */
  ghost predicate GoodBlocks(known: seq<string>, blocks: seq<Block>, n: nat)
    requires n <= |blocks|
  {
    n == 0 || (GoodBlocks(known, blocks, n - 1) && GoodBlock(known, blocks[n - 1]) && blocks[n - 1].event.value !in EventsOf(blocks, n - 1))
  }

  function CommandOf(b: Block): string {
    if b.command.Some? then b.command.value else ""
  }

  /** The one command of the first n tables; an empty one does not count until another has been seen. */
  function OneCommand(blocks: seq<Block>, n: nat): Option<string>
    requires n <= |blocks|
  {
    if n == 0 then Some("")
    else
      var before, c := OneCommand(blocks, n - 1), CommandOf(blocks[n - 1]);
      if before.None? then None
      else if before.value == "" then Some(c)
      else if before.value == c then before
      else None
  }

  /** The tables cover the three events once each and run one command with the recorded digest. */
  ghost function ManagedInvocation(hash: string, blocks: seq<Block>): Option<HookAudit.Invocation> {
    if |blocks| != |EVENTS| || !GoodBlocks(EVENTS, blocks, |blocks|) then None
    else
      var command := OneCommand(blocks, |blocks|);
      if command.None? || hash != Digest(command.value) then None else ShellInvocation(command.value)
  }

  /** validateManagedKimiRegion. */
  method ValidateManagedRegion(hash: string, blocks: seq<Block>) returns (r: Option<HookAudit.Invocation>)
    ensures r == ManagedInvocation(hash, blocks)
  {
    if |blocks| != |EVENTS| {
      return None;
    }
    var ok, command := CheckBlocks(EVENTS, blocks);
    if !ok || hash != Digest(command) {
      return None;
    }
    r := ShellInvocation(command);
  }

  method CheckBlocks(known: seq<string>, blocks: seq<Block>) returns (ok: bool, command: string)
    ensures ok <==> GoodBlocks(known, blocks, |blocks|) && OneCommand(blocks, |blocks|).Some?
    ensures ok ==> command == OneCommand(blocks, |blocks|).value
  {
    var events: set<string> := {};
    command := "";
    var i := 0;
    while i < |blocks|
      invariant 0 <= i <= |blocks| && GoodBlocks(known, blocks, i) && OneCommand(blocks, i) == Some(command)
      invariant events == EventsOf(blocks, i)
    {
      var b := blocks[i];
      if b.event.None? || b.command.None? || b.event.value in events || b.event.value !in known {
        StaysBad(known, blocks, i + 1, |blocks|);
        return false, command;
      }
      events := events + {b.event.value};
      var next := NextCommand(blocks, i, command);
      i := i + 1;
      if next.None? {
        StaysApart(blocks, i, |blocks|);
        return false, command;
      }
      command := next.value;
    }
    return true, command;
  }

  lemma {:induction false} StaysBad(known: seq<string>, blocks: seq<Block>, m: nat, n: nat)
    requires m <= n <= |blocks| && !GoodBlocks(known, blocks, m)
    ensures !GoodBlocks(known, blocks, n)
    decreases n
  {
    if m < n {
      StaysBad(known, blocks, m, n - 1);
    }
  }

  method NextCommand(blocks: seq<Block>, i: nat, command: string) returns (next: Option<string>)
    requires i < |blocks| && blocks[i].command.Some? && OneCommand(blocks, i) == Some(command)
    ensures next == OneCommand(blocks, i + 1)
  {
    if command == "" {
      return Some(blocks[i].command.value);
    }
    if command != blocks[i].command.value {
      return None;
    }
    return Some(command);
  }

  lemma {:induction false} StaysApart(blocks: seq<Block>, m: nat, n: nat)
    requires m <= n <= |blocks| && OneCommand(blocks, m).None?
    ensures OneCommand(blocks, n).None?
    decreases n
  {
    if m < n {
      StaysApart(blocks, m, n - 1);
    }
  }

  // ---------------------------------------------------------------- reading one table back

  function TableItems(event: string, command: string): seq<Item> {
    [OpenTable, SetEvent(Some(event)), SetCommand(Some(command)), Nothing, Nothing]
  }

  /** A value as it stands in a line: no white space at either end. */
  predicate Tight(q: string) {
    q != "" && IsSolid(q[0]) && IsSolid(q[|q| - 1])
  }

  predicate IsKey(key: string) {
    Tight(key) && '=' !in key && key[0] != '#' && key[0] != '['
  }

  lemma KeyEnds(key: string, q: string, line: string)
    requires IsKey(key) && Tight(q) && line == key + " = " + q
    ensures TrimSpace(line) == line && line[0] == key[0]
  {
    assert line[0] == key[0] && line[|line| - 1] == q[|q| - 1];
    TrimNothing(line);
  }

  lemma KeySplit(key: string, q: string, line: string)
    requires IsKey(key) && Tight(q) && line == key + " = " + q
    ensures Find(line, '=') == |key| + 1 && |key| + 1 < |line|
    ensures line[..|key| + 1] == key + " " && line[|key| + 2..] == " " + q
  {
    assert line == (key + " ") + ['='] + (" " + q);
    CutAtEquals(key + " ", " " + q, line);
  }

  lemma CutAtEquals(a: string, b: string, line: string)
    requires '=' !in a && line == a + ['='] + b
    ensures Find(line, '=') == |a| && |a| < |line| && line[..|a|] == a && line[|a| + 1..] == b
  {
    FindAt(a, b, '=');
  }

  /** `key = value` is one assignment. */
  lemma KeyItem(key: string, q: string, line: string)
    requires IsKey(key) && Tight(q) && line == key + " = " + q
    ensures ItemOf(line) == Assignment(key, q)
  {
    KeyEnds(key, q, line);
    KeySplit(key, q, line);
    TrimAfter(key);
    TrimBefore(q);
    assert "[[hooks]]"[0] == '[';
  }

  lemma BasicIsTight(v: string)
    ensures Tight(BasicString(v))
  {
    var q := BasicString(v);
    assert q[0] == '"' && q[|q| - 1] == '"';
  }

  lemma TrimAfter(key: string)
    requires key != "" && IsSolid(key[0]) && IsSolid(key[|key| - 1])
    ensures TrimSpace(key + " ") == key
  {
    var s := key + " ";
    assert s[0] == key[0] && s[|s| - 1] == ' ' && s[..|s| - 1] == key;
    assert TrimLeft(s) == s;
    assert TrimRight(s) == TrimRight(key) == key;
  }

  lemma TrimBefore(q: string)
    requires q != "" && IsSolid(q[0]) && IsSolid(q[|q| - 1])
    ensures TrimSpace(" " + q) == q
  {
    var s := " " + q;
    assert s[0] == ' ' && s[1..] == q;
    assert TrimLeft(s) == TrimLeft(q) == q;
  }

  lemma EventItem(v: string)
    requires '\n' !in v && Utf8.Valid(v)
    ensures ItemOf("event = " + BasicString(v)) == SetEvent(Some(v))
  {
    var line := "event" + " = " + BasicString(v);
    assert line == "event = " + BasicString(v);
    BasicIsTight(v);
    KeyItem("event", BasicString(v), line);
    UnquoteBasic(v);
  }

  lemma CommandItem(v: string)
    requires '\n' !in v
    ensures ItemOf("command = " + BasicString(v)) == SetCommand(Some(Utf8.Repaired(v)))
  {
    var line := "command" + " = " + BasicString(v);
    assert line == "command = " + BasicString(v);
    BasicIsTight(v);
    KeyItem("command", BasicString(v), line);
    UnquoteQuoted(v);
  }

  lemma TableLine()
    ensures ItemOf("[[hooks]]") == OpenTable && ItemOf("") == Nothing
  {
    TrimNothing("[[hooks]]");
    TrimNothing("");
  }

  lemma TimeoutLine()
    ensures ItemOf("timeout = 5") == Nothing
  {
    assert "timeout" + " = " + "5" == "timeout = 5";
    KeyItem("timeout", "5", "timeout = 5");
  }

  lemma FiveItems(b: seq<string>)
    requires |b| == 5
    ensures Items(b) == [ItemOf(b[0]), ItemOf(b[1]), ItemOf(b[2]), ItemOf(b[3]), ItemOf(b[4])]
  {
    ItemAt(b, 0);
    ItemAt(b, 1);
    ItemAt(b, 2);
    ItemAt(b, 3);
    ItemAt(b, 4);
  }

  lemma TableReadsBack(event: string, command: string)
    requires '\n' !in event && Utf8.Valid(event) && '\n' !in command
    ensures Items(BlockLines(event, command)) == TableItems(event, Utf8.Repaired(command))
  {
    FiveItems(BlockLines(event, command));
    TableLine();
    TimeoutLine();
    EventItem(event);
    CommandItem(command);
  }

  // ---------------------------------------------------------------- reading the region back

  ghost predicate NoTable(items: seq<Item>) {
    forall i :: 0 <= i < |items| ==> items[i] != OpenTable
  }

  lemma {:induction false} NothingYet(items: seq<Item>, lines: seq<string>, n: nat)
    requires n <= |lines| == |items| && forall i :: 0 <= i < n ==> items[i] != OpenTable
    ensures ParseItems(items, lines, n) == Parse([], None)
    decreases n
  {
    if n > 0 {
      NothingYet(items, lines, n - 1);
    }
  }

  /** The five items of a table stand at n. */
  ghost predicate TableAt(items: seq<Item>, n: nat, event: string, command: string) {
    && n + 5 <= |items| && items[n] == OpenTable && items[n + 1] == SetEvent(Some(event))
    && items[n + 2] == SetCommand(Some(command)) && items[n + 3] == Nothing && items[n + 4] == Nothing
  }

  /** A table closes the one before it and is open with both its values. */
  lemma TableStep(items: seq<Item>, lines: seq<string>, n: nat, event: string, command: string, done: seq<Block>)
    requires |lines| == |items| && TableAt(items, n, event, command)
    requires ParseItems(items, lines, n).Parse? && Finish(ParseItems(items, lines, n)) == done
    ensures ParseItems(items, lines, n + 5) == Parse(done, Some(Block(|done|, Start(lines, n), Some(event), Some(command))))
  {
    var b := Block(|done|, Start(lines, n), None, None);
    assert ParseItems(items, lines, n + 1) == Parse(done, Some(b));
    assert ParseItems(items, lines, n + 2) == Parse(done, Some(b.(event := Some(event))));
    assert ParseItems(items, lines, n + 3) == Parse(done, Some(b.(event := Some(event), command := Some(command))));
    assert ParseItems(items, lines, n + 4) == ParseItems(items, lines, n + 3);
  }

  lemma NextTable(items: seq<Item>, lines: seq<string>, n: nat, event: string, command: string, done: seq<Block>, block: Block)
    requires |lines| == |items| && TableAt(items, n, event, command)
    requires ParseItems(items, lines, n).Parse? && Finish(ParseItems(items, lines, n)) == done
    requires block == Block(|done|, Start(lines, n), Some(event), Some(command))
    ensures ParseItems(items, lines, n + 5).Parse? && Finish(ParseItems(items, lines, n + 5)) == done + [block]
  {
    TableStep(items, lines, n, event, command, done);
  }

  /** The tables of the first m events, from line n on. */
  function BlocksUpTo(lines: seq<string>, n: nat, events: seq<string>, command: string, m: nat): (blocks: seq<Block>)
    requires m <= |events| && n + 5 * |events| <= |lines|
    ensures |blocks| == m
  {
    if m == 0 then []
    else
      var at := n + 5 * (m - 1);
      BlocksUpTo(lines, n, events, command, m - 1) + [Block(m - 1, Start(lines, at), Some(events[m - 1]), Some(command))]
  }

  ghost predicate TablesAt(items: seq<Item>, n: nat, events: seq<string>, command: string) {
    n + 5 * |events| <= |items| && forall i :: 0 <= i < |events| ==> TableAt(items, n + 5 * i, events[i], command)
  }

  lemma {:induction false} ParseTables(items: seq<Item>, lines: seq<string>, n: nat, events: seq<string>, command: string, m: nat)
    requires |lines| == |items| && TablesAt(items, n, events, command) && m <= |events|
    requires ParseItems(items, lines, n) == Parse([], None)
    ensures var at := n + 5 * m;
      ParseItems(items, lines, at).Parse? && Finish(ParseItems(items, lines, at)) == BlocksUpTo(lines, n, events, command, m)
    decreases m
  {
    if m > 0 {
      var at := n + 5 * (m - 1);
      ParseTables(items, lines, n, events, command, m - 1);
      NextTable(items, lines, at, events[m - 1], command, BlocksUpTo(lines, n, events, command, m - 1),
        Block(m - 1, Start(lines, at), Some(events[m - 1]), Some(command)));
      assert at + 5 == n + 5 * m;
    }
  }

  lemma {:induction false} Quiet(items: seq<Item>, lines: seq<string>, m: nat, n: nat)
    requires m <= n <= |lines| == |items| && forall i :: m <= i < n ==> items[i] == Nothing
    ensures ParseItems(items, lines, n) == ParseItems(items, lines, m)
    decreases n
  {
    if m < n {
      Quiet(items, lines, m, n - 1);
    }
  }

  /** No table before, one table per event in the region, none after. */
  ghost predicate RegionAt(items: seq<Item>, k: nat, events: seq<string>, command: string) {
    && |items| == k + 1 + 5 * |events| + 2
    && (forall i :: 0 <= i <= k ==> items[i] != OpenTable)
    && TablesAt(items, k + 1, events, command)
    && items[|items| - 2] == Nothing && items[|items| - 1] == Nothing
  }

  lemma RegionParses(items: seq<Item>, lines: seq<string>, k: nat, events: seq<string>, command: string)
    requires |lines| == |items| && RegionAt(items, k, events, command)
    ensures Tables(ParseItems(items, lines, |lines|)) == Some(BlocksUpTo(lines, k + 1, events, command, |events|))
  {
    var end := k + 1 + 5 * |events|;
    NothingYet(items, lines, k + 1);
    ParseTables(items, lines, k + 1, events, command, |events|);
    Quiet(items, lines, end, |lines|);
  }

  function TablesFor(events: seq<string>, command: string): (items: seq<Item>)
    ensures |items| == 5 * |events|
  {
    if events == [] then [] else TablesFor(events[..|events| - 1], command) + TableItems(events[|events| - 1], command)
  }

  ghost predicate Readable(events: seq<string>) {
    forall i :: 0 <= i < |events| ==> '\n' !in events[i] && Utf8.Valid(events[i])
  }

  lemma {:induction false} TablesReadBack(events: seq<string>, command: string)
    requires '\n' !in command && Readable(events)
    ensures Items(BlocksFor(events, command)) == TablesFor(events, Utf8.Repaired(command))
  {
    if events != [] {
      var front, last := events[..|events| - 1], events[|events| - 1];
      TablesReadBack(front, command);
      TableReadsBack(last, command);
      ItemsAppend(BlocksFor(front, command), BlockLines(last, command));
    }
  }

  lemma {:induction false} TablesForAt(events: seq<string>, command: string, i: nat)
    requires i < |events|
    ensures TableAt(TablesFor(events, command), 5 * i, events[i], command)
  {
    if i < |events| - 1 {
      var front := events[..|events| - 1];
      TablesForAt(front, command, i);
      assert front[i] == events[i];
    }
  }

  /** The items of the region's lines. */
  lemma RegionItems(first: string, last: string, events: seq<string>, command: string)
    requires ItemOf(first) == Nothing && ItemOf(last) == Nothing
    requires '\n' !in command && Readable(events)
    ensures Items([first] + BlocksFor(events, command) + [last]) == [Nothing] + TablesFor(events, Utf8.Repaired(command)) + [Nothing]
  {
    var blocks := BlocksFor(events, command);
    ItemsAppend([first] + blocks, [last]);
    ItemsAppend([first], blocks);
    ItemAt([first], 0);
    ItemAt([last], 0);
    assert Items([first]) == [Nothing] && Items([last]) == [Nothing];
    TablesReadBack(events, command);
  }

  lemma TableMoved(tables: seq<Item>, items: seq<Item>, offset: nat, n: nat, event: string, command: string)
    requires TableAt(tables, n, event, command) && offset + |tables| <= |items|
    requires forall i :: 0 <= i < |tables| ==> items[offset + i] == tables[i]
    ensures TableAt(items, offset + n, event, command)
  {
    assert items[offset + n] == tables[n] && items[offset + (n + 1)] == tables[n + 1] && items[offset + (n + 2)] == tables[n + 2];
    assert items[offset + (n + 3)] == tables[n + 3] && items[offset + (n + 4)] == tables[n + 4];
  }

  lemma TablesMoved(tables: seq<Item>, events: seq<string>, command: string, items: seq<Item>, offset: nat)
    requires tables == TablesFor(events, command) && offset + |tables| <= |items|
    requires forall i :: 0 <= i < |tables| ==> items[offset + i] == tables[i]
    ensures TablesAt(items, offset, events, command)
  {
    forall i | 0 <= i < |events| ensures TableAt(items, offset + 5 * i, events[i], command) {
      TablesForAt(events, command, i);
      TableMoved(tables, items, offset, 5 * i, events[i], command);
    }
  }

  lemma ItemsPlaced(before: seq<Item>, events: seq<string>, command: string, items: seq<Item>)
    requires NoTable(before) && items == before + ([Nothing] + TablesFor(events, command) + [Nothing]) + [Nothing]
    ensures RegionAt(items, |before|, events, command)
  {
    var k, tables := |before|, TablesFor(events, command);
    TablesInItems(before, tables, items);
    TablesMoved(tables, events, command, items, k + 1);
  }

  lemma TablesInItems(before: seq<Item>, tables: seq<Item>, items: seq<Item>)
    requires items == before + ([Nothing] + tables + [Nothing]) + [Nothing]
    ensures forall i :: 0 <= i < |tables| ==> items[|before| + 1 + i] == tables[i]
  {
  }

  // ---------------------------------------------------------------- the managed region is accepted

  lemma {:induction false} BlockAt(lines: seq<string>, n: nat, events: seq<string>, command: string, m: nat, i: nat)
    requires i < m <= |events| && n + 5 * |events| <= |lines|
    ensures n + 5 * i <= |lines|
    ensures BlocksUpTo(lines, n, events, command, m)[i] == Block(i, Start(lines, n + 5 * i), Some(events[i]), Some(command))
    decreases m
  {
    if i < m - 1 {
      BlockAt(lines, n, events, command, m - 1, i);
    }
  }

  /** Tables for distinct known events that all run one command. */
  ghost predicate Uniform(blocks: seq<Block>, events: seq<string>, command: string) {
    |blocks| == |events| && forall i :: 0 <= i < |blocks| ==> blocks[i].event == Some(events[i]) && blocks[i].command == Some(command)
  }

  ghost predicate Distinct(events: seq<string>) {
    forall i, j :: 0 <= i < j < |events| ==> events[i] != events[j]
  }

  lemma {:induction false} EventFrom(blocks: seq<Block>, events: seq<string>, command: string, m: nat, e: string) returns (j: nat)
    requires Uniform(blocks, events, command) && m <= |blocks| && e in EventsOf(blocks, m)
    ensures j < m && events[j] == e
    decreases m
  {
    if blocks[m - 1].event == Some(e) {
      j := m - 1;
    } else {
      j := EventFrom(blocks, events, command, m - 1, e);
    }
  }

  lemma {:induction false} UniformIsGood(blocks: seq<Block>, events: seq<string>, command: string, m: nat)
    requires Uniform(blocks, events, command) && Distinct(events) && m <= |blocks|
    ensures GoodBlocks(events, blocks, m)
    ensures m > 0 ==> OneCommand(blocks, m) == Some(command)
    decreases m
  {
    if m > 0 {
      UniformIsGood(blocks, events, command, m - 1);
      if events[m - 1] in EventsOf(blocks, m - 1) {
        var j := EventFrom(blocks, events, command, m - 1, events[m - 1]);
      }
    }
  }

  lemma UniformIsManaged(hash: string, blocks: seq<Block>, command: string)
    requires Uniform(blocks, EVENTS, command)
    ensures ManagedInvocation(hash, blocks) == if hash == Digest(command) then ShellInvocation(command) else None
  {
    EventsDistinct();
    UniformIsGood(blocks, EVENTS, command, |blocks|);
  }

  lemma EventsDistinct()
    ensures Distinct(EVENTS) && |EVENTS| == 3
  {
    assert |EVENTS[0]| == 4 && |EVENTS[1]| == 11 && |EVENTS[2]| == 17;
  }

  lemma UpToIsUniform(lines: seq<string>, n: nat, events: seq<string>, command: string)
    requires n + 5 * |events| <= |lines|
    ensures Uniform(BlocksUpTo(lines, n, events, command, |events|), events, command)
  {
    var blocks := BlocksUpTo(lines, n, events, command, |events|);
    forall i | 0 <= i < |blocks| ensures blocks[i].event == Some(events[i]) && blocks[i].command == Some(command) {
      BlockAt(lines, n, events, command, |events|, i);
    }
  }

  // ---------------------------------------------------------------- the audit of an installed file

  lemma CommentItem(line: string)
    requires line != "" && line[0] == '#'
    ensures ItemOf(line) == Nothing && ClassOf(line) == Blank
  {
    TrimKeepsHead(line);
    assert "[[hooks]]"[0] == '[';
  }

  lemma HeaderClass()
    ensures ClassOf("[[hooks]]") == Header
  {
    TrimNothing("[[hooks]]");
  }

  lemma {:induction false} BlocksSize(events: seq<string>, command: string)
    ensures |BlocksFor(events, command)| == 5 * |events|
  {
    if events != [] {
      BlocksSize(events[..|events| - 1], command);
    }
  }

  lemma ComposedItems(before: seq<string>, rl: seq<string>, lines: seq<string>)
    requires lines == before + rl + [""]
    ensures Items(lines) == Items(before) + Items(rl) + [Nothing]
  {
    ItemsAppend(before + rl, [""]);
    ItemsAppend(before, rl);
    TableLine();
    ItemAt([""], 0);
    assert Items([""]) == [Nothing];
  }

  /** Every table of the region starts inside it. */
  lemma StartsInside(lines: seq<string>, k: nat, size: nat, events: seq<string>, command: string, i: nat)
    requires k + 1 + 5 * |events| < size <= |lines| && i < |events|
    ensures var b := BlocksUpTo(lines, k + 1, events, command, |events|)[i];
      Start(lines, k) <= b.start < Start(lines, size)
  {
    BlockAt(lines, k + 1, events, command, |events|, i);
    StartMonotone(lines, k, k + 1 + 5 * i);
    StartMonotone(lines, k + 1 + 5 * i, size);
  }

  lemma {:induction false} ItemsPrefix(lines: seq<string>, n: nat)
    requires n <= |lines| && NoTable(Items(lines))
    ensures NoTable(Items(lines[..n]))
  {
    assert lines == lines[..n] + lines[n..];
    ItemsAppend(lines[..n], lines[n..]);
    PrefixHasNoTable(Items(lines[..n]), Items(lines[n..]));
  }

  lemma PrefixHasNoTable(a: seq<Item>, b: seq<Item>)
    requires NoTable(a + b)
    ensures NoTable(a)
  {
    forall i | 0 <= i < |a| ensures a[i] != OpenTable {
      assert a[i] == (a + b)[i];
    }
  }

  lemma RegionPlaced(before: seq<string>, rl: seq<string>, events: seq<string>, command: string, lines: seq<string>, items: seq<Item>)
    requires NoTable(Items(before)) && Items(rl) == [Nothing] + TablesFor(events, command) + [Nothing]
    requires lines == before + rl + [""] && items == Items(lines)
    ensures RegionAt(items, |before|, events, command)
  {
    ComposedItems(before, rl, lines);
    ItemsPlaced(Items(before), events, command, items);
  }

  lemma EventsAreValid(i: nat)
    requires i < |EVENTS|
    ensures Utf8.Valid(EVENTS[i])
  {
    var e := EVENTS[i];
    assert e == "Stop" || e == "StopFailure" || e == "PermissionRequest";
    Utf8.AsciiIsValid(e);
  }

  lemma EventsAreReadable()
    ensures Readable(EVENTS)
  {
    EventsAreLines();
    forall i | 0 <= i < |EVENTS| ensures Utf8.Valid(EVENTS[i]) {
      EventsAreValid(i);
    }
  }

  /** The lines of the region, as the audit reads them. */
  lemma RegionLinesRead(command: string) returns (rl: seq<string>)
    requires NL !in command
    ensures Unlines(rl) == RegionText(command) && AreLines(rl) && |rl| == 2 + 5 * |EVENTS|
    ensures Items(rl) == [Nothing] + TablesFor(EVENTS, Utf8.Repaired(command)) + [Nothing]
  {
    rl := RegionLines(command);
    RegionAreLines(command);
    BlocksSize(EVENTS, command);
    var first := BEGIN_PREFIX + Digest(command);
    assert first[0] == BEGIN_PREFIX[0] == '#' && END_MARKER[0] == '#';
    CommentItem(first);
    CommentItem(END_MARKER);
    EventsAreReadable();
    RegionItems(first, END_MARKER, EVENTS, command);
  }

  lemma FileText(before: seq<string>, rl: seq<string>, content: string)
    requires AreLines(before) && AreLines(rl) && content == Unlines(before) + Unlines(rl)
    ensures LinesOf(content) == before + rl + [""]
  {
    JoinOne("");
    assert content == Unlines(before) + Unlines(rl) + Join([""], NL);
    LinesAmong(before, rl, [""], content);
  }

  lemma FileStarts(before: seq<string>, rl: seq<string>, lines: seq<string>, p: nat, size: nat)
    requires lines == before + rl + [""] && p == |Unlines(before)| && size == p + |Unlines(rl)|
    ensures Start(lines, |before|) == p && Start(lines, |before| + |rl|) == size
  {
    ComposedText(before, rl, [""]);
  }

  lemma FileLines(pre: string, before: seq<string>, text: string, rl: seq<string>, content: string, lines: seq<string>)
    requires FreeBefore(pre, before) && Unlines(rl) == text && AreLines(rl) && content == pre + text && lines == before + rl + [""]
    ensures LinesOf(content) == lines && Start(lines, |before|) == |pre| && Start(lines, |before| + |rl|) == |content|
  {
    FileText(before, rl, content);
    FileStarts(before, rl, lines, |pre|, |content|);
  }

  /** An installed file: where its region stands, and what the audit reads there. */
  lemma InstalledShape(content: string, command: string, e: Edit) returns (lines: seq<string>, k: nat)
    requires FindRegion(content).Absent? && NoTable(Items(LinesOf(content))) && NL !in command && Install(content, command) == Some(e)
    ensures LinesOf(e.content) == lines && RegionAt(Items(lines), k, EVENTS, Utf8.Repaired(command))
    ensures k + 2 + 5 * |EVENTS| <= |lines|
    ensures Start(lines, k) == |Terminated(content)| && Start(lines, k + 2 + 5 * |EVENTS|) == |e.content|
  {
    var before := AbsentIsFree(content);
    ItemsPrefix(LinesOf(content), |before|);
    var rl := RegionLinesRead(command);
    lines, k := before + rl + [""], |before|;
    RegionPlaced(before, rl, EVENTS, Utf8.Repaired(command), lines, Items(lines));
    FileLines(Terminated(content), before, RegionText(command), rl, e.content, lines);
  }

  // ---------------------------------------------------------------- commands

  lemma {:induction false} ReplaceLacks(v: string, c: char, sub: string, d: char)
    requires d !in v && d !in sub
    ensures d !in ShellWords.Replace(v, c, sub)
  {
    if v != "" {
      assert d !in v[1..];
      ReplaceLacks(v[1..], c, sub, d);
    }
  }

  lemma {:induction false} JoinedLacks(args: seq<string>, sep: char, d: char)
    requires d != sep && forall i :: 0 <= i < |args| ==> d !in args[i]
    ensures d !in Join(args, sep)
  {
    if |args| > 1 {
      JoinedLacks(args[1..], sep, d);
    }
  }

  lemma PlainLacksNewline(args: seq<string>)
    requires ShellWords.PlainWords(args)
    ensures forall i :: 0 <= i < |args| ==> NL !in args[i]
  {
    forall i | 0 <= i < |args| ensures NL !in args[i] {
      assert ShellWords.AllPlain(args[i]);
    }
  }

  lemma CommandIsOneLine(executable: string, args: seq<string>)
    requires ShellWords.PlainWords(args) && NL !in executable
    ensures NL !in ShellWords.ShellCommand(executable, args, false)
  {
    ReplaceLacks(executable, '\'', "'\\''", NL);
    PlainLacksNewline(args);
    JoinedLacks(args, ' ', NL);
  }

  lemma InvocationReadsBack(executable: string, args: seq<string>)
    requires ShellWords.PlainWords(args)
    ensures ShellInvocation(ShellWords.ShellCommand(executable, args, false)) == Some(HookAudit.Invocation(HookAudit.FORM_SHELL, executable, args))
  {
    ShellWords.CommandReadsBack(executable, args);
    var words := [executable] + args;
    assert words[0] == executable && words[1..] == args;
  }

  /** The tables the audit finds after an install. */
  ghost predicate ReadBack(blocks: seq<Block>, command: string, start: nat, end: nat) {
    && Uniform(blocks, EVENTS, command)
    && forall i :: 0 <= i < |blocks| ==> blocks[i].index == i && start <= blocks[i].start < end
  }

  lemma TablesInside(lines: seq<string>, k: nat, command: string, blocks: seq<Block>, start: nat, end: nat)
    requires k + 2 + 5 * |EVENTS| <= |lines| && blocks == BlocksUpTo(lines, k + 1, EVENTS, command, |EVENTS|)
    requires start == Start(lines, k) && end == Start(lines, k + 2 + 5 * |EVENTS|)
    ensures ReadBack(blocks, command, start, end)
  {
    UpToIsUniform(lines, k + 1, EVENTS, command);
    forall i | 0 <= i < |blocks| ensures blocks[i].index == i && start <= blocks[i].start < end {
      BlockAt(lines, k + 1, EVENTS, command, |EVENTS|, i);
      StartsInside(lines, k, k + 2 + 5 * |EVENTS|, EVENTS, command, i);
    }
  }

  lemma ParsedByLines(content: string, lines: seq<string>)
    requires LinesOf(content) == lines
    ensures ParseBlocks(content) == Tables(ParseItems(Items(lines), lines, |lines|))
  {
  }

  /** The audit parses an installed file into exactly the three tables of the region, all inside it, with the bad bytes of the command replaced. */
  lemma TablesReadBackAfterInstall(content: string, command: string, e: Edit) returns (blocks: seq<Block>)
    requires FindRegion(content).Absent? && NoTable(Items(LinesOf(content))) && NL !in command && Install(content, command) == Some(e)
    ensures ParseBlocks(e.content) == Some(blocks) && ReadBack(blocks, Utf8.Repaired(command), |Terminated(content)|, |e.content|)
  {
    var read := Utf8.Repaired(command);
    var lines, k := InstalledShape(content, command, e);
    ParsedByLines(e.content, lines);
    RegionParses(Items(lines), lines, k, EVENTS, read);
    blocks := BlocksUpTo(lines, k + 1, EVENTS, read, |EVENTS|);
    TablesInside(lines, k, read, blocks, |Terminated(content)|, |e.content|);
  }

  // ---------------------------------------------------------------- when a command is valid

  lemma {:induction false} ReplacedIsValid(v: string)
    ensures Utf8.Valid(ShellWords.Replace(v, '\'', "'\\''")) <==> Utf8.Valid(v)
    decreases |v|
  {
    var k := Find(v, '\'');
    if k == |v| {
      ShellWords.ReplaceNone(v, '\'', "'\\''");
    } else {
      var a, b := v[..k], v[k + 1..];
      assert v == a + ['\''] + b;
      ReplacedIsValid(b);
      Utf8.ValidSplit(a, '\'', b);
      ReplaceSplit(v, a, b);
      QuoteValid(a, ShellWords.Replace(b, '\'', "'\\''"));
    }
  }

  lemma ReplaceSplit(v: string, a: string, b: string)
    requires v == a + ['\''] + b && '\'' !in a
    ensures ShellWords.Replace(v, '\'', "'\\''") == a + "'\\''" + ShellWords.Replace(b, '\'', "'\\''")
  {
    var sub := "'\\''";
    ShellWords.ReplaceAppend(a + ['\''], b, '\'', sub);
    ShellWords.ReplaceAppend(a, ['\''], '\'', sub);
    ShellWords.ReplaceNone(a, '\'', sub);
    ReplaceChar('\'', '\'', sub);
  }

  lemma QuoteValid(a: string, b: string)
    ensures Utf8.Valid(a + "'\\''" + b) <==> Utf8.Valid(a) && Utf8.Valid(b)
  {
    assert a + "'\\''" + b == a + ['\''] + ("\\''" + b);
    Utf8.ValidSplit(a, '\'', "\\''" + b);
    assert "\\''" + b == "\\'" + ['\''] + b;
    Utf8.ValidSplit("\\'", '\'', b);
    Utf8.AsciiIsValid("\\'");
  }

  ghost predicate AllValid(args: seq<string>) {
    forall i :: 0 <= i < |args| ==> Utf8.Valid(args[i])
  }

  lemma {:induction false} JoinedIsValid(args: seq<string>)
    ensures Utf8.Valid(Join(args, ' ')) <==> AllValid(args)
  {
    if |args| > 1 {
      JoinedIsValid(args[1..]);
      Utf8.ValidSplit(args[0], ' ', Join(args[1..], ' '));
      assert AllValid(args) <==> Utf8.Valid(args[0]) && AllValid(args[1..]) by {
        if Utf8.Valid(args[0]) && AllValid(args[1..]) {
          forall i | 0 <= i < |args| ensures Utf8.Valid(args[i]) {
            assert i > 0 ==> args[i] == args[1..][i - 1];
          }
        }
        if AllValid(args) {
          forall i | 0 <= i < |args[1..]| ensures Utf8.Valid(args[1..][i]) {
            assert args[1..][i] == args[i + 1];
          }
        }
      }
    }
  }

  /** A command is valid UTF-8 exactly when its executable and its arguments are. */
  lemma CommandIsValid(executable: string, args: seq<string>)
    ensures Utf8.Valid(ShellWords.ShellCommand(executable, args, false)) <==> Utf8.Valid(executable) && AllValid(args)
  {
    var quoted, joined := ShellWords.Replace(executable, '\'', "'\\''"), Join(args, ' ');
    var command := ShellWords.ShellCommand(executable, args, false);
    ReplacedIsValid(executable);
    JoinedIsValid(args);
    assert command == "" + ['\''] + (quoted + ['\''] + ("" + [' '] + joined));
    Utf8.ValidSplit("", '\'', quoted + ['\''] + ("" + [' '] + joined));
    Utf8.ValidSplit(quoted, '\'', "" + [' '] + joined);
    Utf8.ValidSplit("", ' ', joined);
  }

  lemma BadCommandRefused(blocks: seq<Block>, command: string)
    requires Uniform(blocks, EVENTS, Utf8.Repaired(command))
    ensures ManagedInvocation(Digest(command), blocks) == if Utf8.Valid(command) then ShellInvocation(command) else None
  {
    Utf8.RepairedIff(command);
    UniformIsManaged(Digest(command), blocks, Utf8.Repaired(command));
    if Digest(command) == Digest(Utf8.Repaired(command)) {
      DigestInjective(command, Utf8.Repaired(command));
    }
  }

  /**
   * The audit of an installed file without other [[hooks]] tables: it finds the region and
   * its three tables, and accepts the region, with the very executable and arguments, if
   * and only if they are valid UTF-8.
   */
  lemma AuditReadsBack(content: string, executable: string, args: seq<string>, command: string, e: Edit) returns (blocks: seq<Block>)
    requires FindRegion(content).Absent? && NoTable(Items(LinesOf(content)))
    requires NL !in executable && ShellWords.PlainWords(args)
    requires command == ShellWords.ShellCommand(executable, args, false) && Install(content, command) == Some(e)
    ensures FindRegion(e.content) == Found(|Terminated(content)|, |e.content|, Digest(command))
    ensures ParseBlocks(e.content) == Some(blocks) && ReadBack(blocks, Utf8.Repaired(command), |Terminated(content)|, |e.content|)
    ensures ManagedInvocation(Digest(command), blocks) ==
      if Utf8.Valid(executable) && AllValid(args) then Some(HookAudit.Invocation(HookAudit.FORM_SHELL, executable, args)) else None
  {
    CommandIsOneLine(executable, args);
    FoundAfterInstall(content, command, e);
    blocks := TablesReadBackAfterInstall(content, command, e);
    InvocationReadsBack(executable, args);
    CommandIsValid(executable, args);
    BadCommandRefused(blocks, command);
  }

  // ---------------------------------------------------------------- no conflict after install

  lemma ConflictPrefix(a: seq<LineClass>, b: seq<LineClass>)
    requires !ConflictIn(a + b, |a + b|)
    ensures !ConflictIn(a, |a|)
  {
    forall i | 0 <= i < |a| ensures !(a[i].InlineHooks? && InRoot(a, i)) {
      assert (a + b)[i] == a[i];
      assert InRoot(a, i) ==> InRoot(a + b, i) by {
        assert forall j :: 0 <= j < i ==> (a + b)[j] == a[j];
      }
    }
  }

  lemma ClassPrefix(lines: seq<string>, before: seq<string>, rest: seq<string>)
    requires lines == before + rest && !ConflictIn(Classes(lines), |Classes(lines)|)
    ensures !ConflictIn(Classes(before), |Classes(before)|)
  {
    ClassesAppend(before, rest);
    ConflictPrefix(Classes(before), Classes(rest));
  }

  lemma HeadClasses(first: string, second: string, rest: seq<string>)
    requires ClassOf(first) == Blank && ClassOf(second) == Header
    ensures Classes([first, second] + rest) == [Blank, Header] + Classes(rest)
  {
    ClassesAppend([first, second], rest);
    ClassAt([first, second], 0);
    ClassAt([first, second], 1);
    assert Classes([first, second]) == [Blank, Header];
  }

  lemma NoConflictIn(before: seq<string>, first: string, second: string, rest: seq<string>, lines: seq<string>)
    requires !ConflictIn(Classes(before), |Classes(before)|) && ClassOf(first) == Blank && ClassOf(second) == Header
    requires lines == before + ([first, second] + rest)
    ensures !ConflictIn(Classes(lines), |Classes(lines)|)
  {
    ClassesAppend(before, [first, second] + rest);
    HeadClasses(first, second, rest);
    var classes := Classes(before) + [Blank, Header] + Classes(rest);
    assert Classes(lines) == classes;
    HeaderEndsRoot(Classes(before), Classes(rest));
  }

  lemma HeadOf(first: string, second: string, blocks: seq<string>, last: string) returns (rest: seq<string>)
    requires blocks != [] && blocks[0] == second
    ensures [first] + blocks + [last] == [first, second] + rest
  {
    rest := blocks[1..] + [last];
    assert blocks == [second] + blocks[1..];
  }

  /** The region starts with a comment and a table header. */
  lemma RegionHead(command: string) returns (rl: seq<string>, first: string, second: string, rest: seq<string>)
    requires NL !in command
    ensures Unlines(rl) == RegionText(command) && AreLines(rl) && rl == [first, second] + rest
    ensures ClassOf(first) == Blank && ClassOf(second) == Header
  {
    rl := RegionLines(command);
    RegionAreLines(command);
    first, second := BEGIN_PREFIX + Digest(command), "[[hooks]]";
    BeginIsBlank(Digest(command));
    HeaderClass();
    FirstBlockLine(EVENTS, command);
    rest := HeadOf(first, second, BlocksFor(EVENTS, command), END_MARKER);
  }

  lemma BeginIsBlank(hash: string)
    ensures ClassOf(BEGIN_PREFIX + hash) == Blank
  {
    var first := BEGIN_PREFIX + hash;
    assert first[0] == BEGIN_PREFIX[0] == '#';
    CommentItem(first);
  }

  /** Conflict-free free lines before the region. */
  lemma BeforeInstall(content: string) returns (before: seq<string>)
    requires FindRegion(content).Absent? && !HasConflict(content)
    ensures FreeBefore(Terminated(content), before) && !ConflictIn(Classes(before), |Classes(before)|)
  {
    before := AbsentIsFree(content);
    var all := LinesOf(content);
    var rest := all[|before|..];
    assert all == before + rest;
    ClassPrefix(all, before, rest);
  }

  lemma {:induction false} FirstBlockLine(events: seq<string>, command: string)
    requires events != []
    ensures BlocksFor(events, command) != [] && BlocksFor(events, command)[0] == "[[hooks]]"
  {
    if |events| > 1 {
      FirstBlockLine(events[..|events| - 1], command);
    } else {
      assert events[..|events| - 1] == [];
    }
  }

  /** The audit does not refuse an installed file for inline hooks. */
  lemma NoConflictAfterInstall(content: string, command: string, e: Edit)
    requires FindRegion(content).Absent? && NL !in command && Install(content, command) == Some(e)
    ensures !HasConflict(e.content)
  {
    var before := BeforeInstall(content);
    var rl, first, second, rest := RegionHead(command);
    var lines := before + rl + [""];
    FileLines(Terminated(content), before, RegionText(command), rl, e.content, lines);
    NoConflictHere(before, rl, first, second, rest, lines);
    ConflictByLines(e.content, lines);
  }

  lemma ConflictByLines(content: string, lines: seq<string>)
    requires LinesOf(content) == lines
    ensures HasConflict(content) <==> ConflictIn(Classes(lines), |Classes(lines)|)
  {
  }

  lemma NoConflictHere(before: seq<string>, rl: seq<string>, first: string, second: string, rest: seq<string>, lines: seq<string>)
    requires !ConflictIn(Classes(before), |Classes(before)|) && ClassOf(first) == Blank && ClassOf(second) == Header
    requires rl == [first, second] + rest && lines == before + rl + [""]
    ensures !ConflictIn(Classes(lines), |Classes(lines)|)
  {
    assert lines == before + ([first, second] + (rest + [""]));
    NoConflictIn(before, first, second, rest + [""], lines);
  }

  // ---------------------------------------------------------------- the invocation Kimi installs

  datatype HookInvocation = HookInvocation(executable: string, args: seq<string>)

  predicate Unsupported(executable: string) {
    executable == "" || '\0' in executable || '\r' in executable || '\n' in executable || '"' in executable
  }

  function HookArgs(verb: string): seq<string> {
    [verb, "--adapter", "kimi-code", "--surface", "cli", "--runtime", "host", "--stdin", "--fail-open"]
  }

  /** resolveHookInvocation for Kimi: the stable bridge when there is one, the core otherwise. */
  function ResolveInvocation(core: string, bridge: string, generation: nat): Option<HookInvocation> {
    var executable := if bridge != "" then bridge else core;
    if bridge != "" && (generation == 0 || bridge[0] != '/') then None
    else if Unsupported(executable) then None
    else Some(HookInvocation(executable, HookArgs(if bridge != "" then "hook-v1" else "emit")))
  }

  predicate IsWordChar(c: char) {
    'a' <= c <= 'z' || '0' <= c <= '9' || c == '-'
  }

  predicate IsWord(s: string) {
    s != "" && forall i :: 0 <= i < |s| ==> IsWordChar(s[i])
  }

  lemma WordCharIsPlain(c: char)
    requires IsWordChar(c)
    ensures ShellWords.IsPlain(c)
  {
  }

  lemma WordsArePlain(words: seq<string>)
    requires forall i :: 0 <= i < |words| ==> IsWord(words[i])
    ensures ShellWords.PlainWords(words)
  {
    forall i | 0 <= i < |words| ensures words[i] != "" && ShellWords.AllPlain(words[i]) {
      assert IsWord(words[i]);
      forall j | 0 <= j < |words[i]| ensures ShellWords.IsPlain(words[i][j]) {
        WordCharIsPlain(words[i][j]);
      }
    }
  }

  lemma ArgsAreWords(verb: string)
    requires IsWord(verb)
    ensures forall i :: 0 <= i < |HookArgs(verb)| ==> IsWord(HookArgs(verb)[i])
  {
    assert IsWord("--adapter") && IsWord("kimi-code") && IsWord("--surface");
    assert IsWord("cli") && IsWord("--runtime") && IsWord("host");
    assert IsWord("--stdin") && IsWord("--fail-open");
  }

  lemma ArgsArePlain(verb: string)
    requires IsWord(verb)
    ensures ShellWords.PlainWords(HookArgs(verb)) && AllValid(HookArgs(verb))
  {
    ArgsAreWords(verb);
    WordsArePlain(HookArgs(verb));
    WordsAreValid(HookArgs(verb));
  }

  lemma WordsAreValid(words: seq<string>)
    requires forall i :: 0 <= i < |words| ==> IsWord(words[i])
    ensures AllValid(words)
  {
    forall i | 0 <= i < |words| ensures Utf8.Valid(words[i]) {
      assert IsWord(words[i]);
      Utf8.AsciiIsValid(words[i]);
    }
  }

  /** For every invocation Kimi accepts, the audit reads back exactly its executable and arguments if and only if the executable is valid UTF-8; otherwise it refuses the region. */
  lemma KimiReadsBack(content: string, core: string, bridge: string, generation: nat, v: HookInvocation, command: string, e: Edit) returns (blocks: seq<Block>)
    requires FindRegion(content).Absent? && NoTable(Items(LinesOf(content)))
    requires ResolveInvocation(core, bridge, generation) == Some(v)
    requires command == ShellWords.ShellCommand(v.executable, v.args, false) && Install(content, command) == Some(e)
    ensures !HasConflict(e.content)
    ensures FindRegion(e.content) == Found(|Terminated(content)|, |e.content|, Digest(command))
    ensures ParseBlocks(e.content) == Some(blocks) && ReadBack(blocks, Utf8.Repaired(command), |Terminated(content)|, |e.content|)
    ensures ManagedInvocation(Digest(command), blocks) ==
      if Utf8.Valid(v.executable) then Some(HookAudit.Invocation(HookAudit.FORM_SHELL, v.executable, v.args)) else None
  {
    VerbsAreWords();
    ArgsArePlain(if bridge != "" then "hook-v1" else "emit");
    CommandIsOneLine(v.executable, v.args);
    NoConflictAfterInstall(content, command, e);
    blocks := AuditReadsBack(content, v.executable, v.args, command, e);
  }

  /** A stable bridge that Kimi accepts and whose region the audit then refuses. */
  const BAD_PATH := "/opt/" + ['\U{FF}'] + "/agentbell"

  lemma BadPathRefused(content: string, core: string, generation: nat, v: HookInvocation, command: string, e: Edit) returns (blocks: seq<Block>)
    requires FindRegion(content).Absent? && NoTable(Items(LinesOf(content)))
    requires v == HookInvocation(BAD_PATH, HookArgs("hook-v1")) && generation > 0
    requires command == ShellWords.ShellCommand(v.executable, v.args, false) && Install(content, command) == Some(e)
    ensures ResolveInvocation(core, BAD_PATH, generation) == Some(v)
    ensures ParseBlocks(e.content) == Some(blocks) && ManagedInvocation(Digest(command), blocks) == None
  {
    BadPathIsBad();
    blocks := KimiReadsBack(content, core, BAD_PATH, generation, v, command, e);
  }

  lemma BadPathIsBad()
    ensures !Unsupported(BAD_PATH) && !Utf8.Valid(BAD_PATH) && BAD_PATH != "" && BAD_PATH[0] == '/'
  {
    var rest := ['\U{FF}'] + "/agentbell";
    BadHead(rest);
    assert BAD_PATH == "/opt" + ['/'] + rest;
    Utf8.ValidSplit("/opt", '/', rest);
  }

  lemma BadHead(rest: string)
    requires rest != "" && rest[0] == '\U{FF}'
    ensures !Utf8.Valid(rest)
  {
  }

  lemma VerbsAreWords()
    ensures IsWord("hook-v1") && IsWord("emit")
  {
  }
}