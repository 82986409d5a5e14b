/** AuditHooks for Kimi: from the text of config.toml to the audit's report. */
module KimiHooks {
  import opened Common
  import opened Kimi
  import opened KimiRegions
  import opened KimiAudit
  import opened HookAudit
  import opened AuditReports
  import opened AuditApply
  import Lines
  import SemVer
  import ShellWords
  import Utf8

  const ADAPTER := "kimi-code"
  const NOT_TOKENIZED := "unsafe shell command"

  // ---------------------------------------------------------------- the request

  function DesiredAt(source: string, v: Invocation, event: string): Desired {
    Place(ADAPTER, event, source, ["hooks", "append"], v)
  }

  function DesiredFor(source: string, v: Invocation): (desired: seq<Desired>)
    ensures |desired| == |EVENTS| && forall i :: 0 <= i < |EVENTS| ==> desired[i] == DesiredAt(source, v, EVENTS[i])
  {
    seq(|EVENTS|, i requires 0 <= i < |EVENTS| => DesiredAt(source, v, EVENTS[i]))
  }

  function OwnedFor(v: Invocation, proof: string): (owned: seq<Owned>)
    ensures |owned| == |EVENTS| && forall i :: 0 <= i < |EVENTS| ==> owned[i] == Owned(ADAPTER, EVENTS[i], v, proof)
  {
    seq(|EVENTS|, i requires 0 <= i < |EVENTS| => Owned(ADAPTER, EVENTS[i], v, proof))
  }

  predicate Complete(b: Block) {
    b.event.Some? && b.command.Some?
  }

  predicate Known(b: Block) {
    b.event.Some? && b.event.value in EVENTS
  }

  /** The entry of a table; a command the tokenizer refuses makes it unsafe. */
  function EntryFor(source: string, b: Block): Entry
    requires Complete(b)
  {
    var v := ShellInvocation(b.command.value);
    var path := ["hooks", SemVer.Decimal(b.index)];
    if v.Some? then Entry(Place(ADAPTER, b.event.value, source, path, v.value), "")
    else Entry(Place(ADAPTER, b.event.value, source, path, Invocation("", "", [])), NOT_TOKENIZED)
  }

  /** The entries of the first n tables; None when one of them lacks its event or its command. */
  function EntriesOf(source: string, blocks: seq<Block>, n: nat): Option<seq<Entry>>
    requires n <= |blocks|
  {
    if n == 0 then Some([])
    else
      var before, b := EntriesOf(source, blocks, n - 1), blocks[n - 1];
      if before.None? || !Complete(b) then None
      else if !Known(b) then before
      else Some(before.value + [EntryFor(source, b)])
  }

  predicate Inside(region: Search, b: Block) {
    region.Found? && region.start <= b.start < region.end
  }

  /** The tables of known events that start inside the region. */
  function ManagedOf(region: Search, blocks: seq<Block>, n: nat): seq<Block>
    requires n <= |blocks|
  {
    if n == 0 then []
    else if Known(blocks[n - 1]) && Inside(region, blocks[n - 1]) then ManagedOf(region, blocks, n - 1) + [blocks[n - 1]]
    else ManagedOf(region, blocks, n - 1)
  }

  function ReceiptOwned(receipt: Option<string>): seq<Owned> {
    if receipt.None? || ShellInvocation(receipt.value).None? then []
    else OwnedFor(ShellInvocation(receipt.value).value, "receipt")
  }

  /** What the managed region proves; None when it is refused. */
  ghost function RegionOwned(region: Search, blocks: seq<Block>): Option<seq<Owned>> {
    if !region.Found? then Some([])
    else
      var v := ManagedInvocation(region.hash, ManagedOf(region, blocks, |blocks|));
      if v.None? then None else Some(OwnedFor(v.value, "managed-region"))
  }

  ghost function RequestFrom(source: string, v: Invocation, region: Search, blocks: seq<Block>, receipt: Option<string>): Option<Request> {
    var entries, owned := EntriesOf(source, blocks, |blocks|), RegionOwned(region, blocks);
    if entries.None? || owned.None? then None
    else Some(Request(DesiredFor(source, v), owned.value + ReceiptOwned(receipt), entries.value))
  }

  /** The request of the whole file; None when the audit refuses the file. */
  ghost function RequestOf(source: string, v: Invocation, content: string, receipt: Option<string>): Option<Request> {
    var region, blocks := FindRegion(content), ParseBlocks(content);
    if HasConflict(content) || region.Malformed? || blocks.None? then None
    else RequestFrom(source, v, region, blocks.value, receipt)
  }

  // ---------------------------------------------------------------- the method

  method Collect(source: string, region: Search, blocks: seq<Block>) returns (entries: Option<seq<Entry>>, managed: seq<Block>)
    ensures entries == EntriesOf(source, blocks, |blocks|)
    ensures entries.Some? ==> managed == ManagedOf(region, blocks, |blocks|)
  {
    var found: seq<Entry> := [];
    managed := [];
    for i := 0 to |blocks|
      invariant EntriesOf(source, blocks, i) == Some(found) && managed == ManagedOf(region, blocks, i)
    {
      var b := blocks[i];
      if !Complete(b) {
        IncompleteStays(source, blocks, i + 1, |blocks|);
        return None, managed;
      }
      if Known(b) {
        found := found + [EntryFor(source, b)];
        if Inside(region, b) {
          managed := managed + [b];
        }
      }
    }
    return Some(found), managed;
  }

  lemma {:induction false} IncompleteStays(source: string, blocks: seq<Block>, m: nat, n: nat)
    requires m <= n <= |blocks| && EntriesOf(source, blocks, m).None?
    ensures EntriesOf(source, blocks, n).None?
    decreases n
  {
    if m < n {
      IncompleteStays(source, blocks, m, n - 1);
    }
  }

  method BuildRequest(source: string, v: Invocation, content: string, receipt: Option<string>) returns (r: Option<Request>)
    ensures r == RequestOf(source, v, content, receipt)
  {
    var conflict := HasInlineHooksConflict(content);
    if conflict {
      return None;
    }
    var region := FindKimiRegion(content);
    if region.Malformed? {
      return None;
    }
    var blocks := ParseKimiAuditBlocks(content);
    if blocks.None? {
      return None;
    }
    var entries, managed := Collect(source, region, blocks.value);
    if entries.None? {
      return None;
    }
    var owned: seq<Owned> := [];
    if region.Found? {
      var proven := ValidateManagedRegion(region.hash, managed);
      if proven.None? {
        return None;
      }
      owned := OwnedFor(proven.value, "managed-region");
    }
    r := Some(Request(DesiredFor(source, v), owned + ReceiptOwned(receipt), entries.value));
  }

  /** AuditHooks: a refused file or a refused request gives no report. */
  method AuditHooks(source: string, v: Invocation, content: string, receipt: Option<string>)
    returns (report: Option<Report>, ghost s: Request)
    ensures report.Some? <==> RequestOf(source, v, content, receipt).Some? && Accepts(RequestOf(source, v, content, receipt).value)
    ensures report.Some? ==> IsNormal(RequestOf(source, v, content, receipt).value, s) && IsReport(s, report.value)
  {
    var r := BuildRequest(source, v, content, receipt);
    if r.None? {
      s := Request([], [], []);
      return None, s;
    }
    report, s := Audit(r.value);
  }

  // ---------------------------------------------------------------- after an install

  function ShellForm(v: HookInvocation): Invocation {
    Invocation(FORM_SHELL, v.executable, v.args)
  }

  function ExpectedEntry(source: string, v: Invocation, i: nat): Entry
    requires i < |EVENTS|
  {
    Entry(Place(ADAPTER, EVENTS[i], source, ["hooks", SemVer.Decimal(i)], v), "")
  }

  function ExpectedEntries(source: string, v: Invocation, n: nat): (entries: seq<Entry>)
    requires n <= |EVENTS|
    ensures |entries| == n && forall i :: 0 <= i < n ==> entries[i] == ExpectedEntry(source, v, i)
  {
    if n == 0 then [] else ExpectedEntries(source, v, n - 1) + [ExpectedEntry(source, v, n - 1)]
  }

  /** The tables of an installed file give one entry per event, all of them managed. */
  lemma {:induction false} BlocksGive(source: string, region: Search, blocks: seq<Block>, command: string, v: Invocation, n: nat)
    requires region.Found? && ReadBack(blocks, command, region.start, region.end) && ShellInvocation(command) == Some(v) && n <= |blocks|
    ensures |blocks| == |EVENTS|
    ensures EntriesOf(source, blocks, n) == Some(ExpectedEntries(source, v, n))
    ensures ManagedOf(region, blocks, n) == blocks[..n]
    decreases n
  {
    if n > 0 {
      BlocksGive(source, region, blocks, command, v, n - 1);
      assert blocks[n - 1].event == Some(EVENTS[n - 1]) && blocks[n - 1].command == Some(command) && blocks[n - 1].index == n - 1;
      assert blocks[..n] == blocks[..n - 1] + [blocks[n - 1]];
    }
  }

  ghost function ExpectedRequest(source: string, v: Invocation, receipt: Option<string>): Request {
    Request(DesiredFor(source, v), OwnedFor(v, "managed-region") + ReceiptOwned(receipt), ExpectedEntries(source, v, |EVENTS|))
  }

  lemma RequestGiven(source: string, v: Invocation, region: Search, blocks: seq<Block>, command: string, receipt: Option<string>)
    requires region.Found? && ReadBack(blocks, command, region.start, region.end) && ShellInvocation(command) == Some(v)
    requires ManagedInvocation(region.hash, blocks) == Some(v)
    ensures RequestFrom(source, v, region, blocks, receipt) == Some(ExpectedRequest(source, v, receipt))
  {
    BlocksGive(source, region, blocks, command, v, |blocks|);
    assert blocks[..|blocks|] == blocks;
  }

  /** Tables of known events inside the region are all managed, whatever their command. */
  lemma {:induction false} AllManaged(region: Search, blocks: seq<Block>, command: string, n: nat)
    requires region.Found? && ReadBack(blocks, command, region.start, region.end) && n <= |blocks|
    ensures ManagedOf(region, blocks, n) == blocks[..n]
    decreases n
  {
    if n > 0 {
      AllManaged(region, blocks, command, n - 1);
      assert blocks[n - 1].event == Some(EVENTS[n - 1]);
      assert blocks[..n] == blocks[..n - 1] + [blocks[n - 1]];
    }
  }

  lemma RequestRefused(source: string, v: Invocation, region: Search, blocks: seq<Block>, command: string, receipt: Option<string>)
    requires region.Found? && ReadBack(blocks, command, region.start, region.end) && ManagedInvocation(region.hash, blocks).None?
    ensures RequestFrom(source, v, region, blocks, receipt).None?
  {
    AllManaged(region, blocks, command, |blocks|);
    assert blocks[..|blocks|] == blocks;
  }

  /** The stable invocation: an absolute bridge whose path and arguments hold no control character. */
  lemma StableIsGood(core: string, bridge: string, generation: nat, v: HookInvocation)
    requires bridge != "" && ResolveInvocation(core, bridge, generation) == Some(v)
    ensures v.executable == bridge && InvocationProblem(ShellForm(v)).None?
  {
    VerbsAreWords();
    ArgsAreWords("hook-v1");
    WordsLackControl(v.args, 0);
  }

  lemma {:induction false} WordsLackControl(args: seq<string>, from: nat)
    requires from <= |args| && forall i :: 0 <= i < |args| ==> IsWord(args[i])
    ensures ArgsProblem(args, from).None?
    decreases |args| - from
  {
    if from < |args| {
      assert IsWord(args[from]);
      WordsLackControl(args, from + 1);
    }
  }

  lemma EventsApart(i: nat, j: nat)
    requires i < |EVENTS| && j < |EVENTS|
    ensures TargetKey(ADAPTER, EVENTS[i]) == TargetKey(ADAPTER, EVENTS[j]) ==> i == j
  {
    EventsDistinct();
    if TargetKey(ADAPTER, EVENTS[i]) == TargetKey(ADAPTER, EVENTS[j]) {
      var head := ADAPTER + ['\0'];
      assert (head + EVENTS[i])[|head|..] == EVENTS[i] && (head + EVENTS[j])[|head|..] == EVENTS[j];
    }
  }

  lemma GoodPath(p: Place)
    requires |p.path| == 2 && p.path[0] == "hooks" && p.path[1] != "" && !ContainsControl(p.path[1])
    requires p.adapter == ADAPTER && p.event in EVENTS && p.source != "" && InvocationProblem(p.invocation).None?
    ensures PlaceProblem(p).None?
  {
    assert PathProblem(p.path, 2).None? && PathProblem(p.path, 1).None?;
    assert !ContainsControl("hooks");
    EventsNamed(p.event);
  }

  lemma EventsNamed(event: string)
    requires event in EVENTS
    ensures event != ""
  {
    EventsDistinct();
    assert |EVENTS[0]| == 4 && |EVENTS[1]| == 11 && |EVENTS[2]| == 17;
  }

  lemma DigitsAreGood(s: string)
    requires SemVer.AllDigits(s)
    ensures !ContainsControl(s)
  {
    assert forall i :: 0 <= i < |s| ==> '0' <= s[i] <= '9';
  }

  lemma ExpectedIsGood(source: string, v: Invocation, i: nat)
    requires i < |EVENTS| && source != "" && InvocationProblem(v).None?
    ensures PlaceProblem(ExpectedEntry(source, v, i).place).None? && PlaceProblem(DesiredAt(source, v, EVENTS[i])).None?
  {
    DigitsAreGood(SemVer.Decimal(i));
    GoodPath(ExpectedEntry(source, v, i).place);
    assert !ContainsControl("append");
    GoodPath(DesiredAt(source, v, EVENTS[i]));
  }

  /** The receipt proves a well-formed command, or none. */
  ghost predicate ReceiptOk(receipt: Option<string>) {
    receipt.Some? && ShellInvocation(receipt.value).Some? ==> InvocationProblem(ShellInvocation(receipt.value).value).None?
  }

  lemma OwnedIsGood(desired: seq<Desired>, source: string, v: Invocation, w: Invocation, proof: string)
    requires desired == DesiredFor(source, v) && ValidProof(proof)
    ensures forall i :: 0 <= i < |EVENTS| ==> (GoodOwned(desired, OwnedFor(w, proof)[i]) <==> InvocationProblem(w).None?)
  {
    forall i | 0 <= i < |EVENTS| ensures GoodOwned(desired, OwnedFor(w, proof)[i]) <==> InvocationProblem(w).None? {
      assert KeyOf(desired[i]) == TargetKey(ADAPTER, EVENTS[i]);
    }
  }

  lemma DesiredIsGood(source: string, v: Invocation)
    requires source != "" && InvocationProblem(v).None?
    ensures DistinctTargets(DesiredFor(source, v)) && forall i :: 0 <= i < |EVENTS| ==> PlaceProblem(DesiredFor(source, v)[i]).None?
  {
    var desired := DesiredFor(source, v);
    forall i | 0 <= i < |EVENTS| ensures PlaceProblem(desired[i]).None? {
      ExpectedIsGood(source, v, i);
    }
    forall i, j | 0 <= i < j < |desired| ensures KeyOf(desired[i]) != KeyOf(desired[j]) {
      EventsApart(i, j);
    }
  }

  lemma EntriesAreGood(source: string, v: Invocation)
    ensures forall i :: 0 <= i < |EVENTS| ==> GoodEntry(ExpectedEntries(source, v, |EVENTS|)[i])
  {
    forall i | 0 <= i < |EVENTS| ensures GoodEntry(ExpectedEntries(source, v, |EVENTS|)[i]) {
      EventsNamed(EVENTS[i]);
    }
  }

  /** The audit takes the request of an installed file exactly when the receipt's command, if any, is well formed. */
  lemma AcceptedIff(source: string, v: Invocation, receipt: Option<string>)
    requires source != "" && InvocationProblem(v).None?
    ensures Accepts(ExpectedRequest(source, v, receipt)) <==> ReceiptOk(receipt)
  {
    var r := ExpectedRequest(source, v, receipt);
    EventsDistinct();
    DesiredIsGood(source, v);
    EntriesAreGood(source, v);
    OwnedIsGood(r.desired, source, v, v, "managed-region");
    AllGood(r.desired, OwnedFor(v, "managed-region"), ReceiptOwned(receipt));
    if receipt.Some? && ShellInvocation(receipt.value).Some? {
      OwnedIsGood(r.desired, source, v, ShellInvocation(receipt.value).value, "receipt");
      assert ReceiptOwned(receipt)[0] == Owned(ADAPTER, EVENTS[0], ShellInvocation(receipt.value).value, "receipt");
    }
  }

  lemma AllGood(desired: seq<Desired>, a: seq<Owned>, b: seq<Owned>)
    requires forall i :: 0 <= i < |a| ==> GoodOwned(desired, a[i])
    ensures (forall i :: 0 <= i < |a + b| ==> GoodOwned(desired, (a + b)[i])) <==> forall i :: 0 <= i < |b| ==> GoodOwned(desired, b[i])
  {
    var whole := a + b;
    if forall i :: 0 <= i < |whole| ==> GoodOwned(desired, whole[i]) {
      forall i | 0 <= i < |b| ensures GoodOwned(desired, b[i]) {
        assert b[i] == whole[|a| + i];
      }
    }
  }

  // ---------------------------------------------------------------- the report of an installed file

  lemma {:induction false} ExpectedCount(source: string, v: Invocation, n: nat, i: nat, e: Entry)
    requires i < |EVENTS| && n <= |EVENTS| && KeyOf(e.place) == TargetKey(ADAPTER, EVENTS[i])
    ensures multiset(ExpectedEntries(source, v, n))[e] == if i < n && e == ExpectedEntry(source, v, i) then 1 else 0
    decreases n
  {
    if n > 0 {
      ExpectedCount(source, v, n - 1, i, e);
      EventsApart(n - 1, i);
    }
  }

  /** A target of an installed file has its one entry. */
  lemma OneEntry(source: string, v: Invocation, receipt: Option<string>, s: Request, i: nat)
    requires i < |EVENTS| && IsNormal(ExpectedRequest(source, v, receipt), s)
    ensures TargetEntries(s, DesiredAt(source, v, EVENTS[i])) == [ExpectedEntry(source, v, i)]
  {
    var r, t, only := ExpectedRequest(source, v, receipt), DesiredAt(source, v, EVENTS[i]), ExpectedEntry(source, v, i);
    assert t == r.desired[i];
    var found := TargetEntries(s, t);
    forall e ensures multiset(found)[e] == multiset([only])[e] {
      NormalCount(r, s, t, e);
      if KeyOf(e.place) == KeyOf(t) {
        ExpectedCount(source, v, |EVENTS|, i, e);
      }
    }
    SameCounts(found, [only]);
    IsSingle(found, only);
  }

  lemma IsSingle(found: seq<Entry>, only: Entry)
    requires multiset(found) == multiset([only])
    ensures found == [only]
  {
    assert |multiset(found)| == |found| && |multiset([only])| == 1;
    assert found[0] in multiset([only]);
  }

  lemma SingleIsCurrent(t: Desired, owned: seq<Owned>, e: Entry)
    requires e.unsafeReason == "" && PlaceProblem(e.place).None? && e.place.invocation == t.invocation
    ensures IsTheCurrent(t, owned, [e], 0) && ReportTarget(t, owned, [e]).actions == [] && !Blocked([e], 1)
  {
    assert Safe([e], 0);
    CurrentStays(t, owned, [e], 0);
  }

  lemma TargetIsClean(source: string, v: Invocation, receipt: Option<string>, s: Request, i: nat)
    requires i < |EVENTS| && IsNormal(ExpectedRequest(source, v, receipt), s) && source != "" && InvocationProblem(v).None?
    ensures var t := DesiredAt(source, v, EVENTS[i]);
      HasOneCurrent(s, t) && PartOf(s, t).actions == [] && !PartOf(s, t).blocked
  {
    var t := DesiredAt(source, v, EVENTS[i]);
    OneEntry(source, v, receipt, s, i);
    ExpectedIsGood(source, v, i);
    SingleIsCurrent(t, TargetOwned(s, t), ExpectedEntry(source, v, i));
  }

  /** Every event is installed once, and there is nothing to do. */
  ghost predicate CleanReport(s: Request, rep: Report, source: string, v: Invocation) {
    && (forall i :: 0 <= i < |EVENTS| ==> HasOneCurrent(s, DesiredAt(source, v, EVENTS[i])))
    && rep.actions == [] && !rep.blocked
  }

  lemma PartIsClean(source: string, v: Invocation, receipt: Option<string>, s: Request, k: nat)
    requires source != "" && InvocationProblem(v).None? && IsNormal(ExpectedRequest(source, v, receipt), s) && k < |s.desired|
    ensures PartOf(s, s.desired[k]).actions == [] && !PartOf(s, s.desired[k]).blocked
  {
    var r := ExpectedRequest(source, v, receipt);
    assert s.desired[k] in multiset(r.desired);
    var i :| 0 <= i < |r.desired| && r.desired[i] == s.desired[k];
    TargetIsClean(source, v, receipt, s, i);
  }

  lemma ExpectedIsClean(source: string, v: Invocation, receipt: Option<string>, s: Request, rep: Report)
    requires source != "" && InvocationProblem(v).None?
    requires IsNormal(ExpectedRequest(source, v, receipt), s) && IsReport(s, rep)
    ensures CleanReport(s, rep, source, v)
  {
    var parts := PartsOf(s);
    forall i | 0 <= i < |EVENTS| ensures HasOneCurrent(s, DesiredAt(source, v, EVENTS[i])) {
      TargetIsClean(source, v, receipt, s, i);
    }
    forall k | 0 <= k < |parts| ensures parts[k].actions == [] && !parts[k].blocked {
      PartIsClean(source, v, receipt, s, k);
    }
    NoActions(parts, |parts|);
    assert multiset(rep.actions) == multiset{};
    assert |rep.actions| == |multiset(rep.actions)|;
  }

  lemma RequestByParts(source: string, v: Invocation, content: string, receipt: Option<string>, region: Search, blocks: seq<Block>)
    requires !HasConflict(content) && FindRegion(content) == region && !region.Malformed? && ParseBlocks(content) == Some(blocks)
    ensures RequestOf(source, v, content, receipt) == RequestFrom(source, v, region, blocks, receipt)
  {
  }

  /** The request of an installed file; the audit refuses the file exactly when the bridge path is not valid UTF-8. */
  lemma InstalledRequest(content: string, core: string, bridge: string, generation: nat, v: HookInvocation, command: string, e: Edit,
      source: string, receipt: Option<string>)
    requires FindRegion(content).Absent? && NoTable(Items(Lines.LinesOf(content)))
    requires bridge != "" && ResolveInvocation(core, bridge, generation) == Some(v)
    requires command == ShellWords.ShellCommand(v.executable, v.args, false) && Install(content, command) == Some(e)
    ensures RequestOf(source, ShellForm(v), e.content, receipt) ==
      if Utf8.Valid(bridge) then Some(ExpectedRequest(source, ShellForm(v), receipt)) else None
  {
    var blocks := KimiReadsBack(content, core, bridge, generation, v, command, e);
    var region := Found(|Terminated(content)|, |e.content|, Digest(command));
    RequestByParts(source, ShellForm(v), e.content, receipt, region, blocks);
    if Utf8.Valid(bridge) {
      ValidIsRead(v, command);
      RequestGiven(source, ShellForm(v), region, blocks, command, receipt);
    } else {
      RequestRefused(source, ShellForm(v), region, blocks, Utf8.Repaired(command), receipt);
    }
  }

  /**
   * Install the stable invocation into a file without [[hooks]] tables and audit it. The
   * audit takes the file if and only if the bridge path is valid UTF-8 and the receipt's
   * command, if any, is well formed; its report then has exactly one current hook for
   * each event and an empty plan.
   */
  lemma InstalledAuditsClean(content: string, core: string, bridge: string, generation: nat, v: HookInvocation, command: string, e: Edit,
      source: string, receipt: Option<string>)
    requires FindRegion(content).Absent? && NoTable(Items(Lines.LinesOf(content)))
    requires bridge != "" && ResolveInvocation(core, bridge, generation) == Some(v) && source != ""
    requires command == ShellWords.ShellCommand(v.executable, v.args, false) && Install(content, command) == Some(e)
    ensures var r := RequestOf(source, ShellForm(v), e.content, receipt);
      && (r.Some? <==> Utf8.Valid(bridge))
      && (r.Some? ==> (Accepts(r.value) <==> ReceiptOk(receipt)))
      && (r.Some? ==> forall s, rep :: IsNormal(r.value, s) && IsReport(s, rep) ==> CleanReport(s, rep, source, ShellForm(v)))
  {
    InstalledRequest(content, core, bridge, generation, v, command, e, source, receipt);
    StableIsGood(core, bridge, generation, v);
    AuditedClean(source, ShellForm(v), receipt);
  }

  lemma AuditedClean(source: string, v: Invocation, receipt: Option<string>)
    requires source != "" && InvocationProblem(v).None?
    ensures Accepts(ExpectedRequest(source, v, receipt)) <==> ReceiptOk(receipt)
    ensures forall s, rep :: IsNormal(ExpectedRequest(source, v, receipt), s) && IsReport(s, rep) ==> CleanReport(s, rep, source, v)
  {
    AcceptedIff(source, v, receipt);
    forall s, rep | IsNormal(ExpectedRequest(source, v, receipt), s) && IsReport(s, rep) ensures CleanReport(s, rep, source, v) {
      ExpectedIsClean(source, v, receipt, s, rep);
    }
  }

  lemma ValidIsRead(v: HookInvocation, command: string)
    requires v.args == HookArgs("hook-v1") && Utf8.Valid(v.executable)
    requires command == ShellWords.ShellCommand(v.executable, v.args, false)
    ensures Utf8.Repaired(command) == command && ShellInvocation(command) == Some(ShellForm(v))
  {
    VerbsAreWords();
    ArgsArePlain("hook-v1");
    CommandIsValid(v.executable, v.args);
    Utf8.RepairedIff(command);
    InvocationReadsBack(v.executable, v.args);
  }
}
