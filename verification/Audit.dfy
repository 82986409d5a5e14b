/**
 * The hook audit of one target (an adapter and an event): every parsed entry is
 * classified, and the plan brings the target to exactly one current hook.
 */
module HookAudit {
  import opened Common
  import opened Text

  const FORM_EXEC := "exec"
  const FORM_SHELL := "shell"

  datatype Invocation = Invocation(form: string, executable: string, args: seq<string>)

  /** Where an entry sits and what it runs. */
  datatype Place = Place(adapter: string, event: string, source: string, path: seq<string>, invocation: Invocation)

  datatype Entry = Entry(place: Place, unsafeReason: string)

  type Desired = Place

  datatype Owned = Owned(adapter: string, event: string, invocation: Invocation, proof: string)

  datatype Kind = Current | OwnedLegacy | OwnedDuplicate | External | Unsafe | Missing

  datatype Problem =
    | NoIdentity | NoSource | EmptyPath | BadComponent(at: nat)
    | BadForm | NotAbsolute | ExecutableControl | ArgumentControl(at: nat)

  datatype Reason = Stated(text: string) | Invalid(problem: Problem) | SharedLocator

  datatype Detail = NoDetail | Because(reason: Reason) | DuplicateOfCurrent | DuplicateOfLegacy | ReportOnly | ProvenBy(proof: string) | Absent

  datatype Finding = Finding(kind: Kind, place: Place, detail: Detail)

  datatype Operation = Add | Remove

  datatype Action = Action(operation: Operation, reason: Kind, place: Place)

  // ---------------------------------------------------------------- keys

  const UNIT := '\U{1F}'
  const RECORD := '\U{1E}'

  function TargetKey(adapter: string, event: string): string {
    adapter + ['\0'] + event
  }

  function KeyOf(p: Place): string {
    TargetKey(p.adapter, p.event)
  }

  function LocatorKey(p: Place): string {
    Join([p.adapter, p.event, p.source, Join(p.path, UNIT)], RECORD)
  }

  function InvocationKey(v: Invocation): string {
    Join([v.form, v.executable, Join(v.args, UNIT)], RECORD)
  }

  // ---------------------------------------------------------------- validation

  predicate ContainsControl(s: string) {
    '\0' in s || '\r' in s || '\n' in s
  }

  predicate IsLetter(c: char) {
    'A' <= c <= 'Z' || 'a' <= c <= 'z'
  }

  predicate AbsoluteCommand(s: string) {
    || (|s| >= 1 && s[0] == '/')
    || (|s| >= 2 && s[..2] == "\\\\")
    || (|s| >= 3 && IsLetter(s[0]) && s[1] == ':' && (s[2] == '\\' || s[2] == '/'))
  }

  function PathProblem(path: seq<string>, from: nat): Option<Problem>
    requires from <= |path|
    decreases |path| - from
  {
    if from == |path| then None
    else if path[from] == "" || ContainsControl(path[from]) then Some(BadComponent(from))
    else PathProblem(path, from + 1)
  }

  function ArgsProblem(args: seq<string>, from: nat): Option<Problem>
    requires from <= |args|
    decreases |args| - from
  {
    if from == |args| then None
    else if ContainsControl(args[from]) then Some(ArgumentControl(from))
    else ArgsProblem(args, from + 1)
  }

  function InvocationProblem(v: Invocation): Option<Problem> {
    if v.form != FORM_EXEC && v.form != FORM_SHELL then Some(BadForm)
    else if !AbsoluteCommand(v.executable) then Some(NotAbsolute)
    else if ContainsControl(v.executable) then Some(ExecutableControl)
    else ArgsProblem(v.args, 0)
  }

  function IdentityProblem(p: Place): Option<Problem> {
    if p.adapter == "" || p.event == "" then Some(NoIdentity)
    else if p.source == "" then Some(NoSource)
    else if p.path == [] then Some(EmptyPath)
    else PathProblem(p.path, 0)
  }

  function PlaceProblem(p: Place): Option<Problem> {
    if IdentityProblem(p).Some? then IdentityProblem(p) else InvocationProblem(p.invocation)
  }

  // ---------------------------------------------------------------- well-formed commands

  predicate Printable(s: string) {
    forall i :: 0 <= i < |s| ==> s[i] != '\0' && s[i] != '\r' && s[i] != '\n'
  }

  /** A slash, two backslashes, or a drive letter, a colon and a slash either way. */
  predicate Rooted(s: string) {
    || "/" <= s
    || "\\\\" <= s
    || (|s| >= 3 && ('A' <= s[0] <= 'Z' || 'a' <= s[0] <= 'z') && s[1] == ':' && s[2] in "\\/")
  }

  predicate WellFormed(v: Invocation) {
    && v.form in ["exec", "shell"]
    && Rooted(v.executable) && Printable(v.executable)
    && forall i :: 0 <= i < |v.args| ==> Printable(v.args[i])
  }

  predicate WellPlaced(p: Place) {
    && p.adapter != "" && p.event != "" && p.source != "" && |p.path| > 0
    && (forall i :: 0 <= i < |p.path| ==> |p.path[i]| > 0 && Printable(p.path[i]))
    && WellFormed(p.invocation)
  }

  lemma PrintableIff(s: string)
    ensures Printable(s) <==> !ContainsControl(s)
  {
    if !Printable(s) {
      var i :| 0 <= i < |s| && !(s[i] != '\0' && s[i] != '\r' && s[i] != '\n');
      assert s[i] in s;
    }
  }

  lemma RootedIff(s: string)
    ensures Rooted(s) <==> AbsoluteCommand(s)
  {
    if |s| >= 2 {
      assert "\\\\" <= s <==> s[..2] == "\\\\";
    }
  }

  lemma {:induction false} PathIff(path: seq<string>, from: nat)
    requires from <= |path|
    ensures PathProblem(path, from).None? <==> forall i :: from <= i < |path| ==> |path[i]| > 0 && Printable(path[i])
    decreases |path| - from
  {
    if from < |path| {
      PrintableIff(path[from]);
      PathIff(path, from + 1);
    }
  }

  lemma {:induction false} ArgsIff(args: seq<string>, from: nat)
    requires from <= |args|
    ensures ArgsProblem(args, from).None? <==> forall i :: from <= i < |args| ==> Printable(args[i])
    decreases |args| - from
  {
    if from < |args| {
      PrintableIff(args[from]);
      ArgsIff(args, from + 1);
    }
  }

  lemma WellFormedIff(v: Invocation)
    ensures InvocationProblem(v).None? <==> WellFormed(v)
  {
    RootedIff(v.executable);
    PrintableIff(v.executable);
    ArgsIff(v.args, 0);
  }

  /** The validation lets through exactly the well-placed entries. */
  lemma WellPlacedIff(p: Place)
    ensures PlaceProblem(p).None? <==> WellPlaced(p)
  {
    PathIff(p.path, 0);
    WellFormedIff(p.invocation);
  }

  // ---------------------------------------------------------------- classification, entry by entry

  /** Another entry of the target has the same locator. */
  ghost predicate Shared(entries: seq<Entry>, i: nat)
    requires i < |entries|
  {
    exists j :: 0 <= j < |entries| && j != i && LocatorKey(entries[j].place) == LocatorKey(entries[i].place)
  }

  ghost function UnsafeBecause(entries: seq<Entry>, i: nat): Option<Reason>
    requires i < |entries|
  {
    if Shared(entries, i) then Some(SharedLocator)
    else if entries[i].unsafeReason != "" then Some(Stated(entries[i].unsafeReason))
    else if PlaceProblem(entries[i].place).Some? then Some(Invalid(PlaceProblem(entries[i].place).value))
    else None
  }

  ghost predicate Safe(entries: seq<Entry>, i: nat)
    requires i < |entries|
  {
    UnsafeBecause(entries, i).None?
  }

  /** The first owned hook with this invocation. */
  function MatchOwned(v: Invocation, owned: seq<Owned>, from: nat): (k: nat)
    requires from <= |owned|
    ensures from <= k <= |owned|
    ensures k < |owned| ==> owned[k].invocation == v
    ensures forall i :: from <= i < k ==> owned[i].invocation != v
    decreases |owned| - from
  {
    if from == |owned| || owned[from].invocation == v then from else MatchOwned(v, owned, from + 1)
  }

  predicate IsOwned(v: Invocation, owned: seq<Owned>) {
    MatchOwned(v, owned, 0) < |owned|
  }

  predicate IsLegacy(t: Desired, owned: seq<Owned>, v: Invocation) {
    v != t.invocation && IsOwned(v, owned)
  }

  /** A safe entry before i is a copy of the current hook. */
  ghost predicate EarlierCurrent(t: Desired, entries: seq<Entry>, i: nat)
    requires i <= |entries|
  {
    exists j :: 0 <= j < i && Safe(entries, j) && entries[j].place.invocation == t.invocation
  }

  /** A safe legacy entry before i has the same invocation key. */
  ghost predicate EarlierLegacy(t: Desired, owned: seq<Owned>, entries: seq<Entry>, i: nat, key: string)
    requires i <= |entries|
  {
    exists j :: 0 <= j < i && Safe(entries, j) && IsLegacy(t, owned, entries[j].place.invocation) && InvocationKey(entries[j].place.invocation) == key
  }

  ghost function KindOf(t: Desired, owned: seq<Owned>, entries: seq<Entry>, i: nat): Kind
    requires i < |entries|
  {
    var v := entries[i].place.invocation;
    if !Safe(entries, i) then Unsafe
    else if v == t.invocation then if EarlierCurrent(t, entries, i) then OwnedDuplicate else Current
    else if !IsOwned(v, owned) then External
    else if EarlierLegacy(t, owned, entries, i, InvocationKey(v)) then OwnedDuplicate
    else OwnedLegacy
  }

  ghost function DetailOf(t: Desired, owned: seq<Owned>, entries: seq<Entry>, i: nat): Detail
    requires i < |entries|
  {
    match KindOf(t, owned, entries, i)
    case Unsafe => Because(UnsafeBecause(entries, i).value)
    case OwnedDuplicate => if entries[i].place.invocation == t.invocation then DuplicateOfCurrent else DuplicateOfLegacy
    case External => ReportOnly
    case OwnedLegacy => ProvenBy(owned[MatchOwned(entries[i].place.invocation, owned, 0)].proof)
    case _ => NoDetail
  }

  ghost function FindingOf(t: Desired, owned: seq<Owned>, entries: seq<Entry>, i: nat): Finding
    requires i < |entries|
  {
    Finding(KindOf(t, owned, entries, i), entries[i].place, DetailOf(t, owned, entries, i))
  }

  // ---------------------------------------------------------------- one target

  datatype TargetReport = TargetReport(findings: seq<Finding>, actions: seq<Action>, blocked: bool)

  ghost function FindingsOf(t: Desired, owned: seq<Owned>, entries: seq<Entry>): (fs: seq<Finding>)
    ensures |fs| == |entries| && forall i :: 0 <= i < |entries| ==> fs[i] == FindingOf(t, owned, entries, i)
  {
    seq(|entries|, i requires 0 <= i < |entries| => FindingOf(t, owned, entries, i))
  }

  predicate ToRemove(k: Kind) {
    k.OwnedLegacy? || k.OwnedDuplicate?
  }

  function RemovalOf(f: Finding): Action {
    Action(Remove, f.kind, f.place)
  }

  /** The removals planned for the first n findings. */
  function Removals(fs: seq<Finding>, n: nat): seq<Action>
    requires n <= |fs|
  {
    if n == 0 then []
    else if ToRemove(fs[n - 1].kind) then Removals(fs, n - 1) + [RemovalOf(fs[n - 1])]
    else Removals(fs, n - 1)
  }

  ghost predicate Blocked(entries: seq<Entry>, n: nat)
    requires n <= |entries|
  {
    exists j :: 0 <= j < n && !Safe(entries, j)
  }

  ghost predicate HasCurrent(t: Desired, entries: seq<Entry>) {
    EarlierCurrent(t, entries, |entries|)
  }

  /** The report on one target: a missing hook first, then the entries in order; a blocked target gets no actions. */
  ghost function ReportTarget(t: Desired, owned: seq<Owned>, entries: seq<Entry>): TargetReport {
    var found := FindingsOf(t, owned, entries);
    var has := HasCurrent(t, entries);
    var blocked := Blocked(entries, |entries|);
    TargetReport(
      if has then found else [Finding(Missing, t, Absent)] + found,
      if blocked then []
      else if has then Removals(found, |found|)
      else [Action(Add, Missing, t)] + Removals(found, |found|),
      blocked)
  }

  // ---------------------------------------------------------------- the loop

  function Increment(counts: map<string, nat>, key: string): (c: map<string, nat>)
    ensures key in c && c[key] == Count(counts, key) + 1
    ensures forall other :: other != key ==> Count(c, other) == Count(counts, other)
  {
    counts[key := Count(counts, key) + 1]
  }

  function Count(counts: map<string, nat>, key: string): nat {
    if key in counts then counts[key] else 0
  }

  /** duplicateLocators: the locators that occur more than once. */
  method DuplicateLocators(entries: seq<Entry>) returns (duplicated: set<string>)
    ensures forall i :: 0 <= i < |entries| ==> (LocatorKey(entries[i].place) in duplicated <==> Shared(entries, i))
  {
    var seen: set<string> := {};
    duplicated := {};
    for i := 0 to |entries|
      invariant forall k :: k in seen <==> exists j :: 0 <= j < i && LocatorKey(entries[j].place) == k
      invariant forall k :: k in duplicated <==> exists j, m :: 0 <= j < m < i && LocatorKey(entries[j].place) == k && LocatorKey(entries[m].place) == k
    {
      var key := LocatorKey(entries[i].place);
      if key in seen {
        duplicated := duplicated + {key};
      }
      seen := seen + {key};
    }
    forall i | 0 <= i < |entries| ensures LocatorKey(entries[i].place) in duplicated <==> Shared(entries, i) {
      if j :| 0 <= j < |entries| && j != i && LocatorKey(entries[j].place) == LocatorKey(entries[i].place) {
        var a, b := if i < j then i else j, if i < j then j else i;
        assert LocatorKey(entries[a].place) == LocatorKey(entries[b].place);
      }
    }
  }

  lemma EarlierNext(t: Desired, owned: seq<Owned>, entries: seq<Entry>, i: nat)
    requires i < |entries|
    ensures EarlierCurrent(t, entries, i + 1) <==> EarlierCurrent(t, entries, i) || (Safe(entries, i) && entries[i].place.invocation == t.invocation)
    ensures Blocked(entries, i + 1) <==> Blocked(entries, i) || !Safe(entries, i)
  {
  }

  lemma LegacyNext(t: Desired, owned: seq<Owned>, entries: seq<Entry>, i: nat, key: string)
    requires i < |entries|
    ensures EarlierLegacy(t, owned, entries, i + 1, key) <==>
      || EarlierLegacy(t, owned, entries, i, key)
      || (Safe(entries, i) && IsLegacy(t, owned, entries[i].place.invocation) && InvocationKey(entries[i].place.invocation) == key)
  {
  }

  /** The counts say which legacy invocations came before. */
  ghost predicate CountsOk(t: Desired, owned: seq<Owned>, entries: seq<Entry>, i: nat, counts: map<string, nat>)
    requires i <= |entries|
  {
    forall key :: Count(counts, key) > 0 <==> EarlierLegacy(t, owned, entries, i, key)
  }

  lemma CountsKept(t: Desired, owned: seq<Owned>, entries: seq<Entry>, i: nat, counts: map<string, nat>)
    requires i < |entries| && CountsOk(t, owned, entries, i, counts)
    requires !(Safe(entries, i) && IsLegacy(t, owned, entries[i].place.invocation))
    ensures CountsOk(t, owned, entries, i + 1, counts)
  {
    forall key ensures Count(counts, key) > 0 <==> EarlierLegacy(t, owned, entries, i + 1, key) {
      LegacyNext(t, owned, entries, i, key);
    }
  }

  lemma CountsNext(t: Desired, owned: seq<Owned>, entries: seq<Entry>, i: nat, counts: map<string, nat>)
    requires i < |entries| && CountsOk(t, owned, entries, i, counts)
    requires Safe(entries, i) && IsLegacy(t, owned, entries[i].place.invocation)
    ensures CountsOk(t, owned, entries, i + 1, Increment(counts, InvocationKey(entries[i].place.invocation)))
  {
    var mine := InvocationKey(entries[i].place.invocation);
    var c := Increment(counts, mine);
    forall key ensures Count(c, key) > 0 <==> EarlierLegacy(t, owned, entries, i + 1, key) {
      LegacyNext(t, owned, entries, i, key);
    }
  }

  method UnsafeReasonOf(entries: seq<Entry>, i: nat, duplicated: set<string>) returns (r: Option<Reason>)
    requires i < |entries| && (LocatorKey(entries[i].place) in duplicated <==> Shared(entries, i))
    ensures r == UnsafeBecause(entries, i)
  {
    var entry := entries[i];
    r := if entry.unsafeReason != "" then Some(Stated(entry.unsafeReason)) else None;
    if r.None? {
      var problem := PlaceProblem(entry.place);
      if problem.Some? {
        r := Some(Invalid(problem.value));
      }
    }
    if LocatorKey(entry.place) in duplicated {
      r := Some(SharedLocator);
    }
  }

  /** One entry: its finding, and the running counts. */
  method Classify(t: Desired, owned: seq<Owned>, entries: seq<Entry>, i: nat, why: Option<Reason>, currents: nat, counts: map<string, nat>)
    returns (f: Finding, currents': nat, counts': map<string, nat>)
    requires i < |entries| && why == UnsafeBecause(entries, i)
    requires currents > 0 <==> EarlierCurrent(t, entries, i)
    requires CountsOk(t, owned, entries, i, counts)
    ensures f == FindingOf(t, owned, entries, i)
    ensures f.kind.Unsafe? <==> !WellPlaced(entries[i].place) || entries[i].unsafeReason != "" || Shared(entries, i)
    ensures currents' > 0 <==> EarlierCurrent(t, entries, i + 1)
    ensures CountsOk(t, owned, entries, i + 1, counts')
  {
    EarlierNext(t, owned, entries, i);
    WellPlacedIff(entries[i].place);
    currents', counts' := currents, counts;
    var place := entries[i].place;
    if why.Some? {
      CountsKept(t, owned, entries, i, counts);
      return Finding(Unsafe, place, Because(why.value)), currents', counts';
    }
    if place.invocation == t.invocation {
      CountsKept(t, owned, entries, i, counts);
      currents' := currents + 1;
      f := if currents' == 1 then Finding(Current, place, NoDetail) else Finding(OwnedDuplicate, place, DuplicateOfCurrent);
      return;
    }
    var k := MatchOwned(place.invocation, owned, 0);
    if k == |owned| {
      CountsKept(t, owned, entries, i, counts);
      return Finding(External, place, ReportOnly), currents', counts';
    }
    CountsNext(t, owned, entries, i, counts);
    var key := InvocationKey(owned[k].invocation);
    counts' := Increment(counts, key);
    f := if counts'[key] > 1 then Finding(OwnedDuplicate, place, DuplicateOfLegacy)
         else Finding(OwnedLegacy, place, ProvenBy(owned[k].proof));
  }

  /** The findings and planned removals of the first i entries. */
  ghost predicate Progress(t: Desired, owned: seq<Owned>, entries: seq<Entry>, i: nat, classified: seq<Finding>, removals: seq<Action>, blocked: bool)
    requires i <= |entries|
  {
    && |classified| == i
    && (forall j :: 0 <= j < i ==> classified[j] == FindingOf(t, owned, entries, j))
    && removals == Removals(classified, i)
    && (blocked <==> Blocked(entries, i))
  }

  lemma ProgressNext(t: Desired, owned: seq<Owned>, entries: seq<Entry>, i: nat, classified: seq<Finding>, removals: seq<Action>, blocked: bool, f: Finding)
    requires i < |entries| && Progress(t, owned, entries, i, classified, removals, blocked) && f == FindingOf(t, owned, entries, i)
    ensures Progress(t, owned, entries, i + 1, classified + [f],
      if ToRemove(f.kind) then removals + [Action(Remove, f.kind, f.place)] else removals,
      blocked || f.kind.Unsafe?)
  {
    EarlierNext(t, owned, entries, i);
    RemovalsPrefix(classified, classified + [f], i);
  }

  lemma {:induction false} RemovalsPrefix(fs: seq<Finding>, gs: seq<Finding>, n: nat)
    requires n <= |fs| && n <= |gs| && forall i :: 0 <= i < n ==> fs[i] == gs[i]
    ensures Removals(fs, n) == Removals(gs, n)
    decreases n
  {
    if n > 0 {
      RemovalsPrefix(fs, gs, n - 1);
    }
  }

  method ClassifyAll(t: Desired, owned: seq<Owned>, entries: seq<Entry>)
    returns (classified: seq<Finding>, removals: seq<Action>, blocked: bool, currents: nat)
    ensures Progress(t, owned, entries, |entries|, classified, removals, blocked)
    ensures currents > 0 <==> HasCurrent(t, entries)
  {
    var duplicated := DuplicateLocators(entries);
    var counts: map<string, nat> := map[];
    classified, removals, blocked, currents := [], [], false, 0;
    var i := 0;
    while i < |entries|
      invariant 0 <= i <= |entries|
      invariant currents > 0 <==> EarlierCurrent(t, entries, i)
      invariant CountsOk(t, owned, entries, i, counts)
      invariant Progress(t, owned, entries, i, classified, removals, blocked)
    {
      var why := UnsafeReasonOf(entries, i, duplicated);
      var f;
      f, currents, counts := Classify(t, owned, entries, i, why, currents, counts);
      ProgressNext(t, owned, entries, i, classified, removals, blocked, f);
      i := i + 1;
      classified := classified + [f];
      removals := if ToRemove(f.kind) then removals + [Action(Remove, f.kind, f.place)] else removals;
      blocked := blocked || f.kind.Unsafe?;
    }
  }

  /** The body of the audit for one target. */
  method AuditTarget(t: Desired, owned: seq<Owned>, entries: seq<Entry>) returns (r: TargetReport)
    ensures r == ReportTarget(t, owned, entries)
  {
    var findings, actions, blocked, currents := ClassifyAll(t, owned, entries);
    assert findings == FindingsOf(t, owned, entries);
    if currents == 0 {
      findings := [Finding(Missing, t, Absent)] + findings;
      actions := [Action(Add, Missing, t)] + actions;
    }
    r := TargetReport(findings, if blocked then [] else actions, blocked);
  }

  // ---------------------------------------------------------------- what a target's report says

  /** A removal is planned for exactly the legacy and duplicate findings. */
  lemma {:induction false} RemovalsAre(fs: seq<Finding>, n: nat, a: Action)
    requires n <= |fs|
    ensures a in Removals(fs, n) <==> exists i :: 0 <= i < n && ToRemove(fs[i].kind) && a == RemovalOf(fs[i])
    decreases n
  {
    if n > 0 {
      RemovalsAre(fs, n - 1, a);
    }
  }

  lemma {:induction false} NoRemovals(fs: seq<Finding>, n: nat)
    requires n <= |fs| && forall i :: 0 <= i < n ==> !ToRemove(fs[i].kind)
    ensures Removals(fs, n) == []
    decreases n
  {
    if n > 0 {
      NoRemovals(fs, n - 1);
    }
  }

  /** The entry's finding calls for its removal, and the action names it. */
  ghost predicate PlannedFor(t: Desired, owned: seq<Owned>, entries: seq<Entry>, i: nat, a: Action)
    requires i < |entries|
  {
    ToRemove(KindOf(t, owned, entries, i)) && a == Action(Remove, KindOf(t, owned, entries, i), entries[i].place)
  }

  /**
   * Every action of a target: the target is not blocked; an Add means no entry is current;
   * a Remove names a legacy or duplicate entry, and no other entry shares its locator, so
   * an external or unsafe entry is never named.
   */
  lemma ActionsAreSafe(t: Desired, owned: seq<Owned>, entries: seq<Entry>, a: Action)
    requires a in ReportTarget(t, owned, entries).actions
    ensures !ReportTarget(t, owned, entries).blocked
    ensures a.operation.Add? ==> a == Action(Add, Missing, t) && !HasCurrent(t, entries)
    ensures a.operation.Remove? ==> exists i :: 0 <= i < |entries| && PlannedFor(t, owned, entries, i, a) && OnlyAt(entries, i)
  {
    var fs := FindingsOf(t, owned, entries);
    RemovalsAre(fs, |fs|, a);
    if a.operation.Remove? {
      var i :| 0 <= i < |fs| && ToRemove(fs[i].kind) && a == RemovalOf(fs[i]);
      assert PlannedFor(t, owned, entries, i, a);
      assert Safe(entries, i);
      assert OnlyAt(entries, i);
    }
  }

  ghost predicate OnlyAt(entries: seq<Entry>, i: nat)
    requires i < |entries|
  {
    forall j :: 0 <= j < |entries| && LocatorKey(entries[j].place) == LocatorKey(entries[i].place) ==> j == i
  }

  // ---------------------------------------------------------------- one current hook

  ghost predicate IsTheCurrent(t: Desired, owned: seq<Owned>, entries: seq<Entry>, i: nat)
    requires i < |entries|
  {
    && KindOf(t, owned, entries, i).Current?
    && forall j :: 0 <= j < |entries| && j != i ==> KindOf(t, owned, entries, j).External?
  }

  lemma CurrentStays(t: Desired, owned: seq<Owned>, later: seq<Entry>, i: nat)
    requires i < |later| && !Blocked(later, |later|) && later[i].place.invocation == t.invocation
    requires forall j :: 0 <= j < |later| && j != i ==> KindOf(t, owned, later, j).External?
    ensures IsTheCurrent(t, owned, later, i) && HasCurrent(t, later)
    ensures ReportTarget(t, owned, later).actions == []
  {
    assert Safe(later, i);
    forall j | 0 <= j < i ensures later[j].place.invocation != t.invocation {
      assert KindOf(t, owned, later, j).External?;
    }
    NoRemovals(FindingsOf(t, owned, later), |later|);
  }
}
