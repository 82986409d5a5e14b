/** The audit of a whole request: validation, normal order, and the report over all targets. */
module AuditReports {
  import opened Common
  import opened Text
  import opened Sorting
  import opened HookAudit

  datatype Request = Request(desired: seq<Desired>, owned: seq<Owned>, entries: seq<Entry>)

  datatype Summary = Summary(current: nat, legacy: nat, duplicate: nat, external: nat, unsafe: nat, missing: nat)

  datatype Report = Report(summary: Summary, findings: seq<Finding>, blocked: bool, actions: seq<Action>)

  // ---------------------------------------------------------------- sort keys

  function DesiredKey(p: Desired): string {
    Join([p.adapter, p.event, p.source, Join(p.path, UNIT), InvocationKey(p.invocation)], RECORD)
  }

  function EntryKey(e: Entry): string {
    var p := e.place;
    Join([p.adapter, p.event, p.source, Join(p.path, UNIT), InvocationKey(p.invocation), e.unsafeReason], RECORD)
  }

  function OwnedKey(o: Owned): string {
    Join([o.adapter, o.event, InvocationKey(o.invocation), o.proof], RECORD)
  }

  function OperationName(o: Operation): string {
    match o
    case Add => "add"
    case Remove => "remove"
  }

  function ActionKey(a: Action): string {
    var p := a.place;
    Join([p.adapter, p.event, OperationName(a.operation), p.source, Join(p.path, UNIT), InvocationKey(p.invocation)], RECORD)
  }

  // ---------------------------------------------------------------- requests

  predicate ValidProof(proof: string) {
    proof == "receipt" || proof == "managed-receipt" || proof == "managed-region"
  }

  ghost predicate Wanted(desired: seq<Desired>, key: string) {
    exists i :: 0 <= i < |desired| && KeyOf(desired[i]) == key
  }

  predicate GoodEntry(e: Entry) {
    e.place.adapter != "" && e.place.event != ""
  }

  ghost predicate GoodOwned(desired: seq<Desired>, o: Owned) {
    ValidProof(o.proof) && Wanted(desired, TargetKey(o.adapter, o.event)) && InvocationProblem(o.invocation).None?
  }

  ghost predicate DistinctTargets(desired: seq<Desired>) {
    forall i, j :: 0 <= i < j < |desired| ==> KeyOf(desired[i]) != KeyOf(desired[j])
  }

  ghost predicate Accepts(r: Request) {
    && r.desired != []
    && (forall i :: 0 <= i < |r.desired| ==> PlaceProblem(r.desired[i]).None?)
    && DistinctTargets(r.desired)
    && (forall i :: 0 <= i < |r.owned| ==> GoodOwned(r.desired, r.owned[i]))
    && (forall i :: 0 <= i < |r.entries| ==> GoodEntry(r.entries[i]))
  }

  ghost predicate GoodRequest(r: Request) {
    && |r.desired| > 0
    && (forall i :: 0 <= i < |r.desired| ==> WellPlaced(r.desired[i]))
    && (forall i, j :: 0 <= i < j < |r.desired| ==> KeyOf(r.desired[i]) != KeyOf(r.desired[j]))
    && (forall i :: 0 <= i < |r.owned| ==> OwnedFine(r, i))
    && (forall i :: 0 <= i < |r.entries| ==> r.entries[i].place.adapter != "" && r.entries[i].place.event != "")
  }

  /** A known proof, a well-formed command, and a target that some desired hook has. */
  ghost predicate OwnedFine(r: Request, i: nat)
    requires i < |r.owned|
  {
    && r.owned[i].proof in ["receipt", "managed-receipt", "managed-region"]
    && WellFormed(r.owned[i].invocation)
    && exists k :: 0 <= k < |r.desired| && KeyOf(r.desired[k]) == TargetKey(r.owned[i].adapter, r.owned[i].event)
  }

  /** The audit answers exactly the good requests. */
  lemma AcceptsIff(r: Request)
    ensures Accepts(r) <==> GoodRequest(r)
  {
    forall i | 0 <= i < |r.desired| ensures PlaceProblem(r.desired[i]).None? <==> WellPlaced(r.desired[i]) {
      WellPlacedIff(r.desired[i]);
    }
    forall i | 0 <= i < |r.owned| ensures GoodOwned(r.desired, r.owned[i]) <==> OwnedFine(r, i) {
      WellFormedIff(r.owned[i].invocation);
    }
  }

  /** The entries of desired targets among the first n. */
  ghost function Relevant(desired: seq<Desired>, entries: seq<Entry>, n: nat): seq<Entry>
    requires n <= |entries|
  {
    if n == 0 then []
    else if Wanted(desired, KeyOf(entries[n - 1].place)) then Relevant(desired, entries, n - 1) + [entries[n - 1]]
    else Relevant(desired, entries, n - 1)
  }

  /** The request in normal order. */
  ghost predicate IsNormal(r: Request, s: Request) {
    && IsSorting(r.desired, s.desired, DesiredKey)
    && IsSorting(r.owned, s.owned, OwnedKey)
    && IsSorting(Relevant(r.desired, r.entries, |r.entries|), s.entries, EntryKey)
  }

  // ---------------------------------------------------------------- the parts of a report

  function OwnedAt(owned: seq<Owned>, key: string, n: nat): seq<Owned>
    requires n <= |owned|
  {
    if n == 0 then []
    else if TargetKey(owned[n - 1].adapter, owned[n - 1].event) == key then OwnedAt(owned, key, n - 1) + [owned[n - 1]]
    else OwnedAt(owned, key, n - 1)
  }

  function EntriesAt(entries: seq<Entry>, key: string, n: nat): seq<Entry>
    requires n <= |entries|
  {
    if n == 0 then []
    else if KeyOf(entries[n - 1].place) == key then EntriesAt(entries, key, n - 1) + [entries[n - 1]]
    else EntriesAt(entries, key, n - 1)
  }

  /** The report of one target of a normalized request. */
  ghost function PartOf(s: Request, t: Desired): TargetReport {
    ReportTarget(t, OwnedAt(s.owned, KeyOf(t), |s.owned|), EntriesAt(s.entries, KeyOf(t), |s.entries|))
  }

  ghost function PartsOf(s: Request): (parts: seq<TargetReport>)
    ensures |parts| == |s.desired| && forall k :: 0 <= k < |parts| ==> parts[k] == PartOf(s, s.desired[k])
  {
    seq(|s.desired|, k requires 0 <= k < |s.desired| => PartOf(s, s.desired[k]))
  }

  function FindingsIn(parts: seq<TargetReport>, n: nat): seq<Finding>
    requires n <= |parts|
  {
    if n == 0 then [] else FindingsIn(parts, n - 1) + parts[n - 1].findings
  }

  function ActionsIn(parts: seq<TargetReport>, n: nat): seq<Action>
    requires n <= |parts|
  {
    if n == 0 then [] else ActionsIn(parts, n - 1) + parts[n - 1].actions
  }

  ghost predicate BlockedIn(parts: seq<TargetReport>, n: nat)
    requires n <= |parts|
  {
    exists k :: 0 <= k < n && parts[k].blocked
  }

  function Tally(fs: seq<Finding>, k: Kind, n: nat): nat
    requires n <= |fs|
  {
    if n == 0 then 0 else Tally(fs, k, n - 1) + if fs[n - 1].kind == k then 1 else 0
  }

  function SummaryOf(fs: seq<Finding>, n: nat): Summary
    requires n <= |fs|
  {
    Summary(Tally(fs, Current, n), Tally(fs, OwnedLegacy, n), Tally(fs, OwnedDuplicate, n),
            Tally(fs, External, n), Tally(fs, Unsafe, n), Tally(fs, Missing, n))
  }

  /** The parts put together; the actions come out in some sorted order. */
  ghost predicate IsReportOf(parts: seq<TargetReport>, r: Report) {
    && r.findings == FindingsIn(parts, |parts|)
    && r.summary == SummaryOf(r.findings, |r.findings|)
    && (r.blocked <==> BlockedIn(parts, |parts|))
    && IsSorting(ActionsIn(parts, |parts|), r.actions, ActionKey)
  }

  /** The report on a normalized request. */
  ghost predicate IsReport(s: Request, r: Report) {
    IsReportOf(PartsOf(s), r)
  }

  // ---------------------------------------------------------------- the audit

  method CheckDesired(desired: seq<Desired>) returns (ok: bool, targets: set<string>)
    ensures ok <==> (forall i :: 0 <= i < |desired| ==> PlaceProblem(desired[i]).None?) && DistinctTargets(desired)
    ensures ok ==> forall key :: key in targets <==> Wanted(desired, key)
  {
    targets := {};
    for i := 0 to |desired|
      invariant forall j :: 0 <= j < i ==> PlaceProblem(desired[j]).None? && KeyOf(desired[j]) in targets
      invariant forall key :: key in targets ==> exists j :: 0 <= j < i && KeyOf(desired[j]) == key
      invariant forall j, k :: 0 <= j < k < i ==> KeyOf(desired[j]) != KeyOf(desired[k])
    {
      if PlaceProblem(desired[i]).Some? || KeyOf(desired[i]) in targets {
        return false, targets;
      }
      targets := targets + {KeyOf(desired[i])};
    }
    return true, targets;
  }

  method CheckOwned(desired: seq<Desired>, targets: set<string>, owned: seq<Owned>) returns (ok: bool)
    requires forall key :: key in targets <==> Wanted(desired, key)
    ensures ok <==> forall i :: 0 <= i < |owned| ==> GoodOwned(desired, owned[i])
  {
    for i := 0 to |owned|
      invariant forall j :: 0 <= j < i ==> GoodOwned(desired, owned[j])
    {
      var o := owned[i];
      if !ValidProof(o.proof) || TargetKey(o.adapter, o.event) !in targets || InvocationProblem(o.invocation).Some? {
        return false;
      }
    }
    return true;
  }

  method FilterEntries(desired: seq<Desired>, targets: set<string>, entries: seq<Entry>) returns (kept: Option<seq<Entry>>)
    requires forall key :: key in targets <==> Wanted(desired, key)
    ensures kept.Some? <==> forall i :: 0 <= i < |entries| ==> GoodEntry(entries[i])
    ensures kept.Some? ==> kept.value == Relevant(desired, entries, |entries|)
  {
    var result: seq<Entry> := [];
    for i := 0 to |entries|
      invariant forall j :: 0 <= j < i ==> GoodEntry(entries[j])
      invariant result == Relevant(desired, entries, i)
    {
      if !GoodEntry(entries[i]) {
        return None;
      }
      if KeyOf(entries[i].place) in targets {
        result := result + [entries[i]];
      }
    }
    return Some(result);
  }

  method Normalize(r: Request) returns (s: Option<Request>)
    ensures s.Some? <==> Accepts(r)
    ensures s.Some? <==> GoodRequest(r)
    ensures s.Some? ==> IsNormal(r, s.value)
  {
    AcceptsIff(r);
    if r.desired == [] {
      return None;
    }
    var ok, targets := CheckDesired(r.desired);
    if !ok {
      return None;
    }
    ok := CheckOwned(r.desired, targets, r.owned);
    if !ok {
      return None;
    }
    var entries := FilterEntries(r.desired, targets, r.entries);
    if entries.None? {
      return None;
    }
    var d := Sort(r.desired, DesiredKey);
    var o := Sort(r.owned, OwnedKey);
    var e := Sort(entries.value, EntryKey);
    return Some(Request(d, o, e));
  }

  /** The entries of each target, in order. */
  method GroupEntries(entries: seq<Entry>) returns (groups: map<string, seq<Entry>>)
    ensures forall key :: EntriesAt(entries, key, |entries|) == if key in groups then groups[key] else []
  {
    groups := map[];
    for i := 0 to |entries|
      invariant forall key :: EntriesAt(entries, key, i) == if key in groups then groups[key] else []
    {
      var key := KeyOf(entries[i].place);
      groups := groups[key := (if key in groups then groups[key] else []) + [entries[i]]];
    }
  }

  method GroupOwned(owned: seq<Owned>) returns (groups: map<string, seq<Owned>>)
    ensures forall key :: OwnedAt(owned, key, |owned|) == if key in groups then groups[key] else []
  {
    groups := map[];
    for i := 0 to |owned|
      invariant forall key :: OwnedAt(owned, key, i) == if key in groups then groups[key] else []
    {
      var key := TargetKey(owned[i].adapter, owned[i].event);
      groups := groups[key := (if key in groups then groups[key] else []) + [owned[i]]];
    }
  }

  method AuditParts(s: Request) returns (parts: seq<TargetReport>)
    ensures parts == PartsOf(s)
  {
    var entries := GroupEntries(s.entries);
    var owned := GroupOwned(s.owned);
    parts := [];
    for k := 0 to |s.desired|
      invariant |parts| == k && forall j :: 0 <= j < k ==> parts[j] == PartOf(s, s.desired[j])
    {
      var t := s.desired[k];
      var key := KeyOf(t);
      var part := AuditTarget(t, if key in owned then owned[key] else [], if key in entries then entries[key] else []);
      parts := parts + [part];
    }
  }

  method Summarize(fs: seq<Finding>) returns (s: Summary)
    ensures s == SummaryOf(fs, |fs|)
  {
    s := Summary(0, 0, 0, 0, 0, 0);
    for i := 0 to |fs|
      invariant s == SummaryOf(fs, i)
    {
      match fs[i].kind
      case Current => s := s.(current := s.current + 1);
      case OwnedLegacy => s := s.(legacy := s.legacy + 1);
      case OwnedDuplicate => s := s.(duplicate := s.duplicate + 1);
      case External => s := s.(external := s.external + 1);
      case Unsafe => s := s.(unsafe := s.unsafe + 1);
      case Missing => s := s.(missing := s.missing + 1);
    }
  }

  method Assemble(parts: seq<TargetReport>) returns (r: Report)
    ensures IsReportOf(parts, r)
  {
    var findings: seq<Finding>, actions: seq<Action>, blocked := [], [], false;
    for k := 0 to |parts|
      invariant findings == FindingsIn(parts, k) && actions == ActionsIn(parts, k)
      invariant blocked <==> BlockedIn(parts, k)
    {
      findings := findings + parts[k].findings;
      actions := actions + parts[k].actions;
      blocked := blocked || parts[k].blocked;
    }
    var summary := Summarize(findings);
    var sorted := Sort(actions, ActionKey);
    r := Report(summary, findings, blocked, sorted);
  }

  /** The audit: refused exactly when the request is malformed, otherwise the report on its normal order. */
  method Audit(r: Request) returns (report: Option<Report>, ghost s: Request)
    ensures report.Some? <==> Accepts(r)
    ensures report.Some? <==> GoodRequest(r)
    ensures report.Some? ==> IsNormal(r, s) && IsReport(s, report.value)
  {
    var normal := Normalize(r);
    s := r;
    if normal.None? {
      return None, s;
    }
    s := normal.value;
    var parts := AuditParts(normal.value);
    var assembled := Assemble(parts);
    report := Some(assembled);
  }

  // ---------------------------------------------------------------- every entry, once

  function PlacesOf(entries: seq<Entry>, n: nat): multiset<Place>
    requires n <= |entries|
  {
    if n == 0 then multiset{} else PlacesOf(entries, n - 1) + multiset{entries[n - 1].place}
  }

  /** The places that findings other than missing hooks speak of. */
  function PlacesFound(fs: seq<Finding>, n: nat): multiset<Place>
    requires n <= |fs|
  {
    if n == 0 then multiset{}
    else if fs[n - 1].kind.Missing? then PlacesFound(fs, n - 1)
    else PlacesFound(fs, n - 1) + multiset{fs[n - 1].place}
  }

  function AllPlaces(entries: seq<Entry>): multiset<Place> {
    PlacesOf(entries, |entries|)
  }

  function AllFound(fs: seq<Finding>): multiset<Place> {
    PlacesFound(fs, |fs|)
  }

  lemma AllFoundAppend(a: seq<Finding>, b: seq<Finding>)
    ensures AllFound(a + b) == AllFound(a) + AllFound(b)
  {
    FoundAppend(a, b, |b|);
  }

  lemma {:induction false} FoundAppend(a: seq<Finding>, b: seq<Finding>, n: nat)
    requires n <= |b|
    ensures PlacesFound(a + b, |a| + n) == PlacesFound(a, |a|) + PlacesFound(b, n)
    decreases n
  {
    if n == 0 {
      FoundPrefix(a, a + b, |a|);
    } else {
      FoundAppend(a, b, n - 1);
      assert (a + b)[|a| + n - 1] == b[n - 1];
    }
  }

  lemma {:induction false} FoundPrefix(a: seq<Finding>, b: seq<Finding>, n: nat)
    requires n <= |a| && n <= |b| && forall i :: 0 <= i < n ==> a[i] == b[i]
    ensures PlacesFound(a, n) == PlacesFound(b, n)
    decreases n
  {
    if n > 0 {
      FoundPrefix(a, b, n - 1);
    }
  }

  lemma {:induction false} FoundInEntries(fs: seq<Finding>, entries: seq<Entry>, n: nat)
    requires n <= |fs| == |entries| && forall i :: 0 <= i < |fs| ==> !fs[i].kind.Missing? && fs[i].place == entries[i].place
    ensures PlacesFound(fs, n) == PlacesOf(entries, n)
    decreases n
  {
    if n > 0 {
      FoundInEntries(fs, entries, n - 1);
    }
  }

  lemma KindIsNotMissing(t: Desired, owned: seq<Owned>, entries: seq<Entry>, i: nat)
    requires i < |entries|
    ensures !KindOf(t, owned, entries, i).Missing?
  {
  }

  lemma FoundInPart(t: Desired, owned: seq<Owned>, entries: seq<Entry>)
    ensures AllFound(ReportTarget(t, owned, entries).findings) == AllPlaces(entries)
  {
    var found := FindingsOf(t, owned, entries);
    forall i | 0 <= i < |found| ensures !found[i].kind.Missing? && found[i].place == entries[i].place {
      KindIsNotMissing(t, owned, entries, i);
    }
    FoundInEntries(found, entries, |found|);
    var missing := [Finding(Missing, t, Absent)];
    AllFoundAppend(missing, found);
    assert PlacesFound(missing, 1) == PlacesFound(missing, 0);
  }

  lemma {:induction false} PlacesPrefix(a: seq<Entry>, b: seq<Entry>, n: nat)
    requires n <= |a| && n <= |b| && forall i :: 0 <= i < n ==> a[i] == b[i]
    ensures PlacesOf(a, n) == PlacesOf(b, n)
    decreases n
  {
    if n > 0 {
      PlacesPrefix(a, b, n - 1);
    }
  }

  /** A target's entries are exactly the entries with its key. */
  lemma {:induction false} PlacesAtKey(entries: seq<Entry>, key: string, n: nat, x: Place)
    requires n <= |entries|
    ensures AllPlaces(EntriesAt(entries, key, n))[x] == if KeyOf(x) == key then PlacesOf(entries, n)[x] else 0
    decreases n
  {
    if n > 0 {
      PlacesAtKey(entries, key, n - 1, x);
      PlacesSnoc(EntriesAt(entries, key, n - 1), entries[n - 1]);
    }
  }

  lemma PlacesSnoc(a: seq<Entry>, e: Entry)
    ensures AllPlaces(a + [e]) == AllPlaces(a) + multiset{e.place}
  {
    PlacesPrefix(a, a + [e], |a|);
  }

  /** The entries of each target. */
  ghost function GroupsOf(s: Request): (groups: seq<seq<Entry>>)
    ensures |groups| == |s.desired|
    ensures forall k :: 0 <= k < |groups| ==> groups[k] == EntriesAt(s.entries, KeyOf(s.desired[k]), |s.entries|)
  {
    seq(|s.desired|, k requires 0 <= k < |s.desired| => EntriesAt(s.entries, KeyOf(s.desired[k]), |s.entries|))
  }

  function Covered(groups: seq<seq<Entry>>, n: nat): multiset<Place>
    requires n <= |groups|
  {
    if n == 0 then multiset{} else Covered(groups, n - 1) + AllPlaces(groups[n - 1])
  }

  lemma {:induction false} FoundInParts(parts: seq<TargetReport>, groups: seq<seq<Entry>>, n: nat)
    requires n <= |parts| == |groups|
    requires forall k :: 0 <= k < |parts| ==> AllFound(parts[k].findings) == AllPlaces(groups[k])
    ensures AllFound(FindingsIn(parts, n)) == Covered(groups, n)
    decreases n
  {
    if n > 0 {
      FoundInParts(parts, groups, n - 1);
      AllFoundAppend(FindingsIn(parts, n - 1), parts[n - 1].findings);
    }
  }

  ghost predicate WantedUpTo(desired: seq<Desired>, key: string, n: nat)
    requires n <= |desired|
  {
    exists i :: 0 <= i < n && KeyOf(desired[i]) == key
  }

  lemma {:induction false} CoveredCount(s: Request, n: nat, x: Place)
    requires n <= |s.desired| && DistinctTargets(s.desired)
    ensures Covered(GroupsOf(s), n)[x] == if WantedUpTo(s.desired, KeyOf(x), n) then PlacesOf(s.entries, |s.entries|)[x] else 0
    decreases n
  {
    if n > 0 {
      CoveredCount(s, n - 1, x);
      PlacesAtKey(s.entries, KeyOf(s.desired[n - 1]), |s.entries|, x);
      assert WantedUpTo(s.desired, KeyOf(x), n) <==> WantedUpTo(s.desired, KeyOf(x), n - 1) || KeyOf(s.desired[n - 1]) == KeyOf(x);
    }
  }

  lemma {:induction false} PlaceFromEntry(entries: seq<Entry>, n: nat, x: Place) returns (i: nat)
    requires n <= |entries| && PlacesOf(entries, n)[x] > 0
    ensures i < n && entries[i].place == x
    decreases n
  {
    if entries[n - 1].place == x {
      i := n - 1;
    } else {
      i := PlaceFromEntry(entries, n - 1, x);
    }
  }

  ghost predicate AllWanted(s: Request) {
    forall i :: 0 <= i < |s.entries| ==> Wanted(s.desired, KeyOf(s.entries[i].place))
  }

  /** The findings speak of every entry of a desired target, as often as it occurs, and of nothing else. */
  lemma EveryEntryOnce(s: Request, r: Report)
    requires DistinctTargets(s.desired) && AllWanted(s) && IsReport(s, r)
    ensures AllFound(r.findings) == AllPlaces(s.entries)
  {
    var parts, groups := PartsOf(s), GroupsOf(s);
    forall k | 0 <= k < |parts| ensures AllFound(parts[k].findings) == AllPlaces(groups[k]) {
      FoundInPart(s.desired[k], OwnedAt(s.owned, KeyOf(s.desired[k]), |s.owned|), groups[k]);
    }
    FoundInParts(parts, groups, |parts|);
    CoveredAll(s);
  }

  lemma CoveredAll(s: Request)
    requires DistinctTargets(s.desired) && AllWanted(s)
    ensures Covered(GroupsOf(s), |s.desired|) == PlacesOf(s.entries, |s.entries|)
  {
    forall x ensures Covered(GroupsOf(s), |s.desired|)[x] == PlacesOf(s.entries, |s.entries|)[x] {
      CoveredCount(s, |s.desired|, x);
      if PlacesOf(s.entries, |s.entries|)[x] > 0 {
        var i := PlaceFromEntry(s.entries, |s.entries|, x);
        assert Wanted(s.desired, KeyOf(x));
      }
    }
    assert Covered(GroupsOf(s), |s.desired|) == PlacesOf(s.entries, |s.entries|);
  }

  // ---------------------------------------------------------------- normal order

  /** Normalizing keeps the targets distinct and leaves only entries of desired targets. */
  lemma NormalIsClean(r: Request, s: Request)
    requires Accepts(r) && IsNormal(r, s)
    ensures DistinctTargets(s.desired) && AllWanted(s)
  {
    PermutedTargets(r.desired, s.desired);
    forall i | 0 <= i < |s.entries| ensures Wanted(s.desired, KeyOf(s.entries[i].place)) {
      assert s.entries[i] in multiset(s.entries);
      RelevantIsWanted(r.desired, r.entries, |r.entries|, s.entries[i]);
      PermutedWanted(r.desired, s.desired, KeyOf(s.entries[i].place));
    }
  }

  lemma {:induction false} RelevantIsWanted(desired: seq<Desired>, entries: seq<Entry>, n: nat, e: Entry)
    requires n <= |entries| && e in Relevant(desired, entries, n)
    ensures Wanted(desired, KeyOf(e.place))
    decreases n
  {
    if !(Wanted(desired, KeyOf(entries[n - 1].place)) && e == entries[n - 1]) {
      RelevantIsWanted(desired, entries, n - 1, e);
    }
  }

  lemma PermutedWanted(a: seq<Desired>, b: seq<Desired>, key: string)
    requires multiset(a) == multiset(b)
    ensures Wanted(a, key) <==> Wanted(b, key)
  {
    if i :| 0 <= i < |a| && KeyOf(a[i]) == key {
      assert a[i] in multiset(b);
    }
    if i :| 0 <= i < |b| && KeyOf(b[i]) == key {
      assert b[i] in multiset(a);
    }
  }

  lemma PermutedTargets(a: seq<Desired>, b: seq<Desired>)
    requires multiset(a) == multiset(b) && DistinctTargets(a)
    ensures DistinctTargets(b)
  {
    forall i, j | 0 <= i < j < |b| ensures KeyOf(b[i]) != KeyOf(b[j]) {
      if b[i] == b[j] {
        TwiceInMultiset(b, i, j);
        OnceInMultiset(a, b[i]);
      } else {
        assert b[i] in multiset(a) && b[j] in multiset(a);
      }
    }
  }

  lemma TwiceInMultiset(b: seq<Desired>, i: nat, j: nat)
    requires i < j < |b| && b[i] == b[j]
    ensures multiset(b)[b[i]] >= 2
  {
    assert b == b[..j] + b[j..];
    assert b[..j][i] in multiset(b[..j]) && b[j..][0] in multiset(b[j..]);
  }

  lemma {:induction false} OnceInMultiset(a: seq<Desired>, x: Desired)
    requires DistinctTargets(a)
    ensures multiset(a)[x] <= 1
    decreases |a|
  {
    if |a| > 0 {
      var front, last := a[..|a| - 1], a[|a| - 1];
      assert a == front + [last];
      OnceInMultiset(front, x);
      if last == x {
        forall k | 0 <= k < |front| ensures front[k] != x {
          assert KeyOf(a[k]) != KeyOf(a[|a| - 1]);
        }
      }
    }
  }

  // ---------------------------------------------------------------- actions

  lemma {:induction false} ActionFromPart(parts: seq<TargetReport>, n: nat, a: Action) returns (k: nat)
    requires n <= |parts| && a in ActionsIn(parts, n)
    ensures k < n && a in parts[k].actions
    decreases n
  {
    if a in parts[n - 1].actions {
      k := n - 1;
    } else {
      k := ActionFromPart(parts, n - 1, a);
    }
  }

  /** The removal names a legacy or duplicate entry of the target, and no other entry has its locator. */
  ghost predicate RemovalPlanned(s: Request, t: Desired, a: Action) {
    var entries := EntriesAt(s.entries, KeyOf(t), |s.entries|);
    exists i :: 0 <= i < |entries| && PlannedFor(t, OwnedAt(s.owned, KeyOf(t), |s.owned|), entries, i, a) && OnlyAt(entries, i)
  }

  lemma PartIsSafe(s: Request, t: Desired, a: Action)
    requires a in PartOf(s, t).actions
    ensures !PartOf(s, t).blocked
    ensures a.operation.Add? ==> a == Action(Add, Missing, t)
    ensures a.operation.Remove? ==> RemovalPlanned(s, t, a)
  {
    ActionsAreSafe(t, OwnedAt(s.owned, KeyOf(t), |s.owned|), EntriesAt(s.entries, KeyOf(t), |s.entries|), a);
  }

  /** Every planned action belongs to a target that is not blocked; none names an external or unsafe entry. */
  lemma PlanIsSafe(s: Request, r: Report, a: Action) returns (t: Desired)
    requires IsReport(s, r) && a in r.actions
    ensures t in s.desired && !PartOf(s, t).blocked
    ensures a.operation.Add? ==> a == Action(Add, Missing, t)
    ensures a.operation.Remove? ==> RemovalPlanned(s, t, a)
  {
    var parts := PartsOf(s);
    assert a in multiset(r.actions);
    assert a in ActionsIn(parts, |parts|);
    var k := ActionFromPart(parts, |parts|, a);
    t := s.desired[k];
    PartIsSafe(s, t, a);
  }

  ghost predicate HasOneCurrent(s: Request, t: Desired) {
    var entries := EntriesAt(s.entries, KeyOf(t), |s.entries|);
    exists i :: 0 <= i < |entries| && IsTheCurrent(t, OwnedAt(s.owned, KeyOf(t), |s.owned|), entries, i)
  }

  lemma {:induction false} NoActions(parts: seq<TargetReport>, n: nat)
    requires n <= |parts| && forall k :: 0 <= k < n ==> parts[k].actions == []
    ensures ActionsIn(parts, n) == []
    decreases n
  {
    if n > 0 {
      NoActions(parts, n - 1);
    }
  }
}
