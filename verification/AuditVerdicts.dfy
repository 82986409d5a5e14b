/**
 * What an audit's verdicts mean, in terms of the request as it was given: which entries are
 * unsafe, character by character, which are external or owned, and what blocks a target.
 */
module AuditVerdicts {
  import opened Common
  import opened Text
  import opened Sorting
  import opened HookAudit
  import opened AuditReports

  // ---------------------------------------------------------------- which entries are fine

  /** Another entry of the same target has the same locator. */
  ghost predicate Clashes(entries: seq<Entry>, i: nat)
    requires i < |entries|
  {
    exists j :: 0 <= j < |entries| && j != i && KeyOf(entries[j].place) == KeyOf(entries[i].place)
      && LocatorKey(entries[j].place) == LocatorKey(entries[i].place)
  }

  /** Nothing speaks against the entry: well placed, no stated reason, and a locator of its own. */
  ghost predicate Fine(entries: seq<Entry>, i: nat)
    requires i < |entries|
  {
    WellPlaced(entries[i].place) && entries[i].unsafeReason == "" && !Clashes(entries, i)
  }

  lemma Twice<T>(a: seq<T>, i: nat)
    requires i < |a|
    ensures multiset(a)[a[i]] >= 2 <==> exists j :: 0 <= j < |a| && j != i && a[j] == a[i]
  {
    var rest := a[..i] + a[i + 1..];
    assert a == a[..i] + [a[i]] + a[i + 1..];
    assert multiset(a) == multiset(rest) + multiset{a[i]};
    if j :| 0 <= j < |a| && j != i && a[j] == a[i] {
      assert rest[if j < i then j else j - 1] == a[i];
      assert a[i] in multiset(rest);
    }
    if multiset(a)[a[i]] >= 2 {
      assert a[i] in multiset(rest);
      var k :| 0 <= k < |rest| && rest[k] == a[i];
      assert a[if k < i then k else k + 1] == a[i];
    }
  }

  /** As many copies of the entry, or another one, at the same place: what a clash is, whatever the order. */
  ghost predicate ClashesIn(m: multiset<Entry>, e: Entry) {
    m[e] >= 2 || exists x :: x in m && x != e && KeyOf(x.place) == KeyOf(e.place) && LocatorKey(x.place) == LocatorKey(e.place)
  }

  lemma ClashIff(entries: seq<Entry>, i: nat)
    requires i < |entries|
    ensures Clashes(entries, i) <==> ClashesIn(multiset(entries), entries[i])
  {
    Twice(entries, i);
    if x :| x in multiset(entries) && x != entries[i] && KeyOf(x.place) == KeyOf(entries[i].place) && LocatorKey(x.place) == LocatorKey(entries[i].place) {
      var j :| 0 <= j < |entries| && entries[j] == x;
    }
    if j :| 0 <= j < |entries| && j != i && KeyOf(entries[j].place) == KeyOf(entries[i].place) && LocatorKey(entries[j].place) == LocatorKey(entries[i].place) {
      assert entries[j] in multiset(entries);
    }
  }

  // ---------------------------------------------------------------- a target's entries

  lemma {:induction false} AtKeyCount(entries: seq<Entry>, key: string, n: nat, e: Entry)
    requires n <= |entries|
    ensures multiset(EntriesAt(entries, key, n))[e] == if KeyOf(e.place) == key then multiset(entries[..n])[e] else 0
    decreases n
  {
    if n > 0 {
      AtKeyCount(entries, key, n - 1, e);
      assert entries[..n] == entries[..n - 1] + [entries[n - 1]];
    }
  }

  lemma {:induction false} RelevantCount(desired: seq<Desired>, entries: seq<Entry>, n: nat, e: Entry)
    requires n <= |entries|
    ensures multiset(Relevant(desired, entries, n))[e] == if Wanted(desired, KeyOf(e.place)) then multiset(entries[..n])[e] else 0
    decreases n
  {
    if n > 0 {
      RelevantCount(desired, entries, n - 1, e);
      assert entries[..n] == entries[..n - 1] + [entries[n - 1]];
    }
  }

  ghost function Group(s: Request, key: string): seq<Entry> {
    EntriesAt(s.entries, key, |s.entries|)
  }

  /** A target is audited with all entries the request has for it. */
  lemma GroupCount(r: Request, s: Request, key: string, e: Entry)
    requires IsNormal(r, s) && Wanted(r.desired, key)
    ensures multiset(Group(s, key))[e] == if KeyOf(e.place) == key then multiset(r.entries)[e] else 0
  {
    AtKeyCount(s.entries, key, |s.entries|, e);
    RelevantCount(r.desired, r.entries, |r.entries|, e);
    assert s.entries[..|s.entries|] == s.entries && r.entries[..|r.entries|] == r.entries;
  }

  lemma GroupClash(r: Request, s: Request, key: string, e: Entry)
    requires IsNormal(r, s) && Wanted(r.desired, key) && KeyOf(e.place) == key
    ensures ClashesIn(multiset(Group(s, key)), e) <==> ClashesIn(multiset(r.entries), e)
  {
    forall x ensures multiset(Group(s, key))[x] == if KeyOf(x.place) == key then multiset(r.entries)[x] else 0 {
      GroupCount(r, s, key, x);
    }
  }

  lemma {:induction false} GroupHasKey(entries: seq<Entry>, key: string, n: nat)
    requires n <= |entries|
    ensures forall k :: 0 <= k < |EntriesAt(entries, key, n)| ==> KeyOf(EntriesAt(entries, key, n)[k].place) == key
    decreases n
  {
    if n > 0 {
      GroupHasKey(entries, key, n - 1);
    }
  }

  /** Among its target's entries an entry is safe exactly when nothing in the request speaks against it. */
  lemma SafeIff(r: Request, s: Request, key: string, k: nat, i: nat)
    requires IsNormal(r, s) && Wanted(r.desired, key)
    requires k < |Group(s, key)| && i < |r.entries| && Group(s, key)[k] == r.entries[i]
    ensures Safe(Group(s, key), k) <==> Fine(r.entries, i)
  {
    var group := Group(s, key);
    GroupHasKey(s.entries, key, |s.entries|);
    ClashIff(group, k);
    ClashIff(r.entries, i);
    GroupClash(r, s, key, group[k]);
    WellPlacedIff(r.entries[i].place);
    assert Shared(group, k) <==> Clashes(group, k);
  }

  /** Every entry of a wanted target is in the target's group, and every entry of the group is in the request. */
  lemma ToGroup(r: Request, s: Request, i: nat) returns (k: nat)
    requires IsNormal(r, s) && i < |r.entries| && Wanted(r.desired, KeyOf(r.entries[i].place))
    ensures k < |Group(s, KeyOf(r.entries[i].place))| && Group(s, KeyOf(r.entries[i].place))[k] == r.entries[i]
  {
    var key := KeyOf(r.entries[i].place);
    GroupCount(r, s, key, r.entries[i]);
    assert r.entries[i] in multiset(r.entries);
    assert r.entries[i] in multiset(Group(s, key));
    k :| 0 <= k < |Group(s, key)| && Group(s, key)[k] == r.entries[i];
  }

  lemma FromGroup(r: Request, s: Request, key: string, k: nat) returns (i: nat)
    requires IsNormal(r, s) && Wanted(r.desired, key) && k < |Group(s, key)|
    ensures i < |r.entries| && r.entries[i] == Group(s, key)[k] && KeyOf(r.entries[i].place) == key
  {
    var e := Group(s, key)[k];
    GroupHasKey(s.entries, key, |s.entries|);
    GroupCount(r, s, key, e);
    assert e in multiset(Group(s, key));
    assert e in multiset(r.entries);
    i :| 0 <= i < |r.entries| && r.entries[i] == e;
  }

  /** The request proves that this invocation is AgentBell's own at the target. */
  ghost predicate Proven(owned: seq<Owned>, key: string, v: Invocation) {
    exists o :: o in owned && TargetKey(o.adapter, o.event) == key && o.invocation == v
  }

  lemma {:induction false} OwnedAtIff(owned: seq<Owned>, key: string, n: nat, o: Owned)
    requires n <= |owned|
    ensures o in OwnedAt(owned, key, n) <==> o in owned[..n] && TargetKey(o.adapter, o.event) == key
    decreases n
  {
    if n > 0 {
      OwnedAtIff(owned, key, n - 1, o);
      assert owned[..n] == owned[..n - 1] + [owned[n - 1]];
    }
  }

  lemma ProvenIff(r: Request, s: Request, key: string, v: Invocation)
    requires IsNormal(r, s)
    ensures IsOwned(v, OwnedAt(s.owned, key, |s.owned|)) <==> Proven(r.owned, key, v)
  {
    var group := OwnedAt(s.owned, key, |s.owned|);
    assert s.owned[..|s.owned|] == s.owned;
    var k := MatchOwned(v, group, 0);
    if k < |group| {
      OwnedAtIff(s.owned, key, |s.owned|, group[k]);
      assert group[k] in multiset(s.owned);
      assert group[k] in r.owned;
    }
    if o :| o in r.owned && TargetKey(o.adapter, o.event) == key && o.invocation == v {
      assert o in multiset(r.owned);
      assert o in s.owned;
      OwnedAtIff(s.owned, key, |s.owned|, o);
      var j :| 0 <= j < |group| && group[j] == o;
    }
  }

  // ---------------------------------------------------------------- the verdicts

  /** What the kind of a finding says of an entry of the request, with t the desired hook of its target. */
  ghost predicate Verdict(r: Request, t: Desired, i: nat, kind: Kind)
    requires i < |r.entries|
  {
    var v := r.entries[i].place.invocation;
    && (kind.Unsafe? <==> !Fine(r.entries, i))
    && (kind.External? <==> Fine(r.entries, i) && v != t.invocation && !Proven(r.owned, KeyOf(t), v))
    && (kind.OwnedLegacy? ==> Fine(r.entries, i) && v != t.invocation && Proven(r.owned, KeyOf(t), v))
    && (kind.Current? ==> Fine(r.entries, i) && v == t.invocation)
    && (kind.OwnedDuplicate? ==> Fine(r.entries, i) && (v == t.invocation || Proven(r.owned, KeyOf(t), v)))
    && !kind.Missing?
  }

  lemma KindIsVerdict(r: Request, s: Request, t: Desired, k: nat, i: nat)
    requires IsNormal(r, s) && Wanted(r.desired, KeyOf(t))
    requires k < |Group(s, KeyOf(t))| && i < |r.entries| && Group(s, KeyOf(t))[k] == r.entries[i]
    ensures Verdict(r, t, i, KindOf(t, OwnedAt(s.owned, KeyOf(t), |s.owned|), Group(s, KeyOf(t)), k))
  {
    SafeIff(r, s, KeyOf(t), k, i);
    ProvenIff(r, s, KeyOf(t), r.entries[i].place.invocation);
  }

  lemma {:induction false} FindingInPart(parts: seq<TargetReport>, n: nat, f: Finding) returns (k: nat)
    requires n <= |parts| && f in FindingsIn(parts, n)
    ensures k < n && f in parts[k].findings
    decreases n
  {
    if f in parts[n - 1].findings {
      k := n - 1;
    } else {
      k := FindingInPart(parts, n - 1, f);
    }
  }

  lemma {:induction false} PartInReport(parts: seq<TargetReport>, n: nat, k: nat, f: Finding)
    requires k < n <= |parts| && f in parts[k].findings
    ensures f in FindingsIn(parts, n)
    decreases n
  {
    if k < n - 1 {
      PartInReport(parts, n - 1, k, f);
    }
  }

  lemma SameTargets(r: Request, s: Request, t: Desired)
    requires IsNormal(r, s)
    ensures t in r.desired <==> t in s.desired
  {
    assert t in multiset(r.desired) <==> t in multiset(s.desired);
  }

  lemma WantedBy(desired: seq<Desired>, t: Desired)
    requires t in desired
    ensures Wanted(desired, KeyOf(t))
  {
    var i :| 0 <= i < |desired| && desired[i] == t;
  }

  lemma PartHasVerdicts(r: Request, s: Request, t: Desired, f: Finding) returns (i: nat)
    requires IsNormal(r, s) && Wanted(r.desired, KeyOf(t)) && f in PartOf(s, t).findings && !f.kind.Missing?
    ensures i < |r.entries| && KeyOf(r.entries[i].place) == KeyOf(t)
    ensures r.entries[i].place == f.place && Verdict(r, t, i, f.kind)
  {
    var group, owned := Group(s, KeyOf(t)), OwnedAt(s.owned, KeyOf(t), |s.owned|);
    var found := FindingsOf(t, owned, group);
    assert f in found;
    var k :| 0 <= k < |found| && found[k] == f;
    i := FromGroup(r, s, KeyOf(t), k);
    KindIsVerdict(r, s, t, k, i);
  }

  /**
   * Every finding of a report other than a missing hook is the verdict on an entry of the request: in
   * particular one that is not unsafe is well formed to the character and carries no stated reason.
   */
  lemma FindingsAreVerdicts(r: Request, s: Request, report: Report, f: Finding) returns (t: Desired, i: nat)
    requires Accepts(r) && IsNormal(r, s) && IsReport(s, report) && f in report.findings && !f.kind.Missing?
    ensures t in r.desired && i < |r.entries| && KeyOf(r.entries[i].place) == KeyOf(t)
    ensures r.entries[i].place == f.place && Verdict(r, t, i, f.kind)
    ensures !f.kind.Unsafe? ==> WellPlaced(f.place)
  {
    var parts := PartsOf(s);
    var p := FindingInPart(parts, |parts|, f);
    t := s.desired[p];
    SameTargets(r, s, t);
    WantedBy(r.desired, t);
    i := PartHasVerdicts(r, s, t, f);
  }

  /** Every entry of a desired target has its verdict in the report. */
  lemma EntriesHaveVerdicts(r: Request, s: Request, report: Report, t: Desired, i: nat) returns (f: Finding)
    requires Accepts(r) && IsNormal(r, s) && IsReport(s, report)
    requires t in r.desired && i < |r.entries| && KeyOf(r.entries[i].place) == KeyOf(t)
    ensures f in report.findings && f.place == r.entries[i].place && Verdict(r, t, i, f.kind)
  {
    SameTargets(r, s, t);
    WantedBy(r.desired, t);
    var k := ToGroup(r, s, i);
    var group, owned := Group(s, KeyOf(t)), OwnedAt(s.owned, KeyOf(t), |s.owned|);
    f := FindingOf(t, owned, group, k);
    assert FindingsOf(t, owned, group)[k] == f;
    KindIsVerdict(r, s, t, k, i);
    var p :| 0 <= p < |s.desired| && s.desired[p] == t;
    var parts := PartsOf(s);
    assert f in parts[p].findings;
    PartInReport(parts, |parts|, p, f);
  }

  // ---------------------------------------------------------------- what blocks a target

  /** Some entry of the target is not fine. */
  ghost predicate Spoiled(r: Request, key: string) {
    exists i :: 0 <= i < |r.entries| && KeyOf(r.entries[i].place) == key && !Fine(r.entries, i)
  }

  lemma BlockedIff(r: Request, s: Request, t: Desired)
    requires IsNormal(r, s) && Wanted(r.desired, KeyOf(t))
    ensures PartOf(s, t).blocked <==> Spoiled(r, KeyOf(t))
  {
    var group := Group(s, KeyOf(t));
    if j :| 0 <= j < |group| && !Safe(group, j) {
      var i := FromGroup(r, s, KeyOf(t), j);
      SafeIff(r, s, KeyOf(t), j, i);
    }
    if i :| 0 <= i < |r.entries| && KeyOf(r.entries[i].place) == KeyOf(t) && !Fine(r.entries, i) {
      var k := ToGroup(r, s, i);
      SafeIff(r, s, KeyOf(t), k, i);
    }
  }

  lemma ActionsHaveKey(s: Request, t: Desired, a: Action)
    requires a in PartOf(s, t).actions
    ensures KeyOf(a.place) == KeyOf(t)
  {
    PartIsSafe(s, t, a);
    if a.operation.Remove? {
      GroupHasKey(s.entries, KeyOf(t), |s.entries|);
    }
  }

  /** The report is blocked exactly when some desired target has an entry that is not fine, and such a target gets no action at all. */
  lemma UnsafeBlocks(r: Request, s: Request, report: Report)
    requires Accepts(r) && IsNormal(r, s) && IsReport(s, report)
    ensures report.blocked <==> exists t :: t in r.desired && Spoiled(r, KeyOf(t))
    ensures forall a :: a in report.actions ==> !Spoiled(r, KeyOf(a.place))
  {
    var parts := PartsOf(s);
    forall t | t in r.desired ensures PartOf(s, t).blocked <==> Spoiled(r, KeyOf(t)) {
      WantedBy(r.desired, t);
      BlockedIff(r, s, t);
    }
    if report.blocked {
      var k :| 0 <= k < |parts| && parts[k].blocked;
      SameTargets(r, s, s.desired[k]);
    }
    if t :| t in r.desired && Spoiled(r, KeyOf(t)) {
      SameTargets(r, s, t);
      var k :| 0 <= k < |s.desired| && s.desired[k] == t;
      assert parts[k].blocked;
    }
    forall a | a in report.actions ensures !Spoiled(r, KeyOf(a.place)) {
      ActionIsUnspoiled(r, s, report, a);
    }
  }

  lemma ActionIsUnspoiled(r: Request, s: Request, report: Report, a: Action)
    requires IsNormal(r, s) && IsReport(s, report) && a in report.actions
    ensures !Spoiled(r, KeyOf(a.place))
  {
    var parts := PartsOf(s);
    assert a in multiset(report.actions);
    assert a in ActionsIn(parts, |parts|);
    var k := ActionFromPart(parts, |parts|, a);
    var t := s.desired[k];
    ActionsHaveKey(s, t, a);
    PartIsSafe(s, t, a);
    SameTargets(r, s, t);
    WantedBy(r.desired, t);
    BlockedIff(r, s, t);
  }

  /** Some entry of the target that is fine runs the desired hook. */
  ghost predicate Served(r: Request, t: Desired) {
    exists i :: 0 <= i < |r.entries| && KeyOf(r.entries[i].place) == KeyOf(t) && Fine(r.entries, i) && r.entries[i].place.invocation == t.invocation
  }

  lemma ServedIff(r: Request, s: Request, t: Desired)
    requires IsNormal(r, s) && Wanted(r.desired, KeyOf(t))
    ensures HasCurrent(t, Group(s, KeyOf(t))) <==> Served(r, t)
  {
    var group := Group(s, KeyOf(t));
    if j :| 0 <= j < |group| && Safe(group, j) && group[j].place.invocation == t.invocation {
      var i := FromGroup(r, s, KeyOf(t), j);
      SafeIff(r, s, KeyOf(t), j, i);
    }
    if i :| 0 <= i < |r.entries| && KeyOf(r.entries[i].place) == KeyOf(t) && Fine(r.entries, i) && r.entries[i].place.invocation == t.invocation {
      var k := ToGroup(r, s, i);
      SafeIff(r, s, KeyOf(t), k, i);
    }
  }

  /** A desired hook is reported missing exactly when no fine entry runs it, and is then added unless an entry of its target is not fine. */
  lemma MissingIff(r: Request, s: Request, report: Report, t: Desired)
    requires Accepts(r) && IsNormal(r, s) && IsReport(s, report) && t in r.desired
    ensures Finding(Missing, t, Absent) in report.findings <==> !Served(r, t)
    ensures Action(Add, Missing, t) in report.actions <==> !Served(r, t) && !Spoiled(r, KeyOf(t))
  {
    SameTargets(r, s, t);
    WantedBy(r.desired, t);
    ServedIff(r, s, t);
    BlockedIff(r, s, t);
    var parts, f, a := PartsOf(s), Finding(Missing, t, Absent), Action(Add, Missing, t);
    var p :| 0 <= p < |s.desired| && s.desired[p] == t;
    if !Served(r, t) {
      assert f in parts[p].findings;
      PartInReport(parts, |parts|, p, f);
      if !Spoiled(r, KeyOf(t)) {
        assert a in parts[p].actions;
        ActionInReport(parts, |parts|, p, a);
        assert a in multiset(report.actions);
      }
    }
    if f in report.findings {
      var k := FindingInPart(parts, |parts|, f);
      MissingInPart(s, s.desired[k], t);
    }
    if a in report.actions {
      assert a in multiset(report.actions);
      assert a in ActionsIn(parts, |parts|);
      var k := ActionFromPart(parts, |parts|, a);
      AddInPart(s, s.desired[k], t);
    }
  }

  lemma {:induction false} ActionInReport(parts: seq<TargetReport>, n: nat, k: nat, a: Action)
    requires k < n <= |parts| && a in parts[k].actions
    ensures a in ActionsIn(parts, n)
    decreases n
  {
    if k < n - 1 {
      ActionInReport(parts, n - 1, k, a);
    }
  }

  lemma MissingInPart(s: Request, u: Desired, t: Desired)
    requires Finding(Missing, t, Absent) in PartOf(s, u).findings
    ensures u == t && !HasCurrent(t, Group(s, KeyOf(t)))
  {
    var group, owned := Group(s, KeyOf(u)), OwnedAt(s.owned, KeyOf(u), |s.owned|);
    forall k | 0 <= k < |group| ensures FindingsOf(u, owned, group)[k] != Finding(Missing, t, Absent) {
      KindIsNotMissing(u, owned, group, k);
    }
  }

  lemma AddInPart(s: Request, u: Desired, t: Desired)
    requires Action(Add, Missing, t) in PartOf(s, u).actions
    ensures u == t && !HasCurrent(t, Group(s, KeyOf(t))) && !PartOf(s, t).blocked
  {
    PartIsSafe(s, u, Action(Add, Missing, t));
    var group, owned := Group(s, KeyOf(u)), OwnedAt(s.owned, KeyOf(u), |s.owned|);
    var found := FindingsOf(u, owned, group);
    RemovalsRemove(found, |found|);
  }

  lemma {:induction false} RemovalsRemove(fs: seq<Finding>, n: nat)
    requires n <= |fs|
    ensures forall k :: 0 <= k < |Removals(fs, n)| ==> Removals(fs, n)[k].operation.Remove?
    decreases n
  {
    if n > 0 {
      RemovalsRemove(fs, n - 1);
    }
  }
}
