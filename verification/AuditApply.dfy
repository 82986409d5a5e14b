/**
 * Carrying out the plan of an audit, and auditing again. The removals and additions are
 * those the report lists; nothing is known of the order in which the entries are parsed
 * the second time.
 */
module AuditApply {
  import opened Common
  import opened Sorting
  import opened HookAudit
  import opened AuditReports
  import AuditOrder

  // ---------------------------------------------------------------- carrying out actions

  ghost predicate Named(actions: seq<Action>, p: Place) {
    exists i :: 0 <= i < |actions| && actions[i].operation.Remove? && actions[i].place == p
  }

  /** The first n entries without those a removal names. */
  ghost function Kept(entries: seq<Entry>, actions: seq<Action>, n: nat): seq<Entry>
    requires n <= |entries|
  {
    if n == 0 then []
    else if Named(actions, entries[n - 1].place) then Kept(entries, actions, n - 1)
    else Kept(entries, actions, n - 1) + [entries[n - 1]]
  }

  /** The entries that the additions among the first n actions write. */
  function Added(actions: seq<Action>, n: nat): seq<Entry>
    requires n <= |actions|
  {
    if n == 0 then []
    else if actions[n - 1].operation.Add? then Added(actions, n - 1) + [Entry(actions[n - 1].place, "")]
    else Added(actions, n - 1)
  }

  ghost function Apply(entries: seq<Entry>, actions: seq<Action>): seq<Entry> {
    Kept(entries, actions, |entries|) + Added(actions, |actions|)
  }

  // ---------------------------------------------------------------- rearrangements

  lemma {:induction false} TwiceIn<T>(s: seq<T>, x: T) returns (i: nat, j: nat)
    requires multiset(s)[x] >= 2
    ensures i < j < |s| && s[i] == x && s[j] == x
    decreases |s|
  {
    var front, last := s[..|s| - 1], s[|s| - 1];
    assert s == front + [last];
    if last == x {
      assert x in multiset(front);
      i :| 0 <= i < |front| && front[i] == x;
      j := |s| - 1;
    } else {
      i, j := TwiceIn(front, x);
    }
  }

  lemma TwoInMultiset<T>(s: seq<T>, i: nat, j: nat)
    requires i < |s| && j < |s| && i != j && s[i] == s[j]
    ensures multiset(s)[s[i]] >= 2
  {
    var a, b := if i < j then i else j, if i < j then j else i;
    assert s == s[..b] + s[b..];
    assert s[..b][a] in multiset(s[..b]) && s[b..][0] in multiset(s[b..]);
  }

  /** Two positions of a rearrangement come from two positions of the original. */
  lemma PairFrom<T>(a: seq<T>, b: seq<T>, i: nat, j: nat) returns (x: nat, y: nat)
    requires multiset(a) == multiset(b) && i < |b| && j < |b| && i != j
    ensures x < |a| && y < |a| && x != y && a[x] == b[i] && a[y] == b[j]
  {
    if b[i] == b[j] {
      TwoInMultiset(b, i, j);
      x, y := TwiceIn(a, b[i]);
    } else {
      x := OneFrom(a, b, i);
      y := OneFrom(a, b, j);
    }
  }

  lemma OneFrom<T>(a: seq<T>, b: seq<T>, i: nat) returns (x: nat)
    requires multiset(a) == multiset(b) && i < |b|
    ensures x < |a| && a[x] == b[i]
  {
    assert b[i] in multiset(a);
    x :| 0 <= x < |a| && a[x] == b[i];
  }

  // ---------------------------------------------------------------- what is kept

  lemma {:induction false} KeptFrom(entries: seq<Entry>, actions: seq<Action>, n: nat, x: nat) returns (i: nat)
    requires n <= |entries| && x < |Kept(entries, actions, n)|
    ensures i < n && entries[i] == Kept(entries, actions, n)[x] && !Named(actions, entries[i].place)
    decreases n
  {
    if x == |Kept(entries, actions, n - 1)| {
      i := n - 1;
    } else {
      i := KeptFrom(entries, actions, n - 1, x);
    }
  }

  lemma {:induction false} KeptPair(entries: seq<Entry>, actions: seq<Action>, n: nat, x: nat, y: nat) returns (i: nat, j: nat)
    requires n <= |entries| && x < y < |Kept(entries, actions, n)|
    ensures i < j < n && entries[i] == Kept(entries, actions, n)[x] && entries[j] == Kept(entries, actions, n)[y]
    ensures !Named(actions, entries[i].place) && !Named(actions, entries[j].place)
    decreases n
  {
    if y == |Kept(entries, actions, n - 1)| {
      i := KeptFrom(entries, actions, n - 1, x);
      j := n - 1;
    } else {
      i, j := KeptPair(entries, actions, n - 1, x, y);
    }
  }

  lemma {:induction false} KeptHas(entries: seq<Entry>, actions: seq<Action>, n: nat, i: nat) returns (x: nat)
    requires i < n <= |entries| && !Named(actions, entries[i].place)
    ensures x < |Kept(entries, actions, n)| && Kept(entries, actions, n)[x] == entries[i]
    decreases n
  {
    if i == n - 1 {
      x := |Kept(entries, actions, n - 1)|;
    } else {
      x := KeptHas(entries, actions, n - 1, i);
    }
  }

  lemma {:induction false} KeptAll(entries: seq<Entry>, n: nat)
    requires n <= |entries|
    ensures Kept(entries, [], n) == entries[..n]
    decreases n
  {
    if n > 0 {
      KeptAll(entries, n - 1);
    }
  }

  // ---------------------------------------------------------------- one target

  /** The removals name exactly the legacy and duplicate entries, and the additions write the missing hook. */
  lemma NamedIff(t: Desired, owned: seq<Owned>, entries: seq<Entry>, i: nat)
    requires i < |entries| && !Blocked(entries, |entries|)
    ensures Named(ReportTarget(t, owned, entries).actions, entries[i].place) <==> ToRemove(KindOf(t, owned, entries, i))
  {
    var actions := ReportTarget(t, owned, entries).actions;
    var fs := FindingsOf(t, owned, entries);
    if ToRemove(KindOf(t, owned, entries, i)) {
      RemovalsAre(fs, |fs|, RemovalOf(fs[i]));
      assert RemovalOf(fs[i]) in actions;
    }
    if k :| 0 <= k < |actions| && actions[k].operation.Remove? && actions[k].place == entries[i].place {
      ActionsAreSafe(t, owned, entries, actions[k]);
      var j :| 0 <= j < |entries| && PlannedFor(t, owned, entries, j, actions[k]) && OnlyAt(entries, j);
      assert i == j;
    }
  }

  lemma {:induction false} RemovalsAddNothing(fs: seq<Finding>, n: nat, before: seq<Action>)
    requires n <= |fs|
    ensures Added(before + Removals(fs, n), |before + Removals(fs, n)|) == Added(before, |before|)
    decreases n
  {
    if n == 0 {
      assert before + Removals(fs, n) == before;
    } else {
      RemovalsAddNothing(fs, n - 1, before);
      if ToRemove(fs[n - 1].kind) {
        var shorter := before + Removals(fs, n - 1);
        assert before + Removals(fs, n) == shorter + [RemovalOf(fs[n - 1])];
        AddedPrefix(shorter, shorter + [RemovalOf(fs[n - 1])], |shorter|);
      }
    }
  }

  lemma {:induction false} AddedPrefix(a: seq<Action>, b: seq<Action>, n: nat)
    requires n <= |a| && n <= |b| && forall i :: 0 <= i < n ==> a[i] == b[i]
    ensures Added(a, n) == Added(b, n)
    decreases n
  {
    if n > 0 {
      AddedPrefix(a, b, n - 1);
    }
  }

  lemma AddedIs(t: Desired, owned: seq<Owned>, entries: seq<Entry>)
    requires !Blocked(entries, |entries|)
    ensures var actions := ReportTarget(t, owned, entries).actions;
      Added(actions, |actions|) == if HasCurrent(t, entries) then [] else [Entry(t, "")]
  {
    var fs := FindingsOf(t, owned, entries);
    if HasCurrent(t, entries) {
      RemovalsAddNothing(fs, |fs|, []);
      assert [] + Removals(fs, |fs|) == Removals(fs, |fs|);
    } else {
      var add := [Action(Add, Missing, t)];
      RemovalsAddNothing(fs, |fs|, add);
      assert Added(add, 0) == [];
    }
  }

  /** The missing hook would be written where an external entry stays. */
  ghost predicate Clash(t: Desired, owned: seq<Owned>, entries: seq<Entry>) {
    && !HasCurrent(t, entries)
    && exists i :: 0 <= i < |entries| && KindOf(t, owned, entries, i).External? && LocatorKey(entries[i].place) == LocatorKey(t)
  }

  /** The target with its plan carried out. */
  ghost function Applied(t: Desired, owned: seq<Owned>, entries: seq<Entry>): seq<Entry> {
    Apply(entries, ReportTarget(t, owned, entries).actions)
  }

  /** Any entry of an unblocked target is current, external or planned for removal. */
  lemma UnblockedKinds(t: Desired, owned: seq<Owned>, entries: seq<Entry>, i: nat)
    requires i < |entries| && !Blocked(entries, |entries|)
    ensures Safe(entries, i)
    ensures entries[i].place.invocation == t.invocation ==> HasCurrent(t, entries)
    ensures !ToRemove(KindOf(t, owned, entries, i)) ==>
      if entries[i].place.invocation == t.invocation then !EarlierCurrent(t, entries, i) else KindOf(t, owned, entries, i).External?
  {
    assert Safe(entries, i);
  }

  /** An entry that carrying out the plan leaves: a kept one, or the missing hook in the last place. */
  lemma AppliedFrom(t: Desired, owned: seq<Owned>, entries: seq<Entry>, x: nat) returns (i: nat)
    requires !Blocked(entries, |entries|) && x < |Applied(t, owned, entries)|
    ensures i <= |entries|
    ensures i < |entries| ==> Applied(t, owned, entries)[x] == entries[i] && !ToRemove(KindOf(t, owned, entries, i))
    ensures i == |entries| ==> Applied(t, owned, entries)[x] == Entry(t, "") && !HasCurrent(t, entries)
  {
    var actions := ReportTarget(t, owned, entries).actions;
    AddedIs(t, owned, entries);
    if x < |Kept(entries, actions, |entries|)| {
      i := KeptFrom(entries, actions, |entries|, x);
      NamedIff(t, owned, entries, i);
    } else {
      i := |entries|;
    }
  }

  lemma AppliedPair(t: Desired, owned: seq<Owned>, entries: seq<Entry>, x: nat, y: nat) returns (i: nat, j: nat)
    requires !Blocked(entries, |entries|) && x < y < |Applied(t, owned, entries)|
    ensures i < j <= |entries|
    ensures Applied(t, owned, entries)[x] == entries[i] && !ToRemove(KindOf(t, owned, entries, i))
    ensures j < |entries| ==> Applied(t, owned, entries)[y] == entries[j] && !ToRemove(KindOf(t, owned, entries, j))
    ensures j == |entries| ==> Applied(t, owned, entries)[y] == Entry(t, "") && !HasCurrent(t, entries)
  {
    var actions := ReportTarget(t, owned, entries).actions;
    AddedIs(t, owned, entries);
    if y < |Kept(entries, actions, |entries|)| {
      i, j := KeptPair(entries, actions, |entries|, x, y);
      NamedIff(t, owned, entries, j);
    } else {
      i := KeptFrom(entries, actions, |entries|, x);
      j := |entries|;
    }
    NamedIff(t, owned, entries, i);
  }

  lemma AppliedHas(t: Desired, owned: seq<Owned>, entries: seq<Entry>, i: nat) returns (x: nat)
    requires !Blocked(entries, |entries|) && i <= |entries|
    requires i < |entries| ==> !ToRemove(KindOf(t, owned, entries, i))
    requires i == |entries| ==> !HasCurrent(t, entries)
    ensures x < |Applied(t, owned, entries)|
    ensures Applied(t, owned, entries)[x] == if i < |entries| then entries[i] else Entry(t, "")
    ensures i == |entries| ==> x == |Applied(t, owned, entries)| - 1
    ensures i < |entries| && !HasCurrent(t, entries) ==> x < |Applied(t, owned, entries)| - 1
  {
    var actions := ReportTarget(t, owned, entries).actions;
    AddedIs(t, owned, entries);
    if i < |entries| {
      NamedIff(t, owned, entries, i);
      x := KeptHas(entries, actions, |entries|, i);
    } else {
      x := |Kept(entries, actions, |entries|)|;
    }
  }

  /** No two of the entries left share a locator, unless the missing hook clashes with an external entry. */
  lemma AppliedApart(t: Desired, owned: seq<Owned>, entries: seq<Entry>, x: nat, y: nat)
    requires !Blocked(entries, |entries|) && !Clash(t, owned, entries) && x < y < |Applied(t, owned, entries)|
    ensures LocatorKey(Applied(t, owned, entries)[x].place) != LocatorKey(Applied(t, owned, entries)[y].place)
  {
    var i, j := AppliedPair(t, owned, entries, x, y);
    UnblockedKinds(t, owned, entries, i);
    if j < |entries| {
      assert !Shared(entries, i);
    }
  }

  /** Two of the entries left do not both run the desired command. */
  lemma AppliedOnce(t: Desired, owned: seq<Owned>, entries: seq<Entry>, x: nat, y: nat)
    requires !Blocked(entries, |entries|) && x < y < |Applied(t, owned, entries)|
    ensures Applied(t, owned, entries)[x].place.invocation != t.invocation || Applied(t, owned, entries)[y].place.invocation != t.invocation
  {
    var i, j := AppliedPair(t, owned, entries, x, y);
    UnblockedKinds(t, owned, entries, i);
    if j < |entries| {
      UnblockedKinds(t, owned, entries, j);
    }
  }

  /** What is left is well formed, and runs the desired command or one nobody owns. */
  lemma AppliedFine(t: Desired, owned: seq<Owned>, entries: seq<Entry>, x: nat)
    requires !Blocked(entries, |entries|) && PlaceProblem(t).None? && x < |Applied(t, owned, entries)|
    ensures var e := Applied(t, owned, entries)[x];
      && e.unsafeReason == "" && PlaceProblem(e.place).None?
      && (e.place.invocation == t.invocation || !IsOwned(e.place.invocation, owned))
  {
    var i := AppliedFrom(t, owned, entries, x);
    if i < |entries| {
      UnblockedKinds(t, owned, entries, i);
    }
  }

  /** The desired command is among what is left. */
  lemma AppliedCurrent(t: Desired, owned: seq<Owned>, entries: seq<Entry>) returns (x: nat)
    requires !Blocked(entries, |entries|)
    ensures x < |Applied(t, owned, entries)| && Applied(t, owned, entries)[x].place.invocation == t.invocation
  {
    if HasCurrent(t, entries) {
      var i := FirstCurrent(t, entries, |entries|);
      assert Safe(entries, i);
      x := AppliedHas(t, owned, entries, i);
    } else {
      x := AppliedHas(t, owned, entries, |entries|);
    }
  }

  lemma {:induction false} FirstCurrent(t: Desired, entries: seq<Entry>, n: nat) returns (i: nat)
    requires n <= |entries| && EarlierCurrent(t, entries, n)
    ensures i < n && entries[i].place.invocation == t.invocation && !EarlierCurrent(t, entries, i)
    decreases n
  {
    if EarlierCurrent(t, entries, n - 1) {
      i := FirstCurrent(t, entries, n - 1);
    } else {
      i := n - 1;
    }
  }

  /** The owned hooks of one target, in any order, prove the same commands. */
  ghost predicate SameOwned(owned: seq<Owned>, again: seq<Owned>) {
    forall v :: IsOwned(v, owned) <==> IsOwned(v, again)
  }

  lemma LaterSafe(t: Desired, owned: seq<Owned>, entries: seq<Entry>, later: seq<Entry>, i: nat)
    requires !Blocked(entries, |entries|) && !Clash(t, owned, entries) && PlaceProblem(t).None?
    requires multiset(later) == multiset(Applied(t, owned, entries)) && i < |later|
    ensures Safe(later, i)
  {
    var applied := Applied(t, owned, entries);
    var x := OneFrom(applied, later, i);
    AppliedFine(t, owned, entries, x);
    if j :| 0 <= j < |later| && j != i && LocatorKey(later[j].place) == LocatorKey(later[i].place) {
      var a, b := PairFrom(applied, later, i, j);
      AppliedApart(t, owned, entries, if a < b then a else b, if a < b then b else a);
    }
  }

  lemma LaterExternal(t: Desired, owned: seq<Owned>, again: seq<Owned>, entries: seq<Entry>, later: seq<Entry>, i: nat, j: nat)
    requires !Blocked(entries, |entries|) && !Clash(t, owned, entries) && PlaceProblem(t).None?
    requires multiset(later) == multiset(Applied(t, owned, entries)) && SameOwned(owned, again)
    requires i < |later| && j < |later| && i != j && later[i].place.invocation == t.invocation
    ensures KindOf(t, again, later, j).External?
  {
    LaterSafe(t, owned, entries, later, j);
    var applied := Applied(t, owned, entries);
    var a, b := PairFrom(applied, later, i, j);
    AppliedOnce(t, owned, entries, if a < b then a else b, if a < b then b else a);
    AppliedFine(t, owned, entries, b);
  }

  /** Without a clash the second audit finds one current hook beside external ones, and plans nothing. */
  lemma Settles(t: Desired, owned: seq<Owned>, again: seq<Owned>, entries: seq<Entry>, later: seq<Entry>) returns (i: nat)
    requires !Blocked(entries, |entries|) && !Clash(t, owned, entries) && PlaceProblem(t).None?
    requires multiset(later) == multiset(Applied(t, owned, entries)) && SameOwned(owned, again)
    ensures i < |later| && IsTheCurrent(t, again, later, i)
    ensures !Blocked(later, |later|) && ReportTarget(t, again, later).actions == []
  {
    var x := AppliedCurrent(t, owned, entries);
    i := OneFrom(later, Applied(t, owned, entries), x);
    forall j | 0 <= j < |later| ensures Safe(later, j) {
      LaterSafe(t, owned, entries, later, j);
    }
    forall j | 0 <= j < |later| && j != i ensures KindOf(t, again, later, j).External? {
      LaterExternal(t, owned, again, entries, later, i, j);
    }
    CurrentStays(t, again, later, i);
  }

  /** With a clash two of the entries left share a locator. */
  lemma ClashPair(t: Desired, owned: seq<Owned>, entries: seq<Entry>) returns (x: nat, y: nat)
    requires !Blocked(entries, |entries|) && Clash(t, owned, entries)
    ensures x < y < |Applied(t, owned, entries)|
    ensures LocatorKey(Applied(t, owned, entries)[x].place) == LocatorKey(Applied(t, owned, entries)[y].place)
  {
    var i :| 0 <= i < |entries| && KindOf(t, owned, entries, i).External? && LocatorKey(entries[i].place) == LocatorKey(t);
    x := AppliedHas(t, owned, entries, i);
    y := AppliedHas(t, owned, entries, |entries|);
  }

  /** With a clash the second audit is blocked. */
  lemma ClashBlocks(t: Desired, owned: seq<Owned>, entries: seq<Entry>, later: seq<Entry>)
    requires !Blocked(entries, |entries|) && Clash(t, owned, entries)
    requires multiset(later) == multiset(Applied(t, owned, entries))
    ensures Blocked(later, |later|)
  {
    var x, y := ClashPair(t, owned, entries);
    SharedStays(Applied(t, owned, entries), later, x, y);
  }

  lemma SharedStays(entries: seq<Entry>, later: seq<Entry>, x: nat, y: nat)
    requires multiset(later) == multiset(entries) && x < y < |entries| && LocatorKey(entries[x].place) == LocatorKey(entries[y].place)
    ensures Blocked(later, |later|)
  {
    var a, b := PairFrom(later, entries, x, y);
    SharingBlocks(later, a, b);
  }

  lemma SharingBlocks(entries: seq<Entry>, i: nat, j: nat)
    requires i < |entries| && j < |entries| && i != j && LocatorKey(entries[i].place) == LocatorKey(entries[j].place)
    ensures Blocked(entries, |entries|)
  {
    assert Shared(entries, i);
    assert !Safe(entries, i);
  }

  /** A rearranged blocked target is blocked. */
  lemma BlockedStays(entries: seq<Entry>, later: seq<Entry>)
    requires multiset(later) == multiset(entries) && Blocked(entries, |entries|)
    ensures Blocked(later, |later|)
  {
    var j :| 0 <= j < |entries| && !Safe(entries, j);
    if Shared(entries, j) {
      var k :| 0 <= k < |entries| && k != j && LocatorKey(entries[k].place) == LocatorKey(entries[j].place);
      var a, b := PairFrom(later, entries, j, k);
      SharingBlocks(later, a, b);
    } else {
      var a := OneFrom(later, entries, j);
      assert !Safe(later, a);
    }
  }

  lemma BlockedHasNoCurrent(t: Desired, owned: seq<Owned>, entries: seq<Entry>, i: nat)
    requires Blocked(entries, |entries|) && i < |entries|
    ensures !IsTheCurrent(t, owned, entries, i)
  {
    var j :| 0 <= j < |entries| && !Safe(entries, j);
    assert KindOf(t, owned, entries, j).Unsafe?;
  }

  ghost predicate OneCurrent(t: Desired, owned: seq<Owned>, entries: seq<Entry>) {
    exists i :: 0 <= i < |entries| && IsTheCurrent(t, owned, entries, i)
  }

  /**
   * Carrying out a target's plan and auditing what is left, in any order: nothing more is
   * planned; and there is one current hook beside external ones if and only if the target
   * was not blocked and the missing hook, if any, found its locator free of external entries.
   * Otherwise the target is blocked.
   */
  lemma TargetConverges(t: Desired, owned: seq<Owned>, again: seq<Owned>, entries: seq<Entry>, later: seq<Entry>)
    requires PlaceProblem(t).None? && SameOwned(owned, again)
    requires multiset(later) == multiset(Apply(entries, ReportTarget(t, owned, entries).actions))
    ensures ReportTarget(t, again, later).actions == []
    ensures OneCurrent(t, again, later) <==> !Blocked(entries, |entries|) && !Clash(t, owned, entries)
    ensures ReportTarget(t, again, later).blocked <==> Blocked(entries, |entries|) || Clash(t, owned, entries)
  {
    if Blocked(entries, |entries|) {
      KeptAll(entries, |entries|);
      assert Apply(entries, []) == entries;
      BlockedStays(entries, later);
    } else if Clash(t, owned, entries) {
      ClashBlocks(t, owned, entries, later);
    } else {
      var i := Settles(t, owned, again, entries, later);
    }
    if Blocked(later, |later|) {
      forall i | 0 <= i < |later| ensures !IsTheCurrent(t, again, later, i) {
        BlockedHasNoCurrent(t, again, later, i);
      }
    }
  }

  // ---------------------------------------------------------------- an addition at a taken locator

  lemma PlanOnTaken(t: Desired, v: Invocation)
    requires PlaceProblem(t).None? && InvocationProblem(v).None? && v != t.invocation
    ensures ReportTarget(t, [], [Entry(t.(invocation := v), "")]).actions == [Action(Add, Missing, t)]
    ensures Clash(t, [], [Entry(t.(invocation := v), "")])
  {
    var p := t.(invocation := v);
    var taken := [Entry(p, "")];
    assert PlaceProblem(p).None? && LocatorKey(taken[0].place) == LocatorKey(t);
    assert Safe(taken, 0);
    assert KindOf(t, [], taken, 0).External?;
    var fs := FindingsOf(t, [], taken);
    NoRemovals(fs, |fs|);
  }

  /**
   * For every desired hook: when an external entry sits at its locator, the plan is to add
   * the hook there, and carrying it out leaves the target blocked and without a current hook.
   */
  lemma AddedOverExternal(t: Desired, v: Invocation, later: seq<Entry>)
    requires PlaceProblem(t).None? && InvocationProblem(v).None? && v != t.invocation
    requires multiset(later) == multiset(Apply([Entry(t.(invocation := v), "")], [Action(Add, Missing, t)]))
    ensures ReportTarget(t, [], [Entry(t.(invocation := v), "")]).actions == [Action(Add, Missing, t)]
    ensures ReportTarget(t, [], later).blocked && !OneCurrent(t, [], later)
  {
    PlanOnTaken(t, v);
    TargetConverges(t, [], [], [Entry(t.(invocation := v), "")], later);
  }

  /** Such a hook and such an entry. */
  lemma AddedOverOther(t: Desired, v: Invocation, later: seq<Entry>)
    requires t == Place("codex", "Stop", "/hooks.json", ["0"], Invocation(FORM_EXEC, "/agentbell", [])) && v == Invocation(FORM_EXEC, "/other", [])
    requires multiset(later) == multiset(Apply([Entry(t.(invocation := v), "")], [Action(Add, Missing, t)]))
    ensures ReportTarget(t, [], later).blocked && !OneCurrent(t, [], later)
  {
    assert |v.executable| != |t.invocation.executable|;
    assert PathProblem(t.path, 1).None?;
    AddedOverExternal(t, v, later);
  }

  // ---------------------------------------------------------------- counting

  lemma {:induction false} EntriesAtCount(entries: seq<Entry>, key: string, n: nat, e: Entry)
    requires n <= |entries|
    ensures multiset(EntriesAt(entries, key, n))[e] == if KeyOf(e.place) == key then multiset(entries[..n])[e] else 0
    decreases n
  {
    if n > 0 {
      EntriesAtCount(entries, key, n - 1, e);
      assert entries[..n] == entries[..n - 1] + [entries[n - 1]];
    }
  }

  lemma {:induction false} KeptCount(entries: seq<Entry>, actions: seq<Action>, n: nat, e: Entry)
    requires n <= |entries|
    ensures multiset(Kept(entries, actions, n))[e] == if Named(actions, e.place) then 0 else multiset(entries[..n])[e]
    decreases n
  {
    if n > 0 {
      KeptCount(entries, actions, n - 1, e);
      assert entries[..n] == entries[..n - 1] + [entries[n - 1]];
    }
  }

  ghost predicate AddsAreMissing(actions: seq<Action>) {
    forall i :: 0 <= i < |actions| && actions[i].operation.Add? ==> actions[i].reason == Missing
  }

  lemma {:induction false} AddedCount(actions: seq<Action>, n: nat, e: Entry)
    requires n <= |actions| && AddsAreMissing(actions)
    ensures multiset(Added(actions, n))[e] == if e.unsafeReason == "" then multiset(actions[..n])[Action(Add, Missing, e.place)] else 0
    decreases n
  {
    if n > 0 {
      AddedCount(actions, n - 1, e);
      assert actions[..n] == actions[..n - 1] + [actions[n - 1]];
    }
  }

  lemma ApplyCount(entries: seq<Entry>, actions: seq<Action>, e: Entry)
    requires AddsAreMissing(actions)
    ensures multiset(Apply(entries, actions))[e] ==
      (if Named(actions, e.place) then 0 else multiset(entries)[e]) +
      (if e.unsafeReason == "" then multiset(actions)[Action(Add, Missing, e.place)] else 0)
  {
    KeptCount(entries, actions, |entries|, e);
    AddedCount(actions, |actions|, e);
    assert entries[..|entries|] == entries && actions[..|actions|] == actions;
  }

  // ---------------------------------------------------------------- the plan, target by target

  lemma PartActionKey(s: Request, t: Desired, a: Action)
    requires a in PartOf(s, t).actions
    ensures KeyOf(a.place) == KeyOf(t) && (a.operation.Add? ==> a == Action(Add, Missing, t))
  {
    PartIsSafe(s, t, a);
    if a.operation.Remove? {
      var entries := EntriesAt(s.entries, KeyOf(t), |s.entries|);
      var i :| 0 <= i < |entries| && PlannedFor(t, OwnedAt(s.owned, KeyOf(t), |s.owned|), entries, i, a) && OnlyAt(entries, i);
      AuditOrder.EntriesAtFrom(s.entries, KeyOf(t), |s.entries|, i);
    }
  }

  lemma {:induction false} ActionsCount(parts: seq<TargetReport>, n: nat, k: nat, x: Action)
    requires n <= |parts| && k < |parts| && forall j :: 0 <= j < |parts| && j != k ==> x !in parts[j].actions
    ensures multiset(ActionsIn(parts, n))[x] == if k < n then multiset(parts[k].actions)[x] else 0
    decreases n
  {
    if n > 0 {
      ActionsCount(parts, n - 1, k, x);
    }
  }

  /** The report lists for a target exactly the actions of its own part. */
  lemma PlanOfTarget(s: Request, rep: Report, k: nat, x: Action)
    requires DistinctTargets(s.desired) && IsReport(s, rep) && k < |s.desired| && KeyOf(x.place) == KeyOf(s.desired[k])
    ensures multiset(rep.actions)[x] == multiset(PartOf(s, s.desired[k]).actions)[x]
  {
    var parts := PartsOf(s);
    forall j | 0 <= j < |parts| && j != k ensures x !in parts[j].actions {
      if x in parts[j].actions {
        PartActionKey(s, s.desired[j], x);
      }
    }
    ActionsCount(parts, |parts|, k, x);
  }

  lemma NamedOfTarget(s: Request, rep: Report, k: nat, p: Place)
    requires DistinctTargets(s.desired) && IsReport(s, rep) && k < |s.desired| && KeyOf(p) == KeyOf(s.desired[k])
    ensures Named(rep.actions, p) <==> Named(PartOf(s, s.desired[k]).actions, p)
  {
    var part := PartOf(s, s.desired[k]).actions;
    if i :| 0 <= i < |rep.actions| && rep.actions[i].operation.Remove? && rep.actions[i].place == p {
      PlanOfTarget(s, rep, k, rep.actions[i]);
      assert rep.actions[i] in multiset(part);
    }
    if i :| 0 <= i < |part| && part[i].operation.Remove? && part[i].place == p {
      PlanOfTarget(s, rep, k, part[i]);
      assert part[i] in multiset(rep.actions);
    }
  }

  lemma PlanAddsMissing(s: Request, rep: Report)
    requires IsReport(s, rep)
    ensures AddsAreMissing(rep.actions)
  {
    forall i | 0 <= i < |rep.actions| && rep.actions[i].operation.Add? ensures rep.actions[i].reason == Missing {
      var t := PlanIsSafe(s, rep, rep.actions[i]);
    }
  }

  lemma PartAddsMissing(s: Request, t: Desired)
    ensures AddsAreMissing(PartOf(s, t).actions)
  {
    var actions := PartOf(s, t).actions;
    forall i | 0 <= i < |actions| && actions[i].operation.Add? ensures actions[i].reason == Missing {
      PartActionKey(s, t, actions[i]);
    }
  }

  // ---------------------------------------------------------------- the whole request

  /** The request parsed again after the plan was carried out. */
  ghost function After(r: Request, actions: seq<Action>): Request {
    r.(entries := Apply(r.entries, actions))
  }

  ghost function TargetEntries(s: Request, t: Desired): seq<Entry> {
    EntriesAt(s.entries, KeyOf(t), |s.entries|)
  }

  ghost function TargetOwned(s: Request, t: Desired): seq<Owned> {
    OwnedAt(s.owned, KeyOf(t), |s.owned|)
  }

  lemma NormalCount(r: Request, s: Request, t: Desired, e: Entry)
    requires IsNormal(r, s) && t in r.desired
    ensures multiset(TargetEntries(s, t))[e] == if KeyOf(e.place) == KeyOf(t) then multiset(r.entries)[e] else 0
  {
    EntriesAtCount(s.entries, KeyOf(t), |s.entries|, e);
    AuditOrder.RelevantCount(r.desired, r.entries, |r.entries|, e);
    assert s.entries[..|s.entries|] == s.entries && r.entries[..|r.entries|] == r.entries;
    if KeyOf(e.place) == KeyOf(t) {
      var i :| 0 <= i < |r.desired| && r.desired[i] == t;
      assert Wanted(r.desired, KeyOf(e.place));
    }
  }

  /** Auditing again, each target sees its own entries with its own part of the plan carried out. */
  lemma AfterAtTarget(r: Request, s: Request, rep: Report, s': Request, k: nat)
    requires Accepts(r) && IsNormal(r, s) && IsReport(s, rep) && IsNormal(After(r, rep.actions), s') && k < |s.desired|
    ensures multiset(TargetEntries(s', s.desired[k])) == multiset(Apply(TargetEntries(s, s.desired[k]), PartOf(s, s.desired[k]).actions))
  {
    var t := s.desired[k];
    NormalIsClean(r, s);
    assert t in multiset(r.desired);
    var before, later := Apply(TargetEntries(s, t), PartOf(s, t).actions), TargetEntries(s', t);
    forall e ensures multiset(later)[e] == multiset(before)[e] {
      AfterCount(r, s, rep, s', k, e);
    }
    SameCounts(later, before);
  }

  lemma SameCounts(a: seq<Entry>, b: seq<Entry>)
    requires forall e :: multiset(a)[e] == multiset(b)[e]
    ensures multiset(a) == multiset(b)
  {
  }

  lemma AfterCount(r: Request, s: Request, rep: Report, s': Request, k: nat, e: Entry)
    requires IsNormal(r, s) && DistinctTargets(s.desired) && IsReport(s, rep) && IsNormal(After(r, rep.actions), s')
    requires k < |s.desired| && s.desired[k] in r.desired
    ensures multiset(TargetEntries(s', s.desired[k]))[e] == multiset(Apply(TargetEntries(s, s.desired[k]), PartOf(s, s.desired[k]).actions))[e]
  {
    var t := s.desired[k];
    var part := PartOf(s, t).actions;
    NormalCount(r, s, t, e);
    NormalCount(After(r, rep.actions), s', t, e);
    PlanAddsMissing(s, rep);
    PartAddsMissing(s, t);
    ApplyCount(r.entries, rep.actions, e);
    ApplyCount(TargetEntries(s, t), part, e);
    var add := Action(Add, Missing, e.place);
    if KeyOf(e.place) == KeyOf(t) {
      NamedOfTarget(s, rep, k, e.place);
      PlanOfTarget(s, rep, k, add);
    } else if add in part {
      PartActionKey(s, t, add);
    }
  }

  lemma {:induction false} OwnedIff(owned: seq<Owned>, key: string, n: nat, v: Invocation)
    requires n <= |owned|
    ensures IsOwned(v, OwnedAt(owned, key, n)) <==>
      exists i :: 0 <= i < n && TargetKey(owned[i].adapter, owned[i].event) == key && owned[i].invocation == v
    decreases n
  {
    if n > 0 {
      OwnedIff(owned, key, n - 1, v);
      var shorter, all := OwnedAt(owned, key, n - 1), OwnedAt(owned, key, n);
      OwnedMember(v, shorter);
      OwnedMember(v, all);
      if IsOwned(v, shorter) {
        var i :| 0 <= i < |shorter| && shorter[i].invocation == v;
        assert all[i].invocation == v;
      }
      if TargetKey(owned[n - 1].adapter, owned[n - 1].event) == key {
        assert all[|shorter|] == owned[n - 1];
      }
    }
  }

  lemma OwnedMember(v: Invocation, owned: seq<Owned>)
    ensures IsOwned(v, owned) <==> exists i :: 0 <= i < |owned| && owned[i].invocation == v
  {
  }

  lemma OwnedStays(a: seq<Owned>, b: seq<Owned>, key: string)
    requires multiset(a) == multiset(b)
    ensures SameOwned(OwnedAt(a, key, |a|), OwnedAt(b, key, |b|))
  {
    forall v ensures IsOwned(v, OwnedAt(a, key, |a|)) <==> IsOwned(v, OwnedAt(b, key, |b|)) {
      OwnedIff(a, key, |a|, v);
      OwnedIff(b, key, |b|, v);
      if i :| 0 <= i < |a| && TargetKey(a[i].adapter, a[i].event) == key && a[i].invocation == v {
        var j := OneFrom(b, a, i);
      }
      if i :| 0 <= i < |b| && TargetKey(b[i].adapter, b[i].event) == key && b[i].invocation == v {
        var j := OneFrom(a, b, i);
      }
    }
  }

  /** The request parsed again is accepted. */
  lemma AfterIsAccepted(r: Request, s: Request, rep: Report)
    requires Accepts(r) && IsNormal(r, s) && IsReport(s, rep)
    ensures Accepts(After(r, rep.actions))
  {
    var entries := Apply(r.entries, rep.actions);
    forall i | 0 <= i < |entries| ensures GoodEntry(entries[i]) {
      AppliedIsGood(r, s, rep, i);
    }
  }

  lemma AppliedIsGood(r: Request, s: Request, rep: Report, i: nat)
    requires Accepts(r) && IsNormal(r, s) && IsReport(s, rep) && i < |Apply(r.entries, rep.actions)|
    ensures GoodEntry(Apply(r.entries, rep.actions)[i])
  {
    if i < |Kept(r.entries, rep.actions, |r.entries|)| {
      var j := KeptFrom(r.entries, rep.actions, |r.entries|, i);
    } else {
      var a := AddedFrom(rep.actions, |rep.actions|, i - |Kept(r.entries, rep.actions, |r.entries|)|);
      var t := PlanIsSafe(s, rep, rep.actions[a]);
      assert t in multiset(r.desired);
    }
  }

  lemma {:induction false} AddedFrom(actions: seq<Action>, n: nat, x: nat) returns (i: nat)
    requires n <= |actions| && x < |Added(actions, n)|
    ensures i < n && actions[i].operation.Add? && Added(actions, n)[x] == Entry(actions[i].place, "")
    decreases n
  {
    if x < |Added(actions, n - 1)| {
      i := AddedFrom(actions, n - 1, x);
    } else {
      i := n - 1;
    }
  }

  /** The target converges: it was not blocked, and its missing hook does not clash. */
  ghost predicate CanSettle(s: Request, t: Desired) {
    !PartOf(s, t).blocked && !Clash(t, TargetOwned(s, t), TargetEntries(s, t))
  }

  lemma TargetSettles(r: Request, s: Request, rep: Report, s': Request, t: Desired)
    requires Accepts(r) && IsNormal(r, s) && IsReport(s, rep) && IsNormal(After(r, rep.actions), s') && t in r.desired
    ensures PartOf(s', t).actions == []
    ensures HasOneCurrent(s', t) <==> CanSettle(s, t)
    ensures PartOf(s', t).blocked <==> !CanSettle(s, t)
  {
    assert t in multiset(s.desired);
    var k :| 0 <= k < |s.desired| && s.desired[k] == t;
    AfterAtTarget(r, s, rep, s', k);
    OwnedStays(s.owned, s'.owned, KeyOf(t));
    TargetConverges(t, TargetOwned(s, t), TargetOwned(s', t), TargetEntries(s, t), TargetEntries(s', t));
    assert HasOneCurrent(s', t) <==> OneCurrent(t, TargetOwned(s', t), TargetEntries(s', t));
  }

  /**
   * Carrying out the report's own plan and auditing again: the request is accepted, nothing
   * more is planned, and a desired target has one current hook beside external ones if and
   * only if it was not blocked and no external entry of it has the locator of its missing hook.
   */
  lemma AuditConverges(r: Request, s: Request, rep: Report, s': Request, rep': Report)
    requires Accepts(r) && IsNormal(r, s) && IsReport(s, rep)
    requires IsNormal(After(r, rep.actions), s') && IsReport(s', rep')
    ensures Accepts(After(r, rep.actions))
    ensures rep'.actions == []
    ensures forall t :: t in r.desired ==> (HasOneCurrent(s', t) <==> CanSettle(s, t))
    ensures rep'.blocked <==> exists t :: t in r.desired && !CanSettle(s, t)
  {
    AfterIsAccepted(r, s, rep);
    forall t | t in r.desired
      ensures PartOf(s', t).actions == [] && (HasOneCurrent(s', t) <==> CanSettle(s, t)) && (PartOf(s', t).blocked <==> !CanSettle(s, t))
    {
      TargetSettles(r, s, rep, s', t);
    }
    var parts := PartsOf(s');
    forall k | 0 <= k < |parts| ensures s'.desired[k] in r.desired && parts[k].actions == [] {
      assert s'.desired[k] in multiset(r.desired);
    }
    NoActions(parts, |parts|);
    assert multiset(rep'.actions) == multiset{};
    assert |rep'.actions| == |multiset(rep'.actions)|;
    BlockedAgain(r, s, s');
  }

  lemma BlockedAgain(r: Request, s: Request, s': Request)
    requires multiset(s'.desired) == multiset(r.desired)
    requires forall t :: t in r.desired ==> (PartOf(s', t).blocked <==> !CanSettle(s, t))
    ensures BlockedIn(PartsOf(s'), |s'.desired|) <==> exists t :: t in r.desired && !CanSettle(s, t)
  {
    var parts := PartsOf(s');
    if k :| 0 <= k < |parts| && parts[k].blocked {
      assert s'.desired[k] in multiset(r.desired);
    }
    if t :| t in r.desired && !CanSettle(s, t) {
      assert t in multiset(s'.desired);
      var k :| 0 <= k < |s'.desired| && s'.desired[k] == t;
      assert parts[k].blocked;
    }
  }
}
