/**
 * The audit does not depend on the order of its request, provided no string holds a
 * separator and no list element is empty: the sort keys then tell elements apart.
 */
module AuditOrder {
  import opened Common
  import opened Text
  import opened Sorting
  import opened HookAudit
  import opened AuditReports

  // ---------------------------------------------------------------- joined keys

  predicate Plain(s: string) {
    UNIT !in s && RECORD !in s
  }

  predicate PlainList(l: seq<string>) {
    forall i :: 0 <= i < |l| ==> Plain(l[i]) && l[i] != ""
  }

  ghost predicate Lacks(parts: seq<string>, c: char) {
    forall i :: 0 <= i < |parts| ==> c !in parts[i]
  }

  lemma JoinInjective(a: seq<string>, b: seq<string>, c: char)
    requires a != [] && b != [] && Lacks(a, c) && Lacks(b, c) && Join(a, c) == Join(b, c)
    ensures a == b
  {
    SplitJoin(a, c);
    SplitJoin(b, c);
  }

  lemma {:induction false} JoinLacks(parts: seq<string>, c: char, d: char)
    requires c != d && Lacks(parts, d)
    ensures d !in Join(parts, c)
  {
    if |parts| > 1 {
      assert Lacks(parts[1..], d);
      JoinLacks(parts[1..], c, d);
    }
  }

  lemma JoinNotEmpty(l: seq<string>, c: char)
    requires l != [] && l[0] != ""
    ensures Join(l, c) != ""
  {
  }

  /** Lists of non-empty plain elements are told apart by their joins. */
  lemma ListInjective(l: seq<string>, m: seq<string>)
    requires PlainList(l) && PlainList(m) && Join(l, UNIT) == Join(m, UNIT)
    ensures l == m
  {
    if l == [] && m != [] {
      JoinNotEmpty(m, UNIT);
    } else if l != [] && m == [] {
      JoinNotEmpty(l, UNIT);
    } else if l != [] {
      JoinInjective(l, m, UNIT);
    }
  }

  lemma {:induction false} JoinHead(mid: seq<string>, post: seq<string>, c: char)
    requires mid != []
    ensures Join([Join(mid, c)] + post, c) == Join(mid + post, c)
  {
    if post == [] {
      assert [Join(mid, c)] + post == [Join(mid, c)] && mid + post == mid;
    } else if |mid| == 1 {
      assert [Join(mid, c)] + post == mid + post;
    } else {
      JoinHead(mid[1..], post, c);
      var rest := Join(mid[1..], c);
      assert (mid + post)[1..] == mid[1..] + post;
      assert ([Join(mid, c)] + post)[1..] == post && ([rest] + post)[1..] == post;
      assert Join([rest] + post, c) == rest + [c] + Join(post, c);
      assert Join(mid + post, c) == mid[0] + [c] + (rest + [c] + Join(post, c));
      assert Join([Join(mid, c)] + post, c) == (mid[0] + [c] + rest) + [c] + Join(post, c);
    }
  }

  /** A join among the parts of a join with the same separator dissolves. */
  lemma {:induction false} JoinNested(pre: seq<string>, mid: seq<string>, post: seq<string>, c: char)
    requires mid != []
    ensures Join(pre + [Join(mid, c)] + post, c) == Join(pre + mid + post, c)
  {
    if pre == [] {
      JoinHead(mid, post, c);
      assert pre + [Join(mid, c)] + post == [Join(mid, c)] + post && pre + mid + post == mid + post;
    } else {
      JoinNested(pre[1..], mid, post, c);
      assert (pre + [Join(mid, c)] + post)[1..] == pre[1..] + [Join(mid, c)] + post;
      assert (pre + mid + post)[1..] == pre[1..] + mid + post;
    }
  }

  // ---------------------------------------------------------------- clean requests

  predicate CleanInvocation(v: Invocation) {
    Plain(v.form) && Plain(v.executable) && PlainList(v.args)
  }

  predicate CleanPlace(p: Place) {
    Plain(p.adapter) && Plain(p.event) && Plain(p.source) && PlainList(p.path) && CleanInvocation(p.invocation)
  }

  predicate CleanEntry(e: Entry) {
    CleanPlace(e.place) && Plain(e.unsafeReason)
  }

  predicate CleanOwned(o: Owned) {
    Plain(o.adapter) && Plain(o.event) && CleanInvocation(o.invocation) && Plain(o.proof)
  }

  ghost predicate CleanRequest(r: Request) {
    && (forall i :: 0 <= i < |r.desired| ==> CleanPlace(r.desired[i]))
    && (forall i :: 0 <= i < |r.owned| ==> CleanOwned(r.owned[i]))
    && (forall i :: 0 <= i < |r.entries| ==> CleanEntry(r.entries[i]))
  }

  // ---------------------------------------------------------------- the keys tell apart

  function InvocationFields(v: Invocation): seq<string> {
    [v.form, v.executable, Join(v.args, UNIT)]
  }

  lemma InvocationLacks(v: Invocation)
    requires CleanInvocation(v)
    ensures Lacks(InvocationFields(v), RECORD)
  {
    JoinLacks(v.args, UNIT, RECORD);
  }

  lemma InvocationInjective(v: Invocation, w: Invocation)
    requires CleanInvocation(v) && CleanInvocation(w) && InvocationFields(v) == InvocationFields(w)
    ensures v == w
  {
    assert InvocationFields(v)[0] == v.form && InvocationFields(v)[1] == v.executable && InvocationFields(v)[2] == Join(v.args, UNIT);
    assert InvocationFields(w)[0] == w.form && InvocationFields(w)[1] == w.executable && InvocationFields(w)[2] == Join(w.args, UNIT);
    ListInjective(v.args, w.args);
  }

  /** The joined key around an invocation is told apart by what comes before, the invocation and what comes after. */
  lemma KeyInjective(pre: seq<string>, v: Invocation, post: seq<string>, pre': seq<string>, w: Invocation, post': seq<string>)
    requires |pre| == |pre'| && |post| == |post'|
    requires Lacks(pre, RECORD) && Lacks(pre', RECORD) && Lacks(post, RECORD) && Lacks(post', RECORD)
    requires CleanInvocation(v) && CleanInvocation(w)
    requires Join(pre + [InvocationKey(v)] + post, RECORD) == Join(pre' + [InvocationKey(w)] + post', RECORD)
    ensures pre == pre' && v == w && post == post'
  {
    var f, g := InvocationFields(v), InvocationFields(w);
    JoinNested(pre, f, post, RECORD);
    JoinNested(pre', g, post', RECORD);
    InvocationLacks(v);
    InvocationLacks(w);
    var a, b := pre + f + post, pre' + g + post';
    assert Lacks(a, RECORD) && Lacks(b, RECORD);
    JoinInjective(a, b, RECORD);
    assert a[..|pre|] == pre && b[..|pre|] == pre';
    assert a[|pre|..|pre| + 3] == f && b[|pre|..|pre| + 3] == g;
    assert a[|pre| + 3..] == post && b[|pre| + 3..] == post';
    InvocationInjective(v, w);
  }

  function Locator(p: Place): seq<string> {
    [p.adapter, p.event, p.source, Join(p.path, UNIT)]
  }

  lemma LocatorLacks(p: Place)
    requires CleanPlace(p)
    ensures Lacks(Locator(p), RECORD)
  {
    JoinLacks(p.path, UNIT, RECORD);
  }

  lemma LocatorInjective(p: Place, q: Place)
    requires CleanPlace(p) && CleanPlace(q) && Locator(p) == Locator(q) && p.invocation == q.invocation
    ensures p == q
  {
    assert Locator(p)[0] == p.adapter && Locator(p)[1] == p.event && Locator(p)[2] == p.source && Locator(p)[3] == Join(p.path, UNIT);
    assert Locator(q)[0] == q.adapter && Locator(q)[1] == q.event && Locator(q)[2] == q.source && Locator(q)[3] == Join(q.path, UNIT);
    ListInjective(p.path, q.path);
  }

  /** Two clean places share a locator exactly when they name the same adapter, event, file and path. */
  lemma LocatorIff(p: Place, q: Place)
    requires CleanPlace(p) && CleanPlace(q)
    ensures LocatorKey(p) == LocatorKey(q) <==> p.adapter == q.adapter && p.event == q.event && p.source == q.source && p.path == q.path
  {
    if LocatorKey(p) == LocatorKey(q) {
      LocatorLacks(p);
      LocatorLacks(q);
      JoinInjective(Locator(p), Locator(q), RECORD);
      assert Locator(p)[0] == p.adapter && Locator(p)[1] == p.event && Locator(p)[2] == p.source && Locator(p)[3] == Join(p.path, UNIT);
      assert Locator(q)[0] == q.adapter && Locator(q)[1] == q.event && Locator(q)[2] == q.source && Locator(q)[3] == Join(q.path, UNIT);
      ListInjective(p.path, q.path);
    }
  }

  lemma DesiredApart(p: Desired, q: Desired)
    requires CleanPlace(p) && CleanPlace(q) && DesiredKey(p) == DesiredKey(q)
    ensures p == q
  {
    LocatorLacks(p);
    LocatorLacks(q);
    assert Locator(p) + [InvocationKey(p.invocation)] + [] == [p.adapter, p.event, p.source, Join(p.path, UNIT), InvocationKey(p.invocation)];
    assert Locator(q) + [InvocationKey(q.invocation)] + [] == [q.adapter, q.event, q.source, Join(q.path, UNIT), InvocationKey(q.invocation)];
    KeyInjective(Locator(p), p.invocation, [], Locator(q), q.invocation, []);
    LocatorInjective(p, q);
  }

  lemma EntriesApart(e: Entry, f: Entry)
    requires CleanEntry(e) && CleanEntry(f) && EntryKey(e) == EntryKey(f)
    ensures e == f
  {
    var p, q := e.place, f.place;
    LocatorLacks(p);
    LocatorLacks(q);
    assert Locator(p) + [InvocationKey(p.invocation)] + [e.unsafeReason] == [p.adapter, p.event, p.source, Join(p.path, UNIT), InvocationKey(p.invocation), e.unsafeReason];
    assert Locator(q) + [InvocationKey(q.invocation)] + [f.unsafeReason] == [q.adapter, q.event, q.source, Join(q.path, UNIT), InvocationKey(q.invocation), f.unsafeReason];
    KeyInjective(Locator(p), p.invocation, [e.unsafeReason], Locator(q), q.invocation, [f.unsafeReason]);
    assert [e.unsafeReason][0] == [f.unsafeReason][0];
    LocatorInjective(p, q);
  }

  lemma OwnedApart(o: Owned, u: Owned)
    requires CleanOwned(o) && CleanOwned(u) && OwnedKey(o) == OwnedKey(u)
    ensures o == u
  {
    assert [o.adapter, o.event] + [InvocationKey(o.invocation)] + [o.proof] == [o.adapter, o.event, InvocationKey(o.invocation), o.proof];
    assert [u.adapter, u.event] + [InvocationKey(u.invocation)] + [u.proof] == [u.adapter, u.event, InvocationKey(u.invocation), u.proof];
    KeyInjective([o.adapter, o.event], o.invocation, [o.proof], [u.adapter, u.event], u.invocation, [u.proof]);
    assert [o.adapter, o.event][0] == [u.adapter, u.event][0] && [o.adapter, o.event][1] == [u.adapter, u.event][1];
    assert [o.proof][0] == [u.proof][0];
  }

  function ActionFields(a: Action): seq<string> {
    [a.place.adapter, a.place.event, OperationName(a.operation), a.place.source, Join(a.place.path, UNIT)]
  }

  lemma ActionLacks(a: Action)
    requires CleanPlace(a.place)
    ensures Lacks(ActionFields(a), RECORD)
  {
    JoinLacks(a.place.path, UNIT, RECORD);
  }

  /** An action's key tells everything but its reason. */
  lemma ActionsAlike(a: Action, b: Action)
    requires CleanPlace(a.place) && CleanPlace(b.place) && ActionKey(a) == ActionKey(b)
    ensures a.operation == b.operation && a.place == b.place
  {
    ActionLacks(a);
    ActionLacks(b);
    var f, g := ActionFields(a), ActionFields(b);
    assert f + [InvocationKey(a.place.invocation)] + [] == [a.place.adapter, a.place.event, OperationName(a.operation), a.place.source, Join(a.place.path, UNIT), InvocationKey(a.place.invocation)];
    assert g + [InvocationKey(b.place.invocation)] + [] == [b.place.adapter, b.place.event, OperationName(b.operation), b.place.source, Join(b.place.path, UNIT), InvocationKey(b.place.invocation)];
    KeyInjective(f, a.place.invocation, [], g, b.place.invocation, []);
    assert f[0] == g[0] && f[1] == g[1] && f[2] == g[2] && f[3] == g[3] && f[4] == g[4];
    ListInjective(a.place.path, b.place.path);
  }

  // ---------------------------------------------------------------- permuted requests

  ghost predicate Permuted(r: Request, q: Request) {
    multiset(r.desired) == multiset(q.desired) && multiset(r.owned) == multiset(q.owned) && multiset(r.entries) == multiset(q.entries)
  }

  lemma PermutedAccepts(r: Request, q: Request)
    requires Permuted(r, q) && Accepts(r)
    ensures Accepts(q)
  {
    SameLength(r.desired, q.desired);
    PermutedTargets(r.desired, q.desired);
    forall i | 0 <= i < |q.desired| ensures PlaceProblem(q.desired[i]).None? {
      assert q.desired[i] in multiset(r.desired);
    }
    forall i | 0 <= i < |q.owned| ensures GoodOwned(q.desired, q.owned[i]) {
      assert q.owned[i] in multiset(r.owned);
      PermutedWanted(r.desired, q.desired, TargetKey(q.owned[i].adapter, q.owned[i].event));
    }
    forall i | 0 <= i < |q.entries| ensures GoodEntry(q.entries[i]) {
      assert q.entries[i] in multiset(r.entries);
    }
  }

  lemma {:induction false} RelevantCount(desired: seq<Desired>, entries: seq<Entry>, n: nat, e: Entry)
    requires n <= |entries|
    ensures multiset(Relevant(desired, entries, n))[e] == if Wanted(desired, KeyOf(e.place)) then multiset(entries[..n])[e] else 0
    decreases n
  {
    if n > 0 {
      RelevantCount(desired, entries, n - 1, e);
      assert entries[..n] == entries[..n - 1] + [entries[n - 1]];
    }
  }

  lemma PermutedRelevant(r: Request, q: Request)
    requires Permuted(r, q)
    ensures multiset(Relevant(r.desired, r.entries, |r.entries|)) == multiset(Relevant(q.desired, q.entries, |q.entries|))
  {
    assert r.entries[..|r.entries|] == r.entries && q.entries[..|q.entries|] == q.entries;
    forall e: Entry
      ensures multiset(Relevant(r.desired, r.entries, |r.entries|))[e] == multiset(Relevant(q.desired, q.entries, |q.entries|))[e]
    {
      RelevantCount(r.desired, r.entries, |r.entries|, e);
      RelevantCount(q.desired, q.entries, |q.entries|, e);
      PermutedWanted(r.desired, q.desired, KeyOf(e.place));
    }
  }

  lemma NormalStaysClean(r: Request, s: Request)
    requires CleanRequest(r) && IsNormal(r, s)
    ensures CleanRequest(s)
  {
    forall i | 0 <= i < |s.desired| ensures CleanPlace(s.desired[i]) {
      assert s.desired[i] in multiset(r.desired);
    }
    forall i | 0 <= i < |s.owned| ensures CleanOwned(s.owned[i]) {
      assert s.owned[i] in multiset(r.owned);
    }
    assert r.entries[..|r.entries|] == r.entries;
    forall i | 0 <= i < |s.entries| ensures CleanEntry(s.entries[i]) {
      assert s.entries[i] in multiset(s.entries);
      RelevantCount(r.desired, r.entries, |r.entries|, s.entries[i]);
      assert s.entries[i] in multiset(r.entries);
    }
  }

  /** A clean request has one normal order, whatever order it came in. */
  lemma OneNormalOrder(r: Request, q: Request, s: Request, t: Request)
    requires Permuted(r, q) && CleanRequest(r) && IsNormal(r, s) && IsNormal(q, t)
    ensures s == t
  {
    NormalStaysClean(r, s);
    PermutedRelevant(r, q);
    forall i, j | 0 <= i < |s.desired| && 0 <= j < |s.desired| && DesiredKey(s.desired[i]) == DesiredKey(s.desired[j]) ensures s.desired[i] == s.desired[j] {
      DesiredApart(s.desired[i], s.desired[j]);
    }
    OneOrder(s.desired, t.desired, DesiredKey);
    forall i, j | 0 <= i < |s.owned| && 0 <= j < |s.owned| && OwnedKey(s.owned[i]) == OwnedKey(s.owned[j]) ensures s.owned[i] == s.owned[j] {
      OwnedApart(s.owned[i], s.owned[j]);
    }
    OneOrder(s.owned, t.owned, OwnedKey);
    forall i, j | 0 <= i < |s.entries| && 0 <= j < |s.entries| && EntryKey(s.entries[i]) == EntryKey(s.entries[j]) ensures s.entries[i] == s.entries[j] {
      EntriesApart(s.entries[i], s.entries[j]);
    }
    OneOrder(s.entries, t.entries, EntryKey);
  }

  // ---------------------------------------------------------------- one report

  lemma {:induction false} EntriesAtFrom(entries: seq<Entry>, key: string, n: nat, i: nat)
    requires n <= |entries| && i < |EntriesAt(entries, key, n)|
    ensures EntriesAt(entries, key, n)[i] in entries && KeyOf(EntriesAt(entries, key, n)[i].place) == key
    decreases n
  {
    var before := EntriesAt(entries, key, n - 1);
    if i < |before| {
      EntriesAtFrom(entries, key, n - 1, i);
    }
  }

  /** A planned action has a clean place that belongs to its target. */
  lemma ActionIsClean(s: Request, t: Desired, a: Action)
    requires CleanRequest(s) && t in s.desired && a in PartOf(s, t).actions
    ensures CleanPlace(a.place) && KeyOf(a.place) == KeyOf(t)
  {
    PartIsSafe(s, t, a);
    if a.operation.Remove? {
      RemovalIsClean(s, t, a);
    }
  }

  lemma RemovalIsClean(s: Request, t: Desired, a: Action)
    requires CleanRequest(s) && RemovalPlanned(s, t, a)
    ensures CleanPlace(a.place) && KeyOf(a.place) == KeyOf(t)
  {
    var entries := EntriesAt(s.entries, KeyOf(t), |s.entries|);
    var i :| 0 <= i < |entries| && PlannedFor(t, OwnedAt(s.owned, KeyOf(t), |s.owned|), entries, i, a);
    EntriesAtFrom(s.entries, KeyOf(t), |s.entries|, i);
    var k :| 0 <= k < |s.entries| && s.entries[k] == entries[i];
    assert CleanEntry(s.entries[k]);
  }

  lemma SameRemoval(s: Request, t: Desired, a: Action, b: Action)
    requires RemovalPlanned(s, t, a) && RemovalPlanned(s, t, b) && a.place == b.place
    ensures a == b
  {
    var entries := EntriesAt(s.entries, KeyOf(t), |s.entries|);
    var owned := OwnedAt(s.owned, KeyOf(t), |s.owned|);
    var i :| 0 <= i < |entries| && PlannedFor(t, owned, entries, i, a) && OnlyAt(entries, i);
    var j :| 0 <= j < |entries| && PlannedFor(t, owned, entries, j, b);
    assert LocatorKey(entries[j].place) == LocatorKey(entries[i].place);
  }

  lemma SameTarget(s: Request, t: Desired, u: Desired)
    requires DistinctTargets(s.desired) && t in s.desired && u in s.desired && KeyOf(t) == KeyOf(u)
    ensures t == u
  {
    var i :| 0 <= i < |s.desired| && s.desired[i] == t;
    var j :| 0 <= j < |s.desired| && s.desired[j] == u;
    assert i == j;
  }

  /** Two planned actions with the same key are the same action. */
  lemma ActionsApart(s: Request, a: Action, b: Action)
    requires CleanRequest(s) && DistinctTargets(s.desired) && ActionKey(a) == ActionKey(b)
    requires a in ActionsIn(PartsOf(s), |s.desired|) && b in ActionsIn(PartsOf(s), |s.desired|)
    ensures a == b
  {
    var i := ActionFromPart(PartsOf(s), |s.desired|, a);
    var j := ActionFromPart(PartsOf(s), |s.desired|, b);
    var t, u := s.desired[i], s.desired[j];
    ActionIsClean(s, t, a);
    ActionIsClean(s, u, b);
    ActionsAlike(a, b);
    SameTarget(s, t, u);
    PartIsSafe(s, t, a);
    PartIsSafe(s, t, b);
    if a.operation.Remove? {
      SameRemoval(s, t, a, b);
    }
  }

  lemma OneReport(s: Request, a: Report, b: Report)
    requires CleanRequest(s) && DistinctTargets(s.desired) && IsReport(s, a) && IsReport(s, b)
    ensures a == b
  {
    var planned := ActionsIn(PartsOf(s), |s.desired|);
    forall i, j | 0 <= i < |a.actions| && 0 <= j < |a.actions| && ActionKey(a.actions[i]) == ActionKey(a.actions[j]) ensures a.actions[i] == a.actions[j] {
      assert a.actions[i] in multiset(planned) && a.actions[j] in multiset(planned);
      ActionsApart(s, a.actions[i], a.actions[j]);
    }
    OneOrder(a.actions, b.actions, ActionKey);
  }

  /** The order of a clean request does not matter: whichever way it is permuted, it is accepted or not alike and gets the same report. */
  lemma AuditIsDeterministic(r: Request, q: Request, s: Request, t: Request, a: Report, b: Report)
    requires Permuted(r, q) && CleanRequest(r) && Accepts(r)
    requires IsNormal(r, s) && IsReport(s, a) && IsNormal(q, t) && IsReport(t, b)
    ensures Accepts(q) && a == b
  {
    PermutedAccepts(r, q);
    OneNormalOrder(r, q, s, t);
    NormalIsClean(r, s);
    NormalStaysClean(r, s);
    OneReport(s, a, b);
  }
}
