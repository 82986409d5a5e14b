/**
 * The pace of retries, over whole runs of the service loop: a target that failed is not
 * tried again before the delay configured for that attempt has gone by.
 */
module Pacing {
  import opened Common
  import opened Slots
  import opened Ledgers
  import opened Queues
  import opened Delivery
  import opened Services

  /** The configured delay after failure number `attempts`, counted from zero, or one millisecond if that is not positive. */
  function DelayAfter(backoff: seq<int>, attempts: nat): int
    requires attempts < |backoff|
  {
    if backoff[attempts] > 0 then backoff[attempts] else 1_000_000
  }

  /** The target has an entry, and while it waits nothing is sent before `at`. */
  ghost predicate NotBefore(ledger: Option<Ledger>, t: Target, at: int) {
    && ledger.Some? && IndexOf(ledger.value, t) >= 0
    && var e := ledger.value[IndexOf(ledger.value, t)]; e.state == Waiting ==> e.nextAttemptAt >= at
  }

  predicate IsDue(e: Entry, now: int) {
    e.nextAttemptAt == 0 || e.nextAttemptAt <= now
  }

  /** Everything on the list has an entry whose time has come. */
  ghost predicate ListDue(l: Ledger, todo: seq<Target>, now: int) {
    forall i :: 0 <= i < |todo| ==> IndexOf(l, todo[i]) >= 0 && IsDue(l[IndexOf(l, todo[i])], now)
  }

  ghost predicate TodoDue(w: World) {
    w.worker.Busy? && w.worker.mode.Delivering? ==> w.ledger.Some? && ListDue(w.ledger.value, w.worker.mode.todo, w.worker.now)
  }

  lemma ReadyAreDue(l: Ledger, now: int)
    requires ValidLedger(l)
    ensures ListDue(l, ReadyTargets(l, now), now)
  {
    ReadyIsDue(l, now);
    var ready := ReadyTargets(l, now);
    forall i | 0 <= i < |ready| ensures IndexOf(l, ready[i]) >= 0 && IsDue(l[IndexOf(l, ready[i])], now) {
      assert ready[i] in ready;
      var k :| 0 <= k < |l| && l[k].target == ready[i] && Due(l[k], now);
      IndexOfAt(l, k);
    }
  }

  lemma RestIsDue(l: Ledger, todo: seq<Target>, now: int, e: Entry)
    requires ValidLedger(l) && TodoOk(l, todo) && todo != [] && ListDue(l, todo, now) && e.target == todo[0]
    ensures ListDue(l[IndexOf(l, todo[0]) := e], todo[1..], now)
  {
    var k := IndexOf(l, todo[0]);
    var m := l[k := e];
    forall i | 0 <= i < |todo[1..]| ensures IndexOf(m, todo[1..][i]) >= 0 && IsDue(m[IndexOf(m, todo[1..][i])], now) {
      var t := todo[i + 1];
      IndexOfKept(l, m, t);
      assert l[IndexOf(l, t)].target == t;
    }
  }

  /** What an attempt that is not cut off leaves in the ledger. */
  lemma AttemptLeaves(c: Config, w: World, o: Outcome, life: nat)
    requires Custody(w) && TodoKept(w) && Enabled(w, Attempt(o, life)) && life >= 1
    ensures w.ledger.Some? && ValidLedger(w.ledger.value)
    ensures var l := w.ledger.value; var k := IndexOf(l, w.worker.mode.todo[0]);
      && k >= 0 && l[k].state == Waiting && l[k].attempts >= 0
      && var x := AttemptAfter(c, w, o, life); var e := RecordEntry(l[k], o, w.worker.now, c.Backoff());
         && e.target == w.worker.mode.todo[0]
         && x.ledger == Some(l[k := e])
  {
    AttemptFacts(c, w, o);
    var l := w.ledger.value;
    var k := IndexOf(l, w.worker.mode.todo[0]);
    assert l[k := l[k]] == l;
  }

  lemma DueStep(c: Config, w: World, lab: Label)
    requires Custody(w) && TodoKept(w) && TodoDue(w) && Enabled(w, lab)
    ensures TodoDue(After(c, w, lab))
  {
    if lab.Begin? {
      HeldFacts(w);
      ReadyAreDue(w.ledger.value, w.worker.now);
    } else if lab.Attempt? && lab.life >= 1 && w.worker.mode.Delivering? {
      AttemptLeaves(c, w, lab.outcome, lab.life);
      var l, todo := w.ledger.value, w.worker.mode.todo;
      RestIsDue(l, todo, w.worker.now, RecordEntry(l[IndexOf(l, todo[0])], lab.outcome, w.worker.now, c.Backoff()));
    }
  }

  lemma {:induction false} RunDue(c: Config, ws: seq<World>, ls: seq<Label>, n: nat)
    requires IsWholeRun(c, ws, ls) && n < |ws|
    ensures TodoDue(ws[n])
  {
    if n > 0 {
      RunDue(c, ws, ls, n - 1);
      RunCustody(c, ws, ls, n - 1);
      DueStep(c, ws[n - 1], ls[n - 1]);
    }
  }

  /** Nothing brings a target's time forward. */
  lemma NotBeforeStep(c: Config, w: World, lab: Label, t: Target, at: int)
    requires Custody(w) && TodoKept(w) && TodoDue(w) && Enabled(w, lab) && NotBefore(w.ledger, t, at) && at > 0
    ensures NotBefore(After(c, w, lab).ledger, t, at)
  {
    if lab.Attempt? && lab.life >= 1 {
      AttemptLeaves(c, w, lab.outcome, lab.life);
      var l, u := w.ledger.value, w.worker.mode.todo[0];
      var k := IndexOf(l, u);
      var e := RecordEntry(l[k], lab.outcome, w.worker.now, c.Backoff());
      IndexOfKept(l, l[k := e], t);
      assert l[IndexOf(l, t)].target == t;
      if w.worker.mode.Delivering? {
        assert IsDue(l[k], w.worker.now);
      }
    } else if !lab.Attempt? {
      OthersKeepCounts(c, w, lab);
    }
  }

  lemma {:induction false} NotBeforeRun(c: Config, ws: seq<World>, ls: seq<Label>, m: nat, n: nat, t: Target, at: int)
    requires IsWholeRun(c, ws, ls) && m <= n < |ws| && NotBefore(ws[m].ledger, t, at) && at > 0
    ensures NotBefore(ws[n].ledger, t, at)
    decreases n - m
  {
    if m < n {
      NotBeforeRun(c, ws, ls, m, n - 1, t, at);
      RunDue(c, ws, ls, n - 1);
      RunCustody(c, ws, ls, n - 1);
      NotBeforeStep(c, ws[n - 1], ls[n - 1], t, at);
    }
  }

  /** The step is a failed attempt on the target, not the last one allowed, that reaches its ledger write. */
  ghost predicate PutsOff(c: Config, w: World, lab: Label, t: Target) {
    && lab.Attempt? && lab.life >= 1 && Enabled(w, lab) && w.worker.mode.todo[0] == t
    && !lab.outcome.Sent? && !lab.outcome.permanent
    && 0 <= AttemptsOf(w.ledger, t) < |c.Backoff()| - 1
  }

  /** A failure that is put off counts one attempt and sets the target's next time to now plus the configured delay. */
  lemma FailureIsPutOff(c: Config, w: World, lab: Label, t: Target)
    requires Custody(w) && TodoKept(w) && PutsOff(c, w, lab, t)
    ensures var a, x := AttemptsOf(w.ledger, t), After(c, w, lab);
      && AttemptsOf(x.ledger, t) == a + 1
      && x.ledger.Some? && IndexOf(x.ledger.value, t) >= 0
      && var e := x.ledger.value[IndexOf(x.ledger.value, t)];
         e.state == Waiting && e.nextAttemptAt == w.worker.now + DelayAfter(c.Backoff(), a)
  {
    AttemptLeaves(c, w, lab.outcome, lab.life);
    var l := w.ledger.value;
    var k := IndexOf(l, t);
    IndexOfKept(l, l[k := RecordEntry(l[k], lab.outcome, w.worker.now, c.Backoff())], t);
  }

  /**
   * In every run, after a failure that is put off, any later attempt of a delivery round on the same target
   * is made no earlier than the failure's time plus the delay configured for that attempt.
   */
  lemma BackoffRespected(c: Config, ws: seq<World>, ls: seq<Label>, m: nat, n: nat, t: Target)
    requires IsWholeRun(c, ws, ls) && m < n < |ls| && PutsOff(c, ws[m], ls[m], t)
    requires ls[n].Attempt? && ws[n].worker.Busy? && ws[n].worker.mode.Delivering? && ws[n].worker.mode.todo != [] && ws[n].worker.mode.todo[0] == t
    ensures ws[n].worker.now >= ws[m].worker.now + DelayAfter(c.Backoff(), AttemptsOf(ws[m].ledger, t))
  {
    RunCustody(c, ws, ls, m);
    FailureIsPutOff(c, ws[m], ls[m], t);
    var at := ws[m].worker.now + DelayAfter(c.Backoff(), AttemptsOf(ws[m].ledger, t));
    NotBeforeRun(c, ws, ls, m + 1, n, t, at);
    RunDue(c, ws, ls, n);
    RunCustody(c, ws, ls, n);
    AttemptFacts(c, ws[n], ls[n].outcome);
  }

  // ---------------------------------------------------------------- when an item is next looked at

  /** When a waiting target asks to be looked at: at its own time, or one poll interval from now if that has come. */
  function Wakes(c: Config, e: Entry, now: int): int {
    if e.nextAttemptAt != 0 && e.nextAttemptAt > now then e.nextAttemptAt
    else now + if c.pollInterval > 0 then c.pollInterval else 500_000_000
  }

  /** An unfinished item is put off to the earliest time any of its waiting targets asks for. */
  lemma {:induction false} DeferredToEarliest(c: Config, l: Ledger, now: int)
    requires now >= 0
    ensures var next := NextAttempt(l, now, c.Poll());
      && (next == 0 <==> forall i :: 0 <= i < |l| ==> l[i].state != Waiting)
      && (forall i :: 0 <= i < |l| && l[i].state == Waiting ==> next <= Wakes(c, l[i], now))
      && (next != 0 ==> exists i :: 0 <= i < |l| && l[i].state == Waiting && next == Wakes(c, l[i], now))
    decreases |l|
  {
    if l != [] {
      var front, last := l[..|l| - 1], l[|l| - 1];
      DeferredToEarliest(c, front, now);
      assert forall i :: 0 <= i < |front| ==> front[i] == l[i];
      assert Candidate(last, now, c.Poll()) == Wakes(c, last, now) > 0;
      var before := NextAttempt(front, now, c.Poll());
      if before != 0 {
        var i :| 0 <= i < |front| && front[i].state == Waiting && before == Wakes(c, front[i], now);
        assert l[i] == front[i];
      }
    }
  }

  // ---------------------------------------------------------------- what the ledger says

  /** In every run each entry says only what fits its state: an error or a message id never stands where it does not belong. */
  lemma EntriesTell(c: Config, ws: seq<World>, ls: seq<Label>, n: nat, i: nat)
    requires IsWholeRun(c, ws, ls) && n < |ws| && ws[n].ledger.Some? && i < |ws[n].ledger.value|
    ensures var e := ws[n].ledger.value[i];
      && 0 < |e.target.channel| < 257 && 0 < |e.target.template| < 257 && e.attempts >= 0
      && (e.attempts == 0 ==> e.state == Waiting && e.lastError == "")
      && (e.state != Waiting ==> e.nextAttemptAt == 0)
      && (e.messageId != "" ==> e.state == Succeeded)
      && (e.state == Succeeded ==> e.lastError == "")
      && (e.state == Dead ==> e.lastError != "")
  {
    LedgerStaysValid(c, ws, ls, n);
  }

  /** Before cleanup a copy carries the ledger; after it the ledger is the last one that was valid. */
  lemma {:induction false} LedgerStaysValid(c: Config, ws: seq<World>, ls: seq<Label>, n: nat)
    requires IsWholeRun(c, ws, ls) && n < |ws| && ws[n].ledger.Some?
    ensures ValidLedger(ws[n].ledger.value)
  {
    RunCustody(c, ws, ls, n);
    if ws[n].cleaned && n > 0 {
      RunCustody(c, ws, ls, n - 1);
      OthersKeepLedger(c, ws[n - 1], ls[n - 1]);
      LedgerStaysValid(c, ws, ls, n - 1);
    }
  }

  lemma OthersKeepLedger(c: Config, w: World, lab: Label)
    requires Custody(w) && Enabled(w, lab) && After(c, w, lab).cleaned
    ensures After(c, w, lab).ledger == w.ledger
  {
    if w.worker.Busy? {
      HeldFacts(w);
    }
  }

  // ---------------------------------------------------------------- rejecting a whole envelope

  /** The step rejects an envelope whose targets are not resolved, and writes its destination. */
  predicate NacksWhole(w: World, lab: Label) {
    lab.NackWhole? && lab.life >= 1 && w.worker.Busy?
  }

  function DelaysFor(c: Config, lab: Label): seq<int>
    requires lab.NackWhole?
  {
    if lab.permanent then [] else c.Backoff()
  }

  /** A rejection counts one attempt and puts the envelope off by the delay for it; a permanent or a last one buries it. */
  lemma WholeNackIsRecorded(c: Config, w: World, lab: Label)
    requires Custody(w) && Enabled(w, lab) && NacksWhole(w, lab)
    ensures var a, d, t := w.worker.env.attempts, DelaysFor(c, lab), After(c, w, lab).slot;
      && t.history.None? && t.inflight == (if lab.life == 1 then Some(w.worker.env) else None)
      && if a + 1 < |d|
         then t.dead.None? && t.pending.Some? && t.pending.value.attempts == a + 1 && t.pending.value.nextAttemptAt == w.worker.now + d[a]
         else t.pending.None? && t.dead.Some? && t.dead.value.attempts == a + 1
  {
    HeldFacts(w);
  }

  lemma PendingKept(c: Config, w: World, lab: Label)
    requires Custody(w) && Enabled(w, lab) && w.slot.pending.Some? && !lab.Claim?
    ensures After(c, w, lab).slot.pending == w.slot.pending
  {
  }

  lemma {:induction false} PendingStays(c: Config, ws: seq<World>, ls: seq<Label>, m: nat, n: nat)
    requires IsWholeRun(c, ws, ls) && m <= n < |ws| && ws[m].slot.pending.Some?
    requires forall k :: m <= k < n ==> !ls[k].Claim?
    ensures ws[n].slot.pending == ws[m].slot.pending
    decreases n - m
  {
    if m < n {
      PendingStays(c, ws, ls, m, n - 1);
      RunCustody(c, ws, ls, n - 1);
      PendingKept(c, ws[n - 1], ls[n - 1]);
    }
  }

  /** In every run the next claim after a rejection that was put off comes only once the configured delay has gone by. */
  lemma WholeNackWaits(c: Config, ws: seq<World>, ls: seq<Label>, m: nat, n: nat)
    requires IsWholeRun(c, ws, ls) && m < n < |ls| && NacksWhole(ws[m], ls[m]) && ls[n].Claim?
    requires ws[m].worker.env.attempts + 1 < |DelaysFor(c, ls[m])|
    requires forall k :: m < k < n ==> !ls[k].Claim?
    ensures var at := ws[m].worker.now + DelaysFor(c, ls[m])[ws[m].worker.env.attempts]; at == 0 || ls[n].now >= at
  {
    RunCustody(c, ws, ls, m);
    WholeNackIsRecorded(c, ws[m], ls[m]);
    PendingStays(c, ws, ls, m + 1, n);
  }

  // ---------------------------------------------------------------- counting rejections

  /** A manual retry that moves a dead envelope. */
  predicate Revives(w: World, lab: Label) {
    lab.Retry? && lab.life >= 1 && w.slot.dead.Some? && w.slot.pending.None?
  }

  /** How many rejections the first n steps record since the last manual retry among them. */
  ghost function NacksSince(ws: seq<World>, ls: seq<Label>, n: nat): nat
    requires n <= |ls| < |ws|
  {
    if n == 0 || Revives(ws[n - 1], ls[n - 1]) then 0
    else NacksSince(ws, ls, n - 1) + if NacksWhole(ws[n - 1], ls[n - 1]) then 1 else 0
  }

  /** How many of them are cut off before they remove the inflight file. */
  ghost function CutsSince(ws: seq<World>, ls: seq<Label>, n: nat): nat
    requires n <= |ls| < |ws|
  {
    if n == 0 || Revives(ws[n - 1], ls[n - 1]) then 0
    else CutsSince(ws, ls, n - 1) + if NacksWhole(ws[n - 1], ls[n - 1]) && ls[n - 1].life == 1 then 1 else 0
  }

  predicate Between(o: Option<Envelope>, low: int, high: int) {
    o.Some? ==> low <= o.value.attempts <= high
  }

  /** Every copy has counted at least `low` attempts; none outside dead has used up `b` of them. */
  predicate Counted(s: QueueSlot, low: int, b: nat) {
    && Between(s.pending, low, b - 1) && Between(s.inflight, low, b - 1) && Between(s.history, low, b - 1) && Between(s.dead, low, b)
  }

  lemma RecordKeepsAttempts(e: Envelope, t: Target, o: Outcome, now: int, backoff: seq<int>)
    requires |backoff| > 0
    ensures var r := Record(e, t, o, now, backoff); r.Some? ==> r.value.attempts == e.attempts
  {
  }

  lemma HolderCounted(c: Config, w: World, lab: Label, low: int, b: nat)
    requires Custody(w) && Enabled(w, lab) && Counted(w.slot, low, b) && w.worker.Busy? && !NacksWhole(w, lab)
    ensures Counted(After(c, w, lab).slot, low, b)
  {
    HeldFacts(w);
    if lab.Attempt? {
      RecordKeepsAttempts(w.worker.env, w.worker.mode.todo[0], lab.outcome, w.worker.now, c.Backoff());
    }
  }

  lemma CountedStep(c: Config, w: World, lab: Label, low: int, b: nat)
    requires Custody(w) && Enabled(w, lab) && Counted(w.slot, low, b) && b == |c.Backoff()|
    ensures Counted(After(c, w, lab).slot, if Revives(w, lab) && low > 0 then 0 else if NacksWhole(w, lab) && lab.life != 1 then low + 1 else low, b)
  {
    if NacksWhole(w, lab) {
      WholeNackIsRecorded(c, w, lab);
    } else if w.worker.Busy? {
      HolderCounted(c, w, lab, low, b);
    }
  }

  lemma {:induction false} RunCounted(c: Config, ws: seq<World>, ls: seq<Label>, n: nat)
    requires IsWholeRun(c, ws, ls) && n <= |ls| && ws[0].slot.pending.Some? && ws[0].slot.pending.value.attempts == 0
    ensures Counted(ws[n].slot, NacksSince(ws, ls, n) - CutsSince(ws, ls, n), |c.Backoff()|)
    ensures CutsSince(ws, ls, n) <= NacksSince(ws, ls, n)
  {
    if n > 0 {
      RunCounted(c, ws, ls, n - 1);
      RunCustody(c, ws, ls, n - 1);
      CountedStep(c, ws[n - 1], ls[n - 1], NacksSince(ws, ls, n - 1) - CutsSince(ws, ls, n - 1), |c.Backoff()|);
    }
  }

  /** In every run an envelope is rejected, between manual retries, at most as often as there are delays, and once more for each rejection cut off before it finished. */
  lemma WholeNacksBounded(c: Config, ws: seq<World>, ls: seq<Label>, n: nat)
    requires IsWholeRun(c, ws, ls) && n <= |ls| && ws[0].slot.pending.Some? && ws[0].slot.pending.value.attempts == 0 && !ws[n].cleaned
    ensures NacksSince(ws, ls, n) <= |c.Backoff()| + CutsSince(ws, ls, n)
  {
    RunCounted(c, ws, ls, n);
    RunCustody(c, ws, ls, n);
  }
}
