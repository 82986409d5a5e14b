/**
 * What one delivery round does to a ledger: how the outcome for a target is recorded,
 * when the item is next due, and how much of the retry budget is left.
 */
module Delivery {
  import opened Common
  import opened Ledgers
  import opened Queues

  const MILLISECOND := 1_000_000
  const DEFAULT_BACKOFF := [1_000 * MILLISECOND, 5_000 * MILLISECOND, 30_000 * MILLISECOND, 120_000 * MILLISECOND, 600_000 * MILLISECOND]
  const DEFAULT_POLL := 500 * MILLISECOND

  /** Raw service settings; the accessors supply the defaults. */
  datatype Config = Config(backoffs: seq<int>, pollInterval: int) {
    function Backoff(): (b: seq<int>)
      ensures |b| > 0
    {
      if |backoffs| > 0 then backoffs else DEFAULT_BACKOFF
    }

    function Poll(): (p: int)
      ensures p > 0
    {
      if pollInterval > 0 then pollInterval else DEFAULT_POLL
    }
  }

  /** A target was sent to, or was given up on before anything was sent. */
  datatype Outcome =
    | Sent(messageId: string)
    | SendFailed(cause: string, permanent: bool)
    | Skipped(cause: string, permanent: bool)

  predicate IsSend(o: Outcome) {
    !o.Skipped?
  }

  /** The failure would bury the target. */
  predicate IsFinal(e: Entry, o: Outcome, backoff: seq<int>) {
    !o.Sent? && (o.permanent || e.attempts + 1 >= |backoff|)
  }

  /** A burial whose error has no text, which the ledger validator refuses. */
  predicate Blank(e: Entry, o: Outcome, backoff: seq<int>) {
    IsFinal(e, o, backoff) && o.cause == ""
  }

  function RetryDelay(backoff: seq<int>, attempts: nat): (d: int)
    requires attempts < |backoff|
    ensures d > 0
  {
    if backoff[attempts] <= 0 then MILLISECOND else backoff[attempts]
  }

  /** The entry after the outcome is recorded. */
  function RecordEntry(e: Entry, o: Outcome, now: int, backoff: seq<int>): Entry
    requires e.state == Waiting && e.attempts >= 0
  {
    if o.Sent? then Entry(e.target, Succeeded, e.attempts + 1, 0, "", o.messageId)
    else if Blank(e, o, backoff) then e
    else if IsFinal(e, o, backoff) then Entry(e.target, Dead, e.attempts + 1, 0, TruncateError(o.cause), "")
    else Entry(e.target, Waiting, e.attempts + 1, now + RetryDelay(backoff, e.attempts), TruncateError(o.cause), "")
  }

  /** What failTarget asks for: bury the target, or put off its next attempt. */
  function FailUpdate(e: Entry, o: Outcome, now: int, backoff: seq<int>): Update
    requires !o.Sent? && e.attempts >= 0
  {
    if IsFinal(e, o, backoff) then BuryWith(o.cause)
    else NackWith(o.cause, now + RetryDelay(backoff, e.attempts))
  }

  /** failTarget; None when the target is absent or the update is refused. */
  ghost function FailRecord(e: Envelope, t: Target, o: Outcome, now: int, backoff: seq<int>): Option<Envelope>
    requires |backoff| > 0 && !o.Sent?
  {
    if e.ledger.None? || IndexOf(e.ledger.value, t) < 0 then None
    else
      var entry := e.ledger.value[IndexOf(e.ledger.value, t)];
      if entry.attempts < 0 then None else UpdatedEnvelope(e, t, FailUpdate(entry, o, now, backoff), now)
  }

  /** AckTarget after a send, failTarget otherwise. */
  ghost function Record(e: Envelope, t: Target, o: Outcome, now: int, backoff: seq<int>): Option<Envelope>
    requires |backoff| > 0
  {
    if o.Sent? then UpdatedEnvelope(e, t, AckWith(o.messageId), now)
    else FailRecord(e, t, o, now, backoff)
  }

  /** Recording succeeds for a waiting target unless the burial is blank. */
  lemma RecordIs(e: Envelope, t: Target, o: Outcome, now: int, backoff: seq<int>)
    requires |backoff| > 0 && ValidEnvelope(e) && e.state == Inflight && e.ledger.Some?
    requires IndexOf(e.ledger.value, t) >= 0 && e.ledger.value[IndexOf(e.ledger.value, t)].state == Waiting
    ensures var k := IndexOf(e.ledger.value, t); var entry := e.ledger.value[k];
      && ValidEntry(entry)
      && Record(e, t, o, now, backoff) ==
           if Blank(entry, o, backoff) then None else Some(WithEntry(e, k, RecordEntry(entry, o, now, backoff), now))
  {
    var k := IndexOf(e.ledger.value, t);
    var entry := e.ledger.value[k];
    assert ValidEntry(entry);
    OnlyBlankDeathRefused(entry, if o.Sent? then "" else o.cause, if o.Sent? then o.messageId else "", now);
    if o.Sent? {
      UpdateKeepsValid(e, k, AckEntry(entry, o.messageId).value, now);
    } else if IsFinal(entry, o, backoff) {
      UpdateKeepsValid(e, k, DeadEntry(entry, o.cause).value, now);
    } else {
      UpdateKeepsValid(e, k, NackEntry(entry, o.cause, now + RetryDelay(backoff, entry.attempts)).value, now);
    }
  }

  // ---------------------------------------------------------------- the retry budget

  function Remaining(e: Entry, b: nat): int {
    if e.state == Waiting then b - e.attempts else 0
  }

  /** Sum of what is left of the retry budget over the waiting targets. */
  function Budget(l: Ledger, b: nat): int {
    if l == [] then 0 else Budget(l[..|l| - 1], b) + Remaining(l[|l| - 1], b)
  }

  /** Attempts stay within the budget, and a waiting target has some of it left. */
  ghost predicate Within(l: Ledger, b: nat) {
    forall i :: 0 <= i < |l| ==> 0 <= l[i].attempts <= b && (l[i].state == Waiting ==> l[i].attempts < b)
  }

  lemma {:induction false} BudgetUpdate(l: Ledger, b: nat, k: nat, e: Entry)
    requires k < |l|
    ensures Budget(l[k := e], b) == Budget(l, b) - Remaining(l[k], b) + Remaining(e, b)
  {
    var front := l[..|l| - 1];
    if k == |l| - 1 {
      assert l[k := e][..|l| - 1] == front;
    } else {
      BudgetUpdate(front, b, k, e);
      assert l[k := e][..|l| - 1] == front[k := e];
    }
  }

  lemma {:induction false} BudgetBounds(l: Ledger, b: nat)
    requires Within(l, b)
    ensures 0 <= Budget(l, b) <= |l| * b
    ensures Budget(l, b) == 0 <==> Terminal(l)
  {
    if l != [] {
      var front := l[..|l| - 1];
      assert forall i :: 0 <= i < |front| ==> front[i] == l[i];
      BudgetBounds(front, b);
      assert Terminal(l) <==> Terminal(front) && l[|l| - 1].state != Waiting;
      assert |l| * b == |front| * b + b;
    }
  }

  lemma {:induction false} FreshBudget(targets: seq<Target>, b: nat)
    ensures Budget(FreshLedger(targets), b) == |targets| * b
  {
    if targets != [] {
      var front := targets[..|targets| - 1];
      FreshBudget(front, b);
      assert FreshLedger(targets)[..|targets| - 1] == FreshLedger(front);
      assert |targets| * b == |front| * b + b;
    }
  }

  /** Every recorded outcome costs budget, except a blank burial, which changes nothing. */
  lemma RecordSpends(l: Ledger, k: nat, o: Outcome, now: int, backoff: seq<int>)
    requires k < |l| && l[k].state == Waiting && Within(l, |backoff|)
    ensures var m := l[k := RecordEntry(l[k], o, now, backoff)];
      && Within(m, |backoff|)
      && Budget(m, |backoff|) + (if Blank(l[k], o, backoff) then 0 else 1) <= Budget(l, |backoff|)
  {
    BudgetUpdate(l, |backoff|, k, RecordEntry(l[k], o, now, backoff));
  }

  // ---------------------------------------------------------------- the next attempt

  function Candidate(e: Entry, now: int, poll: int): int {
    if e.nextAttemptAt == 0 || e.nextAttemptAt <= now then now + poll else e.nextAttemptAt
  }

  /** The earliest candidate of a waiting target, 0 when none waits. */
  function NextAttempt(l: Ledger, now: int, poll: int): int {
    if l == [] then 0
    else
      var next := NextAttempt(l[..|l| - 1], now, poll);
      var e := l[|l| - 1];
      if e.state != Waiting then next
      else
        var c := Candidate(e, now, poll);
        if next == 0 || c < next then c else next
  }

  /** Some waiting target is due by the time `at`. */
  ghost predicate WakesBy(l: Ledger, at: int) {
    exists i :: 0 <= i < |l| && l[i].state == Waiting && (l[i].nextAttemptAt == 0 || l[i].nextAttemptAt <= at)
  }

  /** A ledger that still waits gets a wake-up after now, at which a waiting target is due, and no target that is not due yet is overslept. */
  lemma {:induction false} NextAttemptIsLegal(l: Ledger, now: int, poll: int)
    requires now >= 0 && poll > 0
    ensures NextAttempt(l, now, poll) == 0 <==> Terminal(l)
    ensures !Terminal(l) ==> NextAttempt(l, now, poll) > now && WakesBy(l, NextAttempt(l, now, poll))
    ensures forall i :: 0 <= i < |l| && l[i].state == Waiting && l[i].nextAttemptAt > now ==> NextAttempt(l, now, poll) <= l[i].nextAttemptAt
  {
    if l != [] {
      var front := l[..|l| - 1];
      assert forall i :: 0 <= i < |front| ==> front[i] == l[i];
      NextAttemptIsLegal(front, now, poll);
      assert Terminal(l) <==> Terminal(front) && l[|l| - 1].state != Waiting;
      if !Terminal(front) {
        var at := NextAttempt(front, now, poll);
        var i :| 0 <= i < |front| && front[i].state == Waiting && (front[i].nextAttemptAt == 0 || front[i].nextAttemptAt <= at);
        assert l[i] == front[i];
        assert WakesBy(l, at);
      }
      if l[|l| - 1].state == Waiting {
        assert WakesBy(l, Candidate(l[|l| - 1], now, poll));
      }
    }
  }

  lemma WakesMeansReady(l: Ledger, at: int, now: int)
    requires WakesBy(l, at) && at <= now
    ensures ReadyTargets(l, now) != []
  {
    ReadyIsDue(l, now);
    var i :| 0 <= i < |l| && l[i].state == Waiting && (l[i].nextAttemptAt == 0 || l[i].nextAttemptAt <= at);
    assert Due(l[i], now);
  }

  lemma ReadyMeansWakes(l: Ledger, now: int, at: int)
    requires ReadyTargets(l, now) != [] && now <= at
    ensures WakesBy(l, at)
  {
    ReadyIsDue(l, now);
    var i :| 0 <= i < |l| && Due(l[i], now);
    assert l[i].state == Waiting && (l[i].nextAttemptAt == 0 || l[i].nextAttemptAt <= at);
  }

  // ---------------------------------------------------------------- the targets of one round

  /** The targets a quiet-hours drop buries, in ledger order. */
  function WaitingTargets(l: Ledger): (ts: seq<Target>)
    ensures |ts| <= |l|
  {
    if l == [] then []
    else WaitingTargets(l[..|l| - 1]) + (if l[|l| - 1].state == Waiting then [l[|l| - 1].target] else [])
  }

  /** A work list: distinct targets, all still waiting in the ledger. */
  ghost predicate TodoOk(l: Ledger, todo: seq<Target>) {
    && (forall i :: 0 <= i < |todo| ==> IndexOf(l, todo[i]) >= 0 && l[IndexOf(l, todo[i])].state == Waiting)
    && (forall i, j :: 0 <= i < j < |todo| ==> todo[i] != todo[j])
  }

  lemma IndexOfKept(l: Ledger, m: Ledger, t: Target)
    requires |l| == |m| && forall i :: 0 <= i < |l| ==> l[i].target == m[i].target
    ensures IndexOf(l, t) == IndexOf(m, t)
  {
    IndexFromKept(l, m, t, 0);
  }

  lemma {:induction false} IndexFromKept(l: Ledger, m: Ledger, t: Target, from: nat)
    requires |l| == |m| && forall i :: 0 <= i < |l| ==> l[i].target == m[i].target
    requires from <= |l|
    ensures IndexFrom(l, t, from) == IndexFrom(m, t, from)
    decreases |l| - from
  {
    if from < |l| {
      IndexFromKept(l, m, t, from + 1);
    }
  }

  lemma IndexOfAt(l: Ledger, i: nat)
    requires ValidLedger(l) && i < |l|
    ensures IndexOf(l, l[i].target) == i
  {
    DistinctTargets(l);
    var k := IndexOf(l, l[i].target);
    assert k >= 0 && l[k].target == l[i].target;
  }

  lemma ReadyIsTodo(l: Ledger, now: int)
    requires ValidLedger(l)
    ensures TodoOk(l, ReadyTargets(l, now))
  {
    DistinctTargets(l);
    ReadyDistinct(l, now);
    ReadyIsDue(l, now);
    var ready := ReadyTargets(l, now);
    forall i | 0 <= i < |ready| ensures IndexOf(l, ready[i]) >= 0 && l[IndexOf(l, ready[i])].state == Waiting {
      assert ready[i] in ready;
      var k :| 0 <= k < |l| && l[k].target == ready[i] && Due(l[k], now);
      IndexOfAt(l, k);
    }
  }

  lemma {:induction false} WaitingMembers(l: Ledger)
    requires forall i, j :: 0 <= i < j < |l| ==> l[i].target != l[j].target
    ensures forall t :: t in WaitingTargets(l) <==> exists i :: 0 <= i < |l| && l[i].target == t && l[i].state == Waiting
    ensures forall i, j :: 0 <= i < j < |WaitingTargets(l)| ==> WaitingTargets(l)[i] != WaitingTargets(l)[j]
  {
    if l != [] {
      var front, last := l[..|l| - 1], l[|l| - 1];
      assert forall i :: 0 <= i < |front| ==> front[i] == l[i];
      WaitingMembers(front);
      var w := WaitingTargets(front);
      forall t ensures t in WaitingTargets(l) <==> exists i :: 0 <= i < |l| && l[i].target == t && l[i].state == Waiting {
        assert t in WaitingTargets(l) <==> t in w || (last.state == Waiting && last.target == t);
        if t in w {
          var i :| 0 <= i < |front| && front[i].target == t && front[i].state == Waiting;
          assert l[i].target == t;
        }
        if i :| 0 <= i < |l| && l[i].target == t && l[i].state == Waiting {
          assert i < |front| ==> front[i].target == t;
        }
      }
      forall i | 0 <= i < |w| ensures w[i] != last.target {
        assert w[i] in w;
      }
    }
  }

  lemma WaitingIsTodo(l: Ledger)
    requires ValidLedger(l)
    ensures TodoOk(l, WaitingTargets(l))
  {
    DistinctTargets(l);
    WaitingMembers(l);
    var w := WaitingTargets(l);
    forall i | 0 <= i < |w| ensures IndexOf(l, w[i]) >= 0 && l[IndexOf(l, w[i])].state == Waiting {
      assert w[i] in w;
      var k :| 0 <= k < |l| && l[k].target == w[i] && l[k].state == Waiting;
      IndexOfAt(l, k);
    }
  }

  lemma TodoStep(l: Ledger, todo: seq<Target>, e: Entry)
    requires ValidLedger(l) && TodoOk(l, todo) && todo != [] && e.target == todo[0]
    ensures TodoOk(l[IndexOf(l, todo[0]) := e], todo[1..])
  {
    var k := IndexOf(l, todo[0]);
    var m := l[k := e];
    forall i | 0 <= i < |todo[1..]| ensures IndexOf(m, todo[1..][i]) >= 0 && m[IndexOf(m, todo[1..][i])].state == Waiting {
      IndexOfKept(l, m, todo[i + 1]);
      var j := IndexOf(l, todo[i + 1]);
      assert l[j].target == todo[i + 1] && l[k].target == todo[0];
    }
  }
}
