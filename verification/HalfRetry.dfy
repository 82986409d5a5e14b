/**
 * A manual retry that dies between its two writes. The item is then pending and dead at
 * once, and from then on its dead copy decides what a recovery keeps.
 */
module HalfRetries {
  import opened Common
  import opened Slots
  import opened Ledgers
  import opened Queues
  import opened Delivery
  import opened Services

  // ---------------------------------------------------------------- the dead copy

  lemma LeaveKeepsDead(s: QueueSlot, e: Envelope, life: nat)
    requires s.dead.Some?
    ensures LeaveInflight(s, e, life).dead == s.dead
  {
  }

  lemma MovesKeepDead(s: QueueSlot, e: Envelope, cause: string, now: int, next: int, backoff: seq<int>, life: nat)
    requires s.dead.Some?
    ensures AckOp(s, e, now, life).dead == s.dead && NackOp(s, e, cause, now, backoff, life).dead == s.dead
    ensures DeferOp(s, e, now, next, life).dead == s.dead
  {
    LeaveKeepsDead(s, AckedEnvelope(e, now), life);
    LeaveKeepsDead(s, NackedEnvelope(e, cause, now, backoff), life);
    LeaveKeepsDead(s, DeferredEnvelope(e, now, next), life);
  }

  /** Nothing but a clean-up or another retry touches a dead copy. */
  lemma DeadStep(c: Config, w: World, l: Label)
    requires Enabled(w, l) && w.slot.dead.Some? && !l.Cleanup? && !l.Retry?
    ensures After(c, w, l).slot.dead == w.slot.dead
  {
    match l
    case Finish(life) =>
      MovesKeepDead(w.slot, w.worker.env, "", w.worker.now, NextAttempt(w.worker.env.ledger.value, w.worker.now, c.Poll()), [], life);
    case QuietDefer(until, life) => MovesKeepDead(w.slot, w.worker.env, "", w.worker.now, until, [], life);
    case AckWhole(life) => MovesKeepDead(w.slot, w.worker.env, "", w.worker.now, 0, [], life);
    case NackWhole(cause, permanent, life) =>
      MovesKeepDead(w.slot, w.worker.env, cause, w.worker.now, 0, if permanent then [] else c.Backoff(), life);
    case Attempt(o, life) =>
    case _ =>
  }

  /** Over every run: a dead copy stays as it is until a clean-up or a manual retry. */
  lemma {:induction false} DeadCopyStays(c: Config, ws: seq<World>, ls: seq<Label>, m: nat, n: nat)
    requires IsRun(c, ws, ls) && m <= n < |ws| && ws[m].slot.dead.Some?
    requires forall i :: m <= i < n ==> !ls[i].Cleanup? && !ls[i].Retry?
    ensures ws[n].slot.dead == ws[m].slot.dead
    decreases n
  {
    if m < n {
      DeadCopyStays(c, ws, ls, m, n - 1);
      DeadStep(c, ws[n - 1], ls[n - 1]);
    }
  }

  /** While it stays, a recovery pass drops the inflight copy, whatever its ledger has recorded. */
  lemma RecoveryDropsProgress(c: Config, ws: seq<World>, ls: seq<Label>, m: nat, n: nat)
    requires IsRun(c, ws, ls) && m <= n < |ls| && ws[m].slot.dead.Some?
    requires forall i :: m <= i < n ==> !ls[i].Cleanup? && !ls[i].Retry?
    requires ls[n].Recover? && ls[n].life >= 2
    ensures ws[n + 1].slot == ws[n].slot.(inflight := None)
    ensures ws[n + 1].slot.dead == ws[m].slot.dead
  {
    DeadCopyStays(c, ws, ls, m, n);
  }

  /** Another retry takes the dead copy once nothing is pending: it starts over from that copy. */
  lemma RetryStartsOver(c: Config, ws: seq<World>, ls: seq<Label>, m: nat, n: nat)
    requires IsRun(c, ws, ls) && m <= n < |ls| && ws[m].slot.dead.Some?
    requires forall i :: m <= i < n ==> !ls[i].Cleanup? && !ls[i].Retry?
    requires ls[n].Retry? && ls[n].life >= 2
    ensures ws[n + 1].slot ==
      if ws[n].slot.pending.Some? then ws[n].slot
      else ws[n].slot.(pending := Some(RetriedEnvelope(ws[m].slot.dead.value, ls[n].at)), dead := None)
  {
    DeadCopyStays(c, ws, ls, m, n);
  }

  // ---------------------------------------------------------------- a success that is lost

  /** The labels lead from w to x. */
  ghost predicate Path(c: Config, w: World, ls: seq<Label>, x: World)
    decreases |ls|
  {
    if ls == [] then w == x else Enabled(w, ls[0]) && Path(c, After(c, w, ls[0]), ls[1..], x)
  }

  lemma {:induction false} PathAppend(c: Config, w: World, a: seq<Label>, x: World, b: seq<Label>, y: World)
    requires Path(c, w, a, x) && Path(c, x, b, y)
    ensures Path(c, w, a + b, y)
    decreases |a|
  {
    if a == [] {
      assert a + b == b;
    } else {
      PathAppend(c, After(c, w, a[0]), a[1..], x, b, y);
      assert (a + b)[1..] == a[1..] + b;
    }
  }

  lemma OneStep(c: Config, w: World, l: Label, x: World)
    requires Enabled(w, l) && x == After(c, w, l)
    ensures Path(c, w, [l], x)
  {
    assert [l][1..] == [];
  }

  lemma TwoSteps(c: Config, w: World, k: Label, x: World, l: Label, y: World)
    requires Enabled(w, k) && x == After(c, w, k) && Enabled(x, l) && y == After(c, x, l)
    ensures Path(c, w, [k, l], y)
  {
    OneStep(c, w, k, x);
    OneStep(c, x, l, y);
    PathAppend(c, w, [k], x, [l], y);
    assert [k] + [l] == [k, l];
  }

  /** The item is pending without a ledger, next to `dead`. */
  ghost predicate Again(w: World, dead: Option<Envelope>) {
    && w.worker.Resting? && w.slot.pending.Some?
    && w.slot == Slot(w.slot.pending, None, None, dead)
    && var e := w.slot.pending.value;
       e.state == Pending && e.ledger.None? && ValidEnvelope(e) && e.nextAttemptAt == 0
  }

  /** The worker holds the item with one target waiting. */
  ghost predicate Holding(w: World, t: Target, dead: Option<Envelope>) {
    && w.worker.Busy? && w.worker.now == 0 && w.worker.mode.Undecided?
    && w.worker.env.ledger == Some(Sole(t)) && w.worker.env.state == Inflight && ValidEnvelope(w.worker.env)
    && w.slot == Slot(None, Some(w.worker.env), None, dead)
  }

  lemma ClaimAndResolve(c: Config, w: World, t: Target, dead: Option<Envelope>) returns (ls: seq<Label>, x: World)
    requires Again(w, dead) && ValidTarget(t)
    ensures Path(c, w, ls, x) && Holding(x, t, dead) && x.sends == w.sends
  {
    ls := [Claim(0, 1, 2), Resolve([t], 1)];
    var a := After(c, w, ls[0]);
    assert GoodTargets([t]);
    ResolvedIsValid(a.worker.env, [t], 0);
    assert FreshLedger([t]) == Sole(t);
    x := After(c, a, ls[1]);
    TwoSteps(c, w, ls[0], a, ls[1], x);
  }

  /** The target's success is the last recorded ledger. */
  predicate Succeeds(w: World, t: Target) {
    w.ledger.Some? && |w.ledger.value| == 1 && w.ledger.value[0].target == t && w.ledger.value[0].state == Succeeded
  }

  lemma SendsAndRecords(c: Config, w: World, t: Target, dead: Option<Envelope>) returns (ls: seq<Label>, x: World)
    requires Holding(w, t, dead)
    ensures Path(c, w, ls, x) && Succeeds(x, t) && SendsTo(x.sends, t) == SendsTo(w.sends, t) + 1
    ensures x.worker.Busy? && x.slot == Slot(None, Some(x.worker.env), None, dead)
  {
    ls := [Begin, Attempt(Sent("m"), 1)];
    ReadySole(t, 0);
    var a := After(c, w, ls[0]);
    RecordIs(a.worker.env, t, Sent("m"), 0, c.Backoff());
    x := After(c, a, ls[1]);
    TwoSteps(c, w, ls[0], a, ls[1], x);
  }

  /** A round that ends in a recorded success. */
  lemma RoundSucceeds(c: Config, w: World, t: Target, dead: Option<Envelope>) returns (ls: seq<Label>, x: World)
    requires Again(w, dead) && ValidTarget(t)
    ensures Path(c, w, ls, x) && Succeeds(x, t) && SendsTo(x.sends, t) == SendsTo(w.sends, t) + 1
    ensures x.worker.Busy? && x.slot == Slot(None, Some(x.worker.env), None, dead)
  {
    var a, u := ClaimAndResolve(c, w, t, dead);
    var b;
    b, x := SendsAndRecords(c, u, t, dead);
    PathAppend(c, w, a, u, b, x);
    ls := a + b;
  }

  /** The worker dies, a recovery drops the inflight copy, and a second retry starts over from the dead one. */
  lemma DropsAndRetries(c: Config, w: World, d: Envelope) returns (ls: seq<Label>, x: World)
    requires w.worker.Busy? && w.slot == Slot(None, Some(w.worker.env), None, Some(d)) && d.state == Lost && d.ledger.None? && ValidEnvelope(d)
    ensures Path(c, w, ls, x) && Again(x, None) && x.sends == w.sends
  {
    var a := After(c, w, Crash);
    var b := After(c, a, Recover(0, 2));
    x := After(c, b, Retry(0, 2));
    TwoSteps(c, w, Crash, a, Recover(0, 2), b);
    OneStep(c, b, Retry(0, 2), x);
    PathAppend(c, w, [Crash, Recover(0, 2)], b, [Retry(0, 2)], x);
    ls := [Crash, Recover(0, 2)] + [Retry(0, 2)];
  }

  /** After half a retry and a recovery pass the item is pending next to its dead copy. */
  lemma HalfRetryLeaves(c: Config, w: World, at: int) returns (x: World)
    requires Custody(w) && w.worker.Resting? && w.slot.dead.Some?
    ensures Enabled(w, Retry(at, 1)) && Path(c, After(c, w, Retry(at, 1)), [Recover(at, 2)], x)
    ensures Again(x, w.slot.dead) && w.slot.dead.value.state == Lost && w.slot.dead.value.ledger.None? && ValidEnvelope(w.slot.dead.value)
    ensures x.sends == w.sends
  {
    var half := After(c, w, Retry(at, 1));
    x := After(c, half, Recover(at, 2));
    OneStep(c, half, Recover(at, 2), x);
  }

  /**
   * Exactly the half retries break the finality of successes. From every world of a run
   * without one, with a dead item: after half a retry some continuation records a success
   * for any valid target, loses it, and sends to that target again.
   */
  lemma HalfRetryLosesSuccess(c: Config, ws: seq<World>, ls: seq<Label>, n: nat, at: int, t: Target)
    returns (half: World, before: seq<Label>, x: World, later: seq<Label>, y: World)
    requires IsWholeRun(c, ws, ls) && n < |ws| && ws[n].worker.Resting? && ws[n].slot.dead.Some? && ValidTarget(t)
    ensures Enabled(ws[n], Retry(at, 1)) && half == After(c, ws[n], Retry(at, 1))
    ensures Path(c, half, before, x) && Succeeds(x, t) && Path(c, x, later, y)
    ensures SendsTo(y.sends, t) > SendsTo(x.sends, t) && !SuccessesKept(x, y)
  {
    RunCustody(c, ws, ls, n);
    half := After(c, ws[n], Retry(at, 1));
    var u := HalfRetryLeaves(c, ws[n], at);
    var round;
    round, x := RoundSucceeds(c, u, t, ws[n].slot.dead);
    PathAppend(c, half, [Recover(at, 2)], u, round, x);
    before := [Recover(at, 2)] + round;
    var drop, v := DropsAndRetries(c, x, ws[n].slot.dead.value);
    var again;
    again, y := RoundSucceeds(c, v, t, None);
    PathAppend(c, x, drop, v, again, y);
    later := drop + again;
  }
}
