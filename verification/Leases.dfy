/**
 * Claim leases of the service loop, over whole runs: what a recovery pass may take from a
 * worker is decided by the time and length of the claim, and by nothing written since.
 */
module Leases {
  import opened Common
  import opened Slots
  import opened Ledgers
  import opened Queues
  import opened Delivery
  import opened Services

  /** The step is a claim that gets as far as writing the inflight file. */
  ghost predicate Grants(w: World, lab: Label) {
    lab.Claim? && lab.life >= 1 && w.slot.inflight.None?
  }

  /** When the last claim granted before state n runs out; zero before the first claim. */
  ghost function Deadline(ws: seq<World>, ls: seq<Label>, n: nat): int
    requires n <= |ls| < |ws|
  {
    if n == 0 then 0
    else if Grants(ws[n - 1], ls[n - 1]) then ls[n - 1].now + ls[n - 1].lease
    else Deadline(ws, ls, n - 1)
  }

  /** The inflight file and the worker's copy carry this deadline. */
  ghost predicate Leased(w: World, d: int) {
    && (w.slot.inflight.Some? ==> w.slot.inflight.value.leaseUntil == d)
    && (w.worker.Busy? ==> w.worker.env.leaseUntil == d)
  }

  /** Recording an outcome leaves the lease alone. */
  lemma RecordKeepsLease(e: Envelope, t: Target, o: Outcome, now: int, backoff: seq<int>)
    requires |backoff| > 0
    ensures var r := Record(e, t, o, now, backoff); r.Some? ==> r.value.leaseUntil == e.leaseUntil
  {
  }

  lemma AttemptKeepsLease(c: Config, w: World, o: Outcome, life: nat, d: int)
    requires Enabled(w, Attempt(o, life)) && Leased(w, d)
    ensures Leased(AttemptAfter(c, w, o, life), d)
  {
    RecordKeepsLease(w.worker.env, w.worker.mode.todo[0], o, w.worker.now, c.Backoff());
  }

  lemma LeasedStep(c: Config, w: World, lab: Label, d: int)
    requires Enabled(w, lab) && Leased(w, d)
    ensures Leased(After(c, w, lab), if Grants(w, lab) then lab.now + lab.lease else d)
  {
    if lab.Attempt? {
      AttemptKeepsLease(c, w, lab.outcome, lab.life, d);
    }
  }

  lemma {:induction false} RunLeased(c: Config, ws: seq<World>, ls: seq<Label>, n: nat)
    requires IsRun(c, ws, ls) && n <= |ls|
    ensures Leased(ws[n], Deadline(ws, ls, n))
  {
    if n > 0 {
      RunLeased(c, ws, ls, n - 1);
      LeasedStep(c, ws[n - 1], ls[n - 1], Deadline(ws, ls, n - 1));
    }
  }

  /**
   * In every run a complete recovery pass leaves an item whose only copy is inflight exactly as it is
   * while the last granted claim's time and lease lie ahead of the pass, and otherwise puts it back
   * to pending with nothing but its bookkeeping changed.
   */
  lemma RecoveryRespectsLease(c: Config, ws: seq<World>, ls: seq<Label>, n: nat)
    requires IsRun(c, ws, ls) && n < |ls| && ls[n].Recover? && ls[n].life >= 2
    requires ws[n].slot.inflight.Some? && ws[n].slot.pending.None? && ws[n].slot.history.None? && ws[n].slot.dead.None?
    ensures var s, d := ws[n].slot, Deadline(ws, ls, n);
      ws[n + 1].slot ==
        if d != 0 && ls[n].at < d then s
        else Slot(Some(s.inflight.value.(state := Pending, updatedAt := ls[n].at, leaseUntil := 0)), None, None, None)
  {
    RunLeased(c, ws, ls, n);
  }

  // ---------------------------------------------------------------- claims exclude each other

  /** The item's only copy is inflight under this deadline, and a busy worker works on that copy. */
  ghost predicate Out(w: World, d: int) {
    && w.slot.pending.None? && w.slot.inflight.Some? && w.slot.history.None? && w.slot.dead.None?
    && Leased(w, d)
  }

  /** The holder moves the item on: an Ack, a Nack or a Defer that writes its destination. */
  predicate GivesUp(lab: Label) {
    (lab.Finish? || lab.QuietDefer? || lab.AckWhole? || lab.NackWhole?) && lab.life >= 1
  }

  /** A recovery pass that finds the deadline behind it. */
  predicate RunsOut(lab: Label, d: int) {
    lab.Recover? && lab.life >= 1 && (d == 0 || d <= lab.at)
  }

  lemma OutStep(c: Config, w: World, lab: Label, d: int)
    requires Custody(w) && Enabled(w, lab) && Out(w, d) && !GivesUp(lab) && !RunsOut(lab, d)
    ensures Out(After(c, w, lab), d) && !lab.Claim?
  {
    LeasedStep(c, w, lab, d);
  }

  lemma {:induction false} OutRun(c: Config, ws: seq<World>, ls: seq<Label>, m: nat, n: nat, d: int)
    requires IsWholeRun(c, ws, ls) && m <= n <= |ls| && Out(ws[m], d)
    requires forall k :: m <= k < n ==> !GivesUp(ls[k]) && !RunsOut(ls[k], d)
    ensures Out(ws[n], d)
    decreases n - m
  {
    if m < n {
      RunCustody(c, ws, ls, m);
      OutStep(c, ws[m], ls[m], d);
      OutRun(c, ws, ls, m + 1, n, d);
    }
  }

  /** Some step from m up to n hands the item on or finds its deadline passed. */
  ghost predicate Released(ls: seq<Label>, m: nat, n: nat, d: int)
    requires n <= |ls|
  {
    exists k :: m <= k < n && (GivesUp(ls[k]) || RunsOut(ls[k], d))
  }

  /** A claim that hands the item to a worker leaves it out until its deadline. */
  lemma ClaimTakesOut(c: Config, ws: seq<World>, ls: seq<Label>, m: nat, next: nat)
    requires IsWholeRun(c, ws, ls) && m < |ls| && next == m + 1 && ls[m].Claim? && ws[next].worker.Busy?
    ensures Out(ws[next], ls[m].now + ls[m].lease)
  {
    RunCustody(c, ws, ls, m);
    RunCustody(c, ws, ls, next);
  }

  /**
   * Mutual exclusion: once a claim hands the item to a worker, no later claim finds it until that worker
   * moves it on, or a recovery pass comes no earlier than the claim's time plus its lease, whatever
   * crashes, ledger writes, early passes, retries and cleanups happen in between.
   */
  lemma ClaimsExclude(c: Config, ws: seq<World>, ls: seq<Label>, m: nat, n: nat)
    requires IsWholeRun(c, ws, ls) && m < n < |ls|
    requires ls[m].Claim? && ws[m + 1].worker.Busy? && ls[n].Claim?
    ensures Released(ls, m + 1, n, ls[m].now + ls[m].lease)
  {
    var d := ls[m].now + ls[m].lease;
    ClaimTakesOut(c, ws, ls, m, m + 1);
    if !Released(ls, m + 1, n, d) {
      OutRun(c, ws, ls, m + 1, n, d);
    }
  }

  /** The first complete recovery pass at or past the deadline brings back an item whose worker never moved it on. */
  lemma AbandonedIsRecovered(c: Config, ws: seq<World>, ls: seq<Label>, m: nat, n: nat)
    requires IsWholeRun(c, ws, ls) && m < n < |ls| && ls[m].Claim? && ws[m + 1].worker.Busy?
    requires !Released(ls, m + 1, n, ls[m].now + ls[m].lease)
    requires ls[n].Recover? && ls[n].life >= 2 && ls[m].now + ls[m].lease <= ls[n].at
    ensures ws[n + 1].slot.pending.Some? && ws[n + 1].slot.inflight.None?
  {
    var d := ls[m].now + ls[m].lease;
    ClaimTakesOut(c, ws, ls, m, m + 1);
    OutRun(c, ws, ls, m + 1, n, d);
  }
}
