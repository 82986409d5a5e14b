/**
 * Claim leases of the relay's outbox, over whole runs: recovery gives an item back only
 * when the time and length of its last claim say so, and two claims never overlap.
 */
module RelayLeases {
  import opened Common
  import opened Protocol
  import opened Slots
  import opened Outboxes
  import opened Relay
  import opened RelayEffects

  /** The move is a claim of this item that finds it due and writes the inflight file. */
  ghost predicate Grants(w: World, m: Move, id: ReceiptId) {
    && m.Claim? && m.id == id && m.life >= 1
    && SlotFor(w, id).inflight.None? && SlotFor(w, id).pending.Some?
    && (SlotFor(w, id).pending.value.nextAttemptAt == 0 || SlotFor(w, id).pending.value.nextAttemptAt <= m.now)
  }

  /** A claim lasts for its lease, or for thirty seconds when it names none. */
  function Until(now: int, lease: int): int {
    if lease == 0 then now + 30_000_000_000 else now + lease
  }

  /** When the last claim granted on this item before state n runs out. */
  ghost function Deadline(worlds: seq<World>, moves: seq<Move>, n: nat, id: ReceiptId): int
    requires n <= |moves| < |worlds|
  {
    if n == 0 then 0
    else if Grants(worlds[n - 1], moves[n - 1], id) then Until(moves[n - 1].now, moves[n - 1].lease)
    else Deadline(worlds, moves, n - 1, id)
  }

  ghost predicate Leased(w: World, id: ReceiptId, d: int) {
    SlotFor(w, id).inflight.Some? ==> SlotFor(w, id).inflight.value.leaseUntil == d
  }

  predicate InflightUntil(s: OutboxSlot, d: int) {
    s.inflight.Some? ==> s.inflight.value.leaseUntil == d
  }

  /** The effect is a claim that finds the item due and writes the inflight file. */
  predicate Leases(s: OutboxSlot, e: Effect) {
    && e.Claimed? && e.life >= 1 && s.inflight.None? && s.pending.Some?
    && (s.pending.value.nextAttemptAt == 0 || s.pending.value.nextAttemptAt <= e.now)
  }

  /** Only a claim writes the inflight file; a Nack, an Ack and a recovery keep it or remove it. */
  lemma LeaseStep(s: OutboxSlot, e: Effect, d: int)
    requires Fits(s, e) && InflightUntil(s, d)
    ensures InflightUntil(Apply(s, e), if Leases(s, e) then Until(e.now, e.lease) else d)
  {
  }

  lemma LeasedStep(w: World, m: Move, x: World, id: ReceiptId, d: int)
    requires Affects(w, m, x, id) && Leased(w, id, d)
    ensures Leased(x, id, if Grants(w, m, id) then Until(m.now, m.lease) else d)
  {
    LeaseStep(SlotFor(w, id), EffectOf(w, m, id), d);
  }

  lemma {:induction false} RunLeased(retention: int, worlds: seq<World>, moves: seq<Move>, n: nat, id: ReceiptId)
    requires IsRun(retention, worlds, moves) && n <= |moves|
    ensures Leased(worlds[n], id, Deadline(worlds, moves, n, id))
  {
    if n > 0 {
      RunLeased(retention, worlds, moves, n - 1, id);
      TracedAt(retention, worlds, moves, n - 1, n, id);
      LeasedStep(worlds[n - 1], moves[n - 1], worlds[n], id, Deadline(worlds, moves, n - 1, id));
    }
  }

  /**
   * In every run a complete recovery of an item whose only copy is inflight leaves it there while its
   * last claim's deadline lies ahead, and otherwise puts it back to pending with only its bookkeeping changed.
   */
  lemma RecoveryRespectsLease(retention: int, worlds: seq<World>, moves: seq<Move>, n: nat, id: ReceiptId)
    requires IsRun(retention, worlds, moves) && n < |moves|
    requires moves[n].Recover? && moves[n].id == id && moves[n].life >= 2
    requires var s := SlotFor(worlds[n], id); s.inflight.Some? && s.pending.None? && s.history.None? && s.dead.None?
    ensures var s, d := SlotFor(worlds[n], id), Deadline(worlds, moves, n, id);
      SlotFor(worlds[n + 1], id) ==
        if d != 0 && moves[n].now < d then s
        else Slot(Some(s.inflight.value.(state := Pending, updatedAt := moves[n].now, leaseUntil := 0)), None, None, None)
  {
    RunLeased(retention, worlds, moves, n, id);
  }

  // ---------------------------------------------------------------- claims exclude each other

  /** The only copy is inflight under this deadline. */
  predicate OnlyInflight(s: OutboxSlot, d: int) {
    s.inflight.Some? && InflightUntil(s, d) && s.pending.None? && s.history.None? && s.dead.None?
  }

  ghost predicate Out(w: World, id: ReceiptId, d: int) {
    OnlyInflight(SlotFor(w, id), d)
  }

  /** The forwarder settles the item it holds: an Ack or a Nack that writes its destination. */
  predicate GivesUp(w: World, m: Move, id: ReceiptId) {
    && (m.Receive? || m.GiveUp?) && m.life >= 1
    && !w.worker.Resting? && w.worker.item.id == id
  }

  /** A recovery of the item that finds the deadline behind it. */
  predicate RunsOut(m: Move, id: ReceiptId, d: int) {
    m.Recover? && m.id == id && m.life >= 1 && (d == 0 || d <= m.now)
  }

  /** The effect takes the item away from its holder. */
  predicate Takes(e: Effect, d: int) {
    || ((e.Acked? || e.Nacked?) && e.life >= 1)
    || (e.Recovered? && e.life >= 1 && (d == 0 || d <= e.now))
  }

  lemma KeptStep(s: OutboxSlot, e: Effect, d: int)
    requires Fits(s, e) && OnlyInflight(s, d) && !Takes(e, d)
    ensures OnlyInflight(Apply(s, e), d)
  {
  }

  lemma OutStep(w: World, m: Move, x: World, id: ReceiptId, d: int)
    requires Affects(w, m, x, id) && Out(w, id, d) && !GivesUp(w, m, id) && !RunsOut(m, id, d)
    ensures Out(x, id, d) && !Grants(w, m, id)
  {
    KeptStep(SlotFor(w, id), EffectOf(w, m, id), d);
  }

  lemma {:induction false} OutRun(retention: int, worlds: seq<World>, moves: seq<Move>, m: nat, n: nat, id: ReceiptId, d: int)
    requires IsRun(retention, worlds, moves) && m <= n <= |moves| && Out(worlds[m], id, d)
    requires forall k :: m <= k < n ==> !GivesUp(worlds[k], moves[k], id) && !RunsOut(moves[k], id, d)
    ensures Out(worlds[n], id, d)
    decreases n - m
  {
    if m < n {
      TracedAt(retention, worlds, moves, m, m + 1, id);
      OutStep(worlds[m], moves[m], worlds[m + 1], id, d);
      OutRun(retention, worlds, moves, m + 1, n, id, d);
    }
  }

  /** Some move from m up to n settles the item or finds its deadline passed. */
  ghost predicate Released(worlds: seq<World>, moves: seq<Move>, m: nat, n: nat, id: ReceiptId, d: int)
    requires n <= |moves| < |worlds|
  {
    exists k :: m <= k < n && (GivesUp(worlds[k], moves[k], id) || RunsOut(moves[k], id, d))
  }

  lemma HandedOut(s: OutboxSlot, now: int, lease: int, life: nat)
    requires ClaimWorker(s, now, lease, life).Holding? && s.history.None? && s.dead.None?
    ensures OnlyInflight(ClaimOp(s, now, lease, life), Until(now, lease))
  {
  }

  /** A claim that hands the item to the forwarder leaves it out until its deadline. */
  lemma ClaimTakesOut(retention: int, worlds: seq<World>, moves: seq<Move>, m: nat, next: nat, id: ReceiptId)
    requires IsRun(retention, worlds, moves) && m < |moves| && next == m + 1
    requires moves[m].Claim? && moves[m].id == id && worlds[next].worker.Holding?
    ensures Out(worlds[next], id, Until(moves[m].now, moves[m].lease))
  {
    RunInv(retention, worlds, moves, m);
    var s := worlds[m].outbox[id];
    var body :| SlotOk(s, id, body);
    HandedOut(s, moves[m].now, moves[m].lease, moves[m].life);
  }

  /**
   * Mutual exclusion: once a claim hands the item to the forwarder, no later claim is granted on it until
   * the forwarder settles it or a recovery comes no earlier than the claim's deadline.
   */
  lemma ClaimsExclude(retention: int, worlds: seq<World>, moves: seq<Move>, m: nat, n: nat, id: ReceiptId)
    requires IsRun(retention, worlds, moves) && m < n < |moves|
    requires moves[m].Claim? && moves[m].id == id && worlds[m + 1].worker.Holding?
    requires Grants(worlds[n], moves[n], id)
    ensures Released(worlds, moves, m + 1, n, id, Until(moves[m].now, moves[m].lease))
  {
    var d := Until(moves[m].now, moves[m].lease);
    ClaimTakesOut(retention, worlds, moves, m, m + 1, id);
    if !Released(worlds, moves, m + 1, n, id, d) {
      OutRun(retention, worlds, moves, m + 1, n, id, d);
    }
  }

  /** The first complete recovery at or past the deadline brings back an item whose forwarder never settled it. */
  lemma AbandonedIsRecovered(retention: int, worlds: seq<World>, moves: seq<Move>, m: nat, n: nat, id: ReceiptId)
    requires IsRun(retention, worlds, moves) && m < n < |moves|
    requires moves[m].Claim? && moves[m].id == id && worlds[m + 1].worker.Holding?
    requires !Released(worlds, moves, m + 1, n, id, Until(moves[m].now, moves[m].lease))
    requires moves[n].Recover? && moves[n].id == id && moves[n].life >= 2 && Until(moves[m].now, moves[m].lease) <= moves[n].now
    ensures SlotFor(worlds[n + 1], id).pending.Some? && SlotFor(worlds[n + 1], id).inflight.None?
  {
    var d := Until(moves[m].now, moves[m].lease);
    ClaimTakesOut(retention, worlds, moves, m, m + 1, id);
    OutRun(retention, worlds, moves, m + 1, n, id, d);
    TracedAt(retention, worlds, moves, n, n + 1, id);
    BroughtBack(SlotFor(worlds[n], id), moves[n].now, moves[n].life, d);
  }

  lemma BroughtBack(s: OutboxSlot, now: int, life: nat, d: int)
    requires OnlyInflight(s, d) && d <= now && life >= 2
    ensures RecoverOp(s, now, life).pending.Some? && RecoverOp(s, now, life).inflight.None?
  {
  }
}
