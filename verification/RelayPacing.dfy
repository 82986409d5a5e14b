/**
 * The pace and the number of forwarding attempts, over whole runs of the relay: a rejected
 * item waits its configured delay, and is buried after its configured number of rejections.
 */
module RelayPacing {
  import opened Common
  import opened Protocol
  import opened Slots
  import opened Outboxes
  import opened Relay
  import opened RelayEffects
  import L = RelayLeases
  import R = Receipts

  // ---------------------------------------------------------------- rejections

  /** The move is a rejection of this item that writes its destination. */
  predicate Rejects(w: World, m: Move, id: ReceiptId) {
    m.GiveUp? && m.life >= 1 && Holds(w, id)
  }

  /**
   * A rejection counts one attempt. The last one the delays allow buries the item; any other puts it back
   * to pending, due after the delay for that attempt. The body and its signature stay as they are.
   */
  ghost predicate Recorded(item: OutboxItem, now: int, backoff: seq<int>, life: nat, t: OutboxSlot) {
    && t.history.None? && t.inflight == (if life == 1 then Some(item) else None)
    && if item.attempts + 1 < |backoff|
       then
         && t.dead.None? && t.pending.Some?
         && t.pending.value.attempts == item.attempts + 1
         && t.pending.value.nextAttemptAt == now + backoff[item.attempts]
         && t.pending.value.body == item.body && t.pending.value.signature == item.signature
       else
         && t.pending.None? && t.dead.Some?
         && t.dead.value.attempts == item.attempts + 1
         && t.dead.value.body == item.body && t.dead.value.signature == item.signature
  }

  lemma NackRecords(s: OutboxSlot, item: OutboxItem, cause: string, now: int, backoff: seq<int>, life: nat)
    requires Held(s, item) && now != 0 && life >= 1
    ensures Recorded(item, now, backoff, life, NackOp(s, item, cause, now, backoff, life))
  {
  }

  lemma RejectionIsRecorded(retention: int, worlds: seq<World>, moves: seq<Move>, n: nat, id: ReceiptId)
    requires IsRun(retention, worlds, moves) && n < |moves| && Rejects(worlds[n], moves[n], id)
    ensures Recorded(worlds[n].worker.item, moves[n].now, moves[n].backoff, moves[n].life, SlotFor(worlds[n + 1], id))
  {
    TracedAt(retention, worlds, moves, n, n + 1, id);
    NackRecords(SlotFor(worlds[n], id), worlds[n].worker.item, moves[n].cause, moves[n].now, moves[n].backoff, moves[n].life);
  }

  // ---------------------------------------------------------------- waiting

  predicate ClaimsIt(m: Move, id: ReceiptId) {
    m.Claim? && m.id == id
  }

  /** Until it is claimed a pending item is left alone. */
  lemma PendingKept(s: OutboxSlot, e: Effect)
    requires s.pending.Some? && Fits(s, e) && !e.Claimed?
    ensures Apply(s, e).pending == s.pending
  {
  }

  lemma {:induction false} PendingStays(worlds: seq<World>, moves: seq<Move>, m: nat, n: nat, id: ReceiptId)
    requires Traced(worlds, moves, id) && m <= n < |worlds| && SlotFor(worlds[m], id).pending.Some?
    requires forall k :: m <= k < n ==> !ClaimsIt(moves[k], id)
    ensures SlotFor(worlds[n], id).pending == SlotFor(worlds[m], id).pending
    decreases n - m
  {
    if m < n {
      PendingStays(worlds, moves, m, n - 1, id);
      var k := n - 1;
      assert Affects(worlds[k], moves[k], worlds[k + 1], id);
      PendingKept(SlotFor(worlds[n - 1], id), EffectOf(worlds[n - 1], moves[n - 1], id));
    }
  }

  /** In every run the next claim after a rejection that was put off is granted only once the configured delay has gone by. */
  lemma RejectionWaits(retention: int, worlds: seq<World>, moves: seq<Move>, m: nat, n: nat, id: ReceiptId)
    requires IsRun(retention, worlds, moves) && m < n < |moves| && Rejects(worlds[m], moves[m], id)
    requires worlds[m].worker.item.attempts + 1 < |moves[m].backoff|
    requires forall k :: m < k < n ==> !ClaimsIt(moves[k], id)
    requires L.Grants(worlds[n], moves[n], id)
    ensures var at := moves[m].now + moves[m].backoff[worlds[m].worker.item.attempts]; at == 0 || moves[n].now >= at
  {
    RejectionIsRecorded(retention, worlds, moves, m, id);
    RunTraced(retention, worlds, moves, id);
    PendingStays(worlds, moves, m + 1, n, id);
  }

  // ---------------------------------------------------------------- counting

  /** How many rejections of the item the first n moves record. */
  ghost function Rejections(worlds: seq<World>, moves: seq<Move>, n: nat, id: ReceiptId): nat
    requires n <= |moves| < |worlds|
  {
    if n == 0 then 0 else Rejections(worlds, moves, n - 1, id) + if Rejects(worlds[n - 1], moves[n - 1], id) then 1 else 0
  }

  /** How many of them are cut off before they remove the inflight file. */
  ghost function Cuts(worlds: seq<World>, moves: seq<Move>, n: nat, id: ReceiptId): nat
    requires n <= |moves| < |worlds|
  {
    if n == 0 then 0
    else Cuts(worlds, moves, n - 1, id) + if Rejects(worlds[n - 1], moves[n - 1], id) && moves[n - 1].life == 1 then 1 else 0
  }

  predicate Between(o: Option<OutboxItem>, low: int, high: int) {
    o.Some? ==> low <= o.value.attempts <= high
  }

  /** Every copy has counted at least `low` attempts; none outside dead has used up `b` of them. */
  predicate Counted(s: OutboxSlot, low: int, b: nat) {
    && Between(s.pending, low, b - 1) && Between(s.inflight, low, b - 1) && Between(s.history, low, b - 1) && Between(s.dead, low, b)
    && (Copies(s) == 0 ==> low <= 0)
  }

  predicate Spends(e: Effect) {
    e.Nacked? && e.life >= 2
  }

  lemma CountedStep(s: OutboxSlot, e: Effect, low: int, b: nat)
    requires Counted(s, low, b) && Fits(s, e) && b >= 1 && (e.Nacked? ==> |e.backoff| <= b)
    requires Copies(s) > 0 ==> Copies(Apply(s, e)) > 0
    ensures Counted(Apply(s, e), if Spends(e) then low + 1 else low, b)
  {
    if e.Nacked? && e.life >= 1 {
      NackRecords(s, e.item, e.cause, e.now, e.backoff, e.life);
    }
  }

  ghost predicate DelaysWithin(moves: seq<Move>, b: nat) {
    forall k :: 0 <= k < |moves| && moves[k].GiveUp? ==> |moves[k].backoff| <= b
  }

  lemma CountedNext(w: World, m: Move, x: World, id: ReceiptId, low: int, b: nat)
    requires Affects(w, m, x, id) && Counted(SlotFor(w, id), low, b) && b >= 1 && (m.GiveUp? ==> |m.backoff| <= b)
    ensures Counted(SlotFor(x, id), if Rejects(w, m, id) && m.life != 1 then low + 1 else low, b)
  {
    CountedStep(SlotFor(w, id), EffectOf(w, m, id), low, b);
  }

  lemma {:induction false} RunCounted(worlds: seq<World>, moves: seq<Move>, n: nat, id: ReceiptId, b: nat)
    requires Traced(worlds, moves, id) && n <= |moves| && b >= 1 && DelaysWithin(moves, b)
    ensures Counted(SlotFor(worlds[n], id), Rejections(worlds, moves, n, id) - Cuts(worlds, moves, n, id), b)
  {
    if n > 0 {
      RunCounted(worlds, moves, n - 1, id, b);
      var k := n - 1;
      CountedNext(worlds[k], moves[k], worlds[k + 1], id, Rejections(worlds, moves, k, id) - Cuts(worlds, moves, k, id), b);
    }
  }

  /** In every run an item is rejected at most as often as the delays allow, and once more for each rejection cut off before it finished. */
  lemma RejectionsBounded(retention: int, worlds: seq<World>, moves: seq<Move>, n: nat, id: ReceiptId, b: nat)
    requires IsRun(retention, worlds, moves) && n <= |moves| && b >= 1 && DelaysWithin(moves, b)
    ensures Rejections(worlds, moves, n, id) <= b + Cuts(worlds, moves, n, id)
  {
    RunTraced(retention, worlds, moves, id);
    RunCounted(worlds, moves, n, id, b);
  }

  // ---------------------------------------------------------------- a rejection that is lost

  lemma {:induction false} PrefixCounts(ws: seq<World>, ms: seq<Move>, xs: seq<World>, ns: seq<Move>, n: nat, id: ReceiptId)
    requires n <= |ms| < |ws| && n <= |ns| < |xs| && ms[..n] == ns[..n] && ws[..n] == xs[..n]
    ensures Rejections(ws, ms, n, id) == Rejections(xs, ns, n, id) && Cuts(ws, ms, n, id) == Cuts(xs, ns, n, id)
  {
    if n > 0 {
      assert ms[n - 1] == ms[..n][n - 1] && ns[n - 1] == ns[..n][n - 1];
      assert ws[n - 1] == ws[..n][n - 1] && xs[n - 1] == xs[..n][n - 1];
      assert ms[..n - 1] == ms[..n][..n - 1] && ns[..n - 1] == ns[..n][..n - 1];
      assert ws[..n - 1] == ws[..n][..n - 1] && xs[..n - 1] == xs[..n][..n - 1];
      PrefixCounts(ws, ms, xs, ns, n - 1, id);
    }
  }

  /** A run up to a world with the item in this slot and the forwarder in this state, and its counts. */
  ghost predicate Reached(retention: int, ws: seq<World>, ms: seq<Move>, id: ReceiptId, s: OutboxSlot, worker: Worker, rejections: nat, cuts: nat) {
    && IsRun(retention, ws, ms) && DelaysWithin(ms, 2)
    && ws[|ms|].outbox == map[id := s] && ws[|ms|].worker == worker
    && Rejections(ws, ms, |ms|, id) == rejections && Cuts(ws, ms, |ms|, id) == cuts
  }

  lemma Extend(retention: int, ws: seq<World>, ms: seq<Move>, id: ReceiptId, s: OutboxSlot, worker: Worker, rejections: nat, cuts: nat, m: Move, t: OutboxSlot, next: Worker)
    returns (xs: seq<World>, ns: seq<Move>)
    requires Reached(retention, ws, ms, id, s, worker, rejections, cuts) && (m.GiveUp? ==> |m.backoff| <= 2)
    requires CanMove(ws[|ms|], m) && MoveTo(retention, ws[|ms|], m).outbox == map[id := t] && MoveTo(retention, ws[|ms|], m).worker == next
    ensures var counts := Rejects(ws[|ms|], m, id);
      Reached(retention, xs, ns, id, t, next, if counts then rejections + 1 else rejections, if counts && m.life == 1 then cuts + 1 else cuts)
  {
    var w := ws[|ms|];
    xs, ns := ws + [MoveTo(retention, w, m)], ms + [m];
    assert ns[..|ms|] == ms[..|ms|] && xs[..|ms|] == ws[..|ms|];
    PrefixCounts(ws, ms, xs, ns, |ms|, id);
    forall i | 0 <= i < |ns| ensures CanMove(xs[i], ns[i]) && xs[i + 1] == MoveTo(retention, xs[i], ns[i]) {
      if i < |ms| {
        assert xs[i] == ws[i] && xs[i + 1] == ws[i + 1] && ns[i] == ms[i];
      }
    }
  }

  /** Claim the item and reject it. */
  lemma ClaimAndReject(retention: int, ws: seq<World>, ms: seq<Move>, id: ReceiptId, item: OutboxItem, now: int, rejections: nat, cuts: nat, life: nat)
    returns (xs: seq<World>, ns: seq<Move>, t: OutboxSlot)
    requires Reached(retention, ws, ms, id, Slot(Some(item), None, None, None), Resting, rejections, cuts)
    requires item.id == id && item.state == Pending && item.nextAttemptAt <= now && now > 0 && life >= 1
    ensures t == NackOp(Slot(None, Some(ClaimedItem(item, now, 1)), None, None), ClaimedItem(item, now, 1), "", now, [1, 1], life)
    ensures Reached(retention, xs, ns, id, t, Resting, rejections + 1, if life == 1 then cuts + 1 else cuts)
  {
    var held := ClaimedItem(item, now, 1);
    var s := Slot(None, Some(held), None, None);
    var w := ws[|ms|];
    assert w.outbox[id := s] == map[id := s];
    xs, ns := Extend(retention, ws, ms, id, Slot(Some(item), None, None, None), Resting, rejections, cuts, Claim(id, now, 1, 2), s, Holding(held));
    t := NackOp(s, held, "", now, [1, 1], life);
    var x := xs[|ns|];
    assert x.outbox[id := t] == map[id := t];
    xs, ns := Extend(retention, xs, ns, id, s, Holding(held), rejections, cuts, GiveUp("", now, [1, 1], life), t, Resting);
  }

  /** After a rejection cut off before it removed the inflight file, a claim drops the pending copy, and a recovery brings back the one that has not counted it. */
  lemma LoseRejection(retention: int, ws: seq<World>, ms: seq<Move>, id: ReceiptId, held: OutboxItem, failed: OutboxItem, now: int, rejections: nat, cuts: nat)
    returns (xs: seq<World>, ns: seq<Move>)
    requires Reached(retention, ws, ms, id, Slot(Some(failed), Some(held), None, None), Resting, rejections, cuts)
    requires held.id == id && held.state == Inflight && held.leaseUntil <= now && failed.nextAttemptAt <= now && now > 0
    ensures Reached(retention, xs, ns, id, Slot(Some(RecoveredItem(held, now)), None, None, None), Resting, rejections, cuts)
  {
    var both, one, back := Slot(Some(failed), Some(held), None, None), Slot(None, Some(held), None, None), Slot(Some(RecoveredItem(held, now)), None, None, None);
    var w := ws[|ms|];
    assert w.outbox[id := one] == map[id := one];
    xs, ns := Extend(retention, ws, ms, id, both, Resting, rejections, cuts, Claim(id, now, 1, 2), one, Resting);
    var x := xs[|ns|];
    assert x.outbox[id := back] == map[id := back];
    xs, ns := Extend(retention, xs, ns, id, one, Resting, rejections, cuts, Recover(id, now, 2), back, Resting);
  }

  lemma Produced(retention: int, body: Body, signature: SignatureMetadata, host: R.Host, e: Envelope) returns (ws: seq<World>, ms: seq<Move>)
    requires Acceptable(body, signature) == Some(e) && R.Init(host)
    ensures Reached(retention, ws, ms, ReceiptIdOf(e), Slot(Some(NewItem(e, body, signature, 1)), None, None, None), Resting, 0, 0)
  {
    var start := World(map[], Resting, {}, {}, host);
    var m := Produce(body, signature, 1);
    ws, ms := [start, MoveTo(retention, start, m)], [m];
  }

  /**
   * The bound is not kept without the cuts: for every acceptable body there is a run whose delays allow two
   * rejections and which rejects the item three times, because one of them is cut off and then lost.
   */
  lemma RejectedOnceTooOften(retention: int, body: Body, signature: SignatureMetadata, host: R.Host, e: Envelope) returns (ws: seq<World>, ms: seq<Move>)
    requires Acceptable(body, signature) == Some(e) && R.Init(host)
    ensures IsRun(retention, ws, ms) && DelaysWithin(ms, 2)
    ensures Rejections(ws, ms, |ms|, ReceiptIdOf(e)) == 3 && Cuts(ws, ms, |ms|, ReceiptIdOf(e)) == 1
  {
    var id, item := ReceiptIdOf(e), NewItem(e, body, signature, 1);
    ws, ms := Produced(retention, body, signature, host, e);
    var t;
    ws, ms, t := ClaimAndReject(retention, ws, ms, id, item, 1, 0, 0, 1);
    var held := ClaimedItem(item, 1, 1);
    ws, ms := LoseRejection(retention, ws, ms, id, held, t.pending.value, 2, 1, 1);
    var back := RecoveredItem(held, 2);
    ws, ms, t := ClaimAndReject(retention, ws, ms, id, back, 2, 1, 1, 2);
    ws, ms, t := ClaimAndReject(retention, ws, ms, id, t.pending.value, 3, 2, 1, 2);
  }
}
