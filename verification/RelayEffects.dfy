/** A run of the relay seen from one item of the outbox: each move does one thing to its slot, or nothing. */
module RelayEffects {
  import opened Common
  import opened Protocol
  import opened Slots
  import opened Outboxes
  import opened Relay

  datatype Effect =
    | Same
    | Enqueued(item: OutboxItem)
    | Claimed(now: int, lease: int, life: nat)
    | Acked(item: OutboxItem, now: int, life: nat)
    | Nacked(item: OutboxItem, cause: string, now: int, backoff: seq<int>, life: nat)
    | Recovered(now: int, life: nat)

  predicate Holds(w: World, id: ReceiptId) {
    !w.worker.Resting? && w.worker.item.id == id
  }

  ghost function EffectOf(w: World, m: Move, id: ReceiptId): Effect {
    match m
    case Produce(body, signature, now) =>
      var e := Acceptable(body, signature);
      if e.Some? && ReceiptIdOf(e.value) == id then Enqueued(NewItem(e.value, body, signature, now)) else Same
    case Claim(x, now, lease, life) => if x == id then Claimed(now, lease, life) else Same
    case Receive(_, now, life) => if Holds(w, id) then Effect.Acked(w.worker.item, now, life) else Same
    case GiveUp(cause, now, backoff, life) => if Holds(w, id) then Nacked(w.worker.item, cause, now, backoff, life) else Same
    case Recover(x, now, life) => if x == id then Recovered(now, life) else Same
    case _ => Same
  }

  function Apply(s: OutboxSlot, e: Effect): OutboxSlot {
    match e
    case Same => s
    case Enqueued(item) => EnqueueOp(s, item)
    case Claimed(now, lease, life) => ClaimOp(s, now, lease, life)
    case Acked(item, now, life) => AckOp(s, item, now, life)
    case Nacked(item, cause, now, backoff, life) => NackOp(s, item, cause, now, backoff, life)
    case Recovered(now, life) => RecoverOp(s, now, life)
  }

  /** The effect on one item is possible: only the holder settles it, and at a time that is not zero. */
  ghost predicate Fits(s: OutboxSlot, e: Effect) {
    match e
    case Acked(item, now, _) => Held(s, item) && now != 0
    case Nacked(item, _, now, _, _) => Held(s, item) && now != 0
    case Enqueued(item) => item.attempts == 0
    case _ => true
  }

  /** The move changes the item's slot by its effect, and never loses the item. */
  ghost predicate Affects(w: World, m: Move, x: World, id: ReceiptId) {
    var s, t := SlotFor(w, id), SlotFor(x, id);
    && Fits(s, EffectOf(w, m, id)) && t == Apply(s, EffectOf(w, m, id))
    && (Copies(s) > 0 ==> Copies(t) > 0)
  }

  lemma MoveFits(w: World, m: Move, id: ReceiptId)
    requires WorkerInv(w.outbox, w.worker) && CanMove(w, m)
    ensures Fits(SlotFor(w, id), EffectOf(w, m, id))
  {
  }

  lemma MoveApplies(retention: int, w: World, m: Move, x: World, id: ReceiptId)
    requires WorkerInv(w.outbox, w.worker) && CanMove(w, m) && x == MoveTo(retention, w, m)
    ensures SlotFor(x, id) == Apply(SlotFor(w, id), EffectOf(w, m, id))
    ensures id in w.outbox ==> id in x.outbox
  {
  }

  lemma MoveAffects(retention: int, w: World, m: Move, x: World, id: ReceiptId)
    requires Inv(w) && CanMove(w, m) && x == MoveTo(retention, w, m) && SlotsInv(x.outbox)
    ensures Affects(w, m, x, id)
  {
    MoveFits(w, m, id);
    MoveApplies(retention, w, m, x, id);
  }

  ghost predicate Traced(worlds: seq<World>, moves: seq<Move>, id: ReceiptId) {
    && |worlds| == |moves| + 1 && SlotFor(worlds[0], id) == NO_FILES
    && forall k :: 0 <= k < |moves| ==> Affects(worlds[k], moves[k], worlds[k + 1], id)
  }

  /** A run, seen from one item. */
  lemma RunTraced(retention: int, worlds: seq<World>, moves: seq<Move>, id: ReceiptId)
    requires IsRun(retention, worlds, moves)
    ensures Traced(worlds, moves, id)
  {
    forall k | 0 <= k < |moves| ensures Affects(worlds[k], moves[k], worlds[k + 1], id) {
      TracedAt(retention, worlds, moves, k, k + 1, id);
    }
  }

  lemma TracedAt(retention: int, worlds: seq<World>, moves: seq<Move>, k: nat, next: nat, id: ReceiptId)
    requires IsRun(retention, worlds, moves) && k < |moves| && next == k + 1
    ensures Affects(worlds[k], moves[k], worlds[next], id)
  {
    RunInv(retention, worlds, moves, k);
    RunInv(retention, worlds, moves, next);
    MoveAffects(retention, worlds[k], moves[k], worlds[next], id);
  }
}
