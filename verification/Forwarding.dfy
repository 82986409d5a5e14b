/**
 * What crosses the wire between the outbox and the ingress, field by field: which bodies the
 * outbox takes, that every item it holds can be sent, and which reply settles an item.
 */
module Forwarding {
  import opened Common
  import opened Protocol
  import opened Slots
  import opened Outboxes
  import opened Relay
  import R = Receipts
  import S = Signing
  import E = RelayEffects
  import P = RelayPacing

  // ---------------------------------------------------------------- what the outbox takes

  /** The signature metadata repeat the envelope's time and nonce, name a key, a method and a target of at most 2048 bytes. */
  predicate Describes(m: SignatureMetadata, e: Envelope) {
    S.IsName(m.keyId) && m.sentAt == e.sentAt && m.nonce == e.nonce && |m.httpMethod| > 0 && 0 < |m.target| < 2049
  }

  /** The body is readable, carries metadata only, and the signature metadata describe it. */
  predicate Postable(body: Body, m: SignatureMetadata) {
    S.Readable(body) && body.parsed.value.event.metadataOnly && Describes(m, body.parsed.value)
  }

  lemma PostableIff(body: Body, m: SignatureMetadata)
    ensures Acceptable(body, m) == if Postable(body, m) then body.parsed else None
  {
    S.ReadableAgrees(body);
    S.NamesAgree(m.keyId);
  }

  // ---------------------------------------------------------------- every item can be sent

  /** The item is in this state, postable, dated, and named after its body. */
  predicate Whole(item: OutboxItem, state: OutboxState) {
    && item.state == state && item.createdAt != 0 && item.updatedAt != 0 && Postable(item.body, item.signature)
    && var e := item.body.parsed.value;
       item.key == e.key && item.digest == Digest(item.body) && item.id == ReceiptId(e.team, e.origin, e.key)
  }

  /** A request is made from exactly the whole inflight items, and carries the item's own body, identity and signature. */
  lemma RequestIff(item: OutboxItem)
    ensures NewForwardRequest(item) ==
      if Whole(item, Inflight) then Some(ForwardRequest(item.id, item.key, item.digest, item.body, item.signature)) else None
  {
    PostableIff(item.body, item.signature);
    S.ReadableAgrees(item.body);
    S.NamesAgree(item.signature.keyId);
  }

  predicate WholeCopy(o: Option<OutboxItem>, state: OutboxState) {
    o.Some? ==> Whole(o.value, state)
  }

  predicate AllWhole(s: OutboxSlot) {
    WholeCopy(s.pending, Pending) && WholeCopy(s.inflight, Inflight) && WholeCopy(s.history, History) && WholeCopy(s.dead, Dead)
  }

  /** Effects that carry a time carry one that is not zero, and only whole items are enqueued. */
  ghost predicate Dated(e: E.Effect) {
    match e
    case Same => true
    case Enqueued(item) => Whole(item, Pending)
    case Claimed(now, _, _) => now != 0
    case Acked(_, now, _) => now != 0
    case Nacked(_, _, now, _, _) => now != 0
    case Recovered(now, _) => now != 0
  }

  lemma MoveIsDated(w: World, m: Move, id: ReceiptId)
    requires CanMove(w, m)
    ensures Dated(E.EffectOf(w, m, id))
  {
    if m.Produce? {
      PostableIff(m.body, m.signature);
    }
  }

  /** An item whose bookkeeping changes stays whole. */
  lemma WholeKept(item: OutboxItem, next: OutboxItem, state: OutboxState)
    requires Whole(item, state) && next.createdAt == item.createdAt && next.updatedAt != 0
    requires next.body == item.body && next.signature == item.signature && next.key == item.key && next.digest == item.digest && next.id == item.id
    ensures Whole(next, next.state)
  {
  }

  lemma LeaveWhole(s: OutboxSlot, next: OutboxItem, life: nat)
    requires AllWhole(s) && Whole(next, next.state)
    ensures AllWhole(LeaveInflight(s, next, life))
  {
  }

  lemma ClaimWhole(s: OutboxSlot, now: int, lease: int, life: nat)
    requires AllWhole(s) && now != 0
    ensures AllWhole(ClaimOp(s, now, lease, life))
  {
    if s.pending.Some? {
      WholeKept(s.pending.value, ClaimedItem(s.pending.value, now, lease), Pending);
    }
  }

  lemma RecoverWhole(s: OutboxSlot, now: int, life: nat)
    requires AllWhole(s) && now != 0
    ensures AllWhole(RecoverOp(s, now, life))
  {
    if s.inflight.Some? {
      WholeKept(s.inflight.value, RecoveredItem(s.inflight.value, now), Inflight);
      LeaveWhole(s, RecoveredItem(s.inflight.value, now), life);
    }
  }

  lemma WholeStep(s: OutboxSlot, e: E.Effect)
    requires AllWhole(s) && E.Fits(s, e) && Dated(e)
    ensures AllWhole(E.Apply(s, e))
  {
    match e
    case Same =>
    case Enqueued(item) =>
    case Claimed(now, lease, life) => ClaimWhole(s, now, lease, life);
    case Acked(item, now, life) =>
      WholeKept(item, AckedItem(item, now), Inflight);
      LeaveWhole(s, AckedItem(item, now), life);
    case Nacked(item, cause, now, backoff, life) =>
      WholeKept(item, NackedItem(item, cause, now, backoff), Inflight);
      LeaveWhole(s, NackedItem(item, cause, now, backoff), life);
    case Recovered(now, life) => RecoverWhole(s, now, life);
  }

  lemma {:induction false} RunWhole(retention: int, worlds: seq<World>, moves: seq<Move>, n: nat, id: ReceiptId)
    requires IsRun(retention, worlds, moves) && n < |worlds|
    ensures AllWhole(SlotFor(worlds[n], id))
  {
    if n > 0 {
      RunWhole(retention, worlds, moves, n - 1, id);
      E.TracedAt(retention, worlds, moves, n - 1, n, id);
      MoveIsDated(worlds[n - 1], moves[n - 1], id);
      WholeStep(SlotFor(worlds[n - 1], id), E.EffectOf(worlds[n - 1], moves[n - 1], id));
    }
  }

  /** In every run the item the forwarder holds gives a valid request with its own body: nothing the outbox took ever fails to be sent. */
  lemma HeldCanBeSent(retention: int, worlds: seq<World>, moves: seq<Move>, n: nat)
    requires IsRun(retention, worlds, moves) && n < |worlds| && !worlds[n].worker.Resting?
    ensures var item := worlds[n].worker.item;
      NewForwardRequest(item) == Some(ForwardRequest(item.id, item.key, item.digest, item.body, item.signature))
  {
    var item := worlds[n].worker.item;
    RunInv(retention, worlds, moves, n);
    RunWhole(retention, worlds, moves, n, item.id);
    RequestIff(item);
  }

  // ---------------------------------------------------------------- which reply settles an item

  /** The acknowledgement is durable, dated, names a queued item, and repeats the item's identity, key and digest. */
  predicate Answers(a: ForwardAck, item: OutboxItem) {
    && a.durable && a.queueId > 0 && a.committedAt != 0
    && a.itemId == item.id && a.receiptId == item.id && a.key == item.key && a.digest == item.digest
  }

  /** The configured delays, or one second to ten minutes in five steps. */
  function Delays(backoff: seq<int>): seq<int> {
    if backoff != [] then backoff else [1_000_000_000, 5_000_000_000, 30_000_000_000, 120_000_000_000, 600_000_000_000]
  }

  /**
   * A held item goes to history exactly on an acknowledgement that answers it; every other reply is a
   * rejection, recorded under the configured or the default delays.
   */
  lemma ReplySettles(s: OutboxSlot, item: OutboxItem, reply: Reply, now: int, ackNow: int, backoff: seq<int>, life: nat)
    requires Held(s, item) && Whole(item, Inflight) && now != 0 && ackNow != 0 && life >= 1
    ensures var t := Settle(s, item, reply, now, ackNow, backoff, life);
      if reply.Acked? && Answers(reply.ack, item)
      then
        && t.pending.None? && t.dead.None? && t.inflight == (if life == 1 then Some(item) else None)
        && t.history == Some(item.(state := History, updatedAt := ackNow, leaseUntil := 0, nextAttemptAt := 0, lastError := ""))
      else P.Recorded(item, now, Delays(backoff), life, t)
  {
    RequestIff(item);
    var delays := if |backoff| == 0 then DEFAULT_BACKOFF else backoff;
    assert delays == Delays(backoff);
    var cause := if reply.Error? then reply.cause else "invalid durable relay ACK";
    P.NackRecords(s, item, cause, now, delays, life);
  }

  /** The ingress acknowledges a request under its own identity, and that acknowledgement answers the item it was made from. */
  lemma HostAckAnswers(item: OutboxItem, a: R.IngressAck, committedAt: int)
    requires NewForwardRequest(item).Some?
    ensures var ack := NewForwardAck(NewForwardRequest(item).value, a, committedAt);
      && (ack.Some? <==> a.receiptId == item.id && a.queueId != 0 && committedAt != 0)
      && (ack.Some? ==> Answers(ack.value, item) && ack.value.queueId == a.queueId && ack.value.duplicate == a.duplicate)
  {
    RequestIff(item);
  }
}
