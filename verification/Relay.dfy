/**
 * Forward requests and acknowledgements, the forwarder, and the whole relay: a remote
 * outbox drained over a network that loses, repeats and reorders, into the host ingress.
 */
module Relay {
  import opened Common
  import opened Protocol
  import opened Slots
  import opened Outboxes
  import R = Receipts
  import H = HostSafety
  import A = Admission
  import P = Reopening

  datatype ForwardRequest = ForwardRequest(
    itemId: ReceiptId, key: Key, digest: Digest, body: Body, signature: SignatureMetadata)

  datatype ForwardAck = ForwardAck(
    itemId: ReceiptId,
    key: Key,
    digest: Digest,
    receiptId: ReceiptId,
    queueId: nat,
    durable: bool,
    duplicate: bool,
    committedAt: int)

  predicate ValidRequest(r: ForwardRequest) {
    && Decode(r.body).Some?
    && var e := Decode(r.body).value;
       && e.key == r.key
       && r.digest == Digest(r.body)
       && ReceiptIdOf(e) == r.itemId
       && ValidSignature(r.signature, e)
  }

  function NewForwardRequest(item: OutboxItem): Option<ForwardRequest> {
    if ValidPersisted(item, Inflight)
    then
      var r := ForwardRequest(item.id, item.key, item.digest, item.body, item.signature);
      if ValidRequest(r) then Some(r) else None
    else None
  }

  predicate ValidShape(a: ForwardAck) {
    a.queueId != 0 && a.durable && a.committedAt != 0
  }

  /** Binds a durable host receipt to the exact request on the wire. */
  function NewForwardAck(r: ForwardRequest, a: R.IngressAck, committedAt: int): Option<ForwardAck> {
    if !ValidRequest(r) || a.receiptId != r.itemId || a.queueId == 0 || committedAt == 0 then None
    else Some(ForwardAck(r.itemId, r.key, r.digest, a.receiptId, a.queueId, true, a.duplicate, committedAt))
  }

  predicate AckMatches(a: ForwardAck, item: OutboxItem) {
    && item.state == Inflight
    && ValidShape(a)
    && a.itemId == item.id
    && a.receiptId == item.id
    && a.key == item.key
    && a.digest == item.digest
  }

  // ---------------------------------------------------------------- the forwarder

  const DEFAULT_BACKOFF := [SECOND, 5 * SECOND, 30 * SECOND, 120 * SECOND, 600 * SECOND]

  /** What the transport answered: an acknowledgement, or an error by its text. */
  datatype Reply = Acked(ack: ForwardAck) | Error(cause: string)

  /** The fate of a claimed item, decided by the transport's reply. */
  function Settle(s: OutboxSlot, item: OutboxItem, reply: Reply, now: int, ackNow: int, backoff: seq<int>, life: nat): OutboxSlot {
    var delays := if |backoff| == 0 then DEFAULT_BACKOFF else backoff;
    match NewForwardRequest(item)
    case None => NackOp(s, item, "invalid relay forward request", now, delays, life)
    case Some(_) =>
      match reply
      case Error(cause) => NackOp(s, item, cause, now, delays, life)
      case Acked(ack) =>
        if AckMatches(ack, item)
        then AckOp(s, item, ackNow, life)
        else NackOp(s, item, "invalid durable relay ACK", now, delays, life)
  }

  datatype Forwarded = Idle | Worked | Broken

  class Forwarder {
    const outbox: Outbox
    const lease: int
    const backoff: seq<int>

    constructor (o: Outbox, l: int, b: seq<int>)
      ensures outbox == o && lease == l && backoff == b
    {
      outbox, lease, backoff := o, l, b;
    }

    /** Acknowledges or rejects a claimed item by the transport's reply. */
    method SettleClaim(item: OutboxItem, reply: Reply, now: int, ackNow: int, life: nat) returns (ok: bool)
      requires outbox.Valid()
      modifies outbox
      ensures outbox.Valid()
      ensures outbox.SlotOf(item.id) == Settle(old(outbox.SlotOf(item.id)), item, reply, now, ackNow, backoff, life)
      ensures OnlyChanges(old(outbox.Files()), outbox.Files(), item.id)
      ensures ok ==> life >= 2
    {
      var delays := if |backoff| == 0 then DEFAULT_BACKOFF else backoff;
      var request := NewForwardRequest(item);
      var cause := "invalid relay forward request";
      if request.Some? {
        if reply.Acked? && AckMatches(reply.ack, item) {
          var done := outbox.Ack(item, ackNow, life);
          return done.Done?;
        }
        cause := if reply.Error? then reply.cause else "invalid durable relay ACK";
      }
      var rejected := outbox.Nack(item, cause, now, delays, life);
      return rejected.Done?;
    }

    /**
     * Claim, send, and settle. A claimed item was the oldest ready one and its slot alone
     * is settled with the operations the claim left; any other slot is as a claim left it.
     */
    method ForwardOne(reply: Reply, now: int, ackNow: int, life: nat) returns (f: Forwarded, claimed: Option<OutboxItem>, left: nat)
      requires outbox.Valid() && lease >= 0
      modifies outbox
      ensures outbox.Valid()
      ensures claimed.None? ==>
        && ClaimEffect(old(outbox.pending), old(outbox.inflight), outbox.pending, outbox.inflight, now, lease)
        && outbox.history == old(outbox.history) && outbox.dead == old(outbox.dead)
      ensures f == Idle ==> claimed.None? && forall id :: id in outbox.pending ==> !Ready(outbox.pending[id], now)
      ensures claimed.Some? ==>
        var item := claimed.value;
        && item.id in old(outbox.pending) && Ready(old(outbox.pending)[item.id], now)
        && item == ClaimedItem(old(outbox.pending)[item.id], now, lease)
        && outbox.SlotOf(item.id) ==
           Settle(ClaimOp(old(outbox.SlotOf(item.id)), now, lease, 2), item, reply, now, ackNow, backoff, left)
        && left + 2 <= life
        && OthersClaimed(old(outbox.Files()), outbox.Files(), item.id, now, lease)
    {
      var r;
      r, left := outbox.Claim(now, lease, life);
      if !r.Done? {
        return Broken, None, left;
      }
      if r.value.None? {
        return Idle, None, left;
      }
      var item := r.value.value;
      assert outbox.SlotOf(item.id) == ClaimOp(old(outbox.SlotOf(item.id)), now, lease, 2);
      ghost var claimedFiles := outbox.Files();
      var ok := SettleClaim(item, reply, now, ackNow, left);
      ClaimedOthers(old(outbox.Files()), claimedFiles, outbox.Files(), item.id, now, lease);
      return if ok then Worked else Broken, Some(item), left;
    }
  }

  /** The slot is as a claim cut off somewhere left it. */
  ghost predicate AsClaimed(s: OutboxSlot, t: OutboxSlot, now: int, lease: int) {
    exists life: nat :: t == ClaimOp(s, now, lease, life)
  }

  ghost predicate OthersClaimed(f: Directories, g: Directories, id: ReceiptId, now: int, lease: int) {
    forall other :: other != id ==> AsClaimed(SlotAt(f, other), SlotAt(g, other), now, lease)
  }

  lemma ClaimedOthers(f: Directories, g: Directories, h: Directories, id: ReceiptId, now: int, lease: int)
    requires ClaimEffect(f.pending, f.inflight, g.pending, g.inflight, now, lease) && f.history == g.history && f.dead == g.dead
    requires OnlyChanges(g, h, id)
    ensures OthersClaimed(f, h, id, now, lease)
  {
    forall other | other != id ensures AsClaimed(SlotAt(f, other), SlotAt(h, other), now, lease) {
      ClaimIsPerSlot(f.pending, f.inflight, g.pending, g.inflight, Get(f.history, other), Get(f.dead, other), now, lease, other);
      var before, after := SlotAt(f, other), SlotAt(g, other);
      var life: nat :| after == ClaimOp(before, now, lease, life);
    }
  }

  // ---------------------------------------------------------------- the whole relay

  datatype Worker = Resting | Holding(item: OutboxItem) | Waiting(item: OutboxItem)

  /** `requests` and `acks` hold everything ever put on the wire; either may arrive late, twice or never. */
  datatype World = World(
    outbox: map<ReceiptId, OutboxSlot>,
    worker: Worker,
    requests: set<ForwardRequest>,
    acks: set<ForwardAck>,
    host: R.Host)

  datatype Move =
    | Produce(body: Body, signature: SignatureMetadata, now: int)
    | Claim(id: ReceiptId, now: int, lease: int, life: nat)
    | Send
    | Receive(ack: ForwardAck, now: int, life: nat)
    | GiveUp(cause: string, now: int, backoff: seq<int>, life: nat)
    | Recover(id: ReceiptId, now: int, life: nat)
    | CrashSender
    | HostMove(step: R.Label)
    | IssueAck(h: nat, request: ForwardRequest, committedAt: int)

  const NO_FILES: OutboxSlot := Slot(None, None, None, None)

  function SlotFor(w: World, id: ReceiptId): OutboxSlot {
    if id in w.outbox then w.outbox[id] else NO_FILES
  }

  ghost predicate CanMove(w: World, m: Move) {
    match m
    case Produce(body, signature, now) => Acceptable(body, signature).Some? && now != 0
    case Claim(id, now, lease, life) => w.worker.Resting? && id in w.outbox && now != 0
    case Send => w.worker.Holding? && NewForwardRequest(w.worker.item).Some?
    case Receive(ack, now, life) => w.worker.Waiting? && ack in w.acks && AckMatches(ack, w.worker.item) && now != 0
    case GiveUp(_, now, _, _) => !w.worker.Resting? && now != 0
    case Recover(id, now, life) => w.worker.Resting? && id in w.outbox && now != 0
    case CrashSender => true
    case HostMove(step) => R.Enabled(w.host, step)
    case IssueAck(h, request, committedAt) =>
      && h in w.host.handlers && w.host.handlers[h].Accepted?
      && request in w.requests && request.body == w.host.handlers[h].call.body
      && NewForwardAck(request, w.host.handlers[h].ack, committedAt).Some?
  }

  /** Who holds the item after a claim that lived for `life` file operations. */
  function ClaimWorker(s: OutboxSlot, now: int, lease: int, life: nat): Worker {
    if life >= 2 && s.pending.Some? && Ready(s.pending.value, now) && s.inflight.None?
    then Holding(ClaimedItem(s.pending.value, now, lease))
    else Resting
  }

  ghost function MoveTo(retention: int, w: World, m: Move): World
    requires CanMove(w, m)
  {
    match m
    case Produce(body, signature, now) =>
      var e := Acceptable(body, signature).value;
      var id := ReceiptIdOf(e);
      w.(outbox := w.outbox[id := EnqueueOp(SlotFor(w, id), NewItem(e, body, signature, now))])
    case Claim(id, now, lease, life) =>
      w.(outbox := w.outbox[id := ClaimOp(w.outbox[id], now, lease, life)],
         worker := ClaimWorker(w.outbox[id], now, lease, life))
    case Send =>
      w.(requests := w.requests + {NewForwardRequest(w.worker.item).value}, worker := Waiting(w.worker.item))
    case Receive(ack, now, life) =>
      var id := w.worker.item.id;
      w.(outbox := w.outbox[id := AckOp(SlotFor(w, id), w.worker.item, now, life)], worker := Resting)
    case GiveUp(cause, now, backoff, life) =>
      var id := w.worker.item.id;
      w.(outbox := w.outbox[id := NackOp(SlotFor(w, id), w.worker.item, cause, now, backoff, life)], worker := Resting)
    case Recover(id, now, life) =>
      w.(outbox := w.outbox[id := RecoverOp(w.outbox[id], now, life)])
    case CrashSender => w.(worker := Resting)
    case HostMove(step) => w.(host := R.After(retention, w.host, step))
    case IssueAck(h, request, committedAt) =>
      w.(acks := w.acks + {NewForwardAck(request, w.host.handlers[h].ack, committedAt).value})
  }

  ghost predicate Start(w: World) {
    w.outbox == map[] && w.worker == Resting && w.requests == {} && w.acks == {} && R.Init(w.host)
  }

  ghost predicate IsRun(retention: int, worlds: seq<World>, moves: seq<Move>) {
    && |worlds| == |moves| + 1
    && Start(worlds[0])
    && forall i :: 0 <= i < |moves| ==>
         CanMove(worlds[i], moves[i]) && worlds[i + 1] == MoveTo(retention, worlds[i], moves[i])
  }

  // ---------------------------------------------------------------- invariant

  /** A committed receipt with this id and body digest exists and names a durably enqueued item of that body. */
  ghost predicate Delivered(host: R.Host, id: ReceiptId, digest: Digest) {
    && id in host.disk.committed
    && host.disk.committed[id].digest == digest
    && R.NamesItem(host.disk.queue.ever, host.disk.committed[id].queueId, digest.body)
  }

  ghost predicate SlotsInv(outbox: map<ReceiptId, OutboxSlot>) {
    forall id :: id in outbox ==> Copies(outbox[id]) > 0 && exists body :: SlotOk(outbox[id], id, body)
  }

  ghost predicate HistoryInv(outbox: map<ReceiptId, OutboxSlot>, host: R.Host) {
    forall id :: id in outbox && outbox[id].history.Some? ==> Delivered(host, id, outbox[id].history.value.digest)
  }

  ghost predicate WorkerInv(outbox: map<ReceiptId, OutboxSlot>, worker: Worker) {
    !worker.Resting? ==> worker.item.id in outbox && Held(outbox[worker.item.id], worker.item)
  }

  ghost predicate AcksInv(acks: set<ForwardAck>, host: R.Host) {
    forall a :: a in acks ==> Delivered(host, a.receiptId, a.digest)
  }

  ghost predicate Inv(w: World) {
    && SlotsInv(w.outbox)
    && HistoryInv(w.outbox, w.host)
    && WorkerInv(w.outbox, w.worker)
    && AcksInv(w.acks, w.host)
    && R.Inv(w.host)
  }

  // ---------------------------------------------------------------- preservation

  lemma DeliveredExtends(a: R.Host, b: R.Host, id: ReceiptId, digest: Digest)
    requires Delivered(a, id, digest) && R.Extends(a, b)
    ensures Delivered(b, id, digest)
  {
  }

  lemma HostMoveInv(retention: int, w: World, step: R.Label)
    requires Inv(w) && R.Enabled(w.host, step)
    ensures Inv(w.(host := R.After(retention, w.host, step)))
  {
    var host := R.After(retention, w.host, step);
    R.InvStep(retention, w.host, step);
    R.StepExtends(retention, w.host, step);
    forall id | id in w.outbox && w.outbox[id].history.Some?
      ensures Delivered(host, id, w.outbox[id].history.value.digest)
    {
      DeliveredExtends(w.host, host, id, w.outbox[id].history.value.digest);
    }
    forall a | a in w.acks ensures Delivered(host, a.receiptId, a.digest) {
      DeliveredExtends(w.host, host, a.receiptId, a.digest);
    }
  }

  /** An acknowledged handler's body is delivered. */
  lemma AcceptedIsDelivered(host: R.Host, h: nat)
    requires R.Inv(host) && h in host.handlers && host.handlers[h].Accepted?
    ensures Delivered(host, host.handlers[h].ack.receiptId, Digest(host.handlers[h].call.body))
  {
    var own := host.handlers[h];
    assert R.HandlerOk(host.first, host.disk.committed, host.disk.queue.ever, own);
    var id := own.ack.receiptId;
    assert R.CommittedSound(host.first, host.disk.queue.ever, id, host.disk.committed[id]);
  }

  lemma IssueAckInv(w: World, h: nat, request: ForwardRequest, committedAt: int)
    requires Inv(w) && CanMove(w, IssueAck(h, request, committedAt))
    ensures AcksInv(w.acks + {NewForwardAck(request, w.host.handlers[h].ack, committedAt).value}, w.host)
  {
    AcceptedIsDelivered(w.host, h);
    var ack := NewForwardAck(request, w.host.handlers[h].ack, committedAt).value;
    assert ack.digest == Digest(request.body) && ack.receiptId == w.host.handlers[h].ack.receiptId;
  }

  /** Replacing one slot by a good one with no new history, or with a delivered one, keeps the outbox good. */
  lemma SlotUpdate(w: World, id: ReceiptId, t: OutboxSlot, body: Body)
    requires Inv(w) && SlotOk(t, id, body) && Copies(t) > 0
    requires t.history.Some? ==> t.history == SlotFor(w, id).history || Delivered(w.host, id, t.history.value.digest)
    ensures SlotsInv(w.outbox[id := t]) && HistoryInv(w.outbox[id := t], w.host)
  {
  }

  lemma ProduceInv(w: World, body: Body, signature: SignatureMetadata, now: int)
    requires Inv(w) && Acceptable(body, signature).Some?
    ensures var e := Acceptable(body, signature).value;
      var id := ReceiptIdOf(e);
      var outbox := w.outbox[id := EnqueueOp(SlotFor(w, id), NewItem(e, body, signature, now))];
      SlotsInv(outbox) && HistoryInv(outbox, w.host) && WorkerInv(outbox, w.worker)
  {
    var e := Acceptable(body, signature).value;
    var id := ReceiptIdOf(e);
    EnqueueKeepsSlot(SlotFor(w, id), id, e, body, signature, now);
    if id !in w.outbox {
      SlotUpdate(w, id, EnqueueOp(NO_FILES, NewItem(e, body, signature, now)), body);
    } else {
      assert w.outbox[id := w.outbox[id]] == w.outbox;
    }
  }

  lemma ClaimInv(w: World, id: ReceiptId, now: int, lease: int, life: nat)
    requires Inv(w) && w.worker.Resting? && id in w.outbox
    ensures var outbox := w.outbox[id := ClaimOp(w.outbox[id], now, lease, life)];
      && SlotsInv(outbox) && HistoryInv(outbox, w.host)
      && WorkerInv(outbox, ClaimWorker(w.outbox[id], now, lease, life))
  {
    var s := w.outbox[id];
    var body :| SlotOk(s, id, body);
    ClaimKeepsSlot(s, id, body, now, lease, life);
    SlotUpdate(w, id, ClaimOp(s, now, lease, life), body);
  }

  lemma RecoverInv(w: World, id: ReceiptId, now: int, life: nat)
    requires Inv(w) && w.worker.Resting? && id in w.outbox
    ensures var outbox := w.outbox[id := RecoverOp(w.outbox[id], now, life)];
      SlotsInv(outbox) && HistoryInv(outbox, w.host)
  {
    var s := w.outbox[id];
    var body :| SlotOk(s, id, body);
    RecoverKeepsSlot(s, id, body, now, life);
    SlotUpdate(w, id, RecoverOp(s, now, life), body);
  }

  lemma LeaveInv(w: World, next: OutboxItem, life: nat)
    requires Inv(w) && !w.worker.Resting?
    requires next.state != Inflight && next.id == w.worker.item.id && next.body == w.worker.item.body
    requires next.digest == w.worker.item.digest && next.key == w.worker.item.key
    requires next.state == History ==> Delivered(w.host, next.id, next.digest)
    ensures var outbox := w.outbox[next.id := LeaveInflight(w.outbox[next.id], next, life)];
      SlotsInv(outbox) && HistoryInv(outbox, w.host)
  {
    var s := w.outbox[next.id];
    var body :| SlotOk(s, next.id, body);
    LeaveKeepsSlot(s, next.id, body, w.worker.item, next, life);
    SlotUpdate(w, next.id, LeaveInflight(s, next, life), body);
  }

  lemma ReceiveInv(w: World, ack: ForwardAck, now: int, life: nat)
    requires Inv(w) && CanMove(w, Receive(ack, now, life))
    ensures var outbox := w.outbox[w.worker.item.id := AckOp(SlotFor(w, w.worker.item.id), w.worker.item, now, life)];
      SlotsInv(outbox) && HistoryInv(outbox, w.host)
  {
    assert Delivered(w.host, ack.receiptId, ack.digest);
    LeaveInv(w, AckedItem(w.worker.item, now), life);
  }

  lemma MoveInv(retention: int, w: World, m: Move)
    requires Inv(w) && CanMove(w, m)
    ensures Inv(MoveTo(retention, w, m))
  {
    match m
    case Produce(body, signature, now) => ProduceInv(w, body, signature, now);
    case Claim(id, now, lease, life) => ClaimInv(w, id, now, lease, life);
    case Send =>
    case Receive(ack, now, life) => ReceiveInv(w, ack, now, life);
    case GiveUp(cause, now, backoff, life) =>
      LeaveInv(w, NackedItem(w.worker.item, cause, now, backoff), life);
    case Recover(id, now, life) => RecoverInv(w, id, now, life);
    case CrashSender =>
    case HostMove(step) => HostMoveInv(retention, w, step);
    case IssueAck(h, request, committedAt) => IssueAckInv(w, h, request, committedAt);
  }

  lemma {:induction false} RunInv(retention: int, worlds: seq<World>, moves: seq<Move>, n: nat)
    requires IsRun(retention, worlds, moves) && n < |worlds|
    ensures Inv(worlds[n])
  {
    if n > 0 {
      RunInv(retention, worlds, moves, n - 1);
      MoveInv(retention, worlds[n - 1], moves[n - 1]);
    }
  }

  function HostsOf(worlds: seq<World>): (hosts: seq<R.Host>)
    ensures |hosts| == |worlds| && forall i :: 0 <= i < |worlds| ==> hosts[i] == worlds[i].host
  {
    seq(|worlds|, i requires 0 <= i < |worlds| => worlds[i].host)
  }

  /** Every clean-up of the key happens when its delivery is closed on the host. */
  ghost predicate ForgottenClosed(worlds: seq<World>, moves: seq<Move>, n: nat, key: Key)
    requires n <= |moves| < |worlds| && key.Delivery?
  {
    forall k :: 0 <= k < n && moves[k] == HostMove(R.Forget(key)) ==> !H.Open(worlds[k].host, H.IdFor(key))
  }

  lemma GuardAt(retention: int, worlds: seq<World>, moves: seq<Move>, i: nat, key: Key)
    requires IsRun(retention, worlds, moves) && i < |moves| && key.Delivery?
    requires moves[i] == HostMove(R.Forget(key)) ==> !H.Open(worlds[i].host, H.IdFor(key))
    ensures H.KeepsGuard(worlds[i].host, worlds[i + 1].host, key)
  {
    RunInv(retention, worlds, moves, i);
    if H.Guarded(worlds[i].host, key) && moves[i].HostMove? {
      H.GuardedStep(retention, worlds[i].host, moves[i].step, key);
    }
  }

  /** A delivery key gets one item at most on the host, unless a clean-up removes it while its delivery is open. */
  lemma OneItemUnlessForgottenOpen(retention: int, worlds: seq<World>, moves: seq<Move>, n: nat, key: Key)
    requires IsRun(retention, worlds, moves) && n < |worlds| && key.Delivery? && ForgottenClosed(worlds, moves, n, key)
    ensures H.AtMostOneItem(worlds[n].host.disk.queue.ever, key)
  {
    var hosts := HostsOf(worlds);
    forall i | 0 <= i < n ensures H.KeepsGuard(hosts[i], hosts[i + 1], key) {
      GuardAt(retention, worlds, moves, i, key);
    }
    H.GuardChain(hosts, n, key);
  }

  /**
   * End-to-end safety. In every run of sender and host, with crashes between any two
   * file writes on either side, lost and repeated messages and resends: an item is in
   * the outbox history only if a committed receipt with its id and body digest exists
   * and names a durably enqueued item of exactly that body; no item the outbox took is
   * ever missing from all its directories; and the host queue gets one item at most for
   * a delivery key, unless a clean-up removed it while its delivery was open.
   */
  lemma EndToEndSafety(retention: int, worlds: seq<World>, moves: seq<Move>, n: nat)
    requires IsRun(retention, worlds, moves) && n < |worlds|
    ensures forall id :: id in worlds[n].outbox && worlds[n].outbox[id].history.Some? ==>
      Delivered(worlds[n].host, id, worlds[n].outbox[id].history.value.digest)
    ensures forall id :: id in worlds[n].outbox ==> Copies(worlds[n].outbox[id]) > 0 && OneSettled(worlds[n].outbox[id])
    ensures forall key: Key :: key.Delivery? && ForgottenClosed(worlds, moves, n, key) ==>
      H.AtMostOneItem(worlds[n].host.disk.queue.ever, key)
  {
    RunInv(retention, worlds, moves, n);
    forall key: Key | key.Delivery? && ForgottenClosed(worlds, moves, n, key)
      ensures H.AtMostOneItem(worlds[n].host.disk.queue.ever, key)
    {
      OneItemUnlessForgottenOpen(retention, worlds, moves, n, key);
    }
  }

  lemma AcknowledgedShape(w: World, id: ReceiptId)
    requires Inv(w) && id in w.outbox && w.outbox[id].history.Some?
    ensures !w.worker.Resting? ==> w.worker.item.id != id
    ensures w.outbox[id].pending.None? && w.outbox[id].dead.None?
  {
    var body :| SlotOk(w.outbox[id], id, body);
  }

  lemma HistoryStep(retention: int, w: World, m: Move, id: ReceiptId)
    requires CanMove(w, m) && id in w.outbox && w.outbox[id].history.Some?
    requires !w.worker.Resting? ==> w.worker.item.id != id
    requires w.outbox[id].pending.None?
    ensures var t := MoveTo(retention, w, m); id in t.outbox && t.outbox[id].history == w.outbox[id].history
  {
  }

  lemma HistoryAt(retention: int, worlds: seq<World>, moves: seq<Move>, n: nat, id: ReceiptId)
    requires IsRun(retention, worlds, moves) && n < |worlds|
    requires id in worlds[n].outbox && worlds[n].outbox[id].history.Some?
    ensures !worlds[n].worker.Resting? ==> worlds[n].worker.item.id != id
    ensures worlds[n].outbox[id].pending.None? && worlds[n].outbox[id].dead.None?
    ensures n < |moves| ==>
      id in worlds[n + 1].outbox && worlds[n + 1].outbox[id].history == worlds[n].outbox[id].history
  {
    RunInv(retention, worlds, moves, n);
    AcknowledgedShape(worlds[n], id);
    if n < |moves| {
      HistoryStep(retention, worlds[n], moves[n], id);
    }
  }

  /** History is final: an acknowledged item is never reopened, resent or given up. */
  lemma {:induction false} HistoryIsFinal(retention: int, worlds: seq<World>, moves: seq<Move>, m: nat, n: nat, id: ReceiptId)
    requires IsRun(retention, worlds, moves) && m <= n < |worlds|
    requires id in worlds[m].outbox && worlds[m].outbox[id].history.Some?
    ensures id in worlds[n].outbox && worlds[n].outbox[id].history == worlds[m].outbox[id].history
    ensures !worlds[n].worker.Resting? ==> worlds[n].worker.item.id != id
    ensures worlds[n].outbox[id].pending.None? && worlds[n].outbox[id].dead.None?
  {
    if m < n {
      HistoryIsFinal(retention, worlds, moves, m, n - 1, id);
      HistoryAt(retention, worlds, moves, n - 1, id);
    }
    HistoryAt(retention, worlds, moves, n, id);
  }

  /** After a complete recovery pass an item lies in exactly one directory. */
  lemma RecoverySettles(retention: int, worlds: seq<World>, moves: seq<Move>, n: nat, id: ReceiptId, now: int)
    requires IsRun(retention, worlds, moves) && n < |worlds| && id in worlds[n].outbox
    ensures Copies(RecoverOp(worlds[n].outbox[id], now, 2)) == 1
  {
    RunInv(retention, worlds, moves, n);
    var body :| SlotOk(worlds[n].outbox[id], id, body);
    RecoverKeepsSlot(worlds[n].outbox[id], id, body, now, 2);
  }

  // ---------------------------------------------------------------- the host behind its admission checks

  /** One move of the ingress, or none. */
  ghost predicate Advances(site: A.Site, pace: A.Pace, v: A.World, t: A.World) {
    t == v || exists l :: A.StepOk(site, pace, v, l) && t == A.After(site, v, l)
  }

  /** The host of the run is an ingress with known peers and a clock, move by move. */
  ghost predicate Hosted(site: A.Site, pace: A.Pace, worlds: seq<World>, vs: seq<A.World>) {
    && |vs| == |worlds| > 0 && A.Init(vs[0])
    && (forall i :: 0 <= i < |worlds| ==> vs[i].host == worlds[i].host)
    && forall i :: 0 <= i < |worlds| - 1 ==> Advances(site, pace, vs[i], vs[i + 1])
  }

  lemma {:induction false} HostedInv(site: A.Site, pace: A.Pace, worlds: seq<World>, vs: seq<A.World>, n: nat)
    requires Hosted(site, pace, worlds, vs) && n < |vs|
    ensures A.Inv(site, vs[n])
  {
    if n > 0 {
      HostedInv(site, pace, worlds, vs, n - 1);
      assert Advances(site, pace, vs[n - 1], vs[n]);
      if vs[n] != vs[n - 1] {
        var l :| A.StepOk(site, pace, vs[n - 1], l) && vs[n] == A.After(site, vs[n - 1], l);
        A.InvStep(site, vs[n - 1], l);
      }
    }
  }

  lemma SpentAdvance(site: A.Site, pace: A.Pace, v: A.World, t: A.World, id: ReceiptId)
    requires A.Inv(site, v) && Advances(site, pace, v, t) && P.Spent(site, pace, v, id)
    ensures P.Spent(site, pace, t, id)
  {
    if t != v {
      var l :| A.StepOk(site, pace, v, l) && t == A.After(site, v, l);
      P.SpentStep(site, pace, v, l, id);
    }
  }

  ghost predicate KeepsSpent(site: A.Site, pace: A.Pace, v: A.World, t: A.World, id: ReceiptId) {
    P.Spent(site, pace, v, id) ==> P.Spent(site, pace, t, id)
  }

  lemma SpentAt(site: A.Site, pace: A.Pace, worlds: seq<World>, vs: seq<A.World>, i: nat, id: ReceiptId)
    requires Hosted(site, pace, worlds, vs) && i + 1 < |vs|
    ensures KeepsSpent(site, pace, vs[i], vs[i + 1], id)
  {
    HostedInv(site, pace, worlds, vs, i);
    assert Advances(site, pace, vs[i], vs[i + 1]);
    if P.Spent(site, pace, vs[i], id) {
      SpentAdvance(site, pace, vs[i], vs[i + 1], id);
    }
  }

  lemma {:induction false} SpentChain(site: A.Site, pace: A.Pace, vs: seq<A.World>, m: nat, n: nat, id: ReceiptId)
    requires m <= n < |vs| && forall i :: m <= i < n ==> KeepsSpent(site, pace, vs[i], vs[i + 1], id)
    ensures KeepsSpent(site, pace, vs[m], vs[n], id)
    decreases n - m
  {
    if m < n {
      SpentChain(site, pace, vs, m, n - 1, id);
      assert KeepsSpent(site, pace, vs[n - 1], vs[n], id);
    }
  }

  lemma StaysSpent(site: A.Site, pace: A.Pace, worlds: seq<World>, vs: seq<A.World>, m: nat, n: nat, id: ReceiptId)
    requires Hosted(site, pace, worlds, vs) && m <= n < |vs|
    ensures KeepsSpent(site, pace, vs[m], vs[n], id)
  {
    forall i | m <= i < n ensures KeepsSpent(site, pace, vs[i], vs[i + 1], id) {
      SpentAt(site, pace, worlds, vs, i, id);
    }
    SpentChain(site, pace, vs, m, n, id);
  }

  /** Once the host can no longer publish a delivery, its item never reaches the history of the outbox, however often it is resent. */
  lemma NeverAcknowledged(
    retention: int, site: A.Site, pace: A.Pace, worlds: seq<World>, moves: seq<Move>, vs: seq<A.World>, m: nat, n: nat, id: ReceiptId)
    requires IsRun(retention, worlds, moves) && Hosted(site, pace, worlds, vs) && m <= n < |worlds| && P.Spent(site, pace, vs[m], id)
    ensures id in worlds[n].outbox ==> worlds[n].outbox[id].history.None?
  {
    StaysSpent(site, pace, worlds, vs, m, n, id);
    EndToEndSafety(retention, worlds, moves, n);
  }

  /** In every world of sender and host, a clean-up lets the host queue a second item exactly when the delivery reopens. */
  lemma SecondItemIff(
    site: A.Site, pace: A.Pace, worlds: seq<World>, vs: seq<A.World>, n: nat, key: Key)
    requires Hosted(site, A.Free, worlds, vs) && n < |vs| && key.Delivery? && key in worlds[n].host.disk.queue.live
    ensures H.IdFor(key) in worlds[n].host.first
    ensures P.CanGain(site, pace, A.After(site, vs[n], A.Forget(key)), worlds[n].host.disk.queue.ever, key) <==> P.Reopens(site, pace, vs[n], H.IdFor(key))
  {
    HostedInv(site, A.Free, worlds, vs, n);
    P.LiveIsFirst(vs[n], key);
    P.SecondItemAt(site, pace, vs[n], key);
  }
}
