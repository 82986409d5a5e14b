/**
 * Host ingress: nonce reservation, receipt commit and durable enqueue, one file
 * operation at a time.
 *
 * A `Handler` is one call of `Ingress.Accept` stopped before its next file
 * operation. Handlers interleave freely: nothing here relies on the per-receipt
 * lock, so every run of the locked code is a run of this machine, and so is a run
 * in which a lock was judged stale and broken.
 */
module Receipts {
  import opened Common
  import opened Protocol

  datatype ReceiptState = Pending | Committed

  /** `durable` is the in-memory mark that the receipt was seen in the committed directory. */
  datatype Receipt = Receipt(
    id: ReceiptId,
    key: Key,
    digest: Digest,
    state: ReceiptState,
    queueId: nat,
    createdAt: int,
    committedAt: int,
    durable: bool)

  datatype NoncePath = NoncePath(peer: string, nonce: string)

  /** `expiresAt` is 0 in a partial record, whose file time then decides its expiry. */
  datatype NonceRecord = NonceRecord(expiresAt: int, modTime: int)

  /** A queued notification. Queue ids start at 1; 0 is the empty id. */
  datatype Item = Item(id: nat, event: Event)

  /**
   * The local queue as its producers see it. `ever` and `forgotten` are history
   * variables: every item enqueued so far, and every key whose item was cleaned up.
   */
  datatype LocalQueue = LocalQueue(live: map<Key, Item>, ever: set<Item>, forgotten: set<Key>)

  datatype Disk = Disk(
    nonces: map<NoncePath, NonceRecord>,
    pending: map<ReceiptId, Receipt>,
    committed: map<ReceiptId, Receipt>,
    queue: LocalQueue)

  /** An authenticated request: the peer, its exact body, and the time read on arrival. */
  datatype Call = Call(peer: string, body: Body, now: int)

  datatype IngressAck = IngressAck(receiptId: ReceiptId, queueId: nat, duplicate: bool)

  datatype Refusal = Conflict | Replay | PendingExists | NotMetadataOnly | NotDurable

  datatype Handler =
    | Lookup(call: Call)
    | ReserveNonce(call: Call)
    | CheckNonce(call: Call)
    | DropNonce(call: Call)
    | LookupAgain(call: Call)
    | ReadCommitted(call: Call)
    | ReadPending(call: Call)
    | WritePending(call: Call)
    | Enqueue(call: Call, receipt: Receipt, duplicate: bool)
    | Publish(call: Call, receipt: Receipt, duplicate: bool)
    | Reread(call: Call, duplicate: bool)
    | Unlink(call: Call, receipt: Receipt, duplicate: bool)
    | Accepted(call: Call, ack: IngressAck)
    | Refused(call: Call, why: Refusal)

  /** The part of a successful decode the machine relies on: the key was derived from team and origin. */
  predicate Carries(b: Body) {
    && b.parsed.Some?
    && b.parsed.value.key.Delivery?
    && b.parsed.value.key.team == b.parsed.value.team
    && b.parsed.value.key.origin == b.parsed.value.origin
  }

  lemma DecodedCarries(b: Body)
    requires Decode(b).Some?
    ensures Carries(b) && b.parsed == Decode(b)
  {
  }

  function EnvelopeOf(call: Call): Envelope
    requires call.body.parsed.Some?
  {
    call.body.parsed.value
  }

  function IdOf(call: Call): ReceiptId
    requires call.body.parsed.Some?
  {
    ReceiptIdOf(EnvelopeOf(call))
  }

  predicate AckEligible(r: Receipt) {
    r.state == Committed && r.queueId != 0 && r.committedAt != 0 && r.durable
  }

  function ToAck(call: Call, r: Receipt, duplicate: bool): Handler {
    if AckEligible(r)
    then Accepted(call, IngressAck(r.id, r.queueId, duplicate))
    else Refused(call, NotDurable)
  }

  function Expired(r: NonceRecord, retention: int, now: int): bool {
    if r.expiresAt != 0 then r.expiresAt <= now else r.modTime + retention <= now
  }

  predicate Fresh(q: LocalQueue, id: nat) {
    id != 0 && forall i :: i in q.ever ==> i.id != id
  }

  /** Idempotent durable enqueue: the live item of the key, or a new one under `newId`. */
  function EnqueueEvent(q: LocalQueue, e: Event, newId: nat): (r: (LocalQueue, nat)) {
    if e.idempotencyKey in q.live
    then (q, q.live[e.idempotencyKey].id)
    else
      var item := Item(newId, e);
      (q.(live := q.live[e.idempotencyKey := item], ever := q.ever + {item}), newId)
  }

  /** A committed receipt answers a lookup only for the body that committed it. */
  function Answer(call: Call, r: Receipt): Handler {
    if r.digest != Digest(call.body)
    then Refused(call, Conflict)
    else ToAck(call, r.(durable := true), true)
  }

  function NewPending(call: Call): Receipt
    requires call.body.parsed.Some?
  {
    Receipt(IdOf(call), EnvelopeOf(call).key, Digest(call.body), Pending, 0, call.now, 0, false)
  }

  /** The next file operation of one handler. A finished handler stays as it is. */
  function Step(retention: int, d: Disk, h: Handler, newId: nat): (Disk, Handler)
    requires h.call.body.parsed.Some?
  {
    var c := h.call;
    var id := IdOf(c);
    var path := NoncePath(c.peer, EnvelopeOf(c).nonce);
    match h
    case Lookup(_) =>
      (d, if id in d.committed then Answer(c, d.committed[id]) else ReserveNonce(c))
    case ReserveNonce(_) =>
      if path in d.nonces
      then (d, CheckNonce(c))
      else (d.(nonces := d.nonces[path := NonceRecord(c.now + retention, c.now)]), ReadCommitted(c))
    case CheckNonce(_) =>
      if path in d.nonces && !Expired(d.nonces[path], retention, c.now)
      then (d, LookupAgain(c))
      else (d, DropNonce(c))
    case DropNonce(_) =>
      (d.(nonces := d.nonces - {path}), ReserveNonce(c))
    case LookupAgain(_) =>
      (d, if id in d.committed then Answer(c, d.committed[id]) else Refused(c, Replay))
    case ReadCommitted(_) =>
      if !EnvelopeOf(c).event.metadataOnly then (d, Refused(c, NotMetadataOnly))
      else (d, if id in d.committed then Answer(c, d.committed[id]) else ReadPending(c))
    case ReadPending(_) =>
      if id !in d.pending then (d, WritePending(c))
      else if d.pending[id].digest != Digest(c.body) then (d, Refused(c, Conflict))
      else (d, Enqueue(c, d.pending[id], true))
    case WritePending(_) =>
      if id in d.pending then (d, Refused(c, PendingExists))
      else
        var r := NewPending(c);
        (d.(pending := d.pending[id := r]), Enqueue(c, r, false))
    case Enqueue(_, r, dup) =>
      var (q, queueId) := EnqueueEvent(d.queue, Notification(EnvelopeOf(c)), newId);
      (d.(queue := q), Publish(c, r.(state := Committed, queueId := queueId, committedAt := c.now), dup))
    case Publish(_, r, dup) =>
      if id in d.committed
      then (d, Reread(c, dup))
      else (d.(committed := d.committed[id := r]), Unlink(c, r.(durable := true), dup))
    case Reread(_, dup) =>
      if id !in d.committed then (d, Refused(c, NotDurable))
      else if d.committed[id].digest != Digest(c.body) then (d, Refused(c, Conflict))
      else (d, Unlink(c, d.committed[id].(durable := true), dup))
    case Unlink(_, r, dup) =>
      (d.(pending := d.pending - {id}), ToAck(c, r, dup))
    case Accepted(_, _) => (d, h)
    case Refused(_, _) => (d, h)
  }

  // ---------------------------------------------------------------- the host machine

  /** `first` is a history variable: the body whose pending receipt was written first. */
  datatype Host = Host(disk: Disk, handlers: map<nat, Handler>, first: map<ReceiptId, Body>)

  ghost predicate Init(s: Host) {
    s == Host(Disk(map[], map[], map[], LocalQueue(map[], {}, {})), map[], map[])
  }

  datatype Label =
    | Begin(h: nat, call: Call)
    | Run(h: nat, newId: nat)
    | Forget(key: Key)
    | PruneNonces(keep: set<NoncePath>)
    | Crash

  ghost predicate CanRun(s: Host, h: nat, newId: nat) {
    h in s.handlers && s.handlers[h].call.body.parsed.Some? && Fresh(s.disk.queue, newId)
  }

  ghost predicate Enabled(s: Host, l: Label) {
    match l
    case Begin(h, call) => h !in s.handlers && Decode(call.body).Some? && call.now != 0
    case Run(h, newId) => CanRun(s, h, newId)
    case Forget(key) => key in s.disk.queue.live
    case PruneNonces(keep) => true
    case Crash => true
  }

  function FirstAfter(s: Host, h: Handler): map<ReceiptId, Body>
    requires h.call.body.parsed.Some?
  {
    var id := IdOf(h.call);
    if h.WritePending? && id !in s.disk.pending && id !in s.first
    then s.first[id := h.call.body]
    else s.first
  }

  /** One handler makes its next file operation. */
  ghost function RunOne(retention: int, s: Host, h: nat, newId: nat): Host
    requires h in s.handlers && s.handlers[h].call.body.parsed.Some?
  {
    var (d, next) := Step(retention, s.disk, s.handlers[h], newId);
    Host(d, s.handlers[h := next], FirstAfter(s, s.handlers[h]))
  }

  ghost function After(retention: int, s: Host, l: Label): Host
    requires Enabled(s, l)
  {
    match l
    case Begin(h, call) => s.(handlers := s.handlers[h := Lookup(call)])
    case Run(h, newId) => RunOne(retention, s, h, newId)
    case Forget(key) =>
      var q := s.disk.queue;
      s.(disk := s.disk.(queue := q.(live := q.live - {key}, forgotten := q.forgotten + {key})))
    case PruneNonces(keep) =>
      s.(disk := s.disk.(nonces := map p | p in s.disk.nonces && p in keep :: s.disk.nonces[p]))
    case Crash => s.(handlers := map[])
  }

  /** A run of the host: any interleaving of handlers, crashes and clean-ups. */
  ghost predicate IsRun(retention: int, states: seq<Host>, labels: seq<Label>) {
    && |states| == |labels| + 1
    && Init(states[0])
    && forall i :: 0 <= i < |labels| ==>
         Enabled(states[i], labels[i]) && states[i + 1] == After(retention, states[i], labels[i])
  }

  // ---------------------------------------------------------------- invariant

  /** The item came from this body: it is the body's event under its delivery key. */
  ghost predicate FromBody(item: Item, b: Body) {
    b.parsed.Some? && item.event == Notification(b.parsed.value)
  }

  ghost predicate QueueInv(q: LocalQueue) {
    && (forall k :: k in q.live ==> q.live[k] in q.ever && q.live[k].event.idempotencyKey == k)
    && (forall i :: i in q.ever ==> i.id != 0)
    && (forall i, j :: i in q.ever && j in q.ever && i.id == j.id ==> i == j)
    && (forall i :: i in q.ever && i.event.idempotencyKey !in q.forgotten ==>
          i.event.idempotencyKey in q.live && q.live[i.event.idempotencyKey] == i)
  }

  ghost predicate FirstInv(first: map<ReceiptId, Body>, pending: map<ReceiptId, Receipt>, committed: map<ReceiptId, Receipt>) {
    && (forall id :: id in first ==> Carries(first[id]) && ReceiptIdOf(first[id].parsed.value) == id)
    && (forall id :: id in first && id !in committed ==> id in pending)
    && (forall id :: id in committed ==> id in first)
    && (forall id :: id in pending ==> pending[id].id == id && id in first)
    && (forall id :: id in pending && id !in committed ==> pending[id].digest == Digest(first[id]))
  }

  /** The item belongs to a known delivery, and to its first body unless a clean-up came between. */
  ghost predicate Accounted(
    first: map<ReceiptId, Body>, committed: map<ReceiptId, Receipt>, forgotten: set<Key>, i: Item, id: ReceiptId)
  {
    && id in first
    && id.key == i.event.idempotencyKey
    && (id !in committed || id.key !in forgotten ==> FromBody(i, first[id]))
  }

  ghost predicate OriginInv(first: map<ReceiptId, Body>, committed: map<ReceiptId, Receipt>, q: LocalQueue) {
    forall i :: i in q.ever ==> exists id :: Accounted(first, committed, q.forgotten, i, id)
  }

  ghost predicate NamesItem(ever: set<Item>, queueId: nat, b: Body) {
    exists i :: i in ever && i.id == queueId && FromBody(i, b)
  }

  /** A published receipt names the first body and a durably enqueued item of that body. */
  ghost predicate CommittedSound(first: map<ReceiptId, Body>, ever: set<Item>, id: ReceiptId, r: Receipt) {
    && r.id == id
    && id in first
    && r.digest == Digest(first[id])
    && r.state == Committed
    && r.committedAt != 0
    && NamesItem(ever, r.queueId, first[id])
  }

  ghost predicate CommittedInv(first: map<ReceiptId, Body>, committed: map<ReceiptId, Receipt>, ever: set<Item>) {
    forall id :: id in committed ==> CommittedSound(first, ever, id, committed[id])
  }

  ghost predicate HandlerOk(
    first: map<ReceiptId, Body>, committed: map<ReceiptId, Receipt>, ever: set<Item>, h: Handler)
  {
    && Carries(h.call.body) && h.call.now != 0
    && var id := IdOf(h.call);
       var own := Digest(h.call.body);
       match h
       case Enqueue(_, r, _) =>
         && r.id == id && r.digest == own && id in first
         && (id !in committed ==> first[id] == h.call.body)
       case Publish(_, r, _) =>
         && r.id == id && r.digest == own && id in first
         && r.state == Committed && r.committedAt != 0
         && (id !in committed ==> first[id] == h.call.body && NamesItem(ever, r.queueId, h.call.body))
       case Reread(_, _) => id in committed
       case Unlink(_, r, _) =>
         id in committed && r == committed[id].(durable := true) && r.digest == own
       case Accepted(_, ack) =>
         && id in committed
         && committed[id].digest == own
         && ack.receiptId == id
         && ack.queueId == committed[id].queueId
       case Refused(_, why) => why != NotDurable
       case _ => true
  }

  ghost predicate HandlersInv(s: Host) {
    forall h :: h in s.handlers ==> HandlerOk(s.first, s.disk.committed, s.disk.queue.ever, s.handlers[h])
  }

  ghost predicate Inv(s: Host) {
    && QueueInv(s.disk.queue)
    && FirstInv(s.first, s.disk.pending, s.disk.committed)
    && OriginInv(s.first, s.disk.committed, s.disk.queue)
    && CommittedInv(s.first, s.disk.committed, s.disk.queue.ever)
    && HandlersInv(s)
  }

  // ---------------------------------------------------------------- preservation

  /** What no step ever takes back: published receipts, first bodies and enqueued items. */
  ghost predicate Extends(s: Host, t: Host) {
    && (forall id :: id in s.disk.committed ==> id in t.disk.committed && t.disk.committed[id] == s.disk.committed[id])
    && (forall id :: id in s.first ==> id in t.first && t.first[id] == s.first[id])
    && s.disk.queue.ever <= t.disk.queue.ever
  }

  lemma HandlersExtend(s: Host, t: Host, moved: set<nat>)
    requires HandlersInv(s) && Extends(s, t)
    requires forall h :: h in t.handlers && h !in moved ==> h in s.handlers && t.handlers[h] == s.handlers[h]
    requires forall h :: h in t.handlers && h in moved ==>
      HandlerOk(t.first, t.disk.committed, t.disk.queue.ever, t.handlers[h])
    ensures HandlersInv(t)
  {
  }

  lemma CommittedExtends(s: Host, t: Host)
    requires CommittedInv(s.first, s.disk.committed, s.disk.queue.ever) && Extends(s, t)
    requires forall id :: id in t.disk.committed && id !in s.disk.committed ==>
      CommittedSound(t.first, t.disk.queue.ever, id, t.disk.committed[id])
    ensures CommittedInv(t.first, t.disk.committed, t.disk.queue.ever)
  {
  }

  lemma OriginExtends(s: Host, t: Host)
    requires OriginInv(s.first, s.disk.committed, s.disk.queue) && Extends(s, t)
    requires s.disk.queue.forgotten <= t.disk.queue.forgotten
    requires forall i :: i in t.disk.queue.ever && i !in s.disk.queue.ever ==>
      exists id :: Accounted(t.first, t.disk.committed, t.disk.queue.forgotten, i, id)
    ensures OriginInv(t.first, t.disk.committed, t.disk.queue)
  {
    forall i | i in t.disk.queue.ever
      ensures exists id :: Accounted(t.first, t.disk.committed, t.disk.queue.forgotten, i, id)
    {
      if i in s.disk.queue.ever {
        var id :| Accounted(s.first, s.disk.committed, s.disk.queue.forgotten, i, id);
        assert Accounted(t.first, t.disk.committed, t.disk.queue.forgotten, i, id);
      }
    }
  }

  /** Two known deliveries with one key are one delivery. */
  lemma KeyFixesId(first: map<ReceiptId, Body>, a: ReceiptId, b: ReceiptId)
    requires forall id :: id in first ==> Carries(first[id]) && ReceiptIdOf(first[id].parsed.value) == id
    requires a in first && b in first && a.key == b.key
    ensures a == b
  {
  }

  /** Which handler may write where. */
  lemma StepFrame(retention: int, d: Disk, h: Handler, newId: nat)
    requires h.call.body.parsed.Some?
    ensures var t := Step(retention, d, h, newId).0;
      && (!h.Enqueue? ==> t.queue == d.queue)
      && (!h.WritePending? && !h.Unlink? ==> t.pending == d.pending)
      && (!h.Publish? ==> t.committed == d.committed)
  {
  }

  lemma EnqueueKeepsQueue(q: LocalQueue, e: Event, newId: nat)
    requires QueueInv(q) && Fresh(q, newId)
    ensures QueueInv(EnqueueEvent(q, e, newId).0)
  {
  }

  lemma ForgetKeepsQueue(q: LocalQueue, key: Key)
    requires QueueInv(q)
    ensures QueueInv(q.(live := q.live - {key}, forgotten := q.forgotten + {key}))
  {
  }

  lemma QueueInvRun(retention: int, s: Host, h: nat, newId: nat)
    requires Inv(s) && CanRun(s, h, newId)
    ensures QueueInv(RunOne(retention, s, h, newId).disk.queue)
  {
    StepFrame(retention, s.disk, s.handlers[h], newId);
    if s.handlers[h].Enqueue? {
      EnqueueKeepsQueue(s.disk.queue, Notification(EnvelopeOf(s.handlers[h].call)), newId);
    }
  }

  /** A pending receipt written after the first one finds the delivery committed. */
  lemma WritePendingKeepsFirst(
    first: map<ReceiptId, Body>, pending: map<ReceiptId, Receipt>, committed: map<ReceiptId, Receipt>, c: Call)
    requires FirstInv(first, pending, committed) && Carries(c.body) && IdOf(c) !in pending
    ensures FirstInv(
      if IdOf(c) in first then first else first[IdOf(c) := c.body],
      pending[IdOf(c) := NewPending(c)],
      committed)
  {
  }

  lemma UnlinkKeepsFirst(
    first: map<ReceiptId, Body>, pending: map<ReceiptId, Receipt>, committed: map<ReceiptId, Receipt>, id: ReceiptId)
    requires FirstInv(first, pending, committed) && id in committed
    ensures FirstInv(first, pending - {id}, committed)
  {
  }

  lemma PublishKeepsFirst(
    first: map<ReceiptId, Body>, pending: map<ReceiptId, Receipt>, committed: map<ReceiptId, Receipt>, r: Receipt)
    requires FirstInv(first, pending, committed) && r.id in first
    ensures FirstInv(first, pending, committed[r.id := r])
  {
  }

  lemma FirstInvRun(retention: int, s: Host, h: nat, newId: nat)
    requires Inv(s) && CanRun(s, h, newId)
    ensures var t := RunOne(retention, s, h, newId); FirstInv(t.first, t.disk.pending, t.disk.committed)
  {
    var own := s.handlers[h];
    StepFrame(retention, s.disk, own, newId);
    assert HandlerOk(s.first, s.disk.committed, s.disk.queue.ever, own);
    if own.WritePending? && IdOf(own.call) !in s.disk.pending {
      WritePendingKeepsFirst(s.first, s.disk.pending, s.disk.committed, own.call);
    } else if own.Unlink? {
      UnlinkKeepsFirst(s.first, s.disk.pending, s.disk.committed, IdOf(own.call));
    } else if own.Publish? {
      PublishKeepsFirst(s.first, s.disk.pending, s.disk.committed, own.receipt);
    }
  }

  lemma RunExtends(retention: int, s: Host, h: nat, newId: nat)
    requires CanRun(s, h, newId)
    ensures Extends(s, RunOne(retention, s, h, newId))
    ensures RunOne(retention, s, h, newId).disk.queue.forgotten == s.disk.queue.forgotten
  {
    StepFrame(retention, s.disk, s.handlers[h], newId);
  }

  lemma CommittedRun(retention: int, s: Host, h: nat, newId: nat)
    requires Inv(s) && CanRun(s, h, newId)
    ensures var t := RunOne(retention, s, h, newId); CommittedInv(t.first, t.disk.committed, t.disk.queue.ever)
  {
    RunExtends(retention, s, h, newId);
    StepFrame(retention, s.disk, s.handlers[h], newId);
    assert HandlerOk(s.first, s.disk.committed, s.disk.queue.ever, s.handlers[h]);
    CommittedExtends(s, RunOne(retention, s, h, newId));
  }

  /** The item an enqueue answers with belongs to the handler's delivery, and to its body unless it is committed. */
  lemma EnqueuedItem(s: Host, c: Call, newId: nat) returns (item: Item)
    requires Inv(s) && Carries(c.body) && IdOf(c) in s.first
    requires IdOf(c) !in s.disk.committed ==> s.first[IdOf(c)] == c.body
    ensures var (q, queueId) := EnqueueEvent(s.disk.queue, Notification(EnvelopeOf(c)), newId);
      && item in q.ever && item.id == queueId && q.ever <= s.disk.queue.ever + {item}
      && Accounted(s.first, s.disk.committed, s.disk.queue.forgotten, item, IdOf(c))
  {
    var key := EnvelopeOf(c).key;
    if key in s.disk.queue.live {
      item := s.disk.queue.live[key];
      var other :| Accounted(s.first, s.disk.committed, s.disk.queue.forgotten, item, other);
      KeyFixesId(s.first, IdOf(c), other);
    } else {
      item := Item(newId, Notification(EnvelopeOf(c)));
      if IdOf(c) in s.disk.committed {
        assert CommittedSound(s.first, s.disk.queue.ever, IdOf(c), s.disk.committed[IdOf(c)]);
      }
    }
  }

  lemma OriginRun(retention: int, s: Host, h: nat, newId: nat)
    requires Inv(s) && CanRun(s, h, newId)
    ensures var t := RunOne(retention, s, h, newId); OriginInv(t.first, t.disk.committed, t.disk.queue)
  {
    RunExtends(retention, s, h, newId);
    StepFrame(retention, s.disk, s.handlers[h], newId);
    assert HandlerOk(s.first, s.disk.committed, s.disk.queue.ever, s.handlers[h]);
    if s.handlers[h].Enqueue? {
      var item := EnqueuedItem(s, s.handlers[h].call, newId);
    }
    OriginExtends(s, RunOne(retention, s, h, newId));
  }

  lemma AnswerOk(s: Host, c: Call)
    requires Inv(s) && Carries(c.body) && c.now != 0 && IdOf(c) in s.disk.committed
    ensures HandlerOk(s.first, s.disk.committed, s.disk.queue.ever, Answer(c, s.disk.committed[IdOf(c)]))
    ensures AckEligible(s.disk.committed[IdOf(c)].(durable := true))
  {
    assert CommittedSound(s.first, s.disk.queue.ever, IdOf(c), s.disk.committed[IdOf(c)]);
  }

  lemma EnqueueHandlerRun(retention: int, s: Host, h: nat, newId: nat)
    requires Inv(s) && CanRun(s, h, newId) && s.handlers[h].Enqueue?
    ensures var t := RunOne(retention, s, h, newId);
      HandlerOk(t.first, t.disk.committed, t.disk.queue.ever, t.handlers[h])
  {
    assert HandlerOk(s.first, s.disk.committed, s.disk.queue.ever, s.handlers[h]);
    var item := EnqueuedItem(s, s.handlers[h].call, newId);
  }

  lemma CommitHandlerRun(retention: int, s: Host, h: nat, newId: nat)
    requires Inv(s) && CanRun(s, h, newId)
    requires s.handlers[h].WritePending? || s.handlers[h].Publish? || s.handlers[h].Unlink?
    ensures var t := RunOne(retention, s, h, newId);
      HandlerOk(t.first, t.disk.committed, t.disk.queue.ever, t.handlers[h])
  {
    var own := s.handlers[h];
    assert HandlerOk(s.first, s.disk.committed, s.disk.queue.ever, own);
    if own.Unlink? {
      AnswerOk(s, own.call);
    }
  }

  /** Reading the pending receipt of an uncommitted delivery lets only its first body through. */
  lemma ReadPendingOk(s: Host, c: Call)
    requires Inv(s) && Carries(c.body) && c.now != 0 && IdOf(c) in s.disk.pending
    requires s.disk.pending[IdOf(c)].digest == Digest(c.body)
    ensures HandlerOk(s.first, s.disk.committed, s.disk.queue.ever, Enqueue(c, s.disk.pending[IdOf(c)], true))
  {
  }

  lemma ReadHandlerRun(retention: int, s: Host, own: Handler, newId: nat)
    requires Inv(s) && HandlerOk(s.first, s.disk.committed, s.disk.queue.ever, own)
    requires !own.WritePending? && !own.Enqueue? && !own.Publish? && !own.Unlink?
    ensures HandlerOk(s.first, s.disk.committed, s.disk.queue.ever, Step(retention, s.disk, own, newId).1)
  {
    var c := own.call;
    var next := Step(retention, s.disk, own, newId).1;
    if (own.Lookup? || own.LookupAgain? || own.ReadCommitted? || own.Reread?) && IdOf(c) in s.disk.committed {
      AnswerOk(s, c);
    } else if own.ReadPending? && next.Enqueue? {
      ReadPendingOk(s, c);
    }
  }

  lemma OwnHandlerRun(retention: int, s: Host, h: nat, newId: nat)
    requires Inv(s) && CanRun(s, h, newId)
    ensures var t := RunOne(retention, s, h, newId);
      HandlerOk(t.first, t.disk.committed, t.disk.queue.ever, t.handlers[h])
  {
    var own := s.handlers[h];
    assert HandlerOk(s.first, s.disk.committed, s.disk.queue.ever, own);
    if own.Enqueue? {
      EnqueueHandlerRun(retention, s, h, newId);
    } else if own.WritePending? || own.Publish? || own.Unlink? {
      CommitHandlerRun(retention, s, h, newId);
    } else {
      StepFrame(retention, s.disk, own, newId);
      ReadHandlerRun(retention, s, own, newId);
    }
  }

  lemma RunInvStep(retention: int, s: Host, h: nat, newId: nat)
    requires Inv(s) && CanRun(s, h, newId)
    ensures Inv(RunOne(retention, s, h, newId))
  {
    QueueInvRun(retention, s, h, newId);
    FirstInvRun(retention, s, h, newId);
    CommittedRun(retention, s, h, newId);
    OriginRun(retention, s, h, newId);
    OwnHandlerRun(retention, s, h, newId);
    RunExtends(retention, s, h, newId);
    HandlersExtend(s, RunOne(retention, s, h, newId), {h});
  }

  lemma ForgetStep(retention: int, s: Host, key: Key)
    requires Inv(s) && Enabled(s, Forget(key))
    ensures Inv(After(retention, s, Forget(key)))
  {
    var t := After(retention, s, Forget(key));
    ForgetKeepsQueue(s.disk.queue, key);
    HandlersExtend(s, t, {});
    CommittedExtends(s, t);
    OriginExtends(s, t);
  }

  lemma InvStep(retention: int, s: Host, l: Label)
    requires Inv(s) && Enabled(s, l)
    ensures Inv(After(retention, s, l))
  {
    match l
    case Begin(h, call) =>
      DecodedCarries(call.body);
      HandlersExtend(s, After(retention, s, l), {h});
    case Run(h, newId) =>
      RunInvStep(retention, s, h, newId);
    case Forget(key) => ForgetStep(retention, s, key);
    case PruneNonces(keep) =>
    case Crash =>
  }

  lemma {:induction false} RunInv(retention: int, states: seq<Host>, labels: seq<Label>, n: nat)
    requires IsRun(retention, states, labels) && n < |states|
    ensures Inv(states[n])
  {
    if n > 0 {
      RunInv(retention, states, labels, n - 1);
      InvStep(retention, states[n - 1], labels[n - 1]);
    }
  }

  lemma ExtendsTransitive(s: Host, t: Host, u: Host)
    requires Extends(s, t) && Extends(t, u)
    ensures Extends(s, u)
  {
  }

  lemma StepExtends(retention: int, s: Host, l: Label)
    requires Enabled(s, l)
    ensures Extends(s, After(retention, s, l))
  {
    if l.Run? {
      RunExtends(retention, s, l.h, l.newId);
    }
  }

  lemma {:induction false} ExtendsChain(states: seq<Host>, m: nat, n: nat)
    requires m <= n < |states| && forall i :: m <= i < n ==> Extends(states[i], states[i + 1])
    ensures Extends(states[m], states[n])
    decreases n - m
  {
    if m < n {
      ExtendsChain(states, m, n - 1);
      ExtendsTransitive(states[m], states[n - 1], states[n]);
    }
  }

  /**
   * Nothing durable is taken back: a published receipt, the first body of a delivery
   * and an enqueued item of an earlier state are all still there, unchanged, later.
   */
  lemma PublishedForGood(retention: int, states: seq<Host>, labels: seq<Label>, m: nat, n: nat)
    requires IsRun(retention, states, labels) && m <= n < |states|
    ensures Extends(states[m], states[n])
  {
    forall i | m <= i < n ensures Extends(states[i], states[i + 1]) {
      StepExtends(retention, states[i], labels[i]);
    }
    ExtendsChain(states, m, n);
  }

  /** An acknowledged caller brought the first body, and was given the published receipt. */
  ghost predicate AckSound(s: Host, h: Handler) {
    h.Accepted? ==>
      && h.call.body.parsed.Some?
      && IdOf(h.call) in s.disk.committed
      && IdOf(h.call) in s.first
      && s.first[IdOf(h.call)] == h.call.body
      && h.ack.receiptId == IdOf(h.call)
      && h.ack.queueId == s.disk.committed[IdOf(h.call)].queueId
  }

  ghost predicate OneItemPerKey(q: LocalQueue) {
    forall i, j :: i in q.ever && j in q.ever && i.event.idempotencyKey == j.event.idempotencyKey ==>
      i == j || i.event.idempotencyKey in q.forgotten
  }

  lemma AcksAreSound(s: Host)
    requires Inv(s)
    ensures forall h :: h in s.handlers ==> AckSound(s, s.handlers[h])
    ensures forall h :: h in s.handlers ==> s.handlers[h] != Refused(s.handlers[h].call, NotDurable)
  {
    forall h | h in s.handlers ensures AckSound(s, s.handlers[h]) && s.handlers[h] != Refused(s.handlers[h].call, NotDurable) {
      AckIsSound(s, s.handlers[h]);
    }
  }

  lemma AckIsSound(s: Host, h: Handler)
    requires CommittedInv(s.first, s.disk.committed, s.disk.queue.ever) && HandlerOk(s.first, s.disk.committed, s.disk.queue.ever, h)
    ensures AckSound(s, h) && h != Refused(h.call, NotDurable)
  {
    if h.Accepted? {
      assert CommittedSound(s.first, s.disk.queue.ever, IdOf(h.call), s.disk.committed[IdOf(h.call)]);
    }
  }

  // ---------------------------------------------------------------- the ingress object

  datatype Request = Request(
    keyId: string, httpMethod: string, target: string, sentAt: int, nonce: string, body: Body, signature: Signature)

  datatype Outcome = Rejected | Died | Acknowledged(ack: IngressAck) | Declined(why: Refusal)

  /** Everything `Accept` checks before its first file operation. */
  function Admit(peers: map<string, Peer>, maxSkew: int, r: Request, now: int): (c: Option<Call>)
    ensures c.Some? ==> Decode(r.body).Some? && c.value.body == r.body && c.value.now == now != 0
  {
    if r.keyId == "" || r.sentAt == 0 || r.nonce == "" || r.keyId !in peers || peers[r.keyId].id != r.keyId
    then None
    else
      match VerifyPeer(peers[r.keyId], SCOPE_INGEST, r.httpMethod, r.target, r.body, r.signature, now, maxSkew)
      case None => None
      case Some(e) =>
        if r.sentAt != e.sentAt || r.nonce != e.nonce then None else Some(Call(r.keyId, r.body, now))
  }

  /** One handler running alone for at most `steps` file operations. */
  function RunAlone(retention: int, d: Disk, h: Handler, newId: nat, steps: nat): (Disk, Handler)
    requires h.call.body.parsed.Some?
    decreases steps
  {
    if steps == 0 || h.Accepted? || h.Refused? then (d, h)
    else
      var (e, next) := Step(retention, d, h, newId);
      RunAlone(retention, e, next, newId, steps - 1)
  }

  function OutcomeOf(h: Handler): Outcome {
    match h
    case Accepted(_, ack) => Acknowledged(ack)
    case Refused(_, why) => Declined(why)
    case _ => Died
  }

  class Ingress {
    const peers: map<string, Peer>
    const maxSkew: int
    const retention: int
    var nonces: map<NoncePath, NonceRecord>
    var pending: map<ReceiptId, Receipt>
    var committed: map<ReceiptId, Receipt>
    var queue: LocalQueue

    function Files(): Disk
      reads this
    {
      Disk(nonces, pending, committed, queue)
    }

    /** LookupCommitted: the stored receipt, and whether this exact body committed it. */
    method LookupCommitted(c: Call) returns (found: bool, answer: Handler)
      requires c.body.parsed.Some?
      ensures found <==> IdOf(c) in committed
      ensures found ==> answer == Answer(c, committed[IdOf(c)])
    {
      var id := IdOf(c);
      found := id in committed;
      answer := Refused(c, Conflict);
      if found && committed[id].digest == Digest(c.body) {
        var existing := committed[id].(durable := true);
        answer := ToAck(c, existing, true);
      }
    }

    /** The nonce reservation loop, up to the operation that decides it. */
    method ReserveNonceLoop(c: Call, newId: nat, steps: nat) returns (next: Handler, left: nat)
      requires c.body.parsed.Some?
      modifies this`nonces
      ensures next.call == c && left <= steps
      ensures next.ReadCommitted? || next.LookupAgain? || (left == 0 && (next.CheckNonce? || next.DropNonce? || next.ReserveNonce?))
      ensures RunAlone(retention, old(Files()), ReserveNonce(c), newId, steps) ==
              RunAlone(retention, Files(), next, newId, left)
    {
      var path := NoncePath(c.peer, EnvelopeOf(c).nonce);
      next, left := ReserveNonce(c), steps;
      ghost var goal := RunAlone(retention, Files(), next, newId, steps);
      while left > 0
        invariant next == ReserveNonce(c) && left <= steps
        invariant goal == RunAlone(retention, Files(), next, newId, left)
      {
        left := left - 1;
        if path !in nonces {
          nonces := nonces[path := NonceRecord(c.now + retention, c.now)];
          next := ReadCommitted(c);
          return;
        }
        next := CheckNonce(c);
        assert goal == RunAlone(retention, Files(), next, newId, left);
        if left == 0 { return; }
        left := left - 1;
        if !Expired(nonces[path], retention, c.now) {
          next := LookupAgain(c);
          return;
        }
        next := DropNonce(c);
        assert goal == RunAlone(retention, Files(), next, newId, left);
        if left == 0 { return; }
        left := left - 1;
        nonces := nonces - {path};
        next := ReserveNonce(c);
      }
    }

    /** The receipt commit: pending receipt, durable enqueue, published receipt, pending removed. */
    method CommitIngress(c: Call, newId: nat, steps: nat) returns (next: Handler)
      requires c.body.parsed.Some?
      modifies this`pending, this`committed, this`queue
      ensures (Files(), next) == RunAlone(retention, old(Files()), ReadCommitted(c), newId, steps)
    {
      var id := IdOf(c);
      var left := steps;
      next := ReadCommitted(c);
      ghost var goal := RunAlone(retention, Files(), next, newId, steps);
      if left == 0 { return; }
      left := left - 1;
      if !EnvelopeOf(c).event.metadataOnly { next := Refused(c, NotMetadataOnly); return; }
      if id in committed { next := Answer(c, committed[id]); return; }

      next := ReadPending(c);
      assert goal == RunAlone(retention, Files(), next, newId, left);
      if left == 0 { return; }
      left := left - 1;
      var receipt;
      var duplicate := id in pending;
      if duplicate {
        receipt := pending[id];
        if receipt.digest != Digest(c.body) {
          next := Refused(c, Conflict);
          assert goal == RunAlone(retention, Files(), next, newId, left);
          return;
        }
      } else {
        next := WritePending(c);
        assert goal == RunAlone(retention, Files(), next, newId, left);
        if left == 0 { return; }
        left := left - 1;
        receipt := Receipt(id, EnvelopeOf(c).key, Digest(c.body), Pending, 0, c.now, 0, false);
        pending := pending[id := receipt];
      }
      next := Enqueue(c, receipt, duplicate);
      assert goal == RunAlone(retention, Files(), next, newId, left);
      next := PublishAndUnlink(c, newId, receipt, duplicate, left);
    }

    method PublishAndUnlink(c: Call, newId: nat, receipt: Receipt, duplicate: bool, steps: nat) returns (next: Handler)
      requires c.body.parsed.Some?
      modifies this`pending, this`committed, this`queue
      ensures (Files(), next) == RunAlone(retention, old(Files()), Enqueue(c, receipt, duplicate), newId, steps)
    {
      var id := IdOf(c);
      var left := steps;
      next := Enqueue(c, receipt, duplicate);
      ghost var goal := RunAlone(retention, Files(), next, newId, steps);
      if left == 0 { return; }
      left := left - 1;
      var enqueued := EnqueueEvent(queue, Notification(EnvelopeOf(c)), newId);
      queue := enqueued.0;
      var done := receipt.(state := Committed, queueId := enqueued.1, committedAt := c.now);

      next := Publish(c, done, duplicate);
      assert goal == RunAlone(retention, Files(), next, newId, left);
      if left == 0 { return; }
      left := left - 1;
      if id in committed {
        next := Reread(c, duplicate);
        assert goal == RunAlone(retention, Files(), next, newId, left);
        if left == 0 { return; }
        left := left - 1;
        if committed[id].digest != Digest(c.body) {
          next := Refused(c, Conflict);
          assert goal == RunAlone(retention, Files(), next, newId, left);
          return;
        }
        done := committed[id];
      } else {
        committed := committed[id := done];
      }
      done := done.(durable := true);

      next := Unlink(c, done, duplicate);
      assert goal == RunAlone(retention, Files(), next, newId, left);
      if left == 0 { return; }
      left := left - 1;
      pending := pending - {id};
      next := ToAck(c, done, duplicate);
      assert goal == RunAlone(retention, Files(), next, newId, left);
    }

    /** A whole request, cut off after `steps` file operations. */
    method Accept(r: Request, now: int, newId: nat, steps: nat) returns (outcome: Outcome)
      modifies this
      ensures match Admit(peers, maxSkew, r, now)
        case None => outcome == Rejected && Files() == old(Files())
        case Some(c) =>
          var (d, h) := RunAlone(retention, old(Files()), Lookup(c), newId, steps);
          Files() == d && outcome == OutcomeOf(h)
    {
      var admitted := Admit(peers, maxSkew, r, now);
      if admitted.None? { return Rejected; }
      var c := admitted.value;
      if steps == 0 { return Died; }
      var found, answer := LookupCommitted(c);
      if found { return OutcomeOf(answer); }

      var next, left := ReserveNonceLoop(c, newId, steps - 1);
      if left == 0 { return Died; }
      if next.LookupAgain? {
        found, answer := LookupCommitted(c);
        if !found { answer := Refused(c, Replay); }
      } else {
        answer := CommitIngress(c, newId, left);
      }
      outcome := OutcomeOf(answer);
    }
  }
}
