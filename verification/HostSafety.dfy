/**
 * When the host can queue a second item for one delivery. The queue's own idempotency
 * ends when a clean-up removes the item; from then on it is the receipts that keep a
 * delivery from being queued again.
 */
module HostSafety {
  import opened Common
  import opened Protocol
  import opened Receipts

  /** The delivery a key was derived for. */
  function IdFor(key: Key): ReceiptId
    requires key.Delivery?
  {
    ReceiptId(key.team, key.origin, key)
  }

  predicate Works(h: Handler, id: ReceiptId) {
    h.call.body.parsed.Some? && IdOf(h.call) == id
  }

  /** A handler of the committed delivery that still removes its pending receipt. */
  ghost predicate Unlinks(committed: map<ReceiptId, Receipt>, id: ReceiptId, h: Handler) {
    && Works(h, id)
    && (h.Unlink? || ((h.Publish? || h.Reread?) && id in committed && committed[id].digest == Digest(h.call.body)))
  }

  ghost predicate PendingGoes(s: Host, id: ReceiptId) {
    exists h :: h in s.handlers && Unlinks(s.disk.committed, id, s.handlers[h])
  }

  /** A handler past the last look at the committed receipts that still gets to enqueue. */
  ghost predicate StillEnqueues(s: Host, id: ReceiptId, h: Handler) {
    && Works(h, id)
    && (|| h.Enqueue?
        || (h.ReadPending? && (id !in s.disk.pending || s.disk.pending[id].digest == Digest(h.call.body) || PendingGoes(s, id)))
        || (h.WritePending? && (id !in s.disk.pending || PendingGoes(s, id))))
  }

  /** The delivery is not published, or a handler of it got past the receipts before it was. */
  ghost predicate Open(s: Host, id: ReceiptId) {
    id !in s.disk.committed || exists h :: h in s.handlers && StillEnqueues(s, id, s.handlers[h])
  }

  ghost predicate HasItem(ever: set<Item>, key: Key, i: Item) {
    i in ever && i.event.idempotencyKey == key
  }

  ghost predicate NoNewItem(had: set<Item>, ever: set<Item>, key: Key) {
    forall i :: HasItem(ever, key, i) ==> i in had
  }

  ghost predicate AtMostOneItem(ever: set<Item>, key: Key) {
    forall i, j :: HasItem(ever, key, i) && HasItem(ever, key, j) ==> i == j
  }

  // ---------------------------------------------------------------- a closed delivery stays closed

  /** A step of a handler of another delivery leaves this one's files alone. */
  lemma OtherHandler(retention: int, d: Disk, h: Handler, newId: nat, id: ReceiptId)
    requires h.call.body.parsed.Some? && IdOf(h.call) != id
    ensures var (t, next) := Step(retention, d, h, newId);
      && (id in t.committed <==> id in d.committed) && (id in d.committed ==> t.committed[id] == d.committed[id])
      && (id in t.pending <==> id in d.pending) && (id in d.pending ==> t.pending[id] == d.pending[id])
      && next.call == h.call
  {
  }

  /** A step of a handler of a published delivery that does not enqueue any more. */
  lemma OwnHandler(retention: int, s: Host, h: Handler, newId: nat, id: ReceiptId)
    requires Works(h, id) && id in s.disk.committed && !StillEnqueues(s, id, h)
    ensures var (t, next) := Step(retention, s.disk, h, newId);
      && t.committed == s.disk.committed && t.queue == s.disk.queue && next.call == h.call
      && !next.Enqueue? && !next.ReadPending? && !next.WritePending?
      && (Unlinks(t.committed, id, next) ==> Unlinks(s.disk.committed, id, h))
      && (if h.Unlink? then t.pending == s.disk.pending - {id} else t.pending == s.disk.pending)
  {
  }

  lemma PendingGoesBack(retention: int, s: Host, h: nat, newId: nat, id: ReceiptId)
    requires CanRun(s, h, newId) && id in s.disk.committed && !Open(s, id)
    ensures PendingGoes(RunOne(retention, s, h, newId), id) ==> PendingGoes(s, id)
  {
    var t := RunOne(retention, s, h, newId);
    var own := s.handlers[h];
    if Works(own, id) {
      OwnHandler(retention, s, own, newId, id);
    } else {
      OtherHandler(retention, s.disk, own, newId, id);
    }
    if g :| g in t.handlers && Unlinks(t.disk.committed, id, t.handlers[g]) {
      assert Unlinks(s.disk.committed, id, s.handlers[g]);
    }
  }

  lemma ClosedRun(retention: int, s: Host, h: nat, newId: nat, id: ReceiptId)
    requires CanRun(s, h, newId) && !Open(s, id)
    ensures !Open(RunOne(retention, s, h, newId), id)
  {
    var t := RunOne(retention, s, h, newId);
    var own := s.handlers[h];
    PendingGoesBack(retention, s, h, newId, id);
    if Works(own, id) {
      OwnHandler(retention, s, own, newId, id);
    } else {
      OtherHandler(retention, s.disk, own, newId, id);
    }
    forall g | g in t.handlers ensures !StillEnqueues(t, id, t.handlers[g]) {
      if g != h {
        ClosedOther(s, t, h, g, id);
      }
    }
  }

  /** A handler that did not move still does not enqueue. */
  lemma ClosedOther(s: Host, t: Host, h: nat, g: nat, id: ReceiptId)
    requires !Open(s, id) && h in s.handlers && g in s.handlers && g in t.handlers && t.handlers[g] == s.handlers[g]
    requires PendingGoes(t, id) ==> PendingGoes(s, id)
    requires id !in t.disk.pending ==> id !in s.disk.pending || Unlinks(s.disk.committed, id, s.handlers[h])
    requires id in t.disk.pending ==> id in s.disk.pending && t.disk.pending[id] == s.disk.pending[id]
    ensures !StillEnqueues(t, id, t.handlers[g])
  {
    assert !StillEnqueues(s, id, s.handlers[g]);
  }

  lemma ClosedStep(retention: int, s: Host, l: Label, id: ReceiptId)
    requires Enabled(s, l) && !Open(s, id)
    ensures !Open(After(retention, s, l), id)
  {
    var t := After(retention, s, l);
    match l
    case Run(h, newId) => ClosedRun(retention, s, h, newId, id);
    case Begin(h, call) =>
      assert PendingGoes(t, id) ==> PendingGoes(s, id) by {
        if g :| g in t.handlers && Unlinks(t.disk.committed, id, t.handlers[g]) {
          assert Unlinks(s.disk.committed, id, s.handlers[g]);
        }
      }
      forall g | g in t.handlers ensures !StillEnqueues(t, id, t.handlers[g]) {
        if g != h {
          assert !StillEnqueues(s, id, s.handlers[g]);
        }
      }
    case _ =>
      SameHandlers(s, t, id);
  }

  lemma SameHandlers(s: Host, t: Host, id: ReceiptId)
    requires !Open(s, id) && t.disk.committed == s.disk.committed && t.disk.pending == s.disk.pending
    requires forall g :: g in t.handlers ==> g in s.handlers && t.handlers[g] == s.handlers[g]
    ensures !Open(t, id)
  {
    assert PendingGoes(t, id) ==> PendingGoes(s, id) by {
      if g :| g in t.handlers && Unlinks(t.disk.committed, id, t.handlers[g]) {
        assert Unlinks(s.disk.committed, id, s.handlers[g]);
      }
    }
    forall g | g in t.handlers ensures !StillEnqueues(t, id, t.handlers[g]) {
      assert !StillEnqueues(s, id, s.handlers[g]);
    }
  }

  /** No step from a closed delivery queues an item for it, clean-ups included. */
  lemma ClosedGainsNothing(retention: int, s: Host, l: Label, key: Key)
    requires HandlersInv(s) && Enabled(s, l) && key.Delivery? && !Open(s, IdFor(key))
    ensures NoNewItem(s.disk.queue.ever, After(retention, s, l).disk.queue.ever, key)
  {
    if l.Run? {
      var own := s.handlers[l.h];
      StepFrame(retention, s.disk, own, l.newId);
      assert HandlerOk(s.first, s.disk.committed, s.disk.queue.ever, own);
      assert !StillEnqueues(s, IdFor(key), own);
    }
  }

  // ---------------------------------------------------------------- at most one item, over runs

  /** Every clean-up of the key happens when its delivery is closed. */
  ghost predicate ForgottenClosed(states: seq<Host>, labels: seq<Label>, n: nat, key: Key)
    requires n <= |labels| < |states| && key.Delivery?
  {
    forall k :: 0 <= k < n && labels[k] == Forget(key) ==> !Open(states[k], IdFor(key))
  }

  /** One item, and either the queue itself or the receipts keep it so. */
  ghost predicate Guarded(s: Host, key: Key)
    requires key.Delivery?
  {
    AtMostOneItem(s.disk.queue.ever, key) && (key in s.disk.queue.forgotten ==> !Open(s, IdFor(key)))
  }

  lemma GuardedStep(retention: int, s: Host, l: Label, key: Key)
    requires Inv(s) && Enabled(s, l) && key.Delivery? && Guarded(s, key)
    requires l == Forget(key) ==> !Open(s, IdFor(key))
    ensures Guarded(After(retention, s, l), key)
  {
    if Open(s, IdFor(key)) {
      QueueGuards(retention, s, l, key);
    } else {
      ReceiptsGuard(retention, s, l, key);
    }
  }

  lemma QueueGuards(retention: int, s: Host, l: Label, key: Key)
    requires Inv(s) && Enabled(s, l) && key !in s.disk.queue.forgotten && l != Forget(key)
    ensures var q := After(retention, s, l).disk.queue; key !in q.forgotten && AtMostOneItem(q.ever, key)
  {
    InvStep(retention, s, l);
    ForgottenBy(retention, s, l, key);
    UnforgottenIsOne(After(retention, s, l).disk.queue, key);
  }

  lemma ReceiptsGuard(retention: int, s: Host, l: Label, key: Key)
    requires HandlersInv(s) && Enabled(s, l) && key.Delivery? && !Open(s, IdFor(key)) && AtMostOneItem(s.disk.queue.ever, key)
    ensures var t := After(retention, s, l); !Open(t, IdFor(key)) && AtMostOneItem(t.disk.queue.ever, key)
  {
    ClosedStep(retention, s, l, IdFor(key));
    ClosedGainsNothing(retention, s, l, key);
    StillOne(s.disk.queue.ever, After(retention, s, l).disk.queue.ever, key);
  }

  lemma StillOne(had: set<Item>, ever: set<Item>, key: Key)
    requires AtMostOneItem(had, key) && NoNewItem(had, ever, key)
    ensures AtMostOneItem(ever, key)
  {
    assert forall i :: HasItem(ever, key, i) ==> HasItem(had, key, i);
  }

  lemma ForgottenBy(retention: int, s: Host, l: Label, key: Key)
    requires Enabled(s, l) && key !in s.disk.queue.forgotten && l != Forget(key)
    ensures key !in After(retention, s, l).disk.queue.forgotten
  {
    if l.Run? {
      RunExtends(retention, s, l.h, l.newId);
    }
  }

  lemma UnforgottenIsOne(q: LocalQueue, key: Key)
    requires QueueInv(q) && key !in q.forgotten
    ensures AtMostOneItem(q.ever, key)
  {
  }

  /** What a step keeps of a guarded key. */
  ghost predicate KeepsGuard(s: Host, t: Host, key: Key)
    requires key.Delivery?
  {
    Guarded(s, key) ==> Guarded(t, key)
  }

  lemma {:induction false} GuardChain(states: seq<Host>, n: nat, key: Key)
    requires n < |states| && key.Delivery? && Guarded(states[0], key)
    requires forall i :: 0 <= i < n ==> KeepsGuard(states[i], states[i + 1], key)
    ensures Guarded(states[n], key)
  {
    if n > 0 {
      GuardChain(states, n - 1, key);
      assert KeepsGuard(states[n - 1], states[n], key);
    }
  }

  lemma GuardAt(retention: int, states: seq<Host>, labels: seq<Label>, i: nat, key: Key)
    requires IsRun(retention, states, labels) && i < |labels| && key.Delivery?
    requires labels[i] == Forget(key) ==> !Open(states[i], IdFor(key))
    ensures KeepsGuard(states[i], states[i + 1], key)
  {
    RunInv(retention, states, labels, i);
    if Guarded(states[i], key) {
      GuardedStep(retention, states[i], labels[i], key);
    }
  }

  /** A delivery key gets one item at most, unless a clean-up removes it while its delivery is open. */
  lemma OneItemUnlessForgottenOpen(retention: int, states: seq<Host>, labels: seq<Label>, n: nat, key: Key)
    requires IsRun(retention, states, labels) && n < |states| && key.Delivery? && ForgottenClosed(states, labels, n, key)
    ensures Guarded(states[n], key)
  {
    forall i | 0 <= i < n ensures KeepsGuard(states[i], states[i + 1], key) {
      GuardAt(retention, states, labels, i, key);
    }
    GuardChain(states, n, key);
  }

  /** What a step keeps of a closed delivery. */
  ghost predicate KeepsClosed(s: Host, t: Host, key: Key)
    requires key.Delivery?
  {
    !Open(s, IdFor(key)) ==> !Open(t, IdFor(key)) && NoNewItem(s.disk.queue.ever, t.disk.queue.ever, key)
  }

  lemma {:induction false} ClosedChain(states: seq<Host>, m: nat, n: nat, key: Key)
    requires m <= n < |states| && key.Delivery? && !Open(states[m], IdFor(key))
    requires forall i :: m <= i < n ==> KeepsClosed(states[i], states[i + 1], key)
    ensures !Open(states[n], IdFor(key)) && NoNewItem(states[m].disk.queue.ever, states[n].disk.queue.ever, key)
    decreases n - m
  {
    if m < n {
      ClosedChain(states, m, n - 1, key);
      assert KeepsClosed(states[n - 1], states[n], key);
      NoNewAgain(states[m].disk.queue.ever, states[n - 1].disk.queue.ever, states[n].disk.queue.ever, key);
    }
  }

  lemma NoNewAgain(a: set<Item>, b: set<Item>, c: set<Item>, key: Key)
    requires NoNewItem(a, b, key) && NoNewItem(b, c, key)
    ensures NoNewItem(a, c, key)
  {
    assert forall i :: HasItem(c, key, i) ==> HasItem(b, key, i);
  }

  lemma ClosedAt(retention: int, states: seq<Host>, labels: seq<Label>, i: nat, key: Key)
    requires IsRun(retention, states, labels) && i < |labels| && key.Delivery?
    ensures KeepsClosed(states[i], states[i + 1], key)
  {
    RunInv(retention, states, labels, i);
    if !Open(states[i], IdFor(key)) {
      ClosedStep(retention, states[i], labels[i], IdFor(key));
      ClosedGainsNothing(retention, states[i], labels[i], key);
    }
  }

  /** Once a delivery is closed it stays closed, and its items are final, clean-ups or not. */
  lemma ClosedForGood(retention: int, states: seq<Host>, labels: seq<Label>, m: nat, n: nat, key: Key)
    requires IsRun(retention, states, labels) && m <= n < |states| && key.Delivery? && !Open(states[m], IdFor(key))
    ensures !Open(states[n], IdFor(key))
    ensures NoNewItem(states[m].disk.queue.ever, states[n].disk.queue.ever, key)
  {
    forall i | m <= i < n ensures KeepsClosed(states[i], states[i + 1], key) {
      ClosedAt(retention, states, labels, i, key);
    }
    ClosedChain(states, m, n, key);
  }

  // ---------------------------------------------------------------- a published delivery can be queued again

  /** The handler's next operation does not touch the nonces. */
  predicate PastNonce(h: Handler) {
    !h.ReserveNonce? && !h.CheckNonce? && !h.DropNonce?
  }

  /** At most `fuel` steps of handlers past their nonce queue an item for the key that was not there. */
  ghost predicate Gains(retention: int, s: Host, had: set<Item>, key: Key, fuel: nat)
    decreases fuel
  {
    || !NoNewItem(had, s.disk.queue.ever, key)
    || (fuel > 0 && exists h, newId :: CanRun(s, h, newId) && PastNonce(s.handlers[h]) && Gains(retention, RunOne(retention, s, h, newId), had, key, fuel - 1))
  }

  lemma RunGains(retention: int, s: Host, h: nat, newId: nat, had: set<Item>, key: Key, fuel: nat)
    requires CanRun(s, h, newId) && PastNonce(s.handlers[h]) && Gains(retention, RunOne(retention, s, h, newId), had, key, fuel)
    ensures Gains(retention, s, had, key, fuel + 1)
  {
  }

  lemma {:induction false} FreshIn(ever: set<Item>) returns (id: nat)
    ensures id != 0 && forall i :: i in ever ==> i.id < id
    decreases |ever|
  {
    if ever == {} {
      id := 1;
    } else {
      var i :| i in ever;
      var other := FreshIn(ever - {i});
      id := if i.id < other then other else i.id + 1;
      forall j | j in ever ensures j.id < id {
        assert j == i || j in ever - {i};
      }
    }
  }

  /** A handler about to enqueue, for a key without a live item. */
  lemma EnqueueGains(retention: int, s: Host, h: nat, had: set<Item>, key: Key)
    requires h in s.handlers && s.handlers[h].Enqueue? && s.handlers[h].call.body.parsed.Some?
    requires EnvelopeOf(s.handlers[h].call).key == key && key !in s.disk.queue.live && had <= s.disk.queue.ever
    ensures Gains(retention, s, had, key, 1)
  {
    var newId := FreshIn(s.disk.queue.ever);
    var t := RunOne(retention, s, h, newId);
    var item := Item(newId, Notification(EnvelopeOf(s.handlers[h].call)));
    assert HasItem(t.disk.queue.ever, key, item) && item !in had;
    RunGains(retention, s, h, newId, had, key, 0);
  }

  /** A handler that looks at a matching or missing pending receipt goes on to enqueue. */
  lemma ReadPendingGains(retention: int, s: Host, h: nat, had: set<Item>, key: Key)
    requires h in s.handlers && s.handlers[h].ReadPending? && s.handlers[h].call.body.parsed.Some?
    requires EnvelopeOf(s.handlers[h].call).key == key && key !in s.disk.queue.live && had <= s.disk.queue.ever
    requires var id := IdOf(s.handlers[h].call); id !in s.disk.pending || s.disk.pending[id].digest == Digest(s.handlers[h].call.body)
    ensures Gains(retention, s, had, key, 3)
  {
    var newId := FreshIn(s.disk.queue.ever);
    var t := RunOne(retention, s, h, newId);
    if t.handlers[h].Enqueue? {
      EnqueueGains(retention, t, h, had, key);
      GainsMore(retention, t, had, key, 1);
    } else {
      WritePendingGains(retention, t, h, had, key);
    }
    RunGains(retention, s, h, newId, had, key, 2);
  }

  lemma GainsMore(retention: int, s: Host, had: set<Item>, key: Key, fuel: nat)
    requires Gains(retention, s, had, key, fuel)
    ensures Gains(retention, s, had, key, fuel + 1)
    decreases fuel
  {
    if NoNewItem(had, s.disk.queue.ever, key) {
      var h, newId :| CanRun(s, h, newId) && PastNonce(s.handlers[h]) && Gains(retention, RunOne(retention, s, h, newId), had, key, fuel - 1);
      GainsMore(retention, RunOne(retention, s, h, newId), had, key, fuel - 1);
    }
  }

  lemma WritePendingGains(retention: int, s: Host, h: nat, had: set<Item>, key: Key)
    requires h in s.handlers && s.handlers[h].WritePending? && s.handlers[h].call.body.parsed.Some?
    requires EnvelopeOf(s.handlers[h].call).key == key && key !in s.disk.queue.live && had <= s.disk.queue.ever
    requires IdOf(s.handlers[h].call) !in s.disk.pending
    ensures Gains(retention, s, had, key, 2)
  {
    var newId := FreshIn(s.disk.queue.ever);
    EnqueueGains(retention, RunOne(retention, s, h, newId), h, had, key);
    RunGains(retention, s, h, newId, had, key, 1);
  }

  /** A handler past the receipts, waiting for a pending receipt to go or to be its own. */
  ghost predicate Waits(s: Host, h: nat, key: Key) {
    && key.Delivery? && h in s.handlers && Works(s.handlers[h], IdFor(key))
    && (s.handlers[h].ReadPending? || s.handlers[h].WritePending?)
    && key !in s.disk.queue.live
  }

  lemma WaiterGains(retention: int, s: Host, h: nat, had: set<Item>, key: Key)
    requires Waits(s, h, key) && IdFor(key) !in s.disk.pending && had <= s.disk.queue.ever
    ensures Gains(retention, s, had, key, 3)
  {
    if s.handlers[h].ReadPending? {
      ReadPendingGains(retention, s, h, had, key);
    } else {
      WritePendingGains(retention, s, h, had, key);
      GainsMore(retention, s, had, key, 2);
    }
  }

  /** How many steps a handler is from removing the pending receipt. */
  function StepsToUnlink(h: Handler): nat {
    if h.Unlink? then 1 else if h.Reread? then 2 else 3
  }

  lemma UnlinkerSteps(retention: int, s: Host, g: nat, h: nat, key: Key, newId: nat)
    requires Waits(s, h, key) && g in s.handlers && Unlinks(s.disk.committed, IdFor(key), s.handlers[g]) && IdFor(key) in s.disk.committed
    requires CanRun(s, g, newId)
    ensures var t := RunOne(retention, s, g, newId);
      && Waits(t, h, key) && g in t.handlers && IdFor(key) in t.disk.committed && t.disk.queue == s.disk.queue
      && (s.handlers[g].Unlink? ==> IdFor(key) !in t.disk.pending)
      && (!s.handlers[g].Unlink? ==>
            Unlinks(t.disk.committed, IdFor(key), t.handlers[g]) && StepsToUnlink(t.handlers[g]) + 1 == StepsToUnlink(s.handlers[g]))
  {
  }

  lemma UnlinkGains(retention: int, s: Host, g: nat, h: nat, had: set<Item>, key: Key)
    requires Waits(s, h, key) && g in s.handlers && Unlinks(s.disk.committed, IdFor(key), s.handlers[g]) && IdFor(key) in s.disk.committed
    requires s.handlers[g].Unlink? && had <= s.disk.queue.ever
    ensures Gains(retention, s, had, key, 4)
  {
    var newId := FreshRun(s, g);
    UnlinkerSteps(retention, s, g, h, key, newId);
    WaiterGains(retention, RunOne(retention, s, g, newId), h, had, key);
    RunGains(retention, s, g, newId, had, key, 3);
  }

  lemma {:induction false} UnlinkerGains(retention: int, s: Host, g: nat, h: nat, had: set<Item>, key: Key)
    requires Waits(s, h, key) && g in s.handlers && Unlinks(s.disk.committed, IdFor(key), s.handlers[g]) && IdFor(key) in s.disk.committed
    requires had <= s.disk.queue.ever
    ensures Gains(retention, s, had, key, 3 + StepsToUnlink(s.handlers[g]))
    decreases StepsToUnlink(s.handlers[g])
  {
    if s.handlers[g].Unlink? {
      UnlinkGains(retention, s, g, h, had, key);
    } else {
      var newId := FreshRun(s, g);
      UnlinkerSteps(retention, s, g, h, key, newId);
      UnlinkerGains(retention, RunOne(retention, s, g, newId), g, h, had, key);
      RunGains(retention, s, g, newId, had, key, 2 + StepsToUnlink(s.handlers[g]));
    }
  }

  lemma FreshRun(s: Host, g: nat) returns (newId: nat)
    requires g in s.handlers && s.handlers[g].call.body.parsed.Some?
    ensures CanRun(s, g, newId)
  {
    newId := FreshIn(s.disk.queue.ever);
  }

  // ---------------------------------------------------------------- known deliveries

  /** Bodies that got as far as a pending receipt decode and carry metadata only. */
  ghost predicate MetaInv(s: Host) {
    && (forall id :: id in s.first ==> Decode(s.first[id]).Some? && s.first[id].parsed.Some? && s.first[id].parsed.value.event.metadataOnly)
    && (forall h :: h in s.handlers ==> Decode(s.handlers[h].call.body).Some?)
    && (forall h :: h in s.handlers && (s.handlers[h].ReadPending? || s.handlers[h].WritePending?) ==>
          s.handlers[h].call.body.parsed.Some? && EnvelopeOf(s.handlers[h].call).event.metadataOnly)
  }

  lemma MetaStep(retention: int, s: Host, l: Label)
    requires MetaInv(s) && Enabled(s, l)
    ensures MetaInv(After(retention, s, l))
  {
    if l.Run? {
      MetaRunStep(retention, s, l.h, l.newId);
    }
  }

  lemma MetaRunStep(retention: int, s: Host, h: nat, newId: nat)
    requires MetaInv(s) && CanRun(s, h, newId)
    ensures MetaInv(RunOne(retention, s, h, newId))
  {
    MetaRun(retention, s.disk, s.handlers[h], newId);
  }

  lemma MetaRun(retention: int, d: Disk, h: Handler, newId: nat)
    requires h.call.body.parsed.Some?
    ensures var next := Step(retention, d, h, newId).1;
      && next.call == h.call
      && (next.ReadPending? ==> EnvelopeOf(h.call).event.metadataOnly)
      && (next.WritePending? ==> h.ReadPending?)
  {
  }

  lemma {:induction false} RunMeta(retention: int, states: seq<Host>, labels: seq<Label>, n: nat)
    requires IsRun(retention, states, labels) && n < |states|
    ensures MetaInv(states[n])
  {
    if n > 0 {
      RunMeta(retention, states, labels, n - 1);
      MetaStep(retention, states[n - 1], labels[n - 1]);
    }
  }

  /** The delivery of a live item is known: its first body is there, and its pending receipt until it is published. */
  lemma LiveIsKnown(s: Host, key: Key)
    requires Inv(s) && MetaInv(s) && key.Delivery? && key in s.disk.queue.live
    ensures var id := IdFor(key);
      && id in s.first && s.first[id].parsed.Some? && ReceiptIdOf(s.first[id].parsed.value) == id && Decode(s.first[id]).Some?
      && s.first[id].parsed.value.event.metadataOnly
      && (id !in s.disk.committed ==> id in s.disk.pending && s.disk.pending[id].digest == Digest(s.first[id]))
  {
    var item := s.disk.queue.live[key];
    var id :| Accounted(s.first, s.disk.committed, s.disk.queue.forgotten, item, id);
    assert Carries(s.first[id]) && ReceiptIdOf(s.first[id].parsed.value) == id;
  }

  lemma HandlerGains(retention: int, s: Host, t: Host, h: nat, key: Key) returns (fuel: nat)
    requires key.Delivery? && IdFor(key) in s.disk.committed && h in s.handlers && StillEnqueues(s, IdFor(key), s.handlers[h])
    requires t.handlers == s.handlers && t.disk.pending == s.disk.pending && t.disk.committed == s.disk.committed
    requires t.disk.queue.ever == s.disk.queue.ever && key !in t.disk.queue.live
    ensures Gains(retention, t, s.disk.queue.ever, key, fuel)
  {
    var id := IdFor(key);
    var own := s.handlers[h];
    if own.Enqueue? {
      EnqueueGains(retention, t, h, s.disk.queue.ever, key);
      fuel := 1;
    } else if id !in s.disk.pending {
      WaiterGains(retention, t, h, s.disk.queue.ever, key);
      fuel := 3;
    } else if own.ReadPending? && s.disk.pending[id].digest == Digest(own.call.body) {
      ReadPendingGains(retention, t, h, s.disk.queue.ever, key);
      fuel := 3;
    } else {
      var g :| g in s.handlers && Unlinks(s.disk.committed, id, s.handlers[g]);
      UnlinkerGains(retention, t, g, h, s.disk.queue.ever, key);
      fuel := 3 + StepsToUnlink(t.handlers[g]);
    }
  }

  /**
   * Receipts stay safe without the lock. In every interleaving, with crashes and
   * clean-ups anywhere: a published receipt carries the digest of the first body that
   * wrote a pending receipt and names a durably enqueued item of that body; only
   * callers with that body are acknowledged, and with that receipt; nobody is told
   * that a receipt is not durable; and a delivery key has one item at most, unless a
   * clean-up removed its item while the delivery was open.
   */
  lemma ReceiptsSafeWithoutLock(retention: int, states: seq<Host>, labels: seq<Label>, n: nat)
    requires IsRun(retention, states, labels) && n < |states|
    ensures CommittedInv(states[n].first, states[n].disk.committed, states[n].disk.queue.ever)
    ensures forall h :: h in states[n].handlers ==> AckSound(states[n], states[n].handlers[h])
    ensures forall h :: h in states[n].handlers ==> states[n].handlers[h] != Refused(states[n].handlers[h].call, NotDurable)
    ensures forall key: Key :: key.Delivery? && ForgottenClosed(states, labels, n, key) ==> AtMostOneItem(states[n].disk.queue.ever, key)
  {
    RunInv(retention, states, labels, n);
    AcksAreSound(states[n]);
    forall key: Key | key.Delivery? && ForgottenClosed(states, labels, n, key) ensures AtMostOneItem(states[n].disk.queue.ever, key) {
      OneItemUnlessForgottenOpen(retention, states, labels, n, key);
    }
  }
}