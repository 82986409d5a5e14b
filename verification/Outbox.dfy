/**
 * The remote outbox: signed bodies waiting to be forwarded, kept as one file per item
 * in the directories pending, inflight, history and dead.
 *
 * Every operation takes a `life`: the number of file operations the process completes
 * before it dies. A transition writes its destination and then removes its source, so
 * a life of 1 leaves both copies.
 */
module Outboxes {
  import opened Common
  import opened Protocol
  import opened Slots
  import opened Listings

  const DEFAULT_LEASE := 30 * SECOND
  const MAX_ERROR_BYTES := 4096

  datatype OutboxState = Pending | Inflight | History | Dead

  datatype SignatureMetadata = SignatureMetadata(
    keyId: string, httpMethod: string, target: string, sentAt: int, nonce: string, signature: Signature)

  datatype OutboxItem = OutboxItem(
    id: ReceiptId,
    state: OutboxState,
    key: Key,
    digest: Digest,
    body: Body,
    signature: SignatureMetadata,
    attempts: nat,
    createdAt: int,
    updatedAt: int,
    nextAttemptAt: int,
    leaseUntil: int,
    lastError: string)

  type OutboxSlot = Slot<OutboxItem>

  predicate ValidSignature(m: SignatureMetadata, e: Envelope) {
    && ValidIdentifier(m.keyId)
    && m.sentAt == e.sentAt
    && m.nonce == e.nonce
    && m.httpMethod != ""
    && 1 <= |m.target| <= 2048
  }

  /** What the store requires of a body before it keeps it, and of an item when it reads it back. */
  function Acceptable(body: Body, m: SignatureMetadata): Option<Envelope> {
    match Decode(body)
    case None => None
    case Some(e) => if e.event.metadataOnly && ValidSignature(m, e) then Some(e) else None
  }

  predicate ValidPersisted(item: OutboxItem, expected: OutboxState) {
    && item.state == expected
    && item.createdAt != 0
    && item.updatedAt != 0
    && Acceptable(item.body, item.signature).Some?
    && Decode(item.body).value.key == item.key
    && item.digest == Digest(item.body)
  }

  // ---------------------------------------------------------------- one item

  predicate Ready(item: OutboxItem, now: int) {
    item.nextAttemptAt == 0 || item.nextAttemptAt <= now
  }

  function NewItem(e: Envelope, body: Body, m: SignatureMetadata, now: int): OutboxItem {
    OutboxItem(ReceiptIdOf(e), Pending, e.key, Digest(body), body, m, 0, now, now, 0, 0, "")
  }

  function ClaimedItem(item: OutboxItem, now: int, lease: int): OutboxItem {
    item.(state := Inflight, updatedAt := now, leaseUntil := now + (if lease == 0 then DEFAULT_LEASE else lease))
  }

  function AckedItem(item: OutboxItem, now: int): OutboxItem {
    item.(state := History, updatedAt := now, leaseUntil := 0, nextAttemptAt := 0, lastError := "")
  }

  function Truncate(cause: string): string {
    if |cause| > MAX_ERROR_BYTES then cause[..MAX_ERROR_BYTES] else cause
  }

  function NackedItem(item: OutboxItem, cause: string, now: int, backoff: seq<int>): (r: OutboxItem)
    ensures r.state == Dead || r.state == Pending
  {
    var n := item.attempts + 1;
    var failed := item.(attempts := n, updatedAt := now, leaseUntil := 0, lastError := Truncate(cause));
    if n >= |backoff|
    then failed.(state := Dead, nextAttemptAt := 0)
    else failed.(state := Pending, nextAttemptAt := now + backoff[n - 1])
  }

  function RecoveredItem(item: OutboxItem, now: int): OutboxItem {
    item.(state := Pending, updatedAt := now, leaseUntil := 0)
  }

  // ---------------------------------------------------------------- one slot

  function EnqueueOp(s: OutboxSlot, item: OutboxItem): OutboxSlot {
    if Copies(s) == 0 then s.(pending := Some(item)) else s
  }

  function ClaimOp(s: OutboxSlot, now: int, lease: int, life: nat): OutboxSlot {
    if s.pending.None? || !Ready(s.pending.value, now) || life == 0 then s
    else
      var written := if s.inflight.Some? then s else s.(inflight := Some(ClaimedItem(s.pending.value, now, lease)));
      if life == 1 then written else written.(pending := None)
  }

  function At(s: OutboxSlot, d: OutboxState): Option<OutboxItem> {
    match d
    case Pending => s.pending
    case Inflight => s.inflight
    case History => s.history
    case Dead => s.dead
  }

  function Put(s: OutboxSlot, d: OutboxState, item: OutboxItem): OutboxSlot {
    match d
    case Pending => s.(pending := Some(item))
    case Inflight => s.(inflight := Some(item))
    case History => s.(history := Some(item))
    case Dead => s.(dead := Some(item))
  }

  /** A destination that already holds another body is a conflict and stops the transition. */
  predicate Clash(s: OutboxSlot, item: OutboxItem) {
    At(s, item.state).Some? && At(s, item.state).value.digest != item.digest
  }

  function LeaveInflight(s: OutboxSlot, item: OutboxItem, life: nat): OutboxSlot {
    if life == 0 || Clash(s, item) then s
    else
      var written := if At(s, item.state).Some? then s else Put(s, item.state, item);
      if life == 1 then written else written.(inflight := None)
  }

  function AckOp(s: OutboxSlot, item: OutboxItem, now: int, life: nat): OutboxSlot {
    if item.state != Inflight || now == 0 then s else LeaveInflight(s, AckedItem(item, now), life)
  }

  function NackOp(s: OutboxSlot, item: OutboxItem, cause: string, now: int, backoff: seq<int>, life: nat): OutboxSlot {
    if item.state != Inflight || now == 0 then s else LeaveInflight(s, NackedItem(item, cause, now, backoff), life)
  }

  /** A finished transition whose source is still there. */
  predicate Settled(s: OutboxSlot) {
    s.pending.Some? || s.history.Some? || s.dead.Some?
  }

  predicate LeaseHeld(item: OutboxItem, now: int) {
    item.leaseUntil != 0 && item.leaseUntil > now
  }

  function RecoverOp(s: OutboxSlot, now: int, life: nat): OutboxSlot {
    if s.inflight.None? then s
    else if Settled(s) then if life == 0 then s else s.(inflight := None)
    else if LeaseHeld(s.inflight.value, now) then s
    else LeaveInflight(s, RecoveredItem(s.inflight.value, now), life)
  }

  // ---------------------------------------------------------------- what every copy keeps

  /** The item is the one its body stands for: nothing but bookkeeping ever changes. */
  predicate Stands(item: OutboxItem, id: ReceiptId) {
    && item.body.parsed.Some?
    && item.id == id == ReceiptIdOf(item.body.parsed.value)
    && item.key == item.body.parsed.value.key
    && item.digest == Digest(item.body)
  }

  predicate CopyOk(o: Option<OutboxItem>, d: OutboxState, id: ReceiptId, body: Body) {
    o.Some? ==> o.value.state == d && Stands(o.value, id) && o.value.body == body
  }

  /** All copies carry one body, each says its own directory, and at most one lies outside inflight. */
  predicate SlotOk(s: OutboxSlot, id: ReceiptId, body: Body) {
    && CopyOk(s.pending, Pending, id, body)
    && CopyOk(s.inflight, Inflight, id, body)
    && CopyOk(s.history, History, id, body)
    && CopyOk(s.dead, Dead, id, body)
    && OneSettled(s)
  }

  /** The forwarder holds the only copy. */
  predicate Held(s: OutboxSlot, item: OutboxItem) {
    s == Slot(None, Some(item), None, None) && item.state == Inflight
  }

  lemma ClaimKeepsSlot(s: OutboxSlot, id: ReceiptId, body: Body, now: int, lease: int, life: nat)
    requires SlotOk(s, id, body)
    ensures var t := ClaimOp(s, now, lease, life);
      && SlotOk(t, id, body)
      && (Copies(s) > 0 ==> Copies(t) > 0)
      && t.history == s.history && t.dead == s.dead
      && (life >= 2 && s.pending.Some? && Ready(s.pending.value, now) && Copies(s) == 1 ==>
            Held(t, ClaimedItem(s.pending.value, now, lease)))
  {
  }

  lemma LeaveKeepsSlot(s: OutboxSlot, id: ReceiptId, body: Body, item: OutboxItem, next: OutboxItem, life: nat)
    requires SlotOk(s, id, body) && Held(s, item)
    requires next.state != Inflight && Stands(next, id) && next.body == body
    ensures var t := LeaveInflight(s, next, life);
      && SlotOk(t, id, body)
      && Copies(t) > 0
      && (life == 0 ==> t == s)
      && (life >= 1 ==> At(t, next.state) == Some(next))
      && (forall d :: d != Inflight && d != next.state ==> At(t, d) == None)
      && (life >= 2 ==> Copies(t) == 1)
  {
  }

  /** Recovery keeps every item, finishes or undoes a broken transition, and never reopens a settled one. */
  lemma RecoverKeepsSlot(s: OutboxSlot, id: ReceiptId, body: Body, now: int, life: nat)
    requires SlotOk(s, id, body)
    ensures var t := RecoverOp(s, now, life);
      && SlotOk(t, id, body)
      && (Copies(s) > 0 ==> Copies(t) > 0)
      && (Copies(s) > 0 && life >= 2 ==> Copies(t) == 1)
      && t.history == s.history && t.dead == s.dead
      && (s.pending.Some? ==> t.pending == s.pending)
  {
  }

  lemma EnqueueKeepsSlot(s: OutboxSlot, id: ReceiptId, e: Envelope, body: Body, m: SignatureMetadata, now: int)
    requires Acceptable(body, m) == Some(e) && id == ReceiptIdOf(e)
    requires Copies(s) > 0 || s == Slot(None, None, None, None)
    ensures var t := EnqueueOp(s, NewItem(e, body, m, now));
      && Copies(t) > 0
      && (Copies(s) > 0 ==> t == s)
      && (Copies(s) == 0 ==> SlotOk(t, id, body))
  {
  }

  // ---------------------------------------------------------------- the store

  datatype EnqueueResult = Rejected | Conflict | Stored(id: ReceiptId, duplicate: bool)

  datatype Result<T> = Died | Failed | Done(value: T)

  datatype Directories = Directories(
    pending: map<ReceiptId, OutboxItem>,
    inflight: map<ReceiptId, OutboxItem>,
    history: map<ReceiptId, OutboxItem>,
    dead: map<ReceiptId, OutboxItem>)

  function SlotAt(f: Directories, id: ReceiptId): OutboxSlot {
    Slot(Get(f.pending, id), Get(f.inflight, id), Get(f.history, id), Get(f.dead, id))
  }

  ghost predicate OnlyChanges(f: Directories, g: Directories, id: ReceiptId) {
    forall other :: other != id ==> SlotAt(g, other) == SlotAt(f, other)
  }

  class Outbox {
    var pending: map<ReceiptId, OutboxItem>
    var inflight: map<ReceiptId, OutboxItem>
    var history: map<ReceiptId, OutboxItem>
    var dead: map<ReceiptId, OutboxItem>

    ghost function Files(): Directories
      reads this
    {
      Directories(pending, inflight, history, dead)
    }

    ghost function SlotOf(id: ReceiptId): OutboxSlot
      reads this
    {
      SlotAt(Files(), id)
    }

    /** Files are named after the item they hold. */
    ghost predicate Valid()
      reads this
    {
      && (forall id :: id in pending ==> pending[id].id == id)
      && (forall id :: id in inflight ==> inflight[id].id == id)
      && (forall id :: id in history ==> history[id].id == id)
      && (forall id :: id in dead ==> dead[id].id == id)
    }

    constructor ()
      ensures Valid() && forall id :: SlotOf(id) == Slot(None, None, None, None)
    {
      pending, inflight, history, dead := map[], map[], map[], map[];
    }

    method Enqueue(body: Body, m: SignatureMetadata, now: int) returns (r: EnqueueResult)
      requires Valid()
      modifies this`pending
      ensures Valid()
      ensures r == Rejected <==> Acceptable(body, m).None? || now == 0
      ensures r == Rejected ==> pending == old(pending)
      ensures r != Rejected ==>
        var e := Acceptable(body, m).value;
        var s := old(SlotOf(ReceiptIdOf(e)));
        && SlotOf(ReceiptIdOf(e)) == EnqueueOp(s, NewItem(e, body, m, now))
        && (forall id :: id != ReceiptIdOf(e) ==> SlotOf(id) == old(SlotOf(id)))
        && (r.Stored? ==> r.id == ReceiptIdOf(e) && (r.duplicate <==> Copies(s) > 0))
        && (r == Conflict ==> Copies(s) > 0)
        && (forall b :: SlotOk(s, ReceiptIdOf(e), b) && Copies(s) > 0 ==> (r.Stored? <==> b == body))
    {
      var accepted := Acceptable(body, m);
      if accepted.None? || now == 0 {
        return Rejected;
      }
      var e := accepted.value;
      var id := ReceiptIdOf(e);
      var existing :=
        if id in pending then Some(pending[id])
        else if id in inflight then Some(inflight[id])
        else if id in history then Some(history[id])
        else if id in dead then Some(dead[id])
        else None;
      if existing.Some? {
        return if existing.value.body != body then Conflict else Stored(id, true);
      }
      pending := pending[id := NewItem(e, body, m, now)];
      return Stored(id, false);
    }

    /** One file of a claim: written to inflight unless it is there, then removed from pending. */
    method ClaimFile(id: ReceiptId, now: int, lease: int, life: nat) returns (r: Result<Option<OutboxItem>>, left: nat)
      requires Valid() && id in pending && Ready(pending[id], now)
      modifies this`pending, this`inflight
      ensures Valid()
      ensures SlotOf(id) == ClaimOp(old(SlotOf(id)), now, lease, life)
      ensures inflight == if life == 0 || id in old(inflight) then old(inflight) else old(inflight)[id := ClaimedItem(old(pending)[id], now, lease)]
      ensures pending == if life < 2 then old(pending) else old(pending) - {id}
      ensures r == Died <==> life < 2
      ensures r != Failed
      ensures r.Done? ==> r.value == if id in old(inflight) then None else Some(ClaimedItem(old(pending)[id], now, lease))
      ensures r.Done? ==> left + 2 == life
    {
      left := life;
      if left == 0 {
        return Died, 0;
      }
      left := left - 1;
      var item := ClaimedItem(pending[id], now, lease);
      var present := id in inflight;
      if !present {
        inflight := inflight[id := item];
      }
      if left == 0 {
        return Died, 0;
      }
      left := left - 1;
      pending := pending - {id};
      r := Done(if present then None else Some(item));
    }

    /** Claims the oldest ready item that is not already inflight. */
    method Claim(now: int, lease: int, life: nat) returns (r: Result<Option<OutboxItem>>, left: nat)
      requires Valid()
      modifies this`pending, this`inflight
      ensures Valid()
      ensures ClaimEffect(old(pending), old(inflight), pending, inflight, now, lease)
      ensures r == Failed <==> now == 0
      ensures r == Failed ==> pending == old(pending) && inflight == old(inflight)
      ensures r == Done(None) ==> inflight == old(inflight) && forall id :: id in pending ==> !Ready(pending[id], now)
      ensures r.Done? ==> left + (if r.value.Some? then 2 else 0) <= life
      ensures r.Done? && r.value.Some? ==>
        var item := r.value.value;
        && item.id in old(pending) && item.id !in old(inflight) && Ready(old(pending)[item.id], now)
        && item.id !in pending
        && inflight == old(inflight)[item.id := item]
        && (forall id :: id in old(pending) && id !in old(inflight) && Ready(old(pending)[id], now) ==>
              old(pending)[item.id].createdAt <= old(pending)[id].createdAt)
    {
      if now == 0 {
        return Failed, life;
      }
      var created := map id | id in pending :: pending[id].createdAt;
      var order := List(created);
      left := life;
      var i := 0;
      while i < |order|
        invariant 0 <= i <= |order| && Valid()
        invariant inflight == old(inflight)
        invariant left <= life
        invariant ClaimEffect(old(pending), old(inflight), pending, inflight, now, lease)
        invariant forall id :: id in pending && Ready(pending[id], now) ==> id in order[i..]
        invariant forall j :: i <= j < |order| ==> order[j] in pending
      {
        var id := order[i];
        i := i + 1;
        if Ready(pending[id], now) {
          ClaimEffectStep(old(pending), inflight, pending, now, lease, id, left);
          r, left := ClaimFile(id, now, lease, left);
          if r.Died? || r.value.Some? {
            return;
          }
        }
      }
      return Done(None), left;
    }

    /** transition: publish the copy for its new directory, then remove the inflight file. */
    method Transition(item: OutboxItem, life: nat) returns (r: Result<()>, left: nat)
      requires Valid() && item.state != Inflight
      modifies this
      ensures Valid()
      ensures SlotOf(item.id) == LeaveInflight(old(SlotOf(item.id)), item, life)
      ensures OnlyChanges(old(Files()), Files(), item.id)
      ensures r == Failed <==> life > 0 && Clash(old(SlotOf(item.id)), item)
      ensures r == Died ==> life < 2
      ensures r.Done? ==> life >= 2 && left == life - 2
      ensures inflight == old(inflight) || inflight == old(inflight) - {item.id}
    {
      if life == 0 {
        return Died, 0;
      }
      var id := item.id;
      if item.state == Pending && id !in pending {
        pending := pending[id := item];
      } else if item.state == History && id !in history {
        history := history[id := item];
      } else if item.state == Dead && id !in dead {
        dead := dead[id := item];
      } else {
        var existing := if item.state == Pending then pending[id] else if item.state == History then history[id] else dead[id];
        if existing.digest != item.digest {
          return Failed, life - 1;
        }
      }
      if life == 1 {
        return Died, 0;
      }
      inflight := inflight - {id};
      return Done(()), life - 2;
    }

    method Ack(item: OutboxItem, now: int, life: nat) returns (r: Result<()>)
      requires Valid()
      modifies this
      ensures Valid()
      ensures SlotOf(item.id) == AckOp(old(SlotOf(item.id)), item, now, life)
      ensures OnlyChanges(old(Files()), Files(), item.id)
      ensures r.Done? ==> life >= 2
      ensures r.Failed? <==> item.state != Inflight || now == 0 || (life > 0 && Clash(old(SlotOf(item.id)), AckedItem(item, now)))
    {
      if item.state != Inflight || now == 0 {
        return Failed;
      }
      var acked := item.(state := History, updatedAt := now, leaseUntil := 0, nextAttemptAt := 0, lastError := "");
      var left;
      r, left := Transition(acked, life);
    }

    method Nack(item: OutboxItem, cause: string, now: int, backoff: seq<int>, life: nat) returns (r: Result<OutboxState>)
      requires Valid()
      modifies this
      ensures Valid()
      ensures SlotOf(item.id) == NackOp(old(SlotOf(item.id)), item, cause, now, backoff, life)
      ensures OnlyChanges(old(Files()), Files(), item.id)
      ensures r.Failed? <==>
        item.state != Inflight || now == 0 || (life > 0 && Clash(old(SlotOf(item.id)), NackedItem(item, cause, now, backoff)))
      ensures r.Done? ==>
        && life >= 2
        && r.value == if item.attempts + 1 >= |backoff| then Dead else Pending
    {
      if item.state != Inflight || now == 0 {
        return Failed;
      }
      var rejected := item.(attempts := item.attempts + 1);
      rejected := rejected.(updatedAt := now, leaseUntil := 0, lastError := Truncate(cause));
      if rejected.attempts >= |backoff| {
        rejected := rejected.(state := Dead, nextAttemptAt := 0);
      } else {
        rejected := rejected.(state := Pending, nextAttemptAt := now + backoff[rejected.attempts - 1]);
      }
      var moved, left := Transition(rejected, life);
      r := match moved case Died => Died case Failed => Failed case Done(_) => Done(rejected.state);
    }

    /** One inflight file of a recovery pass. */
    method RecoverFile(id: ReceiptId, now: int, life: nat) returns (r: Result<bool>, left: nat)
      requires Valid() && id in inflight
      modifies this
      ensures Valid()
      ensures RecoverCut(old(SlotOf(id)), SlotOf(id), now)
      ensures OnlyChanges(old(Files()), Files(), id)
      ensures r != Failed
      ensures r.Done? ==>
        && SlotOf(id) == RecoverOp(old(SlotOf(id)), now, 2)
        && (r.value <==> Abandoned(old(SlotOf(id)), now))
    {
      var item := inflight[id];
      if id in pending || id in history || id in dead {
        if life == 0 {
          return Died, 0;
        }
        inflight := inflight - {id};
        return Done(false), life - 1;
      }
      if item.leaseUntil != 0 && item.leaseUntil > now {
        return Done(false), life;
      }
      var moved;
      moved, left := Transition(item.(state := Pending, updatedAt := now, leaseUntil := 0), life);
      r := if moved.Done? then Done(true) else Died;
    }

    /** A whole recovery pass over the inflight directory, cut off after `life` file operations. */
    method Recover(now: int, life: nat) returns (r: Result<nat>)
      requires Valid()
      modifies this
      ensures Valid()
      ensures r == Failed <==> now == 0
      ensures r == Failed ==> Files() == old(Files())
      ensures forall id :: RecoverCut(old(SlotOf(id)), SlotOf(id), now)
      ensures r.Done? ==> forall id :: SlotOf(id) == RecoverOp(old(SlotOf(id)), now, 2)
      ensures r.Done? ==> r.value == |AbandonedIds(old(Files()), old(inflight).Keys, now)|
      ensures r.Done? ==> LeasesRespected(old(Files()), Files(), now)
    {
      if now == 0 {
        return Failed;
      }
      var order := List(map id | id in inflight :: inflight[id].createdAt);
      var left := life;
      var i := 0;
      var recovered := 0;
      ghost var before := Files();
      PassStart(before, order, now);
      while i < |order|
        invariant Valid() && PassAt(before, Files(), order, i, recovered, now)
      {
        var id := order[i];
        PassNext(before, Files(), order, i, recovered, now);
        ghost var here := Files();
        var one;
        one, left := RecoverFile(id, now, left);
        if one.Died? {
          PassCut(before, here, Files(), order, i, recovered, now);
          return Died;
        }
        PassStep(before, here, Files(), order, i, recovered, now);
        if one.value {
          recovered := recovered + 1;
        }
        i := i + 1;
      }
      PassDone(before, Files(), order, recovered, now);
      return Done(recovered);
    }
  }

  // ---------------------------------------------------------------- recovery, file by file

  function CreatedAt(files: map<ReceiptId, OutboxItem>): map<ReceiptId, int> {
    map id | id in files :: files[id].createdAt
  }

  ghost function AbandonedIds(f: Directories, ids: set<ReceiptId>, now: int): set<ReceiptId> {
    set id | id in ids && Abandoned(SlotAt(f, id), now)
  }

  /** The files visited are recovered, the others are as they were. */
  ghost predicate PassSoFar(f: Directories, g: Directories, done: set<ReceiptId>, now: int) {
    && (forall id :: id in done ==> SlotAt(g, id) == RecoverOp(SlotAt(f, id), now, 2))
    && (forall id :: id !in done ==> SlotAt(g, id) == SlotAt(f, id))
  }

  /** The first i files of the listing are recovered and counted. */
  ghost predicate PassAt(f: Directories, g: Directories, order: seq<ReceiptId>, i: nat, recovered: nat, now: int) {
    && i <= |order| && IsListing(order, CreatedAt(f.inflight))
    && PassSoFar(f, g, Visited(order, i), now)
    && recovered == |AbandonedIds(f, Visited(order, i), now)|
  }

  lemma PassStart(f: Directories, order: seq<ReceiptId>, now: int)
    requires IsListing(order, CreatedAt(f.inflight))
    ensures PassAt(f, f, order, 0, 0, now)
  {
    assert AbandonedIds(f, Visited(order, 0), now) == {};
  }

  /** The next file of the listing is still there. */
  lemma PassNext(f: Directories, g: Directories, order: seq<ReceiptId>, i: nat, recovered: nat, now: int)
    requires PassAt(f, g, order, i, recovered, now) && i < |order|
    ensures order[i] in g.inflight && SlotAt(g, order[i]) == SlotAt(f, order[i])
  {
    VisitedNext(order, CreatedAt(f.inflight), i);
    assert SlotAt(f, order[i]).inflight.Some?;
  }

  lemma CountStep(f: Directories, done: set<ReceiptId>, id: ReceiptId, next: set<ReceiptId>, now: int)
    requires id !in done && next == done + {id}
    ensures |AbandonedIds(f, next, now)| == |AbandonedIds(f, done, now)| + if Abandoned(SlotAt(f, id), now) then 1 else 0
  {
    if Abandoned(SlotAt(f, id), now) {
      assert AbandonedIds(f, next, now) == AbandonedIds(f, done, now) + {id};
    } else {
      assert AbandonedIds(f, next, now) == AbandonedIds(f, done, now);
    }
  }

  lemma SoFarStep(f: Directories, g: Directories, h: Directories, done: set<ReceiptId>, id: ReceiptId, next: set<ReceiptId>, now: int)
    requires PassSoFar(f, g, done, now) && id !in done && next == done + {id} && OnlyChanges(g, h, id)
    requires SlotAt(h, id) == RecoverOp(SlotAt(g, id), now, 2)
    ensures PassSoFar(f, h, next, now)
  {
  }

  lemma PassStep(f: Directories, g: Directories, h: Directories, order: seq<ReceiptId>, i: nat, recovered: nat, now: int)
    requires PassAt(f, g, order, i, recovered, now) && i < |order| && OnlyChanges(g, h, order[i])
    requires SlotAt(h, order[i]) == RecoverOp(SlotAt(g, order[i]), now, 2)
    ensures PassAt(f, h, order, i + 1, if Abandoned(SlotAt(g, order[i]), now) then recovered + 1 else recovered, now)
  {
    VisitedNext(order, CreatedAt(f.inflight), i);
    SoFarStep(f, g, h, Visited(order, i), order[i], Visited(order, i + 1), now);
    CountStep(f, Visited(order, i), order[i], Visited(order, i + 1), now);
  }

  lemma PassCut(f: Directories, g: Directories, h: Directories, order: seq<ReceiptId>, i: nat, recovered: nat, now: int)
    requires PassAt(f, g, order, i, recovered, now) && i < |order| && OnlyChanges(g, h, order[i])
    requires RecoverCut(SlotAt(g, order[i]), SlotAt(h, order[i]), now)
    ensures forall other :: RecoverCut(SlotAt(f, other), SlotAt(h, other), now)
  {
    VisitedNext(order, CreatedAt(f.inflight), i);
    forall other ensures RecoverCut(SlotAt(f, other), SlotAt(h, other), now) {
      if other != order[i] {
        assert SlotAt(h, other) == SlotAt(g, other);
      }
    }
  }

  /** Files outside inflight need no recovery. */
  lemma PassDone(f: Directories, g: Directories, order: seq<ReceiptId>, recovered: nat, now: int)
    requires PassAt(f, g, order, |order|, recovered, now)
    ensures forall id :: SlotAt(g, id) == RecoverOp(SlotAt(f, id), now, 2)
    ensures recovered == |AbandonedIds(f, f.inflight.Keys, now)|
    ensures LeasesRespected(f, g, now)
  {
    VisitedAll(order, CreatedAt(f.inflight));
    assert CreatedAt(f.inflight).Keys == f.inflight.Keys;
    RecoverRespects(f, g, now);
  }

  /**
   * What a whole pass leaves: an item whose only copy is inflight stays inflight, untouched, exactly while
   * its lease runs; with no lease, or one that has run out, it is pending again; where another copy
   * settles the item the inflight file goes.
   */
  ghost predicate LeasesRespected(f: Directories, g: Directories, now: int) {
    forall id :: id in f.inflight ==>
      if id in f.pending || id in f.history || id in f.dead then id !in g.inflight
      else if f.inflight[id].leaseUntil > now && f.inflight[id].leaseUntil != 0 then
        id in g.inflight && g.inflight[id] == f.inflight[id] && id !in g.pending
      else
        && id !in g.inflight && id in g.pending && id !in g.history && id !in g.dead
        && g.pending[id] == f.inflight[id].(state := Pending, updatedAt := now, leaseUntil := 0)
  }

  lemma RecoverRespects(f: Directories, g: Directories, now: int)
    requires forall id :: SlotAt(g, id) == RecoverOp(SlotAt(f, id), now, 2)
    ensures LeasesRespected(f, g, now)
  {
    forall id | id in f.inflight ensures SlotAt(g, id) == RecoverOp(SlotAt(f, id), now, 2) {
    }
  }

  /** An inflight item with no other copy whose lease has run out: a recovery pass reopens it. */
  predicate Abandoned(s: OutboxSlot, now: int) {
    s.inflight.Some? && !Settled(s) && !LeaseHeld(s.inflight.value, now)
  }

  ghost predicate RecoverCut(s: OutboxSlot, t: OutboxSlot, now: int) {
    t == s || t == RecoverOp(s, now, 1) || t == RecoverOp(s, now, 2)
  }

  /**
   * What a claim may do: drop a ready pending file whose item is inflight, and write at
   * most one new inflight file, the claimed copy of a ready pending file.
   */
  ghost predicate ClaimEffect(
    pending: map<ReceiptId, OutboxItem>, inflight: map<ReceiptId, OutboxItem>,
    pending': map<ReceiptId, OutboxItem>, inflight': map<ReceiptId, OutboxItem>, now: int, lease: int)
  {
    && (forall id :: id in pending' ==> id in pending && pending'[id] == pending[id])
    && (forall id :: id in pending && id !in pending' ==> id in inflight' && Ready(pending[id], now))
    && (forall id :: id in inflight ==> id in inflight' && inflight'[id] == inflight[id])
    && (forall id :: id in inflight' && id !in inflight ==>
          id in pending && Ready(pending[id], now) && inflight'[id] == ClaimedItem(pending[id], now, lease))
    && (forall a, b :: a in inflight' && a !in inflight && b in inflight' && b !in inflight ==> a == b)
  }

  lemma ClaimEffectStep(
    pending0: map<ReceiptId, OutboxItem>, inflight: map<ReceiptId, OutboxItem>, pending: map<ReceiptId, OutboxItem>,
    now: int, lease: int, id: ReceiptId, life: nat)
    requires ClaimEffect(pending0, inflight, pending, inflight, now, lease)
    requires id in pending && Ready(pending[id], now)
    ensures ClaimEffect(pending0, inflight,
      if life < 2 then pending else pending - {id},
      if life == 0 || id in inflight then inflight else inflight[id := ClaimedItem(pending[id], now, lease)],
      now, lease)
  {
  }

  /** Item by item, a claim cut off anywhere is a claim of one slot cut off after no, one or both file operations. */
  lemma ClaimIsPerSlot(
    pending: map<ReceiptId, OutboxItem>, inflight: map<ReceiptId, OutboxItem>,
    pending': map<ReceiptId, OutboxItem>, inflight': map<ReceiptId, OutboxItem>,
    history: Option<OutboxItem>, dead: Option<OutboxItem>, now: int, lease: int, id: ReceiptId)
    requires ClaimEffect(pending, inflight, pending', inflight', now, lease)
    ensures exists life: nat ::
      Slot(Get(pending', id), Get(inflight', id), history, dead) ==
      ClaimOp(Slot(Get(pending, id), Get(inflight, id), history, dead), now, lease, life)
  {
    var s := Slot(Get(pending, id), Get(inflight, id), history, dead);
    var t := Slot(Get(pending', id), Get(inflight', id), history, dead);
    if t.pending != s.pending {
      assert t == ClaimOp(s, now, lease, 2);
    } else if t.inflight != s.inflight {
      assert t == ClaimOp(s, now, lease, 1);
    } else {
      assert t == ClaimOp(s, now, lease, 0);
    }
  }
}
