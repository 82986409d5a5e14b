/**
 * What becomes of a delivery that is not settled: exactly when the host can still publish
 * its receipt, and exactly when it can queue the delivery a second time after a clean-up.
 */
module Reopening {
  import opened Common
  import opened Protocol
  import opened Admission
  import R = Receipts
  import H = HostSafety

  // ---------------------------------------------------------------- the condition

  predicate AtNonce(h: R.Handler) {
    h.Lookup? || h.ReserveNonce? || h.CheckNonce? || h.DropNonce?
  }

  predicate BeforeEnqueue(h: R.Handler) {
    h.ReadCommitted? || h.ReadPending? || h.Enqueue?
  }

  /** A call with this reading of the clock comes too late for its nonce: its time is over, or it will be when the record expires. */
  ghost predicate Late(site: Site, pace: Pace, w: World, path: R.NoncePath, now: int) {
    && pace.Prompt?
    && (w.clock > now + pace.delay || (RecordAt(w, path).Some? && Expiry(site, RecordAt(w, path).value) > now + pace.delay))
  }

  /** A call of the first body that still gets to enqueue. */
  ghost predicate Carrying(site: Site, pace: Pace, w: World, body: Body, h: R.Handler) {
    && h.call.body == body && body.parsed.Some?
    && (BeforeEnqueue(h) || (AtNonce(h) && !Late(site, pace, w, PathOf(h.call), h.call.now)))
  }

  /** The last instant at which the body is admitted. */
  function LastChance(site: Site, body: Body): int
    requires body.parsed.Some?
  {
    body.parsed.value.sentAt + site.Skew()
  }

  function PathFor(peer: string, body: Body): R.NoncePath
    requires body.parsed.Some?
  {
    R.NoncePath(peer, body.parsed.value.nonce)
  }

  /** The body can arrive again, and get its nonce. */
  ghost predicate MayReturn(site: Site, pace: Pace, w: World, body: Body) {
    && body.parsed.Some? && w.clock <= LastChance(site, body)
    && exists p :: Sender(site, body, p) && !Late(site, pace, w, PathFor(p, body), LastChance(site, body))
  }

  ghost predicate Publishing(s: R.Host, id: ReceiptId) {
    exists h :: h in s.handlers && H.Works(s.handlers[h], id) && s.handlers[h].Publish?
  }

  /** An unpublished delivery that can still be published: its publication is under way, or a call of its first body is, or can be. */
  ghost predicate Alive(site: Site, pace: Pace, w: World, id: ReceiptId)
    requires id in w.host.first
  {
    || Publishing(w.host, id)
    || (exists h :: h in w.host.handlers && Carrying(site, pace, w, w.host.first[id], w.host.handlers[h]))
    || MayReturn(site, pace, w, w.host.first[id])
  }

  /** The delivery can be queued once more. */
  ghost predicate Reopens(site: Site, pace: Pace, w: World, id: ReceiptId)
    requires id in w.host.first
  {
    if id in w.host.disk.committed
    then exists h :: h in w.host.handlers && H.StillEnqueues(w.host, id, w.host.handlers[h])
    else Alive(site, pace, w, id)
  }

  // ---------------------------------------------------------------- a spent delivery

  ghost predicate Spent(site: Site, pace: Pace, w: World, id: ReceiptId) {
    id in w.host.first && id !in w.host.disk.committed && !Alive(site, pace, w, id)
  }

  lemma LateStays(site: Site, pace: Pace, w: World, l: Label, path: R.NoncePath, now: int)
    requires AdmissionInv(site, w) && StepOk(site, pace, w, l) && Late(site, pace, w, path, now)
    ensures Late(site, pace, After(site, w, l), path, now)
  {
    if w.clock <= now + pace.delay {
      RecordAfter(site, w, l, path);
      if RemovalBy(w, l).Removal? {
        RemovalTime(site, w, l);
      }
    }
  }

  lemma ReturnStays(site: Site, pace: Pace, w: World, l: Label, body: Body)
    requires AdmissionInv(site, w) && StepOk(site, pace, w, l) && body.parsed.Some? && !MayReturn(site, pace, w, body)
    ensures !MayReturn(site, pace, After(site, w, l), body)
  {
    var t := After(site, w, l);
    if p :| Sender(site, body, p) && !Late(site, pace, t, PathFor(p, body), LastChance(site, body)) {
      if w.clock <= LastChance(site, body) {
        LateStays(site, pace, w, l, PathFor(p, body), LastChance(site, body));
      }
    }
  }

  /** A call of a spent delivery makes a step: it changes nothing, and gets no further. */
  lemma SpentHandler(retention: int, d: R.Disk, h: R.Handler, newId: nat, id: ReceiptId, body: Body)
    requires H.Works(h, id) && id in d.pending && d.pending[id].digest == Digest(body) && id !in d.committed
    requires !h.Publish? && !h.Enqueue? && !h.Reread? && !h.Unlink? && !h.Accepted?
    requires h.call.body == body ==> !h.ReadCommitted? && !h.ReadPending?
    ensures var (t, next) := R.Step(retention, d, h, newId);
      && t.pending == d.pending && t.committed == d.committed && t.queue == d.queue && next.call == h.call
      && !next.Publish? && !next.Enqueue?
      && (h.call.body == body ==> !next.ReadPending? && (next.ReadCommitted? ==> h.ReserveNonce? && PathOf(h.call) !in d.nonces))
      && (AtNonce(next) ==> AtNonce(h))
  {
  }

  /** This call cannot reach the queue. */
  ghost predicate Stopped(site: Site, pace: Pace, w: World, body: Body, h: R.Handler) {
    && !h.Publish? && !h.Enqueue?
    && (h.call.body == body && body.parsed.Some? ==>
          !h.ReadCommitted? && !h.ReadPending? && (AtNonce(h) ==> Late(site, pace, w, PathOf(h.call), h.call.now)))
  }

  /** Nothing of this delivery can reach the queue. */
  ghost predicate Barred(site: Site, pace: Pace, w: World, id: ReceiptId, body: Body) {
    forall h :: h in w.host.handlers && H.Works(w.host.handlers[h], id) ==> Stopped(site, pace, w, body, w.host.handlers[h])
  }

  /** The delivery waits in its pending receipt. */
  ghost predicate Waits(s: R.Host, id: ReceiptId, body: Body) {
    && id in s.first && s.first[id] == body && body.parsed.Some? && ReceiptIdOf(body.parsed.value) == id
    && id !in s.disk.committed && id in s.disk.pending && s.disk.pending[id].digest == Digest(body)
  }

  lemma UnpublishedWaits(s: R.Host, id: ReceiptId)
    requires R.FirstInv(s.first, s.disk.pending, s.disk.committed) && id in s.first && id !in s.disk.committed
    ensures Waits(s, id, s.first[id])
  {
  }

  /** Where the calls of an unpublished delivery can be. */
  lemma WaitingStages(s: R.Host, h: nat, id: ReceiptId)
    requires R.HandlersInv(s) && h in s.handlers && H.Works(s.handlers[h], id) && id in s.first && id !in s.disk.committed
    ensures var own := s.handlers[h];
      !own.Reread? && !own.Unlink? && !own.Accepted? && (own.Enqueue? || own.Publish? ==> own.call.body == s.first[id])
  {
    assert R.HandlerOk(s.first, s.disk.committed, s.disk.queue.ever, s.handlers[h]);
  }

  lemma SpentIsBarred(site: Site, pace: Pace, w: World, id: ReceiptId)
    requires R.HandlersInv(w.host) && id in w.host.first && Waits(w.host, id, w.host.first[id])
    ensures Spent(site, pace, w, id) <==> Barred(site, pace, w, id, w.host.first[id]) && !MayReturn(site, pace, w, w.host.first[id])
  {
    var body := w.host.first[id];
    if Spent(site, pace, w, id) {
      forall h | h in w.host.handlers && H.Works(w.host.handlers[h], id) ensures Stopped(site, pace, w, body, w.host.handlers[h]) {
        WaitingStages(w.host, h, id);
        assert !Carrying(site, pace, w, body, w.host.handlers[h]);
      }
    }
    if Barred(site, pace, w, id, body) {
      forall h | h in w.host.handlers ensures !Carrying(site, pace, w, body, w.host.handlers[h]) {
        if w.host.handlers[h].call.body == body {
          assert H.Works(w.host.handlers[h], id);
        }
      }
    }
  }

  /** A stopped call does not get its nonce. */
  lemma StoppedReserves(site: Site, pace: Pace, w: World, h: nat, newId: nat, body: Body)
    requires StepOk(site, pace, w, Step(h, newId)) && w.host.handlers[h].ReserveNonce? && w.host.handlers[h].call.body == body && body.parsed.Some?
    requires Late(site, pace, w, PathOf(w.host.handlers[h].call), w.host.handlers[h].call.now)
    ensures PathOf(w.host.handlers[h].call) in w.host.disk.nonces
  {
    if PathOf(w.host.handlers[h].call) !in w.host.disk.nonces {
      assert Reserves(w, Step(h, newId), w.host.handlers[h].call);
    }
  }

  /** The next stage of a stopped call, and the files as it leaves them. */
  lemma StoppedStep(site: Site, pace: Pace, w: World, h: nat, newId: nat, id: ReceiptId, body: Body)
    requires StepOk(site, pace, w, Step(h, newId)) && H.Works(w.host.handlers[h], id) && Waits(w.host, id, body)
    requires var own := w.host.handlers[h]; Stopped(site, pace, w, body, own) && !own.Reread? && !own.Unlink? && !own.Accepted?
    ensures var (d, next) := R.Step(site.retention, w.host.disk, w.host.handlers[h], newId);
      && d.pending == w.host.disk.pending && d.committed == w.host.disk.committed && d.queue == w.host.disk.queue
      && next.call == w.host.handlers[h].call && !next.Publish? && !next.Enqueue?
      && (next.call.body == body ==> !next.ReadCommitted? && !next.ReadPending? && (AtNonce(next) ==> AtNonce(w.host.handlers[h])))
  {
    var own := w.host.handlers[h];
    if own.call.body == body && own.ReserveNonce? {
      StoppedReserves(site, pace, w, h, newId, body);
    }
    SpentHandler(site.retention, w.host.disk, own, newId, id, body);
  }

  /** A step leaves the receipts of a waiting delivery alone, unless its own call makes it. */
  lemma BarredFiles(site: Site, pace: Pace, w: World, h: nat, newId: nat, id: ReceiptId, body: Body)
    requires StepOk(site, pace, w, Step(h, newId)) && R.HandlersInv(w.host) && Waits(w.host, id, body) && Barred(site, pace, w, id, body)
    ensures id !in After(site, w, Step(h, newId)).host.disk.committed
  {
    if H.Works(w.host.handlers[h], id) {
      WaitingStages(w.host, h, id);
      StoppedStep(site, pace, w, h, newId, id, body);
    } else {
      H.OtherHandler(site.retention, w.host.disk, w.host.handlers[h], newId, id);
    }
  }

  lemma StoppedStays(site: Site, pace: Pace, w: World, l: Label, body: Body, own: R.Handler)
    requires AdmissionInv(site, w) && StepOk(site, pace, w, l) && Stopped(site, pace, w, body, own)
    ensures Stopped(site, pace, After(site, w, l), body, own)
  {
    if own.call.body == body && body.parsed.Some? && AtNonce(own) {
      LateStays(site, pace, w, l, PathOf(own.call), own.call.now);
    }
  }

  lemma StoppedNext(site: Site, pace: Pace, w: World, h: nat, newId: nat, id: ReceiptId, body: Body)
    requires AdmissionInv(site, w) && StepOk(site, pace, w, Step(h, newId)) && R.HandlersInv(w.host) && H.Works(w.host.handlers[h], id)
    requires Waits(w.host, id, body) && Barred(site, pace, w, id, body)
    ensures var t := After(site, w, Step(h, newId)); Stopped(site, pace, t, body, R.Step(site.retention, w.host.disk, w.host.handlers[h], newId).1)
  {
    var own := w.host.handlers[h];
    WaitingStages(w.host, h, id);
    StoppedStep(site, pace, w, h, newId, id, body);
    StoppedStays(site, pace, w, Step(h, newId), body, own);
  }

  lemma BarredStep(site: Site, pace: Pace, w: World, h: nat, newId: nat, id: ReceiptId, body: Body)
    requires AdmissionInv(site, w) && StepOk(site, pace, w, Step(h, newId)) && R.HandlersInv(w.host)
    requires Waits(w.host, id, body) && Barred(site, pace, w, id, body)
    ensures Barred(site, pace, After(site, w, Step(h, newId)), id, body)
  {
    var t := After(site, w, Step(h, newId));
    StepKeepsCall(site, w, h, newId);
    forall g | g in t.host.handlers && H.Works(t.host.handlers[g], id) ensures Stopped(site, pace, t, body, t.host.handlers[g]) {
      if g == h {
        StoppedNext(site, pace, w, h, newId, id, body);
      } else {
        StoppedStays(site, pace, w, Step(h, newId), body, w.host.handlers[g]);
      }
    }
  }

  lemma BarredArrive(site: Site, pace: Pace, w: World, h: nat, request: R.Request, id: ReceiptId, body: Body)
    requires AdmissionInv(site, w) && StepOk(site, pace, w, Arrive(h, request)) && body.parsed.Some?
    requires Barred(site, pace, w, id, body) && !MayReturn(site, pace, w, body)
    ensures Barred(site, pace, After(site, w, Arrive(h, request)), id, body)
  {
    AdmittedIsSender(site, request, w.clock);
    var t := After(site, w, Arrive(h, request));
    if request.body == body {
      assert Late(site, pace, w, PathFor(request.keyId, body), LastChance(site, body));
    }
    forall g | g in t.host.handlers && H.Works(t.host.handlers[g], id) ensures Stopped(site, pace, t, body, t.host.handlers[g]) {
      if g != h {
        StoppedStays(site, pace, w, Arrive(h, request), body, w.host.handlers[g]);
      }
    }
  }

  lemma BarredQuiet(site: Site, pace: Pace, w: World, l: Label, id: ReceiptId, body: Body)
    requires AdmissionInv(site, w) && StepOk(site, pace, w, l) && !l.Step? && !l.Arrive? && Barred(site, pace, w, id, body)
    ensures Barred(site, pace, After(site, w, l), id, body)
  {
    var t := After(site, w, l);
    forall g | g in t.host.handlers && H.Works(t.host.handlers[g], id) ensures Stopped(site, pace, t, body, t.host.handlers[g]) {
      StoppedStays(site, pace, w, l, body, w.host.handlers[g]);
    }
  }

  lemma BarredAfter(site: Site, pace: Pace, w: World, l: Label, id: ReceiptId, body: Body)
    requires AdmissionInv(site, w) && R.HandlersInv(w.host) && StepOk(site, pace, w, l)
    requires Waits(w.host, id, body) && Barred(site, pace, w, id, body) && !MayReturn(site, pace, w, body)
    ensures Barred(site, pace, After(site, w, l), id, body)
  {
    match l
    case Step(h, newId) => BarredStep(site, pace, w, h, newId, id, body);
    case Arrive(h, request) => BarredArrive(site, pace, w, h, request, id, body);
    case _ => BarredQuiet(site, pace, w, l, id, body);
  }

  /** Only steps of calls publish receipts or queue items. */
  lemma OnlySteps(site: Site, w: World, l: Label)
    requires Enabled(site, w, l) && !l.Step?
    ensures After(site, w, l).host.disk.committed == w.host.disk.committed && After(site, w, l).host.disk.queue.ever == w.host.disk.queue.ever
  {
  }

  lemma UnpublishedAfter(site: Site, pace: Pace, w: World, l: Label, id: ReceiptId, body: Body)
    requires R.HandlersInv(w.host) && StepOk(site, pace, w, l) && Waits(w.host, id, body) && Barred(site, pace, w, id, body)
    ensures id !in After(site, w, l).host.disk.committed
  {
    if l.Step? {
      BarredFiles(site, pace, w, l.h, l.newId, id, body);
    } else {
      OnlySteps(site, w, l);
    }
  }

  lemma FirstStays(site: Site, w: World, l: Label, id: ReceiptId)
    requires Inv(site, w) && Enabled(site, w, l) && id in w.host.first
    ensures var t := After(site, w, l);
      Inv(site, t) && R.HandlersInv(t.host) && R.HandlersInv(w.host) && id in t.host.first && t.host.first[id] == w.host.first[id]
    ensures id !in w.host.disk.committed ==> Waits(w.host, id, w.host.first[id])
    ensures id !in After(site, w, l).host.disk.committed ==> Waits(After(site, w, l).host, id, w.host.first[id])
  {
    InvStep(site, w, l);
    HostStep(site, w, l);
    if id !in w.host.disk.committed {
      UnpublishedWaits(w.host, id);
    }
    if id !in After(site, w, l).host.disk.committed {
      UnpublishedWaits(After(site, w, l).host, id);
    }
  }

  /** A spent delivery stays spent: it is never published. */
  lemma SpentStep(site: Site, pace: Pace, w: World, l: Label, id: ReceiptId)
    requires Inv(site, w) && StepOk(site, pace, w, l) && Spent(site, pace, w, id)
    ensures Spent(site, pace, After(site, w, l), id)
  {
    var body := w.host.first[id];
    FirstStays(site, w, l, id);
    SpentIsBarred(site, pace, w, id);
    BarredAfter(site, pace, w, l, id, body);
    UnpublishedAfter(site, pace, w, l, id, body);
    ReturnStays(site, pace, w, l, body);
    SpentIsBarred(site, pace, After(site, w, l), id);
  }

  lemma StoppedEnqueues(w: World, h: nat, newId: nat, key: Key, retention: int)
    requires R.CanRun(w.host, h, newId) && key.Delivery? && R.Carries(w.host.handlers[h].call.body)
    requires w.host.handlers[h].Enqueue? ==> !H.Works(w.host.handlers[h], H.IdFor(key))
    ensures H.NoNewItem(w.host.disk.queue.ever, R.RunOne(retention, w.host, h, newId).disk.queue.ever, key)
  {
    R.StepFrame(retention, w.host.disk, w.host.handlers[h], newId);
  }

  /** A barred delivery gains no item. */
  lemma BarredGains(site: Site, w: World, l: Label, key: Key, pace: Pace)
    requires R.HandlersInv(w.host) && Enabled(site, w, l) && key.Delivery? && H.IdFor(key) in w.host.first
    requires Barred(site, pace, w, H.IdFor(key), w.host.first[H.IdFor(key)])
    ensures H.NoNewItem(w.host.disk.queue.ever, After(site, w, l).host.disk.queue.ever, key)
  {
    if l.Step? {
      BarredGainsNothing(site, pace, w, l.h, l.newId, key);
    } else {
      OnlySteps(site, w, l);
    }
  }

  lemma SpentBars(site: Site, pace: Pace, w: World, id: ReceiptId)
    requires Inv(site, w) && Spent(site, pace, w, id)
    ensures R.HandlersInv(w.host) && Barred(site, pace, w, id, w.host.first[id])
  {
    UnpublishedWaits(w.host, id);
    SpentIsBarred(site, pace, w, id);
  }

  lemma BarredGainsNothing(site: Site, pace: Pace, w: World, h: nat, newId: nat, key: Key)
    requires R.HandlersInv(w.host) && R.CanRun(w.host, h, newId) && key.Delivery? && H.IdFor(key) in w.host.first
    requires Barred(site, pace, w, H.IdFor(key), w.host.first[H.IdFor(key)])
    ensures H.NoNewItem(w.host.disk.queue.ever, R.RunOne(site.retention, w.host, h, newId).disk.queue.ever, key)
  {
    assert R.HandlerOk(w.host.first, w.host.disk.committed, w.host.disk.queue.ever, w.host.handlers[h]);
    StoppedEnqueues(w, h, newId, key, site.retention);
  }

  lemma {:induction false} SpentPath(site: Site, pace: Pace, w: World, ls: seq<Label>, t: World, key: Key)
    requires Inv(site, w) && Path(site, pace, w, ls, t) && key.Delivery? && Spent(site, pace, w, H.IdFor(key))
    ensures Spent(site, pace, t, H.IdFor(key)) && H.NoNewItem(w.host.disk.queue.ever, t.host.disk.queue.ever, key)
    decreases |ls|
  {
    if ls != [] {
      var u := After(site, w, ls[0]);
      SpentStep(site, pace, w, ls[0], H.IdFor(key));
      SpentBars(site, pace, w, H.IdFor(key));
      BarredGains(site, w, ls[0], key, pace);
      InvStep(site, w, ls[0]);
      SpentPath(site, pace, u, ls[1..], t, key);
      H.NoNewAgain(w.host.disk.queue.ever, u.host.disk.queue.ever, t.host.disk.queue.ever, key);
    }
  }

  // ---------------------------------------------------------------- a delivery that is alive

  lemma {:induction false} Above(numbers: set<nat>) returns (n: nat)
    ensures n !in numbers && forall m :: m in numbers ==> m < n
    decreases numbers
  {
    if numbers == {} {
      n := 0;
    } else {
      var m :| m in numbers;
      var rest := numbers - {m};
      var above := Above(rest);
      n := if above <= m then m + 1 else above;
      assert forall x :: x in numbers ==> x == m || x in rest;
    }
  }

  function Later(a: int, b: int): int {
    if a < b then b else a
  }

  /** The world without the record of one nonce, at a later time. */
  function Pruned(w: World, path: R.NoncePath, clock: int): World {
    w.(clock := clock, host := w.host.(disk := w.host.disk.(nonces := w.host.disk.nonces - {path})))
  }

  lemma PruneSteps(site: Site, pace: Pace, w: World, path: R.NoncePath, c: nat)
    requires w.clock > 0 && c !in w.cleaners && RecordAt(w, path).Some? && Expiry(site, RecordAt(w, path).value) <= w.clock
    ensures Path(site, pace, w, [Judge(c, path, w.clock), Remove(c)], Pruned(w, path, w.clock))
  {
    var u := After(site, w, Judge(c, path, w.clock));
    var t := After(site, u, Remove(c));
    assert t.host.disk.nonces == w.host.disk.nonces - {path};
    assert t.cleaners == w.cleaners;
    assert t == Pruned(w, path, w.clock);
    TwoSteps(site, pace, w, Judge(c, path, w.clock), u, Remove(c), t);
  }

  /** Waiting until the record has expired and cleaning it up. */
  lemma Prune(site: Site, pace: Pace, w: World, path: R.NoncePath) returns (ls: seq<Label>, clock: int)
    requires w.clock > 0
    ensures clock == if RecordAt(w, path).Some? then Later(w.clock, Expiry(site, RecordAt(w, path).value)) else w.clock
    ensures Path(site, pace, w, ls, Pruned(w, path, clock))
  {
    clock := w.clock;
    if RecordAt(w, path).None? {
      ls := [];
      assert w.host.disk.nonces - {path} == w.host.disk.nonces;
    } else {
      clock := Later(w.clock, Expiry(site, RecordAt(w, path).value));
      var u := w.(clock := clock);
      OneStep(site, pace, w, Tick(clock), u);
      var c := Above(w.cleaners.Keys);
      PruneSteps(site, pace, u, path, c);
      PathAppend(site, pace, w, [Tick(clock)], u, [Judge(c, path, clock), Remove(c)], Pruned(w, path, clock));
      ls := [Tick(clock)] + [Judge(c, path, clock), Remove(c)];
    }
  }

  /** A call of the first body with nothing in its way. */
  ghost predicate OnItsWay(pace: Pace, w: World, h: nat, id: ReceiptId, body: Body) {
    && h in w.host.handlers && w.host.handlers[h].call.body == body && Waits(w.host, id, body) && body.parsed.value.event.metadataOnly
    && var own := w.host.handlers[h];
       || BeforeEnqueue(own)
       || (AtNonce(own) && PathOf(own.call) !in w.host.disk.nonces && (pace.Prompt? ==> w.clock <= own.call.now + pace.delay))
  }

  function StagesLeft(h: R.Handler): nat {
    match h
    case CheckNonce(_) => 6
    case DropNonce(_) => 5
    case Lookup(_) => 5
    case ReserveNonce(_) => 4
    case ReadCommitted(_) => 3
    case ReadPending(_) => 2
    case _ => 1
  }

  lemma OnItsWayStep(site: Site, pace: Pace, w: World, h: nat, newId: nat, id: ReceiptId, body: Body)
    requires OnItsWay(pace, w, h, id, body) && R.CanRun(w.host, h, newId) && !w.host.handlers[h].Enqueue?
    ensures StepOk(site, pace, w, Step(h, newId))
    ensures var t := After(site, w, Step(h, newId));
      && OnItsWay(pace, t, h, id, body) && StagesLeft(t.host.handlers[h]) < StagesLeft(w.host.handlers[h])
      && t.host.disk.queue == w.host.disk.queue
  {
  }

  /** It gets to its enqueue. */
  lemma {:induction false} GetsThere(site: Site, pace: Pace, w: World, h: nat, id: ReceiptId, body: Body) returns (ls: seq<Label>, t: World)
    requires OnItsWay(pace, w, h, id, body)
    ensures Path(site, pace, w, ls, t) && OnItsWay(pace, t, h, id, body) && t.host.handlers[h].Enqueue? && t.host.disk.queue == w.host.disk.queue
    decreases StagesLeft(w.host.handlers[h])
  {
    if w.host.handlers[h].Enqueue? {
      ls, t := [], w;
    } else {
      var newId := H.FreshRun(w.host, h);
      OnItsWayStep(site, pace, w, h, newId, id, body);
      var u := After(site, w, Step(h, newId));
      OneStep(site, pace, w, Step(h, newId), u);
      ls, t := GetsThere(site, pace, u, h, id, body);
      PathAppend(site, pace, w, [Step(h, newId)], u, ls, t);
      ls := [Step(h, newId)] + ls;
    }
  }

  /** A call that is not late gets there: its nonce is cleaned up in time. */
  lemma CarryingGetsThere(site: Site, pace: Pace, w: World, h: nat, id: ReceiptId, body: Body) returns (ls: seq<Label>, t: World)
    requires w.clock > 0 && h in w.host.handlers && Waits(w.host, id, body) && body.parsed.value.event.metadataOnly
    requires Carrying(site, pace, w, body, w.host.handlers[h])
    ensures Path(site, pace, w, ls, t) && OnItsWay(pace, t, h, id, body) && t.host.handlers[h].Enqueue? && t.host.disk.queue == w.host.disk.queue
  {
    if BeforeEnqueue(w.host.handlers[h]) {
      ls, t := GetsThere(site, pace, w, h, id, body);
    } else {
      var path := PathOf(w.host.handlers[h].call);
      var before, clock := Prune(site, pace, w, path);
      var u := Pruned(w, path, clock);
      assert OnItsWay(pace, u, h, id, body);
      ls, t := GetsThere(site, pace, u, h, id, body);
      PathAppend(site, pace, w, before, u, ls, t);
      ls := before + ls;
    }
  }

  lemma ArriveStep(site: Site, pace: Pace, w: World, h: nat, body: Body, peer: string) returns (t: World)
    requires w.clock > 0 && h !in w.host.handlers && Sender(site, body, peer) && WithinSkew(Decode(body).value.sentAt, w.clock, site.maxSkew)
    ensures Path(site, pace, w, [Arrive(h, RequestFor(site, body, peer))], t)
    ensures t == w.(host := w.host.(handlers := w.host.handlers[h := R.Lookup(R.Call(peer, body, w.clock))]))
  {
    SenderIsAdmitted(site, body, peer, w.clock);
    t := After(site, w, Arrive(h, RequestFor(site, body, peer)));
    OneStep(site, pace, w, Arrive(h, RequestFor(site, body, peer)), t);
  }

  /** The body arrives at the last moment at which it is admitted. */
  lemma ReturningCarries(site: Site, pace: Pace, w: World, id: ReceiptId, body: Body) returns (ls: seq<Label>, t: World, h: nat)
    requires w.clock > 0 && Waits(w.host, id, body) && MayReturn(site, pace, w, body)
    ensures Path(site, pace, w, ls, t) && t.clock > 0 && h in t.host.handlers && Waits(t.host, id, body) && t.host.disk == w.host.disk
    ensures Carrying(site, pace, t, body, t.host.handlers[h])
  {
    var p :| Sender(site, body, p) && !Late(site, pace, w, PathFor(p, body), LastChance(site, body));
    var u := w.(clock := LastChance(site, body));
    OneStep(site, pace, w, Tick(u.clock), u);
    h := Above(w.host.handlers.Keys);
    t := ArriveStep(site, pace, u, h, body, p);
    var arrive := [Arrive(h, RequestFor(site, body, p))];
    PathAppend(site, pace, w, [Tick(u.clock)], u, arrive, t);
    ls := [Tick(u.clock)] + arrive;
  }

  // ---------------------------------------------------------------- publishing

  /** Some continuation publishes the receipt. */
  ghost predicate CanPublish(site: Site, pace: Pace, w: World, id: ReceiptId) {
    exists ls, t :: PublishesBy(site, pace, w, ls, t, id)
  }

  ghost predicate PublishesBy(site: Site, pace: Pace, w: World, ls: seq<Label>, t: World, id: ReceiptId) {
    Path(site, pace, w, ls, t) && id in t.host.disk.committed
  }

  lemma PublisherPublishes(site: Site, pace: Pace, w: World, h: nat, id: ReceiptId) returns (ls: seq<Label>, t: World)
    requires h in w.host.handlers && H.Works(w.host.handlers[h], id) && w.host.handlers[h].Publish?
    ensures PublishesBy(site, pace, w, ls, t, id)
  {
    var newId := H.FreshRun(w.host, h);
    t := After(site, w, Step(h, newId));
    ls := [Step(h, newId)];
    OneStep(site, pace, w, Step(h, newId), t);
  }

  lemma EnqueuerPublishes(site: Site, pace: Pace, w: World, h: nat, id: ReceiptId) returns (ls: seq<Label>, t: World)
    requires h in w.host.handlers && H.Works(w.host.handlers[h], id) && w.host.handlers[h].Enqueue?
    ensures PublishesBy(site, pace, w, ls, t, id)
  {
    var newId := H.FreshRun(w.host, h);
    var u := After(site, w, Step(h, newId));
    OneStep(site, pace, w, Step(h, newId), u);
    ls, t := PublisherPublishes(site, pace, u, h, id);
    PathAppend(site, pace, w, [Step(h, newId)], u, ls, t);
    ls := [Step(h, newId)] + ls;
  }

  lemma CarryingPublishes(site: Site, pace: Pace, w: World, h: nat, id: ReceiptId, body: Body) returns (ls: seq<Label>, t: World)
    requires w.clock > 0 && h in w.host.handlers && Waits(w.host, id, body) && body.parsed.value.event.metadataOnly
    requires Carrying(site, pace, w, body, w.host.handlers[h])
    ensures PublishesBy(site, pace, w, ls, t, id)
  {
    var before, u := CarryingGetsThere(site, pace, w, h, id, body);
    ls, t := EnqueuerPublishes(site, pace, u, h, id);
    PathAppend(site, pace, w, before, u, ls, t);
    ls := before + ls;
  }

  lemma AlivePublishes(site: Site, pace: Pace, w: World, id: ReceiptId, body: Body) returns (ls: seq<Label>, t: World)
    requires w.clock > 0 && id in w.host.first && body == w.host.first[id] && Waits(w.host, id, body) && body.parsed.value.event.metadataOnly
    requires Alive(site, pace, w, id)
    ensures PublishesBy(site, pace, w, ls, t, id)
  {
    if Publishing(w.host, id) {
      var h :| h in w.host.handlers && H.Works(w.host.handlers[h], id) && w.host.handlers[h].Publish?;
      ls, t := PublisherPublishes(site, pace, w, h, id);
    } else if h :| h in w.host.handlers && Carrying(site, pace, w, body, w.host.handlers[h]) {
      ls, t := CarryingPublishes(site, pace, w, h, id, body);
    } else {
      var before, u, h := ReturningCarries(site, pace, w, id, body);
      ls, t := CarryingPublishes(site, pace, u, h, id, body);
      PathAppend(site, pace, w, before, u, ls, t);
      ls := before + ls;
    }
  }

  lemma KnownBody(site: Site, w: World, id: ReceiptId)
    requires Inv(site, w) && id in w.host.first && id !in w.host.disk.committed
    ensures Waits(w.host, id, w.host.first[id]) && w.host.first[id].parsed.value.event.metadataOnly && w.clock > 0
    ensures id.key.Delivery? && H.IdFor(id.key) == id && HasSender(site, w.host.first[id])
  {
    UnpublishedWaits(w.host, id);
  }

  lemma PublishedAt(site: Site, pace: Pace, w: World, id: ReceiptId)
    requires Inv(site, w) && id in w.host.first && id !in w.host.disk.committed
    ensures CanPublish(site, pace, w, id) <==> Alive(site, pace, w, id)
  {
    KnownBody(site, w, id);
    if Alive(site, pace, w, id) {
      var ls, t := AlivePublishes(site, pace, w, id, w.host.first[id]);
    } else {
      forall ls, t | Path(site, pace, w, ls, t) ensures id !in t.host.disk.committed {
        SpentPath(site, pace, w, ls, t, id.key);
      }
    }
  }

  /**
   * In every reachable world and at either pace: an unpublished delivery is published in
   * some continuation if and only if it is alive. A delivery that is not is refused for good.
   */
  lemma PublishedIffAlive(site: Site, pace: Pace, ws: seq<World>, ls: seq<Label>, n: nat, id: ReceiptId)
    requires IsRun(site, Free, ws, ls) && n < |ws| && id in ws[n].host.first && id !in ws[n].host.disk.committed
    ensures CanPublish(site, pace, ws[n], id) <==> Alive(site, pace, ws[n], id)
  {
    RunInv(site, Free, ws, ls, n);
    PublishedAt(site, pace, ws[n], id);
  }

  // ---------------------------------------------------------------- queueing once more

  /** Some continuation queues an item for the key that was not there. */
  ghost predicate CanGain(site: Site, pace: Pace, w: World, had: set<R.Item>, key: Key) {
    exists ls, t :: GainsBy(site, pace, w, ls, t, had, key)
  }

  ghost predicate GainsBy(site: Site, pace: Pace, w: World, ls: seq<Label>, t: World, had: set<R.Item>, key: Key) {
    Path(site, pace, w, ls, t) && !H.NoNewItem(had, t.host.disk.queue.ever, key)
  }

  lemma GainsAfter(site: Site, pace: Pace, w: World, before: seq<Label>, u: World, ls: seq<Label>, t: World, had: set<R.Item>, key: Key)
    requires Path(site, pace, w, before, u) && GainsBy(site, pace, u, ls, t, had, key)
    ensures GainsBy(site, pace, w, before + ls, t, had, key)
  {
    PathAppend(site, pace, w, before, u, ls, t);
  }

  lemma PastNonceStep(site: Site, pace: Pace, w: World, h: nat, newId: nat)
    requires R.CanRun(w.host, h, newId) && H.PastNonce(w.host.handlers[h])
    ensures StepOk(site, pace, w, Step(h, newId)) && After(site, w, Step(h, newId)).host == R.RunOne(site.retention, w.host, h, newId)
  {
  }

  /** What calls past their nonce can do, they can do here. */
  lemma {:induction false} HandlersGain(site: Site, pace: Pace, w: World, had: set<R.Item>, key: Key, fuel: nat) returns (ls: seq<Label>, t: World)
    requires H.Gains(site.retention, w.host, had, key, fuel)
    ensures GainsBy(site, pace, w, ls, t, had, key)
    decreases fuel
  {
    if !H.NoNewItem(had, w.host.disk.queue.ever, key) {
      ls, t := [], w;
    } else {
      var h, newId :| R.CanRun(w.host, h, newId) && H.PastNonce(w.host.handlers[h])
        && H.Gains(site.retention, R.RunOne(site.retention, w.host, h, newId), had, key, fuel - 1);
      PastNonceStep(site, pace, w, h, newId);
      var u := After(site, w, Step(h, newId));
      OneStep(site, pace, w, Step(h, newId), u);
      ls, t := HandlersGain(site, pace, u, had, key, fuel - 1);
      GainsAfter(site, pace, w, [Step(h, newId)], u, ls, t, had, key);
      ls := [Step(h, newId)] + ls;
    }
  }

  /** A call of the first body that gets to its enqueue queues an item, when none is live. */
  lemma CarryingGains(site: Site, pace: Pace, w: World, h: nat, key: Key, body: Body) returns (ls: seq<Label>, t: World)
    requires w.clock > 0 && h in w.host.handlers && key.Delivery? && Waits(w.host, H.IdFor(key), body) && body.parsed.value.event.metadataOnly
    requires Carrying(site, pace, w, body, w.host.handlers[h]) && key !in w.host.disk.queue.live
    ensures GainsBy(site, pace, w, ls, t, w.host.disk.queue.ever, key)
  {
    var had := w.host.disk.queue.ever;
    var before, u := CarryingGetsThere(site, pace, w, h, H.IdFor(key), body);
    H.EnqueueGains(site.retention, u.host, h, had, key);
    ls, t := HandlersGain(site, pace, u, had, key, 1);
    GainsAfter(site, pace, w, before, u, ls, t, had, key);
    ls := before + ls;
  }

  // A publication under way, and another body of the delivery that slips in before it.

  /** Another body of the delivery, sent now. */
  function AnotherBody(body: Body, now: int): Body
    requires body.parsed.Some?
  {
    Body(1, 0, Some(body.parsed.value.(sentAt := now)))
  }

  lemma AnotherIsSent(site: Site, body: Body, peer: string, now: int)
    requires Sender(site, body, peer) && body.parsed.Some? && now > 0
    ensures var b := AnotherBody(body, now);
      && Sender(site, b, peer) && b.parsed.Some? && Decode(b) == b.parsed
      && ReceiptIdOf(b.parsed.value) == ReceiptIdOf(body.parsed.value)
      && WithinSkew(Decode(b).value.sentAt, now, site.maxSkew)
  {
  }

  /** A new call of the delivery on its way to the pending receipt. */
  ghost predicate Nearing(pace: Pace, w: World, h: nat, id: ReceiptId) {
    && h in w.host.handlers && H.Works(w.host.handlers[h], id) && id !in w.host.disk.committed
    && var own := w.host.handlers[h];
       && R.EnvelopeOf(own.call).event.metadataOnly
       && (|| own.ReadCommitted? || own.ReadPending?
           || ((own.Lookup? || own.ReserveNonce?) && PathOf(own.call) !in w.host.disk.nonces && (pace.Prompt? ==> w.clock <= own.call.now + pace.delay)))
  }

  lemma NearingStep(site: Site, pace: Pace, w: World, h: nat, newId: nat, id: ReceiptId)
    requires Nearing(pace, w, h, id) && R.CanRun(w.host, h, newId) && !w.host.handlers[h].ReadPending?
    ensures StepOk(site, pace, w, Step(h, newId))
    ensures var t := After(site, w, Step(h, newId));
      && Nearing(pace, t, h, id) && StagesLeft(t.host.handlers[h]) < StagesLeft(w.host.handlers[h])
      && t.host.disk.queue == w.host.disk.queue && t.host.handlers == w.host.handlers[h := t.host.handlers[h]]
  {
  }

  lemma {:induction false} Nears(site: Site, pace: Pace, w: World, h: nat, id: ReceiptId) returns (ls: seq<Label>, t: World)
    requires Nearing(pace, w, h, id)
    ensures Path(site, pace, w, ls, t) && Nearing(pace, t, h, id) && t.host.handlers[h].ReadPending? && t.host.disk.queue == w.host.disk.queue
    ensures forall g :: g in w.host.handlers && g != h ==> g in t.host.handlers && t.host.handlers[g] == w.host.handlers[g]
    decreases StagesLeft(w.host.handlers[h])
  {
    if w.host.handlers[h].ReadPending? {
      ls, t := [], w;
    } else {
      var newId := H.FreshRun(w.host, h);
      NearingStep(site, pace, w, h, newId, id);
      var u := After(site, w, Step(h, newId));
      OneStep(site, pace, w, Step(h, newId), u);
      ls, t := Nears(site, pace, u, h, id);
      PathAppend(site, pace, w, [Step(h, newId)], u, ls, t);
      ls := [Step(h, newId)] + ls;
    }
  }

  /** A new body of the delivery arrives when its nonce is free. */
  lemma AnotherArrives(site: Site, pace: Pace, w: World, id: ReceiptId, body: Body, peer: string) returns (ls: seq<Label>, t: World, h: nat)
    requires w.clock > 0 && Sender(site, body, peer) && Waits(w.host, id, body) && body.parsed.value.event.metadataOnly
    ensures Path(site, pace, w, ls, t) && Nearing(pace, t, h, id) && h !in w.host.handlers && t.host.disk.queue == w.host.disk.queue
    ensures forall g :: g in w.host.handlers ==> g in t.host.handlers && t.host.handlers[g] == w.host.handlers[g]
  {
    var path := PathFor(peer, body);
    var before, clock := Prune(site, pace, w, path);
    var u := Pruned(w, path, clock);
    AnotherIsSent(site, body, peer, clock);
    var b := AnotherBody(body, clock);
    h := Above(w.host.handlers.Keys);
    t := ArriveStep(site, pace, u, h, b, peer);
    var arrive := [Arrive(h, RequestFor(site, b, peer))];
    PathAppend(site, pace, w, before, u, arrive, t);
    ls := before + arrive;
  }

  /** The publication is completed, and the waiting call then finds no pending receipt. */
  lemma PublisherLetsIn(site: Site, pace: Pace, w: World, g: nat, h: nat, key: Key) returns (ls: seq<Label>, t: World)
    requires key.Delivery? && g in w.host.handlers && H.Works(w.host.handlers[g], H.IdFor(key)) && w.host.handlers[g].Publish? && g != h
    requires w.host.handlers[g].receipt.digest == Digest(w.host.handlers[g].call.body)
    requires h in w.host.handlers && H.Works(w.host.handlers[h], H.IdFor(key)) && w.host.handlers[h].ReadPending?
    requires key !in w.host.disk.queue.live && H.IdFor(key) !in w.host.disk.committed
    ensures GainsBy(site, pace, w, ls, t, w.host.disk.queue.ever, key)
  {
    var had := w.host.disk.queue.ever;
    var newId := H.FreshRun(w.host, g);
    PastNonceStep(site, pace, w, g, newId);
    var u := After(site, w, Step(g, newId));
    OneStep(site, pace, w, Step(g, newId), u);
    H.UnlinkerGains(site.retention, u.host, g, h, had, key);
    ls, t := HandlersGain(site, pace, u, had, key, 3 + H.StepsToUnlink(u.host.handlers[g]));
    GainsAfter(site, pace, w, [Step(g, newId)], u, ls, t, had, key);
    ls := [Step(g, newId)] + ls;
  }

  lemma PublishingGains(site: Site, pace: Pace, w: World, g: nat, key: Key, body: Body, peer: string) returns (ls: seq<Label>, t: World)
    requires w.clock > 0 && Sender(site, body, peer) && key.Delivery? && Waits(w.host, H.IdFor(key), body) && body.parsed.value.event.metadataOnly
    requires g in w.host.handlers && H.Works(w.host.handlers[g], H.IdFor(key)) && w.host.handlers[g].Publish?
    requires w.host.handlers[g].receipt.digest == Digest(w.host.handlers[g].call.body) && key !in w.host.disk.queue.live
    ensures GainsBy(site, pace, w, ls, t, w.host.disk.queue.ever, key)
  {
    var had := w.host.disk.queue.ever;
    var first, u, h := AnotherArrives(site, pace, w, H.IdFor(key), body, peer);
    var second, v := Nears(site, pace, u, h, H.IdFor(key));
    PathAppend(site, pace, w, first, u, second, v);
    ls, t := PublisherLetsIn(site, pace, v, g, h, key);
    GainsAfter(site, pace, w, first + second, v, ls, t, had, key);
    ls := first + second + ls;
  }

  lemma PublisherReceipt(s: R.Host, g: nat)
    requires R.HandlersInv(s) && g in s.handlers && s.handlers[g].Publish?
    ensures s.handlers[g].receipt.digest == Digest(s.handlers[g].call.body)
  {
    assert R.HandlerOk(s.first, s.disk.committed, s.disk.queue.ever, s.handlers[g]);
  }

  lemma AliveGains(site: Site, pace: Pace, w: World, key: Key, body: Body) returns (ls: seq<Label>, t: World)
    requires w.clock > 0 && R.HandlersInv(w.host) && key.Delivery? && H.IdFor(key) in w.host.first && body == w.host.first[H.IdFor(key)]
    requires Waits(w.host, H.IdFor(key), body) && body.parsed.value.event.metadataOnly && HasSender(site, body)
    requires Alive(site, pace, w, H.IdFor(key)) && key !in w.host.disk.queue.live
    ensures GainsBy(site, pace, w, ls, t, w.host.disk.queue.ever, key)
  {
    var id := H.IdFor(key);
    if Publishing(w.host, id) {
      var g :| g in w.host.handlers && H.Works(w.host.handlers[g], id) && w.host.handlers[g].Publish?;
      var p :| Sender(site, body, p);
      PublisherReceipt(w.host, g);
      ls, t := PublishingGains(site, pace, w, g, key, body, p);
    } else if h :| h in w.host.handlers && Carrying(site, pace, w, body, w.host.handlers[h]) {
      ls, t := CarryingGains(site, pace, w, h, key, body);
    } else {
      var before, u, h := ReturningCarries(site, pace, w, id, body);
      ls, t := CarryingGains(site, pace, u, h, key, body);
      GainsAfter(site, pace, w, before, u, ls, t, w.host.disk.queue.ever, key);
      ls := before + ls;
    }
  }

  // ---------------------------------------------------------------- exactly when

  lemma ClosedAfter(site: Site, w: World, l: Label, key: Key)
    requires R.HandlersInv(w.host) && Enabled(site, w, l) && key.Delivery? && !H.Open(w.host, H.IdFor(key))
    ensures var t := After(site, w, l); !H.Open(t.host, H.IdFor(key)) && H.NoNewItem(w.host.disk.queue.ever, t.host.disk.queue.ever, key)
  {
    var r := HostLabel(site, w, l);
    if r.Some? {
      H.ClosedStep(site.retention, w.host, r.value, H.IdFor(key));
      H.ClosedGainsNothing(site.retention, w.host, r.value, key);
    }
  }

  lemma {:induction false} ClosedPath(site: Site, pace: Pace, w: World, ls: seq<Label>, t: World, key: Key)
    requires Inv(site, w) && Path(site, pace, w, ls, t) && key.Delivery? && !H.Open(w.host, H.IdFor(key))
    ensures H.NoNewItem(w.host.disk.queue.ever, t.host.disk.queue.ever, key)
    decreases |ls|
  {
    if ls != [] {
      var u := After(site, w, ls[0]);
      ClosedAfter(site, w, ls[0], key);
      InvStep(site, w, ls[0]);
      ClosedPath(site, pace, u, ls[1..], t, key);
      H.NoNewAgain(w.host.disk.queue.ever, u.host.disk.queue.ever, t.host.disk.queue.ever, key);
    }
  }

  lemma StillEnqueuesGains(site: Site, pace: Pace, w: World, h: nat, key: Key)
    requires key.Delivery? && H.IdFor(key) in w.host.disk.committed && key !in w.host.disk.queue.live
    requires h in w.host.handlers && H.StillEnqueues(w.host, H.IdFor(key), w.host.handlers[h])
    ensures CanGain(site, pace, w, w.host.disk.queue.ever, key)
  {
    var fuel := H.HandlerGains(site.retention, w.host, w.host, h, key);
    var ls, t := HandlersGain(site, pace, w, w.host.disk.queue.ever, key, fuel);
  }

  lemma ClosedCannotGain(site: Site, pace: Pace, w: World, key: Key)
    requires Inv(site, w) && key.Delivery? && !H.Open(w.host, H.IdFor(key))
    ensures !CanGain(site, pace, w, w.host.disk.queue.ever, key)
  {
    forall ls, t | Path(site, pace, w, ls, t) ensures H.NoNewItem(w.host.disk.queue.ever, t.host.disk.queue.ever, key) {
      ClosedPath(site, pace, w, ls, t, key);
    }
  }

  lemma PublishedGainsIff(site: Site, pace: Pace, w: World, key: Key)
    requires Inv(site, w) && key.Delivery? && H.IdFor(key) in w.host.first && H.IdFor(key) in w.host.disk.committed && key !in w.host.disk.queue.live
    ensures CanGain(site, pace, w, w.host.disk.queue.ever, key) <==> Reopens(site, pace, w, H.IdFor(key))
  {
    if h :| h in w.host.handlers && H.StillEnqueues(w.host, H.IdFor(key), w.host.handlers[h]) {
      StillEnqueuesGains(site, pace, w, h, key);
    } else {
      ClosedCannotGain(site, pace, w, key);
    }
  }

  lemma UnpublishedGainsIff(site: Site, pace: Pace, w: World, key: Key)
    requires Inv(site, w) && key.Delivery? && H.IdFor(key) in w.host.first && H.IdFor(key) !in w.host.disk.committed && key !in w.host.disk.queue.live
    ensures CanGain(site, pace, w, w.host.disk.queue.ever, key) <==> Reopens(site, pace, w, H.IdFor(key))
  {
    var id := H.IdFor(key);
    KnownBody(site, w, id);
    if Alive(site, pace, w, id) {
      var ls, t := AliveGains(site, pace, w, key, w.host.first[id]);
    } else {
      forall ls, t | Path(site, pace, w, ls, t) ensures H.NoNewItem(w.host.disk.queue.ever, t.host.disk.queue.ever, key) {
        SpentPath(site, pace, w, ls, t, key);
      }
    }
  }

  lemma ForgetKeeps(site: Site, pace: Pace, w: World, key: Key)
    requires Enabled(site, w, Forget(key)) && key.Delivery? && H.IdFor(key) in w.host.first
    ensures var t := After(site, w, Forget(key));
      && H.IdFor(key) in t.host.first && key !in t.host.disk.queue.live && t.host.disk.queue.ever == w.host.disk.queue.ever
      && (Reopens(site, pace, t, H.IdFor(key)) <==> Reopens(site, pace, w, H.IdFor(key)))
  {
    var t := After(site, w, Forget(key));
    var id := H.IdFor(key);
    SameConditions(site, pace, w, t, id);
    assert H.PendingGoes(t.host, id) <==> H.PendingGoes(w.host, id);
  }

  lemma SameConditions(site: Site, pace: Pace, w: World, t: World, id: ReceiptId)
    requires id in w.host.first && t.host.first == w.host.first && t.host.handlers == w.host.handlers
    requires t.clock == w.clock && t.host.disk.nonces == w.host.disk.nonces
    ensures Alive(site, pace, t, id) <==> Alive(site, pace, w, id)
  {
    assert forall path, now :: Late(site, pace, t, path, now) <==> Late(site, pace, w, path, now);
  }

  lemma LiveIsFirst(w: World, key: Key)
    requires R.Inv(w.host) && H.MetaInv(w.host) && key.Delivery? && key in w.host.disk.queue.live
    ensures H.IdFor(key) in w.host.first
  {
    H.LiveIsKnown(w.host, key);
  }

  lemma SecondItemAt(site: Site, pace: Pace, w: World, key: Key)
    requires Inv(site, w) && key.Delivery? && key in w.host.disk.queue.live && H.IdFor(key) in w.host.first
    ensures CanGain(site, pace, After(site, w, Forget(key)), w.host.disk.queue.ever, key) <==> Reopens(site, pace, w, H.IdFor(key))
  {
    var t := After(site, w, Forget(key));
    InvStep(site, w, Forget(key));
    ForgetKeeps(site, pace, w, key);
    if H.IdFor(key) in t.host.disk.committed {
      PublishedGainsIff(site, pace, t, key);
    } else {
      UnpublishedGainsIff(site, pace, t, key);
    }
  }

  /**
   * In every reachable world and at either pace: after a clean-up of a delivery's item some
   * continuation queues a second one if and only if the delivery reopens. A published
   * delivery reopens when a call of it is past the receipts and still enqueues; an
   * unpublished one when its publication is under way, or a call of its first body is and
   * does not come too late for its nonce, or that body can arrive again in time.
   */
  lemma SecondItemIff(site: Site, pace: Pace, ws: seq<World>, ls: seq<Label>, n: nat, key: Key)
    requires IsRun(site, Free, ws, ls) && n < |ws| && key.Delivery? && key in ws[n].host.disk.queue.live
    ensures H.IdFor(key) in ws[n].host.first
    ensures CanGain(site, pace, After(site, ws[n], Forget(key)), ws[n].host.disk.queue.ever, key) <==> Reopens(site, pace, ws[n], H.IdFor(key))
  {
    RunInv(site, Free, ws, ls, n);
    LiveIsFirst(ws[n], key);
    SecondItemAt(site, pace, ws[n], key);
  }
}
