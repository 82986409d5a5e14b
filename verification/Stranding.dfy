/**
 * A process that dies between the reservation of a nonce and the publication of the
 * receipt: whether its delivery can still be acknowledged is a question of the window.
 */
module Stranding {
  import opened Common
  import opened Protocol
  import opened Admission
  import opened Reopening
  import R = Receipts
  import H = HostSafety
  import N = Nonces

  // ---------------------------------------------------------------- a world without calls

  /**
   * In every reachable world without calls: an unpublished delivery can still be published
   * if and only if its first body is still admitted and does not come too late for its nonce.
   */
  lemma IdleIff(site: Site, pace: Pace, ws: seq<World>, ls: seq<Label>, n: nat, id: ReceiptId, peer: string)
    requires IsRun(site, Free, ws, ls) && n < |ws| && ws[n].host.handlers == map[] && DistinctOrigins(site)
    requires id in ws[n].host.first && id !in ws[n].host.disk.committed && Sender(site, ws[n].host.first[id], peer)
    ensures ws[n].host.first[id].parsed.Some?
    ensures var body := ws[n].host.first[id];
      CanPublish(site, pace, ws[n], id) <==> ws[n].clock <= LastChance(site, body) && !Late(site, pace, ws[n], PathFor(peer, body), LastChance(site, body))
  {
    RunInv(site, Free, ws, ls, n);
    KnownBody(site, ws[n], id);
    PublishedAt(site, pace, ws[n], id);
    IdleReturns(site, pace, ws[n], ws[n].host.first[id], peer);
  }

  lemma IdleReturns(site: Site, pace: Pace, w: World, body: Body, peer: string)
    requires DistinctOrigins(site) && Sender(site, body, peer) && body.parsed.Some?
    ensures MayReturn(site, pace, w, body) <==> w.clock <= LastChance(site, body) && !Late(site, pace, w, PathFor(peer, body), LastChance(site, body))
  {
    if p :| Sender(site, body, p) && !Late(site, pace, w, PathFor(p, body), LastChance(site, body)) {
      OneSender(site, body, p, peer);
    }
  }

  // ---------------------------------------------------------------- the death

  lemma Prompts(site: Site, w: World, l: Label)
    ensures N.StepOk(site, 0, true, w, l) <==> StepOk(site, Prompt(0), w, l)
  {
  }

  /** The receipts, first bodies and queue are still empty. */
  ghost predicate Untouched(s: R.Host, h: R.Handler) {
    && s.handlers == map[0 := h] && s.first == map[] && s.disk.pending == map[] && s.disk.committed == map[] && s.disk.queue == R.LocalQueue(map[], {}, {})
  }

  /** The last steps of the call: pending receipt and enqueue. */
  lemma Enqueues(site: Site, w: World, call: R.Call) returns (ls: seq<Label>, t: World)
    requires call.body.parsed.Some? && R.EnvelopeOf(call).event.metadataOnly && Untouched(w.host, R.ReadCommitted(call))
    ensures Path(site, Prompt(0), w, ls, t) && t.clock == w.clock && t.host.disk.nonces == w.host.disk.nonces
    ensures t.host.first == map[R.IdOf(call) := call.body] && R.IdOf(call) !in t.host.disk.committed
    ensures R.EnvelopeOf(call).key in t.host.disk.queue.live
  {
    var a := After(site, w, Step(0, 1));
    assert a.host.handlers[0] == R.ReadPending(call);
    var b := After(site, a, Step(0, 1));
    assert b.host.handlers[0] == R.WritePending(call);
    TwoSteps(site, Prompt(0), w, Step(0, 1), a, Step(0, 1), b);
    ls, t := Writes(site, b, call);
    PathAppend(site, Prompt(0), w, [Step(0, 1), Step(0, 1)], b, ls, t);
    ls := [Step(0, 1), Step(0, 1)] + ls;
  }

  lemma Writes(site: Site, w: World, call: R.Call) returns (ls: seq<Label>, t: World)
    requires call.body.parsed.Some? && Untouched(w.host, R.WritePending(call))
    ensures Path(site, Prompt(0), w, ls, t) && t.clock == w.clock && t.host.disk.nonces == w.host.disk.nonces
    ensures t.host.first == map[R.IdOf(call) := call.body] && R.IdOf(call) !in t.host.disk.committed
    ensures R.EnvelopeOf(call).key in t.host.disk.queue.live
  {
    var a := After(site, w, Step(0, 1));
    assert a.host.handlers[0] == R.Enqueue(call, R.NewPending(call), false);
    t := After(site, a, Step(0, 1));
    TwoSteps(site, Prompt(0), w, Step(0, 1), a, Step(0, 1), t);
    ls := [Step(0, 1), Step(0, 1)];
  }

  /** What a death between the enqueue and the publication leaves: no call, a live item, and a reserved nonce. */
  ghost predicate DiedUnpublished(site: Site, w: World, call: R.Call)
    requires call.body.parsed.Some?
  {
    && w.host.handlers == map[] && w.clock == call.now
    && w.host.first == map[R.IdOf(call) := call.body] && R.IdOf(call) !in w.host.disk.committed
    && R.EnvelopeOf(call).key in w.host.disk.queue.live
    && RecordAt(w, PathOf(call)) == Some(R.NonceRecord(call.now + site.retention, call.now))
  }

  lemma {:induction false} RunIsPath(site: Site, ws: seq<World>, ls: seq<Label>, n: nat)
    requires N.IsRun(site, 0, true, ws, ls) && n <= |ls|
    ensures Path(site, Prompt(0), ws[0], ls[..n], ws[n])
    decreases n
  {
    if n > 0 {
      RunIsPath(site, ws, ls, n - 1);
      Prompts(site, ws[n - 1], ls[n - 1]);
      OneStep(site, Prompt(0), ws[n - 1], ls[n - 1], ws[n]);
      PathAppend(site, Prompt(0), ws[0], ls[..n - 1], ws[n - 1], [ls[n - 1]], ws[n]);
      assert ls[..n - 1] + [ls[n - 1]] == ls[..n];
    }
  }

  lemma NonceIsReserved(site: Site, body: Body, peer: string, now: int, call: R.Call) returns (w0: World, ls: seq<Label>, w: World)
    requires Sender(site, body, peer) && body.parsed.Some? && now > 0 && WithinSkew(body.parsed.value.sentAt, now, site.maxSkew)
    requires call == R.Call(peer, body, now)
    ensures Init(w0) && Path(site, Prompt(0), w0, ls, w) && Untouched(w.host, R.ReadCommitted(call)) && w.clock == now
    ensures w.host.disk.nonces == map[PathOf(call) := R.NonceRecord(now + site.retention, now)]
  {
    var ws, before := N.FirstPass(site, 0, true, body, peer, now);
    RunIsPath(site, ws, before, 3);
    assert before[..3] == before;
    w0, ls, w := ws[0], before, ws[3];
  }

  lemma Dies(site: Site, t: World, call: R.Call, w: World)
    requires call.body.parsed.Some? && w == After(site, t, Crash) && t.clock == call.now
    requires t.host.disk.nonces == map[PathOf(call) := R.NonceRecord(call.now + site.retention, call.now)]
    requires t.host.first == map[R.IdOf(call) := call.body] && R.IdOf(call) !in t.host.disk.committed && R.EnvelopeOf(call).key in t.host.disk.queue.live
    ensures Path(site, Prompt(0), t, [Crash], w) && DiedUnpublished(site, w, call)
  {
    OneStep(site, Prompt(0), t, Crash, w);
  }

  lemma DiesOnTheWay(site: Site, body: Body, peer: string, now: int, call: R.Call) returns (w0: World, ls: seq<Label>, w: World)
    requires Sender(site, body, peer) && body.parsed.Some? && body.parsed.value.event.metadataOnly
    requires now > 0 && WithinSkew(body.parsed.value.sentAt, now, site.maxSkew) && call == R.Call(peer, body, now)
    ensures Init(w0) && Path(site, Prompt(0), w0, ls, w) && DiedUnpublished(site, w, call)
  {
    var before, u;
    w0, before, u := NonceIsReserved(site, body, peer, now, call);
    var more, t := Enqueues(site, u, call);
    w := After(site, t, Crash);
    Dies(site, t, call, w);
    PathAppend(site, Prompt(0), u, more, t, [Crash], w);
    PathAppend(site, Prompt(0), w0, before, u, more + [Crash], w);
    ls := before + (more + [Crash]);
  }

  /** Every body that is admitted can leave such a world. */
  lemma DeathIsReached(site: Site, body: Body, peer: string, now: int) returns (ws: seq<World>, ls: seq<Label>)
    requires Sender(site, body, peer) && body.parsed.Some? && body.parsed.value.event.metadataOnly
    requires now > 0 && WithinSkew(body.parsed.value.sentAt, now, site.maxSkew)
    ensures IsRun(site, Prompt(0), ws, ls) && IsRun(site, Free, ws, ls) && DiedUnpublished(site, ws[|ls|], R.Call(peer, body, now))
  {
    var w0, labels, w := DiesOnTheWay(site, body, peer, now, R.Call(peer, body, now));
    ls := labels;
    ws := PathWorlds(site, Prompt(0), w0, ls, w);
    PromptIsFree(site, Prompt(0), ws, ls);
  }

  lemma PromptIsFree(site: Site, pace: Pace, ws: seq<World>, ls: seq<Label>)
    requires IsRun(site, pace, ws, ls)
    ensures IsRun(site, Free, ws, ls)
  {
    forall i | 0 <= i < |ls| ensures StepOk(site, Free, ws[i], ls[i]) {
      assert StepOk(site, pace, ws[i], ls[i]);
    }
  }

  /**
   * A death after the nonce is reserved and before the receipt is published. If calls reserve
   * within `delay` of their reading of the clock and removals are careful, the delivery is
   * refused for good unless now + retention <= sentAt + maxSkew + delay: as a replay while
   * the reservation stands, for its timestamp afterwards. Under the same condition a clean-up
   * of its item lets it be queued again.
   */
  lemma StrandedIff(site: Site, delay: nat, ws: seq<World>, ls: seq<Label>, n: nat, call: R.Call)
    requires IsRun(site, Free, ws, ls) && n < |ws| && DistinctOrigins(site) && Sender(site, call.body, call.peer)
    requires call.body.parsed.Some? && WithinSkew(R.EnvelopeOf(call).sentAt, call.now, site.maxSkew) && DiedUnpublished(site, ws[n], call)
    ensures CanPublish(site, Prompt(delay), ws[n], R.IdOf(call)) <==> call.now + site.retention <= LastChance(site, call.body) + delay
    ensures CanPublish(site, Free, ws[n], R.IdOf(call))
    ensures CanGain(site, Prompt(delay), After(site, ws[n], Forget(R.EnvelopeOf(call).key)), ws[n].host.disk.queue.ever, R.EnvelopeOf(call).key)
      <==> call.now + site.retention <= LastChance(site, call.body) + delay
  {
    var id := R.IdOf(call);
    R.DecodedCarries(call.body);
    IdleIff(site, Prompt(delay), ws, ls, n, id, call.peer);
    IdleIff(site, Free, ws, ls, n, id, call.peer);
    SecondItemIff(site, Prompt(delay), ws, ls, n, R.EnvelopeOf(call).key);
    IdleReopens(site, Prompt(delay), ws[n], id, call.peer);
  }

  lemma IdleReopens(site: Site, pace: Pace, w: World, id: ReceiptId, peer: string)
    requires w.host.handlers == map[] && DistinctOrigins(site) && id in w.host.first && id !in w.host.disk.committed
    requires Sender(site, w.host.first[id], peer) && w.host.first[id].parsed.Some?
    ensures var body := w.host.first[id];
      Reopens(site, pace, w, id) <==> w.clock <= LastChance(site, body) && !Late(site, pace, w, PathFor(peer, body), LastChance(site, body))
  {
    IdleReturns(site, pace, w, w.host.first[id], peer);
  }
}
