/**
 * The nonce store and the question it exists for: does a reserved nonce outlive the
 * time during which its exact body can pass the skew check?
 *
 * The store takes no lock: a call creates the record, or looks at the one there, removes
 * it when it has expired and tries again; the clean-up looks and removes in the same way.
 */
module Nonces {
  import opened Common
  import opened Protocol
  import opened Receipts
  import A = Admission

  const MINIMUM_RETENTION := 600 * SECOND

  type Records = map<NoncePath, NonceRecord>

  datatype Verdict = Invalid | Reserved | Replayed

  predicate Free(records: Records, retention: int, path: NoncePath, now: int) {
    path !in records || Expired(records[path], retention, now)
  }

  function Reserve(records: Records, retention: int, path: NoncePath, now: int): Records {
    records[path := NonceRecord(now + retention, now)]
  }

  class NonceStore {
    const retention: int
    var records: Records

    constructor (requested: int)
      ensures retention >= 600 * SECOND && retention >= requested
      ensures retention == requested || retention == 600 * SECOND
      ensures records == map[]
    {
      retention := if requested < MINIMUM_RETENTION then MINIMUM_RETENTION else requested;
      records := map[];
    }

    /** Reserves the nonce unless an unexpired reservation stands. */
    method Accept(peer: string, nonce: string, now: int) returns (v: Verdict)
      modifies this`records
      ensures v == Invalid <==> !ValidIdentifier(peer) || !ValidNonce(nonce) || now == 0
      ensures v != Invalid ==> (v == Reserved <==> Free(old(records), retention, NoncePath(peer, nonce), now))
      ensures records == if v == Reserved then Reserve(old(records), retention, NoncePath(peer, nonce), now) else old(records)
    {
      if !ValidIdentifier(peer) || !ValidNonce(nonce) || now == 0 {
        return Invalid;
      }
      var path := NoncePath(peer, nonce);
      while true
        invariant records == old(records) || (records == old(records) - {path} && Free(old(records), retention, path, now))
        decreases path in records
      {
        if path in records {
          if !Expired(records[path], retention, now) {
            return Replayed;
          }
          records := records - {path};
        } else {
          records := records[path := NonceRecord(now + retention, now)];
          return Reserved;
        }
      }
    }

    /** Deletes exactly the expired records. */
    method Cleanup(now: int) returns (removed: nat)
      modifies this`records
      ensures now == 0 ==> records == old(records) && removed == 0
      ensures now != 0 ==> records == map p | p in old(records) && !Expired(old(records)[p], retention, now) :: old(records)[p]
      ensures removed == |old(records)| - |records|
    {
      removed := 0;
      if now == 0 {
        return;
      }
      var entries := records.Keys;
      while entries != {}
        invariant entries <= old(records).Keys
        invariant forall p :: p in old(records) ==>
          (p in records <==> p in entries || !Expired(old(records)[p], retention, now))
        invariant forall p :: p in records ==> p in old(records) && records[p] == old(records)[p]
        invariant removed == |old(records)| - |records|
        decreases |entries|
      {
        var p :| p in entries;
        entries := entries - {p};
        if Expired(records[p], retention, now) {
          assert records.Keys == (records - {p}).Keys + {p};
          records := records - {p};
          removed := removed + 1;
        }
      }
    }
  }

  // ---------------------------------------------------------------- runs

  /** A step of the ingress in which a call that gets its nonce does so within `delay` of its reading of the clock. */
  ghost predicate StepOk(site: A.Site, delay: nat, careful: bool, w: A.World, l: A.Label) {
    A.Enabled(site, w, l) && A.Timely(w, l, delay) && (careful ==> A.Careful(site, w, l))
  }

  /** Any interleaving of such steps; with `careful`, a record that is removed has expired by the remover's reading. */
  ghost predicate IsRun(site: A.Site, delay: nat, careful: bool, ws: seq<A.World>, ls: seq<A.Label>) {
    && |ws| == |ls| + 1
    && A.Init(ws[0])
    && forall i :: 0 <= i < |ls| ==> StepOk(site, delay, careful, ws[i], ls[i]) && ws[i + 1] == A.After(site, ws[i], ls[i])
  }

  lemma {:induction false} RunInv(site: A.Site, delay: nat, careful: bool, ws: seq<A.World>, ls: seq<A.Label>, n: nat)
    requires IsRun(site, delay, careful, ws, ls) && n < |ws|
    ensures A.AdmissionInv(site, ws[n])
  {
    if n > 0 {
      RunInv(site, delay, careful, ws, ls, n - 1);
      A.AdmissionStep(site, ws[n - 1], ls[n - 1]);
    }
  }

  function SentAt(body: Body): int
    requires body.parsed.Some?
  {
    body.parsed.value.sentAt
  }

  /** The reservation is there, or the clock has passed its expiry. */
  ghost predicate Stands(site: A.Site, w: A.World, call: Call)
    requires call.body.parsed.Some?
  {
    A.RecordAt(w, A.PathOf(call)) == Some(NonceRecord(call.now + site.retention, call.now)) || w.clock >= call.now + site.retention
  }

  lemma ReservedStands(site: A.Site, w: A.World, l: A.Label, call: Call)
    requires A.Enabled(site, w, l) && A.Reserves(w, l, call)
    ensures Stands(site, A.After(site, w, l), call)
  {
  }

  /** The step takes this record although it has not expired by the remover's reading. */
  ghost predicate TakesUnexpired(site: A.Site, w: A.World, l: A.Label, path: NoncePath) {
    A.RemovalBy(w, l).Removal? && A.RemovalBy(w, l).path == path && !A.Careful(site, w, l)
  }

  lemma StandsStep(site: A.Site, w: A.World, l: A.Label, call: Call)
    requires A.AdmissionInv(site, w) && A.Enabled(site, w, l) && call.body.parsed.Some? && Stands(site, w, call)
    requires !TakesUnexpired(site, w, l, A.PathOf(call))
    ensures Stands(site, A.After(site, w, l), call)
  {
    if w.clock < call.now + site.retention {
      A.RecordAfter(site, w, l, A.PathOf(call));
      if A.RemovalBy(w, l).Removal? {
        A.RemovalTime(site, w, l);
      }
    }
  }

  /**
   * A reservation stands until its expiry, unless a call or a clean-up takes it that has
   * not seen it expired.
   */
  lemma {:induction false} ReservationStands(
    site: A.Site, delay: nat, careful: bool, ws: seq<A.World>, ls: seq<A.Label>, i: nat, n: nat, call: Call)
    requires IsRun(site, delay, careful, ws, ls) && i < n < |ws| && A.Reserves(ws[i], ls[i], call)
    requires forall k :: i < k < n ==> !TakesUnexpired(site, ws[k], ls[k], A.PathOf(call))
    ensures Stands(site, ws[n], call)
    decreases n
  {
    if n == i + 1 {
      ReservedStands(site, ws[i], ls[i], call);
    } else {
      ReservationStands(site, delay, careful, ws, ls, i, n - 1, call);
      RunInv(site, delay, careful, ws, ls, n - 1);
      StandsStep(site, ws[n - 1], ls[n - 1], call);
    }
  }

  /** Two calls of one peer with one body both get its nonce, the first of them with this reading of the clock. */
  ghost predicate PassTwice(ws: seq<A.World>, ls: seq<A.Label>, i: nat, j: nat, first: Call, second: Call)
    requires |ws| == |ls| + 1
  {
    && i < j < |ls| && A.Reserves(ws[i], ls[i], first) && A.Reserves(ws[j], ls[j], second)
    && second.peer == first.peer && second.body == first.body
  }

  lemma SecondIsLate(site: A.Site, delay: nat, careful: bool, ws: seq<A.World>, ls: seq<A.Label>, i: nat, j: nat, first: Call, second: Call)
    requires IsRun(site, delay, careful, ws, ls) && PassTwice(ws, ls, i, j, first, second)
    requires forall k :: i < k < j ==> !TakesUnexpired(site, ws[k], ls[k], A.PathOf(first))
    ensures first.now + site.retention <= second.now + delay
    ensures first.now + site.retention <= SentAt(first.body) + site.Skew() + delay
  {
    ReservationStands(site, delay, careful, ws, ls, i, j, first);
    RunInv(site, delay, careful, ws, ls, j);
    assert A.CallOk(site, ws[j].clock, ws[j].host.handlers[ls[j].h].call);
  }

  /**
   * In every run with timely calls: a body passes a second time only if its reservation
   * expires inside its window and the delay, or somebody took that reservation unexpired.
   */
  lemma SecondPassCause(site: A.Site, delay: nat, ws: seq<A.World>, ls: seq<A.Label>, i: nat, j: nat, first: Call, second: Call)
    requires IsRun(site, delay, false, ws, ls) && PassTwice(ws, ls, i, j, first, second)
    ensures first.now + site.retention <= SentAt(first.body) + site.Skew() + delay
      || exists k :: i < k < j && TakesUnexpired(site, ws[k], ls[k], A.PathOf(first))
  {
    if forall k :: i < k < j ==> !TakesUnexpired(site, ws[k], ls[k], A.PathOf(first)) {
      SecondIsLate(site, delay, false, ws, ls, i, j, first, second);
    }
  }

  /** With careful removals a second pass is late. */
  lemma SecondPassIsLate(site: A.Site, delay: nat, ws: seq<A.World>, ls: seq<A.Label>, i: nat, j: nat, first: Call, second: Call)
    requires IsRun(site, delay, true, ws, ls) && PassTwice(ws, ls, i, j, first, second)
    ensures first.now + site.retention <= second.now + delay
    ensures first.now + site.retention <= SentAt(first.body) + site.Skew() + delay
  {
    SecondIsLate(site, delay, true, ws, ls, i, j, first, second);
  }

  // ---------------------------------------------------------------- building runs

  const EMPTY := LocalQueue(map[], {}, {})

  /** A world in which calls have not got past their nonces. */
  function Quiet(nonces: Records, handlers: map<nat, Handler>, clock: int, cleaners: map<nat, A.Cleaner>, judged: map<nat, Option<NonceRecord>>): A.World {
    A.World(Host(Disk(nonces, map[], map[], EMPTY), handlers, map[]), clock, cleaners, judged)
  }

  lemma Extend(site: A.Site, delay: nat, careful: bool, ws: seq<A.World>, ls: seq<A.Label>, w: A.World, l: A.Label, t: A.World)
    returns (ws': seq<A.World>, ls': seq<A.Label>)
    requires IsRun(site, delay, careful, ws, ls) && ws[|ls|] == w && StepOk(site, delay, careful, w, l) && t == A.After(site, w, l)
    ensures ws' == ws + [t] && ls' == ls + [l] && IsRun(site, delay, careful, ws', ls') && ws'[|ls'|] == t
  {
    ws', ls' := ws + [t], ls + [l];
    forall i | 0 <= i < |ls'| ensures StepOk(site, delay, careful, ws'[i], ls'[i]) && ws'[i + 1] == A.After(site, ws'[i], ls'[i]) {
      if i < |ls| {
        assert ws'[i] == ws[i] && ws'[i + 1] == ws[i + 1] && ls'[i] == ls[i];
      }
    }
  }

  lemma Arrives(site: A.Site, w: A.World, h: nat, body: Body, peer: string, t: A.World)
    requires A.Sender(site, body, peer) && h !in w.host.handlers && w.clock != 0 && WithinSkew(Decode(body).value.sentAt, w.clock, site.maxSkew)
    requires t == w.(host := w.host.(handlers := w.host.handlers[h := Lookup(Call(peer, body, w.clock))]))
    ensures var l := A.Arrive(h, A.RequestFor(site, body, peer)); StepOk(site, 0, true, w, l) && t == A.After(site, w, l)
  {
    A.SenderIsAdmitted(site, body, peer, w.clock);
  }

  /** One step of a call at its nonce. */
  function NonceStage(site: A.Site, nonces: Records, h: Handler): (Records, Handler)
    requires h.call.body.parsed.Some?
  {
    var d, next := Step(site.retention, Disk(nonces, map[], map[], EMPTY), h, 1).0, Step(site.retention, Disk(nonces, map[], map[], EMPTY), h, 1).1;
    (d.nonces, next)
  }

  /** The step of such a call, when it is timely and, if it removes a record, careful or allowed not to be. */
  lemma CallStep(site: A.Site, delay: nat, careful: bool, w: A.World, h: nat, t: A.World)
    requires w == Quiet(w.host.disk.nonces, w.host.handlers, w.clock, w.cleaners, w.judged) && h in w.host.handlers
    requires var own := w.host.handlers[h];
      && own.call.body.parsed.Some? && (own.Lookup? || own.ReserveNonce? || own.CheckNonce? || own.DropNonce?)
      && (own.ReserveNonce? && A.PathOf(own.call) !in w.host.disk.nonces ==> w.clock <= own.call.now + delay)
      && (careful ==> !own.DropNonce?)
      && var (nonces, next) := NonceStage(site, w.host.disk.nonces, own);
         t == Quiet(nonces, w.host.handlers[h := next], w.clock, w.cleaners,
                if own.CheckNonce? then w.judged[h := A.RecordAt(w, A.PathOf(own.call))] else w.judged)
    ensures StepOk(site, delay, careful, w, A.Step(h, 1)) && t == A.After(site, w, A.Step(h, 1))
  {
  }

  lemma Waits(site: A.Site, delay: nat, careful: bool, w: A.World, to: int, t: A.World)
    requires w.clock <= to && t == w.(clock := to)
    ensures StepOk(site, delay, careful, w, A.Tick(to)) && t == A.After(site, w, A.Tick(to))
  {
  }

  lemma Looser(site: A.Site, delay: nat, careful: bool, w: A.World, l: A.Label)
    requires StepOk(site, 0, true, w, l)
    ensures StepOk(site, delay, careful, w, l)
  {
    forall call | A.Reserves(w, l, call) ensures w.clock <= call.now + delay {
      assert w.clock <= call.now + 0;
    }
  }

  /** A body arrives at `now` and gets its nonce at once. */
  lemma FirstPass(site: A.Site, delay: nat, careful: bool, body: Body, peer: string, now: int) returns (ws: seq<A.World>, ls: seq<A.Label>)
    requires A.Sender(site, body, peer) && body.parsed.Some? && now > 0 && WithinSkew(SentAt(body), now, site.maxSkew)
    ensures |ls| == 3 && IsRun(site, delay, careful, ws, ls) && A.Reserves(ws[2], ls[2], Call(peer, body, now))
    ensures var call := Call(peer, body, now);
      ws[3] == Quiet(map[A.PathOf(call) := NonceRecord(now + site.retention, now)], map[0 := ReadCommitted(call)], now, map[], map[])
  {
    var call := Call(peer, body, now);
    var w0 := Quiet(map[], map[], now, map[], map[]);
    var w1 := Quiet(map[], map[0 := Lookup(call)], now, map[], map[]);
    var w2 := Quiet(map[], map[0 := ReserveNonce(call)], now, map[], map[]);
    var w3 := Quiet(map[A.PathOf(call) := NonceRecord(now + site.retention, now)], map[0 := ReadCommitted(call)], now, map[], map[]);
    ws, ls := [w0], [];
    Arrives(site, w0, 0, body, peer, w1);
    Looser(site, delay, careful, w0, A.Arrive(0, A.RequestFor(site, body, peer)));
    ws, ls := Extend(site, delay, careful, ws, ls, w0, A.Arrive(0, A.RequestFor(site, body, peer)), w1);
    CallStep(site, delay, careful, w1, 0, w2);
    ws, ls := Extend(site, delay, careful, ws, ls, w1, A.Step(0, 1), w2);
    CallStep(site, delay, careful, w2, 0, w3);
    ws, ls := Extend(site, delay, careful, ws, ls, w2, A.Step(0, 1), w3);
  }

  /** A second call of the body has arrived and is about to reserve its nonce. */
  lemma SecondArrives(site: A.Site, delay: nat, careful: bool, ws: seq<A.World>, ls: seq<A.Label>, w: A.World, h: nat, body: Body, peer: string, at: int, t: A.World)
    returns (ws': seq<A.World>, ls': seq<A.Label>)
    requires IsRun(site, delay, careful, ws, ls) && ws[|ls|] == w && w == Quiet(w.host.disk.nonces, w.host.handlers, w.clock, w.cleaners, w.judged)
    requires A.Sender(site, body, peer) && body.parsed.Some? && w.clock <= at && at != 0 && WithinSkew(SentAt(body), at, site.maxSkew) && h !in w.host.handlers
    requires t == Quiet(w.host.disk.nonces, w.host.handlers[h := ReserveNonce(Call(peer, body, at))], at, w.cleaners, w.judged)
    ensures IsRun(site, delay, careful, ws', ls') && ws'[|ls'|] == t && |ls'| == |ls| + 3 && ws <= ws' && ls <= ls'
  {
    var call := Call(peer, body, at);
    var u := w.(clock := at);
    var v := Quiet(w.host.disk.nonces, w.host.handlers[h := Lookup(call)], at, w.cleaners, w.judged);
    Waits(site, delay, careful, w, at, u);
    ws', ls' := Extend(site, delay, careful, ws, ls, w, A.Tick(at), u);
    Arrives(site, u, h, body, peer, v);
    Looser(site, delay, careful, u, A.Arrive(h, A.RequestFor(site, body, peer)));
    ws', ls' := Extend(site, delay, careful, ws', ls', u, A.Arrive(h, A.RequestFor(site, body, peer)), v);
    assert v.host.handlers[h := ReserveNonce(call)] == t.host.handlers;
    CallStep(site, delay, careful, v, h, t);
    ws', ls' := Extend(site, delay, careful, ws', ls', v, A.Step(h, 1), t);
  }

  /** The clean-up waits for the expiry of the record and removes it. */
  lemma CleanedUp(site: A.Site, delay: nat, ws: seq<A.World>, ls: seq<A.Label>, w: A.World, path: NoncePath, at: int, t: A.World)
    returns (ws': seq<A.World>, ls': seq<A.Label>)
    requires IsRun(site, delay, true, ws, ls) && ws[|ls|] == w && w == Quiet(w.host.disk.nonces, w.host.handlers, w.clock, map[], w.judged)
    requires w.clock <= at && at != 0 && A.RecordAt(w, path).Some? && A.Expiry(site, A.RecordAt(w, path).value) <= at
    requires t == Quiet(w.host.disk.nonces - {path}, w.host.handlers, at, map[], w.judged)
    ensures IsRun(site, delay, true, ws', ls') && ws'[|ls'|] == t && |ls'| == |ls| + 3 && ws <= ws' && ls <= ls'
  {
    var u := w.(clock := at);
    var v := u.(cleaners := map[0 := A.Cleaner(path, at, A.RecordAt(w, path))]);
    Waits(site, delay, true, w, at, u);
    ws', ls' := Extend(site, delay, true, ws, ls, w, A.Tick(at), u);
    ws', ls' := Extend(site, delay, true, ws', ls', u, A.Judge(0, path, at), v);
    Removed(site, delay, v, 0, t);
    ws', ls' := Extend(site, delay, true, ws', ls', v, A.Remove(0), t);
  }

  lemma Removed(site: A.Site, delay: nat, v: A.World, c: nat, t: A.World)
    requires v == Quiet(v.host.disk.nonces, v.host.handlers, v.clock, v.cleaners, v.judged) && c in v.cleaners
    requires t == Quiet(v.host.disk.nonces - {v.cleaners[c].path}, v.host.handlers, v.clock, v.cleaners - {c}, v.judged)
    ensures A.Enabled(site, v, A.Remove(c)) && t == A.After(site, v, A.Remove(c)) && A.Timely(v, A.Remove(c), delay)
  {
    assert A.After(site, v, A.Remove(c)).host.disk.nonces == v.host.disk.nonces - {v.cleaners[c].path};
  }

  // ---------------------------------------------------------------- exactly when

  /**
   * The reservation expires inside the window and the delay: a second call of the body
   * arrives in time, waits while the record expires and is cleaned up, and passes.
   */
  lemma LateSecondPass(site: A.Site, delay: nat, body: Body, peer: string, now: int) returns (ws: seq<A.World>, ls: seq<A.Label>, second: Call)
    requires A.Sender(site, body, peer) && body.parsed.Some? && now > 0 && WithinSkew(SentAt(body), now, site.maxSkew)
    requires now + site.retention <= SentAt(body) + site.Skew() + delay
    ensures |ls| == 10 && IsRun(site, delay, true, ws, ls) && PassTwice(ws, ls, 2, 9, Call(peer, body, now), second)
  {
    var first, expiry := Call(peer, body, now), now + site.retention;
    var at := if expiry - delay < now then now else expiry - delay;
    second := Call(peer, body, at);
    var w;
    ws, ls, w := SecondWaits(site, delay, body, peer, now, first, at, second);
    var x, l := ws[2], ls[2];
    var path := A.PathOf(first);
    var u := Quiet(w.host.disk.nonces - {path}, w.host.handlers, expiry, map[], map[]);
    ws, ls := CleanedUp(site, delay, ws, ls, w, path, expiry, u);
    var t := Quiet(u.host.disk.nonces[path := NonceRecord(at + site.retention, at)], u.host.handlers[1 := ReadCommitted(second)], expiry, map[], map[]);
    CallStep(site, delay, true, u, 1, t);
    ws, ls := Extend(site, delay, true, ws, ls, u, A.Step(1, 1), t);
    assert ws[2] == x && ls[2] == l;
  }

  /** The body has passed once, and a second call of it has arrived. */
  lemma SecondWaits(site: A.Site, delay: nat, body: Body, peer: string, now: int, first: Call, at: int, second: Call)
    returns (ws: seq<A.World>, ls: seq<A.Label>, w: A.World)
    requires A.Sender(site, body, peer) && body.parsed.Some? && 0 < now <= at
    requires WithinSkew(SentAt(body), now, site.maxSkew) && WithinSkew(SentAt(body), at, site.maxSkew)
    requires first == Call(peer, body, now) && second == Call(peer, body, at)
    ensures |ls| == 6 && IsRun(site, delay, true, ws, ls) && ws[6] == w && A.Reserves(ws[2], ls[2], first)
    ensures w == Quiet(w.host.disk.nonces, w.host.handlers, at, map[], map[])
    ensures A.RecordAt(w, A.PathOf(first)) == Some(NonceRecord(now + site.retention, now)) && 1 in w.host.handlers && w.host.handlers[1] == ReserveNonce(second)
  {
    ws, ls := FirstPass(site, delay, true, body, peer, now);
    var x, l, u := ws[2], ls[2], ws[3];
    w := Quiet(u.host.disk.nonces, u.host.handlers[1 := ReserveNonce(second)], at, map[], map[]);
    ws, ls := SecondArrives(site, delay, true, ws, ls, u, 1, body, peer, at, w);
    assert ws[2] == x && ls[2] == l;
  }

  /** Some careful run with timely calls passes the body twice, the first time with this reading of the clock. */
  ghost predicate CanPassTwice(site: A.Site, delay: nat, body: Body, peer: string, now: int) {
    exists ws, ls, i, j, second :: IsRun(site, delay, true, ws, ls) && PassTwice(ws, ls, i, j, Call(peer, body, now), second)
  }

  /**
   * Nonce retention covers the window exactly when the reservation outlives the last
   * instant at which a call of the body may still be on its way: with careful removals and
   * calls that reserve within `delay` of their reading of the clock, a body accepted at
   * `now` passes a second time in some run if and only if
   * now + retention <= sentAt + maxSkew + delay.
   */
  lemma AcceptedOnceIffWindowCovered(site: A.Site, delay: nat, body: Body, peer: string, now: int)
    requires A.Sender(site, body, peer) && body.parsed.Some? && now > 0 && WithinSkew(SentAt(body), now, site.maxSkew)
    ensures CanPassTwice(site, delay, body, peer, now) <==> now + site.retention <= SentAt(body) + site.Skew() + delay
  {
    if ws, ls, i, j, second :| IsRun(site, delay, true, ws, ls) && PassTwice(ws, ls, i, j, Call(peer, body, now), second) {
      SecondPassIsLate(site, delay, ws, ls, i, j, Call(peer, body, now), second);
    }
    if now + site.retention <= SentAt(body) + site.Skew() + delay {
      var ws, ls, second := LateSecondPass(site, delay, body, peer, now);
    }
  }

  /** With retention of twice the skew and the delay, only a body sent exactly the full skew ahead can pass twice. */
  lemma DoubleSkewCovers(site: A.Site, delay: nat, ws: seq<A.World>, ls: seq<A.Label>, i: nat, j: nat, first: Call, second: Call)
    requires IsRun(site, delay, true, ws, ls) && PassTwice(ws, ls, i, j, first, second)
    requires site.retention >= 2 * site.Skew() + delay
    ensures site.retention == 2 * site.Skew() + delay && SentAt(first.body) == first.now + site.Skew()
  {
    SecondPassIsLate(site, delay, ws, ls, i, j, first, second);
    RunInv(site, delay, true, ws, ls, i);
    assert A.CallOk(site, ws[i].clock, ws[i].host.handlers[ls[i].h].call);
  }

  // ---------------------------------------------------------------- taking a fresh reservation

  /** Another body of the peer with the same nonce. */
  function SameNonce(body: Body, sentAt: int): Body
    requires body.parsed.Some?
  {
    Body(1, 0, Some(body.parsed.value.(sentAt := sentAt)))
  }

  lemma SameNonceIsSent(site: A.Site, body: Body, peer: string, at: int)
    requires A.Sender(site, body, peer) && body.parsed.Some? && at > 0
    ensures var b := SameNonce(body, at);
      A.Sender(site, b, peer) && b.parsed.Some? && WithinSkew(SentAt(b), at, site.maxSkew) && b.parsed.value.nonce == body.parsed.value.nonce
  {
  }

  predicate IsQuiet(w: A.World) {
    w == Quiet(w.host.disk.nonces, w.host.handlers, w.clock, w.cleaners, w.judged)
  }

  /** A call finds the record of its nonce and sees that it has expired. */
  lemma SeesExpired(site: A.Site, ws: seq<A.World>, ls: seq<A.Label>, w: A.World, h: nat, call: Call, t: A.World) returns (ws': seq<A.World>, ls': seq<A.Label>)
    requires IsRun(site, 0, false, ws, ls) && ws[|ls|] == w && IsQuiet(w) && call.body.parsed.Some?
    requires h in w.host.handlers && w.host.handlers[h] == ReserveNonce(call)
    requires A.RecordAt(w, A.PathOf(call)).Some? && A.Expiry(site, A.RecordAt(w, A.PathOf(call)).value) <= call.now
    requires t == Quiet(w.host.disk.nonces, w.host.handlers[h := DropNonce(call)], w.clock, w.cleaners, w.judged[h := A.RecordAt(w, A.PathOf(call))])
    ensures IsRun(site, 0, false, ws', ls') && ws'[|ls'|] == t && |ls'| == |ls| + 2 && ws <= ws' && ls <= ls'
  {
    var u := Quiet(w.host.disk.nonces, w.host.handlers[h := CheckNonce(call)], w.clock, w.cleaners, w.judged);
    CallStep(site, 0, false, w, h, u);
    ws', ls' := Extend(site, 0, false, ws, ls, w, A.Step(h, 1), u);
    assert u.host.handlers[h := DropNonce(call)] == t.host.handlers;
    CallStep(site, 0, false, u, h, t);
    ws', ls' := Extend(site, 0, false, ws', ls', u, A.Step(h, 1), t);
  }

  /** It removes whatever record is there now, and reserves its nonce. */
  lemma DropsAndPasses(site: A.Site, ws: seq<A.World>, ls: seq<A.Label>, w: A.World, h: nat, call: Call, t: A.World) returns (ws': seq<A.World>, ls': seq<A.Label>)
    requires IsRun(site, 0, false, ws, ls) && ws[|ls|] == w && IsQuiet(w) && call.body.parsed.Some?
    requires h in w.host.handlers && w.host.handlers[h] == DropNonce(call) && w.clock == call.now
    requires t == Quiet(w.host.disk.nonces[A.PathOf(call) := NonceRecord(call.now + site.retention, call.now)], w.host.handlers[h := ReadCommitted(call)], w.clock, w.cleaners, w.judged)
    ensures IsRun(site, 0, false, ws', ls') && ws'[|ls'|] == t && |ls'| == |ls| + 2 && ws <= ws' && ls <= ls'
    ensures A.Reserves(ws'[|ls| + 1], ls'[|ls| + 1], call)
  {
    var path := A.PathOf(call);
    var u := Quiet(w.host.disk.nonces - {path}, w.host.handlers[h := ReserveNonce(call)], w.clock, w.cleaners, w.judged);
    CallStep(site, 0, false, w, h, u);
    ws', ls' := Extend(site, 0, false, ws, ls, w, A.Step(h, 1), u);
    assert u.host.handlers[h := ReadCommitted(call)] == t.host.handlers;
    assert u.host.disk.nonces[path := NonceRecord(call.now + site.retention, call.now)] == t.host.disk.nonces;
    CallStep(site, 0, false, u, h, t);
    ws', ls' := Extend(site, 0, false, ws', ls', u, A.Step(h, 1), t);
  }

  /** The store holds an expired record of the nonce. */
  lemma ExpiredRecord(site: A.Site, body: Body, peer: string, now: int) returns (ws: seq<A.World>, ls: seq<A.Label>, earlier: Call)
    requires A.Sender(site, body, peer) && body.parsed.Some? && now > site.retention
    ensures |ls| == 3 && IsRun(site, 0, false, ws, ls)
    ensures ws[3] == Quiet(map[NoncePath(peer, body.parsed.value.nonce) := NonceRecord(now, now - site.retention)],
      map[0 := ReadCommitted(earlier)], now - site.retention, map[], map[])
  {
    var at := now - site.retention;
    SameNonceIsSent(site, body, peer, at);
    earlier := Call(peer, SameNonce(body, at), at);
    ws, ls := FirstPass(site, 0, false, SameNonce(body, at), peer, at);
  }

  /** Two calls of the body have both seen the expired record. */
  lemma BothSee(site: A.Site, body: Body, peer: string, now: int, call: Call) returns (ws: seq<A.World>, ls: seq<A.Label>, w: A.World)
    requires A.Sender(site, body, peer) && body.parsed.Some? && now > site.retention && WithinSkew(SentAt(body), now, site.maxSkew)
    requires call == Call(peer, body, now)
    ensures |ls| == 13 && IsRun(site, 0, false, ws, ls) && ws[13] == w && IsQuiet(w) && w.clock == now
    ensures 1 in w.host.handlers && w.host.handlers[1] == DropNonce(call) && 2 in w.host.handlers && w.host.handlers[2] == DropNonce(call)
  {
    var earlier;
    ws, ls, earlier := ExpiredRecord(site, body, peer, now);
    var w0 := ws[3];
    var w1 := Quiet(w0.host.disk.nonces, w0.host.handlers[1 := ReserveNonce(call)], now, map[], map[]);
    ws, ls := SecondArrives(site, 0, false, ws, ls, w0, 1, body, peer, now, w1);
    var w2 := Quiet(w0.host.disk.nonces, w1.host.handlers[2 := ReserveNonce(call)], now, map[], map[]);
    ws, ls := SecondArrives(site, 0, false, ws, ls, w1, 2, body, peer, now, w2);
    var seen := A.RecordAt(w2, A.PathOf(call));
    var w3 := Quiet(w0.host.disk.nonces, w2.host.handlers[1 := DropNonce(call)], now, map[], map[1 := seen]);
    ws, ls := SeesExpired(site, ws, ls, w2, 1, call, w3);
    w := Quiet(w0.host.disk.nonces, w3.host.handlers[2 := DropNonce(call)], now, map[], w3.judged[2 := seen]);
    ws, ls := SeesExpired(site, ws, ls, w3, 2, call, w);
  }

  /**
   * Looking and removing apart lets a body pass twice at one instant, whatever the
   * retention: two calls see the same expired record of their nonce, the first removes it
   * and reserves, and the second removes that fresh reservation and reserves as well.
   */
  lemma TwoCallsRace(site: A.Site, body: Body, peer: string, now: int) returns (ws: seq<A.World>, ls: seq<A.Label>)
    requires A.Sender(site, body, peer) && body.parsed.Some? && now > site.retention && WithinSkew(SentAt(body), now, site.maxSkew)
    ensures |ls| == 17 && IsRun(site, 0, false, ws, ls) && PassTwice(ws, ls, 14, 16, Call(peer, body, now), Call(peer, body, now))
  {
    var call := Call(peer, body, now);
    var w;
    ws, ls, w := BothSee(site, body, peer, now, call);
    var u := Quiet(w.host.disk.nonces[A.PathOf(call) := NonceRecord(now + site.retention, now)], w.host.handlers[1 := ReadCommitted(call)], now, w.cleaners, w.judged);
    ws, ls := DropsAndPasses(site, ws, ls, w, 1, call, u);
    var x, l := ws[14], ls[14];
    var t := Quiet(u.host.disk.nonces[A.PathOf(call) := NonceRecord(now + site.retention, now)], u.host.handlers[2 := ReadCommitted(call)], now, u.cleaners, u.judged);
    ws, ls := DropsAndPasses(site, ws, ls, u, 2, call, t);
    assert ws[14] == x && ls[14] == l;
  }

  /** A call of the body has arrived, and the clean-up has seen the expired record. */
  lemma CleanupSees(site: A.Site, body: Body, peer: string, now: int, call: Call) returns (ws: seq<A.World>, ls: seq<A.Label>, w: A.World)
    requires A.Sender(site, body, peer) && body.parsed.Some? && now > site.retention && WithinSkew(SentAt(body), now, site.maxSkew)
    requires call == Call(peer, body, now)
    ensures |ls| == 7 && IsRun(site, 0, false, ws, ls) && ws[7] == w && IsQuiet(w) && w.clock == now && 2 !in w.host.handlers
    ensures A.RecordAt(w, A.PathOf(call)) == Some(NonceRecord(now, now - site.retention))
    ensures 0 in w.cleaners && w.cleaners[0].path == A.PathOf(call) && 1 in w.host.handlers && w.host.handlers[1] == ReserveNonce(call)
  {
    var earlier;
    ws, ls, earlier := ExpiredRecord(site, body, peer, now);
    var w0 := ws[3];
    var w1 := Quiet(w0.host.disk.nonces, w0.host.handlers[1 := ReserveNonce(call)], now, map[], map[]);
    ws, ls := SecondArrives(site, 0, false, ws, ls, w0, 1, body, peer, now, w1);
    w := w1.(cleaners := map[0 := A.Cleaner(A.PathOf(call), now, A.RecordAt(w1, A.PathOf(call)))]);
    ws, ls := Extend(site, 0, false, ws, ls, w1, A.Judge(0, A.PathOf(call), now), w);
  }

  /** The call has then removed that record and reserved its nonce. */
  lemma CallOvertakesCleanup(site: A.Site, body: Body, peer: string, now: int, call: Call) returns (ws: seq<A.World>, ls: seq<A.Label>, w: A.World)
    requires A.Sender(site, body, peer) && body.parsed.Some? && now > site.retention && WithinSkew(SentAt(body), now, site.maxSkew)
    requires call == Call(peer, body, now)
    ensures |ls| == 11 && IsRun(site, 0, false, ws, ls) && ws[11] == w && IsQuiet(w) && w.clock == now && A.Reserves(ws[10], ls[10], call)
    ensures 0 in w.cleaners && w.cleaners[0].path == A.PathOf(call) && 2 !in w.host.handlers
  {
    var u;
    ws, ls, u := CleanupSees(site, body, peer, now, call);
    var v := Quiet(u.host.disk.nonces, u.host.handlers[1 := DropNonce(call)], now, u.cleaners, u.judged[1 := A.RecordAt(u, A.PathOf(call))]);
    ws, ls := SeesExpired(site, ws, ls, u, 1, call, v);
    w := Quiet(v.host.disk.nonces[A.PathOf(call) := NonceRecord(now + site.retention, now)], v.host.handlers[1 := ReadCommitted(call)], now, v.cleaners, v.judged);
    ws, ls := DropsAndPasses(site, ws, ls, v, 1, call, w);
  }

  /** The clean-up races a call in the same way: it removes the fresh reservation, and the body passes again. */
  lemma CleanupRace(site: A.Site, body: Body, peer: string, now: int) returns (ws: seq<A.World>, ls: seq<A.Label>)
    requires A.Sender(site, body, peer) && body.parsed.Some? && now > site.retention && WithinSkew(SentAt(body), now, site.maxSkew)
    ensures |ls| == 16 && IsRun(site, 0, false, ws, ls) && PassTwice(ws, ls, 10, 15, Call(peer, body, now), Call(peer, body, now))
  {
    var call := Call(peer, body, now);
    var w;
    ws, ls, w := CallOvertakesCleanup(site, body, peer, now, call);
    var x, l := ws[10], ls[10];
    var u := Quiet(w.host.disk.nonces - {A.PathOf(call)}, w.host.handlers, now, w.cleaners - {0}, w.judged);
    Removed(site, 0, w, 0, u);
    ws, ls := Extend(site, 0, false, ws, ls, w, A.Remove(0), u);
    ws, ls := ArrivesAndPasses(site, ws, ls, u, 2, body, peer, now);
    assert ws[10] == x && ls[10] == l;
  }

  /** A call that finds no record of its nonce passes. */
  lemma ArrivesAndPasses(site: A.Site, ws: seq<A.World>, ls: seq<A.Label>, u: A.World, h: nat, body: Body, peer: string, now: int)
    returns (ws': seq<A.World>, ls': seq<A.Label>)
    requires IsRun(site, 0, false, ws, ls) && ws[|ls|] == u && IsQuiet(u) && u.clock == now > 0 && h !in u.host.handlers
    requires A.Sender(site, body, peer) && body.parsed.Some? && WithinSkew(SentAt(body), now, site.maxSkew)
    requires NoncePath(peer, body.parsed.value.nonce) !in u.host.disk.nonces
    ensures |ls'| == |ls| + 4 && IsRun(site, 0, false, ws', ls') && ws <= ws' && ls <= ls'
    ensures A.Reserves(ws'[|ls| + 3], ls'[|ls| + 3], Call(peer, body, now))
  {
    var call := Call(peer, body, now);
    var v := Quiet(u.host.disk.nonces, u.host.handlers[h := ReserveNonce(call)], now, u.cleaners, u.judged);
    ws', ls' := SecondArrives(site, 0, false, ws, ls, u, h, body, peer, now, v);
    var t := Quiet(v.host.disk.nonces[A.PathOf(call) := NonceRecord(now + site.retention, now)], v.host.handlers[h := ReadCommitted(call)], now, v.cleaners, v.judged);
    CallStep(site, 0, false, v, h, t);
    ws', ls' := Extend(site, 0, false, ws', ls', v, A.Step(h, 1), t);
  }
}
