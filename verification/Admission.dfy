/**
 * The host ingress as the network sees it: known peers, a clock that does not go back,
 * and calls that begin only when `Admit` takes their request. A call reads the clock once,
 * on arrival. The clean-up of nonces looks at a record and removes the file in two steps.
 *
 * Every run of this machine is a run of the receipt machine, so what holds without these
 * checks holds here too. What only they rule out is proved on this machine.
 */
module Admission {
  import opened Common
  import opened Protocol
  import R = Receipts
  import H = HostSafety

  // ---------------------------------------------------------------- the machine

  datatype Site = Site(peers: map<string, Peer>, maxSkew: int, retention: nat) {
    function Skew(): (skew: int)
      ensures skew > 0
    {
      EffectiveSkew(maxSkew)
    }
  }

  /** A nonce clean-up that judged a record by the time it read, and is about to remove the file. */
  datatype Cleaner = Cleaner(path: R.NoncePath, now: int, judged: Option<R.NonceRecord>)

  /** `judged` is a history variable: the record each call about to remove one has looked at. */
  datatype World = World(host: R.Host, clock: int, cleaners: map<nat, Cleaner>, judged: map<nat, Option<R.NonceRecord>>)

  datatype Label =
    | Arrive(h: nat, request: R.Request)
    | Step(h: nat, newId: nat)
    | Forget(key: Key)
    | Judge(c: nat, path: R.NoncePath, now: int)
    | Remove(c: nat)
    | Tick(to: int)
    | Crash

  function PathOf(call: R.Call): R.NoncePath
    requires call.body.parsed.Some?
  {
    R.NoncePath(call.peer, R.EnvelopeOf(call).nonce)
  }

  function RecordAt(w: World, path: R.NoncePath): Option<R.NonceRecord> {
    if path in w.host.disk.nonces then Some(w.host.disk.nonces[path]) else None
  }

  function Expiry(site: Site, r: R.NonceRecord): int {
    if r.expiresAt != 0 then r.expiresAt else r.modTime + site.retention
  }

  ghost predicate Enabled(site: Site, w: World, l: Label) {
    match l
    case Arrive(h, request) => h !in w.host.handlers && R.Admit(site.peers, site.maxSkew, request, w.clock).Some?
    case Step(h, newId) => R.CanRun(w.host, h, newId)
    case Forget(key) => key in w.host.disk.queue.live
    case Judge(c, path, now) =>
      c !in w.cleaners && now != 0 && now <= w.clock && (RecordAt(w, path).Some? ==> Expiry(site, RecordAt(w, path).value) <= now)
    case Remove(c) => c in w.cleaners
    case Tick(to) => w.clock <= to
    case Crash => true
  }

  /** The step of the receipt machine. */
  ghost function HostLabel(site: Site, w: World, l: Label): (r: Option<R.Label>)
    requires Enabled(site, w, l)
    ensures r.Some? ==> R.Enabled(w.host, r.value)
  {
    match l
    case Arrive(h, request) => Some(R.Begin(h, R.Admit(site.peers, site.maxSkew, request, w.clock).value))
    case Step(h, newId) => Some(R.Run(h, newId))
    case Forget(key) => Some(R.Forget(key))
    case Judge(_, _, _) => None
    case Remove(c) => Some(R.PruneNonces(w.host.disk.nonces.Keys - {w.cleaners[c].path}))
    case Tick(_) => None
    case Crash => Some(R.Crash)
  }

  ghost function HostAfter(site: Site, w: World, l: Label): R.Host
    requires Enabled(site, w, l)
  {
    var r := HostLabel(site, w, l);
    if r.None? then w.host else R.After(site.retention, w.host, r.value)
  }

  ghost function CleanersAfter(w: World, l: Label): map<nat, Cleaner> {
    match l
    case Judge(c, path, now) => w.cleaners[c := Cleaner(path, now, RecordAt(w, path))]
    case Remove(c) => w.cleaners - {c}
    case Crash => map[]
    case _ => w.cleaners
  }

  ghost function JudgedAfter(w: World, l: Label): map<nat, Option<R.NonceRecord>> {
    match l
    case Step(h, _) =>
      if h in w.host.handlers && w.host.handlers[h].CheckNonce? && w.host.handlers[h].call.body.parsed.Some?
      then w.judged[h := RecordAt(w, PathOf(w.host.handlers[h].call))]
      else w.judged
    case Crash => map[]
    case _ => w.judged
  }

  ghost function After(site: Site, w: World, l: Label): World
    requires Enabled(site, w, l)
  {
    World(HostAfter(site, w, l), if l.Tick? then l.to else w.clock, CleanersAfter(w, l), JudgedAfter(w, l))
  }

  ghost predicate Init(w: World) {
    R.Init(w.host) && w.clock > 0 && w.cleaners == map[] && w.judged == map[]
  }

  // ---------------------------------------------------------------- paces

  /** The step removes the file of this nonce, after a look at it by this reading of the clock. */
  datatype Removal = NoRemoval | Removal(path: R.NoncePath, now: int)

  ghost function RemovalBy(w: World, l: Label): Removal {
    if l.Remove? && l.c in w.cleaners then Removal(w.cleaners[l.c].path, w.cleaners[l.c].now)
    else if l.Step? && l.h in w.host.handlers && w.host.handlers[l.h].DropNonce? && w.host.handlers[l.h].call.body.parsed.Some?
    then Removal(PathOf(w.host.handlers[l.h].call), w.host.handlers[l.h].call.now)
    else NoRemoval
  }

  /** A record that is removed has expired by the remover's own reading of the clock. */
  ghost predicate Careful(site: Site, w: World, l: Label) {
    var r := RemovalBy(w, l);
    r.Removal? && RecordAt(w, r.path).Some? ==> Expiry(site, RecordAt(w, r.path).value) <= r.now
  }

  /** The call gets its nonce with this step. */
  ghost predicate Reserves(w: World, l: Label, call: R.Call) {
    && l.Step? && l.h in w.host.handlers && w.host.handlers[l.h] == R.ReserveNonce(call)
    && call.body.parsed.Some? && PathOf(call) !in w.host.disk.nonces
  }

  /** A call that gets its nonce does so within `delay` of its reading of the clock. */
  ghost predicate Timely(w: World, l: Label, delay: nat) {
    forall call :: Reserves(w, l, call) ==> w.clock <= call.now + delay
  }

  /** Runs in general, or those with careful removals and timely calls. */
  datatype Pace = Free | Prompt(delay: nat)

  ghost predicate StepOk(site: Site, pace: Pace, w: World, l: Label) {
    Enabled(site, w, l) && (pace.Prompt? ==> Careful(site, w, l) && Timely(w, l, pace.delay))
  }

  ghost predicate IsRun(site: Site, pace: Pace, ws: seq<World>, ls: seq<Label>) {
    && |ws| == |ls| + 1
    && Init(ws[0])
    && forall i :: 0 <= i < |ls| ==> StepOk(site, pace, ws[i], ls[i]) && ws[i + 1] == After(site, ws[i], ls[i])
  }

  /** The labels lead from w to t. */
  ghost predicate Path(site: Site, pace: Pace, w: World, ls: seq<Label>, t: World)
    decreases |ls|
  {
    if ls == [] then w == t
    else StepOk(site, pace, w, ls[0]) && Path(site, pace, After(site, w, ls[0]), ls[1..], t)
  }

  lemma {:induction false} PathAppend(site: Site, pace: Pace, w: World, a: seq<Label>, t: World, b: seq<Label>, u: World)
    requires Path(site, pace, w, a, t) && Path(site, pace, t, b, u)
    ensures Path(site, pace, w, a + b, u)
    decreases |a|
  {
    if a == [] {
      assert a + b == b;
    } else {
      PathAppend(site, pace, After(site, w, a[0]), a[1..], t, b, u);
      assert (a + b)[1..] == a[1..] + b;
    }
  }

  lemma OneStep(site: Site, pace: Pace, w: World, l: Label, t: World)
    requires StepOk(site, pace, w, l) && t == After(site, w, l)
    ensures Path(site, pace, w, [l], t)
  {
    assert [l][1..] == [];
  }

  lemma TwoSteps(site: Site, pace: Pace, w: World, k: Label, t: World, l: Label, u: World)
    requires StepOk(site, pace, w, k) && t == After(site, w, k) && StepOk(site, pace, t, l) && u == After(site, t, l)
    ensures Path(site, pace, w, [k, l], u)
  {
    OneStep(site, pace, w, k, t);
    OneStep(site, pace, t, l, u);
    PathAppend(site, pace, w, [k], t, [l], u);
    assert [k] + [l] == [k, l];
  }

  /** A path from an initial world is a run. */
  lemma {:induction false} PathWorlds(site: Site, pace: Pace, w: World, ls: seq<Label>, t: World) returns (ws: seq<World>)
    requires Path(site, pace, w, ls, t)
    ensures |ws| == |ls| + 1 && ws[0] == w && ws[|ls|] == t
    ensures forall i :: 0 <= i < |ls| ==> StepOk(site, pace, ws[i], ls[i]) && ws[i + 1] == After(site, ws[i], ls[i])
    decreases |ls|
  {
    if ls == [] {
      ws := [w];
    } else {
      var rest := PathWorlds(site, pace, After(site, w, ls[0]), ls[1..], t);
      ws := [w] + rest;
      forall i | 0 <= i < |ls| ensures StepOk(site, pace, ws[i], ls[i]) && ws[i + 1] == After(site, ws[i], ls[i]) {
        if i > 0 {
          assert ws[i] == rest[i - 1] && ls[i] == ls[1..][i - 1] && ws[i + 1] == rest[i];
        }
      }
    }
  }

  // ---------------------------------------------------------------- who may send what

  /** The peer may send this body at some time: all that `Admit` asks but the time and the signature. */
  predicate Sender(site: Site, body: Body, peer: string) {
    && peer in site.peers && Decode(body).Some?
    && var p, e := site.peers[peer], Decode(body).value;
       && p.id == peer && ValidPeer(p) && !p.revoked && SCOPE_INGEST in p.scopes
       && p.team == e.team && p.origin == e.origin
       && e.event.source in p.sources && e.event.runtime in p.runtimes
  }

  /** The request of that body, signed by the peer. */
  function RequestFor(site: Site, body: Body, peer: string): R.Request
    requires Sender(site, body, peer)
  {
    var e := Decode(body).value;
    R.Request(peer, "POST", "/", e.sentAt, e.nonce, body, Signature(site.peers[peer].publicKey, "POST", "/", e.sentAt, e.nonce, body))
  }

  lemma AdmittedIsSender(site: Site, r: R.Request, now: int)
    requires R.Admit(site.peers, site.maxSkew, r, now).Some?
    ensures Sender(site, r.body, r.keyId) && WithinSkew(Decode(r.body).value.sentAt, now, site.maxSkew)
    ensures R.Admit(site.peers, site.maxSkew, r, now) == Some(R.Call(r.keyId, r.body, now)) && now != 0
  {
  }

  lemma SenderIsAdmitted(site: Site, body: Body, peer: string, now: int)
    requires Sender(site, body, peer) && now != 0 && WithinSkew(Decode(body).value.sentAt, now, site.maxSkew)
    ensures R.Admit(site.peers, site.maxSkew, RequestFor(site, body, peer), now) == Some(R.Call(peer, body, now))
  {
  }

  /** As the relay configuration is validated: no two peers stand for one team and origin. */
  ghost predicate DistinctOrigins(site: Site) {
    forall p, q :: p in site.peers && q in site.peers && site.peers[p].team == site.peers[q].team && site.peers[p].origin == site.peers[q].origin ==> p == q
  }

  lemma OneSender(site: Site, body: Body, p: string, q: string)
    requires DistinctOrigins(site) && Sender(site, body, p) && Sender(site, body, q)
    ensures p == q
  {
  }

  // ---------------------------------------------------------------- invariant

  ghost predicate CallOk(site: Site, clock: int, call: R.Call) {
    && Sender(site, call.body, call.peer) && call.body.parsed.Some?
    && WithinSkew(R.EnvelopeOf(call).sentAt, call.now, site.maxSkew) && call.now <= clock
  }

  ghost predicate CallsInv(site: Site, w: World) {
    forall h :: h in w.host.handlers ==> CallOk(site, w.clock, w.host.handlers[h].call)
  }

  ghost predicate HasSender(site: Site, body: Body) {
    exists p :: Sender(site, body, p)
  }

  ghost predicate SendersInv(site: Site, first: map<ReceiptId, Body>) {
    forall id :: id in first ==> HasSender(site, first[id])
  }

  ghost predicate JudgedOk(site: Site, judged: Option<R.NonceRecord>, now: int) {
    judged.Some? ==> Expiry(site, judged.value) <= now
  }

  /** Whoever is about to remove a record has seen it expired by its own reading of the clock. */
  ghost predicate JudgedInv(site: Site, w: World) {
    && (forall c :: c in w.cleaners ==> w.cleaners[c].now <= w.clock && JudgedOk(site, w.cleaners[c].judged, w.cleaners[c].now))
    && (forall h :: h in w.host.handlers && w.host.handlers[h].DropNonce? ==>
          h in w.judged && JudgedOk(site, w.judged[h], w.host.handlers[h].call.now))
  }

  ghost predicate AdmissionInv(site: Site, w: World) {
    w.clock > 0 && CallsInv(site, w) && SendersInv(site, w.host.first) && JudgedInv(site, w)
  }

  ghost predicate HostInv(s: R.Host) {
    R.Inv(s) && H.MetaInv(s)
  }

  ghost predicate Inv(site: Site, w: World) {
    HostInv(w.host) && AdmissionInv(site, w)
  }

  lemma StepKeepsCall(site: Site, w: World, h: nat, newId: nat)
    requires R.CanRun(w.host, h, newId)
    ensures var t := R.RunOne(site.retention, w.host, h, newId);
      && t.handlers.Keys == w.host.handlers.Keys
      && (forall g :: g in t.handlers ==> t.handlers[g].call == w.host.handlers[g].call && (g != h ==> t.handlers[g] == w.host.handlers[g]))
      && (t.handlers[h].DropNonce? ==> w.host.handlers[h].CheckNonce? && JudgedOk(site, RecordAt(w, PathOf(w.host.handlers[h].call)), w.host.handlers[h].call.now))
  {
  }

  lemma StepFirst(site: Site, s: R.Host, h: nat, newId: nat)
    requires R.CanRun(s, h, newId)
    ensures var t := R.RunOne(site.retention, s, h, newId);
      forall id :: id in t.first ==> (id in s.first && t.first[id] == s.first[id]) || t.first[id] == s.handlers[h].call.body
  {
  }

  lemma ArriveInv(site: Site, w: World, h: nat, request: R.Request)
    requires AdmissionInv(site, w) && Enabled(site, w, Arrive(h, request))
    ensures AdmissionInv(site, After(site, w, Arrive(h, request)))
  {
    AdmittedIsSender(site, request, w.clock);
  }

  lemma StepCalls(site: Site, w: World, h: nat, newId: nat)
    requires CallsInv(site, w) && Enabled(site, w, Step(h, newId))
    ensures CallsInv(site, After(site, w, Step(h, newId)))
  {
    StepKeepsCall(site, w, h, newId);
  }

  lemma StepJudged(site: Site, w: World, h: nat, newId: nat)
    requires JudgedInv(site, w) && Enabled(site, w, Step(h, newId))
    ensures JudgedInv(site, After(site, w, Step(h, newId)))
  {
    StepKeepsCall(site, w, h, newId);
  }

  lemma StepSenders(site: Site, w: World, h: nat, newId: nat)
    requires CallsInv(site, w) && SendersInv(site, w.host.first) && Enabled(site, w, Step(h, newId))
    ensures SendersInv(site, After(site, w, Step(h, newId)).host.first)
  {
    StepFirst(site, w.host, h, newId);
    var first := After(site, w, Step(h, newId)).host.first;
    forall id | id in first ensures HasSender(site, first[id]) {
      if first[id] == w.host.handlers[h].call.body {
        assert Sender(site, first[id], w.host.handlers[h].call.peer);
      }
    }
  }

  lemma QuietInv(site: Site, w: World, l: Label)
    requires AdmissionInv(site, w) && Enabled(site, w, l) && !l.Arrive? && !l.Step?
    ensures AdmissionInv(site, After(site, w, l))
  {
  }

  lemma AdmissionStep(site: Site, w: World, l: Label)
    requires AdmissionInv(site, w) && Enabled(site, w, l)
    ensures AdmissionInv(site, After(site, w, l))
  {
    match l
    case Arrive(h, request) => ArriveInv(site, w, h, request);
    case Step(h, newId) =>
      StepCalls(site, w, h, newId);
      StepJudged(site, w, h, newId);
      StepSenders(site, w, h, newId);
    case _ => QuietInv(site, w, l);
  }

  lemma HostStep(site: Site, w: World, l: Label)
    requires HostInv(w.host) && Enabled(site, w, l)
    ensures HostInv(After(site, w, l).host) && R.Extends(w.host, After(site, w, l).host)
  {
    var r := HostLabel(site, w, l);
    if r.Some? {
      R.InvStep(site.retention, w.host, r.value);
      H.MetaStep(site.retention, w.host, r.value);
      R.StepExtends(site.retention, w.host, r.value);
    }
  }

  lemma InvStep(site: Site, w: World, l: Label)
    requires Inv(site, w) && Enabled(site, w, l)
    ensures Inv(site, After(site, w, l))
  {
    HostStep(site, w, l);
    AdmissionStep(site, w, l);
  }

  lemma {:induction false} RunInv(site: Site, pace: Pace, ws: seq<World>, ls: seq<Label>, n: nat)
    requires IsRun(site, pace, ws, ls) && n < |ws|
    ensures Inv(site, ws[n])
  {
    if n > 0 {
      RunInv(site, pace, ws, ls, n - 1);
      InvStep(site, ws[n - 1], ls[n - 1]);
    }
  }

  lemma {:induction false} PathInv(site: Site, pace: Pace, w: World, ls: seq<Label>, t: World)
    requires Inv(site, w) && Path(site, pace, w, ls, t)
    ensures Inv(site, t)
    decreases |ls|
  {
    if ls != [] {
      InvStep(site, w, ls[0]);
      PathInv(site, pace, After(site, w, ls[0]), ls[1..], t);
    }
  }

  /** What the step does to the record of one nonce. */
  lemma RecordAfter(site: Site, w: World, l: Label, path: R.NoncePath)
    requires Enabled(site, w, l) && RecordAt(w, path).Some?
    ensures RecordAt(After(site, w, l), path) == RecordAt(w, path) || (RemovalBy(w, l).Removal? && RemovalBy(w, l).path == path)
  {
  }

  lemma RemovalTime(site: Site, w: World, l: Label)
    requires CallsInv(site, w) && JudgedInv(site, w) && RemovalBy(w, l).Removal?
    ensures RemovalBy(w, l).now <= w.clock
  {
  }

  /** The record that is removed is the one that was looked at. */
  ghost predicate TakesJudged(w: World, l: Label) {
    var r := RemovalBy(w, l);
    r.Removal? && RecordAt(w, r.path).Some? ==>
      RecordAt(w, r.path) == if l.Remove? then w.cleaners[l.c].judged else if l.h in w.judged then w.judged[l.h] else None
  }

  /** Removing what was looked at is careful: an expired record does not become valid again. */
  lemma JudgedIsCareful(site: Site, pace: Pace, ws: seq<World>, ls: seq<Label>, n: nat)
    requires IsRun(site, pace, ws, ls) && n < |ls| && TakesJudged(ws[n], ls[n])
    ensures Careful(site, ws[n], ls[n])
  {
    RunInv(site, pace, ws, ls, n);
  }

  /** Every run is a run of the receipt machine, with some of its states standing still. */
  lemma RunProjects(site: Site, pace: Pace, ws: seq<World>, ls: seq<Label>, n: nat)
    requires IsRun(site, pace, ws, ls) && n < |ls|
    ensures R.Init(ws[0].host)
    ensures ws[n + 1].host == ws[n].host || exists l :: R.Enabled(ws[n].host, l) && ws[n + 1].host == R.After(site.retention, ws[n].host, l)
  {
    var r := HostLabel(site, ws[n], ls[n]);
    if r.Some? {
      assert R.Enabled(ws[n].host, r.value);
    }
  }
}
