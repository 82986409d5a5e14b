/**
 * Whose requests the ingress takes: the exact conditions, field by field, and what follows
 * over whole runs: nothing is queued, published or acknowledged that did not arrive under
 * the signature of its peer.
 */
module Signing {
  import opened Common
  import opened Protocol
  import opened Admission
  import R = Receipts
  import H = HostSafety

  // ---------------------------------------------------------------- the conditions, field by field

  predicate IsNameChar(c: char) {
    'a' <= c <= 'z' || 'A' <= c <= 'Z' || '0' <= c <= '9' || c == '.' || c == '_' || c == ':' || c == '-'
  }

  /** 1 to 128 letters, digits, dots, underscores, colons and dashes, of which the first is a letter or digit. */
  predicate IsName(s: string) {
    && 0 < |s| < 129
    && (forall i :: 0 <= i < |s| ==> IsNameChar(s[i]))
    && s[0] != '.' && s[0] != '_' && s[0] != ':' && s[0] != '-'
  }

  /** Sixteen bytes in lower-case hexadecimal. */
  predicate IsHex32(s: string) {
    |s| == 32 && forall c :: c in s ==> c in "0123456789abcdef"
  }

  predicate IsRuntime(s: string) {
    s == "host" || s == "wsl" || s == "container" || s == "ssh" || s == "vendor-cloud"
  }

  /** The body is one to 65536 bytes that parse into a well-formed envelope whose key is derived from its team, origin and producer key. */
  predicate Readable(body: Body) {
    && 0 < body.size <= 65536 && body.parsed.Some?
    && var e := body.parsed.value;
       && e.version == "1" && IsName(e.team) && IsName(e.origin) && IsRuntime(e.runtime) && e.event.runtime == e.runtime
       && 0 < |e.producerKey| <= 512 && e.event.idempotencyKey == Plain(e.producerKey)
       && e.key == Delivery(e.team, e.origin, e.producerKey)
       && e.sentAt != 0 && IsHex32(e.nonce) && 0 <= e.hop < 5 && e.event.wellFormed
  }

  /** The peer is whole, not revoked, and may submit this event for this team and origin. */
  predicate MaySubmit(p: Peer, e: Envelope) {
    && IsName(p.id) && IsName(p.team) && IsName(p.origin) && !p.revoked
    && "relay:ingest" in p.scopes && (forall s :: s in p.scopes ==> IsName(s))
    && (forall r :: r in p.runtimes ==> IsRuntime(r))
    && p.team == e.team && p.origin == e.origin && e.event.source in p.sources && e.event.runtime in p.runtimes
  }

  /** The request carries the signature of its peer over its method, target, time, nonce and exact body. */
  predicate Signed(site: Site, r: R.Request) {
    && r.keyId in site.peers
    && r.signature == Signature(site.peers[r.keyId].publicKey, r.httpMethod, r.target, r.sentAt, r.nonce, r.body)
  }

  /** The window is five minutes wide to either side unless the site says otherwise. */
  function Window(site: Site): int {
    if site.maxSkew > 0 then site.maxSkew else 300 * 1_000_000_000
  }

  lemma NamesAgree(s: string)
    ensures ValidIdentifier(s) <==> IsName(s)
  {
    assert forall c :: c in "._:-" <==> c == '.' || c == '_' || c == ':' || c == '-';
    if ValidIdentifier(s) {
      forall i | 0 <= i < |s| ensures IsNameChar(s[i]) {
        assert IsAlphanumeric(s[i]) || s[i] in "._:-";
      }
    }
    if IsName(s) {
      forall i | 0 <= i < |s| ensures IsAlphanumeric(s[i]) || s[i] in "._:-" {
        assert IsNameChar(s[i]);
      }
    }
  }

  lemma HexAgrees(s: string)
    ensures ValidNonce(s) <==> IsHex32(s)
  {
    assert forall c :: c in "0123456789abcdef" <==> ('0' <= c <= '9' || 'a' <= c <= 'f');
    if ValidNonce(s) {
      forall c | c in s ensures c in "0123456789abcdef" {
        var i :| 0 <= i < |s| && s[i] == c;
      }
    }
    if IsHex32(s) {
      forall i | 0 <= i < |s| ensures '0' <= s[i] <= '9' || 'a' <= s[i] <= 'f' {
        assert s[i] in s;
      }
    }
  }

  lemma ReadableAgrees(body: Body)
    ensures Decode(body).Some? <==> Readable(body)
    ensures Decode(body).Some? ==> Decode(body) == body.parsed
  {
    if body.parsed.Some? {
      var e := body.parsed.value;
      NamesAgree(e.team);
      NamesAgree(e.origin);
      HexAgrees(e.nonce);
    }
  }

  lemma RuntimesAgree(s: string)
    ensures KnownRuntime(s) <==> IsRuntime(s)
  {
    var known := ["host", "wsl", "container", "ssh", "vendor-cloud"];
    assert known[0] == "host" && known[1] == "wsl" && known[2] == "container" && known[3] == "ssh" && known[4] == "vendor-cloud";
  }

  lemma ListsAgree(p: Peer)
    ensures (forall i :: 0 <= i < |p.scopes| ==> ValidIdentifier(p.scopes[i])) <==> forall s :: s in p.scopes ==> IsName(s)
    ensures (forall i :: 0 <= i < |p.runtimes| ==> KnownRuntime(p.runtimes[i])) <==> forall r :: r in p.runtimes ==> IsRuntime(r)
  {
    forall s | s in p.scopes ensures ValidIdentifier(s) <==> IsName(s) {
      NamesAgree(s);
    }
    if forall i :: 0 <= i < |p.scopes| ==> ValidIdentifier(p.scopes[i]) {
      forall s | s in p.scopes ensures IsName(s) {
        var i :| 0 <= i < |p.scopes| && p.scopes[i] == s;
      }
    }
    forall r | r in p.runtimes && IsRuntime(r) ensures KnownRuntime(r) {
      RuntimesAgree(r);
    }
    if forall i :: 0 <= i < |p.runtimes| ==> KnownRuntime(p.runtimes[i]) {
      forall r | r in p.runtimes ensures IsRuntime(r) {
        var i :| 0 <= i < |p.runtimes| && p.runtimes[i] == r;
      }
    }
  }

  lemma PeersAgree(p: Peer, e: Envelope)
    ensures ValidPeer(p) && !p.revoked && SCOPE_INGEST in p.scopes && p.team == e.team && p.origin == e.origin
        && e.event.source in p.sources && e.event.runtime in p.runtimes
      <==> MaySubmit(p, e)
  {
    NamesAgree(p.id);
    NamesAgree(p.team);
    NamesAgree(p.origin);
    ListsAgree(p);
  }

  /**
   * A request is admitted if and only if it names a known peer, its body is readable and
   * inside the window, the peer may submit it, its headers repeat the envelope, and it
   * carries the peer's signature.
   */
  lemma AdmittedIff(site: Site, r: R.Request, now: int)
    ensures R.Admit(site.peers, site.maxSkew, r, now).Some? <==>
      && Readable(r.body) && now != 0
      && var e := r.body.parsed.value;
         && r.keyId in site.peers && site.peers[r.keyId].id == r.keyId && MaySubmit(site.peers[r.keyId], e)
         && -Window(site) <= now - e.sentAt <= Window(site)
         && r.sentAt == e.sentAt && r.nonce == e.nonce && Signed(site, r)
    ensures R.Admit(site.peers, site.maxSkew, r, now).Some? ==> R.Admit(site.peers, site.maxSkew, r, now).value == R.Call(r.keyId, r.body, now)
  {
    ReadableAgrees(r.body);
    if Readable(r.body) && r.keyId in site.peers {
      PeersAgree(site.peers[r.keyId], r.body.parsed.value);
    }
  }

  // ---------------------------------------------------------------- over runs

  /** The step brings in this body of this peer, signed, at its reading of the clock. */
  ghost predicate Brings(site: Site, w: World, l: Label, call: R.Call) {
    && l.Arrive? && Signed(site, l.request) && l.request.keyId == call.peer && l.request.body == call.body && w.clock == call.now
  }

  ghost predicate Arrived(site: Site, ws: seq<World>, ls: seq<Label>, n: nat, call: R.Call)
    requires n <= |ls| < |ws|
  {
    exists i :: 0 <= i < n && Brings(site, ws[i], ls[i], call)
  }

  /** Some call of this body arrived. */
  ghost predicate BodyArrived(site: Site, ws: seq<World>, ls: seq<Label>, n: nat, body: Body)
    requires n <= |ls| < |ws|
  {
    exists call: R.Call :: call.body == body && Arrived(site, ws, ls, n, call)
  }

  ghost predicate CallsArrived(site: Site, ws: seq<World>, ls: seq<Label>, n: nat)
    requires n <= |ls| < |ws|
  {
    forall h :: h in ws[n].host.handlers ==> Arrived(site, ws, ls, n, ws[n].host.handlers[h].call)
  }

  ghost predicate FirstArrived(site: Site, ws: seq<World>, ls: seq<Label>, n: nat)
    requires n <= |ls| < |ws|
  {
    forall id :: id in ws[n].host.first ==> BodyArrived(site, ws, ls, n, ws[n].host.first[id])
  }

  /** The item is the notification of a body that arrived. */
  ghost predicate ItemArrived(site: Site, ws: seq<World>, ls: seq<Label>, n: nat, item: R.Item)
    requires n <= |ls| < |ws|
  {
    exists body :: R.FromBody(item, body) && BodyArrived(site, ws, ls, n, body)
  }

  ghost predicate ItemsArrived(site: Site, ws: seq<World>, ls: seq<Label>, n: nat)
    requires n <= |ls| < |ws|
  {
    forall item :: item in ws[n].host.disk.queue.ever ==> ItemArrived(site, ws, ls, n, item)
  }

  lemma ArrivedLater(site: Site, ws: seq<World>, ls: seq<Label>, n: nat, call: R.Call)
    requires n < |ls| < |ws| && Arrived(site, ws, ls, n, call)
    ensures Arrived(site, ws, ls, n + 1, call)
  {
  }

  lemma BodyArrivedLater(site: Site, ws: seq<World>, ls: seq<Label>, n: nat, body: Body)
    requires n < |ls| < |ws| && BodyArrived(site, ws, ls, n, body)
    ensures BodyArrived(site, ws, ls, n + 1, body)
  {
    var call: R.Call :| call.body == body && Arrived(site, ws, ls, n, call);
    ArrivedLater(site, ws, ls, n, call);
  }

  lemma ArrivesSigned(site: Site, w: World, h: nat, request: R.Request)
    requires Enabled(site, w, Arrive(h, request))
    ensures var call := R.Admit(site.peers, site.maxSkew, request, w.clock).value; Brings(site, w, Arrive(h, request), call)
  {
    AdmittedIff(site, request, w.clock);
  }

  /** Where the calls, first bodies and items after a step come from. */
  lemma StepOrigins(site: Site, w: World, l: Label)
    requires Enabled(site, w, l)
    ensures var t := After(site, w, l);
      && (forall h :: h in t.host.handlers ==>
            || (h in w.host.handlers && t.host.handlers[h].call == w.host.handlers[h].call)
            || (l.Arrive? && h == l.h && t.host.handlers[h].call == R.Admit(site.peers, site.maxSkew, l.request, w.clock).value))
      && (forall id :: id in t.host.first ==>
            || (id in w.host.first && t.host.first[id] == w.host.first[id])
            || (l.Step? && t.host.first[id] == w.host.handlers[l.h].call.body))
      && (forall item :: item in t.host.disk.queue.ever ==>
            item in w.host.disk.queue.ever || (l.Step? && R.FromBody(item, w.host.handlers[l.h].call.body)))
  {
    if l.Step? {
      StepKeepsCall(site, w, l.h, l.newId);
      StepFirst(site, w.host, l.h, l.newId);
      R.StepFrame(site.retention, w.host.disk, w.host.handlers[l.h], l.newId);
    }
  }

  lemma CallsStep(site: Site, pace: Pace, ws: seq<World>, ls: seq<Label>, n: nat)
    requires IsRun(site, pace, ws, ls) && n < |ls| && CallsArrived(site, ws, ls, n)
    ensures CallsArrived(site, ws, ls, n + 1)
  {
    var t, next := ws[n + 1], n + 1;
    StepOrigins(site, ws[n], ls[n]);
    forall h | h in t.host.handlers ensures Arrived(site, ws, ls, next, t.host.handlers[h].call) {
      if h in ws[n].host.handlers && t.host.handlers[h].call == ws[n].host.handlers[h].call {
        ArrivedLater(site, ws, ls, n, ws[n].host.handlers[h].call);
      } else {
        ArrivesSigned(site, ws[n], ls[n].h, ls[n].request);
      }
    }
  }

  lemma FirstStep(site: Site, pace: Pace, ws: seq<World>, ls: seq<Label>, n: nat)
    requires IsRun(site, pace, ws, ls) && n < |ls| && CallsArrived(site, ws, ls, n) && FirstArrived(site, ws, ls, n)
    ensures FirstArrived(site, ws, ls, n + 1)
  {
    var t, next := ws[n + 1], n + 1;
    StepOrigins(site, ws[n], ls[n]);
    forall id | id in t.host.first ensures BodyArrived(site, ws, ls, next, t.host.first[id]) {
      BodyArrivedLater(site, ws, ls, n, t.host.first[id]);
    }
  }

  lemma ItemsStep(site: Site, pace: Pace, ws: seq<World>, ls: seq<Label>, n: nat)
    requires IsRun(site, pace, ws, ls) && n < |ls| && CallsArrived(site, ws, ls, n) && ItemsArrived(site, ws, ls, n)
    ensures ItemsArrived(site, ws, ls, n + 1)
  {
    var t, next := ws[n + 1], n + 1;
    StepOrigins(site, ws[n], ls[n]);
    forall item | item in t.host.disk.queue.ever ensures ItemArrived(site, ws, ls, next, item) {
      var body;
      if item in ws[n].host.disk.queue.ever {
        body :| R.FromBody(item, body) && BodyArrived(site, ws, ls, n, body);
      } else {
        body := ws[n].host.handlers[ls[n].h].call.body;
      }
      BodyArrivedLater(site, ws, ls, n, body);
    }
  }

  /**
   * Over every run: each call in flight, refused or acknowledged, each first body, and
   * each item that was ever queued comes from a request that arrived under the signature
   * of its peer.
   */
  lemma {:induction false} OnlySignedBodies(site: Site, pace: Pace, ws: seq<World>, ls: seq<Label>, n: nat)
    requires IsRun(site, pace, ws, ls) && n < |ws|
    ensures CallsArrived(site, ws, ls, n) && FirstArrived(site, ws, ls, n) && ItemsArrived(site, ws, ls, n)
  {
    if n > 0 {
      OnlySignedBodies(site, pace, ws, ls, n - 1);
      CallsStep(site, pace, ws, ls, n - 1);
      FirstStep(site, pace, ws, ls, n - 1);
      ItemsStep(site, pace, ws, ls, n - 1);
    }
  }

  // ---------------------------------------------------------------- repeats

  /** What a call alone answers when its delivery is published. */
  function RepeatAnswer(s: R.Host, call: R.Call): R.Outcome
    requires call.body.parsed.Some? && R.IdOf(call) in s.disk.committed && R.IdOf(call) in s.first
  {
    if call.body == s.first[R.IdOf(call)]
    then R.Acknowledged(R.IngressAck(R.IdOf(call), s.disk.committed[R.IdOf(call)].queueId, true))
    else R.Declined(R.Conflict)
  }

  /**
   * In every reachable world with a published delivery: an exact repeat of its body is
   * acknowledged at once as a duplicate with the item the receipt names, and any other body
   * of the delivery is refused as a conflict, without touching a file.
   */
  lemma RepeatIsAnswered(site: Site, pace: Pace, ws: seq<World>, ls: seq<Label>, n: nat, call: R.Call, newId: nat, steps: nat)
    requires IsRun(site, pace, ws, ls) && n < |ws| && call.body.parsed.Some? && R.IdOf(call) in ws[n].host.disk.committed && steps > 0
    ensures R.IdOf(call) in ws[n].host.first
    ensures var (d, h) := R.RunAlone(site.retention, ws[n].host.disk, R.Lookup(call), newId, steps);
      d == ws[n].host.disk && R.OutcomeOf(h) == RepeatAnswer(ws[n].host, call)
  {
    RunInv(site, pace, ws, ls, n);
    RepeatAt(site, ws[n].host, call, newId, steps);
  }

  lemma RepeatAt(site: Site, s: R.Host, call: R.Call, newId: nat, steps: nat)
    requires R.Inv(s) && call.body.parsed.Some? && R.IdOf(call) in s.disk.committed && steps > 0
    ensures R.IdOf(call) in s.first
    ensures var (d, h) := R.RunAlone(site.retention, s.disk, R.Lookup(call), newId, steps);
      d == s.disk && R.OutcomeOf(h) == RepeatAnswer(s, call)
  {
    var id := R.IdOf(call);
    PublishedFacts(s, id);
    OneAnswer(site, s.disk, call, newId, steps);
  }

  lemma OneAnswer(site: Site, d: R.Disk, call: R.Call, newId: nat, steps: nat)
    requires call.body.parsed.Some? && R.IdOf(call) in d.committed && steps > 0
    ensures R.RunAlone(site.retention, d, R.Lookup(call), newId, steps) == (d, R.Answer(call, d.committed[R.IdOf(call)]))
  {
    var answer := R.Answer(call, d.committed[R.IdOf(call)]);
    assert R.Step(site.retention, d, R.Lookup(call), newId) == (d, answer);
    assert R.RunAlone(site.retention, d, answer, newId, steps - 1) == (d, answer);
  }

  lemma PublishedFacts(s: R.Host, id: ReceiptId)
    requires R.QueueInv(s.disk.queue) && R.CommittedInv(s.first, s.disk.committed, s.disk.queue.ever) && id in s.disk.committed
    ensures id in s.first
    ensures var r := s.disk.committed[id];
      r.id == id && r.digest == Digest(s.first[id]) && r.state == R.Committed && r.committedAt != 0 && r.queueId != 0
  {
    assert R.CommittedSound(s.first, s.disk.queue.ever, id, s.disk.committed[id]);
  }
}
