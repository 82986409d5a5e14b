/**
 * The relay wire protocol: envelopes, exact bodies, derived identities and the
 * checks a receiver makes before it touches durable state.
 *
 * Digests are free constructors, so they are injective by construction. A time
 * is a number of nanoseconds since the zero time, and the zero time is 0.
 */
module Protocol {
  import opened Common

  const MAX_BODY_BYTES := 64 * 1024
  const MAX_HOP := 4
  const SECOND := 1_000_000_000
  const DEFAULT_MAX_SKEW := 300 * SECOND
  const SCOPE_INGEST := "relay:ingest"

  /** An idempotency key: a producer's own text, or the digest derived from it for the relay. */
  datatype Key =
    | Plain(text: string)
    | Delivery(team: string, origin: string, producer: string)

  datatype ReceiptId = ReceiptId(team: string, origin: string, key: Key)

  datatype Event = Event(
    source: string,
    runtime: string,
    idempotencyKey: Key,
    metadataOnly: bool,
    wellFormed: bool,
    payload: string)

  datatype Envelope = Envelope(
    version: string,
    team: string,
    origin: string,
    runtime: string,
    key: Key,
    producerKey: string,
    sentAt: int,
    nonce: string,
    hop: int,
    event: Event)

  /** The exact bytes on the wire. `encoding` tells apart byte strings that parse alike. */
  datatype Body = Body(size: nat, encoding: nat, parsed: Option<Envelope>)

  datatype Digest = Digest(body: Body)

  datatype Signature = Signature(
    publicKey: nat, httpMethod: string, target: string, sentAt: int, nonce: string, body: Body)

  datatype Peer = Peer(
    id: string,
    team: string,
    origin: string,
    publicKey: nat,
    scopes: seq<string>,
    sources: seq<string>,
    runtimes: seq<string>,
    revoked: bool)

  predicate IsAlphanumeric(c: char) {
    'a' <= c <= 'z' || 'A' <= c <= 'Z' || '0' <= c <= '9'
  }

  predicate ValidIdentifier(s: string) {
    && 1 <= |s| <= 128
    && IsAlphanumeric(s[0])
    && forall i :: 0 <= i < |s| ==> IsAlphanumeric(s[i]) || s[i] in "._:-"
  }

  predicate ValidNonce(s: string) {
    |s| == 32 && forall i :: 0 <= i < |s| ==> '0' <= s[i] <= '9' || 'a' <= s[i] <= 'f'
  }

  predicate KnownRuntime(s: string) {
    s in ["host", "wsl", "container", "ssh", "vendor-cloud"]
  }

  function DeriveDeliveryKey(team: string, origin: string, producer: string): Option<Key> {
    if ValidIdentifier(team) && ValidIdentifier(origin) && 1 <= |producer| <= 512
    then Some(Delivery(team, origin, producer))
    else None
  }

  predicate ValidEnvelope(e: Envelope) {
    && e.version == "1"
    && ValidIdentifier(e.team)
    && ValidIdentifier(e.origin)
    && KnownRuntime(e.runtime)
    && e.runtime == e.event.runtime
    && DeriveDeliveryKey(e.team, e.origin, e.producerKey) == Some(e.key)
    && e.event.idempotencyKey == Plain(e.producerKey)
    && e.sentAt != 0
    && ValidNonce(e.nonce)
    && 0 <= e.hop <= MAX_HOP
    && e.event.wellFormed
  }

  function Decode(body: Body): Option<Envelope> {
    if body.size == 0 || body.size > MAX_BODY_BYTES || body.parsed.None? || !ValidEnvelope(body.parsed.value)
    then None
    else body.parsed
  }

  function ReceiptIdOf(e: Envelope): ReceiptId {
    ReceiptId(e.team, e.origin, e.key)
  }

  /** The notification the host queues: the event under its derived delivery key. */
  function Notification(e: Envelope): Event {
    e.event.(idempotencyKey := e.key)
  }

  predicate ValidPeer(p: Peer) {
    && ValidIdentifier(p.id)
    && ValidIdentifier(p.team)
    && ValidIdentifier(p.origin)
    && |p.scopes| > 0
    && (forall i :: 0 <= i < |p.scopes| ==> ValidIdentifier(p.scopes[i]))
    && |p.sources| > 0
    && |p.runtimes| > 0
    && (forall i :: 0 <= i < |p.runtimes| ==> KnownRuntime(p.runtimes[i]))
  }

  function EffectiveSkew(maxSkew: int): (skew: int)
    ensures skew > 0
  {
    if maxSkew <= 0 then DEFAULT_MAX_SKEW else maxSkew
  }

  predicate WithinSkew(sentAt: int, now: int, maxSkew: int) {
    now - EffectiveSkew(maxSkew) <= sentAt <= now + EffectiveSkew(maxSkew)
  }

  /** Receiver-side authentication of one request; None stands for every refusal. */
  function VerifyPeer(
    peer: Peer, scope: string, httpMethod: string, target: string,
    body: Body, signature: Signature, now: int, maxSkew: int): Option<Envelope>
  {
    match Decode(body)
    case None => None
    case Some(e) =>
      if && ValidPeer(peer) && !peer.revoked
         && scope != "" && scope in peer.scopes
         && peer.team == e.team && peer.origin == e.origin
         && e.event.source in peer.sources && e.event.runtime in peer.runtimes
         && now != 0
         && WithinSkew(e.sentAt, now, maxSkew)
         && signature == Signature(peer.publicKey, httpMethod, target, e.sentAt, e.nonce, body)
      then Some(e)
      else None
  }
}
