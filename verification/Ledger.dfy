/**
 * The per-target delivery ledger of a queued envelope: its validator, its summaries,
 * and the three ways one target's entry changes.
 */
module Ledgers {
  import opened Common
  import opened Protocol

  const MAX_IDENTIFIER := 256
  const MAX_ERROR := 512

  datatype DeliveryState = Waiting | Succeeded | Dead

  datatype Disposition = AllWaiting | Partial | AllSucceeded | AllDead

  datatype Target = Target(channel: string, template: string)

  datatype Entry = Entry(
    target: Target, state: DeliveryState, attempts: int, nextAttemptAt: int, lastError: string, messageId: string)

  type Ledger = seq<Entry>

  datatype State = Pending | Inflight | Finished | Lost

  datatype Envelope = Envelope(
    id: nat,
    state: State,
    event: Event,
    attempts: nat,
    createdAt: int,
    updatedAt: int,
    nextAttemptAt: int,
    leaseUntil: int,
    lastError: string,
    manualRetries: nat,
    ledger: Option<Ledger>,
    disposition: Option<Disposition>)

  // ---------------------------------------------------------------- summaries

  ghost predicate All(l: Ledger, s: DeliveryState) {
    forall i :: 0 <= i < |l| ==> l[i].state == s
  }

  ghost predicate AnyIn(l: Ledger, s: DeliveryState) {
    exists i :: 0 <= i < |l| && l[i].state == s
  }

  /** No target is still waiting. */
  ghost predicate Terminal(l: Ledger) {
    forall i :: 0 <= i < |l| ==> l[i].state != Waiting
  }

  /** The disposition a ledger must carry. */
  ghost function DispositionOf(l: Ledger): Disposition {
    if All(l, Succeeded) then AllSucceeded
    else if All(l, Dead) then AllDead
    else if AnyIn(l, Succeeded) then Partial
    else AllWaiting
  }

  method DispositionFor(l: Ledger) returns (d: Disposition)
    ensures d == DispositionOf(l)
    ensures d == AllSucceeded <==> forall i :: 0 <= i < |l| ==> l[i].state == Succeeded
    ensures d == AllDead && l != [] ==> forall i :: 0 <= i < |l| ==> l[i].state == Dead
    ensures d == Partial <==> (exists i :: 0 <= i < |l| && l[i].state == Succeeded) && exists i :: 0 <= i < |l| && l[i].state != Succeeded
    ensures d == AllWaiting ==> (forall i :: 0 <= i < |l| ==> l[i].state != Succeeded) && exists i :: 0 <= i < |l| && l[i].state == Waiting
  {
    var succeeded, dead := 0, 0;
    for i := 0 to |l|
      invariant 0 <= succeeded <= i && 0 <= dead <= i
      invariant succeeded == i <==> forall j :: 0 <= j < i ==> l[j].state == Succeeded
      invariant dead == i <==> forall j :: 0 <= j < i ==> l[j].state == Dead
      invariant succeeded > 0 <==> exists j :: 0 <= j < i && l[j].state == Succeeded
    {
      match l[i].state
      case Succeeded => succeeded := succeeded + 1;
      case Dead => dead := dead + 1;
      case Waiting =>
    }
    d := if succeeded == |l| then AllSucceeded
         else if dead == |l| then AllDead
         else if succeeded > 0 then Partial
         else AllWaiting;
  }

  method LedgerTerminal(l: Ledger) returns (b: bool)
    ensures b <==> Terminal(l)
  {
    for i := 0 to |l|
      invariant forall j :: 0 <= j < i ==> l[j].state != Waiting
    {
      if l[i].state == Waiting {
        return false;
      }
    }
    return true;
  }

  predicate Due(e: Entry, now: int) {
    e.state == Waiting && (e.nextAttemptAt == 0 || e.nextAttemptAt <= now)
  }

  /** The targets to send to now, in ledger order. */
  function ReadyTargets(l: Ledger, now: int): (ts: seq<Target>)
    ensures |ts| <= |l|
  {
    if l == [] then []
    else ReadyTargets(l[..|l| - 1], now) + (if Due(l[|l| - 1], now) then [l[|l| - 1].target] else [])
  }

  method Ready(l: Ledger, now: int) returns (ts: seq<Target>)
    ensures ts == ReadyTargets(l, now)
  {
    ts := [];
    for i := 0 to |l|
      invariant ts == ReadyTargets(l[..i], now)
    {
      assert l[..i + 1][..i] == l[..i];
      if l[i].state == Waiting && !(l[i].nextAttemptAt != 0 && l[i].nextAttemptAt > now) {
        ts := ts + [l[i].target];
      }
    }
    assert l[..|l|] == l;
  }

  /** Ready means waiting and due: nothing else is ever in the list, and nothing of it is left out. */
  lemma {:induction false} ReadyIsDue(l: Ledger, now: int)
    ensures forall i :: 0 <= i < |l| && Due(l[i], now) ==> l[i].target in ReadyTargets(l, now)
    ensures forall t :: t in ReadyTargets(l, now) ==> exists i :: 0 <= i < |l| && l[i].target == t && Due(l[i], now)
    ensures ReadyTargets(l, now) == [] <==> forall i :: 0 <= i < |l| ==> !Due(l[i], now)
  {
    if l != [] {
      var front := l[..|l| - 1];
      ReadyIsDue(front, now);
      forall t | t in ReadyTargets(l, now) ensures exists i :: 0 <= i < |l| && l[i].target == t && Due(l[i], now) {
        if t in ReadyTargets(front, now) {
          var i :| 0 <= i < |front| && front[i].target == t && Due(front[i], now);
          assert l[i] == front[i];
        } else {
          assert l[|l| - 1].target == t;
        }
      }
      forall i | 0 <= i < |l| && Due(l[i], now) ensures l[i].target in ReadyTargets(l, now) {
        if i < |front| {
          assert front[i] == l[i];
        }
      }
    }
  }

  /** In a ledger without repeated targets the list repeats none either. */
  lemma {:induction false} ReadyDistinct(l: Ledger, now: int)
    requires forall i, j :: 0 <= i < j < |l| ==> l[i].target != l[j].target
    ensures forall i, j :: 0 <= i < j < |ReadyTargets(l, now)| ==> ReadyTargets(l, now)[i] != ReadyTargets(l, now)[j]
  {
    if l != [] {
      var front := l[..|l| - 1];
      ReadyDistinct(front, now);
      ReadyIsDue(front, now);
      var ready := ReadyTargets(front, now);
      forall i | 0 <= i < |ready| ensures ready[i] != l[|l| - 1].target {
        assert ready[i] in ready;
        var k :| 0 <= k < |front| && front[k].target == ready[i];
        assert l[k] == front[k];
      }
    }
  }

  // ---------------------------------------------------------------- the validator

  function TargetKey(t: Target): string {
    t.channel + ['\0'] + t.template
  }

  predicate ValidTarget(t: Target) {
    t.channel != "" && t.template != "" && |t.channel| <= MAX_IDENTIFIER && |t.template| <= MAX_IDENTIFIER
  }

  predicate ValidEntry(e: Entry) {
    && ValidTarget(e.target)
    && e.attempts >= 0
    && match e.state
       case Waiting => e.messageId == "" && (e.attempts == 0 ==> e.lastError == "")
       case Succeeded => e.attempts >= 1 && e.nextAttemptAt == 0 && e.lastError == ""
       case Dead => e.attempts >= 1 && e.lastError != "" && e.nextAttemptAt == 0 && e.messageId == ""
  }

  ghost predicate ValidLedger(l: Ledger) {
    && l != []
    && (forall i :: 0 <= i < |l| ==> ValidEntry(l[i]))
    && (forall i, j :: 0 <= i < j < |l| ==> TargetKey(l[i].target) != TargetKey(l[j].target))
  }

  ghost predicate ValidEnvelope(e: Envelope) {
    match e.ledger
    case None => e.disposition.None?
    case Some(l) => ValidLedger(l) && e.disposition == Some(DispositionOf(l))
  }

  method ValidateEnvelope(e: Envelope) returns (ok: bool)
    ensures ok <==> ValidEnvelope(e)
  {
    if e.ledger.None? {
      return e.disposition.None?;
    }
    var l := e.ledger.value;
    if l == [] {
      return false;
    }
    var seen: set<string> := {};
    for i := 0 to |l|
      invariant forall j :: 0 <= j < i ==> ValidEntry(l[j]) && TargetKey(l[j].target) in seen
      invariant forall k :: k in seen ==> exists j :: 0 <= j < i && TargetKey(l[j].target) == k
      invariant forall j, k :: 0 <= j < k < i ==> TargetKey(l[j].target) != TargetKey(l[k].target)
    {
      if !ValidEntry(l[i]) || TargetKey(l[i].target) in seen {
        return false;
      }
      seen := seen + {TargetKey(l[i].target)};
    }
    var d := DispositionFor(l);
    return e.disposition == Some(d);
  }

  function IndexOf(l: Ledger, t: Target): (k: int)
    ensures -1 <= k < |l|
    ensures k >= 0 ==> l[k].target == t
    ensures k == -1 ==> forall i :: 0 <= i < |l| ==> l[i].target != t
  {
    IndexFrom(l, t, 0)
  }

  function IndexFrom(l: Ledger, t: Target, from: nat): (k: int)
    requires from <= |l|
    ensures k == -1 || from <= k < |l|
    ensures k >= 0 ==> l[k].target == t
    ensures k == -1 ==> forall i :: from <= i < |l| ==> l[i].target != t
    decreases |l| - from
  {
    if from == |l| then -1
    else if l[from].target == t then from
    else IndexFrom(l, t, from + 1)
  }

  lemma DistinctTargets(l: Ledger)
    requires ValidLedger(l)
    ensures forall i, j :: 0 <= i < j < |l| ==> l[i].target != l[j].target
  {
  }

  // ---------------------------------------------------------------- updates of one entry

  function TruncateError(cause: string): string {
    if |cause| > MAX_ERROR then cause[..MAX_ERROR] else cause
  }

  function AckEntry(e: Entry, messageId: string): Option<Entry> {
    match e.state
    case Succeeded => Some(e)
    case Waiting => Some(Entry(e.target, Succeeded, e.attempts + 1, 0, "", messageId))
    case Dead => None
  }

  function NackEntry(e: Entry, cause: string, nextAttemptAt: int): Option<Entry> {
    if e.state != Waiting then None
    else Some(Entry(e.target, Waiting, e.attempts + 1, nextAttemptAt, TruncateError(cause), ""))
  }

  function DeadEntry(e: Entry, cause: string): Option<Entry> {
    match e.state
    case Dead => Some(e)
    case Waiting => Some(Entry(e.target, Dead, e.attempts + 1, 0, TruncateError(cause), ""))
    case Succeeded => None
  }

  /** The three updates of one target's entry. */
  datatype Update = AckWith(messageId: string) | NackWith(cause: string, nextAttemptAt: int) | BuryWith(cause: string)

  function UpdateEntry(e: Entry, u: Update): Option<Entry> {
    match u
    case AckWith(messageId) => AckEntry(e, messageId)
    case NackWith(cause, next) => NackEntry(e, cause, next)
    case BuryWith(cause) => DeadEntry(e, cause)
  }

  ghost function WithEntry(e: Envelope, k: nat, entry: Entry, now: int): Envelope
    requires e.ledger.Some? && k < |e.ledger.value|
  {
    var l := e.ledger.value[k := entry];
    e.(ledger := Some(l), disposition := Some(DispositionOf(l)), updatedAt := now)
  }

  /** Replacing the entry of one target by a valid one of the same target keeps the envelope valid. */
  lemma UpdateKeepsValid(e: Envelope, k: nat, entry: Entry, now: int)
    requires ValidEnvelope(e) && e.ledger.Some? && k < |e.ledger.value|
    requires entry.target == e.ledger.value[k].target
    ensures ValidEnvelope(WithEntry(e, k, entry, now)) <==> ValidEntry(entry)
  {
    var l, m := e.ledger.value, e.ledger.value[k := entry];
    assert m[k] == entry;
    assert forall i :: 0 <= i < |m| ==> m[i].target == l[i].target;
    assert ValidEntry(entry) ==> ValidLedger(m);
  }

  /** The one update the validator can refuse: burying a target under an error without text. */
  lemma OnlyBlankDeathRefused(e: Entry, cause: string, messageId: string, next: int)
    requires ValidEntry(e) && e.state == Waiting
    ensures AckEntry(e, messageId).Some? && ValidEntry(AckEntry(e, messageId).value)
    ensures NackEntry(e, cause, next).Some? && ValidEntry(NackEntry(e, cause, next).value)
    ensures DeadEntry(e, cause).Some? && (ValidEntry(DeadEntry(e, cause).value) <==> cause != "")
  {
  }
}
