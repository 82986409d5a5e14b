/**
 * The local queue's state directories. An envelope moves from pending to inflight under
 * a lease and from there to history, to dead, or back to pending; every move writes its
 * destination and then removes its source. Operations take a `life`: the number of file
 * operations completed before the process dies.
 */
module Queues {
  import opened Common
  import opened Slots
  import opened Listings
  import opened Ledgers

  type FileName = string

  type QueueSlot = Slot<Envelope>

  // ---------------------------------------------------------------- one envelope

  predicate ReadyAt(e: Envelope, now: int) {
    e.nextAttemptAt == 0 || e.nextAttemptAt <= now
  }

  function ClaimedEnvelope(e: Envelope, now: int, lease: int): Envelope {
    e.(state := Inflight, updatedAt := now, leaseUntil := now + lease)
  }

  function AckedEnvelope(e: Envelope, now: int): Envelope {
    e.(state := Finished, updatedAt := now, leaseUntil := 0, nextAttemptAt := 0, lastError := "")
  }

  function NackedEnvelope(e: Envelope, cause: string, now: int, backoff: seq<int>): (r: Envelope)
    ensures r.state == Lost || r.state == Pending
    ensures r.ledger == e.ledger && r.disposition == e.disposition
  {
    var n := e.attempts + 1;
    var failed := e.(attempts := n, updatedAt := now, leaseUntil := 0, lastError := TruncateError(cause));
    if n >= |backoff|
    then failed.(state := Lost, nextAttemptAt := 0)
    else failed.(state := Pending, nextAttemptAt := now + backoff[n - 1])
  }

  function DeferredEnvelope(e: Envelope, now: int, next: int): Envelope {
    e.(state := Pending, updatedAt := now, leaseUntil := 0, nextAttemptAt := next)
  }

  function RecoveredEnvelope(e: Envelope, now: int): Envelope {
    e.(state := Pending, updatedAt := now, leaseUntil := 0)
  }

  function RetriedEnvelope(e: Envelope, now: int): Envelope {
    e.(state := Pending, attempts := 0, lastError := "", nextAttemptAt := 0, manualRetries := e.manualRetries + 1, updatedAt := now)
  }

  ghost predicate CanAck(e: Envelope) {
    e.state == Inflight && (e.ledger.Some? ==> ValidEnvelope(e) && Terminal(e.ledger.value))
  }

  predicate CanNack(e: Envelope) {
    e.state == Inflight && e.ledger.None?
  }

  ghost predicate CanDefer(e: Envelope, now: int, next: int) {
    && e.state == Inflight && e.ledger.Some?
    && next != 0 && next > now
    && ValidEnvelope(e) && !Terminal(e.ledger.value)
  }

  // ---------------------------------------------------------------- one slot

  function ClaimOp(s: QueueSlot, now: int, lease: int, life: nat): QueueSlot {
    if s.pending.None? || !ReadyAt(s.pending.value, now) || life == 0 then s
    else
      var written := if s.inflight.Some? then s else s.(inflight := Some(ClaimedEnvelope(s.pending.value, now, lease)));
      if life == 1 then written else written.(pending := None)
  }

  function At(s: QueueSlot, d: State): Option<Envelope> {
    match d
    case Pending => s.pending
    case Inflight => s.inflight
    case Finished => s.history
    case Lost => s.dead
  }

  function Put(s: QueueSlot, d: State, e: Envelope): QueueSlot {
    match d
    case Pending => s.(pending := Some(e))
    case Inflight => s.(inflight := Some(e))
    case Finished => s.(history := Some(e))
    case Lost => s.(dead := Some(e))
  }

  /** transitionEnvelope out of inflight: an existing destination refuses it. */
  function LeaveInflight(s: QueueSlot, e: Envelope, life: nat): QueueSlot {
    if life == 0 || At(s, e.state).Some? then s
    else if life == 1 then Put(s, e.state, e)
    else Put(s, e.state, e).(inflight := None)
  }

  ghost function AckOp(s: QueueSlot, e: Envelope, now: int, life: nat): QueueSlot {
    if CanAck(e) then LeaveInflight(s, AckedEnvelope(e, now), life) else s
  }

  function NackOp(s: QueueSlot, e: Envelope, cause: string, now: int, backoff: seq<int>, life: nat): QueueSlot {
    if CanNack(e) then LeaveInflight(s, NackedEnvelope(e, cause, now, backoff), life) else s
  }

  ghost function DeferOp(s: QueueSlot, e: Envelope, now: int, next: int, life: nat): QueueSlot {
    if CanDefer(e, now, next) then LeaveInflight(s, DeferredEnvelope(e, now, next), life) else s
  }

  /** A ledger write replaces the inflight file, which must be there. */
  function ReplaceOp(s: QueueSlot, e: Envelope, life: nat): QueueSlot {
    if s.inflight.None? || life == 0 then s else s.(inflight := Some(e))
  }

  predicate Settled(s: QueueSlot) {
    s.pending.Some? || s.history.Some? || s.dead.Some?
  }

  predicate LeaseHeld(e: Envelope, now: int) {
    e.leaseUntil != 0 && e.leaseUntil > now
  }

  function RecoverOp(s: QueueSlot, now: int, life: nat): QueueSlot {
    if s.inflight.None? then s
    else if Settled(s) then if life == 0 then s else s.(inflight := None)
    else if LeaseHeld(s.inflight.value, now) then s
    else LeaveInflight(s, RecoveredEnvelope(s.inflight.value, now), life)
  }

  /** A retry writes the pending copy, then removes the dead one. */
  function RetryOp(s: QueueSlot, now: int, life: nat): QueueSlot {
    if s.dead.None? || s.pending.Some? || life == 0 then s
    else
      var written := s.(pending := Some(RetriedEnvelope(s.dead.value, now)));
      if life == 1 then written else written.(dead := None)
  }

  // ---------------------------------------------------------------- what every slot keeps

  ghost predicate CopyOk(o: Option<Envelope>, d: State, ledger: Option<Ledger>) {
    o.Some? ==> o.value.state == d && o.value.ledger == ledger && ValidEnvelope(o.value)
  }

  /** All copies carry one valid ledger, so none of them has lost a recorded success. */
  ghost predicate SlotOk(s: QueueSlot, ledger: Option<Ledger>) {
    && CopyOk(s.pending, Pending, ledger)
    && CopyOk(s.inflight, Inflight, ledger)
    && CopyOk(s.history, Finished, ledger)
    && CopyOk(s.dead, Lost, ledger)
    && OneSettled(s)
    && (s.dead.Some? ==> ledger.None?)
  }

  predicate Held(s: QueueSlot, e: Envelope) {
    s == Slot(None, Some(e), None, None) && e.state == Inflight
  }

  lemma ClaimKeepsSlot(s: QueueSlot, ledger: Option<Ledger>, now: int, lease: int, life: nat)
    requires SlotOk(s, ledger)
    ensures var t := ClaimOp(s, now, lease, life);
      && SlotOk(t, ledger)
      && (Copies(s) > 0 ==> Copies(t) > 0)
      && (life >= 2 && s.pending.Some? && ReadyAt(s.pending.value, now) && Copies(s) == 1 ==>
            Held(t, ClaimedEnvelope(s.pending.value, now, lease)))
  {
  }

  lemma LeaveKeepsSlot(s: QueueSlot, ledger: Option<Ledger>, e: Envelope, next: Envelope, life: nat)
    requires SlotOk(s, ledger) && Held(s, e)
    requires next.state != Inflight && next.ledger == ledger && ValidEnvelope(next)
    requires next.state == Lost ==> ledger.None?
    ensures var t := LeaveInflight(s, next, life);
      && SlotOk(t, ledger)
      && Copies(t) > 0
      && (life == 0 ==> t == s)
      && (life == 1 ==> t == Put(s, next.state, next))
      && (life >= 2 ==> Copies(t) == 1 && At(t, next.state) == Some(next))
  {
  }

  lemma ReplaceKeepsSlot(s: QueueSlot, ledger: Option<Ledger>, e: Envelope, next: Envelope, life: nat)
    requires SlotOk(s, ledger) && Held(s, e) && next.state == Inflight && ValidEnvelope(next)
    ensures var t := ReplaceOp(s, next, life);
      && SlotOk(t, if life == 0 then ledger else next.ledger)
      && Held(t, if life == 0 then e else next)
  {
  }

  /** Recovery loses neither the item nor a ledger entry, and a complete pass leaves one copy. */
  lemma RecoverKeepsSlot(s: QueueSlot, ledger: Option<Ledger>, now: int, life: nat)
    requires SlotOk(s, ledger)
    ensures var t := RecoverOp(s, now, life);
      && SlotOk(t, ledger)
      && (Copies(s) > 0 ==> Copies(t) > 0)
      && (Copies(s) > 0 && life >= 2 ==> Copies(t) == 1)
      && t.history == s.history && t.dead == s.dead
      && (s.pending.Some? ==> t.pending == s.pending)
  {
  }

  /** A retry that is not cut in half keeps the item and its ledger. */
  lemma RetryKeepsSlot(s: QueueSlot, ledger: Option<Ledger>, now: int, life: nat)
    requires SlotOk(s, ledger) && life != 1
    ensures var t := RetryOp(s, now, life); SlotOk(t, ledger) && Copies(t) == Copies(s)
  {
  }

  // ---------------------------------------------------------------- resolving and updating targets

  /** One waiting entry per target. */
  function FreshLedger(targets: seq<Target>): (l: Ledger)
    ensures |l| == |targets|
    ensures forall i :: 0 <= i < |l| ==> l[i] == Entry(targets[i], Waiting, 0, 0, "", "")
  {
    seq(|targets|, i requires 0 <= i < |targets| => Entry(targets[i], Waiting, 0, 0, "", ""))
  }

  ghost predicate GoodTargets(targets: seq<Target>) {
    && targets != []
    && (forall i :: 0 <= i < |targets| ==> ValidTarget(targets[i]))
    && (forall i, j :: 0 <= i < j < |targets| ==> TargetKey(targets[i]) != TargetKey(targets[j]))
  }

  /** Channel and template names without NUL tell targets apart. */
  lemma KeysTellApart(a: Target, b: Target)
    requires '\0' !in a.channel && '\0' !in b.channel
    ensures TargetKey(a) == TargetKey(b) <==> a == b
  {
    if TargetKey(a) == TargetKey(b) {
      var k := TargetKey(a);
      assert forall j :: 0 <= j < |a.channel| ==> k[j] == a.channel[j] != '\0';
      assert forall j :: 0 <= j < |b.channel| ==> k[j] == b.channel[j] != '\0';
      assert k[|a.channel|] == '\0' && k[|b.channel|] == '\0';
      assert a.channel == k[..|a.channel|] && b.channel == k[..|b.channel|];
      assert a.template == k[|a.channel| + 1..] && b.template == k[|b.channel| + 1..];
    }
  }

  /** Targets are accepted exactly when there are some, their names have 1 to 256 characters, and no two are the same. */
  lemma GoodTargetsIff(targets: seq<Target>)
    requires forall i :: 0 <= i < |targets| ==> '\0' !in targets[i].channel
    ensures GoodTargets(targets) <==>
      && |targets| > 0
      && (forall i :: 0 <= i < |targets| ==> 0 < |targets[i].channel| < 257 && 0 < |targets[i].template| < 257)
      && (forall i, j :: 0 <= i < j < |targets| ==> targets[i] != targets[j])
  {
    forall i, j | 0 <= i < j < |targets| ensures TargetKey(targets[i]) == TargetKey(targets[j]) <==> targets[i] == targets[j] {
      KeysTellApart(targets[i], targets[j]);
    }
  }

  method NewLedger(targets: seq<Target>) returns (l: Option<Ledger>)
    ensures l == if GoodTargets(targets) then Some(FreshLedger(targets)) else None
  {
    if targets == [] {
      return None;
    }
    var seen: set<string> := {};
    var entries: Ledger := [];
    for i := 0 to |targets|
      invariant entries == FreshLedger(targets[..i])
      invariant forall j :: 0 <= j < i ==> ValidTarget(targets[j]) && TargetKey(targets[j]) in seen
      invariant forall k :: k in seen ==> exists j :: 0 <= j < i && TargetKey(targets[j]) == k
      invariant forall j, k :: 0 <= j < k < i ==> TargetKey(targets[j]) != TargetKey(targets[k])
    {
      if !ValidTarget(targets[i]) || TargetKey(targets[i]) in seen {
        return None;
      }
      seen := seen + {TargetKey(targets[i])};
      entries := entries + [Entry(targets[i], Waiting, 0, 0, "", "")];
    }
    assert targets[..|targets|] == targets;
    return Some(entries);
  }

  /** The envelope after its targets are resolved; an already resolved one is left alone. */
  ghost function ResolvedEnvelope(e: Envelope, targets: seq<Target>, now: int): Option<Envelope> {
    if e.state != Inflight then None
    else if e.ledger.Some? then if ValidEnvelope(e) then Some(e) else None
    else if !GoodTargets(targets) then None
    else
      var l := FreshLedger(targets);
      Some(e.(ledger := Some(l), disposition := Some(DispositionOf(l)), updatedAt := now))
  }

  lemma ResolvedIsValid(e: Envelope, targets: seq<Target>, now: int)
    requires ResolvedEnvelope(e, targets, now).Some?
    ensures ValidEnvelope(ResolvedEnvelope(e, targets, now).value)
  {
  }

  /** The envelope with a new entry k; None when there is none or the validator refuses it. */
  ghost function ReplacedEntry(e: Envelope, k: int, entry: Option<Entry>, now: int): Option<Envelope>
    requires e.ledger.Some? && k < |e.ledger.value|
  {
    if k < 0 || entry.None? then None
    else
      var next := WithEntry(e, k, entry.value, now);
      if ValidEnvelope(next) then Some(next) else None
  }

  /** The envelope after one target's entry is updated; None when any check refuses. */
  ghost function UpdatedEnvelope(e: Envelope, t: Target, update: Update, now: int): Option<Envelope> {
    if e.state != Inflight || e.ledger.None? || !ValidEnvelope(e) then None
    else
      var k := IndexOf(e.ledger.value, t);
      ReplacedEntry(e, k, if k < 0 then None else UpdateEntry(e.ledger.value[k], update), now)
  }

  // ---------------------------------------------------------------- the store

  datatype Item = Item(file: FileName, env: Envelope)

  datatype Result<T> = Died | Failed | Done(value: T)

  datatype Directories = Directories(
    pending: map<FileName, Envelope>,
    inflight: map<FileName, Envelope>,
    history: map<FileName, Envelope>,
    dead: map<FileName, Envelope>)

  function SlotAt(f: Directories, n: FileName): QueueSlot {
    Slot(Get(f.pending, n), Get(f.inflight, n), Get(f.history, n), Get(f.dead, n))
  }

  ghost predicate OnlyChanges(f: Directories, g: Directories, n: FileName) {
    forall other :: other != n ==> SlotAt(g, other) == SlotAt(f, other)
  }

  /** The inflight file of the item was rewritten with `next`; a refused update changes nothing. */
  ghost predicate Rewritten(f: Directories, g: Directories, item: Item, next: Option<Envelope>, life: nat, r: Result<Item>) {
    if item.file == "" || next.None? then r == Failed && g == f
    else
      && SlotAt(g, item.file) == ReplaceOp(SlotAt(f, item.file), next.value, life)
      && r == (if item.file !in f.inflight then Failed else if life == 0 then Died else Done(Item(item.file, next.value)))
  }

  /** What a claim may do: drop a ready pending file that is inflight, and write at most one claimed copy. */
  ghost predicate ClaimEffect(
    pending: map<FileName, Envelope>, inflight: map<FileName, Envelope>,
    pending': map<FileName, Envelope>, inflight': map<FileName, Envelope>, now: int, lease: int)
  {
    && (forall n :: n in pending' ==> n in pending && pending'[n] == pending[n])
    && (forall n :: n in pending && n !in pending' ==> n in inflight' && ReadyAt(pending[n], now))
    && (forall n :: n in inflight ==> n in inflight' && inflight'[n] == inflight[n])
    && (forall n :: n in inflight' && n !in inflight ==>
          n in pending && ReadyAt(pending[n], now) && inflight'[n] == ClaimedEnvelope(pending[n], now, lease))
    && (forall a, b :: a in inflight' && a !in inflight && b in inflight' && b !in inflight ==> a == b)
  }

  lemma ClaimEffectStep(
    pending0: map<FileName, Envelope>, inflight: map<FileName, Envelope>, pending: map<FileName, Envelope>,
    now: int, lease: int, n: FileName, life: nat)
    requires ClaimEffect(pending0, inflight, pending, inflight, now, lease)
    requires n in pending && ReadyAt(pending[n], now)
    ensures ClaimEffect(pending0, inflight,
      if life < 2 then pending else pending - {n},
      if life == 0 || n in inflight then inflight else inflight[n := ClaimedEnvelope(pending[n], now, lease)],
      now, lease)
  {
  }

  /** File by file, a claim cut off anywhere is a claim of one slot cut off somewhere. */
  lemma ClaimIsPerSlot(f: Directories, g: Directories, now: int, lease: int, n: FileName)
    requires ClaimEffect(f.pending, f.inflight, g.pending, g.inflight, now, lease)
    requires f.history == g.history && f.dead == g.dead
    ensures exists life: nat :: SlotAt(g, n) == ClaimOp(SlotAt(f, n), now, lease, life)
  {
    var s, t := SlotAt(f, n), SlotAt(g, n);
    if t.pending != s.pending {
      assert t == ClaimOp(s, now, lease, 2);
    } else if t.inflight != s.inflight {
      assert t == ClaimOp(s, now, lease, 1);
    } else {
      assert t == ClaimOp(s, now, lease, 0);
    }
  }

  ghost predicate AllValid(m: map<FileName, Envelope>) {
    forall n :: n in m ==> ValidEnvelope(m[n])
  }

  class Queue {
    var pending: map<FileName, Envelope>
    var inflight: map<FileName, Envelope>
    var history: map<FileName, Envelope>
    var dead: map<FileName, Envelope>

    ghost function Files(): Directories
      reads this
    {
      Directories(pending, inflight, history, dead)
    }

    ghost function SlotOf(n: FileName): QueueSlot
      reads this
    {
      SlotAt(Files(), n)
    }

    /** Every stored envelope passes the validator, so a listing has nothing to quarantine. */
    ghost predicate Valid()
      reads this
    {
      AllValid(pending) && AllValid(inflight) && AllValid(history) && AllValid(dead)
    }

    method ClaimFile(n: FileName, now: int, lease: int, life: nat) returns (r: Result<Option<Item>>, left: nat)
      requires Valid() && n in pending && ReadyAt(pending[n], now)
      modifies this`pending, this`inflight
      ensures Valid()
      ensures SlotOf(n) == ClaimOp(old(SlotOf(n)), now, lease, life)
      ensures inflight == if life == 0 || n in old(inflight) then old(inflight) else old(inflight)[n := ClaimedEnvelope(old(pending)[n], now, lease)]
      ensures pending == if life < 2 then old(pending) else old(pending) - {n}
      ensures r == Died <==> life < 2
      ensures r != Failed
      ensures r.Done? ==> r.value == if n in old(inflight) then None else Some(Item(n, ClaimedEnvelope(old(pending)[n], now, lease)))
    {
      if life == 0 {
        return Died, 0;
      }
      var e := pending[n];
      e := e.(state := Inflight, updatedAt := now, leaseUntil := now + lease);
      var present := n in inflight;
      if !present {
        inflight := inflight[n := e];
      }
      if life == 1 {
        return Died, 0;
      }
      pending := pending - {n};
      return Done(if present then None else Some(Item(n, e))), life - 2;
    }

    /** Claims the oldest ready envelope that is not already inflight. */
    method Claim(now: int, lease: int, life: nat) returns (r: Result<Option<Item>>, left: nat)
      requires Valid()
      modifies this`pending, this`inflight
      ensures Valid()
      ensures ClaimEffect(old(pending), old(inflight), pending, inflight, now, lease)
      ensures r != Failed
      ensures r == Done(None) ==> inflight == old(inflight) && forall n :: n in pending ==> !ReadyAt(pending[n], now)
      ensures r.Done? && r.value.Some? ==>
        var item := r.value.value;
        && item.file in old(pending) && item.file !in old(inflight) && ReadyAt(old(pending)[item.file], now)
        && item.file !in pending
        && inflight == old(inflight)[item.file := item.env] && item.env.leaseUntil == now + lease
        && (forall n :: n in old(pending) && n !in old(inflight) && ReadyAt(old(pending)[n], now) ==>
              old(pending)[item.file].createdAt <= old(pending)[n].createdAt)
    {
      var order := List(map n | n in pending :: pending[n].createdAt);
      left := life;
      var i := 0;
      while i < |order|
        invariant 0 <= i <= |order| && Valid()
        invariant inflight == old(inflight)
        invariant ClaimEffect(old(pending), old(inflight), pending, inflight, now, lease)
        invariant forall n :: n in pending && ReadyAt(pending[n], now) ==> n in order[i..]
        invariant forall j :: i <= j < |order| ==> order[j] in pending
      {
        var n := order[i];
        i := i + 1;
        if ReadyAt(pending[n], now) {
          ClaimEffectStep(old(pending), inflight, pending, now, lease, n, left);
          r, left := ClaimFile(n, now, lease, left);
          if r.Died? || r.value.Some? {
            return;
          }
        }
      }
      return Done(None), left;
    }

    /** transitionEnvelope out of inflight. */
    method Transition(n: FileName, e: Envelope, life: nat) returns (r: Result<()>, left: nat)
      requires e.state != Inflight
      modifies this
      ensures SlotOf(n) == LeaveInflight(old(SlotOf(n)), e, life)
      ensures OnlyChanges(old(Files()), Files(), n)
      ensures old(Valid()) && ValidEnvelope(e) ==> Valid()
      ensures r.Failed? <==> life > 0 && At(old(SlotOf(n)), e.state).Some?
      ensures r.Died? ==> life < 2
      ensures r.Done? ==> life >= 2 && left == life - 2
    {
      if life == 0 {
        return Died, 0;
      }
      match e.state {
        case Pending =>
          if n in pending { return Failed, life; }
          pending := pending[n := e];
        case Finished =>
          if n in history { return Failed, life; }
          history := history[n := e];
        case Lost =>
          if n in dead { return Failed, life; }
          dead := dead[n := e];
      }
      if life == 1 {
        return Died, 0;
      }
      inflight := inflight - {n};
      return Done(()), life - 2;
    }

    method Ack(item: Item, now: int, life: nat) returns (r: Result<Envelope>)
      modifies this
      ensures SlotOf(item.file) == if item.file == "" then old(SlotOf("")) else AckOp(old(SlotOf(item.file)), item.env, now, life)
      ensures OnlyChanges(old(Files()), Files(), item.file)
      ensures old(Valid()) && ValidEnvelope(item.env) ==> Valid()
      ensures r.Done? ==> life >= 2 && r.value == AckedEnvelope(item.env, now)
      ensures r.Died? ==> life < 2
      ensures r.Failed? <==> item.file == "" || !CanAck(item.env) || (life > 0 && old(SlotOf(item.file)).history.Some?)
      ensures item.env.state != Inflight || SomeWait(item.env.ledger) ==> r.Failed? && SlotOf(item.file) == old(SlotOf(item.file))
    {
      if item.env.state != Inflight || item.file == "" {
        return Failed;
      }
      if item.env.ledger.Some? {
        var valid := ValidateEnvelope(item.env);
        var terminal := LedgerTerminal(item.env.ledger.value);
        if !valid || !terminal {
          return Failed;
        }
      }
      var updated := item.env.(state := Finished, updatedAt := now, leaseUntil := 0, nextAttemptAt := 0, lastError := "");
      var moved, left := Transition(item.file, updated, life);
      r := match moved case Died => Died case Failed => Failed case Done(_) => Done(updated);
    }

    method Nack(item: Item, cause: string, now: int, backoff: seq<int>, life: nat) returns (r: Result<Envelope>)
      modifies this
      ensures SlotOf(item.file) == if item.file == "" then old(SlotOf("")) else NackOp(old(SlotOf(item.file)), item.env, cause, now, backoff, life)
      ensures OnlyChanges(old(Files()), Files(), item.file)
      ensures old(Valid()) && ValidEnvelope(item.env) ==> Valid()
      ensures r.Done? ==> life >= 2 && r.value == NackedEnvelope(item.env, cause, now, backoff)
      ensures r.Done? ==> PutOffOrBuried(item.env, now, backoff, r.value)
      ensures item.env.state != Inflight || item.env.ledger.Some? ==> r.Failed? && SlotOf(item.file) == old(SlotOf(item.file))
      ensures r.Failed? <==> item.file == "" || !CanNack(item.env) || (life > 0 && At(old(SlotOf(item.file)), NackedEnvelope(item.env, cause, now, backoff).state).Some?)
    {
      if item.env.state != Inflight || item.file == "" || item.env.ledger.Some? {
        return Failed;
      }
      var updated := item.env.(attempts := item.env.attempts + 1);
      updated := updated.(updatedAt := now, leaseUntil := 0, lastError := TruncateError(cause));
      if updated.attempts >= |backoff| {
        updated := updated.(state := Lost, nextAttemptAt := 0);
      } else {
        updated := updated.(state := Pending, nextAttemptAt := now + backoff[updated.attempts - 1]);
      }
      var moved, left := Transition(item.file, updated, life);
      r := match moved case Died => Died case Failed => Failed case Done(_) => Done(updated);
    }

    method Defer(item: Item, now: int, next: int, life: nat) returns (r: Result<Envelope>)
      modifies this
      ensures SlotOf(item.file) == if item.file == "" then old(SlotOf("")) else DeferOp(old(SlotOf(item.file)), item.env, now, next, life)
      ensures OnlyChanges(old(Files()), Files(), item.file)
      ensures old(Valid()) && ValidEnvelope(item.env) ==> Valid()
      ensures r.Done? ==> life >= 2 && r.value == DeferredEnvelope(item.env, now, next)
      ensures r.Died? ==> life < 2
      ensures r.Failed? <==> item.file == "" || !CanDefer(item.env, now, next) || (life > 0 && old(SlotOf(item.file)).pending.Some?)
      ensures item.env.state != Inflight || next <= now || next == 0 || !SomeWait(item.env.ledger) ==>
        r.Failed? && SlotOf(item.file) == old(SlotOf(item.file))
    {
      if item.env.state != Inflight || item.file == "" || item.env.ledger.None? || next == 0 || next <= now {
        return Failed;
      }
      var valid := ValidateEnvelope(item.env);
      var terminal := LedgerTerminal(item.env.ledger.value);
      if !valid || terminal {
        return Failed;
      }
      var updated := item.env.(state := Pending, updatedAt := now, leaseUntil := 0, nextAttemptAt := next);
      var moved, left := Transition(item.file, updated, life);
      r := match moved case Died => Died case Failed => Failed case Done(_) => Done(updated);
    }

    /** replace: rewrites the inflight file, which must exist. */
    method Replace(n: FileName, e: Envelope, life: nat) returns (r: Result<()>)
      modifies this`inflight
      ensures SlotOf(n) == ReplaceOp(old(SlotOf(n)), e, life)
      ensures OnlyChanges(old(Files()), Files(), n)
      ensures old(Valid()) && ValidEnvelope(e) ==> Valid()
      ensures r == if n !in old(inflight) then Failed else if life == 0 then Died else Done(())
    {
      if n !in inflight {
        return Failed;
      }
      if life == 0 {
        return Died;
      }
      inflight := inflight[n := e];
      return Done(());
    }

    method ResolveTargets(item: Item, targets: seq<Target>, now: int, life: nat) returns (r: Result<(Item, seq<Target>)>)
      modifies this`inflight
      ensures OnlyChanges(old(Files()), Files(), item.file)
      ensures old(Valid()) ==> Valid()
      ensures item.file == "" || ResolvedEnvelope(item.env, targets, now).None? ==> r == Failed && Files() == old(Files())
      ensures item.file != "" && ResolvedEnvelope(item.env, targets, now).Some? ==>
        var next := ResolvedEnvelope(item.env, targets, now).value;
        && SlotOf(item.file) == (if item.env.ledger.Some? then old(SlotOf(item.file)) else ReplaceOp(old(SlotOf(item.file)), next, life))
        && (r.Done? ==> r.value == (Item(item.file, next), ReadyTargets(next.ledger.value, now)))
        && (r.Done? <==> item.env.ledger.Some? || (item.file in old(inflight) && life > 0))
        && (r.Failed? <==> item.env.ledger.None? && item.file !in old(inflight))
    {
      if item.env.state != Inflight || item.file == "" {
        return Failed;
      }
      var e := item.env;
      if e.ledger.None? {
        var l := NewLedger(targets);
        if l.None? {
          return Failed;
        }
        var d := DispositionFor(l.value);
        e := e.(ledger := l, disposition := Some(d), updatedAt := now);
        ResolvedIsValid(item.env, targets, now);
        var written := Replace(item.file, e, life);
        if !written.Done? {
          return if written.Died? then Died else Failed;
        }
      } else {
        var valid := ValidateEnvelope(e);
        if !valid {
          return Failed;
        }
      }
      var ready := Ready(e.ledger.value, now);
      return Done((Item(item.file, e), ready));
    }

    /** Rewrites one target's ledger entry; a refused update changes nothing. */
    method UpdateTarget(item: Item, t: Target, update: Update, now: int, life: nat) returns (r: Result<Item>)
      modifies this`inflight
      ensures OnlyChanges(old(Files()), Files(), item.file)
      ensures old(Valid()) ==> Valid()
      ensures Rewritten(old(Files()), Files(), item, UpdatedEnvelope(item.env, t, update, now), life, r)
    {
      if item.env.state != Inflight || item.file == "" || item.env.ledger.None? {
        return Failed;
      }
      var valid := ValidateEnvelope(item.env);
      var k := IndexOf(item.env.ledger.value, t);
      if !valid || k < 0 {
        return Failed;
      }
      var entry := UpdateEntry(item.env.ledger.value[k], update);
      if entry.None? {
        return Failed;
      }
      var l := item.env.ledger.value[k := entry.value];
      var d := DispositionFor(l);
      var updated := item.env.(ledger := Some(l), disposition := Some(d), updatedAt := now);
      valid := ValidateEnvelope(updated);
      if !valid {
        return Failed;
      }
      var written := Replace(item.file, updated, life);
      r := match written case Died => Died case Failed => Failed case Done(_) => Done(Item(item.file, updated));
    }

    method RecoverFile(n: FileName, now: int, life: nat) returns (r: Result<bool>, left: nat)
      requires Valid() && n in inflight
      modifies this
      ensures Valid()
      ensures RecoverCut(old(SlotOf(n)), SlotOf(n), now)
      ensures OnlyChanges(old(Files()), Files(), n)
      ensures r != Failed
      ensures r.Done? ==>
        && SlotOf(n) == RecoverOp(old(SlotOf(n)), now, 2)
        && (r.value <==> Expired(old(SlotOf(n)), now))
    {
      var e := inflight[n];
      if n in pending || n in history || n in dead {
        if life == 0 {
          return Died, 0;
        }
        inflight := inflight - {n};
        return Done(false), life - 1;
      }
      if e.leaseUntil != 0 && e.leaseUntil > now {
        return Done(false), life;
      }
      var moved;
      moved, left := Transition(n, e.(state := Pending, updatedAt := now, leaseUntil := 0), life);
      r := if moved.Done? then Done(true) else Died;
    }

    /** A recovery pass over the inflight directory, cut off after `life` file operations. */
    method RecoverExpired(now: int, life: nat) returns (r: Result<nat>)
      requires Valid()
      modifies this
      ensures Valid()
      ensures r != Failed
      ensures forall n :: RecoverCut(old(SlotOf(n)), SlotOf(n), now)
      ensures r.Done? ==> forall n :: SlotOf(n) == RecoverOp(old(SlotOf(n)), now, 2)
      ensures r.Done? ==> r.value == |ExpiredFiles(old(Files()), old(inflight).Keys, now)|
      ensures r.Done? ==> LeasesRespected(old(Files()), Files(), now)
    {
      var order := List(map n | n in inflight :: inflight[n].createdAt);
      var left := life;
      var i := 0;
      var recovered := 0;
      ghost var before := Files();
      PassStart(before, order, now);
      while i < |order|
        invariant Valid() && PassAt(before, Files(), order, i, recovered, now)
      {
        var n := order[i];
        PassNext(before, Files(), order, i, recovered, now);
        ghost var here := Files();
        var one;
        one, left := RecoverFile(n, now, left);
        if one.Died? {
          PassCut(before, here, Files(), order, i, recovered, now);
          return Died;
        }
        PassStep(before, here, Files(), order, i, recovered, now);
        if one.value {
          recovered := recovered + 1;
        }
        i := i + 1;
      }
      PassDone(before, Files(), order, recovered, now);
      return Done(recovered);
    }

    /** Manual retry of the oldest dead envelope with this id. */
    method Retry(id: nat, now: int, life: nat) returns (r: Result<FileName>)
      requires Valid()
      modifies this`dead, this`pending
      ensures Valid()
      ensures (forall n :: n in old(dead) ==> old(dead)[n].id != id) ==> r == Failed && Files() == old(Files())
      ensures (exists n :: n in old(dead) && old(dead)[n].id == id) ==>
        exists n :: RetriesOldest(old(dead), id, n) && Retried(old(Files()), Files(), n, now, life, r)
    {
      var order := List(map n | n in dead :: dead[n].createdAt);
      assert IsListing(order, CreatedAt(dead));
      var i := 0;
      while i < |order|
        invariant 0 <= i <= |order|
        invariant forall j :: 0 <= j < i ==> dead[order[j]].id != id
      {
        var n := order[i];
        var e := dead[n];
        if e.id == id {
          FirstIsOldest(dead, order, i, id);
          if n in pending {
            return Failed;
          }
          if life == 0 {
            return Died;
          }
          e := e.(state := Pending, attempts := 0, lastError := "", nextAttemptAt := 0, manualRetries := e.manualRetries + 1, updatedAt := now);
          pending := pending[n := e];
          if life == 1 {
            return Died;
          }
          dead := dead - {n};
          return Done(n);
        }
        i := i + 1;
      }
      forall n | n in dead ensures dead[n].id != id {
        assert n in order;
      }
      return Failed;
    }
  }

  function CreatedAt(files: map<FileName, Envelope>): map<FileName, int> {
    map n | n in files :: files[n].createdAt
  }

  lemma FirstIsOldest(dead: map<FileName, Envelope>, order: seq<FileName>, i: nat, id: nat)
    requires IsListing(order, CreatedAt(dead)) && i < |order| && dead[order[i]].id == id
    requires forall j :: 0 <= j < i ==> dead[order[j]].id != id
    ensures RetriesOldest(dead, id, order[i])
  {
    forall m | m in dead && dead[m].id == id ensures dead[order[i]].createdAt <= dead[m].createdAt {
      assert m in CreatedAt(dead);
      var j :| 0 <= j < |order| && order[j] == m;
      assert CreatedAt(dead)[order[i]] <= CreatedAt(dead)[order[j]] || i == j;
    }
  }

  /** Some target of a resolved envelope still waits. */
  ghost predicate SomeWait(ledger: Option<Ledger>) {
    ledger.Some? && exists i :: 0 <= i < |ledger.value| && ledger.value[i].state == Waiting
  }

  /** One more attempt is counted: the envelope is due after the delay for that attempt, or lost when the delays are used up. */
  ghost predicate PutOffOrBuried(e: Envelope, now: int, backoff: seq<int>, r: Envelope) {
    && r.attempts == e.attempts + 1
    && if e.attempts + 1 < |backoff| then r.state == Pending && r.nextAttemptAt == now + backoff[e.attempts] else r.state == Lost
  }

  /** A manual retry starts over: no attempts, no error, due at once, and one more retry on record. */
  ghost predicate StartsOver(dead: Envelope, r: Envelope) {
    && r.state == Pending && r.attempts == 0 && r.nextAttemptAt == 0 && r.lastError == "" && r.manualRetries == dead.manualRetries + 1
    && r.id == dead.id && r.event == dead.event && r.ledger == dead.ledger
  }

  /** This one file was retried, cut off after `life` file operations; a file that is already pending is refused. */
  ghost predicate Retried(f: Directories, g: Directories, n: FileName, now: int, life: nat, r: Result<FileName>) {
    && OnlyChanges(f, g, n) && SlotAt(g, n) == RetryOp(SlotAt(f, n), now, life)
    && r == if n in f.pending then Failed else if life < 2 then Died else Done(n)
  }

  lemma RetryStartsOver(f: Directories, g: Directories, n: FileName, now: int, life: nat, r: Result<FileName>)
    requires Retried(f, g, n, now, life, r) && n in f.dead && n !in f.pending && life >= 1
    ensures n in g.pending && StartsOver(f.dead[n], g.pending[n]) && (n in g.dead <==> life == 1)
  {
    assert SlotAt(g, n).pending.Some?;
  }

  /** The file is dead, has this id, and no older dead file has it. */
  ghost predicate RetriesOldest(dead: map<FileName, Envelope>, id: nat, n: FileName) {
    n in dead && dead[n].id == id && forall m :: m in dead && dead[m].id == id ==> dead[n].createdAt <= dead[m].createdAt
  }

  // ---------------------------------------------------------------- recovery, file by file

  /** A recovery of one file, cut off somewhere. */
  ghost predicate RecoverCut(s: QueueSlot, t: QueueSlot, now: int) {
    t == RecoverOp(s, now, 0) || t == RecoverOp(s, now, 1) || t == RecoverOp(s, now, 2)
  }

  predicate Expired(s: QueueSlot, now: int) {
    s.inflight.Some? && !Settled(s) && !LeaseHeld(s.inflight.value, now)
  }

  ghost function ExpiredFiles(f: Directories, names: set<FileName>, now: int): set<FileName> {
    set n | n in names && Expired(SlotAt(f, n), now)
  }

  /** The files visited are recovered, the others are as they were. */
  ghost predicate PassSoFar(f: Directories, g: Directories, done: set<FileName>, now: int) {
    && (forall n :: n in done ==> SlotAt(g, n) == RecoverOp(SlotAt(f, n), now, 2))
    && (forall n :: n !in done ==> SlotAt(g, n) == SlotAt(f, n))
  }

  /** The first i files of the listing are recovered and counted. */
  ghost predicate PassAt(f: Directories, g: Directories, order: seq<FileName>, i: nat, recovered: nat, now: int) {
    && i <= |order| && IsListing(order, CreatedAt(f.inflight))
    && PassSoFar(f, g, Visited(order, i), now)
    && recovered == |ExpiredFiles(f, Visited(order, i), now)|
  }

  lemma PassStart(f: Directories, order: seq<FileName>, now: int)
    requires IsListing(order, CreatedAt(f.inflight))
    ensures PassAt(f, f, order, 0, 0, now)
  {
    assert ExpiredFiles(f, Visited(order, 0), now) == {};
  }

  /** The next file of the listing is still there. */
  lemma PassNext(f: Directories, g: Directories, order: seq<FileName>, i: nat, recovered: nat, now: int)
    requires PassAt(f, g, order, i, recovered, now) && i < |order|
    ensures order[i] in g.inflight && SlotAt(g, order[i]) == SlotAt(f, order[i])
  {
    VisitedNext(order, CreatedAt(f.inflight), i);
    assert SlotAt(f, order[i]).inflight.Some?;
  }

  lemma CountStep(f: Directories, done: set<FileName>, n: FileName, next: set<FileName>, now: int)
    requires n !in done && next == done + {n}
    ensures |ExpiredFiles(f, next, now)| == |ExpiredFiles(f, done, now)| + if Expired(SlotAt(f, n), now) then 1 else 0
  {
    if Expired(SlotAt(f, n), now) {
      assert ExpiredFiles(f, next, now) == ExpiredFiles(f, done, now) + {n};
    } else {
      assert ExpiredFiles(f, next, now) == ExpiredFiles(f, done, now);
    }
  }

  lemma SoFarStep(f: Directories, g: Directories, h: Directories, done: set<FileName>, n: FileName, next: set<FileName>, now: int)
    requires PassSoFar(f, g, done, now) && n !in done && next == done + {n} && OnlyChanges(g, h, n)
    requires SlotAt(h, n) == RecoverOp(SlotAt(g, n), now, 2)
    ensures PassSoFar(f, h, next, now)
  {
  }

  lemma PassStep(f: Directories, g: Directories, h: Directories, order: seq<FileName>, i: nat, recovered: nat, now: int)
    requires PassAt(f, g, order, i, recovered, now) && i < |order| && OnlyChanges(g, h, order[i])
    requires SlotAt(h, order[i]) == RecoverOp(SlotAt(g, order[i]), now, 2)
    ensures PassAt(f, h, order, i + 1, if Expired(SlotAt(g, order[i]), now) then recovered + 1 else recovered, now)
  {
    VisitedNext(order, CreatedAt(f.inflight), i);
    SoFarStep(f, g, h, Visited(order, i), order[i], Visited(order, i + 1), now);
    CountStep(f, Visited(order, i), order[i], Visited(order, i + 1), now);
  }

  lemma PassCut(f: Directories, g: Directories, h: Directories, order: seq<FileName>, i: nat, recovered: nat, now: int)
    requires PassAt(f, g, order, i, recovered, now) && i < |order| && OnlyChanges(g, h, order[i])
    requires RecoverCut(SlotAt(g, order[i]), SlotAt(h, order[i]), now)
    ensures forall other :: RecoverCut(SlotAt(f, other), SlotAt(h, other), now)
  {
    VisitedNext(order, CreatedAt(f.inflight), i);
    forall other ensures RecoverCut(SlotAt(f, other), SlotAt(h, other), now) {
      if other != order[i] {
        assert SlotAt(h, other) == SlotAt(g, other);
      }
    }
  }

  /** Files outside inflight need no recovery. */
  lemma PassDone(f: Directories, g: Directories, order: seq<FileName>, recovered: nat, now: int)
    requires PassAt(f, g, order, |order|, recovered, now)
    ensures forall n :: SlotAt(g, n) == RecoverOp(SlotAt(f, n), now, 2)
    ensures recovered == |ExpiredFiles(f, f.inflight.Keys, now)|
    ensures LeasesRespected(f, g, now)
  {
    VisitedAll(order, CreatedAt(f.inflight));
    assert CreatedAt(f.inflight).Keys == f.inflight.Keys;
    RecoverRespects(f, g, now);
  }

  /**
   * What a whole pass leaves: an item whose only copy is inflight stays inflight, untouched, exactly while
   * its lease runs; with no lease, or one that has run out, it is pending again; where another copy
   * settles the item the inflight file goes.
   */
  ghost predicate LeasesRespected(f: Directories, g: Directories, now: int) {
    forall n :: n in f.inflight ==>
      if n in f.pending || n in f.history || n in f.dead then n !in g.inflight
      else if f.inflight[n].leaseUntil > now && f.inflight[n].leaseUntil != 0 then
        n in g.inflight && g.inflight[n] == f.inflight[n] && n !in g.pending
      else
        && n !in g.inflight && n in g.pending && n !in g.history && n !in g.dead
        && g.pending[n] == f.inflight[n].(state := Pending, updatedAt := now, leaseUntil := 0)
  }

  lemma RecoverRespects(f: Directories, g: Directories, now: int)
    requires forall n :: SlotAt(g, n) == RecoverOp(SlotAt(f, n), now, 2)
    ensures LeasesRespected(f, g, now)
  {
    forall n | n in f.inflight ensures SlotAt(g, n) == RecoverOp(SlotAt(f, n), now, 2) {
    }
  }
}
