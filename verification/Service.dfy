/**
 * The service loop on one queued envelope: every run of claims, target resolution,
 * sends, ledger writes, quiet hours, failures, process deaths between any two file
 * operations, recoveries, manual retries and cleanup.
 */
module Services {
  import opened Common
  import opened Slots
  import opened Ledgers
  import opened Queues
  import opened Delivery

  // ---------------------------------------------------------------- the machine

  datatype Mode = Undecided | Delivering(todo: seq<Target>) | Dropping(todo: seq<Target>)

  datatype Worker = Resting | Busy(env: Envelope, now: int, mode: Mode)

  /**
   * `ledger` is the last ledger written for the envelope. `sends` counts the sends to each
   * target, `crashes` the process deaths, `blanks` the burials refused for an error without
   * text, and `rounds` the delivery rounds that reached their final Ack or Defer.
   */
  datatype World = World(
    slot: QueueSlot,
    worker: Worker,
    ledger: Option<Ledger>,
    sends: map<Target, nat>,
    crashes: nat,
    blanks: nat,
    rounds: nat,
    cleaned: bool)

  datatype Label =
    | Claim(now: int, lease: int, life: nat)
    | Resolve(targets: seq<Target>, life: nat)
    | Begin
    | BeginDrop
    | Attempt(outcome: Outcome, life: nat)
    | Finish(life: nat)
    | QuietDefer(until: int, life: nat)
    | AckWhole(life: nat)
    | NackWhole(cause: string, permanent: bool, life: nat)
    | Abandon
    | Crash
    | Recover(at: int, life: nat)
    | Retry(at: int, life: nat)
    | Cleanup

  ghost predicate Init(w: World) {
    exists e :: w == World(Slot(Some(e), None, None, None), Resting, None, map[], 0, 0, 0, false)
      && e.state == Pending && e.ledger.None? && ValidEnvelope(e)
  }

  predicate Fresh(w: World) {
    w.worker.Busy? && w.worker.mode.Undecided?
  }

  predicate Resolved(w: World) {
    w.worker.Busy? && w.worker.env.ledger.Some?
  }

  predicate AtWork(w: World) {
    Resolved(w) && !w.worker.mode.Undecided?
  }

  ghost predicate Enabled(w: World, l: Label) {
    match l
    case Claim(now, lease, life) => w.worker.Resting? && now >= 0 && w.slot.pending.Some? && ReadyAt(w.slot.pending.value, now)
    case Resolve(targets, life) => Fresh(w) && w.worker.env.ledger.None? && ResolvedEnvelope(w.worker.env, targets, w.worker.now).Some?
    case Begin => Fresh(w) && Resolved(w)
    case BeginDrop => Fresh(w) && Resolved(w)
    case Attempt(o, life) => AtWork(w) && w.worker.mode.todo != [] && (w.worker.mode.Dropping? ==> o.Skipped? && o.permanent && o.cause != "")
    case Finish(life) => AtWork(w) && w.worker.mode.todo == []
    case QuietDefer(until, life) => Fresh(w) && Resolved(w) && until > w.worker.now
    case AckWhole(life) => Fresh(w) && w.worker.env.ledger.None?
    case NackWhole(cause, permanent, life) => Fresh(w) && w.worker.env.ledger.None?
    case Abandon => Fresh(w) && w.worker.env.ledger.None?
    case Crash => true
    case Recover(at, life) => w.worker.Resting?
    case Retry(at, life) => w.worker.Resting?
    case Cleanup => w.worker.Resting? && w.slot.inflight.None? && (w.slot.history.Some? || w.slot.dead.Some?)
  }

  /** The process dies with the files as `slot`. */
  function Die(w: World, slot: QueueSlot): World {
    w.(slot := slot, worker := Resting, crashes := w.crashes + 1)
  }

  /** A move of the item, completed by its second file operation. */
  function Leave(w: World, slot: QueueSlot, life: nat): World {
    if life < 2 then Die(w, slot) else w.(slot := slot, worker := Resting)
  }

  function SendsTo(sends: map<Target, nat>, t: Target): nat {
    if t in sends then sends[t] else 0
  }

  /** finishResolvedItem: Ack when nothing waits, otherwise Defer to the next attempt. */
  ghost function FinishOp(s: QueueSlot, e: Envelope, now: int, poll: int, life: nat): QueueSlot
    requires e.ledger.Some?
  {
    if Terminal(e.ledger.value) then AckOp(s, e, now, life)
    else DeferOp(s, e, now, NextAttempt(e.ledger.value, now, poll), life)
  }

  /** The quiet-hours deferral of a resolved item. */
  ghost function QuietOp(s: QueueSlot, e: Envelope, now: int, until: int, life: nat): QueueSlot
    requires e.ledger.Some?
  {
    if Terminal(e.ledger.value) then AckOp(s, e, now, life) else DeferOp(s, e, now, until, life)
  }

  function WithMode(w: World, mode: Mode): World
    requires w.worker.Busy?
  {
    w.(worker := w.worker.(mode := mode))
  }

  function Rest(mode: Mode): Mode
    requires !mode.Undecided? && mode.todo != []
  {
    mode.(todo := mode.todo[1..])
  }

  /** The inflight file is rewritten with `e`. */
  function Written(w: World, e: Envelope, mode: Mode): World
    requires w.worker.Busy?
  {
    w.(slot := ReplaceOp(w.slot, e, 1), worker := w.worker.(env := e, mode := mode), ledger := e.ledger)
  }

  /** One target: the send, then the ledger write. */
  ghost function AttemptAfter(c: Config, w: World, o: Outcome, life: nat): World
    requires Enabled(w, Attempt(o, life))
  {
    var e, mode := w.worker.env, w.worker.mode;
    var t := mode.todo[0];
    var sent := if IsSend(o) then w.(sends := w.sends[t := SendsTo(w.sends, t) + 1]) else w;
    if life == 0 then Die(sent, w.slot)
    else
      match Record(e, t, o, w.worker.now, c.Backoff())
      case None => WithMode(sent.(blanks := w.blanks + 1), Rest(mode))
      case Some(next) => Written(sent, next, Rest(mode))
  }

  ghost function After(c: Config, w: World, l: Label): World
    requires Enabled(w, l)
  {
    match l
    case Claim(now, lease, life) =>
      var slot := ClaimOp(w.slot, now, lease, life);
      if life < 2 then Die(w, slot)
      else if w.slot.inflight.Some? then w.(slot := slot)
      else w.(slot := slot, worker := Busy(ClaimedEnvelope(w.slot.pending.value, now, lease), now, Undecided))
    case Resolve(targets, life) =>
      if life == 0 then Die(w, w.slot)
      else Written(w, ResolvedEnvelope(w.worker.env, targets, w.worker.now).value, Undecided)
    case Begin => WithMode(w, Delivering(ReadyTargets(w.worker.env.ledger.value, w.worker.now)))
    case BeginDrop => WithMode(w, Dropping(WaitingTargets(w.worker.env.ledger.value)))
    case Attempt(o, life) => AttemptAfter(c, w, o, life)
    case Finish(life) =>
      var left := Leave(w, FinishOp(w.slot, w.worker.env, w.worker.now, c.Poll(), life), life);
      if life >= 2 && w.worker.mode.Delivering? then left.(rounds := w.rounds + 1) else left
    case QuietDefer(until, life) => Leave(w, QuietOp(w.slot, w.worker.env, w.worker.now, until, life), life)
    case AckWhole(life) => Leave(w, AckOp(w.slot, w.worker.env, w.worker.now, life), life)
    case NackWhole(cause, permanent, life) =>
      Leave(w, NackOp(w.slot, w.worker.env, cause, w.worker.now, if permanent then [] else c.Backoff(), life), life)
    case Abandon => w.(worker := Resting)
    case Crash => Die(w, w.slot)
    case Recover(at, life) => if life < 2 then Die(w, RecoverOp(w.slot, at, life)) else w.(slot := RecoverOp(w.slot, at, life))
    case Retry(at, life) => if life < 2 then Die(w, RetryOp(w.slot, at, life)) else w.(slot := RetryOp(w.slot, at, life))
    case Cleanup => w.(slot := w.slot.(history := None, dead := None), cleaned := true)
  }

  ghost predicate IsRun(c: Config, ws: seq<World>, ls: seq<Label>) {
    && |ws| == |ls| + 1
    && Init(ws[0])
    && forall i :: 0 <= i < |ls| ==> Enabled(ws[i], ls[i]) && ws[i + 1] == After(c, ws[i], ls[i])
  }

  /** The step is not a manual retry cut off between its two writes. */
  predicate Whole(l: Label) {
    l.Retry? ==> l.life != 1
  }

  /** A run in which no manual retry is cut in half. */
  ghost predicate IsWholeRun(c: Config, ws: seq<World>, ls: seq<Label>) {
    IsRun(c, ws, ls) && forall i :: 0 <= i < |ls| ==> Whole(ls[i])
  }

  // ---------------------------------------------------------------- custody: where the copies are

  /** Until cleanup the item has a copy, all copies carry the last written ledger, and a busy worker holds the only one. */
  ghost predicate Custody(w: World) {
    && SlotOk(w.slot, w.ledger)
    && (w.cleaned <==> Copies(w.slot) == 0)
    && (w.worker.Busy? ==> Held(w.slot, w.worker.env) && w.worker.now >= 0)
  }

  /** The work list of a busy worker is still waiting. */
  ghost predicate TodoKept(w: World) {
    w.worker.Busy? ==>
      if w.worker.mode.Undecided? then true
      else w.ledger.Some? && TodoOk(w.ledger.value, w.worker.mode.todo)
  }

  lemma HeldFacts(w: World)
    requires Custody(w) && w.worker.Busy?
    ensures w.worker.env.state == Inflight && w.worker.env.ledger == w.ledger && ValidEnvelope(w.worker.env)
    ensures w.ledger.Some? ==> ValidLedger(w.ledger.value)
    ensures !w.cleaned
  {
  }

  lemma LeaveCustody(w: World, next: Envelope, life: nat)
    requires Custody(w) && w.worker.Busy?
    requires next.state != Inflight && next.ledger == w.ledger && ValidEnvelope(next)
    requires next.state == Lost ==> w.ledger.None?
    ensures Custody(Leave(w, LeaveInflight(w.slot, next, life), life))
    ensures life >= 2 ==> Copies(LeaveInflight(w.slot, next, life)) == 1 && At(LeaveInflight(w.slot, next, life), next.state) == Some(next)
  {
    LeaveKeepsSlot(w.slot, w.ledger, w.worker.env, next, life);
  }

  /** finishResolvedItem never gets stuck: its Ack is accepted, or its Defer time lies after now. */
  lemma FinishIsLegal(w: World, poll: int)
    requires Custody(w) && Resolved(w) && poll > 0
    ensures w.ledger.Some?
    ensures var l := w.ledger.value; var e := w.worker.env;
      if Terminal(l) then CanAck(e)
      else
        var next := NextAttempt(l, w.worker.now, poll);
        CanDefer(e, w.worker.now, next) && WakesBy(l, next)
  {
    HeldFacts(w);
    NextAttemptIsLegal(w.ledger.value, w.worker.now, poll);
  }

  lemma FinishCustody(c: Config, w: World, life: nat)
    requires Custody(w) && Resolved(w)
    ensures var slot := FinishOp(w.slot, w.worker.env, w.worker.now, c.Poll(), life);
      && Custody(Leave(w, slot, life))
      && (life >= 2 ==> slot.inflight.None? && (slot.pending.Some? ==> WakesBy(w.ledger.value, slot.pending.value.nextAttemptAt)))
  {
    HeldFacts(w);
    FinishIsLegal(w, c.Poll());
    var e, now := w.worker.env, w.worker.now;
    if Terminal(w.ledger.value) {
      LeaveCustody(w, AckedEnvelope(e, now), life);
    } else {
      LeaveCustody(w, DeferredEnvelope(e, now, NextAttempt(w.ledger.value, now, c.Poll())), life);
    }
  }

  lemma QuietCustody(w: World, until: int, life: nat)
    requires Custody(w) && Resolved(w) && until > w.worker.now
    ensures var slot := QuietOp(w.slot, w.worker.env, w.worker.now, until, life);
      && Custody(Leave(w, slot, life))
      && (life >= 2 ==> slot.inflight.None? && (slot.pending.Some? ==> slot.pending.value.nextAttemptAt == until))
  {
    HeldFacts(w);
    var e, now := w.worker.env, w.worker.now;
    if Terminal(w.ledger.value) {
      LeaveCustody(w, AckedEnvelope(e, now), life);
    } else {
      LeaveCustody(w, DeferredEnvelope(e, now, until), life);
    }
  }

  lemma WrittenCustody(w: World, e: Envelope, mode: Mode)
    requires Custody(w) && w.worker.Busy? && e.state == Inflight && ValidEnvelope(e)
    ensures Custody(Written(w, e, mode))
  {
    ReplaceKeepsSlot(w.slot, w.ledger, w.worker.env, e, 1);
  }

  /** What an attempt that reaches its ledger write records. */
  lemma AttemptFacts(c: Config, w: World, o: Outcome)
    requires Custody(w) && TodoKept(w) && AtWork(w) && w.worker.mode.todo != []
    ensures w.ledger.Some? && ValidLedger(w.ledger.value)
    ensures var l := w.ledger.value; var k := IndexOf(l, w.worker.mode.todo[0]);
      && k >= 0 && l[k].state == Waiting && l[k].attempts >= 0
      && var r := Record(w.worker.env, w.worker.mode.todo[0], o, w.worker.now, c.Backoff());
         var entry := RecordEntry(l[k], o, w.worker.now, c.Backoff());
         && (r.None? <==> Blank(l[k], o, c.Backoff()))
         && (r.Some? ==> ValidEnvelope(r.value) && r.value.state == Inflight && r.value.ledger == Some(l[k := entry]))
         && entry.target == w.worker.mode.todo[0]
  {
    HeldFacts(w);
    var l := w.ledger.value;
    var t := w.worker.mode.todo[0];
    assert IndexOf(l, t) >= 0;
    RecordIs(w.worker.env, t, o, w.worker.now, c.Backoff());
  }

  lemma AttemptCustody(c: Config, w: World, o: Outcome, life: nat)
    requires Custody(w) && TodoKept(w) && Enabled(w, Attempt(o, life))
    ensures Custody(AttemptAfter(c, w, o, life)) && TodoKept(AttemptAfter(c, w, o, life))
  {
    AttemptFacts(c, w, o);
    HeldFacts(w);
    var l, t := w.ledger.value, w.worker.mode.todo[0];
    var k := IndexOf(l, t);
    if life > 0 {
      var r := Record(w.worker.env, t, o, w.worker.now, c.Backoff());
      if r.Some? {
        WrittenCustody(w, r.value, Rest(w.worker.mode));
        TodoStep(l, w.worker.mode.todo, RecordEntry(l[k], o, w.worker.now, c.Backoff()));
      } else {
        TodoStep(l, w.worker.mode.todo, l[k]);
        assert l[k := l[k]] == l;
      }
    }
  }

  lemma UnresolvedCustody(c: Config, w: World, lab: Label)
    requires Custody(w) && Enabled(w, lab) && (lab.AckWhole? || lab.NackWhole? || lab.Resolve?)
    ensures Custody(After(c, w, lab)) && TodoKept(After(c, w, lab))
  {
    HeldFacts(w);
    var e, now := w.worker.env, w.worker.now;
    match lab
    case AckWhole(life) => LeaveCustody(w, AckedEnvelope(e, now), life);
    case NackWhole(cause, permanent, life) =>
      LeaveCustody(w, NackedEnvelope(e, cause, now, if permanent then [] else c.Backoff()), life);
    case Resolve(targets, life) =>
      ResolvedIsValid(e, targets, now);
      WrittenCustody(w, ResolvedEnvelope(e, targets, now).value, Undecided);
  }

  lemma RestingCustody(c: Config, w: World, lab: Label)
    requires Custody(w) && Enabled(w, lab) && Whole(lab) && (lab.Claim? || lab.Recover? || lab.Retry? || lab.Cleanup?)
    ensures Custody(After(c, w, lab)) && TodoKept(After(c, w, lab))
  {
    match lab
    case Claim(now, lease, life) => ClaimKeepsSlot(w.slot, w.ledger, now, lease, life);
    case Recover(at, life) => RecoverKeepsSlot(w.slot, w.ledger, at, life);
    case Retry(at, life) => RetryKeepsSlot(w.slot, w.ledger, at, life);
    case Cleanup =>
  }

  lemma CustodyStep(c: Config, w: World, lab: Label)
    requires Custody(w) && TodoKept(w) && Enabled(w, lab) && Whole(lab)
    ensures Custody(After(c, w, lab)) && TodoKept(After(c, w, lab))
  {
    match lab
    case Claim(_, _, _) => RestingCustody(c, w, lab);
    case Recover(_, _) => RestingCustody(c, w, lab);
    case Retry(_, _) => RestingCustody(c, w, lab);
    case Cleanup => RestingCustody(c, w, lab);
    case Resolve(_, _) => UnresolvedCustody(c, w, lab);
    case AckWhole(_) => UnresolvedCustody(c, w, lab);
    case NackWhole(_, _, _) => UnresolvedCustody(c, w, lab);
    case Begin =>
      HeldFacts(w);
      ReadyIsTodo(w.ledger.value, w.worker.now);
    case BeginDrop =>
      HeldFacts(w);
      WaitingIsTodo(w.ledger.value);
    case Attempt(o, life) => AttemptCustody(c, w, o, life);
    case Finish(life) => FinishCustody(c, w, life);
    case QuietDefer(until, life) => QuietCustody(w, until, life);
    case Abandon =>
    case Crash =>
  }

  // ---------------------------------------------------------------- counting sends

  function AttemptsOf(ledger: Option<Ledger>, t: Target): int {
    if ledger.None? || IndexOf(ledger.value, t) < 0 then 0 else ledger.value[IndexOf(ledger.value, t)].attempts
  }

  ghost predicate LedgerWithin(ledger: Option<Ledger>, b: nat) {
    ledger.Some? ==> Within(ledger.value, b)
  }

  ghost predicate SendsBounded(w: World) {
    forall t :: SendsTo(w.sends, t) <= AttemptsOf(w.ledger, t) + w.crashes + w.blanks
  }

  /** Only attempts send, and only attempts and the first resolution write the ledger. */
  lemma OthersKeepCounts(c: Config, w: World, lab: Label)
    requires Enabled(w, lab) && !lab.Attempt?
    ensures var x := After(c, w, lab);
      && x.sends == w.sends && x.blanks == w.blanks && x.crashes >= w.crashes
      && (!lab.Resolve? ==> x.ledger == w.ledger)
      && (lab.Resolve? && Custody(w) ==> w.ledger.None? && (x.ledger.None? || x.ledger == Some(FreshLedger(lab.targets))))
  {
    if lab.Resolve? && Custody(w) {
      HeldFacts(w);
    }
  }

  /** An attempt in full: one send unless skipped, and one recorded entry, one blank burial or one crash. */
  lemma AttemptCounts(c: Config, w: World, o: Outcome, life: nat)
    requires Custody(w) && TodoKept(w) && Enabled(w, Attempt(o, life))
    ensures w.ledger.Some? && ValidLedger(w.ledger.value)
    ensures var x := AttemptAfter(c, w, o, life); var t := w.worker.mode.todo[0];
      var l := w.ledger.value; var k := IndexOf(l, t);
      && k >= 0 && l[k].state == Waiting && l[k].attempts >= 0
      && x.sends == (if IsSend(o) then w.sends[t := SendsTo(w.sends, t) + 1] else w.sends)
      && (if life == 0 then x.ledger == w.ledger && x.crashes == w.crashes + 1 && x.blanks == w.blanks
          else if Blank(l[k], o, c.Backoff()) then x.ledger == w.ledger && x.blanks == w.blanks + 1 && x.crashes == w.crashes
          else x.ledger == Some(l[k := RecordEntry(l[k], o, w.worker.now, c.Backoff())]) && x.crashes == w.crashes && x.blanks == w.blanks)
  {
    AttemptFacts(c, w, o);
  }

  lemma RecordCounts(l: Ledger, k: nat, o: Outcome, now: int, backoff: seq<int>, t: Target)
    requires ValidLedger(l) && k < |l| && l[k].state == Waiting && l[k].attempts >= 0 && !Blank(l[k], o, backoff)
    ensures var m := l[k := RecordEntry(l[k], o, now, backoff)];
      AttemptsOf(Some(m), t) == AttemptsOf(Some(l), t) + if t == l[k].target then 1 else 0
  {
    var m := l[k := RecordEntry(l[k], o, now, backoff)];
    IndexOfKept(l, m, t);
    IndexOfAt(l, k);
    var i := IndexOf(l, t);
    if i >= 0 {
      assert l[i].target == t;
    }
  }

  lemma SendsStep(c: Config, w: World, lab: Label)
    requires Custody(w) && TodoKept(w) && Enabled(w, lab)
    requires LedgerWithin(w.ledger, |c.Backoff()|) && SendsBounded(w)
    ensures LedgerWithin(After(c, w, lab).ledger, |c.Backoff()|) && SendsBounded(After(c, w, lab))
  {
    var x := After(c, w, lab);
    if lab.Attempt? {
      AttemptCounts(c, w, lab.outcome, lab.life);
      var l, t := w.ledger.value, w.worker.mode.todo[0];
      var k := IndexOf(l, t);
      RecordSpends(l, k, lab.outcome, w.worker.now, c.Backoff());
      forall u ensures SendsTo(x.sends, u) <= AttemptsOf(x.ledger, u) + x.crashes + x.blanks {
        assert SendsTo(w.sends, u) <= AttemptsOf(w.ledger, u) + w.crashes + w.blanks;
        if lab.life > 0 && !Blank(l[k], lab.outcome, c.Backoff()) {
          RecordCounts(l, k, lab.outcome, w.worker.now, c.Backoff(), u);
        }
      }
    } else {
      OthersKeepCounts(c, w, lab);
      forall u ensures SendsTo(x.sends, u) <= AttemptsOf(x.ledger, u) + x.crashes + x.blanks {
        assert SendsTo(w.sends, u) <= AttemptsOf(w.ledger, u) + w.crashes + w.blanks;
      }
    }
  }

  /** Successes recorded in `w` are recorded in `x` as they were, and nothing was sent to those targets in between. */
  ghost predicate SuccessesKept(w: World, x: World) {
    w.ledger.Some? ==>
      && x.ledger.Some? && |x.ledger.value| == |w.ledger.value|
      && forall i :: 0 <= i < |w.ledger.value| && w.ledger.value[i].state == Succeeded ==>
           x.ledger.value[i] == w.ledger.value[i] && SendsTo(x.sends, w.ledger.value[i].target) == SendsTo(w.sends, w.ledger.value[i].target)
  }

  lemma SuccessesStep(c: Config, w: World, lab: Label)
    requires Custody(w) && TodoKept(w) && Enabled(w, lab)
    ensures SuccessesKept(w, After(c, w, lab))
  {
    var x := After(c, w, lab);
    if lab.Attempt? {
      AttemptCounts(c, w, lab.outcome, lab.life);
      DistinctTargets(w.ledger.value);
    } else {
      OthersKeepCounts(c, w, lab);
    }
  }

  // ---------------------------------------------------------------- counting rounds

  /** A resolved item that is claimed, or can be, has a target due at the time of its claim. */
  ghost predicate Awake(w: World) {
    w.ledger.Some? ==>
      match w.worker
      case Resting => w.slot.inflight.None? && (w.slot.pending.Some? ==> WakesBy(w.ledger.value, w.slot.pending.value.nextAttemptAt))
      case Busy(_, now, mode) => mode.Undecided? ==> ReadyTargets(w.ledger.value, now) != []
  }

  /** Rounds that may still come: the retry budget, and one for a round that has spent already or may find nothing due. */
  ghost function Owed(w: World, b: nat): int
    requires w.ledger.Some?
  {
    Budget(w.ledger.value, b) +
      if w.worker.Busy? && w.worker.mode.Delivering? then if w.worker.mode.todo == [] then 1 else 0
      else if Awake(w) then 0 else 1
  }

  ghost predicate RoundsBounded(w: World, b: nat) {
    && (w.ledger.Some? ==> w.rounds + Owed(w, b) <= |w.ledger.value| * b + w.blanks + w.crashes)
    && (w.ledger.None? ==> w.rounds == 0)
    && (w.crashes == 0 ==> Awake(w))
  }

  lemma AttemptRounds(c: Config, w: World, o: Outcome, life: nat)
    requires Custody(w) && TodoKept(w) && Enabled(w, Attempt(o, life))
    requires LedgerWithin(w.ledger, |c.Backoff()|) && RoundsBounded(w, |c.Backoff()|)
    ensures RoundsBounded(AttemptAfter(c, w, o, life), |c.Backoff()|)
  {
    AttemptCounts(c, w, o, life);
    var l := w.ledger.value;
    RecordSpends(l, IndexOf(l, w.worker.mode.todo[0]), o, w.worker.now, c.Backoff());
  }

  lemma ClaimRounds(c: Config, w: World, lab: Label)
    requires Custody(w) && Enabled(w, lab) && lab.Claim? && RoundsBounded(w, |c.Backoff()|)
    ensures RoundsBounded(After(c, w, lab), |c.Backoff()|)
  {
    ClaimKeepsSlot(w.slot, w.ledger, lab.now, lab.lease, lab.life);
    if lab.life >= 2 && w.ledger.Some? && Awake(w) {
      var at := w.slot.pending.value.nextAttemptAt;
      if at <= lab.now {
        WakesMeansReady(w.ledger.value, at, lab.now);
      }
    }
  }

  lemma LeaveRounds(c: Config, w: World, lab: Label)
    requires Custody(w) && TodoKept(w) && Enabled(w, lab) && (lab.Finish? || lab.QuietDefer?)
    requires RoundsBounded(w, |c.Backoff()|)
    ensures RoundsBounded(After(c, w, lab), |c.Backoff()|)
  {
    HeldFacts(w);
    if lab.Finish? {
      FinishCustody(c, w, lab.life);
    } else {
      QuietCustody(w, lab.until, lab.life);
      if Awake(w) {
        ReadyMeansWakes(w.ledger.value, w.worker.now, lab.until);
      }
    }
  }

  lemma ResolveRounds(c: Config, w: World, lab: Label)
    requires Custody(w) && Enabled(w, lab) && lab.Resolve? && RoundsBounded(w, |c.Backoff()|)
    ensures RoundsBounded(After(c, w, lab), |c.Backoff()|)
  {
    HeldFacts(w);
    if lab.life > 0 {
      var l := FreshLedger(lab.targets);
      FreshBudget(lab.targets, |c.Backoff()|);
      ReadyIsDue(l, w.worker.now);
      assert Due(l[0], w.worker.now);
      assert After(c, w, lab).ledger == Some(l);
    }
  }

  lemma RoundsStep(c: Config, w: World, lab: Label)
    requires Custody(w) && TodoKept(w) && Enabled(w, lab) && Whole(lab)
    requires LedgerWithin(w.ledger, |c.Backoff()|) && RoundsBounded(w, |c.Backoff()|)
    ensures RoundsBounded(After(c, w, lab), |c.Backoff()|)
  {
    match lab
    case Claim(_, _, _) => ClaimRounds(c, w, lab);
    case Resolve(_, _) => ResolveRounds(c, w, lab);
    case Begin => HeldFacts(w);
    case BeginDrop => HeldFacts(w);
    case Attempt(o, life) => AttemptRounds(c, w, o, life);
    case Finish(_) => LeaveRounds(c, w, lab);
    case QuietDefer(_, _) => LeaveRounds(c, w, lab);
    case AckWhole(_) => HeldFacts(w);
    case NackWhole(_, _, _) => HeldFacts(w);
    case Abandon => HeldFacts(w);
    case Crash =>
    case Recover(at, life) => if life >= 2 { RecoverKeepsSlot(w.slot, w.ledger, at, life); }
    case Retry(_, _) =>
    case Cleanup =>
  }

  // ---------------------------------------------------------------- whole runs

  ghost predicate Inv(w: World, b: nat) {
    Custody(w) && TodoKept(w) && LedgerWithin(w.ledger, b) && SendsBounded(w) && RoundsBounded(w, b)
  }

  lemma {:induction false} RunInv(c: Config, ws: seq<World>, ls: seq<Label>, n: nat)
    requires IsWholeRun(c, ws, ls) && n < |ws|
    ensures Inv(ws[n], |c.Backoff()|)
  {
    if n > 0 {
      RunInv(c, ws, ls, n - 1);
      CustodyStep(c, ws[n - 1], ls[n - 1]);
      SendsStep(c, ws[n - 1], ls[n - 1]);
      RoundsStep(c, ws[n - 1], ls[n - 1]);
    }
  }

  /** Every copy on disk carries the last written ledger. */
  lemma RunCustody(c: Config, ws: seq<World>, ls: seq<Label>, n: nat)
    requires IsWholeRun(c, ws, ls) && n < |ws|
    ensures Custody(ws[n]) && TodoKept(ws[n]) && SlotOk(ws[n].slot, ws[n].ledger)
  {
    RunInv(c, ws, ls, n);
  }

  lemma SuccessesChain(w: World, x: World, y: World)
    requires SuccessesKept(w, x) && SuccessesKept(x, y)
    ensures SuccessesKept(w, y)
  {
  }

  lemma SuccessesRun(c: Config, ws: seq<World>, ls: seq<Label>, n: nat)
    requires IsWholeRun(c, ws, ls) && n < |ls|
    ensures SuccessesKept(ws[n], ws[n + 1])
  {
    RunCustody(c, ws, ls, n);
    SuccessesStep(c, ws[n], ls[n]);
  }

  lemma {:induction false} SuccessesChainAll(ws: seq<World>, m: nat, n: nat)
    requires m <= n < |ws|
    requires forall i :: m <= i < n ==> SuccessesKept(ws[i], ws[i + 1])
    ensures SuccessesKept(ws[m], ws[n])
    decreases n - m
  {
    if m < n {
      SuccessesChainAll(ws, m, n - 1);
      SuccessesChain(ws[m], ws[n - 1], ws[n]);
    }
  }

  /** A success, once recorded, stays recorded, and its target is never sent to again. */
  lemma SuccessIsFinal(c: Config, ws: seq<World>, ls: seq<Label>, m: nat, n: nat)
    requires IsWholeRun(c, ws, ls) && m <= n < |ws|
    ensures SuccessesKept(ws[m], ws[n])
  {
    forall i | m <= i < n ensures SuccessesKept(ws[i], ws[i + 1]) {
      SuccessesRun(c, ws, ls, i);
    }
    SuccessesChainAll(ws, m, n);
  }

  /** Every target is sent to at most once per budgeted attempt, plus once per crash and once per blank burial. */
  lemma SendsWithinBudget(c: Config, ws: seq<World>, ls: seq<Label>, n: nat, t: Target)
    requires IsWholeRun(c, ws, ls) && n < |ws|
    ensures SendsTo(ws[n].sends, t) <= |c.Backoff()| + ws[n].crashes + ws[n].blanks
  {
    RunInv(c, ws, ls, n);
    assert SendsTo(ws[n].sends, t) <= AttemptsOf(ws[n].ledger, t) + ws[n].crashes + ws[n].blanks;
  }

  /** Until cleanup the item is in some directory; after a complete recovery pass it is in exactly one, with the recorded ledger. */
  lemma Conservation(c: Config, ws: seq<World>, ls: seq<Label>, n: nat)
    requires IsWholeRun(c, ws, ls) && n < |ws|
    ensures !ws[n].cleaned ==> Copies(ws[n].slot) > 0
    ensures n > 0 && ls[n - 1].Recover? && ls[n - 1].life >= 2 && !ws[n].cleaned ==>
      Copies(ws[n].slot) == 1 && SlotOk(ws[n].slot, ws[n].ledger) && ws[n].ledger == ws[n - 1].ledger
  {
    RunInv(c, ws, ls, n);
    if n > 0 && ls[n - 1].Recover? {
      RunInv(c, ws, ls, n - 1);
      RecoverKeepsSlot(ws[n - 1].slot, ws[n - 1].ledger, ls[n - 1].at, ls[n - 1].life);
    }
  }

  /**
   * Fan-out terminates: whatever the sends do, no run has more delivery rounds than the
   * retry budget of its targets, plus one per crash and one per blank burial; and while
   * nothing has crashed, every round finds a target to send to.
   */
  lemma FanOutTerminates(c: Config, ws: seq<World>, ls: seq<Label>, n: nat)
    requires IsWholeRun(c, ws, ls) && n < |ws|
    ensures ws[n].ledger.Some? ==> ws[n].rounds <= |ws[n].ledger.value| * |c.Backoff()| + ws[n].blanks + ws[n].crashes
    ensures ws[n].ledger.None? ==> ws[n].rounds == 0
    ensures n > 0 && ls[n - 1].Begin? && ws[n].crashes == 0 ==> ws[n].worker.Busy? && ws[n].worker.mode.Delivering? && ws[n].worker.mode.todo != []
  {
    RunInv(c, ws, ls, n);
    if ws[n].ledger.Some? {
      BudgetBounds(ws[n].ledger.value, |c.Backoff()|);
    }
    if n > 0 && ls[n - 1].Begin? {
      RunInv(c, ws, ls, n - 1);
      HeldFacts(ws[n - 1]);
    }
  }

  // ---------------------------------------------------------------- errors without text

  /** The attempt is a burial whose error has no text: a failure that is permanent, or the last of the budget. */
  ghost predicate BuriesBlank(c: Config, w: World, lab: Label) {
    && lab.Attempt? && lab.life > 0 && Enabled(w, lab) && w.ledger.Some?
    && var l := w.ledger.value; var k := IndexOf(l, w.worker.mode.todo[0]);
       k >= 0 && Blank(l[k], lab.outcome, c.Backoff())
  }

  lemma {:induction false} NoBlanks(c: Config, ws: seq<World>, ls: seq<Label>, n: nat)
    requires IsWholeRun(c, ws, ls) && n < |ws| && forall i :: 0 <= i < n ==> !BuriesBlank(c, ws[i], ls[i])
    ensures ws[n].blanks == 0
  {
    if n > 0 {
      NoBlanks(c, ws, ls, n - 1);
      RunCustody(c, ws, ls, n - 1);
      if ls[n - 1].Attempt? {
        AttemptCounts(c, ws[n - 1], ls[n - 1].outcome, ls[n - 1].life);
      } else {
        OthersKeepCounts(c, ws[n - 1], ls[n - 1]);
      }
    }
  }

  /**
   * A target is sent to at most |backoff| times plus the number of crashes, unless some
   * burial of the run has no text. Failures that are not burials may be blank.
   */
  lemma SendsWithinBackoff(c: Config, ws: seq<World>, ls: seq<Label>, n: nat, t: Target)
    requires IsWholeRun(c, ws, ls) && n < |ws| && forall i :: 0 <= i < n ==> !BuriesBlank(c, ws[i], ls[i])
    ensures SendsTo(ws[n].sends, t) <= |c.Backoff()| + ws[n].crashes
  {
    SendsWithinBudget(c, ws, ls, n, t);
    NoBlanks(c, ws, ls, n);
  }

  function Sole(t: Target): Ledger {
    [Entry(t, Waiting, 0, 0, "", "")]
  }

  /** The item waits in pending with its one target still due. */
  ghost predicate StillDue(w: World, t: Target, k: nat) {
    && w.slot.pending.Some?
    && var e := w.slot.pending.value;
       && w == World(Slot(Some(e), None, None, None), Resting, Some(Sole(t)), w.sends, 0, w.blanks, w.rounds, false)
       && e.state == Pending && e.ledger == Some(Sole(t)) && ValidEnvelope(e) && e.nextAttemptAt >= 0
       && SendsTo(w.sends, t) == k
  }

  const BLANK := SendFailed("", true)

  /** One more round: claimed, sent, failed for good without a text, burial refused, deferred. */
  lemma BlankRound(c: Config, w: World, t: Target, k: nat) returns (ws: seq<World>, ls: seq<Label>)
    requires StillDue(w, t, k)
    ensures |ws| == |ls| + 1 && ws[0] == w && StillDue(ws[|ls|], t, k + 1)
    ensures forall i :: 0 <= i < |ls| ==> Enabled(ws[i], ls[i]) && ws[i + 1] == After(c, ws[i], ls[i]) && Whole(ls[i])
  {
    var now := w.slot.pending.value.nextAttemptAt;
    ls := [Claim(now, 1, 2), Begin, Attempt(BLANK, 1), Finish(2)];
    var w1 := After(c, w, ls[0]);
    ReadySole(t, now);
    var w2 := After(c, w1, ls[1]);
    var w3 := BlankAttempt(c, w2, t, now);
    var w4 := After(c, w3, ls[3]);
    NextSole(t, now, c.Poll());
    assert w4.slot == Slot(Some(DeferredEnvelope(w1.worker.env, now, now + c.Poll())), None, None, None);
    ws := [w, w1, w2, w3, w4];
  }

  lemma BlankAttempt(c: Config, w: World, t: Target, now: int) returns (x: World)
    requires w.worker.Busy? && w.worker.now == now && w.worker.mode == Delivering([t])
    requires Held(w.slot, w.worker.env) && w.worker.env.ledger == Some(Sole(t)) && ValidEnvelope(w.worker.env)
    ensures Enabled(w, Attempt(BLANK, 1)) && x == After(c, w, Attempt(BLANK, 1))
    ensures x == w.(sends := w.sends[t := SendsTo(w.sends, t) + 1], blanks := w.blanks + 1, worker := Busy(w.worker.env, now, Delivering([])))
  {
    ReadySole(t, now);
    RecordIs(w.worker.env, t, BLANK, now, c.Backoff());
    assert [t][1..] == [];
    x := After(c, w, Attempt(BLANK, 1));
  }

  lemma ReadySole(t: Target, now: int)
    ensures ReadyTargets(Sole(t), now) == [t] && IndexOf(Sole(t), t) == 0
  {
    assert Sole(t)[..0] == [];
    assert ReadyTargets(Sole(t)[..0], now) == [] && IndexOf(Sole(t)[..0], t) == -1;
  }

  lemma NextSole(t: Target, now: int, poll: int)
    requires poll > 0
    ensures NextAttempt(Sole(t), now, poll) == now + poll && !Terminal(Sole(t))
  {
    assert Sole(t)[..0] == [];
    assert NextAttempt(Sole(t)[..0], now, poll) == 0;
    assert Sole(t)[0].state == Waiting;
  }

  lemma FirstRound(c: Config, e: Envelope, t: Target) returns (ws: seq<World>, ls: seq<Label>)
    requires e.state == Pending && e.ledger.None? && ValidEnvelope(e) && ValidTarget(t)
    ensures IsWholeRun(c, ws, ls) && ws[0].slot.pending == Some(e) && StillDue(ws[|ls|], t, 0)
  {
    var now := if e.nextAttemptAt > 0 then e.nextAttemptAt else 0;
    var w := World(Slot(Some(e), None, None, None), Resting, None, map[], 0, 0, 0, false);
    ls := [Claim(now, 1, 2), Resolve([t], 1), QuietDefer(now + 1, 2)];
    var w1 := After(c, w, ls[0]);
    var claimed := w1.worker.env;
    assert GoodTargets([t]);
    ResolvedIsValid(claimed, [t], now);
    assert FreshLedger([t]) == Sole(t);
    var w2 := After(c, w1, ls[1]);
    assert w2.worker.env.ledger == Some(Sole(t));
    NextSole(t, now, 1);
    var w3 := After(c, w2, ls[2]);
    assert w3.slot == Slot(Some(DeferredEnvelope(w2.worker.env, now, now + 1)), None, None, None);
    ws := [w, w1, w2, w3];
    assert Init(w);
  }

  /**
   * Without a text the burial is refused every time: for every configuration, every valid
   * target, every fresh item and every k, some run without a crash sends k times to the target.
   */
  lemma {:induction false} BlankErrorsResendForever(c: Config, e: Envelope, t: Target, k: nat) returns (ws: seq<World>, ls: seq<Label>)
    requires e.state == Pending && e.ledger.None? && ValidEnvelope(e) && ValidTarget(t)
    ensures IsWholeRun(c, ws, ls) && ws[0].slot.pending == Some(e)
    ensures ws[|ls|].crashes == 0 && SendsTo(ws[|ls|].sends, t) == k
    ensures StillDue(ws[|ls|], t, k)
    decreases k
  {
    if k == 0 {
      ws, ls := FirstRound(c, e, t);
    } else {
      var vs, ms := BlankErrorsResendForever(c, e, t, k - 1);
      var us, ns := BlankRound(c, vs[|ms|], t, k - 1);
      ws, ls := vs + us[1..], ms + ns;
      forall i | 0 <= i < |ls| ensures Enabled(ws[i], ls[i]) && ws[i + 1] == After(c, ws[i], ls[i]) && Whole(ls[i]) {
        if i >= |ms| {
          assert ws[i] == us[i - |ms|] && ws[i + 1] == us[i + 1 - |ms|] && ls[i] == ns[i - |ms|];
        }
      }
    }
  }
}
