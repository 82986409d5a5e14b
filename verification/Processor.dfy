/**
 * The service's processing of one claimed item against the queue. What the policy, the
 * quiet hours and the senders decide comes in as parameters.
 */
module Processors {
  import opened Common
  import opened Slots
  import opened Ledgers
  import opened Queues
  import opened Delivery
  import opened Services

  /** What the policy decides for an unresolved item. */
  datatype Plan = PolicyFailed(cause: string) | Disabled | FanOut(targets: seq<Target>)

  datatype Quiet = QuietFailed(cause: string, permanent: bool) | Inactive | Drop | Postpone(until: int)

  const DROP_CAUSE := "delivery suppressed by quiet-hours drop"

  /** What will come of each target in this round: `others` speaks for the targets not listed. */
  datatype Outcomes = Outcomes(listed: map<Target, Outcome>, others: Outcome) {
    function For(t: Target): Outcome {
      if t in listed then listed[t] else others
    }
  }

  // ---------------------------------------------------------------- a round, target by target

  /** The entry after the outcome for its target, if it still waits. */
  function Outlived(e: Entry, o: Outcome, now: int, backoff: seq<int>): Entry {
    if e.state == Waiting && e.attempts >= 0 then RecordEntry(e, o, now, backoff) else e
  }

  /** The ledger after the outcomes of the first k targets, recorded one after the other. */
  ghost function RoundLedger(l: Ledger, todo: seq<Target>, k: nat, outcome: Outcomes, now: int, backoff: seq<int>): (m: Ledger)
    requires k <= |todo|
    ensures |m| == |l|
  {
    if k == 0 then l
    else
      var m := RoundLedger(l, todo, k - 1, outcome, now, backoff);
      var j := IndexOf(m, todo[k - 1]);
      if j < 0 then m else m[j := Outlived(m[j], outcome.For(todo[k - 1]), now, backoff)]
  }

  lemma {:induction false} RoundTargets(l: Ledger, todo: seq<Target>, k: nat, outcome: Outcomes, now: int, backoff: seq<int>)
    requires k <= |todo|
    ensures forall i :: 0 <= i < |l| ==> RoundLedger(l, todo, k, outcome, now, backoff)[i].target == l[i].target
    decreases k
  {
    if k > 0 {
      RoundTargets(l, todo, k - 1, outcome, now, backoff);
    }
  }

  /** An entry whose target is not in the round is untouched. */
  lemma {:induction false} RoundUntouched(l: Ledger, todo: seq<Target>, k: nat, outcome: Outcomes, now: int, backoff: seq<int>, i: nat)
    requires k <= |todo| && i < |l|
    requires forall j :: 0 <= j < k ==> todo[j] != l[i].target
    ensures RoundLedger(l, todo, k, outcome, now, backoff)[i] == l[i]
    decreases k
  {
    if k > 0 {
      RoundUntouched(l, todo, k - 1, outcome, now, backoff, i);
      RoundTargets(l, todo, k - 1, outcome, now, backoff);
    }
  }

  /** The next target of the round is still as the round found it. */
  lemma RoundStep(l: Ledger, todo: seq<Target>, k: nat, outcome: Outcomes, now: int, backoff: seq<int>)
    requires ValidLedger(l) && TodoOk(l, todo) && k < |todo|
    ensures var m := RoundLedger(l, todo, k, outcome, now, backoff);
      var j := IndexOf(l, todo[k]);
      && IndexOf(m, todo[k]) == j >= 0 && m[j] == l[j] && l[j].state == Waiting && l[j].attempts >= 0
      && RoundLedger(l, todo, k + 1, outcome, now, backoff) == m[j := RecordEntry(m[j], outcome.For(todo[k]), now, backoff)]
  {
    var j := IndexOf(l, todo[k]);
    assert ValidEntry(l[j]);
    RoundTargets(l, todo, k, outcome, now, backoff);
    IndexOfKept(l, RoundLedger(l, todo, k, outcome, now, backoff), todo[k]);
    RoundUntouched(l, todo, k, outcome, now, backoff, j);
  }

  /** Each target of the round is recorded once, as its own outcome says. */
  lemma {:induction false} RoundRecorded(l: Ledger, todo: seq<Target>, k: nat, outcome: Outcomes, now: int, backoff: seq<int>, j: nat)
    requires ValidLedger(l) && TodoOk(l, todo) && j < k <= |todo|
    ensures var i := IndexOf(l, todo[j]);
      && i >= 0 && l[i].state == Waiting && l[i].attempts >= 0
      && RoundLedger(l, todo, k, outcome, now, backoff)[i] == RecordEntry(l[i], outcome.For(todo[j]), now, backoff)
    decreases k
  {
    RoundStep(l, todo, k - 1, outcome, now, backoff);
    if j < k - 1 {
      RoundRecorded(l, todo, k - 1, outcome, now, backoff, j);
      assert IndexOf(l, todo[j]) != IndexOf(l, todo[k - 1]);
    }
  }

  /** Blank burials among the first k targets of a round. */
  ghost function Blanks(l: Ledger, todo: seq<Target>, k: nat, outcome: Outcomes, backoff: seq<int>): nat
    requires k <= |todo| && TodoOk(l, todo)
  {
    if k == 0 then 0
    else
      Blanks(l, todo, k - 1, outcome, backoff) +
      (if Blank(l[IndexOf(l, todo[k - 1])], outcome.For(todo[k - 1]), backoff) then 1 else 0)
  }

  /** A round spends at least one unit of the retry budget per target that is not buried blank. */
  lemma RoundSpends(l: Ledger, todo: seq<Target>, k: nat, outcome: Outcomes, now: int, backoff: seq<int>)
    requires ValidLedger(l) && TodoOk(l, todo) && k <= |todo| && Within(l, |backoff|)
    ensures var m := RoundLedger(l, todo, k, outcome, now, backoff);
      Within(m, |backoff|) && Budget(m, |backoff|) + k <= Budget(l, |backoff|) + Blanks(l, todo, k, outcome, backoff)
  {
    var ms := seq(k + 1, i requires 0 <= i <= k => RoundLedger(l, todo, i, outcome, now, backoff));
    var bs := seq(k + 1, i requires 0 <= i <= k => Blanks(l, todo, i, outcome, backoff));
    forall i | 0 <= i < k ensures Costs(ms[i], ms[i + 1], bs[i], bs[i + 1], |backoff|) {
      SpendsAt(l, todo, i, outcome, now, backoff);
    }
    CostChain(ms, bs, |backoff|, k);
    assert ms[0] == l && bs[0] == 0;
  }

  lemma {:induction false} CostChain(ms: seq<Ledger>, bs: seq<nat>, b: nat, k: nat)
    requires k < |ms| == |bs| && Within(ms[0], b)
    requires forall i :: 0 <= i < k ==> Costs(ms[i], ms[i + 1], bs[i], bs[i + 1], b)
    ensures Within(ms[k], b) && Budget(ms[k], b) + k + bs[0] <= Budget(ms[0], b) + bs[k]
    decreases k
  {
    if k > 0 {
      CostChain(ms, bs, b, k - 1);
      assert Costs(ms[k - 1], ms[k], bs[k - 1], bs[k], b);
    }
  }

  /** One more target costs a unit of the budget, unless it adds a blank burial. */
  ghost predicate Costs(m: Ledger, next: Ledger, blanks: nat, more: nat, b: nat) {
    Within(m, b) ==> Within(next, b) && Budget(next, b) + 1 + blanks <= Budget(m, b) + more
  }

  lemma SpendsAt(l: Ledger, todo: seq<Target>, k: nat, outcome: Outcomes, now: int, backoff: seq<int>)
    requires ValidLedger(l) && TodoOk(l, todo) && k < |todo|
    ensures Costs(RoundLedger(l, todo, k, outcome, now, backoff), RoundLedger(l, todo, k + 1, outcome, now, backoff),
      Blanks(l, todo, k, outcome, backoff), Blanks(l, todo, k + 1, outcome, backoff), |backoff|)
  {
    var m, next, j, o := StepOf(l, todo, k, outcome, now, backoff);
    StepCosts(m, next, j, o, now, backoff, Blanks(l, todo, k, outcome, backoff));
  }

  /** Target k of a round: the ledgers before and after it, its place and its outcome. */
  lemma StepOf(l: Ledger, todo: seq<Target>, k: nat, outcome: Outcomes, now: int, backoff: seq<int>)
    returns (m: Ledger, next: Ledger, j: nat, o: Outcome)
    requires ValidLedger(l) && TodoOk(l, todo) && k < |todo|
    ensures m == RoundLedger(l, todo, k, outcome, now, backoff) && next == RoundLedger(l, todo, k + 1, outcome, now, backoff)
    ensures j < |m| && m[j].state == Waiting && m[j].attempts >= 0 && next == m[j := RecordEntry(m[j], o, now, backoff)]
    ensures Blanks(l, todo, k + 1, outcome, backoff) == Blanks(l, todo, k, outcome, backoff) + if Blank(m[j], o, backoff) then 1 else 0
  {
    RoundStep(l, todo, k, outcome, now, backoff);
    m, next := RoundLedger(l, todo, k, outcome, now, backoff), RoundLedger(l, todo, k + 1, outcome, now, backoff);
    j, o := IndexOf(l, todo[k]), outcome.For(todo[k]);
  }

  lemma StepCosts(m: Ledger, next: Ledger, j: nat, o: Outcome, now: int, backoff: seq<int>, blanks: nat)
    requires j < |m| && m[j].state == Waiting && m[j].attempts >= 0 && next == m[j := RecordEntry(m[j], o, now, backoff)]
    ensures Costs(m, next, blanks, blanks + if Blank(m[j], o, backoff) then 1 else 0, |backoff|)
  {
    if Within(m, |backoff|) {
      RecordSpends(m, j, o, now, backoff);
    }
  }

  // ---------------------------------------------------------------- the processor

  class Service {
    const queue: Queue
    const config: Config

    constructor (queue: Queue, config: Config)
      ensures this.queue == queue && this.config == config
    {
      this.queue := queue;
      this.config := config;
    }

    /** A failure counts an attempt; the last one the backoff allows buries the target. */
    method FailTarget(item: Item, t: Target, o: Outcome, now: int, life: nat) returns (r: Queues.Result<Item>)
      requires !o.Sent?
      modifies queue
      ensures OnlyChanges(old(queue.Files()), queue.Files(), item.file)
      ensures old(queue.Valid()) ==> queue.Valid()
      ensures Rewritten(old(queue.Files()), queue.Files(), item, FailRecord(item.env, t, o, now, config.Backoff()), life, r)
    {
      if item.env.ledger.None? {
        return Failed;
      }
      var k := IndexOf(item.env.ledger.value, t);
      if k < 0 || item.env.ledger.value[k].attempts < 0 {
        return Failed;
      }
      var update := FailUpdate(item.env.ledger.value[k], o, now, config.Backoff());
      r := queue.UpdateTarget(item, t, update, now, life);
    }

    method RecordOutcome(item: Item, t: Target, o: Outcome, now: int, life: nat) returns (r: Queues.Result<Item>)
      modifies queue
      ensures OnlyChanges(old(queue.Files()), queue.Files(), item.file)
      ensures old(queue.Valid()) ==> queue.Valid()
      ensures Rewritten(old(queue.Files()), queue.Files(), item, Record(item.env, t, o, now, config.Backoff()), life, r)
    {
      if o.Sent? {
        r := queue.UpdateTarget(item, t, AckWith(o.messageId), now, life);
      } else {
        r := FailTarget(item, t, o, now, life);
      }
    }

    /** Recording for a waiting target of a held item: only a process death stops it. */
    method RecordHeld(item: Item, t: Target, o: Outcome, now: int, life: nat) returns (next: Option<Item>, left: nat)
      requires queue.Valid() && item.file != "" && Holds(queue.SlotOf(item.file), item.env) && item.env.ledger.Some?
      requires IndexOf(item.env.ledger.value, t) >= 0 && item.env.ledger.value[IndexOf(item.env.ledger.value, t)].state == Waiting
      requires item.env.ledger.value[IndexOf(item.env.ledger.value, t)].attempts >= 0
      modifies queue
      ensures queue.Valid() && OnlyChanges(old(queue.Files()), queue.Files(), item.file)
      ensures next.None? ==> life == 0 && queue.SlotOf(item.file) == old(queue.SlotOf(item.file))
      ensures next.Some? ==>
        var l := item.env.ledger.value; var k := IndexOf(l, t);
        && next.value.file == item.file && Holds(queue.SlotOf(item.file), next.value.env) && left >= life - 1
        && next.value.env.ledger == Some(l[k := RecordEntry(l[k], o, now, config.Backoff())])
    {
      HoldsRecord(item.env, t, o, now, config.Backoff());
      var written := RecordOutcome(item, t, o, now, life);
      match written
      case Died => return None, 0;
      case Failed => return Some(item), life;
      case Done(updated) => return Some(updated), life - 1;
    }

    /** Target k of the round: recorded on top of the first k. */
    method RecordNext(item: Item, ghost l: Ledger, todo: seq<Target>, k: nat, outcome: Outcomes, now: int, life: nat)
      returns (next: Option<Item>, left: nat)
      requires queue.Valid() && item.file != "" && Holds(queue.SlotOf(item.file), item.env)
      requires ValidLedger(l) && TodoOk(l, todo) && k < |todo|
      requires item.env.ledger == Some(RoundLedger(l, todo, k, outcome, now, config.Backoff()))
      modifies queue
      ensures queue.Valid() && OnlyChanges(old(queue.Files()), queue.Files(), item.file)
      ensures next.None? ==> life == 0 && queue.SlotOf(item.file) == old(queue.SlotOf(item.file))
      ensures next.Some? ==> next.value.file == item.file && Holds(queue.SlotOf(item.file), next.value.env) && left >= life - 1
      ensures next.Some? ==> next.value.env.ledger == Some(RoundLedger(l, todo, k + 1, outcome, now, config.Backoff()))
    {
      RoundStep(l, todo, k, outcome, now, config.Backoff());
      next, left := RecordHeld(item, todo[k], outcome.For(todo[k]), now, life);
    }

    /** The send to target k, if there is one. */
    method LogSend(sent: seq<Target>, todo: seq<Target>, k: nat, outcome: Outcomes) returns (log: seq<Target>)
      requires k < |todo| && sent == SentOf(todo, k, outcome)
      ensures log == SentOf(todo, k + 1, outcome)
    {
      log := sent;
      if !outcome.For(todo[k]).Skipped? {
        log := log + [todo[k]];
      }
    }

    /** Sends to each target of the work list in turn and records what came of it. */
    method Deliver(item: Item, todo: seq<Target>, now: int, outcome: Outcomes, life: nat)
      returns (r: Queues.Result<Item>, sent: seq<Target>, done: nat, left: nat)
      requires queue.Valid() && item.file != "" && Holds(queue.SlotOf(item.file), item.env)
      requires item.env.ledger.Some? && ValidLedger(item.env.ledger.value) && TodoOk(item.env.ledger.value, todo)
      modifies queue
      ensures queue.Valid() && OnlyChanges(old(queue.Files()), queue.Files(), item.file)
      ensures r != Failed && if r.Done? then done == |todo| else done < |todo|
      ensures life >= |todo| ==> r.Done? && left >= life - |todo|
      ensures queue.SlotOf(item.file).inflight.Some?
      ensures var e := queue.SlotOf(item.file).inflight.value;
        && Holds(queue.SlotOf(item.file), e)
        && e.ledger == Some(RoundLedger(item.env.ledger.value, todo, done, outcome, now, config.Backoff()))
        && (r.Done? ==> r.value == Item(item.file, e))
      ensures sent == SentOf(todo, if r.Done? then done else done + 1, outcome)
    {
      var l := item.env.ledger.value;
      var current := item;
      left := life;
      sent := [];
      done := 0;
      while done < |todo|
        invariant done <= |todo| && queue.Valid() && OnlyChanges(old(queue.Files()), queue.Files(), item.file)
        invariant left >= life - done
        invariant current.file == item.file && Holds(queue.SlotOf(item.file), current.env)
        invariant current.env.ledger == Some(RoundLedger(l, todo, done, outcome, now, config.Backoff()))
        invariant sent == SentOf(todo, done, outcome)
      {
        sent := LogSend(sent, todo, done, outcome);
        var next;
        next, left := RecordNext(current, l, todo, done, outcome, now, left);
        if next.None? {
          return Died, sent, done, 0;
        }
        current := next.value;
        done := done + 1;
      }
      return Done(current), sent, done, left;
    }

    method NextAttemptFor(l: Ledger, now: int) returns (next: int)
      ensures next == NextAttempt(l, now, config.Poll())
    {
      next := 0;
      for i := 0 to |l|
        invariant next == NextAttempt(l[..i], now, config.Poll())
      {
        assert l[..i + 1][..i] == l[..i];
        if l[i].state == Waiting {
          var candidate := l[i].nextAttemptAt;
          if candidate == 0 || candidate <= now {
            candidate := now + config.Poll();
          }
          if next == 0 || candidate < next {
            next := candidate;
          }
        }
      }
      assert l[..|l|] == l;
    }

    /** finishResolvedItem: it never fails, and leaves the item finished or due after now. */
    method FinishResolved(item: Item, now: int, life: nat) returns (r: Queues.Result<Envelope>)
      requires queue.Valid() && item.file != "" && Holds(queue.SlotOf(item.file), item.env) && item.env.ledger.Some? && now >= 0
      modifies queue
      ensures queue.Valid() && OnlyChanges(old(queue.Files()), queue.Files(), item.file)
      ensures queue.SlotOf(item.file) == FinishOp(old(queue.SlotOf(item.file)), item.env, now, config.Poll(), life)
      ensures r != Failed && (life >= 2 ==> r.Done?)
      ensures r.Done? ==> Rested(queue.SlotOf(item.file), item.env.ledger.value, now)
      ensures Survives(queue.SlotOf(item.file), item.env.ledger)
    {
      AckSurvives(queue.SlotOf(item.file), item.env, now, life);
      DeferSurvives(queue.SlotOf(item.file), item.env, now, NextAttempt(item.env.ledger.value, now, config.Poll()), life);
      NextAttemptIsLegal(item.env.ledger.value, now, config.Poll());
      var terminal := LedgerTerminal(item.env.ledger.value);
      if terminal {
        r := queue.Ack(item, now, life);
      } else {
        var next := NextAttemptFor(item.env.ledger.value, now);
        r := queue.Defer(item, now, next, life);
      }
    }

    /** A resolved item in quiet hours: finished if nothing waits, otherwise put off until they end. */
    method PostponeResolved(item: Item, until: int, now: int, life: nat) returns (r: Queues.Result<Envelope>)
      requires queue.Valid() && item.file != "" && Holds(queue.SlotOf(item.file), item.env) && item.env.ledger.Some? && now >= 0 && until > now
      modifies queue
      ensures queue.Valid() && OnlyChanges(old(queue.Files()), queue.Files(), item.file)
      ensures queue.SlotOf(item.file) == QuietOp(old(queue.SlotOf(item.file)), item.env, now, until, life)
      ensures r != Failed && (life >= 2 ==> r.Done?)
      ensures r.Done? ==> Rested(queue.SlotOf(item.file), item.env.ledger.value, now)
      ensures Survives(queue.SlotOf(item.file), item.env.ledger)
    {
      AckSurvives(queue.SlotOf(item.file), item.env, now, life);
      DeferSurvives(queue.SlotOf(item.file), item.env, now, until, life);
      var terminal := LedgerTerminal(item.env.ledger.value);
      if terminal {
        r := queue.Ack(item, now, life);
      } else {
        r := queue.Defer(item, now, until, life);
      }
    }

    /** One round: sends to the work list in turn, then finishes. */
    method RunRound(item: Item, todo: seq<Target>, now: int, outcome: Outcomes, life: nat)
      returns (r: Queues.Result<Envelope>, sent: seq<Target>)
      requires queue.Valid() && item.file != "" && Holds(queue.SlotOf(item.file), item.env) && item.env.ledger.Some? && now >= 0
      requires ValidLedger(item.env.ledger.value) && TodoOk(item.env.ledger.value, todo)
      modifies queue
      ensures queue.Valid() && OnlyChanges(old(queue.Files()), queue.Files(), item.file)
      ensures r != Failed && (life >= |todo| + 2 ==> r.Done?)
      ensures sent <= AllSent(todo, outcome) && (r.Done? ==> sent == AllSent(todo, outcome))
      ensures r.Done? ==> Rested(queue.SlotOf(item.file), RoundLedger(item.env.ledger.value, todo, |todo|, outcome, now, config.Backoff()), now)
      ensures r.Died? ==> Partly(queue.SlotOf(item.file), item.env.ledger.value, todo, now, outcome, config.Backoff())
    {
      var l := item.env.ledger.value;
      var delivered, log, done, left := Deliver(item, todo, now, outcome, life);
      SentPrefix(todo, if delivered.Done? then done else done + 1, |todo|, outcome);
      sent := log;
      if delivered.Died? {
        PartlyAt(queue.SlotOf(item.file), l, todo, now, outcome, config.Backoff(), done);
        return Died, sent;
      }
      r := FinishResolved(delivered.value, now, left);
      PartlyAt(queue.SlotOf(item.file), l, todo, now, outcome, config.Backoff(), done);
    }

    /** A resolved item: dropped, postponed, or sent to its due targets and finished. */
    method ProcessResolved(item: Item, quiet: Quiet, now: int, outcome: Outcomes, life: nat)
      returns (r: Queues.Result<Envelope>, sent: seq<Target>)
      requires queue.Valid() && item.file != "" && Holds(queue.SlotOf(item.file), item.env) && item.env.ledger.Some? && now >= 0
      requires quiet.Postpone? ==> quiet.until > now
      modifies queue
      ensures queue.Valid() && OnlyChanges(old(queue.Files()), queue.Files(), item.file)
      ensures r != Failed && (life >= |item.env.ledger.value| + 2 ==> r.Done?)
      ensures quiet.Inactive? ==> sent <= AllSent(ReadyTargets(item.env.ledger.value, now), outcome)
      ensures quiet.Inactive? && r.Done? ==> sent == AllSent(ReadyTargets(item.env.ledger.value, now), outcome)
      ensures !quiet.Inactive? ==> sent == []
      ensures r.Done? ==> Rested(queue.SlotOf(item.file), RoundResult(item.env.ledger.value, quiet, now, outcome, config.Backoff()), now)
      ensures r.Died? ==> CutOff(queue.SlotOf(item.file), item.env.ledger.value, quiet, now, outcome, config.Backoff())
    {
      var l := item.env.ledger.value;
      sent := [];
      if quiet.Postpone? {
        r := PostponeResolved(item, quiet.until, now, life);
        PartlyAt(queue.SlotOf(item.file), l, [], now, RoundOutcomes(quiet, outcome), config.Backoff(), 0);
        return;
      }
      var todo;
      if quiet.Drop? {
        WaitingIsTodo(l);
        todo := WaitingTargets(l);
      } else {
        ReadyIsTodo(l, now);
        todo := Ready(l, now);
      }
      var log;
      r, log := RunRound(item, todo, now, RoundOutcomes(quiet, outcome), life);
      if quiet.Inactive? {
        sent := log;
      }
    }

    /** processM2: policy first, then quiet hours, then resolution, then the due targets. */
    method ProcessM2(item: Item, plan: Plan, quiet: Quiet, now: int, outcome: Outcomes, life: nat)
      returns (r: Queues.Result<Envelope>, sent: seq<Target>)
      requires queue.Valid() && item.file != "" && Holds(queue.SlotOf(item.file), item.env) && now >= 0
      requires quiet.Postpone? ==> quiet.until > now
      modifies queue
      ensures queue.Valid() && OnlyChanges(old(queue.Files()), queue.Files(), item.file)
      ensures !quiet.Inactive? || (item.env.ledger.None? && !plan.FanOut?) ==> sent == []
      ensures quiet.Inactive? && item.env.ledger.Some? ==> sent <= AllSent(ReadyTargets(item.env.ledger.value, now), outcome)
      ensures quiet.Inactive? && item.env.ledger.None? && plan.FanOut? ==> sent <= AllSent(plan.targets, outcome)
      ensures r == Failed <==> item.env.ledger.None? && plan.FanOut? && (quiet.Inactive? || quiet.Postpone?) && !GoodTargets(plan.targets)
      ensures r == Failed ==> queue.Files() == old(queue.Files())
      ensures r.Done? && (item.env.ledger.Some? || (plan.FanOut? && (quiet.Inactive? || quiet.Postpone?))) ==>
        var l := if item.env.ledger.Some? then item.env.ledger.value else FreshLedger(plan.targets);
        Rested(queue.SlotOf(item.file), RoundResult(l, quiet, now, outcome, config.Backoff()), now)
      ensures r.Done? && item.env.ledger.None? && (plan.Disabled? || (plan.FanOut? && quiet.Drop?)) ==>
        queue.SlotOf(item.file) == Slot(None, None, Some(AckedEnvelope(item.env, now)), None)
      ensures r.Died? && item.env.ledger.Some? ==>
        CutOff(queue.SlotOf(item.file), item.env.ledger.value, quiet, now, outcome, config.Backoff())
      ensures r.Died? && item.env.ledger.None? ==>
        || Survives(queue.SlotOf(item.file), None)
        || (plan.FanOut? && CutOff(queue.SlotOf(item.file), FreshLedger(plan.targets), quiet, now, outcome, config.Backoff()))
      ensures r.Done? && item.env.ledger.None? && (plan.PolicyFailed? || (plan.FanOut? && quiet.QuietFailed?)) ==>
        queue.SlotOf(item.file) == NackOp(old(queue.SlotOf(item.file)), item.env, if plan.PolicyFailed? then plan.cause else quiet.cause, now, config.Backoff(), 2)
    {
      sent := [];
      if item.env.ledger.Some? {
        r, sent := ProcessResolved(item, quiet, now, outcome, life);
        return;
      }
      AckSurvives(queue.SlotOf(item.file), item.env, now, life);
      NackSurvives(queue.SlotOf(item.file), item.env, if plan.PolicyFailed? then plan.cause else if quiet.QuietFailed? then quiet.cause else "", now, config.Backoff(), life);
      match plan {
        case PolicyFailed(cause) =>
          r := queue.Nack(item, cause, now, config.Backoff(), life);
        case Disabled =>
          r := queue.Ack(item, now, life);
        case FanOut(targets) =>
          if quiet.QuietFailed? {
            r := queue.Nack(item, quiet.cause, now, config.Backoff(), life);
          } else if quiet.Drop? {
            r := queue.Ack(item, now, life);
          } else {
            r, sent := ResolveAndProcess(item, targets, quiet, now, outcome, life);
          }
      }
    }

    method ResolveAndProcess(item: Item, targets: seq<Target>, quiet: Quiet, now: int, outcome: Outcomes, life: nat)
      returns (r: Queues.Result<Envelope>, sent: seq<Target>)
      requires queue.Valid() && item.file != "" && Holds(queue.SlotOf(item.file), item.env) && item.env.ledger.None? && now >= 0
      requires quiet.Inactive? || (quiet.Postpone? && quiet.until > now)
      modifies queue
      ensures queue.Valid() && OnlyChanges(old(queue.Files()), queue.Files(), item.file)
      ensures if quiet.Inactive? then sent <= AllSent(targets, outcome) else sent == []
      ensures r == Failed <==> !GoodTargets(targets)
      ensures r == Failed ==> queue.Files() == old(queue.Files())
      ensures r.Done? ==> Rested(queue.SlotOf(item.file), RoundResult(FreshLedger(targets), quiet, now, outcome, config.Backoff()), now)
      ensures r.Died? ==>
        || Survives(queue.SlotOf(item.file), None)
        || CutOff(queue.SlotOf(item.file), FreshLedger(targets), quiet, now, outcome, config.Backoff())
    {
      sent := [];
      var resolved := queue.ResolveTargets(item, targets, now, life);
      match resolved {
        case Died => r := Died;
        case Failed => r := Failed;
        case Done(value) =>
          ResolvedIsValid(item.env, targets, now);
          FreshAllReady(targets, now);
          r, sent := ProcessResolved(value.0, quiet, now, outcome, life - 1);
      }
    }
  }

  // ---------------------------------------------------------------- facts about one round

  /** The item has left inflight for one other directory with ledger `l`: history if nothing waits, pending until after now otherwise. */
  ghost predicate Rested(s: QueueSlot, l: Ledger, now: int) {
    && s.inflight.None? && s.dead.None? && Copies(s) == 1
    && (Terminal(l) <==> s.history.Some?)
    && (s.history.Some? ==> s.history.value.ledger == Some(l))
    && (s.pending.Some? ==> s.pending.value.ledger == Some(l) && s.pending.value.nextAttemptAt > now)
  }

  /** The item has a copy, and all its copies carry this ledger. */
  ghost predicate Survives(s: QueueSlot, ledger: Option<Ledger>) {
    SlotOk(s, ledger) && Copies(s) > 0
  }

  ghost function RoundTodo(l: Ledger, quiet: Quiet, now: int): seq<Target> {
    match quiet
    case Postpone(_) => []
    case Drop => WaitingTargets(l)
    case _ => ReadyTargets(l, now)
  }

  /** The copies carry the ledger of the targets recorded so far. */
  ghost predicate Partly(s: QueueSlot, l: Ledger, todo: seq<Target>, now: int, outcome: Outcomes, backoff: seq<int>) {
    exists k :: 0 <= k <= |todo| && Survives(s, Some(RoundLedger(l, todo, k, outcome, now, backoff)))
  }

  lemma PartlyAt(s: QueueSlot, l: Ledger, todo: seq<Target>, now: int, outcome: Outcomes, backoff: seq<int>, k: nat)
    requires k <= |todo| && Survives(s, Some(RoundLedger(l, todo, k, outcome, now, backoff)))
    ensures Partly(s, l, todo, now, outcome, backoff)
  {
  }

  /** The process died in the round. */
  ghost predicate CutOff(s: QueueSlot, l: Ledger, quiet: Quiet, now: int, outcome: Outcomes, backoff: seq<int>) {
    Partly(s, l, RoundTodo(l, quiet, now), now, RoundOutcomes(quiet, outcome), backoff)
  }

  lemma AckSurvives(s: QueueSlot, e: Envelope, now: int, life: nat)
    requires Holds(s, e)
    ensures Survives(AckOp(s, e, now, life), e.ledger)
  {
    LeaveKeepsSlot(s, e.ledger, e, AckedEnvelope(e, now), life);
  }

  lemma DeferSurvives(s: QueueSlot, e: Envelope, now: int, next: int, life: nat)
    requires Holds(s, e)
    ensures Survives(DeferOp(s, e, now, next, life), e.ledger)
  {
    LeaveKeepsSlot(s, e.ledger, e, DeferredEnvelope(e, now, next), life);
  }

  lemma NackSurvives(s: QueueSlot, e: Envelope, cause: string, now: int, backoff: seq<int>, life: nat)
    requires Holds(s, e)
    ensures Survives(NackOp(s, e, cause, now, backoff, life), e.ledger)
  {
    if e.ledger.None? {
      LeaveKeepsSlot(s, e.ledger, e, NackedEnvelope(e, cause, now, backoff), life);
    }
  }

  /** Outside quiet hours the senders decide; a drop buries what waits; an error of the quiet-hours check fails what is due. */
  function RoundOutcomes(quiet: Quiet, outcome: Outcomes): Outcomes {
    match quiet
    case Drop => Outcomes(map[], Skipped(DROP_CAUSE, true))
    case QuietFailed(cause, permanent) => Outcomes(map[], Skipped(cause, permanent))
    case _ => outcome
  }

  ghost function RoundResult(l: Ledger, quiet: Quiet, now: int, outcome: Outcomes, backoff: seq<int>): Ledger
  {
    match quiet
    case Postpone(_) => l
    case Drop => RoundLedger(l, WaitingTargets(l), |WaitingTargets(l)|, RoundOutcomes(quiet, outcome), now, backoff)
    case _ => RoundLedger(l, ReadyTargets(l, now), |ReadyTargets(l, now)|, RoundOutcomes(quiet, outcome), now, backoff)
  }

  lemma WaitingAt(l: Ledger, i: nat) returns (j: nat)
    requires ValidLedger(l) && i < |l| && l[i].state == Waiting
    ensures j < |WaitingTargets(l)| && WaitingTargets(l)[j] == l[i].target
  {
    DistinctTargets(l);
    WaitingMembers(l);
    assert l[i].target in WaitingTargets(l);
    j :| 0 <= j < |WaitingTargets(l)| && WaitingTargets(l)[j] == l[i].target;
  }

  lemma NotWaitingAt(l: Ledger, i: nat)
    requires ValidLedger(l) && i < |l| && l[i].state != Waiting
    ensures forall j :: 0 <= j < |WaitingTargets(l)| ==> WaitingTargets(l)[j] != l[i].target
  {
    DistinctTargets(l);
    WaitingMembers(l);
    var todo := WaitingTargets(l);
    forall j | 0 <= j < |todo| ensures todo[j] != l[i].target {
      assert todo[j] in todo;
    }
  }

  lemma DropRecord(e: Entry, now: int, backoff: seq<int>)
    requires e.state == Waiting && e.attempts >= 0
    ensures RecordEntry(e, Skipped(DROP_CAUSE, true), now, backoff) ==
      Entry(e.target, Dead, e.attempts + 1, 0, "delivery suppressed by quiet-hours drop", "")
  {
  }

  /** A quiet-hours drop sends nothing: it buries every target that waits, with the reason, and leaves the others alone. */
  lemma DropBuries(l: Ledger, now: int, outcome: Outcomes, backoff: seq<int>, i: nat)
    requires ValidLedger(l) && i < |l|
    ensures var m := RoundResult(l, Drop, now, outcome, backoff);
      && |m| == |l|
      && m[i] == if l[i].state == Waiting then Entry(l[i].target, Dead, l[i].attempts + 1, 0, "delivery suppressed by quiet-hours drop", "") else l[i]
  {
    var todo, drop := WaitingTargets(l), RoundOutcomes(Drop, outcome);
    WaitingIsTodo(l);
    if l[i].state == Waiting {
      var j := WaitingAt(l, i);
      RoundRecorded(l, todo, |todo|, drop, now, backoff, j);
      IndexOfAt(l, i);
      DropRecord(l[i], now, backoff);
    } else {
      NotWaitingAt(l, i);
      RoundUntouched(l, todo, |todo|, drop, now, backoff, i);
    }
  }

  /** A fresh ledger is due as a whole. */
  lemma {:induction false} FreshAllReady(targets: seq<Target>, now: int)
    ensures ReadyTargets(FreshLedger(targets), now) == targets
  {
    if targets != [] {
      var front := targets[..|targets| - 1];
      FreshAllReady(front, now);
      assert FreshLedger(targets)[..|targets| - 1] == FreshLedger(front);
      assert targets == front + [targets[|targets| - 1]];
    }
  }

  lemma {:induction false} SentPrefix(todo: seq<Target>, k: nat, n: nat, outcome: Outcomes)
    requires k <= n <= |todo|
    ensures SentOf(todo, k, outcome) <= SentOf(todo, n, outcome)
    decreases n
  {
    if k < n {
      SentPrefix(todo, k, n - 1, outcome);
    }
  }

  /** The only copy is the inflight one, and it is valid. */
  ghost predicate Holds(s: QueueSlot, e: Envelope) {
    Held(s, e) && ValidEnvelope(e)
  }

  /** The targets sent to among the first k, in order. */
  ghost function SentOf(todo: seq<Target>, k: nat, outcome: Outcomes): seq<Target>
    requires k <= |todo|
  {
    if k == 0 then []
    else if IsSend(outcome.For(todo[k - 1])) then SentOf(todo, k - 1, outcome) + [todo[k - 1]]
    else SentOf(todo, k - 1, outcome)
  }

  ghost function AllSent(todo: seq<Target>, outcome: Outcomes): seq<Target> {
    SentOf(todo, |todo|, outcome)
  }

  lemma HoldsRecord(e: Envelope, t: Target, o: Outcome, now: int, backoff: seq<int>)
    requires |backoff| > 0 && ValidEnvelope(e) && e.state == Inflight && e.ledger.Some?
    requires IndexOf(e.ledger.value, t) >= 0 && e.ledger.value[IndexOf(e.ledger.value, t)].state == Waiting
    ensures var k := IndexOf(e.ledger.value, t); var l := e.ledger.value;
      && ValidEntry(l[k])
      && var r := Record(e, t, o, now, backoff);
         && (r.None? ==> l[k := RecordEntry(l[k], o, now, backoff)] == l)
         && (r.Some? ==> ValidEnvelope(r.value) && r.value.state == Inflight)
         && (r.Some? ==> r.value.ledger == Some(l[k := RecordEntry(l[k], o, now, backoff)]))
  {
    RecordIs(e, t, o, now, backoff);
  }
}
