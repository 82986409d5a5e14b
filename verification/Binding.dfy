/**
 * One-time channel binding codes. Unlike a pairing, a claim moves the record before it
 * writes its lease, and a commit writes a second copy before it removes the first.
 * Operations take a `life`, the number of file operations completed before the process
 * dies.
 */
module Bindings {
  import opened Common

  type Code = nat
  type ClaimId = nat

  datatype Hold = Hold(claim: ClaimId, until: int)
  datatype Record = Record(expiresAt: int, hold: Option<Hold>, consumedAt: Option<int>, cancelledAt: Option<int>)

  datatype Refusal = Invalid | NotFound | Claimed | Expired | Consumed | Cancelled
  datatype Reply = Died | Refused(why: Refusal) | Granted(record: Record) | Finished

  /** The files of one code. */
  datatype Files = Files(pending: Option<Record>, inflight: Option<Record>, history: Option<Record>)

  datatype Effect = Effect(files: Files, reply: Reply)

  /** The files after a recovery, and the file operations left; none left means the process died on the way. */
  datatype Recovery = Recovery(files: Files, left: Option<nat>)

  // ---------------------------------------------------------------- one code

  function Cleared(r: Record): Record {
    r.(hold := None)
  }

  /** recoverExpiredFile: an expired lease puts the record back, unless the code was consumed. */
  function RecoverOp(f: Files, now: int, life: nat): Recovery {
    if f.inflight.None? || f.inflight.value.hold.None? || f.inflight.value.hold.value.until > now then Recovery(f, Some(life))
    else if life == 0 then Recovery(f, None)
    else if f.history.Some? then Recovery(f.(inflight := None), Some(life - 1))
    else if life == 1 then Recovery(f.(inflight := Some(Cleared(f.inflight.value))), None)
    else Recovery(f.(inflight := None, pending := Some(Cleared(f.inflight.value))), Some(life - 2))
  }

  /** The claim proper: move the record, look at it, write the lease. */
  function TakeOp(f: Files, claim: ClaimId, now: int, lease: int, life: nat): Effect {
    if f.pending.None? then
      Effect(f, Refused(if f.history.Some? then Consumed else if f.inflight.Some? then Claimed else NotFound))
    else if life == 0 then Effect(f, Died)
    else
      var record := f.pending.value;
      var moved := f.(pending := None, inflight := Some(record));
      if record.cancelledAt.Some? then Effect(moved, Refused(Cancelled))
      else if life == 1 then Effect(moved, Died)
      else if record.expiresAt <= now then Effect(f.(inflight := None), Refused(Expired))
      else
        var held := record.(hold := Some(Hold(claim, now + lease)));
        Effect(moved.(inflight := Some(held)), Granted(held))
  }

  function ClaimOp(f: Files, claim: ClaimId, now: int, lease: int, life: nat): Effect {
    if lease <= 0 then Effect(f, Refused(Invalid))
    else
      var r := RecoverOp(f, now, life);
      if r.left.None? then Effect(r.files, Died) else TakeOp(r.files, claim, now, lease, r.left.value)
  }

  function ClaimedRefusal(f: Files, claim: ClaimId): Option<Refusal> {
    if f.inflight.None? then Some(if f.history.Some? then Consumed else NotFound)
    else if f.inflight.value.hold.None? || f.inflight.value.hold.value.claim != claim then Some(Claimed)
    else None
  }

  function CommitOp(f: Files, claim: ClaimId, now: int, life: nat): Effect {
    if f.history.Some? then Effect(f, Refused(Consumed))
    else if ClaimedRefusal(f, claim).Some? then Effect(f, Refused(ClaimedRefusal(f, claim).value))
    else if life == 0 then Effect(f, Died)
    else
      var written := f.(history := Some(f.inflight.value.(consumedAt := Some(now))));
      if life == 1 then Effect(written, Died) else Effect(written.(inflight := None), Finished)
  }

  function ReleaseOp(f: Files, claim: ClaimId, life: nat): Effect {
    if ClaimedRefusal(f, claim).Some? then Effect(f, Refused(ClaimedRefusal(f, claim).value))
    else if life == 0 then Effect(f, Died)
    else
      var record := Cleared(f.inflight.value);
      if life == 1 then Effect(f.(inflight := Some(record)), Died)
      else Effect(f.(inflight := None, pending := Some(record)), Finished)
  }

  function CancelRefusal(f: Files, now: int): Option<Refusal> {
    if now == 0 then Some(Invalid)
    else if f.history.Some? then Some(if f.history.value.cancelledAt.Some? then Cancelled else Consumed)
    else if f.inflight.Some? then Some(Claimed)
    else if f.pending.None? then Some(NotFound)
    else if f.pending.value.cancelledAt.Some? then Some(Cancelled)
    else None
  }

  function CancelOp(f: Files, now: int, life: nat): Effect {
    if CancelRefusal(f, now).Some? then Effect(f, Refused(CancelRefusal(f, now).value))
    else if life == 0 then Effect(f, Died)
    else
      var record := Cleared(f.pending.value).(cancelledAt := Some(now));
      if life == 1 then Effect(f.(pending := Some(record)), Died)
      else Effect(f.(pending := None, history := Some(record)), Finished)
  }

  // ---------------------------------------------------------------- the store

  class BindingStore {
    var pending: map<Code, Record>
    var inflight: map<Code, Record>
    var history: map<Code, Record>

    constructor ()
      ensures pending == map[] && inflight == map[] && history == map[]
    {
      pending, inflight, history := map[], map[], map[];
    }

    ghost function Of(code: Code): Files
      reads this
    {
      Files(Get(pending, code), Get(inflight, code), Get(history, code))
    }

    method RecoverFile(code: Code, now: int, life: nat) returns (left: Option<nat>, recovered: bool)
      modifies this
      ensures Recovery(Of(code), left) == RecoverOp(old(Of(code)), now, life)
      ensures forall other :: other != code ==> Of(other) == old(Of(other))
      ensures recovered <==> code in old(inflight) && code !in inflight && code !in history
    {
      if code !in inflight {
        return Some(life), false;
      }
      var record := inflight[code];
      if record.hold.None? || record.hold.value.until > now {
        return Some(life), false;
      }
      if life == 0 {
        return None, false;
      }
      if code in history {
        inflight := inflight - {code};
        return Some(life - 1), false;
      }
      record := Cleared(record);
      inflight := inflight[code := record];
      if life == 1 {
        return None, false;
      }
      inflight, pending := inflight - {code}, pending[code := record];
      return Some(life - 2), true;
    }

    method Claim(code: Code, claim: ClaimId, now: int, lease: int, life: nat) returns (r: Reply)
      modifies this
      ensures Effect(Of(code), r) == ClaimOp(old(Of(code)), claim, now, lease, life)
      ensures r.Granted? ==> Of(code).inflight == Some(r.record) && r.record.hold == Some(Hold(claim, now + lease)) && now < r.record.expiresAt
      ensures forall other :: other != code ==> Of(other) == old(Of(other))
    {
      if lease <= 0 {
        return Refused(Invalid);
      }
      var left, _ := RecoverFile(code, now, life);
      if left.None? {
        return Died;
      }
      r := Take(code, claim, now, lease, left.value);
    }

    method Take(code: Code, claim: ClaimId, now: int, lease: int, life: nat) returns (r: Reply)
      modifies this
      ensures Effect(Of(code), r) == TakeOp(old(Of(code)), claim, now, lease, life)
      ensures forall other :: other != code ==> Of(other) == old(Of(other))
    {
      if code !in pending {
        return Refused(if code in history then Consumed else if code in inflight then Claimed else NotFound);
      }
      if life == 0 {
        return Died;
      }
      var record := pending[code];
      inflight, pending := inflight[code := record], pending - {code};
      if record.cancelledAt.Some? {
        return Refused(Cancelled);
      }
      if life == 1 {
        return Died;
      }
      if record.expiresAt <= now {
        pending, inflight := pending[code := record], inflight - {code};
        return Refused(Expired);
      }
      record := record.(hold := Some(Hold(claim, now + lease)));
      inflight := inflight[code := record];
      return Granted(record);
    }

    method Commit(code: Code, claim: ClaimId, now: int, life: nat) returns (r: Reply)
      modifies this
      ensures Effect(Of(code), r) == CommitOp(old(Of(code)), claim, now, life)
      ensures forall other :: other != code ==> Of(other) == old(Of(other))
    {
      if code in history {
        return Refused(Consumed);
      }
      if code !in inflight {
        return Refused(NotFound);
      }
      var record := inflight[code];
      if record.hold.None? || record.hold.value.claim != claim {
        return Refused(Claimed);
      }
      if life == 0 {
        return Died;
      }
      history := history[code := record.(consumedAt := Some(now))];
      if life == 1 {
        return Died;
      }
      inflight := inflight - {code};
      return Finished;
    }

    method Release(code: Code, claim: ClaimId, life: nat) returns (r: Reply)
      modifies this
      ensures Effect(Of(code), r) == ReleaseOp(old(Of(code)), claim, life)
      ensures forall other :: other != code ==> Of(other) == old(Of(other))
    {
      if code !in inflight {
        return Refused(if code in history then Consumed else NotFound);
      }
      var record := inflight[code];
      if record.hold.None? || record.hold.value.claim != claim {
        return Refused(Claimed);
      }
      if life == 0 {
        return Died;
      }
      record := Cleared(record);
      inflight := inflight[code := record];
      if life == 1 {
        return Died;
      }
      inflight, pending := inflight - {code}, pending[code := record];
      return Finished;
    }

    method Cancel(code: Code, now: int, life: nat) returns (r: Reply)
      modifies this
      ensures Effect(Of(code), r) == CancelOp(old(Of(code)), now, life)
      ensures forall other :: other != code ==> Of(other) == old(Of(other))
    {
      if now == 0 {
        return Refused(Invalid);
      }
      if code in history {
        return Refused(if history[code].cancelledAt.Some? then Cancelled else Consumed);
      }
      if code in inflight {
        return Refused(Claimed);
      }
      if code !in pending {
        return Refused(NotFound);
      }
      var record := pending[code];
      if record.cancelledAt.Some? {
        return Refused(Cancelled);
      }
      if life == 0 {
        return Died;
      }
      record := Cleared(record).(cancelledAt := Some(now));
      pending := pending[code := record];
      if life == 1 {
        return Died;
      }
      pending, history := pending - {code}, history[code := record];
      return Finished;
    }
  }

  // ---------------------------------------------------------------- every run on one code

  datatype Label =
    | Claim(claim: ClaimId, lease: int, now: int, life: nat)
    | Release(claim: ClaimId, now: int, life: nat)
    | Commit(claim: ClaimId, now: int, life: nat)
    | Cancel(now: int, life: nat)
    | Recover(now: int, life: nat)

  /** As for pairings; `commits` and `cancels` list the calls that returned success. */
  datatype World = World(
    files: Files,
    clock: int,
    drawn: set<ClaimId>,
    granted: map<ClaimId, int>,
    untouched: set<ClaimId>,
    latest: Option<ClaimId>,
    commits: seq<Label>,
    cancels: seq<Label>)

  ghost predicate Init(w: World) {
    && w.files.pending.Some? && w.files.pending.value == Record(w.files.pending.value.expiresAt, None, None, None)
    && w == World(Files(w.files.pending, None, None), w.clock, {}, map[], {}, None, [], [])
  }

  predicate Enabled(w: World, l: Label) {
    && l.now >= w.clock
    && (l.Claim? ==> l.claim !in w.drawn)
    && (l.Release? || l.Commit? ==> l.claim in w.granted)
  }

  function Outcome(w: World, l: Label): Effect {
    match l
    case Claim(claim, lease, now, life) => ClaimOp(w.files, claim, now, lease, life)
    case Release(claim, now, life) => ReleaseOp(w.files, claim, life)
    case Commit(claim, now, life) => CommitOp(w.files, claim, now, life)
    case Cancel(now, life) => CancelOp(w.files, now, life)
    case Recover(now, life) =>
      var r := RecoverOp(w.files, now, life);
      Effect(r.files, if r.left.None? then Died else Finished)
  }

  function After(w: World, l: Label): World {
    var e := Outcome(w, l);
    var x := w.(files := e.files, clock := l.now);
    match l
    case Claim(claim, _, _, _) =>
      var y := x.(drawn := w.drawn + {claim});
      if e.reply.Granted? && e.reply.record.hold.Some?
      then y.(granted := w.granted[claim := l.now + l.lease], untouched := w.untouched + {claim}, latest := Some(claim))
      else y
    case Release(claim, _, _) => if e.files == w.files then x else x.(untouched := w.untouched - {claim})
    case Commit(claim, _, _) =>
      var y := if e.files == w.files then x else x.(untouched := w.untouched - {claim});
      if e.reply.Finished? then y.(commits := w.commits + [l]) else y
    case Cancel(_, _) => if e.reply.Finished? then x.(cancels := w.cancels + [l]) else x
    case Recover(_, _) => x
  }

  ghost predicate IsRun(ws: seq<World>, ls: seq<Label>) {
    && |ws| == |ls| + 1 && Init(ws[0])
    && forall i :: 0 <= i < |ls| ==> Enabled(ws[i], ls[i]) && ws[i + 1] == After(ws[i], ls[i])
  }

  // ---------------------------------------------------------------- what every file keeps

  /** A copy outside history is not consumed, and a cancelled one is not held. */
  predicate CopyOk(o: Option<Record>) {
    o.Some? ==> o.value.consumedAt.None? && (o.value.cancelledAt.Some? ==> o.value.hold.None?)
  }

  predicate IsCancelled(o: Option<Record>) {
    o.Some? && o.value.cancelledAt.Some?
  }

  predicate IsConsumed(o: Option<Record>) {
    o.Some? && o.value.consumedAt.Some?
  }

  /** Where a code's copies can be, and what they can say. */
  predicate FilesOk(f: Files) {
    && (f.pending.Some? || f.inflight.Some? || f.history.Some?)
    && !(f.pending.Some? && f.inflight.Some?)
    && CopyOk(f.pending) && CopyOk(f.inflight) && (f.pending.Some? ==> f.pending.value.hold.None?)
    && (f.history.Some? ==> (IsConsumed(f.history) <==> !IsCancelled(f.history)))
    && (f.history.Some? ==> !IsCancelled(f.pending) && !IsCancelled(f.inflight))
    && (IsCancelled(f.history) ==> f.pending.None? && f.inflight.None?)
  }

  /** A held record belongs to the latest returned claim. */
  ghost predicate HoldOk(w: World) {
    && (w.files.inflight.Some? && w.files.inflight.value.hold.Some? ==>
          var h := w.files.inflight.value.hold.value;
          w.latest == Some(h.claim) && h.claim in w.granted && w.granted[h.claim] == h.until)
    && (forall c :: c in w.granted ==> c in w.drawn)
  }

  ghost predicate LeaseOk(w: World) {
    forall c :: c in w.untouched ==>
      c in w.granted && (w.granted[c] > w.clock ==> w.files.inflight.Some? && w.files.inflight.value.hold == Some(Hold(c, w.granted[c])))
  }

  ghost predicate CountsOk(w: World) {
    && |w.commits| <= (if IsConsumed(w.files.history) then 1 else 0)
    && |w.cancels| <= (if IsCancelled(w.files.history) then 1 else 0)
  }

  ghost predicate Inv(w: World) {
    FilesOk(w.files) && HoldOk(w) && LeaseOk(w) && CountsOk(w)
  }

  lemma RecoverKeeps(f: Files, now: int, life: nat)
    requires FilesOk(f)
    ensures var g := RecoverOp(f, now, life).files;
      && FilesOk(g) && g.history == f.history
      && (g.inflight.Some? && g.inflight.value.hold.Some? ==> g.inflight == f.inflight)
      && (f.inflight.Some? && f.inflight.value.hold.Some? && f.inflight.value.hold.value.until > now ==> g == f)
  {
  }

  lemma TakeKeeps(f: Files, claim: ClaimId, now: int, lease: int, life: nat)
    requires FilesOk(f)
    ensures var e := TakeOp(f, claim, now, lease, life);
      && FilesOk(e.files) && e.files.history == f.history
      && (f.inflight.Some? ==> e.files == f && !e.reply.Granted?)
      && (e.reply.Granted? ==> e.files.inflight.Some? && e.reply.record == e.files.inflight.value && e.reply.record.hold == Some(Hold(claim, now + lease)))
      && (!e.reply.Granted? && e.files.inflight.Some? && e.files.inflight.value.hold.Some? ==> e.files.inflight == f.inflight)
  {
  }

  lemma ClaimInv(w: World, l: Label)
    requires Inv(w) && Enabled(w, l) && l.Claim?
    ensures Inv(After(w, l))
  {
    if l.lease > 0 {
      RecoverKeeps(w.files, l.now, l.life);
      var r := RecoverOp(w.files, l.now, l.life);
      if r.left.Some? {
        TakeKeeps(r.files, l.claim, l.now, l.lease, r.left.value);
      }
    }
    ClaimLeases(w, l);
  }

  lemma ClaimLeases(w: World, l: Label)
    requires Inv(w) && Enabled(w, l) && l.Claim?
    ensures LeaseOk(After(w, l))
  {
    var x := After(w, l);
    RecoverKeeps(w.files, l.now, l.life);
    var r := RecoverOp(w.files, l.now, l.life);
    if r.left.Some? {
      TakeKeeps(r.files, l.claim, l.now, l.lease, r.left.value);
    }
    forall c | c in x.untouched
      ensures c in x.granted && (x.granted[c] > x.clock ==> x.files.inflight.Some? && x.files.inflight.value.hold == Some(Hold(c, x.granted[c])))
    {
      if c != l.claim {
        assert c in w.untouched;
      }
    }
  }

  lemma EndInv(w: World, l: Label)
    requires Inv(w) && Enabled(w, l) && !l.Claim?
    ensures Inv(After(w, l))
  {
    if l.Recover? {
      RecoverKeeps(w.files, l.now, l.life);
    }
    EndLeases(w, l);
  }

  lemma EndLeases(w: World, l: Label)
    requires Inv(w) && Enabled(w, l) && !l.Claim?
    ensures LeaseOk(After(w, l))
  {
    var x := After(w, l);
    if l.Recover? {
      RecoverKeeps(w.files, l.now, l.life);
    }
    forall c | c in x.untouched
      ensures c in x.granted && (x.granted[c] > x.clock ==> x.files.inflight.Some? && x.files.inflight.value.hold == Some(Hold(c, x.granted[c])))
    {
      assert c in w.untouched;
    }
  }

  lemma {:induction false} RunInv(ws: seq<World>, ls: seq<Label>, n: nat)
    requires IsRun(ws, ls) && n < |ws|
    ensures Inv(ws[n])
  {
    if n > 0 {
      RunInv(ws, ls, n - 1);
      if ls[n - 1].Claim? {
        ClaimInv(ws[n - 1], ls[n - 1]);
      } else {
        EndInv(ws[n - 1], ls[n - 1]);
      }
    }
  }

  // ---------------------------------------------------------------- the main results

  /** A code is never both consumed and cancelled, on disk or to its callers; at most one commit or cancel succeeds. */
  lemma NeverConsumedAndCancelled(ws: seq<World>, ls: seq<Label>, n: nat)
    requires IsRun(ws, ls) && n < |ws|
    ensures |ws[n].commits| + |ws[n].cancels| <= 1
    ensures IsConsumed(ws[n].files.history) ==>
      !IsCancelled(ws[n].files.history) && !IsCancelled(ws[n].files.pending) && !IsCancelled(ws[n].files.inflight) && ws[n].cancels == []
    ensures ws[n].commits != [] ==> IsConsumed(ws[n].files.history)
    ensures ws[n].cancels != [] ==> IsCancelled(ws[n].files.history) && ws[n].commits == []
  {
    RunInv(ws, ls, n);
  }

  /** Only the latest returned claim commits. */
  lemma OnlyLatestClaimCommits(ws: seq<World>, ls: seq<Label>, n: nat)
    requires IsRun(ws, ls) && n < |ls| && ls[n].Commit? && Outcome(ws[n], ls[n]).reply.Finished?
    ensures ws[n].latest == Some(ls[n].claim) && ws[n].commits == [] && ws[n].files.history.None?
    ensures IsConsumed(ws[n + 1].files.history)
  {
    RunInv(ws, ls, n);
  }

  /** Two returned claims that nobody released or committed never hold unexpired leases together. */
  lemma LeasesExclude(ws: seq<World>, ls: seq<Label>, n: nat, a: ClaimId, b: ClaimId)
    requires IsRun(ws, ls) && n < |ws|
    requires a in ws[n].untouched && b in ws[n].untouched && a in ws[n].granted && b in ws[n].granted
    requires ws[n].granted[a] > ws[n].clock && ws[n].granted[b] > ws[n].clock
    ensures a == b
  {
    RunInv(ws, ls, n);
  }

  /** The deadline of a returned claim is fixed by the call that made it. */
  lemma {:induction false} GrantedUntil(ws: seq<World>, ls: seq<Label>, m: nat, n: nat)
    requires IsRun(ws, ls) && m < n < |ws| && ls[m].Claim? && Outcome(ws[m], ls[m]).reply.Granted?
    ensures var c := ls[m].claim; c in ws[n].granted && c in ws[n].drawn && ws[n].granted[c] == ls[m].now + ls[m].lease
    decreases n - m
  {
    if m + 1 < n {
      GrantedUntil(ws, ls, m, n - 1);
      var w, lab := ws[n - 1], ls[n - 1];
      assert lab.Claim? ==> lab.claim !in w.drawn;
    } else {
      RunInv(ws, ls, n);
      RunInv(ws, ls, m);
    }
  }

  /**
   * A returned claim excludes every other caller for the whole lease it asked for: until its own holder
   * releases or commits, any claim with a positive lease made before the claim's time plus its lease is
   * refused, a recovery finds nothing to do, a cancel is refused, and no file changes.
   */
  lemma LeaseHolds(ws: seq<World>, ls: seq<Label>, m: nat, n: nat)
    requires IsRun(ws, ls) && m < n < |ls| && ls[m].Claim? && Outcome(ws[m], ls[m]).reply.Granted?
    requires ls[m].claim in ws[n].untouched && ls[n].now < ls[m].now + ls[m].lease
    ensures ls[n].Claim? && ls[n].lease > 0 ==>
      Outcome(ws[n], ls[n]) == Effect(ws[n].files, Refused(if ws[n].files.history.Some? then Consumed else Claimed))
    ensures ls[n].Recover? ==> Outcome(ws[n], ls[n]) == Effect(ws[n].files, Finished)
    ensures ls[n].Cancel? && ls[n].now != 0 ==>
      Outcome(ws[n], ls[n]) == Effect(ws[n].files, Refused(if ws[n].files.history.Some? then Consumed else Claimed))
  {
    GrantedUntil(ws, ls, m, n);
    RunInv(ws, ls, n);
    assert Enabled(ws[n], ls[n]);
  }

  /** While its lease runs the holder's complete commit goes through unless the code is consumed already, and its complete release always does. */
  lemma HolderDecides(ws: seq<World>, ls: seq<Label>, m: nat, n: nat)
    requires IsRun(ws, ls) && m < n < |ls| && ls[m].Claim? && Outcome(ws[m], ls[m]).reply.Granted?
    requires ls[m].claim in ws[n].untouched && ws[n].clock < ls[m].now + ls[m].lease
    requires (ls[n].Commit? || ls[n].Release?) && ls[n].claim == ls[m].claim && ls[n].life >= 2
    ensures Outcome(ws[n], ls[n]).reply.Finished? <==> (ls[n].Commit? ==> ws[n].files.history.None?)
  {
    GrantedUntil(ws, ls, m, n);
    RunInv(ws, ls, n);
  }

  /** A claim from pending and its release leave the files as they were. */
  lemma ReleaseUndoesClaim(f: Files, claim: ClaimId, now: int, lease: int)
    requires FilesOk(f) && ClaimOp(f, claim, now, lease, 2).reply.Granted?
    ensures ReleaseOp(ClaimOp(f, claim, now, lease, 2).files, claim, 2) == Effect(f, Finished)
  {
  }

  lemma HistoryKept(w: World, l: Label)
    requires Inv(w) && Enabled(w, l) && w.files.history.Some?
    ensures After(w, l).files.history == w.files.history
    ensures l.Commit? || l.Cancel? ==> !Outcome(w, l).reply.Finished?
  {
    RecoverKeeps(w.files, l.now, l.life);
    if l.Claim? {
      var r := RecoverOp(w.files, l.now, l.life);
      if r.left.Some? {
        TakeKeeps(r.files, l.claim, l.now, l.lease, r.left.value);
      }
    }
  }

  /** What history says about a code never changes. */
  lemma {:induction false} HistoryIsFinal(ws: seq<World>, ls: seq<Label>, m: nat, n: nat)
    requires IsRun(ws, ls) && m <= n < |ws| && ws[m].files.history.Some?
    ensures ws[n].files.history == ws[m].files.history
    ensures n < |ls| && (ls[n].Commit? || ls[n].Cancel?) ==> !Outcome(ws[n], ls[n]).reply.Finished?
    decreases n - m
  {
    if m < n {
      HistoryIsFinal(ws, ls, m, n - 1);
      RunInv(ws, ls, n - 1);
      HistoryKept(ws[n - 1], ls[n - 1]);
    }
  }

  // ---------------------------------------------------------------- which claims are granted

  predicate ExpiresAt(o: Option<Record>, at: int) {
    o.Some? ==> o.value.expiresAt == at
  }

  /** No copy of the record says another expiry. */
  predicate ExpiryKept(f: Files, at: int) {
    ExpiresAt(f.pending, at) && ExpiresAt(f.inflight, at) && ExpiresAt(f.history, at)
  }

  lemma ExpiryStep(w: World, l: Label, at: int)
    requires ExpiryKept(w.files, at)
    ensures ExpiryKept(After(w, l).files, at)
  {
  }

  lemma {:induction false} RunExpiry(ws: seq<World>, ls: seq<Label>, n: nat)
    requires IsRun(ws, ls) && n < |ws|
    ensures ws[0].files.pending.Some? && ExpiryKept(ws[n].files, ws[0].files.pending.value.expiresAt)
  {
    if n > 0 {
      RunExpiry(ws, ls, n - 1);
      ExpiryStep(ws[n - 1], ls[n - 1], ws[0].files.pending.value.expiresAt);
    }
  }

  /** The record waits unclaimed, or its lease has run out on a code nobody consumed. */
  predicate Free(f: Files, now: int) {
    if f.pending.Some? then f.pending.value.cancelledAt.None?
    else f.inflight.Some? && f.inflight.value.hold.Some? && f.inflight.value.hold.value.until <= now && f.history.None?
  }

  /** A complete claim is granted exactly when its lease is positive, the record is free, and the code has not expired. */
  lemma ClaimableIff(ws: seq<World>, ls: seq<Label>, n: nat)
    requires IsRun(ws, ls) && n < |ls| && ls[n].Claim? && ls[n].life >= 4
    ensures ws[0].files.pending.Some?
    ensures Outcome(ws[n], ls[n]).reply.Granted? <==>
      ls[n].lease > 0 && Free(ws[n].files, ls[n].now) && ls[n].now < ws[0].files.pending.value.expiresAt
  {
    RunInv(ws, ls, n);
    RunExpiry(ws, ls, n);
  }

  // ---------------------------------------------------------------- stranded codes

  /** A record in inflight without a lease, as a process death between two writes leaves it. */
  predicate Stranded(f: Files) {
    f.pending.None? && f.inflight.Some? && f.inflight.value.hold.None? && f.history.None?
  }

  /** A stranded code stays stranded: no call claims, commits, releases, cancels or recovers it. */
  lemma {:induction false} StrandedForever(ws: seq<World>, ls: seq<Label>, m: nat, n: nat)
    requires IsRun(ws, ls) && m <= n < |ws| && Stranded(ws[m].files)
    ensures ws[n].files == ws[m].files
    ensures n < |ls| && !ls[n].Recover? ==> Outcome(ws[n], ls[n]).reply.Refused?
    decreases n - m
  {
    if m < n {
      StrandedForever(ws, ls, m, n - 1);
    }
  }

  /**
   * Exactly these calls strand a code: a claim of a cancelled record, and a claim, a
   * recovery or a release that dies with the record in inflight and no lease written.
   */
  lemma StrandedBy(w: World, l: Label)
    requires Inv(w) && Enabled(w, l) && !Stranded(w.files)
    ensures Stranded(After(w, l).files) <==>
      var f := w.files;
      && f.history.None?
      && match l
         case Claim(_, lease, now, life) =>
           && lease > 0
           && if f.pending.Some? then life >= 1 && (life == 1 || f.pending.value.cancelledAt.Some?)
              else f.inflight.Some? && f.inflight.value.hold.value.until <= now && (life == 1 || life == 3)
         case Release(claim, _, life) => f.inflight.Some? && f.inflight.value.hold.value.claim == claim && life == 1
         case Recover(now, life) => f.inflight.Some? && f.inflight.value.hold.value.until <= now && life == 1
         case _ => false
  {
  }
}
