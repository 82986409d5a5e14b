/**
 * One-time relay pairing codes. A code's record is claimed under a lease, released, taken
 * over once the lease has run out, and consumed by a commit. A transition rewrites the
 * record where it lies and then renames it; operations take a `life`, the number of file
 * operations completed before the process dies.
 */
module Pairings {
  import opened Common
  import opened Protocol

  const MINIMUM_TTL := 120 * SECOND
  const MAXIMUM_TTL := 1800 * SECOND

  type Code = nat
  type ClaimId = nat

  /** A claim id and its lease are stored together or not at all; so are a peer and its time. */
  datatype Hold = Hold(claim: ClaimId, until: int)
  datatype Use = Use(peer: string, at: int)
  datatype PairingRecord = PairingRecord(createdAt: int, expiresAt: int, hold: Option<Hold>, use: Option<Use>)

  datatype Refusal = Invalid | NotFound | Claimed | Expired | Consumed
  datatype Reply = Died | Refused(why: Refusal) | Granted(record: PairingRecord) | Finished

  /** The files of one code. */
  datatype Files = Files(pending: Option<PairingRecord>, inflight: Option<PairingRecord>, history: Option<PairingRecord>)

  datatype Effect = Effect(files: Files, reply: Reply)

  // ---------------------------------------------------------------- one code

  /** Why a claim is refused, None when it is granted. */
  function ClaimRefusal(f: Files, now: int, lease: int): Option<Refusal> {
    if now == 0 || lease <= 0 || lease > MAXIMUM_TTL then Some(Invalid)
    else if f.history.Some? then Some(Consumed)
    else if f.inflight.Some? && f.inflight.value.hold.Some? && f.inflight.value.hold.value.until > now then Some(Claimed)
    else if f.inflight.None? && f.pending.None? then Some(NotFound)
    else if (if f.inflight.Some? then f.inflight else f.pending).value.expiresAt <= now then Some(Expired)
    else None
  }

  function ClaimOp(f: Files, claim: ClaimId, now: int, lease: int, life: nat): Effect {
    if ClaimRefusal(f, now, lease).Some? then Effect(f, Refused(ClaimRefusal(f, now, lease).value))
    else
      var record := (if f.inflight.Some? then f.inflight else f.pending).value.(hold := Some(Hold(claim, now + lease)));
      if life == 0 then Effect(f, Died)
      else if f.inflight.Some? then Effect(f.(inflight := Some(record)), Granted(record))
      else if life == 1 then Effect(f.(pending := Some(record)), Died)
      else Effect(f.(pending := None, inflight := Some(record)), Granted(record))
  }

  function ClaimedRefusal(f: Files, claim: ClaimId): Option<Refusal> {
    if f.inflight.None? then Some(if f.history.Some? then Consumed else NotFound)
    else if f.inflight.value.hold.None? || f.inflight.value.hold.value.claim != claim then Some(Claimed)
    else None
  }

  function ReleaseOp(f: Files, claim: ClaimId, now: int, life: nat): Effect {
    if now == 0 then Effect(f, Refused(Invalid))
    else if ClaimedRefusal(f, claim).Some? then Effect(f, Refused(ClaimedRefusal(f, claim).value))
    else
      var record := f.inflight.value.(hold := None);
      if life == 0 then Effect(f, Died)
      else if life == 1 then Effect(f.(inflight := Some(record)), Died)
      else Effect(f.(inflight := None, pending := Some(record)), Finished)
  }

  function CommitOp(f: Files, claim: ClaimId, peer: string, now: int, life: nat): Effect {
    if now == 0 || !ValidIdentifier(peer) then Effect(f, Refused(Invalid))
    else if ClaimedRefusal(f, claim).Some? then Effect(f, Refused(ClaimedRefusal(f, claim).value))
    else if f.inflight.value.expiresAt <= now then Effect(f, Refused(Expired))
    else
      var record := f.inflight.value.(hold := None, use := Some(Use(peer, now)));
      if life == 0 then Effect(f, Died)
      else if life == 1 then Effect(f.(inflight := Some(record)), Died)
      else Effect(f.(inflight := None, history := Some(record)), Finished)
  }

  // ---------------------------------------------------------------- the store

  class PairingStore {
    var pending: map<Code, PairingRecord>
    var inflight: map<Code, PairingRecord>
    var history: map<Code, PairingRecord>

    constructor ()
      ensures pending == map[] && inflight == map[] && history == map[]
    {
      pending, inflight, history := map[], map[], map[];
    }

    ghost function Of(code: Code): Files
      reads this
    {
      Files(Get(pending, code), Get(inflight, code), Get(history, code))
    }

    /** Draws up to eight random codes for one that has no pending record. */
    method Create(ttl: int, now: int, draws: seq<Code>) returns (r: Option<Code>)
      requires |draws| == 8
      modifies this`pending
      ensures r.Some? <==> 120 * SECOND <= ttl <= 1800 * SECOND && now != 0 && exists i :: 0 <= i < 8 && draws[i] !in old(pending)
      ensures r.Some? ==> r.value in draws && r.value !in old(pending)
      ensures r.Some? ==> pending == old(pending)[r.value := PairingRecord(now, now + ttl, None, None)]
      ensures r.None? ==> pending == old(pending)
    {
      if ttl < MINIMUM_TTL || ttl > MAXIMUM_TTL || now == 0 {
        return None;
      }
      for i := 0 to 8
        invariant pending == old(pending)
        invariant forall j :: 0 <= j < i ==> draws[j] in pending
      {
        if draws[i] !in pending {
          pending := pending[draws[i] := PairingRecord(now, now + ttl, None, None)];
          return Some(draws[i]);
        }
      }
      return None;
    }

    method Claim(code: Code, claim: ClaimId, now: int, lease: int, life: nat) returns (r: Reply)
      modifies this
      ensures Effect(Of(code), r) == ClaimOp(old(Of(code)), claim, now, lease, life)
      ensures r.Granted? ==> Of(code).inflight == Some(r.record) && r.record.hold == Some(Hold(claim, now + lease)) && now < r.record.expiresAt
      ensures r.Granted? ==> old(code in inflight && inflight[code].hold.Some? ==> inflight[code].hold.value.until <= now)
      ensures forall other :: other != code ==> Of(other) == old(Of(other))
    {
      if now == 0 || lease <= 0 || lease > MAXIMUM_TTL {
        return Refused(Invalid);
      }
      if code in history {
        return Refused(Consumed);
      }
      var record;
      if code in inflight {
        record := inflight[code];
        if record.hold.Some? && record.hold.value.until > now {
          return Refused(Claimed);
        }
      } else {
        if code !in pending {
          return Refused(NotFound);
        }
        record := pending[code];
      }
      if record.expiresAt <= now {
        return Refused(Expired);
      }
      record := record.(hold := Some(Hold(claim, now + lease)));
      if life == 0 {
        return Died;
      }
      if code in inflight {
        inflight := inflight[code := record];
      } else {
        pending := pending[code := record];
        if life == 1 {
          return Died;
        }
        pending, inflight := pending - {code}, inflight[code := record];
      }
      return Granted(record);
    }

    /** The inflight record, if the claim still holds it. */
    method ClaimedRecord(code: Code, claim: ClaimId) returns (record: Option<PairingRecord>, why: Refusal)
      ensures record.None? <==> ClaimedRefusal(Of(code), claim).Some?
      ensures record.None? ==> why == ClaimedRefusal(Of(code), claim).value
      ensures record.Some? ==> record == Of(code).inflight
    {
      if code !in inflight {
        return None, if code in history then Consumed else NotFound;
      }
      if inflight[code].hold.None? || inflight[code].hold.value.claim != claim {
        return None, Claimed;
      }
      return Some(inflight[code]), Invalid;
    }

    method Release(code: Code, claim: ClaimId, now: int, life: nat) returns (r: Reply)
      modifies this
      ensures Effect(Of(code), r) == ReleaseOp(old(Of(code)), claim, now, life)
      ensures forall other :: other != code ==> Of(other) == old(Of(other))
    {
      if now == 0 {
        return Refused(Invalid);
      }
      var found, why := ClaimedRecord(code, claim);
      if found.None? {
        return Refused(why);
      }
      if life == 0 {
        return Died;
      }
      var record := found.value.(hold := None);
      inflight := inflight[code := record];
      if life == 1 {
        return Died;
      }
      inflight, pending := inflight - {code}, pending[code := record];
      return Finished;
    }

    method Commit(code: Code, claim: ClaimId, peer: string, now: int, life: nat) returns (r: Reply)
      modifies this
      ensures Effect(Of(code), r) == CommitOp(old(Of(code)), claim, peer, now, life)
      ensures forall other :: other != code ==> Of(other) == old(Of(other))
    {
      if now == 0 || !ValidIdentifier(peer) {
        return Refused(Invalid);
      }
      var found, why := ClaimedRecord(code, claim);
      if found.None? {
        return Refused(why);
      }
      if found.value.expiresAt <= now {
        return Refused(Expired);
      }
      if life == 0 {
        return Died;
      }
      var record := found.value.(hold := None, use := Some(Use(peer, now)));
      inflight := inflight[code := record];
      if life == 1 {
        return Died;
      }
      inflight, history := inflight - {code}, history[code := record];
      return Finished;
    }
  }

  // ---------------------------------------------------------------- every run on one code

  datatype Label =
    | Claim(claim: ClaimId, lease: int, now: int, life: nat)
    | Release(claim: ClaimId, now: int, life: nat)
    | Commit(claim: ClaimId, peer: string, now: int, life: nat)

  /**
   * `drawn` holds the claim ids drawn so far, `granted` the time each returned claim was made
   * plus the lease it asked for, `untouched` those on which no Release or Commit has written anything, and
   * `latest` the last one returned. `commits` lists the commits that were carried out.
   */
  datatype World = World(
    files: Files,
    clock: int,
    drawn: set<ClaimId>,
    granted: map<ClaimId, int>,
    untouched: set<ClaimId>,
    latest: Option<ClaimId>,
    commits: seq<Label>)

  ghost predicate Init(w: World) {
    && w.files.pending.Some? && w.files.pending.value.hold.None? && w.files.pending.value.use.None?
    && w == World(Files(w.files.pending, None, None), w.clock, {}, map[], {}, None, [])
  }

  /** Claim ids are fresh, only returned claims are released or committed, and time does not go back. */
  predicate Enabled(w: World, l: Label) {
    && l.now >= w.clock
    && if l.Claim? then l.claim !in w.drawn else l.claim in w.granted
  }

  function Outcome(w: World, l: Label): Effect {
    match l
    case Claim(claim, lease, now, life) => ClaimOp(w.files, claim, now, lease, life)
    case Release(claim, now, life) => ReleaseOp(w.files, claim, now, life)
    case Commit(claim, peer, now, life) => CommitOp(w.files, claim, peer, now, life)
  }

  function After(w: World, l: Label): World {
    var e := Outcome(w, l);
    var x := w.(files := e.files, clock := l.now);
    if l.Claim? then
      var y := x.(drawn := w.drawn + {l.claim});
      if !e.reply.Granted? then y
      else y.(granted := w.granted[l.claim := l.now + l.lease], untouched := w.untouched + {l.claim}, latest := Some(l.claim))
    else
      var y := if e.files == w.files then x else x.(untouched := w.untouched - {l.claim});
      if l.Commit? && e.reply.Finished? then y.(commits := w.commits + [l]) else y
  }

  ghost predicate IsRun(ws: seq<World>, ls: seq<Label>) {
    && |ws| == |ls| + 1 && Init(ws[0])
    && forall i :: 0 <= i < |ls| ==> Enabled(ws[i], ls[i]) && ws[i + 1] == After(ws[i], ls[i])
  }

  /** The one record of the code, wherever it lies. */
  predicate OneRecord(f: Files) {
    && (f.pending.Some? ==> f.inflight.None? && f.history.None?)
    && (f.inflight.Some? ==> f.history.None?)
    && (f.pending.Some? || f.inflight.Some? || f.history.Some?)
  }

  function TheRecord(f: Files): PairingRecord
    requires OneRecord(f)
  {
    if f.pending.Some? then f.pending.value else if f.inflight.Some? then f.inflight.value else f.history.value
  }

  /** A record in inflight is held by the latest claim, while nothing was written on it, or by none. */
  ghost predicate HoldOk(w: World) {
    && (w.files.inflight.Some? && w.files.inflight.value.hold.Some? ==>
          var h := w.files.inflight.value.hold.value;
          w.latest == Some(h.claim) && h.claim in w.untouched && h.claim in w.granted && w.granted[h.claim] == h.until)
    && (w.latest.Some? && w.latest.value in w.untouched ==>
          w.files.inflight.Some? && w.files.inflight.value.hold.Some? && w.files.inflight.value.hold.value.claim == w.latest.value)
    && (w.files.history.Some? ==> w.files.history.value.hold.None? && w.files.history.value.use.Some?)
    && (forall c :: c in w.granted ==> c in w.drawn)
    && (w.latest.Some? ==> w.latest.value in w.granted)
  }

  /** A returned claim that nobody touched and whose lease runs still holds the record. */
  ghost predicate LeaseOk(w: World) {
    forall c :: c in w.untouched ==>
      c in w.granted && (w.granted[c] > w.clock ==> w.files.inflight.Some? && w.files.inflight.value.hold == Some(Hold(c, w.granted[c])))
  }

  ghost predicate Inv(w: World) {
    && OneRecord(w.files) && HoldOk(w) && LeaseOk(w)
    && |w.commits| == (if w.files.history.Some? then 1 else 0)
  }

  lemma ClaimInv(w: World, l: Label)
    requires Inv(w) && Enabled(w, l) && l.Claim?
    ensures Inv(After(w, l)) && TheRecord(After(w, l).files).expiresAt == TheRecord(w.files).expiresAt
  {
    var x := After(w, l);
    forall c | c in x.untouched
      ensures c in x.granted && (x.granted[c] > x.clock ==> x.files.inflight.Some? && x.files.inflight.value.hold == Some(Hold(c, x.granted[c])))
    {
      if c != l.claim {
        assert c in w.untouched;
      }
    }
  }

  lemma EndInv(w: World, l: Label)
    requires Inv(w) && Enabled(w, l) && !l.Claim?
    ensures Inv(After(w, l)) && TheRecord(After(w, l).files).expiresAt == TheRecord(w.files).expiresAt
  {
    var x := After(w, l);
    forall c | c in x.untouched
      ensures c in x.granted && (x.granted[c] > x.clock ==> x.files.inflight.Some? && x.files.inflight.value.hold == Some(Hold(c, x.granted[c])))
    {
      assert c in w.untouched;
    }
  }

  lemma {:induction false} RunInv(ws: seq<World>, ls: seq<Label>, n: nat)
    requires IsRun(ws, ls) && n < |ws|
    ensures Inv(ws[n]) && OneRecord(ws[0].files) && TheRecord(ws[n].files).expiresAt == TheRecord(ws[0].files).expiresAt
  {
    if n > 0 {
      RunInv(ws, ls, n - 1);
      if ls[n - 1].Claim? {
        ClaimInv(ws[n - 1], ls[n - 1]);
      } else {
        EndInv(ws[n - 1], ls[n - 1]);
      }
    }
  }

  /** At most one commit of a code succeeds, and the code's record is never lost. */
  lemma ConsumedAtMostOnce(ws: seq<World>, ls: seq<Label>, n: nat)
    requires IsRun(ws, ls) && n < |ws|
    ensures |ws[n].commits| <= 1
    ensures |ws[n].commits| == 1 <==> ws[n].files.history.Some?
    ensures OneRecord(ws[n].files)
  {
    RunInv(ws, ls, n);
  }

  /** A commit succeeds only for the latest returned claim, before the code expires, on a code nobody has consumed. */
  lemma OnlyLatestClaimCommits(ws: seq<World>, ls: seq<Label>, n: nat)
    requires IsRun(ws, ls) && n < |ls| && ls[n].Commit? && Outcome(ws[n], ls[n]).reply.Finished?
    ensures ws[n].latest == Some(ls[n].claim)
    ensures OneRecord(ws[0].files) && ls[n].now < TheRecord(ws[0].files).expiresAt
    ensures ws[n].commits == [] && ws[n + 1].commits == [ls[n]]
    ensures ws[n + 1].files.history.Some? && ws[n + 1].files.history.value.use == Some(Use(ls[n].peer, ls[n].now))
  {
    RunInv(ws, ls, n);
  }

  /** Two returned claims that nobody released or committed never hold unexpired leases together. */
  lemma LeasesExclude(ws: seq<World>, ls: seq<Label>, n: nat, a: ClaimId, b: ClaimId)
    requires IsRun(ws, ls) && n < |ws|
    requires a in ws[n].untouched && b in ws[n].untouched && a in ws[n].granted && b in ws[n].granted
    requires ws[n].granted[a] > ws[n].clock && ws[n].granted[b] > ws[n].clock
    ensures a == b
  {
    RunInv(ws, ls, n);
  }

  /** The deadline of a returned claim is fixed by the call that made it. */
  lemma {:induction false} GrantedUntil(ws: seq<World>, ls: seq<Label>, m: nat, n: nat)
    requires IsRun(ws, ls) && m < n < |ws| && ls[m].Claim? && Outcome(ws[m], ls[m]).reply.Granted?
    ensures var c := ls[m].claim; c in ws[n].granted && c in ws[n].drawn && ws[n].granted[c] == ls[m].now + ls[m].lease
    decreases n - m
  {
    if m + 1 < n {
      GrantedUntil(ws, ls, m, n - 1);
      var w, lab := ws[n - 1], ls[n - 1];
      assert lab.Claim? ==> lab.claim !in w.drawn;
    }
  }

  /**
   * A returned claim excludes every other caller for the whole lease it asked for: until its own holder
   * releases or commits, any well-formed claim made before the claim's time plus its lease is refused
   * as claimed and changes nothing.
   */
  lemma LeaseHolds(ws: seq<World>, ls: seq<Label>, m: nat, n: nat)
    requires IsRun(ws, ls) && m < n < |ls| && ls[m].Claim? && Outcome(ws[m], ls[m]).reply.Granted?
    requires ls[m].claim in ws[n].untouched
    requires ls[n].Claim? && ls[n].now != 0 && 0 < ls[n].lease <= 1800 * SECOND && ls[n].now < ls[m].now + ls[m].lease
    ensures Outcome(ws[n], ls[n]) == Effect(ws[n].files, Refused(Claimed))
  {
    GrantedUntil(ws, ls, m, n);
    RunInv(ws, ls, n);
    assert Enabled(ws[n], ls[n]);
  }

  /** A complete commit goes through exactly for the latest returned claim, unreleased, on an unexpired code; a complete release likewise. */
  lemma HolderDecides(ws: seq<World>, ls: seq<Label>, n: nat)
    requires IsRun(ws, ls) && n < |ls| && !ls[n].Claim? && ls[n].life >= 2 && ls[n].now != 0
    ensures OneRecord(ws[0].files)
    ensures Outcome(ws[n], ls[n]).reply.Finished? <==>
      && ws[n].latest == Some(ls[n].claim) && ls[n].claim in ws[n].untouched
      && (ls[n].Commit? ==> ValidIdentifier(ls[n].peer) && ls[n].now < TheRecord(ws[0].files).expiresAt)
  {
    RunInv(ws, ls, n);
  }

  /** A claim from pending and its release leave the files as they were, but for a mark a dead claim left behind. */
  lemma ReleaseUndoesClaim(f: Files, claim: ClaimId, now: int, lease: int, later: int)
    requires f.pending.Some? && f.inflight.None? && ClaimOp(f, claim, now, lease, 2).reply.Granted? && later != 0
    ensures var e := ReleaseOp(ClaimOp(f, claim, now, lease, 2).files, claim, later, 2);
      e == Effect(f.(pending := Some(f.pending.value.(hold := None))), Finished)
  {
  }

  /** A consumed code stays as it was consumed, and every later call is refused. */
  lemma {:induction false} ConsumedIsFinal(ws: seq<World>, ls: seq<Label>, m: nat, n: nat)
    requires IsRun(ws, ls) && m <= n < |ws| && ws[m].files.history.Some?
    ensures ws[n].files == ws[m].files
    ensures n < |ls| ==> Outcome(ws[n], ls[n]).reply.Refused?
    decreases n - m
  {
    RunInv(ws, ls, n);
    if m < n {
      ConsumedIsFinal(ws, ls, m, n - 1);
    }
  }

  /** A claim can be granted again exactly when no lease runs, the code is not consumed and has not expired. */
  lemma ClaimableIff(ws: seq<World>, ls: seq<Label>, n: nat, now: int, lease: int)
    requires IsRun(ws, ls) && n < |ws| && now >= ws[n].clock && now != 0 && 0 < lease <= MAXIMUM_TTL
    ensures OneRecord(ws[0].files)
    ensures ClaimRefusal(ws[n].files, now, lease).None? <==>
      && ws[n].commits == []
      && now < TheRecord(ws[0].files).expiresAt
      && (ws[n].files.inflight.Some? && ws[n].files.inflight.value.hold.Some? ==>
            ws[n].latest.Some? && ws[n].latest.value in ws[n].granted && ws[n].granted[ws[n].latest.value] <= now)
  {
    RunInv(ws, ls, n);
  }

  // ---------------------------------------------------------------- a commit cut in half

  /** The commit is accepted and dies between its rewrite and its rename: its caller gets no answer, and the record in inflight names its peer. */
  predicate HalfCommits(w: World, l: Label) {
    l.Commit? && l.life == 1 && Outcome(w, l).reply.Died?
  }

  lemma UseStep(w: World, l: Label)
    requires Inv(w) && Enabled(w, l) && After(w, l).commits == []
    ensures OneRecord(After(w, l).files) && w.commits == []
    ensures TheRecord(After(w, l).files).use.Some? <==> TheRecord(w.files).use.Some? || HalfCommits(w, l)
  {
  }

  /** While a code is not consumed, its record names a peer exactly when some commit was cut in half. */
  lemma {:induction false} UseIffHalfCommit(ws: seq<World>, ls: seq<Label>, n: nat)
    requires IsRun(ws, ls) && n < |ws| && ws[n].commits == []
    ensures OneRecord(ws[n].files)
    ensures TheRecord(ws[n].files).use.Some? <==> exists k :: 0 <= k < n && HalfCommits(ws[k], ls[k])
  {
    RunInv(ws, ls, n);
    if n > 0 {
      RunInv(ws, ls, n - 1);
      UseStep(ws[n - 1], ls[n - 1]);
      UseIffHalfCommit(ws, ls, n - 1);
      if k :| 0 <= k < n && HalfCommits(ws[k], ls[k]) {
        assert k == n - 1 || k < n - 1;
      }
    }
  }

  /**
   * A code whose commit was cut in half can be taken over: right after it, another claim and
   * a commit for any peer go through, and the code is consumed for that peer, if and only if
   * the code has not expired.
   */
  lemma HalfCommitTakenOver(ws: seq<World>, ls: seq<Label>, n: nat, claim: ClaimId, peer: string, lease: int, now: int)
    requires IsRun(ws, ls) && n < |ls| && HalfCommits(ws[n], ls[n])
    requires claim !in ws[n + 1].drawn && now >= ws[n + 1].clock && now != 0 && 0 < lease <= MAXIMUM_TTL && ValidIdentifier(peer)
    ensures OneRecord(ws[0].files)
    ensures var x := After(ws[n + 1], Claim(claim, lease, now, 2));
      var e := Outcome(x, Commit(claim, peer, now, 2));
      && Enabled(ws[n + 1], Claim(claim, lease, now, 2))
      && (e.reply.Finished? <==> now < TheRecord(ws[0].files).expiresAt)
      && (e.reply.Finished? ==> claim in x.granted && e.files.history.Some? && e.files.history.value.use == Some(Use(peer, now)))
  {
    RunInv(ws, ls, n + 1);
  }
}
