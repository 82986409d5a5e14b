/**
 * The replay window of the stdio transport: a fixed ring of receipt ids beside a set
 * of the ids it holds.
 */
module AckWindow {
  import opened Protocol

  const REMEMBERED := 1024

  /** The last `REMEMBERED` elements. */
  function Window(accepted: seq<ReceiptId>): (w: seq<ReceiptId>)
    ensures |w| <= REMEMBERED
    ensures |w| == REMEMBERED || w == accepted
  {
    if |accepted| <= REMEMBERED then accepted else accepted[|accepted| - REMEMBERED..]
  }

  ghost predicate Distinct(s: seq<ReceiptId>) {
    forall i, j :: 0 <= i < j < |s| ==> s[i] != s[j]
  }

  ghost function Elements(s: seq<ReceiptId>): set<ReceiptId> {
    set id | id in s
  }

  /** Pushing a new id into the window: what the ring and the set must become. */
  lemma Slide(accepted: seq<ReceiptId>, ring: seq<ReceiptId>, id: ReceiptId)
    requires ring == Window(accepted) && Distinct(ring) && id !in ring
    ensures var next := (if |ring| < REMEMBERED then ring else ring[1..]) + [id];
      && next == Window(accepted + [id])
      && Distinct(next)
      && Elements(next) == (if |ring| < REMEMBERED then Elements(ring) else Elements(ring) - {ring[0]}) + {id}
  {
    if |ring| == REMEMBERED {
      WithoutOldest(ring);
      WithNewest(ring[1..], id);
    } else {
      WithNewest(ring, id);
    }
  }

  lemma WithoutOldest(ring: seq<ReceiptId>)
    requires |ring| > 0 && Distinct(ring)
    ensures Distinct(ring[1..]) && Elements(ring[1..]) == Elements(ring) - {ring[0]}
  {
    assert ring == [ring[0]] + ring[1..];
  }

  lemma WithNewest(ring: seq<ReceiptId>, id: ReceiptId)
    requires Distinct(ring) && id !in ring
    ensures Distinct(ring + [id]) && Elements(ring + [id]) == Elements(ring) + {id}
  {
  }

  lemma RecentInWindow(s: seq<ReceiptId>, i: nat)
    requires |s| - REMEMBERED <= i < |s|
    ensures s[i] in Window(s)
  {
    assert s[i] == Window(s)[i - (|s| - |Window(s)|)];
  }

  /** The used slots of a ring, read from its oldest id. */
  ghost function Unroll(slots: seq<ReceiptId>, cursor: nat, count: nat): seq<ReceiptId>
    requires cursor <= count <= |slots|
  {
    slots[cursor..count] + slots[..cursor]
  }

  /** Overwriting the oldest slot and moving the cursor on drops the oldest id and appends the new one. */
  lemma RingPush(slots: seq<ReceiptId>, cursor: nat, id: ReceiptId)
    requires cursor < |slots|
    ensures var next := (cursor + 1) % |slots|;
      next < |slots| && Unroll(slots[cursor := id], next, |slots|) == Unroll(slots, cursor, |slots|)[1..] + [id]
  {
    NextIndex(cursor, |slots|);
    PushAt(slots, cursor, id, if cursor + 1 == |slots| then 0 else cursor + 1);
  }

  lemma NextIndex(cursor: nat, size: nat)
    requires cursor < size
    ensures (cursor + 1) % size == if cursor + 1 == size then 0 else cursor + 1
  {
  }

  lemma PushAt(slots: seq<ReceiptId>, cursor: nat, id: ReceiptId, next: nat)
    requires cursor < |slots| && next == if cursor + 1 == |slots| then 0 else cursor + 1
    ensures Unroll(slots[cursor := id], next, |slots|) == Unroll(slots, cursor, |slots|)[1..] + [id]
  {
  }

  class StdioTransport {
    var seen: set<ReceiptId>
    var order: array<ReceiptId>
    var count: nat
    var cursor: nat
    /** Every id accepted so far, oldest first. */
    ghost var accepted: seq<ReceiptId>

    /** The ring unrolled from its oldest id. */
    ghost function Ring(): seq<ReceiptId>
      reads this, order
      requires cursor <= count <= order.Length
    {
      Unroll(order[..], cursor, count)
    }

    /** A full ring turns; one that is not full starts at its first slot. */
    ghost predicate Shaped()
      reads this, order
    {
      && order.Length == REMEMBERED
      && count <= REMEMBERED
      && cursor < REMEMBERED
      && (count < REMEMBERED ==> cursor == 0)
    }

    ghost predicate Valid()
      reads this, order
    {
      && Shaped()
      && Ring() == Window(accepted)
      && Distinct(Ring())
      && seen == Elements(Ring())
    }

    constructor (blank: ReceiptId)
      ensures Valid() && fresh(order) && accepted == []
    {
      seen := {};
      order := new ReceiptId[REMEMBERED](_ => blank);
      count, cursor := 0, 0;
      accepted := [];
    }

    /** Writes the id into the next slot; in a full ring that is the slot of the oldest id. */
    method Put(id: ReceiptId) returns (dropped: set<ReceiptId>)
      requires Shaped()
      modifies this`count, this`cursor, order
      ensures Shaped() && order == old(order)
      ensures |old(Ring())| < REMEMBERED ==> dropped == {} && Ring() == old(Ring()) + [id]
      ensures |old(Ring())| == REMEMBERED ==> dropped == {old(Ring())[0]} && Ring() == old(Ring())[1..] + [id]
    {
      ghost var slots := order[..];
      if count < order.Length {
        order[count] := id;
        count := count + 1;
        dropped := {};
      } else {
        RingPush(slots, cursor, id);
        dropped := {order[cursor]};
        order[cursor] := id;
        cursor := (cursor + 1) % order.Length;
        assert order[..] == slots[old(cursor) := id];
      }
    }

    /** Refuses exactly the ids of the sliding window; an accepted id enters it and pushes out the oldest. */
    method RememberAck(id: ReceiptId) returns (ok: bool)
      requires Valid()
      modifies this, order
      ensures Valid() && order == old(order)
      ensures ok <==> id !in Window(old(accepted))
      ensures accepted == if ok then old(accepted) + [id] else old(accepted)
      ensures seen == Elements(Window(accepted))
    {
      if id in seen {
        return false;
      }
      Slide(accepted, Ring(), id);
      var dropped := Put(id);
      seen := seen - dropped + {id};
      accepted := accepted + [id];
      return true;
    }
  }

  /** The window after any sequence of calls, computed from the calls alone. */
  ghost function AcceptedAfter(calls: seq<ReceiptId>): seq<ReceiptId> {
    if calls == [] then []
    else
      var before := AcceptedAfter(calls[..|calls| - 1]);
      if calls[|calls| - 1] in Window(before) then before else before + [calls[|calls| - 1]]
  }

  /** Any two accepted occurrences of one id have at least a full window of other ids between them. */
  lemma {:induction false} AcceptedRepeatsFarApart(calls: seq<ReceiptId>, i: nat, j: nat)
    requires i < j < |AcceptedAfter(calls)|
    requires AcceptedAfter(calls)[i] == AcceptedAfter(calls)[j]
    ensures j - i > 1024
  {
    var before := AcceptedAfter(calls[..|calls| - 1]);
    if j < |before| {
      AcceptedRepeatsFarApart(calls[..|calls| - 1], i, j);
    } else if i >= |before| - REMEMBERED {
      RecentInWindow(before, i);
    }
  }
}
