// The ticket publisher: a bounded range of a tenant's history, padded and cut into pieces of at most a
// day for the analytics fold to work through.

module Tickets {

  import opened Calendar

  datatype Ticket = Ticket(customer: string, from: Instant, to: Instant, refold: bool)

  const MAX_TICKET_SPAN: int := DAY

  /** The pieces of the closed range [cursor, end]; an inverted range has none. */
  function Pieces(customer: string, cursor: Instant, end: Instant, refold: bool): seq<Ticket>
    decreases end - cursor
  {
    if cursor > end then []
    else if end - cursor <= MAX_TICKET_SPAN then [Ticket(customer, cursor, end, refold)]
    else
      var next := cursor + MAX_TICKET_SPAN;
      [Ticket(customer, cursor, next, refold)] + Pieces(customer, next, end, refold)
  }

  /** End to end, without gap or overlap beyond the shared instant. */
  ghost predicate Chained(tickets: seq<Ticket>) {
    forall i | 0 <= i < |tickets| - 1 :: tickets[i].to == tickets[i + 1].from
  }

  function PieceCount(span: int): nat
    requires span >= 0
  {
    if span == 0 then 1 else (span + MAX_TICKET_SPAN - 1) / MAX_TICKET_SPAN
  }

  /** Exactly the range [start, end]: chained from its start to its end, none over a day or, unless the
      range is a single instant, empty. */
  ghost predicate Tiles(t: seq<Ticket>, customer: string, start: Instant, end: Instant, refold: bool) {
    && t != [] && t[0].from == start && t[|t| - 1].to == end
    && Chained(t)
    && (forall i | 0 <= i < |t| ::
          && t[i].customer == customer && t[i].refold == refold
          && t[i].to - t[i].from <= MAX_TICKET_SPAN
          && (t[i].from < t[i].to || start == end == t[i].from == t[i].to))
  }

  lemma TilesAfter(rest: seq<Ticket>, customer: string, start: Instant, next: Instant, end: Instant, refold: bool)
    requires Tiles(rest, customer, next, end, refold) && next == start + MAX_TICKET_SPAN < end
    ensures Tiles([Ticket(customer, start, next, refold)] + rest, customer, start, end, refold)
  {
    var t := [Ticket(customer, start, next, refold)] + rest;
    forall i | 0 <= i < |t| - 1 ensures t[i].to == t[i + 1].from {
      if i > 0 {
        assert t[i] == rest[i - 1] && t[i + 1] == rest[i];
      }
    }
  }

  /** The pieces tile the range, and there are as many as days begun. */
  lemma {:induction false} PiecesTileTheRange(customer: string, start: Instant, end: Instant, refold: bool)
    requires start <= end
    ensures Tiles(Pieces(customer, start, end, refold), customer, start, end, refold)
    ensures |Pieces(customer, start, end, refold)| == PieceCount(end - start)
    decreases end - start
  {
    if end - start > MAX_TICKET_SPAN {
      var next := start + MAX_TICKET_SPAN;
      PiecesTileTheRange(customer, next, end, refold);
      TilesAfter(Pieces(customer, next, end, refold), customer, start, next, end, refold);
      assert PieceCount(end - start) == 1 + PieceCount(end - next);
    }
  }

  /** The loop's next piece, and what is left after it. */
  lemma NextPiece(customer: string, cursor: Instant, end: Instant, refold: bool, chunkEnd: Instant, rest: seq<Ticket>)
    requires cursor <= end
    requires chunkEnd == if cursor + MAX_TICKET_SPAN < end then cursor + MAX_TICKET_SPAN else end
    requires rest == if chunkEnd >= end then [] else Pieces(customer, chunkEnd, end, refold)
    ensures Pieces(customer, cursor, end, refold) == [Ticket(customer, cursor, chunkEnd, refold)] + rest
  {
  }

  lemma Regroup<T>(s: seq<T>, x: T, rest: seq<T>)
    ensures s + ([x] + rest) == (s + [x]) + rest
  {
  }

  /** Every instant of the range is in some ticket's range, and no ticket reaches outside it. */
  lemma {:induction false} PiecesCoverExactly(customer: string, start: Instant, end: Instant, refold: bool, t: Instant)
    ensures (exists p | p in Pieces(customer, start, end, refold) :: p.from <= t <= p.to) <==> start <= t <= end
    decreases end - start
  {
    if end - start > MAX_TICKET_SPAN {
      var first := Ticket(customer, start, start + MAX_TICKET_SPAN, refold);
      var rest := Pieces(customer, start + MAX_TICKET_SPAN, end, refold);
      PiecesCoverExactly(customer, start + MAX_TICKET_SPAN, end, refold, t);
      assert Pieces(customer, start, end, refold) == [first] + rest;
      assert first in [first] + rest;
    } else if start <= end {
      assert Ticket(customer, start, end, refold) in Pieces(customer, start, end, refold);
    }
  }

  class Queue {
    var tickets: seq<Ticket>

    /** `pad` is how far a rebuild may reach past the range it was asked for. */
    method Publish(customer: string, lo: Instant, hi: Instant, refold: bool, pad: nat) returns (written: nat)
      modifies this
      ensures tickets == old(tickets) + Pieces(customer, lo - pad, hi + pad, refold)
      ensures written == |tickets| - |old(tickets)|
    {
      var start, end := lo - pad, hi + pad;
      written := 0;
      var cursor := start;
      var done := false;
      assert tickets + Pieces(customer, start, end, refold) == old(tickets) + Pieces(customer, start, end, refold);
      while cursor <= end && !done
        invariant written == |tickets| - |old(tickets)|
        invariant tickets + (if done then [] else Pieces(customer, cursor, end, refold))
               == old(tickets) + Pieces(customer, start, end, refold)
        decreases !done, end - cursor
      {
        var chunkEnd := if cursor + MAX_TICKET_SPAN < end then cursor + MAX_TICKET_SPAN else end;
        ghost var rest := if chunkEnd >= end then [] else Pieces(customer, chunkEnd, end, refold);
        NextPiece(customer, cursor, end, refold, chunkEnd, rest);
        Regroup(tickets, Ticket(customer, cursor, chunkEnd, refold), rest);
        tickets := tickets + [Ticket(customer, cursor, chunkEnd, refold)];
        written := written + 1;
        if chunkEnd >= end {
          done := true;
        } else {
          cursor := chunkEnd;
        }
      }
    }
  }
}
