/** Transmission to xenstored (windows/xenutil/xenbus.c): requests are lists of segments that the DPC copies
    into the request ring as it finds room.  The list of pending requests is a sequence here;
    ResetRequests treats its links. */
module XenbusTx {
  import opened Bytes
  import opened XenbusRing

  lemma FlattenNext(segs: seq<seq<Byte>>, k: nat)
    requires k < |segs|
    ensures Flatten(segs[..k + 1]) == Flatten(segs[..k]) + segs[k]
  {
    assert segs[..k + 1] == segs[..k] + [segs[k]];
    FlattenAppend(segs[..k], [segs[k]]);
    assert Flatten([segs[k]]) == segs[k];
  }

  /** Where a request's transmission stands: the next segment (|segs| when there is none left) and the
      offset into it. */
  datatype Position = Position(seg: nat, off: nat)

  ghost predicate AtPosition(segs: seq<seq<Byte>>, p: Position) {
    p.seg <= |segs| && (if p.seg < |segs| then p.off <= |segs[p.seg]| else p.off == 0)
  }

  /** The bytes before a position. */
  function Done(segs: seq<seq<Byte>>, p: Position): seq<Byte>
    requires AtPosition(segs, p)
  {
    Flatten(segs[..p.seg]) + if p.seg < |segs| then segs[p.seg][..p.off] else []
  }

  /** The last segment is empty (or there is none). */
  predicate TrailingEmpty(segs: seq<seq<Byte>>) { segs == [] || segs[|segs| - 1] == [] }

  lemma {:induction false} FlattenEmpty(segs: seq<seq<Byte>>)
    ensures Flatten(segs) == [] <==> forall s :: s in segs ==> s == []
  {
    if segs != [] {
      FlattenEmpty(segs[1..]);
      assert segs[0] in segs && forall s :: s in segs <==> s == segs[0] || s in segs[1..];
      assert Flatten(segs) == [] ==> segs[0] == [] && Flatten(segs[1..]) == [];
    }
  }

  /** What is still to be sent. */
  function Left(segs: seq<seq<Byte>>, p: Position): seq<Byte>
    requires AtPosition(segs, p)
  {
    if p.seg < |segs| then segs[p.seg][p.off..] + Flatten(segs[p.seg + 1..]) else []
  }

  lemma DoneAndLeft(segs: seq<seq<Byte>>, p: Position)
    requires AtPosition(segs, p)
    ensures Done(segs, p) + Left(segs, p) == Flatten(segs)
  {
    if p.seg < |segs| {
      var s := segs[p.seg];
      assert segs == segs[..p.seg] + segs[p.seg..] && segs[p.seg..][1..] == segs[p.seg + 1..];
      FlattenAppend(segs[..p.seg], segs[p.seg..]);
      assert s == s[..p.off] + s[p.off..];
    } else {
      assert segs[..p.seg] == segs;
    }
  }

  /** Taking n more bytes of the current segment. */
  function Step(segs: seq<seq<Byte>>, p: Position, n: nat): Position
    requires AtPosition(segs, p) && p.seg < |segs| && p.off + n <= |segs[p.seg]|
  {
    if p.off + n == |segs[p.seg]| then Position(p.seg + 1, 0) else Position(p.seg, p.off + n)
  }

  lemma StepDone(segs: seq<seq<Byte>>, p: Position, n: nat)
    requires AtPosition(segs, p) && p.seg < |segs| && p.off + n <= |segs[p.seg]|
    ensures AtPosition(segs, Step(segs, p, n))
    ensures Done(segs, Step(segs, p, n)) == Done(segs, p) + segs[p.seg][p.off..p.off + n]
  {
    var s := segs[p.seg];
    assert s[..p.off] + s[p.off..p.off + n] == s[..p.off + n];
    if p.off + n == |s| {
      FlattenNext(segs, p.seg);
      assert s[..p.off + n] == s;
      if p.seg + 1 < |segs| {
        assert segs[p.seg + 1][..0] == [];
      }
    }
  }

  /** If nothing is left to be sent but segments are, the last segment is empty. */
  lemma NothingLeft(segs: seq<seq<Byte>>, p: Position)
    requires AtPosition(segs, p) && p.seg < |segs| && (p.off < |segs[p.seg]| || p.off == 0)
    ensures Done(segs, p) == Flatten(segs) <==> Left(segs, p) == []
    ensures Left(segs, p) == [] ==> TrailingEmpty(segs)
  {
    DoneAndLeft(segs, p);
    var last := segs[|segs| - 1];
    FlattenEmpty(segs[p.seg + 1..]);
    if p.seg + 1 < |segs| {
      assert last in segs[p.seg + 1..];
    }
  }

  lemma AdvanceDone(segs: seq<seq<Byte>>, p: Position, q: Position)
    requires Between(segs, p) && Between(segs, q)
    ensures |Done(segs, p)| <= |Flatten(segs)| && |Done(segs, q)| <= |Flatten(segs)|
    ensures Done(segs, p) == Flatten(segs) <==> |Done(segs, p)| == |Flatten(segs)|
    ensures p.seg < |segs| && Done(segs, p) == Flatten(segs) ==> TrailingEmpty(segs)
    ensures q.seg < |segs| && Done(segs, q) == Flatten(segs) ==> TrailingEmpty(segs)
    ensures q.seg == |segs| ==> Done(segs, q) == Flatten(segs)
  {
    DoneAndLeft(segs, p);
    DoneAndLeft(segs, q);
    if p.seg < |segs| {
      NothingLeft(segs, p);
    }
    if q.seg < |segs| {
      NothingLeft(segs, q);
    }
  }

  /** The loop of advance_tx_req: sent was in the ring before, stream is now, there is room up to limit. */
  ghost predicate Filling(segs: seq<seq<Byte>>, before: seq<Byte>, sent: seq<Byte>, stream: seq<Byte>, limit: nat, p: Position) {
    && Between(segs, p)
    && stream == before + Done(segs, p) && sent <= stream && |stream| <= limit
    && (p.seg == |segs| && |stream| == limit && |stream| != |sent| ==> !TrailingEmpty(segs))
  }

  /** A position that is not at the end of a segment. */
  ghost predicate Between(segs: seq<seq<Byte>>, p: Position) {
    AtPosition(segs, p) && (p.seg < |segs| ==> p.off < |segs[p.seg]| || p.off == 0)
  }

  lemma FillStep(segs: seq<seq<Byte>>, before: seq<Byte>, sent: seq<Byte>, stream: seq<Byte>, limit: nat, p: Position, n: nat)
    requires Filling(segs, before, sent, stream, limit, p) && p.seg < |segs| && |stream| < limit
    requires n == if |segs[p.seg]| - p.off > limit - |stream| then limit - |stream| else |segs[p.seg]| - p.off
    ensures Filling(segs, before, sent, stream + segs[p.seg][p.off..p.off + n], limit, Step(segs, p, n))
    ensures n > 0 || Step(segs, p, n).seg == p.seg + 1
  {
    StepDone(segs, p, n);
    assert before + Done(segs, p) + segs[p.seg][p.off..p.off + n] == before + (Done(segs, p) + segs[p.seg][p.off..p.off + n]);
  }

  /** What the loop has achieved when it ends, from position p to q. */
  lemma FillDone(segs: seq<seq<Byte>>, before: seq<Byte>, sent: seq<Byte>, stream: seq<Byte>, limit: nat, p: Position, q: Position)
    requires Filling(segs, before, sent, stream, limit, q) && (q.seg == |segs| || |stream| == limit)
    requires Between(segs, p) && sent == before + Done(segs, p)
    ensures |stream| != |sent| <==> |sent| < limit && Done(segs, p) != Flatten(segs)
    ensures (|stream| != |sent| ==> (q.seg == |segs| <==> Done(segs, q) == Flatten(segs) && (|stream| < limit || !TrailingEmpty(segs))))
    ensures |stream| == |sent| ==> stream == sent
    ensures |stream| == |sent| && p.seg < q.seg == |segs| ==> TrailingEmpty(segs)
  {
    AdvanceDone(segs, p, q);
  }

  class Request {
    const segs: seq<seq<Byte>>
    var next: nat
    var off: nat

    ghost predicate Valid()
      reads this
    {
      Between(segs, Where())
    }

    function Where(): Position
      reads this
    {
      Position(next, off)
    }

    /** What has been sent of the request. */
    ghost function Sent(): seq<Byte>
      requires Valid()
      reads this
    {
      Done(segs, Where())
    }

    ghost function Message(): seq<Byte> { Flatten(segs) }

    /** initialise_pending_req. */
    constructor (io: seq<seq<Byte>>)
      ensures Valid() && segs == io && next == 0 && off == 0
    {
      segs, next, off := io, 0, 0;
    }
  }

  function Messages(q: seq<Request>): seq<seq<Byte>> {
    if q == [] then [] else [Flatten(q[0].segs)] + Messages(q[1..])
  }

  lemma {:induction false} MessagesAppend(q: seq<Request>, r: Request)
    ensures Messages(q + [r]) == Messages(q) + [Flatten(r.segs)]
  {
    if q == [] {
      assert q + [r] == [r];
    } else {
      assert (q + [r])[1..] == q[1..] + [r];
      MessagesAppend(q[1..], r);
    }
  }

  /** The requests from index `at` on have not been started. */
  ghost predicate Untouched(q: seq<Request>, at: nat)
    reads q
  {
    forall i :: at <= i < |q| ==> q[i].next == 0 && q[i].off == 0
  }

  /** The requests before index `at` have been sent to the last segment. */
  ghost predicate Through(q: seq<Request>, at: nat)
    reads q
  {
    forall i :: 0 <= i < at && i < |q| ==> q[i].next == |q[i].segs|
  }

  ghost predicate AllValid(q: seq<Request>)
    reads q
  {
    && (forall i :: 0 <= i < |q| ==> q[i].Valid())
    && (forall i, j :: 0 <= i < j < |q| ==> q[i] != q[j])
  }

  /** The pending requests q, of which the one with index `current` is being sent; those in gone and the
      ones from there on are all that have been submitted. */
  ghost predicate QueueValid(q: seq<Request>, current: nat, submitted: seq<seq<Byte>>, gone: seq<seq<Byte>>)
    reads q
  {
    && current <= |q| && AllValid(q) && Through(q, current) && Untouched(q, current + 1)
    && submitted == gone + Messages(q[current..])
    && (current < |q| && q[current].next == |q[current].segs| ==> TrailingEmpty(q[current].segs))
  }

  ghost function InProgress(q: seq<Request>, current: nat): seq<Byte>
    requires AllValid(q)
    reads q
  {
    if current < |q| then q[current].Sent() else []
  }

  lemma FreshSent(segs: seq<seq<Byte>>)
    ensures Done(segs, Position(0, 0)) == []
  {
    if segs != [] {
      assert segs[0][..0] == [] && segs[..0] == [];
    }
  }

  lemma SubmitKeeps(q: seq<Request>, current: nat, submitted: seq<seq<Byte>>, gone: seq<seq<Byte>>, r: Request)
    requires QueueValid(q, current, submitted, gone) && r !in q && r.Valid() && r.next == 0 && r.off == 0
    ensures QueueValid(q + [r], current, submitted + [r.Message()], gone)
    ensures InProgress(q + [r], current) == InProgress(q, current)
  {
    MessagesAppend(q[current..], r);
    assert (q + [r])[current..] == q[current..] + [r];
    FreshSent(r.segs);
  }

  /** Moving on to the next request. */
  lemma MoveOn(q: seq<Request>, current: nat, submitted: seq<seq<Byte>>, gone: seq<seq<Byte>>)
    requires current < |q| && AllValid(q) && Through(q, current + 1) && Untouched(q, current + 1)
    requires submitted == gone + Messages(q[current..])
    ensures QueueValid(q, current + 1, submitted, gone + [q[current].Message()])
    ensures InProgress(q, current + 1) == []
    ensures Flatten(gone + [q[current].Message()]) == Flatten(gone) + q[current].Message()
  {
    var m := q[current].Message();
    assert q[current..][1..] == q[current + 1..];
    assert Messages(q[current..]) == [m] + Messages(q[current + 1..]);
    assert gone + ([m] + Messages(q[current + 1..])) == gone + [m] + Messages(q[current + 1..]);
    FlattenNext(gone + [m], |gone|);
    assert (gone + [m])[..|gone| + 1] == gone + [m] && (gone + [m])[..|gone|] == gone;
    if current + 1 < |q| {
      FreshSent(q[current + 1].segs);
    }
  }

  lemma SamePrefix(a: seq<Byte>, b: seq<Byte>, c: seq<Byte>)
    requires a + b == a + c
    ensures b == c
  {
    assert b == (a + b)[|a|..] && c == (a + c)[|a|..];
  }

  lemma FlattenPrefix(a: seq<seq<Byte>>, segs: seq<seq<Byte>>, p: Position)
    requires AtPosition(segs, p)
    ensures Flatten(a) + Done(segs, p) <= Flatten(a) + Flatten(segs)
  {
    DoneAndLeft(segs, p);
  }

  /** Request r is finished with: all its bytes are in the ring, and there is room left, or its end is not empty. */
  ghost predicate Leaves(r: Request, room: bool)
    requires r.Valid()
    reads r
  {
    r.Sent() == r.Message() && (room || !TrailingEmpty(r.segs))
  }

  class Transport {
    const ring: array<Byte>
    var prod: nat
    var cons: nat
    var queue: seq<Request>
    var current: nat             // the index of current_tx_req; |queue| if there is none
    ghost var sent: seq<Byte>                // all that has been put into the ring
    ghost var submitted: seq<seq<Byte>>      // the messages of all requests so far
    ghost var gone: seq<seq<Byte>>           // those of the requests that are finished with

    ghost predicate Valid()
      reads this, ring, queue
    {
      RingValid() && QueueValid(queue, current, submitted, gone) && sent == Flatten(gone) + InProgress(queue, current)
    }

    /** All bytes of the current request are in the ring, and yet it is still the current one. */
    ghost predicate Stalled()
      requires AllValid(queue)
      reads this, queue
    {
      current < |queue| && queue[current].Sent() == queue[current].Message()
    }

    constructor ()
      ensures Valid() && fresh(ring) && queue == [] && sent == [] && submitted == [] && cons == 0
    {
      ring := new Byte[XENSTORE_RING_SIZE];
      prod, cons, queue, current := 0, 0, [], 0;
      sent, submitted, gone := [], [], [];
    }

    /** submit_request. */
    method Submit(r: Request)
      requires Valid() && r !in queue && r.Valid() && r.next == 0 && r.off == 0
      modifies this
      ensures Valid() && queue == old(queue) + [r] && submitted == old(submitted) + [r.Message()]
      ensures sent == old(sent) && prod == old(prod) && cons == old(cons) && current == old(current)
    {
      SubmitKeeps(queue, current, submitted, gone, r);
      queue := queue + [r];
      submitted := submitted + [r.Message()];
    }

    /** The request ring, and what has been put into it so far. */
    ghost predicate RingValid()
      reads this, ring
    {
      ring.Length == XENSTORE_RING_SIZE && prod == |sent| && Holds(ring[..], sent, cons, prod)
    }

    /** The copying step of advance_tx_req, at index p; stream is all that has been put in up to there. */
    method Put(src: seq<Byte>, p: nat, ghost stream: seq<Byte>)
      requires ring.Length == XENSTORE_RING_SIZE && p == |stream| && Holds(ring[..], stream, cons, p)
      requires p - cons + |src| <= XENSTORE_RING_SIZE
      modifies ring
      ensures Holds(ring[..], stream + src, cons, p + |src|)
    {
      ghost var m := ring[..];
      CopyToRing(ring, src, Mask(p));
      WriteExtends(m, ring[..], stream, src, cons, p);
    }

    /** The loop of advance_tx_req: the new position in the request and in the ring. */
    method Fill(r: Request, ghost before: seq<Byte>) returns (seg: nat, off: nat, p: nat, ghost stream: seq<Byte>)
      requires RingValid() && r.Valid() && sent == before + r.Sent()
      modifies ring
      ensures ring.Length == XENSTORE_RING_SIZE && p == |stream| && Holds(ring[..], stream, cons, p)
      ensures Filling(r.segs, before, sent, stream, cons + XENSTORE_RING_SIZE, Position(seg, off))
      ensures seg == |r.segs| || p == cons + XENSTORE_RING_SIZE
    {
      seg, off, p, stream := r.next, r.off, prod, sent;
      while seg < |r.segs| && p != cons + XENSTORE_RING_SIZE
        invariant ring.Length == XENSTORE_RING_SIZE && p == |stream| && Holds(ring[..], stream, cons, p)
        invariant Filling(r.segs, before, sent, stream, cons + XENSTORE_RING_SIZE, Position(seg, off))
        decreases |r.segs| - seg, if seg < |r.segs| then |r.segs[seg]| - off else 0
      {
        var thisPass: nat := |r.segs[seg]| - off;
        if thisPass > cons + XENSTORE_RING_SIZE - p {
          thisPass := cons + XENSTORE_RING_SIZE - p;
        }
        FillStep(r.segs, before, sent, stream, cons + XENSTORE_RING_SIZE, Position(seg, off), thisPass);
        Put(r.segs[seg][off..off + thisPass], p, stream);
        stream := stream + r.segs[seg][off..off + thisPass];
        p, off := p + thisPass, off + thisPass;
        if off == |r.segs[seg]| {
          seg, off := seg + 1, 0;
        }
      }
    }

    /** advance_tx_req.  As many bytes of the request go into the ring as there is room for; the result is
        whether that is any.  The request is finished with unless its bytes fill the ring exactly and its
        last segment is empty. */
    method Advance(r: Request, ghost before: seq<Byte>) returns (progress: bool)
      requires RingValid() && r.Valid() && sent == before + r.Sent()
      modifies ring, `prod, `sent, r
      ensures RingValid() && r.Valid() && sent == before + r.Sent()
      ensures old(sent) <= sent
      ensures prod == cons + XENSTORE_RING_SIZE || r.next == |r.segs|
      ensures progress <==> old(prod) < cons + XENSTORE_RING_SIZE && old(r.Sent()) != r.Message()
      ensures progress ==> (r.next == |r.segs| <==> Leaves(r, prod < cons + XENSTORE_RING_SIZE))
      ensures if progress then |sent| > |old(sent)| else sent == old(sent)
      ensures !progress && old(r.next) < r.next == |r.segs| ==> TrailingEmpty(r.segs)
    {
      var seg, off, p;
      ghost var stream;
      seg, off, p, stream := Fill(r, before);
      FillDone(r.segs, before, sent, stream, cons + XENSTORE_RING_SIZE, r.Where(), Position(seg, off));
      r.next, r.off := seg, off;
      progress := p != prod;
      prod, sent := p, stream;
    }

    /** advance_tx_req on the current request; finished says whether it has no next segment any more. */
    method AdvanceCurrent() returns (progress: bool, finished: bool)
      requires Valid() && current < |queue|
      modifies ring, `prod, `sent, queue[current]
      ensures RingValid() && AllValid(queue) && old(sent) <= sent
      ensures progress <==> old(prod) < cons + XENSTORE_RING_SIZE && !old(Stalled())
      ensures if progress then |sent| > |old(sent)| else sent == old(sent) && Stalled() == old(Stalled())
      ensures progress ==> (finished <==> Leaves(queue[current], prod < cons + XENSTORE_RING_SIZE))
      ensures prod == cons + XENSTORE_RING_SIZE || queue[current].Sent() == queue[current].Message()
      ensures if progress && finished then CanMoveOn() else Valid()
    {
      var r := queue[current];
      assert r.Valid();
      progress := Advance(r, Flatten(gone));
      finished := r.next == |r.segs|;
      if !progress {
        SamePrefix(Flatten(gone), r.Sent(), old(r.Sent()));
      }
      if finished {
        assert r.segs[..r.next] == r.segs;
      }
    }

    /** The current request is all in the ring. */
    ghost predicate CanMoveOn()
      reads this, ring, queue
    {
      && RingValid() && current < |queue| && AllValid(queue) && Through(queue, current + 1) && Untouched(queue, current + 1)
      && submitted == gone + Messages(queue[current..]) && sent == Flatten(gone) + queue[current].Message()
    }

    /** current_tx_req = current_tx_req->next. */
    method NextRequest()
      requires CanMoveOn()
      modifies `current, `gone
      ensures Valid() && current == old(current) + 1
    {
      MoveOn(queue, current, submitted, gone);
      gone := gone + [queue[current].Message()];
      current := current + 1;
    }

    /** One round of the transmit loop of xenbus_dpc_func. */
    method Round() returns (progress: bool)
      requires Valid() && current < |queue|
      modifies ring, `prod, `sent, `current, `gone, queue[current]
      ensures Valid() && old(sent) <= sent && old(current) <= current
      ensures progress <==> old(prod) < cons + XENSTORE_RING_SIZE && !old(Stalled())
      ensures if progress then |sent| > |old(sent)| else current == old(current) && sent == old(sent)
      ensures !progress ==> Stalled() == old(Stalled())
      ensures progress ==> current == old(current) + if Leaves(queue[old(current)], prod < cons + XENSTORE_RING_SIZE) then 1 else 0
      ensures prod == cons + XENSTORE_RING_SIZE || queue[old(current)].Sent() == queue[old(current)].Message()
    {
      var finished;
      progress, finished := AdvanceCurrent();
      if progress && finished {
        NextRequest();
      }
    }

    /** The transmit loop of xenbus_dpc_func: it ends when all requests are through, or the ring is full, or
        the current request is stalled. */
    method Transmit() returns (fire: bool)
      requires Valid()
      modifies ring, `prod, `sent, `current, `gone, queue
      ensures Valid() && old(sent) <= sent && old(current) <= current
      ensures current == |queue| || prod == cons + XENSTORE_RING_SIZE || Stalled()
      ensures fire <==> sent != old(sent)
      ensures old(Stalled()) ==> Stalled() && sent == old(sent) && current == old(current)
    {
      fire := false;
      while current < |queue|
        invariant Valid() && old(sent) <= sent && old(current) <= current
        invariant fire <==> |sent| > |old(sent)|
        invariant old(Stalled()) ==> Stalled() && sent == old(sent) && current == old(current)
        decreases cons + XENSTORE_RING_SIZE - prod
      {
        var progress := Round();
        if !progress {
          return;
        }
        fire := true;
      }
    }

    /** xenstored takes n bytes: they are the next ones of what has been sent. */
    method Consume(n: nat) returns (bytes: seq<Byte>)
      requires RingValid() && n <= prod - cons
      modifies `cons
      ensures RingValid() && (old(Valid()) ==> Valid() && Stalled() == old(Stalled()))
      ensures cons == old(cons) + n && bytes == sent[old(cons)..cons]
    {
      bytes := CopyFromRing(ring, n, Mask(cons));
      ReadGives(ring[..], sent, cons, prod, bytes);
      cons := cons + n;
    }

    /** All bytes of the request with index j are in the ring, or have been: it can be answered. */
    ghost predicate Answerable(j: nat)
      requires AllValid(queue) && j < |queue|
      reads this, queue
    {
      queue[j].Sent() == queue[j].Message()
    }

    /** A request that can be answered is no longer the current one, exactly unless it is stalled.  Every request
        has a header, so that its message is not empty. */
    lemma AnswerableIff(j: nat)
      requires Valid() && j < |queue| && queue[j].Message() != []
      ensures Answerable(j) <==> j < current || (j == current && Stalled())
    {
      assert queue[j].Valid();
      if j < current {
        assert queue[j].segs[..queue[j].next] == queue[j].segs;
      } else if j > current {
        FreshSent(queue[j].segs);
      }
    }

    /** The unhooking in get_request_results, for a request that has been answered.  The assertion that it is not
        the current one fails exactly if it is stalled; without the assertion, current_tx_req would go on pointing
        to it. */
    method Unhook(j: nat) returns (asserted: bool)
      requires Valid() && j < |queue| && queue[j].Message() != [] && Answerable(j)
      modifies `queue, `current
      ensures asserted <==> !(j == old(current) && old(Stalled()))
      ensures asserted ==> Valid() && queue == old(queue[..j] + queue[j + 1..]) && current == old(current) - 1
      ensures !asserted ==> queue == old(queue) && current == old(current)
    {
      AnswerableIff(j);
      if j == current {
        return false;
      }
      UnhookKeeps(queue, current, submitted, gone, j);
      queue := queue[..j] + queue[j + 1..];
      current := current - 1;
      asserted := true;
    }

    /** What has been sent is a prefix of all messages, one after the other, as they were submitted. */
    lemma InOrder()
      requires Valid()
      ensures sent <= Flatten(submitted)
      ensures current == |queue| ==> sent == Flatten(submitted)
    {
      if current < |queue| {
        FlattenPrefix(gone, queue[current].segs, queue[current].Where());
        NextOfMessages(gone, queue, current);
      } else {
        assert submitted == gone;
      }
    }

    /** Only a request whose last segment is empty can stall. */
    lemma StalledHasEmptyEnd()
      requires Valid() && Stalled()
      ensures TrailingEmpty(queue[current].segs)
    {
      var r := queue[current];
      assert r.Valid();
      AdvanceDone(r.segs, r.Where(), r.Where());
    }
  }

  lemma UnhookKeeps(q: seq<Request>, current: nat, submitted: seq<seq<Byte>>, gone: seq<seq<Byte>>, j: nat)
    requires QueueValid(q, current, submitted, gone) && j < current
    ensures QueueValid(q[..j] + q[j + 1..], current - 1, submitted, gone)
    ensures InProgress(q[..j] + q[j + 1..], current - 1) == InProgress(q, current)
  {
    var p := q[..j] + q[j + 1..];
    assert forall i :: 0 <= i < |p| ==> p[i] == q[if i < j then i else i + 1];
    assert p[current - 1..] == q[current..];
  }

  lemma NextOfMessages(gone: seq<seq<Byte>>, q: seq<Request>, current: nat)
    requires current < |q|
    ensures Flatten(gone) + Flatten(q[current].segs) <= Flatten(gone + Messages(q[current..]))
  {
    var rest := Messages(q[current..]);
    FlattenAppend(gone, rest);
    assert rest[0] == Flatten(q[current].segs);
  }

  /** A request whose first segment fills the ring exactly and whose second is empty: the first round makes progress,
      but leaves it current. */
  method StallStart(data: seq<Byte>) returns (t: Transport, first: bool)
    requires |data| == XENSTORE_RING_SIZE
    ensures fresh(t) && fresh(t.ring) && |t.queue| == 1 && fresh(t.queue[0]) && t.queue[0].Message() == data
    ensures t.Valid() && t.current == 0 && t.Stalled() && t.sent == data && t.cons == 0 && first
  {
    var r;
    t, r := StallQueue(data);
    ExampleMessage(data);
    first := t.Round();
    StallSent(t, r, data);
  }

  method StallQueue(data: seq<Byte>) returns (t: Transport, r: Request)
    ensures fresh(t) && fresh(t.ring) && fresh(r) && r.Valid() && r.segs == [data, []] && r.Sent() == []
    ensures t.Valid() && t.queue == [r] && t.current == 0 && t.submitted == [Flatten(r.segs)] && t.cons == t.prod == 0
  {
    t := new Transport();
    r := new Request([data, []]);
    ExampleMessage(data);
    t.Submit(r);
    assert t.queue == [r];
  }

  lemma StallSent(t: Transport, r: Request, data: seq<Byte>)
    requires |data| == XENSTORE_RING_SIZE && t.Valid() && t.queue == [r] && r.Valid() && r.segs == [data, []] && t.cons == 0
    requires t.submitted == [data]
    requires t.prod == XENSTORE_RING_SIZE || r.Sent() == r.Message()
    requires t.current == if Leaves(r, t.prod < XENSTORE_RING_SIZE) then 1 else 0
    ensures t.current == 0 && t.sent == data && r.Sent() == data
  {
    ExampleMessage(data);
    t.InOrder();
    assert Flatten([data]) == data + Flatten([data][1..]);
    assert t.sent == data;
  }

  method StallTaken(data: seq<Byte>) returns (t: Transport, first: bool, taken: seq<Byte>)
    requires |data| == XENSTORE_RING_SIZE
    ensures fresh(t) && fresh(t.ring) && t.current < |t.queue| && fresh(t.queue[t.current])
    ensures t.Valid() && t.Stalled() && t.queue[t.current].Message() != [] && first && taken == data
  {
    t, first := StallStart(data);
    assert t.sent[0..XENSTORE_RING_SIZE] == data && data != [];
    taken := t.Consume(XENSTORE_RING_SIZE);
    assert t.queue[t.current].Message() == data;
  }

  method StallAnswered(t: Transport) returns (second: bool, asserted: bool)
    requires t.Valid() && t.current < |t.queue| && t.Stalled() && t.queue[t.current].Message() != []
    modifies t, t.ring, t.queue[t.current]
    ensures !second && !asserted
  {
    second := t.Round();
    asserted := t.Unhook(t.current);
  }

  /** Xenstored gets all of such a request; no later round makes progress; and when the answer comes, the request is
      still current. */
  method StallExample(data: seq<Byte>) returns (first: bool, taken: seq<Byte>, second: bool, asserted: bool)
    requires |data| == XENSTORE_RING_SIZE
    ensures first && taken == data && !second && !asserted
  {
    var t;
    t, first, taken := StallTaken(data);
    second, asserted := StallAnswered(t);
  }

  lemma ExampleMessage(data: seq<Byte>)
    ensures Flatten([data, []]) == data && Done([data, []], Position(0, 0)) == [] && TrailingEmpty([data, []])
  {
    assert Flatten([data, []][1..]) == [];
    FreshSent([data, []]);
  }
}
