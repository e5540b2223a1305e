/** Rebuilding the list of pending requests after a suspend (reset_requests in windows/xenutil/xenbus.c): the
    doubly linked list is taken apart and put together again, requests that have their reply first, and the
    others are to be sent once more from their first byte. */
module ResetRequests {
  import opened Base

  class Request {
    const id: int
    var next: Request?
    var prev: Request?
    var replied: bool
    var nextSeg: nat
    var off: nat

    constructor (id: int)
      ensures !replied && nextSeg == 0 && off == 0 && next == null && prev == null
    {
      this.id, next, prev, replied, nextSeg, off := id, null, null, false, 0, 0;
    }
  }

  function After(q: seq<Request>, i: int): Request? { if 0 <= i + 1 < |q| then q[i + 1] else null }

  function Before(q: seq<Request>, i: int): Request? { if 0 <= i - 1 < |q| then q[i - 1] else null }

  function First(q: seq<Request>): Request? { if q == [] then null else q[0] }

  function Last(q: seq<Request>): Request? { if q == [] then null else q[|q| - 1] }

  /** The links of the requests in q, both ways, are those of the list q. */
  ghost predicate Chained(q: seq<Request>)
    reads q
  {
    && (forall i {:trigger After(q, i)} :: 0 <= i < |q| ==> q[i].next == After(q, i))
    && (forall i {:trigger Before(q, i)} :: 0 <= i < |q| ==> q[i].prev == Before(q, i))
  }

  /** The requests of q that are in the set `done`, or those that are not, in the same order. */
  ghost function Those(q: seq<Request>, done: set<Request>, b: bool): seq<Request> {
    if q == [] then []
    else Those(q[..|q| - 1], done, b) + if (q[|q| - 1] in done) == b then [q[|q| - 1]] else []
  }

  lemma ThoseNext(q: seq<Request>, k: nat, done: set<Request>, b: bool)
    requires k < |q|
    ensures Those(q[..k + 1], done, b) == Those(q[..k], done, b) + if (q[k] in done) == b then [q[k]] else []
  {
    assert q[..k + 1][..k] == q[..k];
  }

  lemma {:induction false} ThoseAre(q: seq<Request>, done: set<Request>, b: bool)
    ensures forall x :: x in Those(q, done, b) <==> x in q && (x in done) == b
  {
    if q != [] {
      ThoseAre(q[..|q| - 1], done, b);
      assert forall x :: x in q <==> x in q[..|q| - 1] || x == q[|q| - 1];
    }
  }

  lemma {:induction false} ThoseDistinct(q: seq<Request>, done: set<Request>, b: bool)
    requires Distinct(q)
    ensures Distinct(Those(q, done, b))
  {
    if q != [] {
      var p := q[..|q| - 1];
      assert Distinct(p) && q[|q| - 1] !in p;
      ThoseDistinct(p, done, b);
      ThoseAre(p, done, b);
    }
  }

  /** Nothing is lost, nothing comes in: what is reordered is the same requests. */
  lemma {:induction false} ThoseAll(q: seq<Request>, done: set<Request>)
    ensures multiset(Those(q, done, true) + Those(q, done, false)) == multiset(q)
  {
    if q != [] {
      var p := q[..|q| - 1];
      assert q == p + [q[|q| - 1]];
      ThoseAll(p, done);
    }
  }

  /** Puts p at the end of the list q, whose last element is `tail`. */
  method Append(p: Request, tail: Request?, ghost q: seq<Request>)
    requires Chained(q) && Distinct(q) && p !in q && tail == Last(q) && p.next == null
    modifies p`prev, q`next
    ensures Chained(q + [p])
  {
    p.prev := tail;
    if tail != null {
      assert tail.next == After(q, |q| - 1);
      tail.next := p;
    }
    forall i | 0 <= i <= |q|
      ensures (q + [p])[i].next == After(q + [p], i)
      ensures (q + [p])[i].prev == Before(q + [p], i)
    {
      if i < |q| {
        assert i < |q| - 1 ==> q[i].next == After(q, i);
        assert q[i].prev == Before(q, i);
      }
    }
  }

  /** Puts the list d behind the list c. */
  method Splice(ghost c: seq<Request>, ghost d: seq<Request>, tail: Request?, head: Request?)
    requires Chained(c) && Chained(d) && Distinct(c) && Distinct(d) && Disjoint(c, d)
    requires tail == Last(c) && head == First(d)
    modifies c`next, d`prev
    ensures Chained(c + d)
  {
    if tail != null {
      tail.next := head;
    }
    if head != null {
      head.prev := tail;
    }
    forall i | 0 <= i < |c + d|
      ensures (c + d)[i].next == After(c + d, i)
      ensures (c + d)[i].prev == Before(c + d, i)
    {
      if i < |c| {
        assert i < |c| - 1 ==> c[i].next == After(c, i);
        assert c[i].prev == Before(c, i);
      } else {
        assert d[i - |c|].next == After(d, i - |c|);
        assert i > |c| ==> d[i - |c|].prev == Before(d, i - |c|);
      }
    }
  }

  ghost predicate Disjoint(c: seq<Request>, d: seq<Request>) {
    forall i, j :: 0 <= i < |c| && 0 <= j < |d| ==> c[i] != d[j]
  }

  ghost predicate Rewound(q: seq<Request>)
    reads q`nextSeg, q`off
  {
    forall i :: 0 <= i < |q| ==> q[i].nextSeg == 0 && q[i].off == 0
  }

  /** The links forward of the requests from index k on. */
  ghost predicate Rest(q: seq<Request>, k: nat)
    reads q`next
  {
    forall i {:trigger After(q, i)} :: k <= i < |q| ==> q[i].next == After(q, i)
  }

  /** The loop of reset_requests, after k requests: those that are complete are chained in c, the others,
      rewound, in d; r is what is left of the list. */
  ghost predicate Splitting(q: seq<Request>, done: set<Request>, k: nat, c: seq<Request>, d: seq<Request>, r: seq<Request>)
    reads c, d, r
  {
    Parts(q, done, k, c, d, r) && Rest(r, 0) && Chained(c) && Chained(d) && Rewound(d)
  }

  ghost predicate Parts(q: seq<Request>, done: set<Request>, k: nat, c: seq<Request>, d: seq<Request>, r: seq<Request>) {
    k <= |q| && r == q[k..] && c == Those(q[..k], done, true) && d == Those(q[..k], done, false)
  }

  lemma PartsDisjoint(q: seq<Request>, done: set<Request>, k: nat, c: seq<Request>, d: seq<Request>, r: seq<Request>)
    requires Distinct(q) && Parts(q, done, k, c, d, r)
    ensures Distinct(c) && Distinct(d) && Distinct(r) && Disjoint(c, d) && Disjoint(d, c) && Disjoint(c, r) && Disjoint(d, r)
  {
    ThoseDistinct(q[..k], done, true);
    ThoseDistinct(q[..k], done, false);
    ThoseAre(q[..k], done, true);
    ThoseAre(q[..k], done, false);
    assert forall i :: 0 <= i < |c| ==> c[i] in q[..k] && c[i] in done;
    assert forall i :: 0 <= i < |d| ==> d[i] in q[..k] && d[i] !in done;
  }

  lemma PartsNext(q: seq<Request>, done: set<Request>, k: nat, c: seq<Request>, d: seq<Request>, r: seq<Request>)
    requires Parts(q, done, k, c, d, r) && k < |q|
    ensures r[0] == q[k]
    ensures (if q[k] in done then Parts(q, done, k + 1, c + [q[k]], d, r[1..])
             else Parts(q, done, k + 1, c, d + [q[k]], r[1..]))
  {
    ThoseNext(q, k, done, true);
    ThoseNext(q, k, done, false);
  }

  lemma RestTail(r: seq<Request>)
    requires r != [] && Rest(r, 1)
    ensures Rest(r[1..], 0)
  {
    forall i | 0 <= i < |r| - 1
      ensures r[1..][i].next == After(r[1..], i)
    {
      assert r[i + 1].next == After(r, i + 1);
    }
  }

  /** Moves p from the rest r to the end of the list c; the list d is not touched. */
  method Place(p: Request, tail: Request?, ghost c: seq<Request>, ghost d: seq<Request>, ghost r: seq<Request>)
    requires r != [] && p == r[0] && Distinct(r) && Distinct(c) && tail == Last(c)
    requires Disjoint(c, d) && Disjoint(c, r) && Disjoint(d, r) && Rest(r, 0) && Chained(c) && Chained(d)
    modifies p`next, p`prev, c`next
    ensures Chained(c + [p]) && Chained(d) && Rest(r, 1)
  {
    p.next := null;
    assert p !in c;
    Append(p, tail, c);
    forall i | 0 <= i < |d|
      ensures d[i].next == After(d, i) && d[i].prev == Before(d, i)
    {
      assert d[i] !in c && d[i] != r[0];
    }
    forall i | 1 <= i < |r|
      ensures r[i].next == After(r, i)
    {
      assert r[i] !in c && r[i] != r[0];
    }
  }

  /** One round for a request that has its reply. */
  method PlaceComplete(p: Request, tail: Request?, ghost q: seq<Request>, ghost done: set<Request>, ghost k: nat,
                       ghost c: seq<Request>, ghost d: seq<Request>, ghost r: seq<Request>)
    requires Distinct(q) && Splitting(q, done, k, c, d, r) && k < |q| && p == q[k] && p in done && tail == Last(c)
    modifies p`next, p`prev, c`next
    ensures Splitting(q, done, k + 1, c + [p], d, r[1..])
  {
    PartsDisjoint(q, done, k, c, d, r);
    PartsNext(q, done, k, c, d, r);
    Place(p, tail, c, d, r);
    RestTail(r);
  }

  /** One round for a request that has not: its transmission is reset. */
  method PlaceIncomplete(p: Request, tail: Request?, ghost q: seq<Request>, ghost done: set<Request>, ghost k: nat,
                         ghost c: seq<Request>, ghost d: seq<Request>, ghost r: seq<Request>)
    requires Distinct(q) && Splitting(q, done, k, c, d, r) && k < |q| && p == q[k] && p !in done && tail == Last(d)
    modifies p`next, p`prev, p`nextSeg, p`off, d`next
    ensures Splitting(q, done, k + 1, c, d + [p], r[1..])
  {
    PartsDisjoint(q, done, k, c, d, r);
    PartsNext(q, done, k, c, d, r);
    p.nextSeg, p.off := 0, 0;
    Place(p, tail, d, c, r);
    RestTail(r);
  }

  /** done is the set of those that have their reply. */
  ghost predicate RepliedAre(q: seq<Request>, done: set<Request>)
    reads q`replied
  {
    forall i :: 0 <= i < |q| ==> (q[i].replied <==> q[i] in done)
  }

  lemma InParts(q: seq<Request>, done: set<Request>, k: nat, c: seq<Request>, d: seq<Request>, r: seq<Request>)
    requires Parts(q, done, k, c, d, r)
    ensures forall i :: 0 <= i < |c| ==> c[i] in q
    ensures forall i :: 0 <= i < |d| ==> d[i] in q
    ensures k < |q| && q[k] !in done ==> q[k] in Those(q, done, false)
  {
    ThoseAre(q[..k], done, true);
    ThoseAre(q[..k], done, false);
    ThoseAre(q, done, false);
    assert forall i :: 0 <= i < |c| ==> c[i] in c && c[i] in q[..k];
    assert forall i :: 0 <= i < |d| ==> d[i] in d && d[i] in q[..k];
  }

  /** One round of the loop of reset_requests. */
  method Round(p: Request, tailComp: Request?, tailIncomp: Request?, ghost q: seq<Request>, ghost done: set<Request>, ghost k: nat,
               ghost c: seq<Request>, ghost d: seq<Request>, ghost r: seq<Request>)
    requires Distinct(q) && RepliedAre(q, done) && Splitting(q, done, k, c, d, r)
    requires k < |q| && p == q[k] && tailComp == Last(c) && tailIncomp == Last(d)
    modifies q`next, q`prev, Those(q, done, false)`nextSeg, Those(q, done, false)`off
    ensures (if p.replied then Splitting(q, done, k + 1, c + [p], d, r[1..])
             else Splitting(q, done, k + 1, c, d + [p], r[1..]))
  {
    InParts(q, done, k, c, d, r);
    if p.replied {
      PlaceComplete(p, tailComp, q, done, k, c, d, r);
    } else {
      PlaceIncomplete(p, tailIncomp, q, done, k, c, d, r);
    }
  }

  /** The loop of reset_requests. */
  method Split(head: Request?, ghost q: seq<Request>, ghost done: set<Request>)
      returns (headComp: Request?, tailComp: Request?, headIncomp: Request?, tailIncomp: Request?)
    requires Distinct(q) && Chained(q) && RepliedAre(q, done) && head == First(q)
    modifies q`next, q`prev, Those(q, done, false)`nextSeg, Those(q, done, false)`off
    ensures headComp == First(Those(q, done, true)) && tailComp == Last(Those(q, done, true))
    ensures headIncomp == First(Those(q, done, false)) && tailIncomp == Last(Those(q, done, false))
    ensures Chained(Those(q, done, true)) && Chained(Those(q, done, false)) && Rewound(Those(q, done, false))
  {
    headComp, tailComp, headIncomp, tailIncomp := null, null, null, null;
    ghost var k, c: seq<Request>, d: seq<Request>, r := 0, [], [], q;
    assert q[..0] == [] && q[0..] == q;
    var p := head;
    while p != null
      invariant Splitting(q, done, k, c, d, r) && p == First(r)
      invariant headComp == First(c) && tailComp == Last(c) && headIncomp == First(d) && tailIncomp == Last(d)
      decreases |r|
    {
      var n := p.next;
      assert p.next == After(r, 0);
      Round(p, tailComp, tailIncomp, q, done, k, c, d, r);
      if p.replied {
        headComp, tailComp := if tailComp == null then p else headComp, p;
        c := c + [p];
      } else {
        headIncomp, tailIncomp := if tailIncomp == null then p else headIncomp, p;
        d := d + [p];
      }
      p, k, r := n, k + 1, r[1..];
    }
    assert q[..k] == q;
  }

  lemma JoinDistinct(c: seq<Request>, d: seq<Request>)
    requires Distinct(c) && Distinct(d) && Disjoint(c, d)
    ensures Distinct(c + d)
    ensures First(c + d) == if First(c) != null then First(c) else First(d)
    ensures Last(c + d) == if Last(d) != null then Last(d) else Last(c)
  {
  }

  /** The splicing at the end of reset_requests. */
  method Join(ghost q: seq<Request>, ghost done: set<Request>, ghost c: seq<Request>, ghost d: seq<Request>,
              tail: Request?, head: Request?)
    requires Distinct(q) && Parts(q, done, |q|, c, d, []) && Chained(c) && Chained(d)
    requires tail == Last(c) && head == First(d)
    modifies q`next, q`prev
    ensures Distinct(c + d) && Chained(c + d)
    ensures First(c + d) == if First(c) != null then First(c) else First(d)
    ensures Last(c + d) == if Last(d) != null then Last(d) else Last(c)
  {
    PartsDisjoint(q, done, |q|, c, d, []);
    InParts(q, done, |q|, c, d, []);
    JoinDistinct(c, d);
    Splice(c, d, tail, head);
  }

  class Queue {
    var head: Request?
    var tail: Request?
    var currentTx: Request?
    var currentRx: Request?
    ghost var nodes: seq<Request>

    ghost predicate Valid()
      reads this, nodes
    {
      Distinct(nodes) && Chained(nodes) && head == First(nodes) && tail == Last(nodes)
    }

    /** reset_requests; done is the set of the requests that have their reply.  These come first, the others
        after them, both in their old order and consistently linked; the others start again from their first
        byte, and the first of them is the one to be sent. */
    method Reset(ghost done: set<Request>)
      requires Valid() && RepliedAre(nodes, done)
      modifies this, nodes`next, nodes`prev, Those(nodes, done, false)`nextSeg, Those(nodes, done, false)`off
      ensures Valid() && nodes == Those(old(nodes), done, true) + Those(old(nodes), done, false)
      ensures Rewound(Those(old(nodes), done, false))
      ensures currentTx == First(Those(old(nodes), done, false)) && currentRx == null
    {
      ghost var c, d := Those(nodes, done, true), Those(nodes, done, false);
      var headComp, tailComp, headIncomp, tailIncomp := Split(head, nodes, done);
      assert nodes[..|nodes|] == nodes;
      assert Rewound(d);
      Join(nodes, done, c, d, tailComp, headIncomp);
      assert Rewound(d);
      Install(if headComp != null then headComp else headIncomp,
              if tailIncomp != null then tailIncomp else tailComp, headIncomp, c + d);
    }

    /** The list becomes the list of pending requests. */
    method Install(h: Request?, t: Request?, tx: Request?, ghost q: seq<Request>)
      requires Distinct(q) && Chained(q) && h == First(q) && t == Last(q)
      modifies this
      ensures Valid() && nodes == q && currentTx == tx && currentRx == null
    {
      head, tail, currentTx, currentRx := h, t, tx, null;
      nodes := q;
    }
  }
}
