/** The cancel-safe queue of windows/xenv4v/csq.c and the destination records that summarise it.  Every pending
    write IRP has a record of its own, with its destination and a link to the next IRP for the same
    destination; the record is a part of the IRP here. */
module Csq {
  import opened Base
  import opened Xenv4v

  const XENV4V_MAX_IRP_COUNT: nat := 65536
  const DOMID_INVALID: nat := 0x7FF4
  const STREAM_HEADER: nat := 8
  const DATAGRAM_HEADER: nat := 8
  const TWO_32: nat := 0x1_0000_0000

  datatype Flag = Dgram | Stream | Accept | Syn | Ack | Rst | Read | Write | Ioctl

  const TYPES: set<Flag> := {Dgram, Stream}
  const OPS: set<Flag> := {Accept, Syn, Ack, Rst, Read, Write, Ioctl}

  class Irp {
    const flags: set<Flag>
    const fileObject: nat
    const writeLength: nat
    const rstDst: Addr           // in the special structure of a queued RST
    const streamDst: Addr        // the context's sdst
    const datagramDst: Addr      // in the message
    var dst: Addr                // the record's dst and nextIrp
    var linked: bool             // whether there is a record
    var next: Irp?

    constructor (flags: set<Flag>, fileObject: nat, writeLength: nat, rstDst: Addr, streamDst: Addr, datagramDst: Addr)
      ensures !linked
    {
      this.flags, this.fileObject, this.writeLength := flags, fileObject, writeLength;
      this.rstDst, this.streamDst, this.datagramDst := rstDst, streamDst, datagramDst;
      dst, linked, next := Addr(0, 0), false, null;
    }

    predicate IsWrite() { Write in flags }

    /** V4vCsqGetDestination. */
    function Destination(): Addr {
      if Rst in flags then rstDst else if Stream in flags then streamDst else datagramDst
    }

    /** XENV4V_PAYLOAD_DATA_LEN; the lengths are 32 bits wide. */
    function PayloadLen(): nat {
      if flags * {Syn, Ack, Rst} != {} then STREAM_HEADER
      else if Stream in flags then (writeLength + STREAM_HEADER) % TWO_32
      else (writeLength + TWO_32 - DATAGRAM_HEADER) % TWO_32
    }
  }

  class Dest {
    const dst: Addr
    var refc: nat
    var nextLength: nat
    var nextIrp: Irp?

    constructor (dst: Addr, irp: Irp)
      ensures this.dst == dst && refc == 1 && nextIrp == irp && nextLength == irp.PayloadLen()
    {
      this.dst, refc, nextIrp, nextLength := dst, 1, irp, irp.PayloadLen();
    }
  }

  // ----- The queue as the destinations see it

  /** The pending writes to destination a, in queue order; rec gives the destinations on record. */
  function WritesTo(q: seq<Irp>, rec: map<Irp, Addr>, a: Addr): (r: seq<Irp>)
    ensures forall i :: 0 <= i < |r| ==> r[i] in q && r[i] in rec && rec[r[i]] == a
  {
    if q == [] then []
    else (if q[0] in rec && rec[q[0]] == a then [q[0]] else []) + WritesTo(q[1..], rec, a)
  }

  lemma {:induction false} WritesAppend(p: seq<Irp>, q: seq<Irp>, rec: map<Irp, Addr>, a: Addr)
    ensures WritesTo(p + q, rec, a) == WritesTo(p, rec, a) + WritesTo(q, rec, a)
  {
    if p == [] {
      assert p + q == q;
    } else {
      assert (p + q)[1..] == p[1..] + q;
      WritesAppend(p[1..], q, rec, a);
    }
  }

  lemma WritesOne(x: Irp, rec: map<Irp, Addr>, a: Addr)
    ensures WritesTo([x], rec, a) == if x in rec && rec[x] == a then [x] else []
  {
  }

  /** A record for an IRP outside the queue does not matter. */
  lemma {:induction false} WritesOther(q: seq<Irp>, rec: map<Irp, Addr>, x: Irp, b: Addr, a: Addr)
    requires x !in q
    ensures WritesTo(q, rec[x := b], a) == WritesTo(q, rec, a)
  {
    if q != [] {
      assert q[0] in q;
      WritesOther(q[1..], rec, x, b, a);
    }
  }

  lemma {:induction false} WritesDistinct(q: seq<Irp>, rec: map<Irp, Addr>, a: Addr)
    requires Distinct(q)
    ensures Distinct(WritesTo(q, rec, a))
  {
    if q != [] {
      assert forall x :: x in q[1..] ==> x != q[0];
      assert Distinct(q[1..]);
      WritesDistinct(q[1..], rec, a);
    }
  }

  lemma {:induction false} WritesHas(q: seq<Irp>, rec: map<Irp, Addr>, i: nat, a: Addr)
    requires i < |q| && q[i] in rec && rec[q[i]] == a
    ensures WritesTo(q, rec, a) != []
  {
    if i > 0 {
      WritesHas(q[1..], rec, i - 1, a);
    }
  }

  // ----- Chains

  /** What comes after the element with index i. */
  function After(c: seq<Irp>, i: nat): Irp? { if i + 1 < |c| then c[i + 1] else null }

  /** The IRPs of c are chained by their links, in this order. */
  ghost predicate Chained(c: seq<Irp>)
    reads c`next
  {
    forall i {:trigger After(c, i)} :: 0 <= i < |c| ==> c[i].next == After(c, i)
  }

  /** The record d counts and chains exactly the IRPs of c; d is never empty. */
  ghost predicate Records(d: Dest, c: seq<Irp>)
    reads d, c`next
  {
    && c != [] && Chained(c)
    && d.nextIrp == c[0] && d.refc == |c| && d.nextLength == c[0].PayloadLen()
  }

  /** V4vCsqChainIrp. */
  method ChainIrp(d: Dest, irp: Irp, front: bool, ghost c: seq<Irp>)
    requires c != [] && Chained(c) && Distinct(c) && d.nextIrp == c[0] && d.nextLength == c[0].PayloadLen()
    requires irp !in c && irp.next == null
    modifies d`nextIrp, d`nextLength, irp`next, c`next
    ensures Chained(if front then [irp] + c else c + [irp])
    ensures d.nextIrp == (if front then irp else c[0]) && d.nextLength == d.nextIrp.PayloadLen()
  {
    if front {
      irp.next := d.nextIrp;
      d.nextIrp := irp;
      d.nextLength := irp.PayloadLen();
      assert forall j :: 0 < j <= |c| ==> ([irp] + c)[j] == c[j - 1] && After([irp] + c, j) == After(c, j - 1);
    } else {
      var nextIrp := d.nextIrp;
      ghost var i := 0;
      while nextIrp.next != null
        invariant 0 <= i < |c| && nextIrp == c[i]
        invariant Chained(c) && irp.next == null && d.nextIrp == c[0] && d.nextLength == c[0].PayloadLen()
        decreases |c| - i
      {
        assert c[i].next == After(c, i);
        nextIrp := nextIrp.next;
        i := i + 1;
      }
      assert c[i].next == After(c, i);
      nextIrp.next := irp;
      forall j | 0 <= j <= |c|
        ensures (c + [irp])[j].next == After(c + [irp], j)
      {
        assert j < |c| - 1 ==> c[j].next == After(c, j);
      }
    }
  }

  /** V4vCsqUnchainIrp, for the IRP that is the one with index k of the chain; the pointer it leaves in the
      record, which is then freed, is null here. */
  method UnchainIrp(d: Dest, irp: Irp, ghost c: seq<Irp>, ghost k: nat)
    requires Chained(c) && Distinct(c) && k < |c| && c[k] == irp && d.nextIrp == c[0] && d.nextLength == c[0].PayloadLen()
    modifies d`nextIrp, d`nextLength, c`next
    ensures Chained(Without(c, k)) && irp.next == null
    ensures d.nextIrp == if |c| == 1 then null else Without(c, k)[0]
    ensures d.nextIrp != null ==> d.nextLength == d.nextIrp.PayloadLen()
  {
    var last: Irp? := null;
    var curr := d.nextIrp;
    ghost var i := 0;
    while curr != irp
      invariant 0 <= i <= k && curr == c[i] && (last == if i == 0 then null else c[i - 1])
      invariant Chained(c) && d.nextIrp == c[0] && d.nextLength == c[0].PayloadLen()
      decreases k - i
    {
      assert c[i].next == After(c, i);
      last, curr := curr, curr.next;
      i := i + 1;
    }
    if last == null {
      d.nextIrp := irp.next;
      if d.nextIrp != null {
        d.nextLength := d.nextIrp.PayloadLen();
      }
    } else {
      last.next := irp.next;
    }
    irp.next := null;
    WithoutAfter(c, k);
  }

  lemma WithoutAfter(c: seq<Irp>, k: nat)
    requires k < |c|
    ensures forall j :: 0 <= j < |c| - 1 ==> Without(c, k)[j] == c[if j < k then j else j + 1]
    ensures forall j :: 0 <= j < |c| - 1 ==> After(Without(c, k), j) == After(c, if j + 1 < k then j else j + 1)
  {
  }

  /** Record k is that of chain k; the chains are made of different IRPs from the pool. */
  ghost predicate AllRecorded(dests: seq<Dest>, chains: seq<seq<Irp>>, pool: set<Irp>)
    reads dests, pool`next
  {
    && Separate(dests, chains, pool)
    && (forall k :: 0 <= k < |dests| ==> Records(dests[k], chains[k]))
  }

  ghost predicate Separate(dests: seq<Dest>, chains: seq<seq<Irp>>, pool: set<Irp>) {
    && |chains| == |dests| && Distinct(dests)
    && (forall k :: 0 <= k < |dests| ==> Distinct(chains[k]))
    && (forall k, i :: 0 <= k < |dests| && 0 <= i < |chains[k]| ==> chains[k][i] in pool)
    && (forall k, i, l, j :: 0 <= k < l < |dests| && 0 <= i < |chains[k]| && 0 <= j < |chains[l]| ==> chains[k][i] != chains[l][j])
  }

  /** The queue, or a chain, with a new IRP in it. */
  function Inserted(q: seq<Irp>, irp: Irp, front: bool): seq<Irp> { if front then [irp] + q else q + [irp] }

  /** The part of V4vCsqLinkDestination for a destination that is on record. */
  method ChainAt(dests: seq<Dest>, k: nat, irp: Irp, front: bool, ghost chains: seq<seq<Irp>>, ghost pool: set<Irp>)
    requires AllRecorded(dests, chains, pool) && k < |dests| && irp !in pool && irp.next == null
    modifies irp`next, chains[k]`next, dests[k]
    ensures Records(dests[k], Inserted(chains[k], irp, front))
    ensures forall l :: 0 <= l < |dests| && l != k ==> Records(dests[l], chains[l])
  {
    var d := dests[k];
    ghost var c := chains[k];
    assert Records(d, c);
    d.refc := d.refc + 1;
    ChainIrp(d, irp, front, c);
    forall l | 0 <= l < |dests| && l != k
      ensures Records(dests[l], chains[l])
    {
      assert forall i :: 0 <= i < |chains[l]| ==> chains[l][i] !in c;
    }
  }

  // ----- The summary, before and after

  ghost predicate HasRecord(dests: seq<Dest>, a: Addr) { exists k :: 0 <= k < |dests| && dests[k].dst == a }

  /** The chains are the pending writes of q, destination by destination. */
  ghost predicate Summary(dests: seq<Dest>, chains: seq<seq<Irp>>, q: seq<Irp>, rec: map<Irp, Addr>) {
    && Distinct(q) && |chains| == |dests| && Distinct(dests)
    && (forall k, l :: 0 <= k < l < |dests| ==> dests[k].dst != dests[l].dst)
    && (forall k :: 0 <= k < |dests| ==> chains[k] == WritesTo(q, rec, dests[k].dst))
    && Covered(dests, q, rec)
  }

  ghost predicate Covered(dests: seq<Dest>, q: seq<Irp>, rec: map<Irp, Addr>) {
    forall i {:trigger HasRecord(dests, rec[q[i]])} :: 0 <= i < |q| && q[i] in rec ==> HasRecord(dests, rec[q[i]])
  }

  function Irps(q: seq<Irp>): set<Irp> { set x | x in q }

  lemma SummarySeparate(dests: seq<Dest>, chains: seq<seq<Irp>>, q: seq<Irp>, rec: map<Irp, Addr>)
    requires Summary(dests, chains, q, rec)
    ensures Separate(dests, chains, Irps(q))
  {
    forall k | 0 <= k < |dests|
      ensures Distinct(chains[k])
    {
      WritesDistinct(q, rec, dests[k].dst);
    }
  }

  lemma InsertedWrites(q: seq<Irp>, rec: map<Irp, Addr>, x: Irp, b: Addr, front: bool, a: Addr)
    requires x !in q
    ensures (WritesTo(Inserted(q, x, front), rec[x := b], a)
             == if b == a then Inserted(WritesTo(q, rec, a), x, front) else WritesTo(q, rec, a))
  {
    WritesOther(q, rec, x, b, a);
    WritesOne(x, rec[x := b], a);
    WritesAppend([x], q, rec[x := b], a);
    WritesAppend(q, [x], rec[x := b], a);
    assert [] + WritesTo(q, rec, a) == WritesTo(q, rec, a) == WritesTo(q, rec, a) + [];
  }

  lemma InsertedDistinct(q: seq<Irp>, x: Irp, front: bool)
    requires Distinct(q) && x !in q
    ensures Distinct(Inserted(q, x, front)) && Irps(Inserted(q, x, front)) == Irps(q) + {x}
    ensures forall i :: 0 <= i <= |q| ==> Inserted(q, x, front)[i] == x || Inserted(q, x, front)[i] in q
  {
    assert forall y :: y in Inserted(q, x, front) <==> y in q || y == x;
  }

  lemma InsertedCovered(dests: seq<Dest>, q: seq<Irp>, rec: map<Irp, Addr>, x: Irp, b: Addr, front: bool)
    requires Covered(dests, q, rec) && HasRecord(dests, b) && x !in q
    ensures Covered(dests, Inserted(q, x, front), rec[x := b])
  {
    var r := Inserted(q, x, front);
    forall i | 0 <= i < |r| && r[i] in rec[x := b]
      ensures HasRecord(dests, rec[x := b][r[i]])
    {
      assert r[i] == x || r[i] in q;
    }
  }

  /** The IRP x for destination b belongs to the record with index k. */
  lemma SummaryChained(dests: seq<Dest>, chains: seq<seq<Irp>>, q: seq<Irp>, rec: map<Irp, Addr>, x: Irp, front: bool, k: nat)
    requires Summary(dests, chains, q, rec) && x !in q && k < |dests|
    ensures Summary(dests, chains[k := Inserted(chains[k], x, front)], Inserted(q, x, front), rec[x := dests[k].dst])
  {
    var b := dests[k].dst;
    InsertedDistinct(q, x, front);
    InsertedCovered(dests, q, rec, x, b, front);
    forall l | 0 <= l < |dests|
      ensures chains[k := Inserted(chains[k], x, front)][l] == WritesTo(Inserted(q, x, front), rec[x := b], dests[l].dst)
    {
      InsertedWrites(q, rec, x, b, front, dests[l].dst);
    }
  }

  /** The IRP x gets a record of its own. */
  lemma SummaryNew(dests: seq<Dest>, chains: seq<seq<Irp>>, q: seq<Irp>, rec: map<Irp, Addr>, x: Irp, front: bool, d: Dest)
    requires Summary(dests, chains, q, rec) && x !in q && d !in dests && !HasRecord(dests, d.dst)
    ensures Summary(dests + [d], chains + [[x]], Inserted(q, x, front), rec[x := d.dst])
  {
    InsertedDistinct(q, x, front);
    forall l | 0 <= l <= |dests|
      ensures (chains + [[x]])[l] == WritesTo(Inserted(q, x, front), rec[x := d.dst], (dests + [d])[l].dst)
    {
      InsertedWrites(q, rec, x, d.dst, front, (dests + [d])[l].dst);
      if l == |dests| {
        NoWrites(dests, q, rec, d.dst);
      }
    }
    MoreCovered(dests, q, rec, d);
    assert (dests + [d])[|dests|].dst == d.dst;
    InsertedCovered(dests + [d], q, rec, x, d.dst, front);
  }

  lemma NoWrites(dests: seq<Dest>, q: seq<Irp>, rec: map<Irp, Addr>, a: Addr)
    requires !HasRecord(dests, a) && Covered(dests, q, rec)
    ensures WritesTo(q, rec, a) == []
  {
  }

  lemma MoreCovered(dests: seq<Dest>, q: seq<Irp>, rec: map<Irp, Addr>, d: Dest)
    requires Covered(dests, q, rec)
    ensures Covered(dests + [d], q, rec)
  {
    forall a | HasRecord(dests, a)
      ensures HasRecord(dests + [d], a)
    {
      var k :| 0 <= k < |dests| && dests[k].dst == a;
      assert (dests + [d])[k].dst == a;
    }
  }

  /** An IRP that is not a write concerns no record. */
  lemma SummaryOther(dests: seq<Dest>, chains: seq<seq<Irp>>, q: seq<Irp>, rec: map<Irp, Addr>, x: Irp, front: bool)
    requires Summary(dests, chains, q, rec) && x !in q && x !in rec
    ensures Summary(dests, chains, Inserted(q, x, front), rec)
  {
    InsertedDistinct(q, x, front);
    forall l | 0 <= l < |dests|
      ensures chains[l] == WritesTo(Inserted(q, x, front), rec, dests[l].dst)
    {
      var a := dests[l].dst;
      WritesOne(x, rec, a);
      WritesAppend([x], q, rec, a);
      WritesAppend(q, [x], rec, a);
    }
    forall i | 0 <= i <= |q| && Inserted(q, x, front)[i] in rec
      ensures HasRecord(dests, rec[Inserted(q, x, front)[i]])
    {
      assert Inserted(q, x, front)[i] in q;
    }
  }

  lemma WithoutWrites(q: seq<Irp>, rec: map<Irp, Addr>, p: nat, a: Addr)
    requires p < |q|
    ensures var i, w := |WritesTo(q[..p], rec, a)|, WritesTo(q, rec, a);
            if q[p] in rec && rec[q[p]] == a then
              i < |w| && w[i] == q[p] && WritesTo(Without(q, p), rec, a) == Without(w, i)
            else
              WritesTo(Without(q, p), rec, a) == w
  {
    assert q == q[..p] + [q[p]] + q[p + 1..];
    WithoutMiddle(q[..p], q[p], q[p + 1..], rec, a);
  }

  lemma WithoutMiddle(u: seq<Irp>, x: Irp, v: seq<Irp>, rec: map<Irp, Addr>, a: Addr)
    ensures var i, w := |WritesTo(u, rec, a)|, WritesTo(u + [x] + v, rec, a);
            if x in rec && rec[x] == a then i < |w| && w[i] == x && WritesTo(u + v, rec, a) == Without(w, i)
            else WritesTo(u + v, rec, a) == w
  {
    WritesAppend(u, v, rec, a);
    WritesAppend(u + [x], v, rec, a);
    WritesAppend(u, [x], rec, a);
    WritesOne(x, rec, a);
    WithoutAt(WritesTo(u, rec, a), x, WritesTo(v, rec, a));
  }

  lemma WithoutAt(u: seq<Irp>, x: Irp, v: seq<Irp>)
    ensures Without(u + [x] + v, |u|) == u + v && (u + [x] + v)[|u|] == x && u + [] + v == u + v
  {
  }

  lemma WithoutDistinct<T>(s: seq<T>, p: nat)
    requires Distinct(s) && p < |s|
    ensures Distinct(Without(s, p)) && s[p] !in Without(s, p)
    ensures forall i :: 0 <= i < |s| - 1 ==> Without(s, p)[i] == s[if i < p then i else i + 1]
  {
  }

  /** Where the IRP with index p is in the chain for its destination. */
  function ChainIndex(q: seq<Irp>, rec: map<Irp, Addr>, p: nat): nat
    requires p < |q| && q[p] in rec
  {
    |WritesTo(q[..p], rec, rec[q[p]])|
  }

  /** Record k loses the IRP with index p of the queue, and perhaps its only one. */
  lemma SummaryUnchained(dests: seq<Dest>, chains: seq<seq<Irp>>, q: seq<Irp>, rec: map<Irp, Addr>, p: nat, k: nat)
    requires Summary(dests, chains, q, rec) && p < |q| && q[p] in rec && k < |dests| && dests[k].dst == rec[q[p]]
    ensures var i := ChainIndex(q, rec, p);
            && i < |chains[k]| && chains[k][i] == q[p]
            && Summary(dests, chains[k := Without(chains[k], i)], Without(q, p), rec)
  {
    WithoutDistinct(q, p);
    WithoutWrites(q, rec, p, dests[k].dst);
    var i := ChainIndex(q, rec, p);
    forall l | 0 <= l < |dests|
      ensures chains[k := Without(chains[k], i)][l] == WritesTo(Without(q, p), rec, dests[l].dst)
    {
      WithoutWrites(q, rec, p, dests[l].dst);
    }
  }

  /** A record without IRPs can go. */
  lemma SummaryDropped(dests: seq<Dest>, chains: seq<seq<Irp>>, q: seq<Irp>, rec: map<Irp, Addr>, k: nat)
    requires Summary(dests, chains, q, rec) && k < |dests| && chains[k] == []
    ensures Summary(Without(dests, k), Without(chains, k), q, rec)
  {
    WithoutDistinct(dests, k);
    var ds, cs := Without(dests, k), Without(chains, k);
    assert forall l :: 0 <= l < |ds| ==> ds[l] == dests[if l < k then l else l + 1] && cs[l] == chains[if l < k then l else l + 1];
    forall i | 0 <= i < |q| && q[i] in rec
      ensures HasRecord(ds, rec[q[i]])
    {
      StillRecorded(dests, q, rec, i, k);
    }
  }

  lemma StillRecorded(dests: seq<Dest>, q: seq<Irp>, rec: map<Irp, Addr>, i: nat, k: nat)
    requires i < |q| && q[i] in rec && HasRecord(dests, rec[q[i]]) && k < |dests| && WritesTo(q, rec, dests[k].dst) == []
    ensures HasRecord(Without(dests, k), rec[q[i]])
  {
    var l :| 0 <= l < |dests| && dests[l].dst == rec[q[i]];
    if l == k {
      WritesHas(q, rec, i, dests[k].dst);
      assert false;
    } else {
      assert Without(dests, k)[if l < k then l else l - 1].dst == rec[q[i]];
    }
  }

  lemma SummaryWithoutOther(dests: seq<Dest>, chains: seq<seq<Irp>>, q: seq<Irp>, rec: map<Irp, Addr>, p: nat)
    requires Summary(dests, chains, q, rec) && p < |q| && q[p] !in rec
    ensures Summary(dests, chains, Without(q, p), rec)
  {
    WithoutDistinct(q, p);
    forall l | 0 <= l < |dests|
      ensures chains[l] == WritesTo(Without(q, p), rec, dests[l].dst)
    {
      WithoutWrites(q, rec, p, dests[l].dst);
    }
  }

  // ----- The device extension's queue and records

  /** What the IRPs' own records say. */
  ghost predicate OnRecord(q: seq<Irp>, rec: map<Irp, Addr>)
    reads q`linked, q`dst
  {
    forall i :: 0 <= i < |q| ==> (q[i].linked <==> q[i] in rec) && (q[i] in rec ==> q[i].dst == rec[q[i]])
  }

  lemma NewRecorded(dests: seq<Dest>, chains: seq<seq<Irp>>, pool: set<Irp>, d: Dest, irp: Irp)
    requires AllRecorded(dests, chains, pool) && d !in dests && irp !in pool && irp.next == null
    requires d.refc == 1 && d.nextIrp == irp && d.nextLength == irp.PayloadLen()
    ensures AllRecorded(dests + [d], chains + [[irp]], pool + {irp})
  {
    assert Records(d, [irp]);
  }

  lemma InsertedOnRecord(q: seq<Irp>, rec: map<Irp, Addr>, irp: Irp, front: bool)
    requires OnRecord(q, rec) && irp !in q && irp.linked
    ensures OnRecord(Inserted(q, irp, front), rec[irp := irp.dst])
  {
    var r := Inserted(q, irp, front);
    assert forall i :: 0 <= i < |r| ==> r[i] == irp || r[i] in q;
  }

  /** The unchaining in V4vCsqUnlinkDestination: the other records stay as they are. */
  method UnchainAt(dests: seq<Dest>, k: nat, irp: Irp, ghost chains: seq<seq<Irp>>, ghost pool: set<Irp>, ghost i: nat)
    requires AllRecorded(dests, chains, pool) && k < |dests| && i < |chains[k]| && chains[k][i] == irp
    modifies dests[k], chains[k]`next
    ensures dests[k].refc == |chains[k]| - 1
    ensures |chains[k]| > 1 ==> Records(dests[k], Without(chains[k], i))
    ensures forall l :: 0 <= l < |dests| && l != k ==> Records(dests[l], chains[l])
  {
    var d := dests[k];
    ghost var c := chains[k];
    assert Records(d, c);
    UnchainIrp(d, irp, c, i);
    d.refc := d.refc - 1;
    forall l | 0 <= l < |dests| && l != k
      ensures Records(dests[l], chains[l])
    {
      assert forall j :: 0 <= j < |chains[l]| ==> chains[l][j] !in c;
    }
  }

  /** The three parts of what holds between records, chains and queue. */
  ghost predicate InOrder(dests: seq<Dest>, chains: seq<seq<Irp>>, q: seq<Irp>, rec: map<Irp, Addr>)
    reads dests, q
  {
    Summary(dests, chains, q, rec) && AllRecorded(dests, chains, Irps(q)) && OnRecord(q, rec)
  }

  /** Chaining an IRP whose destination is on record. */
  method ChainExisting(dests: seq<Dest>, ghost chains: seq<seq<Irp>>, ghost q: seq<Irp>, ghost rec: map<Irp, Addr>,
                       irp: Irp, front: bool, k: nat)
    requires InOrder(dests, chains, q, rec) && irp !in q && irp.linked && irp.next == null
    requires k < |dests| && dests[k].dst == irp.dst
    modifies irp`next, q`next, dests[k]
    ensures InOrder(dests, chains[k := Inserted(chains[k], irp, front)], Inserted(q, irp, front), rec[irp := irp.dst])
  {
    SummaryChained(dests, chains, q, rec, irp, front, k);
    ChainAt(dests, k, irp, front, chains, Irps(q));
    ChainedInOrder(dests, chains[k := Inserted(chains[k], irp, front)], q, rec, irp, front);
  }

  lemma ChainedInOrder(dests: seq<Dest>, cs: seq<seq<Irp>>, q: seq<Irp>, rec: map<Irp, Addr>, irp: Irp, front: bool)
    requires Summary(dests, cs, Inserted(q, irp, front), rec[irp := irp.dst]) && OnRecord(q, rec)
    requires irp !in q && irp.linked
    requires forall l :: 0 <= l < |dests| ==> Records(dests[l], cs[l])
    ensures InOrder(dests, cs, Inserted(q, irp, front), rec[irp := irp.dst])
  {
    SummarySeparate(dests, cs, Inserted(q, irp, front), rec[irp := irp.dst]);
    InsertedOnRecord(q, rec, irp, front);
  }

  /** A record for a new destination. */
  method NewDest(dests: seq<Dest>, ghost chains: seq<seq<Irp>>, ghost q: seq<Irp>, ghost rec: map<Irp, Addr>, irp: Irp, front: bool)
      returns (ds: seq<Dest>, ghost cs: seq<seq<Irp>>)
    requires InOrder(dests, chains, q, rec) && irp !in q && irp.linked && irp.next == null
    requires !HasRecord(dests, irp.dst)
    ensures InOrder(ds, cs, Inserted(q, irp, front), rec[irp := irp.dst]) && |ds| == |dests| + 1
  {
    var d := new Dest(irp.dst, irp);
    InsertedDistinct(q, irp, front);
    SummaryNew(dests, chains, q, rec, irp, front, d);
    NewRecorded(dests, chains, Irps(q), d, irp);
    InsertedOnRecord(q, rec, irp, front);
    ds, cs := dests + [d], chains + [[irp]];
    assert Summary(ds, cs, Inserted(q, irp, front), rec[irp := irp.dst]);
    assert AllRecorded(ds, cs, Irps(Inserted(q, irp, front)));
    assert OnRecord(Inserted(q, irp, front), rec[irp := irp.dst]);
  }

  /** The record k loses the IRP with index p of the queue; if that leaves it without IRPs, it is dropped. */
  method UnchainExisting(dests: seq<Dest>, ghost chains: seq<seq<Irp>>, ghost q: seq<Irp>, ghost rec: map<Irp, Addr>,
                         irp: Irp, ghost p: nat, k: nat)
      returns (ds: seq<Dest>, ghost cs: seq<seq<Irp>>, dropped: bool)
    requires InOrder(dests, chains, q, rec) && p < |q| && q[p] == irp && irp.linked
    requires k < |dests| && dests[k].dst == irp.dst
    modifies q`next, dests[k]
    ensures InOrder(ds, cs, Without(q, p), rec) && |ds| == if dropped then |dests| - 1 else |dests|
  {
    ghost var i := ChainIndex(q, rec, p);
    SummaryUnchained(dests, chains, q, rec, p, k);
    UnchainAt(dests, k, irp, chains, Irps(q), i);
    ds, cs, dropped := dests, chains[k := Without(chains[k], i)], dests[k].refc == 0;
    if dropped {
      DroppedInOrder(dests, cs, q, rec, p, k);
      ds, cs := Without(dests, k), Without(cs, k);
    } else {
      KeptInOrder(dests, cs, q, rec, p, k);
    }
  }

  lemma KeptInOrder(dests: seq<Dest>, cs: seq<seq<Irp>>, q: seq<Irp>, rec: map<Irp, Addr>, p: nat, k: nat)
    requires p < |q| && Distinct(q) && Summary(dests, cs, Without(q, p), rec) && OnRecord(q, rec)
    requires k < |dests| && forall l :: 0 <= l < |dests| ==> Records(dests[l], cs[l])
    ensures InOrder(dests, cs, Without(q, p), rec)
  {
    WithoutDistinct(q, p);
    SummarySeparate(dests, cs, Without(q, p), rec);
  }

  lemma DroppedInOrder(dests: seq<Dest>, cs: seq<seq<Irp>>, q: seq<Irp>, rec: map<Irp, Addr>, p: nat, k: nat)
    requires p < |q| && Distinct(q) && Summary(dests, cs, Without(q, p), rec) && OnRecord(q, rec)
    requires k < |dests| && cs[k] == [] && forall l :: 0 <= l < |dests| && l != k ==> Records(dests[l], cs[l])
    ensures InOrder(Without(dests, k), Without(cs, k), Without(q, p), rec)
  {
    WithoutDistinct(q, p);
    WithoutDistinct(dests, k);
    SummaryDropped(dests, cs, Without(q, p), rec, k);
    var ds, es := Without(dests, k), Without(cs, k);
    assert forall l :: 0 <= l < |ds| ==> ds[l] == dests[if l < k then l else l + 1] && es[l] == cs[if l < k then l else l + 1];
    SummarySeparate(ds, es, Without(q, p), rec);
  }

  lemma WithoutOther(dests: seq<Dest>, chains: seq<seq<Irp>>, q: seq<Irp>, rec: map<Irp, Addr>, p: nat)
    requires InOrder(dests, chains, q, rec) && p < |q| && !q[p].linked
    ensures InOrder(dests, chains, Without(q, p), rec)
  {
    WithoutDistinct(q, p);
    SummaryWithoutOther(dests, chains, q, rec, p);
    SummarySeparate(dests, chains, Without(q, p), rec);
  }

  lemma InsertedOther(dests: seq<Dest>, chains: seq<seq<Irp>>, q: seq<Irp>, rec: map<Irp, Addr>, irp: Irp, front: bool)
    requires InOrder(dests, chains, q, rec) && irp !in q && !irp.linked
    ensures InOrder(dests, chains, Inserted(q, irp, front), rec - {irp})
  {
    var r := rec - {irp};
    InsertedDistinct(q, irp, front);
    assert Summary(dests, chains, q, r) by { LessRecorded(dests, chains, q, rec, irp); }
    SummaryOther(dests, chains, q, r, irp, front);
    SummarySeparate(dests, chains, Inserted(q, irp, front), r);
  }

  lemma LessRecorded(dests: seq<Dest>, chains: seq<seq<Irp>>, q: seq<Irp>, rec: map<Irp, Addr>, irp: Irp)
    requires Summary(dests, chains, q, rec) && irp !in q
    ensures Summary(dests, chains, q, rec - {irp})
  {
    forall l | 0 <= l < |dests|
      ensures chains[l] == WritesTo(q, rec - {irp}, dests[l].dst)
    {
      WritesLess(q, rec, irp, dests[l].dst);
    }
    forall i | 0 <= i < |q| && q[i] in rec - {irp}
      ensures HasRecord(dests, (rec - {irp})[q[i]])
    {
      assert HasRecord(dests, rec[q[i]]);
    }
  }

  lemma {:induction false} WritesLess(q: seq<Irp>, rec: map<Irp, Addr>, x: Irp, a: Addr)
    requires x !in q
    ensures WritesTo(q, rec - {x}, a) == WritesTo(q, rec, a)
  {
    if q != [] {
      assert q[0] in q;
      WritesLess(q[1..], rec, x, a);
    }
  }

  /** XENV4V_QPEEK; without a file object the search is by destination, or for anything of the right kind. */
  datatype Peek = Peek(pfo: Option<nat>, types: set<Flag>, ops: set<Flag>, dst: Addr)

  /** V4vCsqPeekTest. */
  predicate PeekTest(irp: Irp, qp: Peek)
    reads irp
  {
    && qp.types * irp.flags * TYPES != {}
    && qp.ops * irp.flags * OPS != {}
    && (if qp.pfo.None? then qp.dst.domain == DOMID_INVALID || irp.dst == qp.dst else irp.fileObject == qp.pfo.value)
  }

  /** v4v_ring_data_ent_t. */
  datatype RingDataEnt = RingDataEnt(ring: Addr, spaceRequired: nat)

  lemma RecordedIff(dests: seq<Dest>, chains: seq<seq<Irp>>, q: seq<Irp>, rec: map<Irp, Addr>, a: Addr)
    requires InOrder(dests, chains, q, rec)
    ensures HasRecord(dests, a) <==> WritesTo(q, rec, a) != []
  {
    if HasRecord(dests, a) {
      var k :| 0 <= k < |dests| && dests[k].dst == a;
      assert Records(dests[k], chains[k]);
    } else {
      NoWrites(dests, q, rec, a);
    }
  }

  /** Exactly the writes have records. */
  ghost predicate WritesLinked(q: seq<Irp>)
    reads q`linked
  {
    forall i :: 0 <= i < |q| ==> (q[i].linked <==> q[i].IsWrite())
  }

  datatype Status = Success | QuotaExceeded | NoMemory

  class Extension {
    var queue: seq<Irp>
    var dests: seq<Dest>
    var pendingIrpCount: nat
    var destCount: nat
    ghost var chains: seq<seq<Irp>>
    ghost var rec: map<Irp, Addr>

    /** Every record describes its chain, and the chains are the pending writes by destination. */
    ghost predicate Summarised()
      reads this, queue, dests
    {
      InOrder(dests, chains, queue, rec) && destCount == |dests|
    }

    ghost predicate Valid()
      reads this, queue, dests
    {
      && Summarised()
      && pendingIrpCount == |queue| <= XENV4V_MAX_IRP_COUNT
      && WritesLinked(queue)
    }

    constructor ()
      ensures Valid() && queue == [] && dests == []
    {
      queue, dests, pendingIrpCount, destCount, chains, rec := [], [], 0, 0, [], map[];
    }

    /** What V4vCsqInsertIrpEx and V4vCsqRemoveIrp assert: without pending IRPs there are no records. */
    lemma EmptyMeansNoDests()
      requires Valid()
      ensures pendingIrpCount != 0 || destCount == 0
    {
      if dests != [] {
        assert Records(dests[0], chains[0]);
      }
    }

    /** The search of V4vCsqLinkDestination and V4vCsqUnlinkDestination. */
    method Find(a: Addr) returns (k: nat)
      ensures k <= |dests| && (k < |dests| ==> dests[k].dst == a)
      ensures k == |dests| ==> !HasRecord(dests, a)
    {
      k := 0;
      while k < |dests| && dests[k].dst != a
        invariant k <= |dests| && forall l :: 0 <= l < k ==> dests[l].dst != a
      {
        k := k + 1;
      }
    }

    /** The new lists, once they are in order. */
    method Update(ds: seq<Dest>, q: seq<Irp>, ghost cs: seq<seq<Irp>>, ghost r: map<Irp, Addr>)
      requires InOrder(ds, cs, q, r) && destCount == |ds|
      modifies `dests, `chains, `queue, `rec
      ensures Summarised() && queue == q && dests == ds
    {
      dests, chains, queue, rec := ds, cs, q, r;
    }

    /** V4vCsqLinkDestination once the IRP has its record; allocDest says whether a new destination record can
        be allocated. */
    method Link(irp: Irp, front: bool, allocDest: bool) returns (ok: bool, ds: seq<Dest>, ghost cs: seq<seq<Irp>>)
      requires Summarised() && irp !in queue && irp.linked && irp.next == null
      modifies `destCount, irp`next, queue`next, dests
      ensures ok <==> allocDest || old(HasRecord(dests, irp.dst))
      ensures !ok ==> Summarised()
      ensures ok ==> InOrder(ds, cs, Inserted(queue, irp, front), rec[irp := irp.dst]) && destCount == |ds|
    {
      var k := Find(irp.dst);
      ds, cs, ok := dests, chains, true;
      if k < |dests| {
        ChainExisting(dests, chains, queue, rec, irp, front, k);
        cs := chains[k := Inserted(chains[k], irp, front)];
      } else if allocDest {
        ds, cs := NewDest(dests, chains, queue, rec, irp, front);
        destCount := destCount + 1;
      } else {
        ok := false;
      }
    }

    method MakeRecord(irp: Irp)
      requires Summarised() && irp !in queue
      modifies irp
      ensures Summarised() && irp.linked && irp.dst == irp.Destination() && irp.next == null
    {
      irp.dst, irp.linked, irp.next := irp.Destination(), true, null;
    }

    /** The write part of V4vCsqInsertIrpEx, and the insertion into the queue. */
    method InsertWrite(irp: Irp, front: bool, allocRecord: bool, allocDest: bool) returns (ok: bool)
      requires Summarised() && irp !in queue && !irp.linked
      modifies `dests, `chains, `queue, `rec, `destCount, irp, queue`next, dests
      ensures Summarised() && irp.linked == ok
      ensures ok <==> allocRecord && (allocDest || old(HasRecord(dests, irp.Destination())))
      ensures if ok then queue == Inserted(old(queue), irp, front) else queue == old(queue) && dests == old(dests)
      ensures ok ==> irp.dst == irp.Destination()
    {
      if !allocRecord {
        return false;
      }
      MakeRecord(irp);
      var ds;
      ghost var cs;
      ok, ds, cs := Link(irp, front, allocDest);
      if ok {
        Update(ds, Inserted(queue, irp, front), cs, rec[irp := irp.dst]);
      } else {
        DropRecord(irp);
      }
    }

    method InsertOther(irp: Irp, front: bool)
      requires Summarised() && irp !in queue && !irp.linked
      modifies `dests, `chains, `queue, `rec
      ensures Summarised() && queue == Inserted(old(queue), irp, front)
    {
      InsertedOther(dests, chains, queue, rec, irp, front);
      Update(dests, Inserted(queue, irp, front), chains, rec - {irp});
    }

    /** V4vCsqInsertIrpEx, if the queue is not full. */
    method Place(irp: Irp, front: bool, allocRecord: bool, allocDest: bool) returns (ok: bool)
      requires Summarised() && WritesLinked(queue) && irp !in queue && !irp.linked
      modifies `dests, `chains, `queue, `rec, `destCount, irp, queue`next, dests
      ensures Summarised() && WritesLinked(queue)
      ensures ok <==> !irp.IsWrite() || (allocRecord && (allocDest || old(HasRecord(dests, irp.Destination()))))
      ensures if ok then queue == Inserted(old(queue), irp, front) else queue == old(queue) && dests == old(dests)
      ensures irp.linked == (ok && irp.IsWrite()) && (irp.linked ==> irp.dst == irp.Destination())
    {
      if irp.IsWrite() {
        ok := InsertWrite(irp, front, allocRecord, allocDest);
      } else {
        InsertOther(irp, front);
        ok := true;
      }
    }

    /** V4vCsqInsertIrpEx. */
    method Insert(irp: Irp, front: bool, allocRecord: bool, allocDest: bool) returns (s: Status)
      requires Valid() && irp !in queue && !irp.linked
      modifies this, irp, queue`next, dests
      ensures Valid()
      ensures s.QuotaExceeded? <==> old(pendingIrpCount) == XENV4V_MAX_IRP_COUNT
      ensures (s.NoMemory? <==> old(pendingIrpCount) < XENV4V_MAX_IRP_COUNT && irp.IsWrite()
                                && !(allocRecord && (allocDest || old(HasRecord(dests, irp.Destination())))))
      ensures s.Success? ==> queue == Inserted(old(queue), irp, front)
      ensures s.Success? && irp.IsWrite() ==> irp.linked && irp.dst == irp.Destination()
      ensures !s.Success? ==> queue == old(queue) && dests == old(dests) && !irp.linked
    {
      if pendingIrpCount == XENV4V_MAX_IRP_COUNT {
        return QuotaExceeded;
      }
      var ok := Place(irp, front, allocRecord, allocDest);
      if !ok {
        return NoMemory;
      }
      pendingIrpCount := pendingIrpCount + 1;
      s := Success;
    }

    /** V4vCsqUnlinkDestination, and the removal from the queue. */
    method RemoveWrite(irp: Irp, p: nat)
      requires Summarised() && p < |queue| && queue[p] == irp && irp.linked
      modifies `dests, `chains, `queue, `rec, `destCount, queue`next, irp`linked, dests
      ensures Summarised() && queue == Without(old(queue), p) && !irp.linked
    {
      assert HasRecord(dests, rec[queue[p]]);
      var k := Find(irp.dst);
      var ds, dropped;
      ghost var cs;
      ds, cs, dropped := UnchainExisting(dests, chains, queue, rec, irp, p, k);
      WithoutDistinct(queue, p);
      if dropped {
        destCount := destCount - 1;
      }
      Update(ds, Without(queue, p), cs, rec);
      DropRecord(irp);
    }

    method DropRecord(irp: Irp)
      requires Summarised() && irp !in queue
      modifies irp`linked
      ensures Summarised() && !irp.linked
    {
      irp.linked := false;
    }

    /** V4vCsqRemoveIrp, for the IRP with index p. */
    method Remove(irp: Irp, p: nat)
      requires Valid() && p < |queue| && queue[p] == irp
      modifies this, queue`next, irp`linked, dests
      ensures Valid() && queue == Without(old(queue), p) && !irp.linked
    {
      WithoutDistinct(queue, p);
      if irp.IsWrite() {
        RemoveWrite(irp, p);
      } else {
        WithoutOther(dests, chains, queue, rec, p);
        Update(dests, Without(queue, p), chains, rec);
      }
      pendingIrpCount := pendingIrpCount - 1;
    }

    /** V4vCsqPeekNextIrp: the first IRP from index `from` on that passes the test, if there is a context.  A
        search by destination has to be for writes, since it looks at the IRPs' records. */
    method PeekNext(from: nat, qp: Option<Peek>) returns (k: nat)
      requires Valid() && from <= |queue|
      requires qp.Some? && qp.value.pfo.None? && qp.value.dst.domain != DOMID_INVALID ==> qp.value.ops <= {Write}
      ensures from <= k <= |queue|
      ensures qp.None? ==> k == from
      ensures qp.Some? ==> forall i :: from <= i < k ==> !PeekTest(queue[i], qp.value)
      ensures qp.Some? && k < |queue| ==> PeekTest(queue[k], qp.value)
      ensures (qp.Some? && qp.value.pfo.None? && qp.value.dst.domain != DOMID_INVALID && k < |queue|
               ==> queue[k] in rec && rec[queue[k]] == qp.value.dst)
    {
      k := from;
      while k < |queue|
        invariant from <= k <= |queue|
        invariant qp.None? ==> k == from
        invariant qp.Some? ==> forall i :: from <= i < k ==> !PeekTest(queue[i], qp.value)
      {
        if qp.None? || PeekTest(queue[k], qp.value) {
          return;
        }
        k := k + 1;
      }
    }

    /** V4vCopyDestinationRingData: what the hypervisor is told is one entry for every destination with pending
        writes, with the length of the first of them. */
    method CopyRingData() returns (data: seq<RingDataEnt>)
      requires Valid()
      ensures forall i, j :: 0 <= i < j < |data| ==> data[i].ring != data[j].ring
      ensures forall i :: 0 <= i < |data| ==> WritesTo(queue, rec, data[i].ring) != []
      ensures forall i :: 0 <= i < |data| ==> data[i].spaceRequired == WritesTo(queue, rec, data[i].ring)[0].PayloadLen()
      ensures forall a :: WritesTo(queue, rec, a) != [] ==> exists i :: 0 <= i < |data| && data[i].ring == a
    {
      data := [];
      var i := 0;
      while i < destCount
        invariant 0 <= i == |data| <= destCount
        invariant forall j :: 0 <= j < i ==> data[j] == RingDataEnt(dests[j].dst, dests[j].nextLength)
      {
        data := data + [RingDataEnt(dests[i].dst, dests[i].nextLength)];
        i := i + 1;
      }
      DataIsSummary(dests, chains, queue, rec, data);
    }
  }

  lemma DataIsSummary(dests: seq<Dest>, chains: seq<seq<Irp>>, q: seq<Irp>, rec: map<Irp, Addr>, data: seq<RingDataEnt>)
    requires InOrder(dests, chains, q, rec) && |data| == |dests|
    requires forall j :: 0 <= j < |dests| ==> data[j] == RingDataEnt(dests[j].dst, dests[j].nextLength)
    ensures forall i, j :: 0 <= i < j < |data| ==> data[i].ring != data[j].ring
    ensures forall i :: 0 <= i < |data| ==> WritesTo(q, rec, data[i].ring) != []
    ensures forall i :: 0 <= i < |data| ==> data[i].spaceRequired == WritesTo(q, rec, data[i].ring)[0].PayloadLen()
    ensures forall a :: WritesTo(q, rec, a) != [] ==> exists i :: 0 <= i < |data| && data[i].ring == a
  {
    forall i | 0 <= i < |data|
      ensures WritesTo(q, rec, data[i].ring) != []
      ensures data[i].spaceRequired == WritesTo(q, rec, data[i].ring)[0].PayloadLen()
    {
      assert Records(dests[i], chains[i]);
    }
    forall a | WritesTo(q, rec, a) != []
      ensures exists i :: 0 <= i < |data| && data[i].ring == a
    {
      RecordedIff(dests, chains, q, rec, a);
      var k :| 0 <= k < |dests| && dests[k].dst == a;
      assert data[k].ring == a;
    }
  }
}
