/** The backlog of a listening context (windows/xenv4v/rw.c, windows/xenv4v/ioctl.c): connection requests
    wait in a fixed array of records, threaded on a list in the order of their arrival. */
module SynBacklog {
  import opened Base
  import opened Xenv4v

  const V4V_SOMAXCONN: nat := 128

  datatype Syn = Syn(sdst: Addr, connId: nat)

  /** XENV4V_SYN; the links are indices into the array. */
  datatype Slot = Slot(next: Option<nat>, last: Option<nat>, pending: bool, syn: Syn)

  const ZERO_SLOT := Slot(None, None, false, Syn(Addr(0, 0), 0))

  datatype AcceptState = Accepting | Accepted | Disconnected

  /** A context that waits in an accept call. */
  class Accepter {
    var state: AcceptState
    var syn: Syn

    constructor ()
      ensures state == Accepting
    {
      state, syn := Accepting, Syn(Addr(0, 0), 0);
    }
  }

  // ----- The list through the slots

  /** What the element with index k of the list links to. */
  function After(order: seq<nat>, k: nat): Option<nat> { if k + 1 < |order| then Some(order[k + 1]) else None }

  /** The pending slots are those in the order, which the next links follow; the last links lead back,
      except that what the first slot's says does not matter. */
  ghost predicate Threaded(slots: seq<Slot>, order: seq<nat>) {
    && Distinct(order) && |order| <= |slots|
    && (forall k :: 0 <= k < |order| ==> order[k] < |slots| && slots[order[k]].pending)
    && (forall i {:trigger i in order} :: 0 <= i < |slots| && slots[i].pending ==> i in order)
    && (forall k {:trigger After(order, k)} :: 0 <= k < |order| ==> slots[order[k]].next == After(order, k))
    && (forall k {:trigger After(order, k)} :: 0 <= k < |order| - 1 ==> slots[order[k + 1]].last == Some(order[k]))
  }

  /** The waiting requests, oldest first. */
  function Waiting(slots: seq<Slot>, order: seq<nat>): (w: seq<Syn>)
    requires forall k :: 0 <= k < |order| ==> order[k] < |slots|
    ensures |w| == |order| && forall k :: 0 <= k < |w| ==> w[k] == slots[order[k]].syn
  {
    seq(|order|, k requires 0 <= k < |order| => slots[order[k]].syn)
  }

  /** With fewer pending slots than there are, one is free. */
  lemma FreeSlot(slots: seq<Slot>, order: seq<nat>)
    requires Threaded(slots, order) && |order| < |slots|
    ensures exists i :: 0 <= i < |slots| && !slots[i].pending
  {
    ElementsSize(order);
    BelowSize(|slots|);
    if forall i :: 0 <= i < |slots| ==> slots[i].pending {
      assert forall i :: i in Below(|slots|) ==> i in order;
      SubsetSize(Below(|slots|), Elements(order));
      assert false;
    }
  }

  function Elements(order: seq<nat>): set<nat> { set i | i in order }

  lemma {:induction false} ElementsSize(order: seq<nat>)
    ensures |Elements(order)| <= |order|
  {
    if order != [] {
      ElementsSize(order[1..]);
      assert Elements(order) == Elements(order[1..]) + {order[0]};
    }
  }

  /** Linking slot i in behind the others. */
  function Linked(slots: seq<Slot>, order: seq<nat>, i: nat, syn: Syn): seq<Slot>
    requires i < |slots| && forall k :: 0 <= k < |order| ==> order[k] < |slots|
  {
    if order == [] then slots[i := Slot(None, None, true, syn)]
    else
      var tail := order[|order| - 1];
      var s := slots[i := Slot(None, Some(tail), true, syn)];
      s[tail := s[tail].(next := Some(i))]
  }

  lemma LinkedAt(slots: seq<Slot>, order: seq<nat>, i: nat, syn: Syn, k: nat)
    requires Threaded(slots, order) && i < |slots| && !slots[i].pending && k <= |order|
    ensures var s, o := Linked(slots, order, i, syn), order + [i];
            && s[o[k]].pending && s[o[k]].next == After(o, k)
            && (k < |order| ==> s[o[k + 1]].last == Some(o[k]))
            && s[o[k]].syn == if k < |order| then slots[order[k]].syn else syn
  {
    if k < |order| {
      assert order[k] != i && slots[order[k]].next == After(order, k);
    }
  }

  lemma LinkedThreaded(slots: seq<Slot>, order: seq<nat>, i: nat, syn: Syn)
    requires Threaded(slots, order) && i < |slots| && !slots[i].pending && |order| < |slots|
    ensures Threaded(Linked(slots, order, i, syn), order + [i])
    ensures Waiting(Linked(slots, order, i, syn), order + [i]) == Waiting(slots, order) + [syn]
  {
    var s, o := Linked(slots, order, i, syn), order + [i];
    forall k | 0 <= k < |o|
      ensures o[k] < |s| && s[o[k]].pending && s[o[k]].next == After(o, k)
      ensures k < |order| ==> s[o[k + 1]].last == Some(o[k])
      ensures s[o[k]].syn == if k < |order| then slots[order[k]].syn else syn
    {
      LinkedAt(slots, order, i, syn, k);
    }
    assert i !in order;
    forall j | 0 <= j < |s| && s[j].pending
      ensures j in o
    {
      assert j == i || j in order;
    }
  }

  /** Taking the first slot out. */
  lemma PoppedThreaded(slots: seq<Slot>, order: seq<nat>)
    requires Threaded(slots, order) && order != []
    ensures Threaded(slots[order[0] := ZERO_SLOT], order[1..])
  {
    var s, o := slots[order[0] := ZERO_SLOT], order[1..];
    forall k | 0 <= k < |o|
      ensures s[o[k]] == slots[order[k + 1]] && s[o[k]].next == After(o, k)
      ensures k < |o| - 1 ==> s[o[k + 1]].last == Some(o[k])
    {
      assert order[k + 1] != order[0] && slots[order[k + 1]].next == After(order, k + 1);
    }
    forall j | 0 <= j < |s| && s[j].pending
      ensures j in o
    {
      assert j in order && j != order[0];
      var m :| 0 <= m < |order| && order[m] == j;
      assert o[m - 1] == j;
    }
  }

  lemma PoppedWaiting(slots: seq<Slot>, order: seq<nat>)
    requires order != [] && Distinct(order) && forall k :: 0 <= k < |order| ==> order[k] < |slots|
    ensures Waiting(slots, order) == [slots[order[0]].syn] + Waiting(slots[order[0] := ZERO_SLOT], order[1..])
  {
  }

  lemma AppendMiddle<T>(a: seq<T>, x: T, b: seq<T>)
    ensures a + ([x] + b) == a + [x] + b
  {
  }

  datatype ListenStatus = Listening | InvalidDeviceRequest | InvalidParameter | NoMemory

  /** V4vCtrlListen; a backlog of zero asks for the largest. */
  method Listen(bound: bool, requested: nat, canAllocate: bool) returns (s: ListenStatus, l: Listener?)
    ensures s.InvalidDeviceRequest? <==> !bound
    ensures s.InvalidParameter? <==> bound && requested > V4V_SOMAXCONN
    ensures s.NoMemory? <==> bound && requested <= V4V_SOMAXCONN && !canAllocate
    ensures s.Listening? <==> l != null
    ensures l != null ==> fresh(l) && fresh(l.slots) && l.Valid() && l.order == []
    ensures l != null ==> l.backlog == if requested == 0 then V4V_SOMAXCONN else requested
  {
    l := null;
    if !bound {
      return InvalidDeviceRequest, null;
    }
    if requested > V4V_SOMAXCONN {
      return InvalidParameter, null;
    }
    if !canAllocate {
      return NoMemory, null;
    }
    l := new Listener(if requested == 0 then V4V_SOMAXCONN else requested);
    s := Listening;
  }

  class Listener {
    const backlog: nat
    const slots: array<Slot>
    var synHead: Option<nat>
    var synTail: Option<nat>
    var synCount: nat
    var receiveEvent: bool
    ghost var order: seq<nat>        // the pending slots, oldest first
    ghost var waiting: seq<Syn>      // the requests in them
    ghost var arrived: seq<Syn>      // the requests that were let in, ever
    ghost var accepted: seq<Syn>     // and those that were accepted

    ghost predicate Valid()
      reads this, slots
    {
      && slots.Length == backlog > 0 && Threaded(slots[..], order)
      && waiting == Waiting(slots[..], order) && synCount == |waiting|
      && synHead == (if order == [] then None else Some(order[0]))
      && synTail == (if order == [] then None else Some(order[|order| - 1]))
      && arrived == accepted + waiting
    }

    constructor (n: nat)
      requires n > 0
      ensures Valid() && fresh(slots) && backlog == n && order == [] && arrived == []
    {
      backlog := n;
      slots := new Slot[n](_ => ZERO_SLOT);
      synHead, synTail, synCount, receiveEvent := None, None, 0, false;
      order, waiting, arrived, accepted := [], [], [], [];
    }

    /** The search for a free record. */
    method FindFree() returns (i: nat)
      requires Valid() && synCount < backlog
      ensures i < backlog && !slots[i].pending
    {
      FreeSlot(slots[..], order);
      i := 0;
      while slots[i].pending
        invariant i < backlog && forall j :: 0 <= j < i ==> slots[j].pending
        decreases backlog - i
      {
        i := i + 1;
      }
    }

    /** Setting up record i and chaining it in. */
    method Link(i: nat, syn: Syn)
      requires slots.Length == backlog && i < backlog && !slots[i].pending && Threaded(slots[..], order)
      requires synTail == (if order == [] then None else Some(order[|order| - 1]))
      modifies slots, `synHead, `synTail
      ensures slots[..] == Linked(old(slots[..]), order, i, syn) && synTail == Some(i)
      ensures synHead == if order == [] then Some(i) else old(synHead)
    {
      slots[i] := Slot(None, None, true, syn);
      if synTail.Some? {
        slots[synTail.value] := slots[synTail.value].(next := Some(i));
        slots[i] := slots[i].(last := synTail);
        synTail := Some(i);
      } else {
        synHead := Some(i);
        synTail := Some(i);
      }
    }

    /** V4vProcessPreAcceptReads: a request joins the backlog, or is answered with a reset if it is full. */
    method Push(syn: Syn) returns (reset: bool)
      requires Valid()
      modifies this, slots
      ensures Valid() && accepted == old(accepted)
      ensures reset <==> |old(waiting)| == backlog
      ensures reset ==> waiting == old(waiting) && slots[..] == old(slots[..])
      ensures !reset ==> waiting == old(waiting) + [syn] && arrived == old(arrived) + [syn]
    {
      if synCount == backlog {
        return true;
      }
      var i := FindFree();
      LinkedThreaded(slots[..], order, i, syn);
      Link(i, syn);
      synCount := synCount + 1;
      order, waiting := order + [i], waiting + [syn];
      arrived := arrived + [syn];
      reset := false;
    }

    /** The new head and tail, once the first record goes. */
    method Unlink()
      requires order != [] && slots.Length == backlog && Threaded(slots[..], order)
      requires synHead == Some(order[0]) && synTail == Some(order[|order| - 1])
      modifies `synHead, `synTail
      ensures synHead == if |order| == 1 then None else Some(order[1])
      ensures synTail == if |order| == 1 then None else old(synTail)
    {
      if synHead != synTail {
        assert slots[..][order[0]].next == After(order, 0);
        synHead := slots[synHead.value].next;
      } else {
        synHead := None;
        synTail := None;
      }
    }

    /** The part of V4vDoAccepts that takes the oldest request off the list. */
    method Pop() returns (syn: Syn)
      requires Valid() && synCount > 0
      modifies this, slots
      ensures Valid() && old(waiting) == [syn] + waiting && accepted == old(accepted) + [syn]
      ensures arrived == old(arrived)
    {
      PoppedThreaded(slots[..], order);
      PoppedWaiting(slots[..], order);
      AppendMiddle(accepted, slots[order[0]].syn, Waiting(slots[..][order[0] := ZERO_SLOT], order[1..]));
      var i := synHead.value;
      syn := slots[i].syn;
      Unlink();
      synCount := synCount - 1;
      slots[i] := ZERO_SLOT;
      order, waiting := order[1..], waiting[1..];
      accepted := accepted + [syn];
    }

    /** One accept: the accepter gets the oldest request. */
    method Accept(a: Accepter, ok: bool)
      requires Valid() && synCount > 0
      modifies this, slots, a
      ensures Valid() && arrived == old(arrived)
      ensures old(waiting) == [a.syn] + waiting && accepted == old(accepted) + [a.syn]
      ensures a.state == if ok then Accepted else Disconnected
    {
      var syn := Pop();
      a.syn := syn;
      a.state := Accepted;
      if !ok {
        a.state := Disconnected;
      }
    }

    method AcceptNext(accepters: seq<Accepter>, ackOk: seq<bool>, n: nat, ghost w: seq<Syn>, ghost done: seq<Syn>)
      requires Valid() && synCount > 0 && Distinct(accepters) && |ackOk| == |accepters| && n < |accepters|
      requires n <= |w| && waiting == w[n..] && accepted == done + w[..n] && Took(accepters, w, ackOk, n)
      modifies this, slots, accepters[n]
      ensures Valid() && arrived == old(arrived) && n < |w|
      ensures waiting == w[n + 1..] && accepted == done + w[..n + 1]
      ensures Took(accepters, w, ackOk, n + 1)
    {
      Accept(accepters[n], ackOk[n]);
      NextWaiting(w, n, accepters[n].syn, waiting, done);
    }

    /** V4vDoAccepts: the waiting accepters, in the order of their calls, get the oldest requests; ackOk says
        whether the acknowledgement to the peer can be sent.  Afterwards the event tells whether requests
        are left. */
    method DoAccepts(accepters: seq<Accepter>, ackOk: seq<bool>) returns (n: nat)
      requires Valid() && Distinct(accepters) && |ackOk| == |accepters|
      modifies this, slots, accepters
      ensures Valid() && arrived == old(arrived)
      ensures n <= |accepters| && n <= |old(waiting)| && (n == |accepters| || n == |old(waiting)|)
      ensures waiting == old(waiting)[n..] && accepted == old(accepted) + old(waiting)[..n]
      ensures Took(accepters, old(waiting), ackOk, n)
      ensures forall k :: n <= k < |accepters| ==> unchanged(accepters[k])
      ensures receiveEvent <==> waiting != []
    {
      n := 0;
      ghost var w, done := waiting, accepted;
      while synCount > 0 && n < |accepters|
        invariant Valid() && arrived == old(arrived) && n <= |accepters| && n <= |w|
        invariant waiting == w[n..] && accepted == done + w[..n]
        invariant Took(accepters, w, ackOk, n)
        invariant forall k :: n <= k < |accepters| ==> unchanged(accepters[k])
        decreases |accepters| - n
      {
        assert forall k :: n < k < |accepters| ==> accepters[k] != accepters[n];
        AcceptNext(accepters, ackOk, n, w, done);
        n := n + 1;
      }
      receiveEvent := synCount > 0;
    }
  }

  /** The first n accepters have got the first n requests. */
  ghost predicate Took(accepters: seq<Accepter>, w: seq<Syn>, ok: seq<bool>, n: nat)
    reads accepters
  {
    && n <= |accepters| && n <= |w| && n <= |ok|
    && (forall k :: 0 <= k < n ==> accepters[k].syn == w[k])
    && (forall k :: 0 <= k < n ==> accepters[k].state == if ok[k] then Accepted else Disconnected)
  }

  lemma NextWaiting(w: seq<Syn>, n: nat, syn: Syn, rest: seq<Syn>, done: seq<Syn>)
    requires n <= |w| && w[n..] == [syn] + rest
    ensures n < |w| && syn == w[n] && rest == w[n + 1..] && done + w[..n] + [syn] == done + w[..n + 1]
  {
    assert w[n..][1..] == w[n + 1..];
  }
}
