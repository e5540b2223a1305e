/** The list of sub-heaps of windows/xenutil/austere.c.  A sub-heap is named by its page; its two links are words in
    that page, which keep their values when the page is given back. */
module SubheapLinks {
  import opened Base

  datatype Links = Links(head: Option<nat>, next: map<nat, Option<nat>>, prev: map<nat, Option<nat>>)

  const NO_LINKS := Links(None, map[], map[])

  function Word(words: map<nat, Option<nat>>, p: nat): Option<nat> { if p in words then words[p] else None }

  function Next(l: Links, p: nat): Option<nat> { Word(l.next, p) }

  function Prev(l: Links, p: nat): Option<nat> { Word(l.prev, p) }

  /** Stores to sh->prev->next and sh->next->prev, if there are such. */
  function SetNext(l: Links, at: Option<nat>, to: Option<nat>): Links {
    if at.Some? then l.(next := l.next[at.value := to]) else l
  }

  function SetPrev(l: Links, at: Option<nat>, to: Option<nat>): Links {
    if at.Some? then l.(prev := l.prev[at.value := to]) else l
  }

  /** What SmallAllocation and SmallFreeMemory do when they pull sub-heap p to the front. */
  function Pull(l: Links, p: nat): Links {
    if l.head == Some(p) then l
    else
      var l1 := SetNext(l, Prev(l, p), Next(l, p));
      var l2 := SetPrev(l1, Next(l1, p), Prev(l1, p));
      Links(Some(p), l2.next[p := l2.head], l2.prev[p := None])
  }

  /** NewSubheap's stores, and the pull to the front. */
  function Fresh(l: Links, p: nat): Links { Pull(l.(next := l.next[p := None], prev := l.prev[p := None]), p) }

  /** What SmallFreeMemory does to the list when sub-heap p is empty. */
  function Drop(l: Links, p: nat): Links {
    var l1 := SetPrev(l, Next(l, p), Prev(l, p));
    var l2 := SetNext(l1, Prev(l1, p), Next(l1, p));
    if l2.head == Some(p) then l2.(head := Next(l2, p)) else l2
  }

  // ----- No prev is ever set

  ghost predicate NoPrev(l: Links) { forall p :: p in l.prev ==> l.prev[p] == None }

  datatype Op = New(p: nat) | Touch(p: nat) | Empty(p: nat)

  function Apply(l: Links, op: Op): Links {
    match op
    case New(p) => Fresh(l, p)
    case Touch(p) => Pull(l, p)
    case Empty(p) => Drop(l, p)
  }

  lemma NoPrevKept(l: Links, op: Op)
    requires NoPrev(l)
    ensures NoPrev(Apply(l, op))
  {
  }

  function After(l: Links, run: seq<Op>): Links
    decreases |run|
  {
    if run == [] then l else After(Apply(l, run[0]), run[1..])
  }

  /** In every run, every prev is null. */
  lemma {:induction false} PrevStaysNull(l: Links, run: seq<Op>)
    requires NoPrev(l)
    ensures NoPrev(After(l, run))
    decreases |run|
  {
    if run != [] {
      NoPrevKept(l, run[0]);
      PrevStaysNull(Apply(l, run[0]), run[1..]);
    }
  }

  // ----- The list that is meant

  /** What comes after the element with index i. */
  function Following(order: seq<nat>, i: nat): Option<nat> { if i + 1 < |order| then Some(order[i + 1]) else None }

  /** The links lead through the sub-heaps of the order, and nowhere else. */
  ghost predicate Describes(l: Links, order: seq<nat>) {
    && l.head == (if order == [] then None else Some(order[0]))
    && forall i {:trigger Following(order, i)} :: 0 <= i < |order| ==> Next(l, order[i]) == Following(order, i)
  }

  /** The operation fits the order: new sub-heaps are new, others are there. */
  ghost predicate Fits(order: seq<nat>, op: Op) { if op.New? then op.p !in order else op.p in order }

  function IndexOf(order: seq<nat>, p: nat): (k: nat)
    requires p in order
    ensures k < |order| && order[k] == p
  {
    if order[0] == p then 0 else 1 + IndexOf(order[1..], p)
  }

  /** The order as it is meant to become. */
  function Meant(order: seq<nat>, op: Op): seq<nat>
    requires Fits(order, op)
  {
    match op
    case New(p) => [p] + order
    case Touch(p) => [p] + Without(order, IndexOf(order, p))
    case Empty(p) => Without(order, IndexOf(order, p))
  }

  /** The sub-heap is new, or the head. */
  predicate AtFront(order: seq<nat>, op: Op) { op.New? || (order != [] && order[0] == op.p) }

  lemma NewDescribed(l: Links, order: seq<nat>, p: nat)
    requires NoPrev(l) && Describes(l, order) && p !in order
    ensures Describes(Fresh(l, p), [p] + order)
  {
    var t, o := Fresh(l, p), [p] + order;
    forall i | 0 <= i < |o|
      ensures Next(t, o[i]) == Following(o, i)
    {
      if i > 0 {
        assert o[i] == order[i - 1] && Next(l, order[i - 1]) == Following(order, i - 1);
      }
    }
  }

  lemma HeadDescribed(l: Links, order: seq<nat>)
    requires NoPrev(l) && Distinct(order) && Describes(l, order) && order != []
    ensures Describes(Pull(l, order[0]), order)
    ensures Describes(Drop(l, order[0]), order[1..])
  {
    var t, o := Drop(l, order[0]), order[1..];
    assert Next(l, order[0]) == Following(order, 0);
    forall i | 0 <= i < |o|
      ensures Next(t, o[i]) == Following(o, i)
    {
      assert o[i] == order[i + 1] && Next(l, order[i + 1]) == Following(order, i + 1);
    }
  }

  /** Pulling a sub-heap from within the list leaves the one before it leading to it. */
  lemma PulledNext(l: Links, order: seq<nat>, k: nat)
    requires NoPrev(l) && Distinct(order) && Describes(l, order) && 0 < k < |order|
    ensures var t := Pull(l, order[k]);
            && t.head == Some(order[k]) && Next(t, order[k]) == Some(order[0])
            && forall i {:trigger Following(order, i)} :: 0 <= i < |order| && i != k ==> Next(t, order[i]) == Following(order, i)
  {
  }

  lemma DroppedNext(l: Links, order: seq<nat>, k: nat)
    requires NoPrev(l) && Distinct(order) && Describes(l, order) && 0 < k < |order|
    ensures var t := Drop(l, order[k]);
            t.head == l.head && forall i {:trigger Following(order, i)} :: 0 <= i < |order| ==> Next(t, order[i]) == Following(order, i)
  {
  }

  lemma WithoutHas(order: seq<nat>, k: nat)
    requires Distinct(order) && k < |order|
    ensures order[k] !in Without(order, k)
  {
  }

  /** One operation: the links go on describing the order exactly if the sub-heap is new, or the head. */
  lemma StepDescribedIff(l: Links, order: seq<nat>, op: Op)
    requires NoPrev(l) && Distinct(order) && Describes(l, order) && Fits(order, op)
    ensures Describes(Apply(l, op), Meant(order, op)) <==> AtFront(order, op)
  {
    if op.New? {
      NewDescribed(l, order, op.p);
    } else {
      var k := IndexOf(order, op.p);
      if k == 0 {
        HeadDescribed(l, order);
        assert [op.p] + Without(order, 0) == order && Without(order, 0) == order[1..];
      } else {
        WithinBreaks(l, order, op, k);
      }
    }
  }

  lemma WithinBreaks(l: Links, order: seq<nat>, op: Op, k: nat)
    requires NoPrev(l) && Distinct(order) && Describes(l, order) && Fits(order, op) && !op.New?
    requires 0 < k == IndexOf(order, op.p)
    ensures !Describes(Apply(l, op), Meant(order, op))
  {
    var o, j := Meant(order, op), if op.Touch? then k else k - 1;
    WithoutHas(order, k);
    if op.Touch? {
      PulledNext(l, order, k);
    } else {
      DroppedNext(l, order, k);
    }
    assert Next(Apply(l, op), order[k - 1]) == Following(order, k - 1) == Some(op.p);
    assert o[j] == order[k - 1] && Following(o, j) != Some(op.p);
  }

  // ----- Whole runs

  ghost predicate Legal(order: seq<nat>, run: seq<Op>)
    decreases |run|
  {
    run == [] || (Fits(order, run[0]) && Legal(Meant(order, run[0]), run[1..]))
  }

  ghost predicate AllAtFront(order: seq<nat>, run: seq<Op>)
    requires Legal(order, run)
    decreases |run|
  {
    run == [] || (AtFront(order, run[0]) && AllAtFront(Meant(order, run[0]), run[1..]))
  }

  /** The links describe the order after each operation of the run. */
  ghost predicate AlwaysDescribed(l: Links, order: seq<nat>, run: seq<Op>)
    requires Legal(order, run)
    decreases |run|
  {
    && Describes(l, order)
    && (run == [] || AlwaysDescribed(Apply(l, run[0]), Meant(order, run[0]), run[1..]))
  }

  lemma MeantDistinct(order: seq<nat>, op: Op)
    requires Distinct(order) && Fits(order, op)
    ensures Distinct(Meant(order, op))
  {
    if !op.New? {
      var k := IndexOf(order, op.p);
      WithoutHas(order, k);
      assert forall i :: 0 <= i < |order| - 1 ==> Without(order, k)[i] == order[if i < k then i else i + 1];
    }
  }

  /** From the empty list on, the links describe the list that is meant, throughout the run, exactly if every sub-heap
      that served a request, kept blocks after a free, or was emptied, was new or the head at that time. */
  lemma DescribedIffAtFront(run: seq<Op>)
    requires Legal([], run)
    ensures AlwaysDescribed(NO_LINKS, [], run) <==> AllAtFront([], run)
  {
    RunDescribedIff(NO_LINKS, [], run);
  }

  lemma {:induction false} RunDescribedIff(l: Links, order: seq<nat>, run: seq<Op>)
    requires NoPrev(l) && Distinct(order) && Describes(l, order) && Legal(order, run)
    ensures AlwaysDescribed(l, order, run) <==> AllAtFront(order, run)
    decreases |run|
  {
    if run != [] {
      StepDescribedIff(l, order, run[0]);
      NoPrevKept(l, run[0]);
      MeantDistinct(order, run[0]);
      if AtFront(order, run[0]) {
        RunDescribedIff(Apply(l, run[0]), Meant(order, run[0]), run[1..]);
      }
    }
  }

  // ----- Following the links

  /** Where a search is after n sub-heaps. */
  function Walk(l: Links, n: nat): Option<nat> {
    if n == 0 then l.head
    else
      var at := Walk(l, n - 1);
      if at.Some? then Next(l, at.value) else None
  }

  /** A search through links that describe an order sees its sub-heaps, one after the other, and ends. */
  lemma {:induction false} WalkDescribed(l: Links, order: seq<nat>, n: nat)
    requires Describes(l, order)
    ensures Walk(l, n) == if n < |order| then Some(order[n]) else None
  {
    if n > 0 {
      WalkDescribed(l, order, n - 1);
      if n - 1 < |order| {
        assert Next(l, order[n - 1]) == Following(order, n - 1);
      }
    }
  }

  /** Where n steps lead, counting round and round up to m. */
  function Turn(n: nat, m: nat): (r: nat)
    requires m > 0
    ensures r < m
  {
    if n == 0 || Turn(n - 1, m) == m - 1 then 0 else Turn(n - 1, m) + 1
  }

  /** After a pull from within, a search goes round for ever among the pulled sub-heap and those that were before it;
      those that were behind it are out of reach. */
  lemma {:induction false} PulledGoesRound(l: Links, order: seq<nat>, k: nat, n: nat)
    requires NoPrev(l) && Distinct(order) && Describes(l, order) && 0 < k < |order|
    ensures var r := Turn(n, k + 1); Walk(Pull(l, order[k]), n) == Some(if r == 0 then order[k] else order[r - 1])
    ensures forall j :: k < j < |order| ==> Walk(Pull(l, order[k]), n) != Some(order[j])
  {
    PulledNext(l, order, k);
    if n > 0 {
      PulledGoesRound(l, order, k, n - 1);
      var r := Turn(n - 1, k + 1);
      if r > 0 {
        assert Next(Pull(l, order[k]), order[r - 1]) == Following(order, r - 1) == Some(order[r]);
      }
    }
  }

  /** After a sub-heap within the list has been emptied, a search still comes to its page, which has been given back. */
  lemma DroppedStillReached(l: Links, order: seq<nat>, k: nat)
    requires NoPrev(l) && Distinct(order) && Describes(l, order) && 0 < k < |order|
    ensures Walk(Drop(l, order[k]), k) == Some(order[k]) && order[k] !in Meant(order, Empty(order[k]))
  {
    DroppedNext(l, order, k);
    WalkUnchanged(l, Drop(l, order[k]), order, k);
    WithoutHas(order, IndexOf(order, order[k]));
  }

  lemma {:induction false} WalkUnchanged(l: Links, t: Links, order: seq<nat>, n: nat)
    requires t.head == l.head && Describes(l, order) && n < |order|
    requires forall i {:trigger Following(order, i)} :: 0 <= i < |order| ==> Next(t, order[i]) == Following(order, i)
    ensures Walk(t, n) == Some(order[n])
  {
    if n > 0 {
      WalkUnchanged(l, t, order, n - 1);
      assert Next(t, order[n - 1]) == Following(order, n - 1);
    }
  }

  /** Two sub-heaps, and then a block is freed in the older one, which keeps others: each of the two leads to the
      other, and a search that neither serves does not end. */
  lemma CycleExample(n: nat)
    ensures var t := After(NO_LINKS, [New(0), New(1), Touch(0)]);
            && Legal([], [New(0), New(1), Touch(0)])
            && Next(t, 0) == Some(1) && Next(t, 1) == Some(0) && Walk(t, n).Some?
  {
    var run := [New(0), New(1), Touch(0)];
    var l1 := Fresh(NO_LINKS, 0);
    var l2 := Fresh(l1, 1);
    NewDescribed(NO_LINKS, [], 0);
    NewDescribed(l1, [0], 1);
    assert [0] + [] == [0] && [1] + [0] == [1, 0];
    assert run[1..] == [New(1), Touch(0)] && run[1..][1..] == [Touch(0)] && run[1..][1..][1..] == [];
    assert After(NO_LINKS, run) == Pull(l2, 0);
    PulledNext(l2, [1, 0], 1);
    assert Next(Pull(l2, 0), 1) == Following([1, 0], 0);
    PulledGoesRound(l2, [1, 0], 1, n);
  }
}
