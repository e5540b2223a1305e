/** Reception from xenstored over whole runs: bytes come in pieces of any size, requests are submitted in between,
    and the receiver is called at any time.  What it makes of the bytes does not depend on any of that. */
module XenbusRxRuns {
  import opened Base
  import opened Bytes
  import opened XenbusRing
  import opened XenbusRx

  /** What happens: xenstored puts in up to n of the bytes that are still to come; a request is submitted; the
      receiver is called. */
  datatype Op = Put(n: nat) | Ask(id: nat, p: Pending) | Poll

  /** What the receiver gets to see, in order. */
  datatype Item = Took(bytes: seq<Byte>) | Asked(id: nat, p: Pending)

  function With(a: Auto, id: nat, p: Pending): Auto { a.(reqs := a.reqs[id := p]) }

  function See(a: Auto, x: Item): Auto {
    match x
    case Took(u) => Feed(a, u)
    case Asked(id, p) => With(a, id, p)
  }

  /** The automaton on what the receiver sees. */
  function FeedItems(a: Auto, items: seq<Item>): Auto
    decreases |items|
  {
    if items == [] then a else FeedItems(See(a, items[0]), items[1..])
  }

  function BytesOf(x: Item): seq<Byte> { if x.Took? then x.bytes else [] }

  function TakenOf(items: seq<Item>): seq<Byte> {
    if items == [] then [] else BytesOf(items[0]) + TakenOf(items[1..])
  }

  function AskedOf(items: seq<Item>): map<nat, Pending> {
    if items == [] then map[]
    else
      var rest := AskedOf(items[1..]);
      if items[0].Asked? then map[items[0].id := items[0].p] + rest else rest
  }

  lemma {:induction false} SeeAppend(a: Auto, items: seq<Item>, x: Item)
    ensures FeedItems(a, items + [x]) == See(FeedItems(a, items), x)
    decreases |items|
  {
    if items == [] {
      assert items + [x] == [x] && [x][1..] == [];
      assert FeedItems(See(a, x), []) == See(a, x);
    } else {
      assert (items + [x])[1..] == items[1..] + [x];
      SeeAppend(See(a, items[0]), items[1..], x);
    }
  }

  lemma {:induction false} TakenAppend(items: seq<Item>, x: Item)
    ensures TakenOf(items + [x]) == TakenOf(items) + BytesOf(x)
  {
    if items == [] {
      assert items + [x] == [x] && [x][1..] == [];
      assert TakenOf([x]) == BytesOf(x) + [];
    } else {
      assert (items + [x])[1..] == items[1..] + [x];
      TakenAppend(items[1..], x);
      Associative(BytesOf(items[0]), TakenOf(items[1..]), BytesOf(x));
    }
  }

  lemma Associative(u: seq<Byte>, v: seq<Byte>, w: seq<Byte>)
    ensures u + (v + w) == (u + v) + w
  {
  }

  // ----- Requests may be submitted at any time before their reply

  /** The next byte completes the header of a reply with this id. */
  predicate Answers(a: Auto, b: Byte, id: nat) {
    && a.mode.InHeader? && |a.mode.got| + 1 == HEADER_SIZE
    && var h := a.mode.got + [b];
       TypeOf(h) != XS_WATCH_EVENT && TypeOf(h) <= XS_IS_DOMAIN_INTRODUCED && IdOf(h) == id
  }

  /** No reply with this id begins in u. */
  predicate Unanswered(a: Auto, u: seq<Byte>, id: nat)
    decreases |u|
  {
    u == [] || (!Answers(a, u[0], id) && Unanswered(FeedByte(a, u[0]), u[1..], id))
  }

  /** More pending requests. */
  function Given(a: Auto, m: map<nat, Pending>): Auto { a.(reqs := a.reqs + m) }

  ghost predicate Uninvolved(a: Auto, m: map<nat, Pending>) {
    forall id :: id in m ==> id !in a.reqs && a.mode != InReply(id)
  }

  ghost predicate AllUnanswered(a: Auto, u: seq<Byte>, m: map<nat, Pending>) { forall id :: id in m ==> Unanswered(a, u, id) }

  lemma ByteCommutes(a: Auto, b: Byte, m: map<nat, Pending>)
    requires Uninvolved(a, m) && forall id :: id in m ==> !Answers(a, b, id)
    ensures FeedByte(Given(a, m), b) == Given(FeedByte(a, b), m) && Uninvolved(FeedByte(a, b), m)
  {
    match a.mode
    case InReply(i) =>
      if i in a.reqs {
        var q := Take(a.reqs[i], [b]);
        UpdateGiven(a.reqs, i, q, m);
        UpdateGiven(a.reqs[i := q], i, q.(replied := true), m);
      }
    case InHeader(got) =>
      if |got| + 1 == HEADER_SIZE {
        HeaderCommutes(a, got + [b], m);
      }
    case _ =>
  }

  lemma UpdateGiven(reqs: map<nat, Pending>, i: nat, q: Pending, m: map<nat, Pending>)
    requires i !in m
    ensures reqs[i := q] + m == (reqs + m)[i := q]
  {
  }

  lemma HeaderCommutes(a: Auto, h: seq<Byte>, m: map<nat, Pending>)
    requires |h| == HEADER_SIZE && forall id :: id in m ==> id !in a.reqs
    requires TypeOf(h) != XS_WATCH_EVENT && TypeOf(h) <= XS_IS_DOMAIN_INTRODUCED ==> IdOf(h) !in m
    ensures HeaderDone(Given(a, m), h) == Given(HeaderDone(a, h), m) && Uninvolved(HeaderDone(a, h), m)
  {
    if TypeOf(h) != XS_WATCH_EVENT && TypeOf(h) <= XS_IS_DOMAIN_INTRODUCED && IdOf(h) in a.reqs {
      var q := Begin(a.reqs[IdOf(h)], LenOf(h));
      UpdateGiven(a.reqs, IdOf(h), q, m);
      UpdateGiven(a.reqs[IdOf(h) := q], IdOf(h), q.(replied := true), m);
    }
  }

  /** Submissions and bytes that do not answer them can change places. */
  lemma {:induction false} FeedCommutes(a: Auto, u: seq<Byte>, m: map<nat, Pending>)
    requires Uninvolved(a, m) && AllUnanswered(a, u, m)
    ensures Feed(Given(a, m), u) == Given(Feed(a, u), m) && Uninvolved(Feed(a, u), m)
    decreases |u|
  {
    if u != [] {
      forall id | id in m
        ensures !Answers(a, u[0], id) && Unanswered(FeedByte(a, u[0]), u[1..], id)
      {
        assert Unanswered(a, u, id);
      }
      ByteCommutes(a, u[0], m);
      FeedCommutes(FeedByte(a, u[0]), u[1..], m);
    }
  }

  /** Ids are not in use, and no reply begins before the request it answers has been submitted. */
  ghost predicate Timely(a: Auto, items: seq<Item>)
    decreases |items|
  {
    items == [] ||
    (&& Timely(See(a, items[0]), items[1..])
     && Uninvolved(a, AskedOf(items))
     && match items[0]
        case Took(u) => AllUnanswered(a, u, AskedOf(items[1..]))
        case Asked(id, p) => id !in AskedOf(items[1..]))
  }

  lemma AskedFirst(a: Auto, id: nat, p: Pending, m: map<nat, Pending>)
    requires id !in m
    ensures Given(With(a, id, p), m) == Given(a, map[id := p] + m)
  {
    assert a.reqs[id := p] + m == a.reqs + (map[id := p] + m);
  }

  /** Then the automaton may as well have all the requests from the start. */
  lemma {:induction false} AskedAtStart(a: Auto, items: seq<Item>)
    requires Timely(a, items)
    ensures FeedItems(a, items) == Feed(Given(a, AskedOf(items)), TakenOf(items))
    decreases |items|
  {
    if items == [] {
      assert Given(a, map[]) == a;
    } else {
      var rest := items[1..];
      AskedAtStart(See(a, items[0]), rest);
      match items[0]
      case Took(u) =>
        FeedCommutes(a, u, AskedOf(rest));
        FeedAppend(Given(a, AskedOf(rest)), u, TakenOf(rest));
      case Asked(id, p) =>
        AskedFirst(a, id, p, AskedOf(rest));
        assert TakenOf(items) == TakenOf(rest);
    }
  }

  /** So two receivers that see the same bytes and the same requests, cut and mixed in any two ways, come to the same
      place and the same state when they can take nothing more. */
  lemma SameEnd(a: Auto, all: seq<Byte>, i: seq<Item>, j: seq<Item>)
    requires Timely(a, i) && Timely(a, j) && AskedOf(i) == AskedOf(j) && TakenOf(i) <= all && TakenOf(j) <= all
    requires !Partial(FeedItems(a, i).mode) && Starved(FeedItems(a, i), all[|TakenOf(i)|..])
    requires !Partial(FeedItems(a, j).mode) && Starved(FeedItems(a, j), all[|TakenOf(j)|..])
    ensures TakenOf(i) == TakenOf(j) && FeedItems(a, i) == FeedItems(a, j)
  {
    AskedAtStart(a, i);
    AskedAtStart(a, j);
    var m := AskedOf(i);
    assert all[..|TakenOf(i)|] == TakenOf(i) && all[..|TakenOf(j)|] == TakenOf(j);
    StarvedPlaceUnique(Given(a, m), all, |TakenOf(i)|, |TakenOf(j)|);
  }

  // ----- A watch event that does not fit

  /** No content of the ring that begins with this header lets the receiver go on. */
  ghost predicate StuckAt(a: Auto, h: seq<Byte>)
    requires |h| == HEADER_SIZE
  {
    forall u: seq<Byte> :: HEADER_SIZE <= |u| <= XENSTORE_RING_SIZE && u[..HEADER_SIZE] == h ==> Starved(a, u)
  }

  /** Reception stops for good at a watch event exactly if its frame is larger than the ring. */
  lemma StuckIff(a: Auto, h: seq<Byte>)
    requires a.mode == InHeader([]) && |h| == HEADER_SIZE && TypeOf(h) == XS_WATCH_EVENT
    ensures StuckAt(a, h) <==> HEADER_SIZE + LenOf(h) > XENSTORE_RING_SIZE
  {
    if HEADER_SIZE + LenOf(h) > XENSTORE_RING_SIZE {
      forall u: seq<Byte> | HEADER_SIZE <= |u| <= XENSTORE_RING_SIZE && u[..HEADER_SIZE] == h
        ensures Starved(a, u)
      {
        ShortWatch(a, u);
      }
    } else {
      var payload := seq(LenOf(h), _ => NUL);
      var u := h + payload;
      WholeWatch(a, h, payload);
      assert u[..|u|] == u && u[..HEADER_SIZE] == h;
      assert !Partial(Feed(a, u[..|u|]).mode);
    }
  }

  // ----- Runs of the receiver

  /** The receiver r has come to where it is from the state a, at place c of the bytes, by seeing the items. */
  ghost predicate CameBy(r: Receiver, a: Auto, c: nat, items: seq<Item>)
    reads r
  {
    c <= r.cons <= |r.stream| && r.Abs() == FeedItems(a, items) && TakenOf(items) == r.stream[c..r.cons]
  }

  method PutStep(r: Receiver, all: seq<Byte>, n: nat, ghost a: Auto, ghost c: nat, ghost items: seq<Item>)
    requires r.Valid() && r.stream <= all && CameBy(r, a, c, items)
    modifies r.rsp, r`prod, r`stream
    ensures r.Valid() && r.stream <= all && CameBy(r, a, c, items)
  {
    var room := XENSTORE_RING_SIZE - (r.prod - r.cons);
    var k := Min(n, Min(room, |all| - r.prod));
    assert r.stream + all[r.prod..r.prod + k] == all[..r.prod + k];
    assert r.stream[c..r.cons] == (r.stream + all[r.prod..r.prod + k])[c..r.cons];
    r.Produce(all[r.prod..r.prod + k]);
  }

  method AskStep(r: Receiver, id: nat, p: Pending, ghost a: Auto, ghost c: nat, ghost items: seq<Item>) returns (ghost more: seq<Item>)
    requires r.Valid() && CameBy(r, a, c, items)
    modifies r`reqs
    ensures r.Valid() && CameBy(r, a, c, more) && (more == items || more == items + [Asked(id, p)])
  {
    more := items;
    if id !in r.reqs {
      SeeAppend(a, items, Asked(id, p));
      TakenAppend(items, Asked(id, p));
      AskedLater(r.discard, r.current, r.reqs, r.payloads, id, p);
      r.Submit(id, p);
      more := items + [Asked(id, p)];
    }
  }

  lemma AskedLater(discard: nat, current: Option<nat>, reqs: map<nat, Pending>, payloads: seq<seq<Byte>>, id: nat, p: Pending)
    requires id !in reqs && (current.Some? ==> current.value in reqs)
    ensures View(discard, current, reqs[id := p], payloads) == With(View(discard, current, reqs, payloads), id, p)
  {
  }

  lemma TookMore(a: Auto, items: seq<Item>, stream: seq<Byte>, c: nat, d: nat, e: nat)
    requires c <= d <= e <= |stream| && TakenOf(items) == stream[c..d]
    ensures FeedItems(a, items + [Took(stream[d..e])]) == Feed(FeedItems(a, items), stream[d..e])
    ensures TakenOf(items + [Took(stream[d..e])]) == stream[c..e]
  {
    SeeAppend(a, items, Took(stream[d..e]));
    TakenAppend(items, Took(stream[d..e]));
    assert stream[c..d] + stream[d..e] == stream[c..e];
  }

  method PollStep(r: Receiver, ghost a: Auto, ghost c: nat, ghost items: seq<Item>) returns (crashed: bool, ghost more: seq<Item>)
    requires r.Valid() && CameBy(r, a, c, items)
    modifies r`cons, r`events, r`payloads, r`discard, r`current, r`reqs
    ensures r.Valid() && (!crashed ==> CameBy(r, a, c, more))
    ensures crashed ==> HEADER_SIZE <= r.prod - r.cons && r.cons == old(r.cons)
    ensures exists u :: more == items + [Took(u)]
  {
    ghost var u := r.cons;
    var res := r.Receive();
    crashed := res == BugCheck;
    more := items + [Took(r.stream[u..r.cons])];
    TookMore(a, items, r.stream, c, u, r.cons);
  }

  /** A whole run. */
  method Run(r: Receiver, all: seq<Byte>, ops: seq<Op>) returns (crashed: bool, ghost items: seq<Item>)
    requires r.Valid() && r.stream <= all
    modifies r, r.rsp
    ensures r.Valid() && r.stream <= all
    ensures !crashed ==> CameBy(r, old(r.Abs()), old(r.cons), items)
    ensures forall i :: 0 <= i < |items| && items[i].Asked? ==> Ask(items[i].id, items[i].p) in ops
  {
    ghost var a, c := r.Abs(), r.cons;
    crashed, items := false, [];
    var k := 0;
    while k < |ops| && !crashed
      invariant k <= |ops| && r.Valid() && r.stream <= all
      invariant !crashed ==> CameBy(r, a, c, items)
      invariant forall i :: 0 <= i < |items| && items[i].Asked? ==> Ask(items[i].id, items[i].p) in ops
      decreases |ops| - k
    {
      match ops[k] {
        case Put(n) => PutStep(r, all, n, a, c, items);
        case Ask(id, p) => items := AskStep(r, id, p, a, c, items);
        case Poll => crashed, items := PollStep(r, a, c, items);
      }
      k := k + 1;
    }
  }

  /** A new receiver, and a run of it. */
  method RunNew(all: seq<Byte>, ops: seq<Op>) returns (r: Receiver, crashed: bool, ghost items: seq<Item>)
    ensures fresh(r) && fresh(r.rsp) && r.Valid() && r.stream <= all
    ensures !crashed ==> CameBy(r, Auto(InHeader([]), map[], []), 0, items)
  {
    r := new Receiver(false, true);
    crashed, items := Run(r, all, ops);
  }

  /** The receiver has no use for the rest of the bytes before more come. */
  ghost predicate Waits(r: Receiver, all: seq<Byte>)
    requires r.cons <= |all|
    reads r
  {
    Starved(r.Abs(), all[r.cons..])
  }

  /** Two new receivers on the same bytes, run in any two ways: if all requests are asked before they are answered, and
      are the same, and both receivers wait for more, their states are the same. */
  method TwoRuns(all: seq<Byte>, ops1: seq<Op>, ops2: seq<Op>)
      returns (r1: Receiver, r2: Receiver, crashed: bool, ghost i1: seq<Item>, ghost i2: seq<Item>)
    ensures r1.Valid() && r2.Valid() && r1.stream <= all && r2.stream <= all
    ensures (!crashed && r1.cons <= |all| && r2.cons <= |all| && Waits(r1, all) && Waits(r2, all)
             && Timely(Auto(InHeader([]), map[], []), i1) && Timely(Auto(InHeader([]), map[], []), i2) && AskedOf(i1) == AskedOf(i2)
             ==> r1.cons == r2.cons && r1.Abs() == r2.Abs())
  {
    var c1, c2;
    r1, c1, i1 := RunNew(all, ops1);
    r2, c2, i2 := RunNew(all, ops2);
    crashed := c1 || c2;
    ghost var a := Auto(InHeader([]), map[], []);
    if !crashed && Waits(r1, all) && Waits(r2, all) && Timely(a, i1) && Timely(a, i2) && AskedOf(i1) == AskedOf(i2) {
      assert r1.stream[0..r1.cons] == all[..r1.cons] && r2.stream[0..r2.cons] == all[..r2.cons];
      SameEnd(a, all, i1, i2);
    }
  }
}
