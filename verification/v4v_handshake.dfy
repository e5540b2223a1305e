/** Setting up V4V stream connections (linux/v4v.c): SYN, ACK and RST messages between connecting and listening
    rings.  Messages may be delayed and reordered at will, and may get lost; connection ids are fresh. */
module V4vHandshake {

  const MAX_PENDING_RECVS: nat := 16

  type Addr = nat

  datatype Flag = SYN | ACK | RST | DATA

  datatype Msg = Msg(flag: Flag, from: Addr, to: Addr, conid: nat)

  datatype ConnState = Bound | Connecting | Connected | Disconnected

  datatype Syn = Syn(from: Addr, conid: nat)

  datatype Acceptor = Acceptor(conid: nat, peer: Addr, live: bool)

  /** A ring, by its use: of a socket that connects, or of one that listens, shared with the sockets that it
      has accepted.  A connector is calling while v4v_connect waits, with its timer running; the sponsor of a
      listening ring is the listening socket itself, and taken are the requests that calls of v4v_accept have taken
      off the pending ones and not yet made sockets for. */
  datatype Ring =
    | Connector(state: ConnState, conid: nat, peer: Addr, calling: bool)
    | Listener(sponsor: bool, pending: seq<Syn>, taken: multiset<Syn>, acceptors: seq<Acceptor>)

  /** An acceptor that has been created: on which ring, for which peer. */
  datatype Made = Made(ring: Addr, peer: Addr, conid: nat)

  /** The rings and the messages under way; and, for the record, between which addresses each id was issued, and
      what acceptors there have been. */
  datatype State = State(rings: map<Addr, Ring>, net: multiset<Msg>, issued: map<nat, (Addr, Addr)>, made: set<Made>)

  function Initial(rings: map<Addr, Ring>): State { State(rings, multiset{}, map[], {}) }

  /** No connection exists, and nothing is under way. */
  ghost predicate Unconnected(rings: map<Addr, Ring>) {
    forall a :: a in rings ==>
      if rings[a].Connector? then rings[a].state == Bound && !rings[a].calling
      else rings[a].pending == [] && rings[a].taken == multiset{} && rings[a].acceptors == []
  }

  // ----- Receiving

  /** xmit_queue_rst_to, as an answer to m. */
  function Reset(m: Msg): multiset<Msg> { multiset{Msg(RST, m.to, m.from, m.conid)} }

  /** connector_interrupt and connector_state_machine: the ring afterwards, and what is sent. */
  function ConnectorReceive(r: Ring, m: Msg): (Ring, multiset<Msg>)
    requires r.Connector?
  {
    if m.flag == SYN || m.conid != r.conid then (r, Reset(m))
    else if m.flag == ACK then
      match r.state
      case Connecting => (r.(state := Connected), multiset{})
      case Connected => (r.(state := Disconnected), Reset(m))
      case Disconnected => (r, Reset(m))
      case Bound => (r, multiset{})
    else if m.flag == RST && (r.state == Connecting || r.state == Connected) then
      (r.(state := Disconnected), multiset{})
    else (r, multiset{})
  }

  /** The acceptor that a message is for. */
  function Find(acceptors: seq<Acceptor>, m: Msg): (k: nat)
    ensures k <= |acceptors|
    ensures k < |acceptors| ==> acceptors[k].conid == m.conid && acceptors[k].peer == m.from
    ensures forall i :: 0 <= i < k ==> !(acceptors[i].conid == m.conid && acceptors[i].peer == m.from)
  {
    if acceptors == [] || (acceptors[0].conid == m.conid && acceptors[0].peer == m.from) then 0
    else 1 + Find(acceptors[1..], m)
  }

  /** The pending requests without the first one with this id. */
  function Evict(pending: seq<Syn>, conid: nat): seq<Syn> {
    if pending == [] then []
    else if pending[0].conid == conid then pending[1..]
    else [pending[0]] + Evict(pending[1..], conid)
  }

  /** listener_interrupt, acceptor_interrupt and acceptor_state_machine. */
  function ListenerReceive(r: Ring, m: Msg): (Ring, multiset<Msg>)
    requires r.Listener?
  {
    var k := Find(r.acceptors, m);
    if k < |r.acceptors| then
      if m.flag == SYN || m.flag == ACK then (r, Reset(m))
      else if m.flag == RST then (r.(acceptors := r.acceptors[k := r.acceptors[k].(live := false)]), multiset{})
      else (r, multiset{})
    else if m.flag == RST then
      (if r.sponsor then r.(pending := Evict(r.pending, m.conid)) else r, multiset{})
    else if m.flag == SYN then
      (if r.sponsor then r.(pending := r.pending + [Syn(m.from, m.conid)]) else r, multiset{})
    else (r, Reset(m))
  }

  /** Whether the interrupt handler takes the message: not if the listening socket has too many pending
      requests, and not if the ring is not that of a stream connection. */
  predicate Takes(r: Ring, m: Msg) {
    if r.Connector? then r.state != Bound
    else m.flag == SYN && Find(r.acceptors, m) == |r.acceptors| && r.sponsor ==> |r.pending| <= MAX_PENDING_RECVS
  }

  // ----- Steps

  datatype Action =
    | Connect(a: Addr, peer: Addr, conid: nat, block: bool)
    | Resume(a: Addr)                  // v4v_connect again, while the connection is being set up
    | Return(a: Addr)                  // v4v_connect returns: connected, or interrupted by a signal
    | Respite(a: Addr)                 // its timer
    | GiveUp(a: Addr)                  // it finds itself disconnected
    | Deliver(m: Msg)
    | Lose(m: Msg)
    | Take(l: Addr)                    // v4v_accept, up to where it first lets go of the list lock
    | Publish(l: Addr, syn: Syn)       // the rest of it: the socket is put on the ring's list, and acknowledged
    | Forget(l: Addr, syn: Syn)        // or there is no memory or no descriptor for it
    | SendFrom(a: Addr)                // data
    | SendBy(l: Addr, k: nat)
    | CloseConnector(a: Addr)
    | CloseAcceptor(l: Addr, k: nat)
    | CloseListener(l: Addr)

  predicate IsConnector(s: State, a: Addr) { a in s.rings && s.rings[a].Connector? }

  predicate IsListener(s: State, l: Addr) { l in s.rings && s.rings[l].Listener? }

  /** The connector is setting up a connection or has one. */
  predicate Active(r: Ring) { r.Connector? && (r.state == Connecting || r.state == Connected) }

  predicate Enabled(s: State, act: Action) {
    match act
    case Connect(a, peer, conid, _) => IsConnector(s, a) && s.rings[a].state == Bound && conid !in s.issued
    case Resume(a) => IsConnector(s, a) && s.rings[a].state == Connecting
    case Return(a) => IsConnector(s, a) && Active(s.rings[a]) && s.rings[a].calling
    case Respite(a) => IsConnector(s, a) && Active(s.rings[a]) && s.rings[a].calling
    case GiveUp(a) => IsConnector(s, a) && s.rings[a].state == Disconnected && s.rings[a].calling
    case Deliver(m) => m in s.net && m.to in s.rings && Takes(s.rings[m.to], m)
    case Lose(m) => m in s.net
    case Take(l) => IsListener(s, l) && s.rings[l].sponsor && s.rings[l].pending != []
    case Publish(l, syn) => IsListener(s, l) && syn in s.rings[l].taken
    case Forget(l, syn) => IsListener(s, l) && syn in s.rings[l].taken
    case SendFrom(a) => IsConnector(s, a) && s.rings[a].state == Connected
    case SendBy(l, k) => IsListener(s, l) && k < |s.rings[l].acceptors| && s.rings[l].acceptors[k].live
    case CloseConnector(a) => IsConnector(s, a)
    case CloseAcceptor(l, k) => IsListener(s, l) && k < |s.rings[l].acceptors|
    case CloseListener(l) => IsListener(s, l) && s.rings[l].sponsor && s.rings[l].taken == multiset{}
  }

  function Receive(r: Ring, m: Msg): (Ring, multiset<Msg>) {
    if r.Connector? then ConnectorReceive(r, m) else ListenerReceive(r, m)
  }

  /** The RSTs for requests that are not going to be accepted. */
  function Resets(l: Addr, pending: seq<Syn>): multiset<Msg> {
    if pending == [] then multiset{}
    else multiset{Msg(RST, l, pending[0].from, pending[0].conid)} + Resets(l, pending[1..])
  }

  /** A listening ring goes when its last socket is closed. */
  function Put(rings: map<Addr, Ring>, l: Addr, r: Ring): map<Addr, Ring>
    requires r.Listener?
  {
    if !r.sponsor && r.acceptors == [] then rings - {l} else rings[l := r]
  }

  function Apply(s: State, act: Action): State
    requires Enabled(s, act)
  {
    match act
    case Connect(a, peer, conid, block) =>
      State(s.rings[a := Connector(Connecting, conid, peer, block)], s.net + multiset{Msg(SYN, a, peer, conid)},
            s.issued[conid := (a, peer)], s.made)
    case Resume(a) => s.(rings := s.rings[a := s.rings[a].(calling := true)])
    case Return(a) => s.(rings := s.rings[a := s.rings[a].(calling := false)])
    case Respite(a) => s.(rings := s.rings[a := s.rings[a].(state := Disconnected)])
    case GiveUp(a) => s.(rings := s.rings[a := s.rings[a].(state := Bound, calling := false)])
    case Deliver(m) =>
      var out := Receive(s.rings[m.to], m);
      s.(rings := s.rings[m.to := out.0], net := s.net - multiset{m} + out.1)
    case Lose(m) => s.(net := s.net - multiset{m})
    case Take(l) =>
      var r := s.rings[l];
      s.(rings := s.rings[l := r.(pending := r.pending[1..], taken := r.taken + multiset{r.pending[0]})])
    case Publish(l, syn) =>
      var r := s.rings[l];
      var x := Acceptor(syn.conid, syn.from, true);
      s.(rings := s.rings[l := r.(taken := r.taken - multiset{syn}, acceptors := [x] + r.acceptors)],
         net := s.net + multiset{Msg(ACK, l, syn.from, syn.conid)},
         made := s.made + {Made(l, syn.from, syn.conid)})
    case Forget(l, syn) => s.(rings := s.rings[l := s.rings[l].(taken := s.rings[l].taken - multiset{syn})])
    case SendFrom(a) => s.(net := s.net + multiset{Msg(DATA, a, s.rings[a].peer, s.rings[a].conid)})
    case SendBy(l, k) =>
      var x := s.rings[l].acceptors[k];
      s.(net := s.net + multiset{Msg(DATA, l, x.peer, x.conid)})
    case CloseConnector(a) =>         // v4v_release, in its three cases
      var r := s.rings[a];
      s.(rings := s.rings - {a}, net := s.net + if Active(r) then multiset{Msg(RST, a, r.peer, r.conid)} else multiset{})
    case CloseAcceptor(l, k) =>
      var r := s.rings[l];
      s.(rings := Put(s.rings, l, r.(acceptors := r.acceptors[..k] + r.acceptors[k + 1..])),
         net := s.net + if r.acceptors[k].live then multiset{Msg(RST, l, r.acceptors[k].peer, r.acceptors[k].conid)} else multiset{})
    case CloseListener(l) =>
      var r := s.rings[l];
      s.(rings := Put(s.rings, l, r.(sponsor := false, pending := [])), net := s.net + Resets(l, r.pending))
  }

  ghost predicate Legal(s: State, run: seq<Action>)
    decreases |run|
  {
    run == [] || (Enabled(s, run[0]) && Legal(Apply(s, run[0]), run[1..]))
  }

  ghost function After(s: State, run: seq<Action>): State
    requires Legal(s, run)
    decreases |run|
  {
    if run == [] then s else After(Apply(s, run[0]), run[1..])
  }

  lemma First(s: State, act: Action, rest: seq<Action>) returns (run: seq<Action>)
    requires Enabled(s, act) && Legal(Apply(s, act), rest)
    ensures run == [act] + rest && Legal(s, run) && After(s, run) == After(Apply(s, act), rest)
  {
    run := [act] + rest;
    assert run[1..] == rest;
  }

  // ----- The invariant

  /** Messages with an id go between the two rings that it was issued for. */
  ghost predicate Between(s: State, m: Msg) {
    m.conid in s.issued && (s.issued[m.conid] == (m.from, m.to) || s.issued[m.conid] == (m.to, m.from))
  }

  /** What the ids of messages and rings refer to. */
  ghost predicate MsgOk(s: State, m: Msg) {
    && Between(s, m)
    && (m.flag == SYN ==> s.issued[m.conid] == (m.from, m.to))
    && (m.flag == ACK ==> Made(m.from, m.to, m.conid) in s.made)
    && (m.flag == DATA ==> Made(m.from, m.to, m.conid) in s.made || Made(m.to, m.from, m.conid) in s.made)
  }

  ghost predicate SynOk(s: State, a: Addr, x: Syn) { x.conid in s.issued && s.issued[x.conid] == (x.from, a) }

  ghost predicate RingOk(s: State, a: Addr, r: Ring) {
    match r
    case Connector(state, conid, peer, _) =>
      && (Active(r) ==> conid in s.issued && s.issued[conid] == (a, peer))
      && (state == Connected ==> Made(peer, a, conid) in s.made)
    case Listener(sponsor, pending, taken, acceptors) =>
      && (!sponsor ==> pending == [] && taken == multiset{})
      && (forall i :: 0 <= i < |pending| ==> SynOk(s, a, pending[i]))
      && (forall x :: x in taken ==> SynOk(s, a, x))
      && (forall i :: 0 <= i < |acceptors| ==> Made(a, acceptors[i].peer, acceptors[i].conid) in s.made)
  }

  ghost predicate Inv(s: State) {
    && (forall m :: m in s.net ==> MsgOk(s, m))
    && (forall a :: a in s.rings ==> RingOk(s, a, s.rings[a]))
    && (forall c :: c in s.made ==> c.conid in s.issued && s.issued[c.conid] == (c.peer, c.ring))
  }

  lemma {:induction false} EvictKeeps(pending: seq<Syn>, conid: nat)
    ensures |Evict(pending, conid)| <= |pending|
    ensures forall i :: 0 <= i < |Evict(pending, conid)| ==> Evict(pending, conid)[i] in pending
  {
    if pending != [] {
      EvictKeeps(pending[1..], conid);
    }
  }

  /** What a ring does with a message leaves it in order, and only RSTs come out of it, for the sender. */
  lemma ReceiveOk(s: State, a: Addr, r: Ring, m: Msg)
    requires Inv(s) && RingOk(s, a, r) && MsgOk(s, m) && m.to == a
    ensures RingOk(s, a, Receive(r, m).0)
    ensures forall x :: x in Receive(r, m).1 ==> x == Msg(RST, m.to, m.from, m.conid) && MsgOk(s, x)
  {
    if r.Listener? {
      EvictKeeps(r.pending, m.conid);
    }
  }

  lemma {:induction false} ResetsOnly(s: State, l: Addr, pending: seq<Syn>)
    requires forall i :: 0 <= i < |pending| ==> SynOk(s, l, pending[i])
    ensures forall x :: x in Resets(l, pending) ==> x.flag == RST && MsgOk(s, x)
    ensures forall x :: x in Resets(l, pending) ==> Syn(x.to, x.conid) in pending && x.from == l
  {
    if pending != [] {
      ResetsOnly(s, l, pending[1..]);
    }
  }

  /** Ids, once issued, and acceptors, once made, stay on record. */
  ghost predicate Grows(s: State, t: State) {
    s.made <= t.made && forall i :: i in s.issued ==> i in t.issued && t.issued[i] == s.issued[i]
  }

  /** What a step has to show. */
  lemma Keeps(s: State, t: State)
    requires Inv(s) && Grows(s, t)
    requires forall m :: m in t.net ==> m in s.net || MsgOk(t, m)
    requires forall a :: a in t.rings ==> (a in s.rings && t.rings[a] == s.rings[a]) || RingOk(t, a, t.rings[a])
    requires forall c :: c in t.made ==> c in s.made || (c.conid in t.issued && t.issued[c.conid] == (c.peer, c.ring))
    ensures Inv(t)
  {
    forall a | a in t.rings
      ensures RingOk(t, a, t.rings[a])
    {
      if a in s.rings && t.rings[a] == s.rings[a] {
        assert RingOk(s, a, s.rings[a]);
      }
    }
  }

  lemma ConnectKeeps(s: State, act: Action)
    requires Inv(s) && Enabled(s, act) && act.Connect?
    ensures Inv(Apply(s, act))
  {
    Keeps(s, Apply(s, act));
  }

  lemma DeliverKeeps(s: State, m: Msg)
    requires Inv(s) && Enabled(s, Deliver(m))
    ensures Inv(Apply(s, Deliver(m)))
  {
    ReceiveOk(s, m.to, s.rings[m.to], m);
    var t := Apply(s, Deliver(m));
    SameRecord(s, t, m.to, t.rings[m.to]);
    Keeps(s, t);
  }

  /** Whether a ring is in order depends only on the record. */
  lemma SameRecord(s: State, t: State, a: Addr, r: Ring)
    requires RingOk(s, a, r) && Grows(s, t)
    ensures RingOk(t, a, r)
  {
  }

  lemma TakeKeeps(s: State, l: Addr)
    requires Inv(s) && Enabled(s, Take(l))
    ensures Inv(Apply(s, Take(l)))
  {
    var r, t := s.rings[l], Apply(s, Take(l));
    assert RingOk(s, l, r) && SynOk(s, l, r.pending[0]);
    SameRecord(s, t, l, r.(pending := r.pending[1..], taken := r.taken + multiset{r.pending[0]}));
    Keeps(s, t);
  }

  lemma PublishKeeps(s: State, l: Addr, syn: Syn)
    requires Inv(s) && Enabled(s, Publish(l, syn))
    ensures Inv(Apply(s, Publish(l, syn)))
  {
    var r, t := s.rings[l], Apply(s, Publish(l, syn));
    assert RingOk(s, l, r) && SynOk(s, l, syn);
    Accepted(s, t, l, r, syn);
    Keeps(s, t);
  }

  lemma Accepted(s: State, t: State, l: Addr, r: Ring, syn: Syn)
    requires r.Listener? && RingOk(s, l, r) && Grows(s, t) && Made(l, syn.from, syn.conid) in t.made
    ensures RingOk(t, l, r.(taken := r.taken - multiset{syn}, acceptors := [Acceptor(syn.conid, syn.from, true)] + r.acceptors))
  {
    SameRecord(s, t, l, r);
  }

  lemma ForgetKeeps(s: State, l: Addr, syn: Syn)
    requires Inv(s) && Enabled(s, Forget(l, syn))
    ensures Inv(Apply(s, Forget(l, syn)))
  {
    var r, t := s.rings[l], Apply(s, Forget(l, syn));
    assert RingOk(s, l, r);
    SameRecord(s, t, l, r.(taken := r.taken - multiset{syn}));
    Keeps(s, t);
  }

  lemma CloseListenerKeeps(s: State, l: Addr)
    requires Inv(s) && Enabled(s, CloseListener(l))
    ensures Inv(Apply(s, CloseListener(l)))
  {
    var r, t := s.rings[l], Apply(s, CloseListener(l));
    assert RingOk(s, l, r);
    SameRecord(s, t, l, r.(sponsor := false, pending := []));
    ResetsOnly(s, l, r.pending);
    Keeps(s, t);
  }

  lemma CloseAcceptorKeeps(s: State, l: Addr, k: nat)
    requires Inv(s) && Enabled(s, CloseAcceptor(l, k))
    ensures Inv(Apply(s, CloseAcceptor(l, k)))
  {
    var r, t := s.rings[l], Apply(s, CloseAcceptor(l, k));
    assert RingOk(s, l, r) && Made(l, r.acceptors[k].peer, r.acceptors[k].conid) in s.made;
    SameRecord(s, t, l, r.(acceptors := r.acceptors[..k] + r.acceptors[k + 1..]));
    Keeps(s, t);
  }

  lemma SendKeeps(s: State, act: Action)
    requires Inv(s) && Enabled(s, act) && (act.SendFrom? || act.SendBy?)
    ensures Inv(Apply(s, act))
  {
    if act.SendFrom? {
      assert RingOk(s, act.a, s.rings[act.a]);
    } else {
      var x := s.rings[act.l].acceptors[act.k];
      assert RingOk(s, act.l, s.rings[act.l]) && Made(act.l, x.peer, x.conid) in s.made;
    }
    Keeps(s, Apply(s, act));
  }

  lemma CloseConnectorKeeps(s: State, act: Action)
    requires Inv(s) && Enabled(s, act) && act.CloseConnector?
    ensures Inv(Apply(s, act))
  {
    assert RingOk(s, act.a, s.rings[act.a]);
    Keeps(s, Apply(s, act));
  }

  lemma CallKeeps(s: State, act: Action)
    requires Inv(s) && Enabled(s, act) && (act.Resume? || act.Return? || act.Respite? || act.GiveUp?)
    ensures Inv(Apply(s, act))
  {
    assert RingOk(s, act.a, s.rings[act.a]);
    Keeps(s, Apply(s, act));
  }

  lemma StepKeeps(s: State, act: Action)
    requires Inv(s) && Enabled(s, act)
    ensures Inv(Apply(s, act))
  {
    match act
    case Connect(_, _, _, _) => ConnectKeeps(s, act);
    case Resume(_) | Return(_) | Respite(_) | GiveUp(_) => CallKeeps(s, act);
    case Deliver(m) => DeliverKeeps(s, m);
    case Lose(_) => Keeps(s, Apply(s, act));
    case Take(l) => TakeKeeps(s, l);
    case Publish(l, syn) => PublishKeeps(s, l, syn);
    case Forget(l, syn) => ForgetKeeps(s, l, syn);
    case SendFrom(_) | SendBy(_, _) => SendKeeps(s, act);
    case CloseConnector(_) => CloseConnectorKeeps(s, act);
    case CloseAcceptor(l, k) => CloseAcceptorKeeps(s, l, k);
    case CloseListener(l) => CloseListenerKeeps(s, l);
  }

  lemma {:induction false} RunKeeps(s: State, run: seq<Action>)
    requires Inv(s) && Legal(s, run)
    ensures Inv(After(s, run))
    decreases |run|
  {
    if run != [] {
      StepKeeps(s, run[0]);
      RunKeeps(Apply(s, run[0]), run[1..]);
    }
  }

  /** In every run, a connector that is connected with some id has an acceptor for it: one with that id was
      created on the ring it connects to, with the connector's ring as its peer. */
  lemma ConnectedHasAcceptor(rings: map<Addr, Ring>, run: seq<Action>, a: Addr)
    requires Unconnected(rings) && Legal(Initial(rings), run)
    requires var t := After(Initial(rings), run); IsConnector(t, a) && t.rings[a].state == Connected
    ensures var t := After(Initial(rings), run); Made(t.rings[a].peer, a, t.rings[a].conid) in t.made
  {
    RunKeeps(Initial(rings), run);
    var t := After(Initial(rings), run);
    assert RingOk(t, a, t.rings[a]);
  }

  /** In every run, what a connector takes for its connection comes from the ring it connects to, although it
      looks only at the id. */
  lemma MessagesFromPeer(rings: map<Addr, Ring>, run: seq<Action>, m: Msg)
    requires Unconnected(rings) && Legal(Initial(rings), run)
    requires var t := After(Initial(rings), run);
             Enabled(t, Deliver(m)) && Active(t.rings[m.to]) && m.conid == t.rings[m.to].conid
    ensures m.from == After(Initial(rings), run).rings[m.to].peer
  {
    RunKeeps(Initial(rings), run);
    var t := After(Initial(rings), run);
    assert RingOk(t, m.to, t.rings[m.to]) && MsgOk(t, m);
  }

  // ----- At most one acceptor for an id

  function Count(pending: seq<Syn>, conid: nat): nat {
    if pending == [] then 0 else (if pending[0].conid == conid then 1 else 0) + Count(pending[1..], conid)
  }

  lemma {:induction false} CountAppend(pending: seq<Syn>, x: Syn, conid: nat)
    ensures Count(pending + [x], conid) == Count(pending, conid) + if x.conid == conid then 1 else 0
  {
    if pending == [] {
      assert pending + [x] == [x];
    } else {
      assert (pending + [x])[1..] == pending[1..] + [x];
      CountAppend(pending[1..], x, conid);
    }
  }

  lemma {:induction false} CountEvict(pending: seq<Syn>, gone: nat, conid: nat)
    ensures Count(Evict(pending, gone), conid) <= Count(pending, conid)
  {
    if pending != [] && pending[0].conid != gone {
      CountEvict(pending[1..], gone, conid);
      assert ([pending[0]] + Evict(pending[1..], gone))[1..] == Evict(pending[1..], gone);
    }
  }

  lemma {:induction false} CountNone(pending: seq<Syn>, conid: nat)
    requires forall x :: x in pending ==> x.conid != conid
    ensures Count(pending, conid) == 0
  {
    if pending != [] {
      assert pending[0] in pending;
      CountNone(pending[1..], conid);
    }
  }

  /** How often the request is waiting on this ring: pending, or taken by a call of v4v_accept. */
  function Held(r: Ring, x: Syn): nat {
    if r.Connector? then 0 else Count(r.pending, x.conid) + r.taken[x]
  }

  function Waiting(s: State, a: Addr, b: Addr, i: nat): nat {
    if b in s.rings then Held(s.rings[b], Syn(a, i)) else 0
  }

  /** How often the request with this id is under way, waiting or accepted. */
  function Tokens(s: State, conid: nat): nat
    requires conid in s.issued
  {
    var (a, b) := s.issued[conid];
    s.net[Msg(SYN, a, b, conid)] + Waiting(s, a, b, conid) + if Made(b, a, conid) in s.made then 1 else 0
  }

  ghost predicate Once(s: State) { forall i :: i in s.issued ==> Tokens(s, i) <= 1 }

  /** Not more of a request than before: only ring l has changed, and it holds it at most as often. */
  lemma NoMore(s: State, t: State, l: Addr, i: nat)
    requires i in s.issued && i in t.issued && t.issued[i] == s.issued[i] && t.made == s.made
    requires var (a, b) := s.issued[i]; t.net[Msg(SYN, a, b, i)] <= s.net[Msg(SYN, a, b, i)]
    requires forall c :: c in t.rings && c != l ==> c in s.rings && t.rings[c] == s.rings[c]
    requires l in t.rings ==> l in s.rings && Held(t.rings[l], Syn(s.issued[i].0, i)) <= Held(s.rings[l], Syn(s.issued[i].0, i))
    ensures Tokens(t, i) <= Tokens(s, i)
  {
  }

  lemma ConnectOnce(s: State, act: Action, i: nat)
    requires Inv(s) && Once(s) && Enabled(s, act) && act.Connect? && i in Apply(s, act).issued
    ensures Tokens(Apply(s, act), i) <= 1
  {
    if i == act.conid {
      assert Msg(SYN, act.a, act.peer, i) !in s.net;
      if act.peer in s.rings && s.rings[act.peer].Listener? {
        NotHeld(s, act.peer, Syn(act.a, i));
      }
    } else {
      assert Tokens(s, i) <= 1;
      NoMore(s, Apply(s, act), act.a, i);
    }
  }

  lemma NotHeld(s: State, l: Addr, x: Syn)
    requires Inv(s) && IsListener(s, l) && x.conid !in s.issued
    ensures Held(s.rings[l], x) == 0
  {
    assert RingOk(s, l, s.rings[l]);
    assert forall y :: y in s.rings[l].pending ==> SynOk(s, l, y);
    CountNone(s.rings[l].pending, x.conid);
  }

  /** A message adds to the requests at most the one it brings. */
  lemma ReceiveCount(r: Ring, m: Msg, x: Syn)
    requires r.Listener?
    ensures (Held(ListenerReceive(r, m).0, x)
             <= Held(r, x) + if m.flag == SYN && m.conid == x.conid then 1 else 0)
  {
    CountAppend(r.pending, Syn(m.from, m.conid), x.conid);
    CountEvict(r.pending, m.conid, x.conid);
  }

  lemma ReceiveHeld(r: Ring, m: Msg, x: Syn)
    ensures Held(Receive(r, m).0, x) <= Held(r, x) + if r.Listener? && m.flag == SYN && m.conid == x.conid then 1 else 0
  {
    if r.Listener? {
      ReceiveCount(r, m, x);
    }
  }

  lemma DeliverOnce(s: State, m: Msg, i: nat)
    requires Inv(s) && Once(s) && Enabled(s, Deliver(m)) && i in s.issued
    ensures Tokens(Apply(s, Deliver(m)), i) <= 1
  {
    var t, syn := Apply(s, Deliver(m)), Msg(SYN, s.issued[i].0, s.issued[i].1, i);
    ReceiveOk(s, m.to, s.rings[m.to], m);
    NoSyn(Receive(s.rings[m.to], m).1, syn);
    ReceiveHeld(s.rings[m.to], m, Syn(syn.from, i));
    assert Tokens(s, i) <= 1 && MsgOk(s, m);
    if m == syn {
      Handed(s, t, m);
    } else {
      NoMore(s, t, m.to, i);
    }
  }

  /** A request that has been delivered is no longer under way. */
  lemma Handed(s: State, t: State, m: Msg)
    requires m.conid in s.issued && s.issued[m.conid] == (m.from, m.to) && t.issued == s.issued && t.made == s.made
    requires m.to in s.rings && m.to in t.rings && s.net[m] > 0 && t.net[m] == s.net[m] - 1
    requires Held(t.rings[m.to], Syn(m.from, m.conid)) <= Held(s.rings[m.to], Syn(m.from, m.conid)) + 1
    ensures m.flag == SYN ==> Tokens(t, m.conid) <= Tokens(s, m.conid)
  {
  }

  lemma NoSyn(out: multiset<Msg>, m: Msg)
    requires m.flag == SYN && forall x :: x in out ==> x.flag == RST
    ensures out[m] == 0
  {
  }

  lemma TakeHeld(r: Ring, x: Syn)
    requires r.Listener? && r.pending != [] && (r.pending[0].conid == x.conid ==> r.pending[0] == x)
    ensures Held(r.(pending := r.pending[1..], taken := r.taken + multiset{r.pending[0]}), x) == Held(r, x)
  {
  }

  lemma TakeOnce(s: State, l: Addr, i: nat)
    requires Inv(s) && Once(s) && Enabled(s, Take(l)) && i in s.issued
    ensures var (a, b) := s.issued[i]; Waiting(Apply(s, Take(l)), a, b, i) == Waiting(s, a, b, i)
    ensures Tokens(Apply(s, Take(l)), i) <= 1
  {
    assert Tokens(s, i) <= 1;
    var (a, b) := s.issued[i];
    assert RingOk(s, l, s.rings[l]) && SynOk(s, l, s.rings[l].pending[0]);
    if l == b {
      TakeHeld(s.rings[l], Syn(a, i));
    }
  }

  /** Nothing has been accepted for a request that is about to be. */
  lemma AcceptOnce(s: State, l: Addr, syn: Syn)
    requires Inv(s) && Once(s) && Enabled(s, Publish(l, syn))
    ensures syn.conid in s.issued && s.issued[syn.conid] == (syn.from, l) && Made(l, syn.from, syn.conid) !in s.made
    ensures Tokens(s, syn.conid) <= 1
  {
    assert RingOk(s, l, s.rings[l]) && SynOk(s, l, syn);
  }

  lemma PublishOnce(s: State, l: Addr, syn: Syn, i: nat)
    requires Inv(s) && Once(s) && Enabled(s, Publish(l, syn)) && i in s.issued
    ensures Tokens(Apply(s, Publish(l, syn)), i) <= 1
  {
    assert Tokens(s, i) <= 1;
    AcceptOnce(s, l, syn);
    if i != syn.conid {
      var t := Apply(s, Publish(l, syn));
      NoMore(s, t.(made := s.made), l, i);
      assert Tokens(t.(made := s.made), i) == Tokens(t, i);
    }
  }

  lemma ForgetOnce(s: State, l: Addr, syn: Syn, i: nat)
    requires Inv(s) && Once(s) && Enabled(s, Forget(l, syn)) && i in s.issued
    ensures Tokens(Apply(s, Forget(l, syn)), i) <= 1
  {
    assert Tokens(s, i) <= 1;
    NoMore(s, Apply(s, Forget(l, syn)), l, i);
  }

  lemma CloseListenerOnce(s: State, l: Addr, i: nat)
    requires Inv(s) && Once(s) && Enabled(s, CloseListener(l)) && i in s.issued
    ensures Tokens(Apply(s, CloseListener(l)), i) <= 1
  {
    assert Tokens(s, i) <= 1;
    assert RingOk(s, l, s.rings[l]);
    ResetsOnly(s, l, s.rings[l].pending);
    NoSyn(Resets(l, s.rings[l].pending), Msg(SYN, s.issued[i].0, s.issued[i].1, i));
    NoMore(s, Apply(s, CloseListener(l)), l, i);
  }

  lemma CloseAcceptorOnce(s: State, l: Addr, k: nat, i: nat)
    requires Once(s) && Enabled(s, CloseAcceptor(l, k)) && i in s.issued
    ensures Tokens(Apply(s, CloseAcceptor(l, k)), i) <= 1
  {
    assert Tokens(s, i) <= 1;
    NoMore(s, Apply(s, CloseAcceptor(l, k)), l, i);
  }

  lemma CallOnce(s: State, act: Action, i: nat)
    requires Once(s) && Enabled(s, act) && i in s.issued
    requires act.Resume? || act.Return? || act.Respite? || act.GiveUp? || act.CloseConnector?
    ensures Tokens(Apply(s, act), i) <= 1
  {
    assert Tokens(s, i) <= 1;
    NoMore(s, Apply(s, act), act.a, i);
  }

  lemma SendOnce(s: State, act: Action, i: nat)
    requires Once(s) && Enabled(s, act) && i in s.issued && (act.Lose? || act.SendFrom? || act.SendBy?)
    ensures Tokens(Apply(s, act), i) <= 1
  {
    assert Tokens(s, i) <= 1;
  }

  lemma StepOnce(s: State, act: Action)
    requires Inv(s) && Once(s) && Enabled(s, act)
    ensures Once(Apply(s, act))
  {
    forall i | i in Apply(s, act).issued
      ensures Tokens(Apply(s, act), i) <= 1
    {
      IssuedBy(s, act, i);
      match act {
        case Connect(_, _, _, _) => ConnectOnce(s, act, i);
        case Deliver(m) => DeliverOnce(s, m, i);
        case Take(l) => TakeOnce(s, l, i);
        case Publish(l, syn) => PublishOnce(s, l, syn, i);
        case Forget(l, syn) => ForgetOnce(s, l, syn, i);
        case CloseListener(l) => CloseListenerOnce(s, l, i);
        case CloseAcceptor(l, k) => CloseAcceptorOnce(s, l, k, i);
        case Lose(_) | SendFrom(_) | SendBy(_, _) => SendOnce(s, act, i);
        case _ => CallOnce(s, act, i);
      }
    }
  }

  lemma IssuedBy(s: State, act: Action, i: nat)
    requires Inv(s) && Enabled(s, act) && i in Apply(s, act).issued
    ensures (i in s.issued && Apply(s, act).issued[i] == s.issued[i]) || (act.Connect? && i == act.conid)
  {
  }

  lemma {:induction false} RunOnce(s: State, run: seq<Action>)
    requires Inv(s) && Once(s) && Legal(s, run)
    ensures Inv(After(s, run)) && Once(After(s, run))
    decreases |run|
  {
    if run != [] {
      StepKeeps(s, run[0]);
      StepOnce(s, run[0]);
      RunOnce(Apply(s, run[0]), run[1..]);
    }
  }

  /** In every run, an accept makes an acceptor for an id that has had none before. */
  lemma AcceptedOnce(rings: map<Addr, Ring>, run: seq<Action>, l: Addr, syn: Syn)
    requires Unconnected(rings) && Legal(Initial(rings), run) && Enabled(After(Initial(rings), run), Publish(l, syn))
    ensures forall c :: c in After(Initial(rings), run).made ==> c.conid != syn.conid
  {
    RunOnce(Initial(rings), run);
    AcceptOnce(After(Initial(rings), run), l, syn);
  }

  // ----- Stray RSTs

  /** An RST between two connectors with an id that neither of them uses. */
  ghost predicate Stray(s: State, a: Addr, b: Addr, conid: nat) {
    && IsConnector(s, a) && IsConnector(s, b) && Msg(RST, a, b, conid) in s.net
    && s.rings[a].state != Bound && s.rings[a].conid != conid && s.rings[b].state != Bound && s.rings[b].conid != conid
  }

  /** The message that m is answered with, if it is answered with an RST. */
  function Back(m: Msg): Msg { Msg(RST, m.to, m.from, m.conid) }

  /** An RST can be delivered and is answered with an RST exactly if it gets to a connector that uses another id. */
  lemma ResetAnsweredIff(s: State, m: Msg)
    requires m.flag == RST && m in s.net
    ensures (Enabled(s, Deliver(m)) && Receive(s.rings[m.to], m).1 != multiset{}
             <==> IsConnector(s, m.to) && s.rings[m.to].state != Bound && s.rings[m.to].conid != m.conid)
    ensures Enabled(s, Deliver(m)) && Receive(s.rings[m.to], m).1 != multiset{} ==>
              Apply(s, Deliver(m)) == s.(net := s.net - multiset{m} + multiset{Back(m)})
  {
    if Enabled(s, Deliver(m)) && Receive(s.rings[m.to], m).1 != multiset{} {
      assert s.rings[m.to := s.rings[m.to]] == s.rings;
    }
  }

  /** The RST, and then the answers, can be delivered n times, each of them but perhaps the last answered by an RST. */
  ghost predicate Bounces(s: State, m: Msg, n: nat)
    decreases n
  {
    n > 0 ==>
      && m in s.net && Enabled(s, Deliver(m)) && Receive(s.rings[m.to], m).1 != multiset{}
      && Bounces(Apply(s, Deliver(m)), Back(m), n - 1)
  }

  ghost predicate BouncesForever(s: State, m: Msg) { forall n: nat :: Bounces(s, m, n) }

  /** Two answers, and everything is as it was. */
  lemma StrayReset(s: State, a: Addr, b: Addr, conid: nat)
    requires Stray(s, a, b, conid)
    ensures var m, n := Msg(RST, a, b, conid), Msg(RST, b, a, conid);
            && Bounces(s, m, 2)
            && var t := Apply(s, Deliver(m)); Enabled(t, Deliver(n)) && Apply(t, Deliver(n)) == s
  {
    var m, n := Msg(RST, a, b, conid), Msg(RST, b, a, conid);
    ResetAnsweredIff(s, m);
    var t := Apply(s, Deliver(m));
    ResetAnsweredIff(t, n);
    assert s.net - multiset{m} + multiset{n} - multiset{n} + multiset{m} == s.net;
    assert Bounces(t, n, 1);
  }

  lemma {:induction false} StrayBounces(s: State, a: Addr, b: Addr, conid: nat, n: nat)
    requires Stray(s, a, b, conid)
    ensures Bounces(s, Msg(RST, a, b, conid), n)
  {
    StrayReset(s, a, b, conid);
    if n > 1 {
      StrayBounces(s, a, b, conid, n - 2);
      assert Bounces(Apply(s, Deliver(Msg(RST, a, b, conid))), Msg(RST, b, a, conid), n - 1);
    }
  }

  lemma AnsweredTwice(s: State, m: Msg)
    requires m.flag == RST && Bounces(s, m, 2)
    ensures Stray(s, m.from, m.to, m.conid)
  {
    ResetAnsweredIff(s, m);
    var t := Apply(s, Deliver(m));
    assert Bounces(t, Back(m), 1);
    ResetAnsweredIff(t, Back(m));
  }

  /** An RST bounces to and fro for ever exactly if it is stray. */
  lemma BouncesIffStray(s: State, m: Msg)
    requires m.flag == RST && m in s.net
    ensures BouncesForever(s, m) <==> Stray(s, m.from, m.to, m.conid)
  {
    if Stray(s, m.from, m.to, m.conid) {
      forall n: nat
        ensures Bounces(s, m, n)
      {
        StrayBounces(s, m.from, m.to, m.conid, n);
      }
    }
    if BouncesForever(s, m) {
      assert Bounces(s, m, 2);
      AnsweredTwice(s, m);
    }
  }

  /** Two rings connect to each other; one of them times out, and tries again. */
  lemma StrayResetArises() returns (run: seq<Action>)
    ensures var rings := map[0 := Connector(Bound, 0, 0, false), 1 := Connector(Bound, 0, 0, false)];
            Unconnected(rings) && Legal(Initial(rings), run) && Stray(After(Initial(rings), run), 1, 0, 5)
  {
    var s0 := Initial(map[0 := Connector(Bound, 0, 0, false), 1 := Connector(Bound, 0, 0, false)]);
    var s1 := Apply(s0, Connect(1, 0, 7, true));
    var s2 := Apply(s1, Connect(0, 1, 5, true));
    run := TriesAgain(s2);
    run := First(s1, Connect(0, 1, 5, true), run);
    run := First(s0, Connect(1, 0, 7, true), run);
  }

  lemma TriesAgain(s: State) returns (run: seq<Action>)
    requires s.rings == map[0 := Connector(Connecting, 5, 1, true), 1 := Connector(Connecting, 7, 0, true)]
    requires Msg(SYN, 0, 1, 5) in s.net && 6 !in s.issued
    ensures Legal(s, run) && Stray(After(s, run), 1, 0, 5)
  {
    var t := Apply(s, Respite(0));
    var u := Apply(t, GiveUp(0));
    var v := Apply(u, Connect(0, 1, 6, true));
    assert v.rings == map[0 := Connector(Connecting, 6, 1, true), 1 := Connector(Connecting, 7, 0, true)];
    run := First(v, Deliver(Msg(SYN, 0, 1, 5)), []);
    run := First(u, Connect(0, 1, 6, true), run);
    run := First(t, GiveUp(0), run);
    run := First(s, Respite(0), run);
  }
}
