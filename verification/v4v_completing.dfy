/** V4V stream connections (linux/v4v.c) that nobody disturbs: they can always be completed, and nothing breaks
    them but a cause. */
module V4vCompleting {
  import opened V4vHandshake
  import opened V4vClosing

  // ----- Nothing is reset without a cause

  /** No socket is closed, no timer ends a call, and connections are only asked of listening sockets. */
  predicate Calm(s: State, act: Action) {
    && !act.Respite? && !act.CloseConnector? && !act.CloseAcceptor? && !act.CloseListener?
    && (act.Connect? ==> IsListener(s, act.peer) && s.rings[act.peer].sponsor)
  }

  ghost predicate CalmRun(s: State, run: seq<Action>)
    requires Legal(s, run)
    decreases |run|
  {
    run == [] || (Calm(s, run[0]) && CalmRun(Apply(s, run[0]), run[1..]))
  }

  predicate RingUp(r: Ring) {
    if r.Connector? then r.state != Disconnected
    else r.sponsor && forall k :: 0 <= k < |r.acceptors| ==> r.acceptors[k].live
  }

  ghost predicate AllUp(s: State) {
    && (forall m :: m in s.net ==> m.flag != RST)
    && (forall a :: a in s.rings ==> RingUp(s.rings[a]))
  }

  /** Both ends are there: the connector with the id, and the listening ring. */
  predicate Joined(s: State, i: nat)
    requires i in s.issued
  {
    Wants(s, s.issued[i].0, i) && IsListener(s, s.issued[i].1)
  }

  /** There is at most one acknowledgement, and the connector has not taken it before. */
  predicate AckOnce(s: State, i: nat)
    requires i in s.issued && Joined(s, i)
  {
    var (a, b) := s.issued[i];
    (s.net[Msg(ACK, b, a, i)] + (if s.rings[a].state == Connected then 1 else 0)
     <= if Made(b, a, i) in s.made then 1 else 0)
  }

  ghost predicate Ends(s: State) {
    && (forall i :: i in s.issued ==> Joined(s, i) && AckOnce(s, i))
    && (forall c :: c in s.made ==> Serves(s, c.ring, c.peer, c.conid))
  }

  ghost predicate Undisturbed(s: State) { Base(s) && AllUp(s) && Ends(s) }

  /** A connector takes acknowledgement and data as it should. */
  lemma ConnectorCalm(s: State, m: Msg)
    requires Undisturbed(s) && Enabled(s, Deliver(m)) && s.rings[m.to].Connector?
    ensures var r := s.rings[m.to];
            && m.conid in s.issued && s.issued[m.conid] == (m.to, m.from) && m.conid == r.conid
            && ConnectorReceive(r, m) == (if m.flag == ACK then r.(state := Connected) else r, multiset{})
            && (m.flag == ACK ==> r.state == Connecting)
  {
    assert MsgOk(s, m) && Joined(s, m.conid) && AckOnce(s, m.conid);
    assert Made(m.to, m.from, m.conid) !in s.made;
  }

  /** A listening ring queues a request, or knows the socket that data is for. */
  lemma ListenerCalm(s: State, m: Msg)
    requires Undisturbed(s) && Enabled(s, Deliver(m)) && s.rings[m.to].Listener?
    ensures var r := s.rings[m.to];
            ListenerReceive(r, m) == (if m.flag == SYN then r.(pending := r.pending + [Syn(m.from, m.conid)]) else r, multiset{})
  {
    var r := s.rings[m.to];
    assert MsgOk(s, m) && Joined(s, m.conid) && RingUp(r) && RingOk(s, m.to, r);
    var k := Find(r.acceptors, m);
    assert k < |r.acceptors| ==> Made(m.to, r.acceptors[k].peer, r.acceptors[k].conid) in s.made;
    if m.flag == SYN {
      assert Tokens(s, m.conid) <= 1;
    } else if m.flag == DATA {
      DataServed(s, m);
    }
  }

  lemma DataServed(s: State, m: Msg)
    requires Undisturbed(s) && m in s.net && m.flag == DATA && IsListener(s, m.to)
    ensures Find(s.rings[m.to].acceptors, m) < |s.rings[m.to].acceptors|
  {
    var acc := s.rings[m.to].acceptors;
    assert MsgOk(s, m) && Joined(s, m.conid);
    assert Made(m.from, m.to, m.conid) !in s.made;
    assert Serves(s, m.to, m.from, m.conid);
  }

  /** Ring a is replaced by one that is up, and nothing is sent. */
  lemma OneUp(s: State, t: State, a: Addr)
    requires AllUp(s) && a in t.rings && RingUp(t.rings[a])
    requires forall b :: b in t.rings && b != a ==> b in s.rings && t.rings[b] == s.rings[b]
    requires t.net <= s.net
    ensures AllUp(t)
  {
    assert forall m :: m in t.net ==> m in s.net;
  }

  lemma ConnectorUp(s: State, m: Msg)
    requires Undisturbed(s) && Enabled(s, Deliver(m)) && s.rings[m.to].Connector?
    ensures RingUp(Receive(s.rings[m.to], m).0) && Receive(s.rings[m.to], m).1 == multiset{}
  {
    ConnectorCalm(s, m);
  }

  lemma ListenerUp(s: State, m: Msg)
    requires Undisturbed(s) && Enabled(s, Deliver(m)) && s.rings[m.to].Listener?
    ensures RingUp(Receive(s.rings[m.to], m).0) && Receive(s.rings[m.to], m).1 == multiset{}
  {
    assert RingUp(s.rings[m.to]);
    ListenerCalm(s, m);
  }

  lemma DeliverUp(s: State, m: Msg)
    requires Undisturbed(s) && Enabled(s, Deliver(m))
    ensures AllUp(Apply(s, Deliver(m)))
  {
    if s.rings[m.to].Connector? {
      ConnectorUp(s, m);
    } else {
      ListenerUp(s, m);
    }
    OneUp(s, Apply(s, Deliver(m)), m.to);
  }

  lemma CallUp(s: State, act: Action)
    requires AllUp(s) && Enabled(s, act) && (act.Connect? || act.Resume? || act.Return? || act.GiveUp?)
    ensures AllUp(Apply(s, act))
  {
    assert RingUp(s.rings[act.a]);
  }

  lemma PublishUp(s: State, l: Addr, syn: Syn)
    requires AllUp(s) && Enabled(s, Publish(l, syn))
    ensures AllUp(Apply(s, Publish(l, syn)))
  {
    assert RingUp(s.rings[l]);
    AcceptUp(s.rings[l].acceptors, syn);
  }

  lemma TakeUp(s: State, act: Action)
    requires AllUp(s) && Enabled(s, act) && (act.Take? || act.Forget?)
    ensures AllUp(Apply(s, act))
  {
    assert RingUp(s.rings[act.l]);
  }

  lemma SendUp(s: State, act: Action)
    requires AllUp(s) && Enabled(s, act) && (act.SendFrom? || act.SendBy? || act.Lose?)
    ensures AllUp(Apply(s, act))
  {
  }

  lemma StaysUp(s: State, act: Action)
    requires Undisturbed(s) && Enabled(s, act) && Calm(s, act)
    ensures AllUp(Apply(s, act))
  {
    match act
    case Deliver(m) => DeliverUp(s, m);
    case Publish(l, syn) => PublishUp(s, l, syn);
    case Take(_) | Forget(_, _) => TakeUp(s, act);
    case Connect(_, _, _, _) | Resume(_) | Return(_) | GiveUp(_) => CallUp(s, act);
    case _ => SendUp(s, act);
  }

  lemma AcceptUp(acceptors: seq<Acceptor>, x: Syn)
    requires forall k :: 0 <= k < |acceptors| ==> acceptors[k].live
    ensures var t := [Acceptor(x.conid, x.from, true)] + acceptors; forall k :: 0 <= k < |t| ==> t[k].live
  {
  }

  // ----- The ends stay

  lemma DeliverEnds(s: State, m: Msg)
    requires Undisturbed(s) && Enabled(s, Deliver(m))
    ensures Ends(Apply(s, Deliver(m)))
  {
    var t := Apply(s, Deliver(m));
    forall i | i in t.issued
      ensures Joined(t, i) && AckOnce(t, i)
    {
      DeliverEnd(s, m, i);
    }
    forall c | c in t.made
      ensures Serves(t, c.ring, c.peer, c.conid)
    {
      StillServes(s, m, c);
    }
  }

  lemma StillServes(s: State, m: Msg, c: Made)
    requires Undisturbed(s) && Enabled(s, Deliver(m)) && c in s.made
    ensures Serves(Apply(s, Deliver(m)), c.ring, c.peer, c.conid)
  {
    DeliverServes(s, m, c.ring, c.peer, c.conid);
  }

  lemma DeliverEnd(s: State, m: Msg, i: nat)
    requires Undisturbed(s) && Enabled(s, Deliver(m)) && i in s.issued
    ensures Joined(Apply(s, Deliver(m)), i) && AckOnce(Apply(s, Deliver(m)), i)
  {
    if s.rings[m.to].Connector? {
      DeliverToConnector(s, m, i);
    } else {
      DeliverToListener(s, m, i);
    }
  }

  lemma DeliverToConnector(s: State, m: Msg, i: nat)
    requires Undisturbed(s) && Enabled(s, Deliver(m)) && i in s.issued && s.rings[m.to].Connector?
    ensures Joined(Apply(s, Deliver(m)), i) && AckOnce(Apply(s, Deliver(m)), i)
  {
    ConnectorCalm(s, m);
    var r := s.rings[m.to];
    var q := if m.flag == ACK then r.(state := Connected) else r;
    var t := s.(rings := s.rings[m.to := q], net := s.net - multiset{m});
    assert Joined(s, i) && AckOnce(s, i);
    AckTaken(s, t, m, q, i);
    assert Apply(s, Deliver(m)) == t;
  }

  lemma AckTaken(s: State, t: State, m: Msg, q: Ring, i: nat)
    requires i in s.issued && Joined(s, i) && AckOnce(s, i) && m in s.net
    requires IsConnector(s, m.to) && q == if m.flag == ACK then s.rings[m.to].(state := Connected) else s.rings[m.to]
    requires m.conid in s.issued && s.issued[m.conid] == (m.to, m.from) && m.conid == s.rings[m.to].conid
    requires m.flag == ACK ==> s.rings[m.to].state == Connecting
    requires t == s.(rings := s.rings[m.to := q], net := s.net - multiset{m})
    ensures Joined(t, i) && AckOnce(t, i)
  {
  }

  lemma DeliverToListener(s: State, m: Msg, i: nat)
    requires Undisturbed(s) && Enabled(s, Deliver(m)) && i in s.issued && s.rings[m.to].Listener?
    ensures Joined(Apply(s, Deliver(m)), i) && AckOnce(Apply(s, Deliver(m)), i)
  {
    ListenerCalm(s, m);
    assert Joined(s, i) && AckOnce(s, i);
    SameEnd(s, Apply(s, Deliver(m)), i);
  }

  /** Nothing has changed for this connection. */
  lemma SameEnd(s: State, t: State, i: nat)
    requires i in s.issued && Joined(s, i) && AckOnce(s, i) && i in t.issued && t.issued[i] == s.issued[i]
    requires var (a, b) := s.issued[i];
             && a in t.rings && t.rings[a] == s.rings[a] && IsListener(t, b)
             && t.net[Msg(ACK, b, a, i)] == s.net[Msg(ACK, b, a, i)] && s.made <= t.made
    ensures Joined(t, i) && AckOnce(t, i)
  {
  }

  lemma AcceptEnds(s: State, l: Addr, syn: Syn)
    requires Undisturbed(s) && Enabled(s, Publish(l, syn))
    ensures Ends(Apply(s, Publish(l, syn)))
  {
    var t := Apply(s, Publish(l, syn));
    AcceptOnce(s, l, syn);
    forall i | i in t.issued
      ensures Joined(t, i) && AckOnce(t, i)
    {
      AcceptEnd(s, l, syn, i);
    }
    forall c | c in t.made
      ensures Serves(t, c.ring, c.peer, c.conid)
    {
      AcceptedServes(s, l, syn, c);
    }
  }

  lemma AcceptedServes(s: State, l: Addr, syn: Syn, c: Made)
    requires Ends(s) && Enabled(s, Publish(l, syn)) && c in Apply(s, Publish(l, syn)).made
    ensures Serves(Apply(s, Publish(l, syn)), c.ring, c.peer, c.conid)
  {
    if c in s.made {
      AcceptServes(s, l, syn, c.ring, c.peer, c.conid);
    } else {
      assert Apply(s, Publish(l, syn)).rings[l].acceptors[0] == Acceptor(c.conid, c.peer, true);
    }
  }

  lemma AcceptEnd(s: State, l: Addr, syn: Syn, i: nat)
    requires Ends(s) && Enabled(s, Publish(l, syn)) && i in s.issued
    requires syn.conid in s.issued && s.issued[syn.conid] == (syn.from, l) && Made(l, syn.from, syn.conid) !in s.made
    ensures Joined(Apply(s, Publish(l, syn)), i) && AckOnce(Apply(s, Publish(l, syn)), i)
  {
    assert Joined(s, i) && AckOnce(s, i);
    var t := Apply(s, Publish(l, syn));
    if i != syn.conid {
      assert Msg(ACK, s.issued[i].1, s.issued[i].0, i) != Msg(ACK, l, syn.from, syn.conid);
      SameEnd(s, t, i);
    }
  }

  lemma FreshId(s: State, i: nat)
    requires Inv(s) && i !in s.issued
    ensures forall m :: m in s.net ==> m.conid != i
  {
    assert forall m :: m in s.net ==> MsgOk(s, m);
  }

  lemma ConnectEnd(s: State, act: Action, i: nat)
    requires Undisturbed(s) && Enabled(s, act) && Calm(s, act) && act.Connect? && i in Apply(s, act).issued
    ensures Joined(Apply(s, act), i) && AckOnce(Apply(s, act), i)
  {
    if i in s.issued {
      assert Joined(s, i) && AckOnce(s, i);
      SameEnd(s, Apply(s, act), i);
    } else {
      FreshId(s, i);
    }
  }

  lemma ConnectEnds(s: State, act: Action)
    requires Undisturbed(s) && Enabled(s, act) && Calm(s, act) && act.Connect?
    ensures Ends(Apply(s, act))
  {
    var t := Apply(s, act);
    forall i | i in t.issued
      ensures Joined(t, i) && AckOnce(t, i)
    {
      ConnectEnd(s, act, i);
    }
    forall c | c in t.made
      ensures Serves(t, c.ring, c.peer, c.conid)
    {
      assert Serves(s, c.ring, c.peer, c.conid);
    }
  }

  /** The other steps leave the ends alone. */
  lemma SameEnds(s: State, t: State)
    requires Ends(s) && t.issued == s.issued && t.made == s.made
    requires forall i :: i in s.issued ==> Joined(t, i) && Alike(s, t, i)
    requires forall b :: IsListener(s, b) ==> IsListener(t, b) && t.rings[b].acceptors == s.rings[b].acceptors
    ensures Ends(t)
  {
    forall i | i in t.issued
      ensures AckOnce(t, i)
    {
      assert Alike(s, t, i) && Joined(s, i) && AckOnce(s, i);
    }
  }

  /** As many acknowledgements as before, or fewer, and the same state of the connector. */
  predicate Alike(s: State, t: State, i: nat)
    requires i in s.issued && t.issued == s.issued && Joined(t, i)
  {
    var (a, b) := s.issued[i];
    && t.net[Msg(ACK, b, a, i)] <= s.net[Msg(ACK, b, a, i)]
    && IsConnector(s, a) && (t.rings[a].state == Connected ==> s.rings[a].state == Connected)
  }

  lemma CallEnd(s: State, act: Action, i: nat)
    requires i in s.issued && Joined(s, i) && Enabled(s, act) && (act.Resume? || act.Return?)
    ensures Joined(Apply(s, act), i) && Alike(s, Apply(s, act), i)
  {
  }

  lemma CallEnds(s: State, act: Action)
    requires Ends(s) && Enabled(s, act) && (act.Resume? || act.Return?)
    ensures Ends(Apply(s, act))
  {
    forall i | i in s.issued
      ensures Joined(Apply(s, act), i) && Alike(s, Apply(s, act), i)
    {
      CallEnd(s, act, i);
    }
    SameEnds(s, Apply(s, act));
  }

  lemma QuietEnd(s: State, act: Action, i: nat)
    requires i in s.issued && Joined(s, i) && Enabled(s, act) && IsQuiet(act)
    ensures Joined(Apply(s, act), i) && Alike(s, Apply(s, act), i)
  {
  }

  lemma TakeEnd(s: State, act: Action, i: nat)
    requires i in s.issued && Joined(s, i) && Enabled(s, act) && (act.Take? || act.Forget?)
    ensures Joined(Apply(s, act), i) && Alike(s, Apply(s, act), i)
  {
  }

  lemma QuietEnds(s: State, act: Action)
    requires Ends(s) && Enabled(s, act) && IsQuiet(act)
    ensures Ends(Apply(s, act))
  {
    forall i | i in s.issued
      ensures Joined(Apply(s, act), i) && Alike(s, Apply(s, act), i)
    {
      QuietEnd(s, act, i);
    }
    SameEnds(s, Apply(s, act));
  }

  lemma TakeEnds(s: State, act: Action)
    requires Ends(s) && Enabled(s, act) && (act.Take? || act.Forget?)
    ensures Ends(Apply(s, act))
  {
    forall i | i in s.issued
      ensures Joined(Apply(s, act), i) && Alike(s, Apply(s, act), i)
    {
      TakeEnd(s, act, i);
    }
    SameEnds(s, Apply(s, act));
  }

  lemma NobodyGivesUp(s: State, a: Addr)
    requires AllUp(s) && IsConnector(s, a)
    ensures !Enabled(s, GiveUp(a))
  {
    assert RingUp(s.rings[a]);
  }

  lemma StepUndisturbed(s: State, act: Action)
    requires Undisturbed(s) && Enabled(s, act) && Calm(s, act)
    ensures Undisturbed(Apply(s, act))
  {
    BaseKept(s, act);
    StaysUp(s, act);
    match act
    case Deliver(m) => DeliverEnds(s, m);
    case Publish(l, syn) => AcceptEnds(s, l, syn);
    case Take(_) | Forget(_, _) => TakeEnds(s, act);
    case Connect(_, _, _, _) => ConnectEnds(s, act);
    case Resume(_) | Return(_) => CallEnds(s, act);
    case GiveUp(a) =>
      NobodyGivesUp(s, a);
      assert false;
    case _ => QuietEnds(s, act);
  }

  lemma {:induction false} RunUndisturbed(s: State, run: seq<Action>)
    requires Undisturbed(s) && Legal(s, run) && CalmRun(s, run)
    ensures Undisturbed(After(s, run))
    decreases |run|
  {
    if run != [] {
      StepUndisturbed(s, run[0]);
      RunUndisturbed(Apply(s, run[0]), run[1..]);
    }
  }

  /** In every run in which nothing is closed and no timer ends a call, with whatever delay, reordering and loss, no
      RST is ever sent, and no connection ends. */
  lemma NothingRefused(rings: map<Addr, Ring>, run: seq<Action>)
    requires Unconnected(rings) && forall a :: a in rings && rings[a].Listener? ==> rings[a].sponsor
    requires Legal(Initial(rings), run) && CalmRun(Initial(rings), run)
    ensures var t := After(Initial(rings), run);
            && (forall m :: m in t.net ==> m.flag != RST)
            && (forall a :: IsConnector(t, a) ==> t.rings[a].state != Disconnected)
            && (forall i :: i in t.issued ==> Wants(t, t.issued[i].0, i))
            && (forall c :: c in t.made ==> Serves(t, c.ring, c.peer, c.conid))
  {
    InitialBase(rings);
    RunUndisturbed(Initial(rings), run);
    var t := After(Initial(rings), run);
    assert forall a :: a in t.rings ==> RingUp(t.rings[a]);
    assert forall i :: i in t.issued ==> Joined(t, i);
  }

  // ----- A connection can be completed

  /** Connector a has asked, and its request is the last in the queue of b. */
  predicate Asked(s: State, a: Addr, b: Addr, i: nat) {
    && IsConnector(s, a) && s.rings[a].state == Connecting && s.rings[a].conid == i && s.rings[a].peer == b
    && IsListener(s, b) && s.rings[b].sponsor
    && var pending := s.rings[b].pending; pending != [] && pending[|pending| - 1] == Syn(a, i)
  }

  predicate Established(s: State, a: Addr, b: Addr, i: nat) {
    && IsConnector(s, a) && s.rings[a].state == Connected && s.rings[a].conid == i && s.rings[a].peer == b
    && Serves(s, b, a, i)
  }

  lemma Acknowledged(s: State, a: Addr, b: Addr, i: nat) returns (run: seq<Action>)
    requires Asked(s, a, b, i) && |s.rings[b].pending| == 1
    ensures Legal(s, run) && Established(After(s, run), a, b, i)
  {
    var ack := Deliver(Msg(ACK, b, a, i));
    var t := Apply(s, Take(b));
    var u := Apply(t, Publish(b, Syn(a, i)));
    assert u.rings[b].acceptors[0] == Acceptor(i, a, true);
    assert Established(Apply(u, ack), a, b, i);
    run := First(u, ack, []);
    run := First(t, Publish(b, Syn(a, i)), run);
    run := First(s, Take(b), run);
  }

  lemma {:induction false} AcceptsAll(s: State, a: Addr, b: Addr, i: nat) returns (run: seq<Action>)
    requires Asked(s, a, b, i)
    ensures Legal(s, run) && Established(After(s, run), a, b, i)
    decreases |s.rings[b].pending|
  {
    if |s.rings[b].pending| == 1 {
      run := Acknowledged(s, a, b, i);
    } else {
      var t := Apply(s, Take(b));
      assert Asked(t, a, b, i);
      var rest := AcceptsAll(t, a, b, i);
      run := First(s, Take(b), rest);
    }
  }

  lemma NoSocketYet(s: State, b: Addr, i: nat)
    requires Inv(s) && i !in s.issued && IsListener(s, b)
    ensures forall k :: 0 <= k < |s.rings[b].acceptors| ==> s.rings[b].acceptors[k].conid != i
  {
    var acc := s.rings[b].acceptors;
    assert RingOk(s, b, s.rings[b]);
    assert forall k :: 0 <= k < |acc| ==> Made(b, acc[k].peer, acc[k].conid) in s.made;
  }

  lemma RequestQueued(s: State, a: Addr, b: Addr, i: nat)
    requires Base(s) && Enabled(s, Connect(a, b, i, true)) && IsListener(s, b) && s.rings[b].sponsor
    requires |s.rings[b].pending| <= MAX_PENDING_RECVS
    ensures var t := Apply(s, Connect(a, b, i, true));
            && Enabled(t, Deliver(Msg(SYN, a, b, i)))
            && Asked(Apply(t, Deliver(Msg(SYN, a, b, i))), a, b, i)
  {
    var r := s.rings[b];
    var m := Msg(SYN, a, b, i);
    var k := Find(r.acceptors, m);
    NoSocketYet(s, b, i);
    assert k == |r.acceptors|;
    assert ListenerReceive(r, m).0.pending == r.pending + [Syn(a, i)];
  }

  /** In every state of every run, a connector that is free can get a connection from any listening socket whose queue
      is not full, with a socket at the other end. */
  lemma ConnectionPossible(rings: map<Addr, Ring>, before: seq<Action>, a: Addr, b: Addr, i: nat) returns (run: seq<Action>)
    requires Unconnected(rings) && Legal(Initial(rings), before)
    requires var s := After(Initial(rings), before);
             && Enabled(s, Connect(a, b, i, true)) && IsListener(s, b) && s.rings[b].sponsor
             && |s.rings[b].pending| <= MAX_PENDING_RECVS
    ensures var s := After(Initial(rings), before); Legal(s, run) && Established(After(s, run), a, b, i)
  {
    InitialBase(rings);
    RunBase(Initial(rings), before);
    var s := After(Initial(rings), before);
    var syn := Deliver(Msg(SYN, a, b, i));
    var t := Apply(s, Connect(a, b, i, true));
    RequestQueued(s, a, b, i);
    run := AcceptsAll(Apply(t, syn), a, b, i);
    run := First(t, syn, run);
    run := First(s, Connect(a, b, i, true), run);
  }

  lemma {:induction false} RunBase(s: State, run: seq<Action>)
    requires Base(s) && Legal(s, run)
    ensures Base(After(s, run))
    decreases |run|
  {
    if run != [] {
      BaseKept(s, run[0]);
      RunBase(Apply(s, run[0]), run[1..]);
    }
  }
}
