/** How the two ends of a V4V stream connection (linux/v4v.c) learn that the other one is gone: each end that
    goes, or finds no partner, answers with an RST. */
module V4vClosing {
  import opened V4vHandshake

  // ----- The two ends of a connection

  /** Ring a is setting up or has the connection with this id. */
  predicate Wants(s: State, a: Addr, i: nat) { IsConnector(s, a) && Active(s.rings[a]) && s.rings[a].conid == i }

  predicate HasLive(acceptors: seq<Acceptor>, a: Addr, i: nat) {
    exists k :: 0 <= k < |acceptors| && acceptors[k] == Acceptor(i, a, true)
  }

  /** Ring b has an accepted socket for it. */
  predicate Serves(s: State, b: Addr, a: Addr, i: nat) { IsListener(s, b) && HasLive(s.rings[b].acceptors, a, i) }

  /** The connection has not got anywhere near b, or is over there. */
  predicate NoTrace(s: State, a: Addr, b: Addr, i: nat) {
    Msg(SYN, a, b, i) !in s.net && Waiting(s, a, b, i) == 0 && !Serves(s, b, a, i)
  }

  // ----- Rings keep their kind

  ghost predicate Kinds(s: State) {
    && (forall i :: i in s.issued ==> s.issued[i].0 !in s.rings || s.rings[s.issued[i].0].Connector?)
    && (forall c :: c in s.made ==> c.ring !in s.rings || s.rings[c.ring].Listener?)
  }

  /** Every ring there is was there before, and is of the same kind. */
  ghost predicate SameKind(s: State, t: State) {
    forall a :: a in t.rings ==> a in s.rings && t.rings[a].Connector? == s.rings[a].Connector?
  }

  predicate IsCall(act: Action) { act.Connect? || act.Resume? || act.Return? || act.Respite? || act.GiveUp? || act.CloseConnector? }

  predicate IsAccept(act: Action) { act.Take? || act.Publish? || act.Forget? }

  predicate IsQuiet(act: Action) { act.Lose? || act.SendFrom? || act.SendBy? }

  lemma SameKindCall(s: State, act: Action)
    requires Enabled(s, act) && IsCall(act)
    ensures SameKind(s, Apply(s, act))
  {
  }

  lemma SameKindAccept(s: State, act: Action)
    requires Enabled(s, act) && IsAccept(act)
    ensures SameKind(s, Apply(s, act))
  {
  }

  lemma SameKindClose(s: State, act: Action)
    requires Enabled(s, act) && (act.CloseAcceptor? || act.CloseListener?)
    ensures SameKind(s, Apply(s, act))
  {
  }

  lemma SameKindDeliver(s: State, m: Msg)
    requires Enabled(s, Deliver(m))
    ensures SameKind(s, Apply(s, Deliver(m)))
  {
  }

  lemma SameKinds(s: State, act: Action)
    requires Enabled(s, act)
    ensures SameKind(s, Apply(s, act))
  {
    if IsCall(act) {
      SameKindCall(s, act);
    } else if IsAccept(act) {
      SameKindAccept(s, act);
    } else if act.Deliver? {
      SameKindDeliver(s, act.m);
    } else if act.CloseAcceptor? || act.CloseListener? {
      SameKindClose(s, act);
    }
  }

  lemma KindsKept(s: State, act: Action)
    requires Kinds(s) && Enabled(s, act)
    ensures Kinds(Apply(s, act))
  {
    SameKinds(s, act);
  }

  ghost predicate Base(s: State) { Inv(s) && Kinds(s) && Once(s) && ServedOnce(s) }

  /** No two sockets of a ring are for the same id. */
  ghost predicate OncePerId(acceptors: seq<Acceptor>) {
    forall j, k :: 0 <= j < k < |acceptors| ==> acceptors[j].conid != acceptors[k].conid
  }

  ghost predicate ServedOnce(s: State) { forall b :: IsListener(s, b) ==> OncePerId(s.rings[b].acceptors) }

  lemma ReceiveServed(r: Ring, m: Msg)
    requires r.Listener? && OncePerId(r.acceptors)
    ensures OncePerId(ListenerReceive(r, m).0.acceptors)
  {
  }

  lemma AcceptServed(s: State, l: Addr, syn: Syn)
    requires Inv(s) && Once(s) && ServedOnce(s) && Enabled(s, Publish(l, syn))
    ensures OncePerId(Apply(s, Publish(l, syn)).rings[l].acceptors)
  {
    var r := s.rings[l];
    assert RingOk(s, l, r);
    AcceptOnce(s, l, syn);
    forall k | 0 <= k < |r.acceptors|
      ensures r.acceptors[k].conid != syn.conid
    {
      assert Made(l, r.acceptors[k].peer, r.acceptors[k].conid) in s.made;
    }
  }

  lemma OthersServed(s: State, t: State, l: Addr)
    requires ServedOnce(s) && forall b :: b in t.rings && b != l ==> b in s.rings && t.rings[b] == s.rings[b]
    requires IsListener(t, l) ==> OncePerId(t.rings[l].acceptors)
    ensures ServedOnce(t)
  {
  }

  lemma DeliverServed(s: State, m: Msg)
    requires ServedOnce(s) && Enabled(s, Deliver(m))
    ensures ServedOnce(Apply(s, Deliver(m)))
  {
    if s.rings[m.to].Listener? {
      ReceiveServed(s.rings[m.to], m);
    }
    OthersServed(s, Apply(s, Deliver(m)), m.to);
  }

  lemma CloseServed(s: State, l: Addr, k: nat)
    requires ServedOnce(s) && Enabled(s, CloseAcceptor(l, k))
    ensures ServedOnce(Apply(s, CloseAcceptor(l, k)))
  {
    OthersServed(s, Apply(s, CloseAcceptor(l, k)), l);
  }

  lemma PublishServed(s: State, l: Addr, syn: Syn)
    requires Inv(s) && Once(s) && ServedOnce(s) && Enabled(s, Publish(l, syn))
    ensures ServedOnce(Apply(s, Publish(l, syn)))
  {
    AcceptServed(s, l, syn);
    OthersServed(s, Apply(s, Publish(l, syn)), l);
  }

  lemma ListenServed(s: State, act: Action)
    requires ServedOnce(s) && Enabled(s, act) && (act.Take? || act.Forget? || act.CloseListener?)
    ensures ServedOnce(Apply(s, act))
  {
    OthersServed(s, Apply(s, act), act.l);
  }

  lemma CallServed(s: State, act: Action)
    requires ServedOnce(s) && Enabled(s, act)
    requires act.Connect? || act.Resume? || act.Return? || act.Respite? || act.GiveUp? || act.CloseConnector?
    ensures ServedOnce(Apply(s, act))
  {
    OthersServed(s, Apply(s, act), act.a);
  }

  lemma ServedKept(s: State, act: Action)
    requires Inv(s) && Once(s) && ServedOnce(s) && Enabled(s, act)
    ensures ServedOnce(Apply(s, act))
  {
    match act
    case Deliver(m) => DeliverServed(s, m);
    case Publish(l, syn) => PublishServed(s, l, syn);
    case CloseAcceptor(l, k) => CloseServed(s, l, k);
    case Take(_) | Forget(_, _) | CloseListener(_) => ListenServed(s, act);
    case Lose(_) | SendFrom(_) | SendBy(_, _) =>
    case _ => CallServed(s, act);
  }

  lemma BaseKept(s: State, act: Action)
    requires Base(s) && Enabled(s, act)
    ensures Base(Apply(s, act))
  {
    StepKeeps(s, act);
    StepOnce(s, act);
    KindsKept(s, act);
    ServedKept(s, act);
  }

  lemma InitialBase(rings: map<Addr, Ring>)
    requires Unconnected(rings)
    ensures Base(Initial(rings))
  {
  }

  // ----- What a step can change

  lemma ReceiveWants(r: Ring, m: Msg)
    requires r.Connector?
    ensures var q := ConnectorReceive(r, m).0;
            && q.Connector? && q.conid == r.conid && q.peer == r.peer && (Active(q) ==> Active(r))
            && (q.state == Connected ==> r.state == Connected || (m.flag == ACK && m.conid == r.conid))
  {
  }

  /** The message is the acknowledgement for this id. */
  predicate IsAck(m: Msg, a: Addr, i: nat) { m.flag == ACK && m.to == a && m.conid == i }

  lemma DeliverWants(s: State, m: Msg, a: Addr, i: nat)
    requires Enabled(s, Deliver(m)) && Wants(Apply(s, Deliver(m)), a, i)
    ensures Wants(s, a, i)
    ensures Apply(s, Deliver(m)).rings[a].state == Connected ==> s.rings[a].state == Connected || IsAck(m, a, i)
  {
    if m.to == a && s.rings[a].Connector? {
      ReceiveWants(s.rings[a], m);
    }
  }

  lemma CallWants(s: State, act: Action, a: Addr, i: nat)
    requires Enabled(s, act) && (act.Resume? || act.Return? || act.Respite? || act.GiveUp?) && Wants(Apply(s, act), a, i)
    ensures Wants(s, a, i) && Apply(s, act).rings[a].state == s.rings[a].state
  {
  }

  lemma ListenerWants(s: State, act: Action, a: Addr, i: nat)
    requires Enabled(s, act) && (act.CloseAcceptor? || act.CloseListener?) && Wants(Apply(s, act), a, i)
    ensures Wants(s, a, i) && Apply(s, act).rings[a] == s.rings[a]
  {
  }

  lemma AcceptWants(s: State, act: Action, a: Addr, i: nat)
    requires Enabled(s, act) && (act.Take? || act.Publish? || act.Forget?) && Wants(Apply(s, act), a, i)
    ensures Wants(s, a, i) && Apply(s, act).rings[a] == s.rings[a]
  {
  }

  lemma WantsOld(s: State, act: Action, a: Addr, i: nat)
    requires Enabled(s, act) && i in s.issued && Wants(Apply(s, act), a, i)
    ensures Wants(s, a, i)
    ensures (Apply(s, act).rings[a].state == Connected ==>
             s.rings[a].state == Connected || (act.Deliver? && IsAck(act.m, a, i)))
  {
    if act.Deliver? {
      DeliverWants(s, act.m, a, i);
    } else if act.Resume? || act.Return? || act.Respite? || act.GiveUp? {
      CallWants(s, act, a, i);
    } else if act.CloseAcceptor? || act.CloseListener? {
      ListenerWants(s, act, a, i);
    } else if act.Take? || act.Publish? || act.Forget? {
      AcceptWants(s, act, a, i);
    }
  }

  lemma CloseServes(acceptors: seq<Acceptor>, k: nat, a: Addr, i: nat)
    requires k < |acceptors| && acceptors[k] != Acceptor(i, a, true)
    ensures HasLive(acceptors[..k] + acceptors[k + 1..], a, i) == HasLive(acceptors, a, i)
  {
    var rest := acceptors[..k] + acceptors[k + 1..];
    if j :| 0 <= j < |acceptors| && acceptors[j] == Acceptor(i, a, true) {
      assert rest[if j < k then j else j - 1] == acceptors[j];
    }
    assert forall j :: 0 <= j < |rest| ==> rest[j] == acceptors[if j < k then j else j + 1];
  }

  lemma ReceiveServes(r: Ring, m: Msg, a: Addr, i: nat)
    requires r.Listener? && !(m.flag == RST && m.from == a && m.conid == i)
    ensures HasLive(ListenerReceive(r, m).0.acceptors, a, i) == HasLive(r.acceptors, a, i)
  {
    var k := Find(r.acceptors, m);
    var acc := ListenerReceive(r, m).0.acceptors;
    assert forall j :: 0 <= j < |acc| && j != k ==> acc[j] == r.acceptors[j];
    if j :| 0 <= j < |r.acceptors| && r.acceptors[j] == Acceptor(i, a, true) {
      assert acc[j] == Acceptor(i, a, true);
    }
  }

  lemma AcceptServes(s: State, l: Addr, syn: Syn, b: Addr, a: Addr, i: nat)
    requires Enabled(s, Publish(l, syn)) && Serves(s, b, a, i)
    ensures Serves(Apply(s, Publish(l, syn)), b, a, i)
  {
    if l == b {
      var acc := s.rings[b].acceptors;
      var k :| 0 <= k < |acc| && acc[k] == Acceptor(i, a, true);
      assert Apply(s, Publish(l, syn)).rings[b].acceptors[k + 1] == acc[k];
    }
  }

  lemma DeliverServes(s: State, m: Msg, b: Addr, a: Addr, i: nat)
    requires Enabled(s, Deliver(m)) && m != Msg(RST, a, b, i) && IsListener(s, b)
    ensures Serves(Apply(s, Deliver(m)), b, a, i) == Serves(s, b, a, i)
  {
    if m.to == b {
      ReceiveServes(s.rings[b], m, a, i);
    }
  }

  lemma CloseOneServes(s: State, l: Addr, k: nat, b: Addr, a: Addr, i: nat)
    requires Enabled(s, CloseAcceptor(l, k)) && Serves(s, b, a, i)
    ensures Serves(Apply(s, CloseAcceptor(l, k)), b, a, i) || Msg(RST, b, a, i) in Apply(s, CloseAcceptor(l, k)).net
  {
    if l == b && s.rings[b].acceptors[k] != Acceptor(i, a, true) {
      CloseServes(s.rings[b].acceptors, k, a, i);
    }
  }

  /** A socket is in use until its peer resets it or it is closed, which the peer is told. */
  lemma ServesStays(s: State, act: Action, b: Addr, a: Addr, i: nat)
    requires Enabled(s, act) && Serves(s, b, a, i) && act != Deliver(Msg(RST, a, b, i))
    ensures Serves(Apply(s, act), b, a, i) || Msg(RST, b, a, i) in Apply(s, act).net
  {
    match act
    case Deliver(m) => DeliverServes(s, m, b, a, i);
    case Publish(l, syn) => AcceptServes(s, l, syn, b, a, i);
    case Take(_) =>
    case Forget(_, _) =>
    case CloseAcceptor(l, k) => CloseOneServes(s, l, k, b, a, i);
    case CloseListener(_) =>
    case Connect(_, _, _, _) =>
    case CloseConnector(_) =>
    case _ =>
  }

  // ----- An RST from the connector's end

  /** Only a connector that has nothing to do with an id any more sends an RST for it. */
  ghost predicate OwnReset(s: State, i: nat)
    requires i in s.issued
  {
    var (a, b) := s.issued[i];
    a != b && Msg(RST, a, b, i) in s.net ==> !Wants(s, a, i)
  }

  lemma ReplyUnwanted(s: State, m: Msg, i: nat)
    requires Base(s) && Enabled(s, Deliver(m)) && i in s.issued && m.conid == i && m.to == s.issued[i].0 && m.from == s.issued[i].1
    requires m.from != m.to && Receive(s.rings[m.to], m).1 != multiset{}
    ensures !Wants(Apply(s, Deliver(m)), m.to, i)
  {
    assert MsgOk(s, m);
  }

  lemma OwnResetKept(s: State, act: Action, i: nat)
    requires Base(s) && Enabled(s, act) && i in s.issued && OwnReset(s, i)
    ensures OwnReset(Apply(s, act), i)
  {
    var (a, b) := s.issued[i];
    var t, rst := Apply(s, act), Msg(RST, a, b, i);
    if a != b && rst in t.net && Wants(t, a, i) {
      WantsOld(s, act, a, i);
      NewReset(s, act, rst);
      if act.Deliver? {
        ReplyUnwanted(s, act.m, i);
      }
      assert false;
    }
  }

  /** Where an RST that is not under way yet comes from. */
  predicate Sends(s: State, act: Action, x: Msg)
    requires Enabled(s, act)
  {
    match act
    case Deliver(m) => m.to == x.from && m.from == x.to && m.conid == x.conid && Receive(s.rings[m.to], m).1 != multiset{}
    case CloseConnector(a) => a == x.from
    case CloseAcceptor(l, k) => l == x.from && s.rings[l].acceptors[k] == Acceptor(x.conid, x.to, true)
    case CloseListener(l) => l == x.from && Syn(x.to, x.conid) in s.rings[l].pending
    case _ => false
  }

  lemma DeliverSends(s: State, m: Msg, x: Msg)
    requires Inv(s) && Enabled(s, Deliver(m)) && x in Apply(s, Deliver(m)).net && x !in s.net
    ensures Sends(s, Deliver(m), x)
  {
    assert MsgOk(s, m) && RingOk(s, m.to, s.rings[m.to]);
    ReceiveOk(s, m.to, s.rings[m.to], m);
    assert x in Receive(s.rings[m.to], m).1;
  }

  lemma CloseSends(s: State, l: Addr, x: Msg)
    requires Inv(s) && Enabled(s, CloseListener(l)) && x in Apply(s, CloseListener(l)).net && x !in s.net
    ensures Sends(s, CloseListener(l), x)
  {
    assert RingOk(s, l, s.rings[l]);
    ResetsOnly(s, l, s.rings[l].pending);
    assert x in Resets(l, s.rings[l].pending);
  }

  lemma NewReset(s: State, act: Action, x: Msg)
    requires Inv(s) && Enabled(s, act) && x.flag == RST && x in Apply(s, act).net && x !in s.net
    ensures Sends(s, act, x)
  {
    if act.Deliver? {
      DeliverSends(s, act.m, x);
    } else if act.CloseListener? {
      CloseSends(s, act.l, x);
    } else if act.CloseAcceptor? {
      CloseOneSends(s, act.l, act.k, x);
    } else if IsAccept(act) || IsQuiet(act) {
      OnlyAcks(s, act, x);
    } else if !act.CloseConnector? {
      OnlySyns(s, act, x);
    }
  }

  lemma CloseOneSends(s: State, l: Addr, k: nat, x: Msg)
    requires Enabled(s, CloseAcceptor(l, k)) && x in Apply(s, CloseAcceptor(l, k)).net && x !in s.net
    ensures Sends(s, CloseAcceptor(l, k), x)
  {
  }

  lemma OnlyAcks(s: State, act: Action, x: Msg)
    requires Enabled(s, act) && (IsAccept(act) || IsQuiet(act)) && x in Apply(s, act).net && x !in s.net
    ensures x.flag == DATA || (x.flag == ACK && act == Publish(x.from, Syn(x.to, x.conid)))
  {
  }

  lemma OnlySyns(s: State, act: Action, x: Msg)
    requires Enabled(s, act) && IsCall(act) && x in Apply(s, act).net && x !in s.net
    ensures if act.Connect? then x == Msg(SYN, act.a, act.peer, act.conid) else act.CloseConnector? && x.flag == RST
  {
  }

  /** A message that is not an RST is sent by the end that it should come from. */
  lemma NewMessage(s: State, act: Action, x: Msg)
    requires Inv(s) && Enabled(s, act) && x.flag != RST && x in Apply(s, act).net && x !in s.net
    ensures x.flag == SYN ==> act.Connect? && x.conid == act.conid
    ensures x.flag == ACK ==> act == Publish(x.from, Syn(x.to, x.conid))
  {
    if act.Deliver? {
      assert MsgOk(s, act.m) && RingOk(s, act.m.to, s.rings[act.m.to]);
      ReceiveOk(s, act.m.to, s.rings[act.m.to], act.m);
    } else if act.CloseListener? {
      assert RingOk(s, act.l, s.rings[act.l]);
      ResetsOnly(s, act.l, s.rings[act.l].pending);
    } else if IsAccept(act) || IsQuiet(act) {
      OnlyAcks(s, act, x);
    } else if IsCall(act) {
      OnlySyns(s, act, x);
    }
  }

  // ----- The connector learns

  /** A connector that is connected, or about to be, has its socket at the other end, or an RST coming from there. */
  ghost predicate Told(s: State, i: nat)
    requires i in s.issued
  {
    var (a, b) := s.issued[i];
    Wants(s, a, i) && (s.rings[a].state == Connected || Msg(ACK, b, a, i) in s.net) ==>
      Serves(s, b, a, i) || Msg(RST, b, a, i) in s.net
  }

  /** The acknowledgement that connects a comes from its peer. */
  lemma AckFromPeer(s: State, m: Msg, a: Addr, i: nat)
    requires Inv(s) && m in s.net && IsAck(m, a, i) && i in s.issued && s.issued[i].0 == a
    ensures m == Msg(ACK, s.issued[i].1, a, i)
  {
    assert MsgOk(s, m);
  }

  lemma NewAck(s: State, act: Action, x: Msg)
    requires Inv(s) && Enabled(s, act) && x.flag == ACK && x in Apply(s, act).net && x !in s.net
    ensures act == Publish(x.from, Syn(x.to, x.conid)) && Serves(Apply(s, act), x.from, x.to, x.conid)
  {
    NewMessage(s, act, x);
    assert Apply(s, act).rings[x.from].acceptors[0] == Acceptor(x.conid, x.to, true);
  }

  /** A message stays under way until it is delivered or lost. */
  lemma StaysUnderWay(s: State, act: Action, x: Msg)
    requires Enabled(s, act) && act != Lose(x) && act != Deliver(x) && x in s.net
    ensures x in Apply(s, act).net
  {
    if IsCall(act) {
      assert s.net <= Apply(s, act).net;
    } else if IsAccept(act) {
      assert s.net <= Apply(s, act).net;
    } else if act.CloseAcceptor? || act.CloseListener? {
      assert s.net <= Apply(s, act).net;
    } else if act.Deliver? {
      assert s.net - multiset{act.m} <= Apply(s, act).net;
    }
  }

  /** An RST that reaches the connector it is for ends its interest. */
  lemma ResetEnds(s: State, b: Addr, a: Addr, i: nat)
    requires Wants(s, a, i) && Enabled(s, Deliver(Msg(RST, b, a, i)))
    ensures !Wants(Apply(s, Deliver(Msg(RST, b, a, i))), a, i)
  {
  }

  lemma PeerElsewhere(s: State, a: Addr, i: nat)
    requires Inv(s) && Kinds(s) && Wants(s, a, i) && i in s.issued && s.issued[i].0 == a
    requires s.rings[a].state == Connected || Msg(ACK, s.issued[i].1, a, i) in s.net
    ensures s.issued[i].1 != a
  {
    assert RingOk(s, a, s.rings[a]);
    if s.rings[a].state != Connected {
      assert MsgOk(s, Msg(ACK, s.issued[i].1, a, i));
    }
    assert Made(s.issued[i].1, a, i) in s.made;
  }

  /** It was connected, or about to be, before the step as well, unless the step is the accept. */
  lemma ToldBefore(s: State, act: Action, i: nat)
    requires Base(s) && Enabled(s, act) && i in s.issued && Wants(Apply(s, act), s.issued[i].0, i)
    requires var (a, b) := s.issued[i];
             Apply(s, act).rings[a].state == Connected || Msg(ACK, b, a, i) in Apply(s, act).net
    ensures var (a, b) := s.issued[i];
            && Wants(s, a, i)
            && (s.rings[a].state == Connected || Msg(ACK, b, a, i) in s.net || Serves(Apply(s, act), b, a, i))
  {
    var (a, b) := s.issued[i];
    WantsOld(s, act, a, i);
    if act.Deliver? && IsAck(act.m, a, i) {
      AckFromPeer(s, act.m, a, i);
    } else if s.rings[a].state != Connected && Msg(ACK, b, a, i) !in s.net {
      NewAck(s, act, Msg(ACK, b, a, i));
    }
  }

  lemma StillTold(s: State, act: Action, a: Addr, b: Addr, i: nat)
    requires Enabled(s, act) && act != Lose(Msg(RST, b, a, i)) && Wants(s, a, i) && Wants(Apply(s, act), a, i)
    requires Serves(s, b, a, i) || Msg(RST, b, a, i) in s.net
    requires Msg(RST, a, b, i) !in s.net
    ensures Serves(Apply(s, act), b, a, i) || Msg(RST, b, a, i) in Apply(s, act).net
  {
    if Serves(s, b, a, i) {
      ServesStays(s, act, b, a, i);
    } else if Msg(RST, b, a, i) !in Apply(s, act).net {
      if act != Deliver(Msg(RST, b, a, i)) {
        StaysUnderWay(s, act, Msg(RST, b, a, i));
      } else {
        ResetEnds(s, b, a, i);
      }
      assert false;
    }
  }

  lemma ToldKept(s: State, act: Action, i: nat)
    requires Base(s) && Enabled(s, act) && i in s.issued && OwnReset(s, i) && Told(s, i)
    requires act != Lose(Msg(RST, s.issued[i].1, s.issued[i].0, i))
    ensures Told(Apply(s, act), i)
  {
    var (a, b) := s.issued[i];
    var t := Apply(s, act);
    if Wants(t, a, i) && (t.rings[a].state == Connected || Msg(ACK, b, a, i) in t.net) && !Serves(t, b, a, i) {
      ToldBefore(s, act, i);
      PeerElsewhere(s, a, i);
      StillTold(s, act, a, b, i);
    }
  }

  // ----- The accepted socket learns

  lemma NoTraceStays(s: State, act: Action, i: nat)
    requires Base(s) && Enabled(s, act) && i in s.issued && NoTrace(s, s.issued[i].0, s.issued[i].1, i)
    ensures NoTrace(Apply(s, act), s.issued[i].0, s.issued[i].1, i)
  {
    var (a, b) := s.issued[i];
    NoNewSyn(s, act, a, b, i);
    NoNewPending(s, act, i);
    NoNewServes(s, act, a, b, i);
  }

  lemma NoNewSyn(s: State, act: Action, a: Addr, b: Addr, i: nat)
    requires Inv(s) && Enabled(s, act) && i in s.issued && Msg(SYN, a, b, i) !in s.net
    ensures Msg(SYN, a, b, i) !in Apply(s, act).net
  {
    if Msg(SYN, a, b, i) in Apply(s, act).net {
      NewMessage(s, act, Msg(SYN, a, b, i));
      assert false;
    }
  }

  lemma NoNewPending(s: State, act: Action, i: nat)
    requires Base(s) && Enabled(s, act) && i in s.issued
    requires var (a, b) := s.issued[i]; Msg(SYN, a, b, i) !in s.net && Waiting(s, a, b, i) == 0
    ensures var (a, b) := s.issued[i]; Waiting(Apply(s, act), a, b, i) == 0
  {
    var (a, b) := s.issued[i];
    match act
    case Deliver(m) =>
      assert MsgOk(s, m);
      ReceiveHeld(s.rings[m.to], m, Syn(a, i));
    case Take(l) => TakeOnce(s, l, i);
    case Publish(_, _) | Forget(_, _) => FewerTaken(s, act, a, b, i);
    case CloseAcceptor(_, _) | CloseListener(_) | CloseConnector(_) => FewerPending(s, act, a, b, i);
    case Connect(_, _, _, _) =>
    case _ =>
  }

  lemma FewerPending(s: State, act: Action, a: Addr, b: Addr, i: nat)
    requires Enabled(s, act) && (act.CloseAcceptor? || act.CloseListener? || act.CloseConnector?)
    ensures Waiting(Apply(s, act), a, b, i) <= Waiting(s, a, b, i)
  {
  }

  lemma FewerTaken(s: State, act: Action, a: Addr, b: Addr, i: nat)
    requires Enabled(s, act) && (act.Publish? || act.Forget?)
    ensures Waiting(Apply(s, act), a, b, i) <= Waiting(s, a, b, i)
  {
  }

  lemma NoNewServes(s: State, act: Action, a: Addr, b: Addr, i: nat)
    requires Inv(s) && Enabled(s, act) && !Serves(s, b, a, i) && Waiting(s, a, b, i) == 0
    ensures !Serves(Apply(s, act), b, a, i)
  {
    if act.Deliver? && act.m.to == b && s.rings[b].Listener? {
      ReceiveNoServes(s.rings[b], act.m, a, i);
    } else if act.Publish? && act.l == b {
      AcceptNoServes(s, b, act.syn, a, i);
    } else if act.CloseAcceptor? && act.l == b {
      CloseNoServes(s, b, act.k, a, i);
    } else if IsListener(Apply(s, act), b) {
      SameAcceptors(s, act, b);
    }
  }

  lemma CloseNoServes(s: State, b: Addr, k: nat, a: Addr, i: nat)
    requires Enabled(s, CloseAcceptor(b, k)) && !Serves(s, b, a, i)
    ensures !Serves(Apply(s, CloseAcceptor(b, k)), b, a, i)
  {
    var acc := s.rings[b].acceptors;
    var rest := acc[..k] + acc[k + 1..];
    assert forall j :: 0 <= j < |rest| ==> rest[j] == acc[if j < k then j else j + 1];
  }

  predicate SameList(s: State, t: State, b: Addr)
    requires IsListener(t, b)
  {
    IsListener(s, b) && t.rings[b].acceptors == s.rings[b].acceptors
  }

  lemma SameCall(s: State, act: Action, b: Addr)
    requires Enabled(s, act) && IsListener(Apply(s, act), b) && IsCall(act)
    ensures SameList(s, Apply(s, act), b)
  {
  }

  lemma SameAccept(s: State, act: Action, b: Addr)
    requires Enabled(s, act) && IsListener(Apply(s, act), b) && IsAccept(act) && !(act.Publish? && act.l == b)
    ensures SameList(s, Apply(s, act), b)
  {
  }

  lemma SameClose(s: State, act: Action, b: Addr)
    requires Enabled(s, act) && IsListener(Apply(s, act), b)
    requires act.CloseListener? || (act.CloseAcceptor? && act.l != b)
    ensures SameList(s, Apply(s, act), b)
  {
  }

  lemma SameAcceptors(s: State, act: Action, b: Addr)
    requires Enabled(s, act) && IsListener(Apply(s, act), b)
    requires !(act.Deliver? && act.m.to == b) && !(act.Publish? && act.l == b) && !(act.CloseAcceptor? && act.l == b)
    ensures SameList(s, Apply(s, act), b)
  {
    if IsCall(act) {
      SameCall(s, act, b);
    } else if IsAccept(act) {
      SameAccept(s, act, b);
    } else if act.CloseAcceptor? || act.CloseListener? {
      SameClose(s, act, b);
    }
  }

  lemma ReceiveNoServes(r: Ring, m: Msg, a: Addr, i: nat)
    requires r.Listener? && !HasLive(r.acceptors, a, i)
    ensures !HasLive(ListenerReceive(r, m).0.acceptors, a, i)
  {
    var k, acc := Find(r.acceptors, m), ListenerReceive(r, m).0.acceptors;
    assert forall j :: 0 <= j < |acc| ==> acc[j] == r.acceptors[j] || !acc[j].live;
  }

  lemma AcceptNoServes(s: State, b: Addr, syn: Syn, a: Addr, i: nat)
    requires Enabled(s, Publish(b, syn)) && !Serves(s, b, a, i) && Waiting(s, a, b, i) == 0
    ensures !Serves(Apply(s, Publish(b, syn)), b, a, i)
  {
    var r, q := s.rings[b], Apply(s, Publish(b, syn)).rings[b];
    assert syn != Syn(a, i);
    assert forall j :: 0 < j < |q.acceptors| ==> q.acceptors[j] == r.acceptors[j - 1];
  }

  // What can happen to the connection with id i between a, which connects, and b.

  /** The timer ends the call of the connector. */
  predicate TimesOut(s: State, act: Action, a: Addr, i: nat) { act == Respite(a) && IsConnector(s, a) && s.rings[a].conid == i }

  /** The connector's RST comes before its SYN. */
  predicate Overtakes(s: State, act: Action, a: Addr, b: Addr, i: nat) {
    act == Deliver(Msg(RST, a, b, i)) && Msg(SYN, a, b, i) in s.net
  }

  /** The connector's RST comes while a call of v4v_accept has taken the request and not yet published the socket. */
  predicate ComesBetween(s: State, act: Action, a: Addr, b: Addr, i: nat) {
    act == Deliver(Msg(RST, a, b, i)) && IsListener(s, b) && Syn(a, i) in s.rings[b].taken
  }

  /** Which of these things may happen, or the loss of the connector's RST. */
  datatype Mishaps = Mishaps(timeout: bool, loss: bool, overtaking: bool, between: bool)

  const NONE: Mishaps := Mishaps(false, false, false, false)

  predicate Allowed(w: Mishaps, s: State, act: Action, a: Addr, b: Addr, i: nat) {
    && (TimesOut(s, act, a, i) ==> w.timeout)
    && (act == Lose(Msg(RST, a, b, i)) ==> w.loss)
    && (Overtakes(s, act, a, b, i) ==> w.overtaking)
    && (ComesBetween(s, act, a, b, i) ==> w.between)
  }

  /** None of them happens to the connection with this id. */
  predicate Smooth(s: State, act: Action, i: nat)
    requires i in s.issued
  {
    Allowed(NONE, s, act, s.issued[i].0, s.issued[i].1, i)
  }

  /** The listening end sends an RST only when it has nothing to do with an id any more. */
  ghost predicate PeerReset(s: State, i: nat)
    requires i in s.issued
  {
    var (a, b) := s.issued[i];
    a != b && Msg(RST, b, a, i) in s.net ==> NoTrace(s, a, b, i)
  }

  /** What there is of a connection at the listening end, or on its way there, the connector wants, or has reset. */
  ghost predicate Wanted(s: State, i: nat)
    requires i in s.issued
  {
    var (a, b) := s.issued[i];
    a != b && !NoTrace(s, a, b, i) ==> Wants(s, a, i) || Msg(RST, a, b, i) in s.net
  }

  lemma MadeMeansPast(s: State, i: nat)
    requires Once(s) && i in s.issued && Made(s.issued[i].1, s.issued[i].0, i) in s.made
    ensures var (a, b) := s.issued[i]; Msg(SYN, a, b, i) !in s.net && Waiting(s, a, b, i) == 0
  {
    assert Tokens(s, i) <= 1;
  }

  lemma ServesMade(s: State, b: Addr, a: Addr, i: nat)
    requires Inv(s) && Serves(s, b, a, i)
    ensures Made(b, a, i) in s.made && i in s.issued && s.issued[i] == (a, b)
  {
    var acc := s.rings[b].acceptors;
    var k :| 0 <= k < |acc| && acc[k] == Acceptor(i, a, true);
    assert RingOk(s, b, s.rings[b]) && Made(b, acc[k].peer, acc[k].conid) in s.made;
  }

  /** No acknowledgement comes from the connector's end. */
  lemma NoAckBack(s: State, m: Msg, i: nat)
    requires Inv(s) && m in s.net && m.conid == i && i in s.issued && m.from == s.issued[i].0 && m.to == s.issued[i].1 && m.from != m.to
    ensures m.flag != ACK && (m.flag == DATA ==> Made(m.to, m.from, i) in s.made)
  {
    assert MsgOk(s, m);
  }

  /** A listening ring that answers a message with an RST has no socket for it, now or later. */
  lemma ListenerReplies(s: State, m: Msg, i: nat)
    requires Base(s) && Enabled(s, Deliver(m)) && i in s.issued && m.conid == i && m.from == s.issued[i].0 && m.to == s.issued[i].1
    requires m.from != m.to && s.rings[m.to].Listener? && Receive(s.rings[m.to], m).1 != multiset{}
    ensures NoTrace(s, m.from, m.to, i)
  {
    var (a, b) := s.issued[i];
    NoAckBack(s, m, i);
    var r := s.rings[b];
    var k := Find(r.acceptors, m);
    assert RingOk(s, b, r);
    if k < |r.acceptors| {
      assert m.flag == SYN && Made(b, r.acceptors[k].peer, r.acceptors[k].conid) in s.made;
      MadeMeansPast(s, i);
      assert false;
    } else {
      assert m.flag == DATA;
      MadeMeansPast(s, i);
    }
  }

  lemma ConnectorReplies(s: State, m: Msg, i: nat)
    requires Base(s) && Enabled(s, Deliver(m)) && i in s.issued && Smooth(s, Deliver(m), i)
    requires m.conid == i && m.from == s.issued[i].0 && m.to == s.issued[i].1
    requires m.from != m.to && s.rings[m.to].Connector?
    ensures NoTrace(Apply(s, Deliver(m)), m.from, m.to, i)
  {
    NoAckBack(s, m, i);
    assert m.flag != DATA;
    assert Tokens(s, i) <= 1;
    ReceiveOk(s, m.to, s.rings[m.to], m);
    var t := Apply(s, Deliver(m));
    assert IsConnector(t, m.to);
    assert Msg(SYN, m.from, m.to, i) !in t.net;
  }

  lemma CloseLast(s: State, b: Addr, k: nat, a: Addr, i: nat)
    requires Base(s) && Enabled(s, CloseAcceptor(b, k)) && s.rings[b].acceptors[k] == Acceptor(i, a, true)
    ensures i in s.issued && s.issued[i] == (a, b) && NoTrace(Apply(s, CloseAcceptor(b, k)), a, b, i)
  {
    var acc := s.rings[b].acceptors;
    var rest := acc[..k] + acc[k + 1..];
    ServesMade(s, b, a, i);
    MadeMeansPast(s, i);
    assert forall j :: 0 <= j < |rest| ==> rest[j] == acc[if j < k then j else j + 1];
    assert OncePerId(acc);
  }

  lemma {:induction false} CountHas(pending: seq<Syn>, x: Syn)
    requires x in pending
    ensures Count(pending, x.conid) > 0
  {
    if pending[0] != x {
      CountHas(pending[1..], x);
    }
  }

  lemma CloseUnaccepted(s: State, b: Addr, a: Addr, i: nat)
    requires Base(s) && Enabled(s, CloseListener(b)) && Syn(a, i) in s.rings[b].pending
    ensures i in s.issued && s.issued[i] == (a, b) && NoTrace(Apply(s, CloseListener(b)), a, b, i)
  {
    var t := Apply(s, CloseListener(b));
    var k :| 0 <= k < |s.rings[b].pending| && s.rings[b].pending[k] == Syn(a, i);
    assert RingOk(s, b, s.rings[b]) && SynOk(s, b, s.rings[b].pending[k]);
    CountHas(s.rings[b].pending, Syn(a, i));
    assert Tokens(s, i) <= 1;
    NoNewSyn(s, CloseListener(b), a, b, i);
    if Serves(s, b, a, i) {
      ServesMade(s, b, a, i);
      assert false;
    }
    if IsListener(t, b) {
      SameAcceptors(s, CloseListener(b), b);
    }
  }

  lemma PeerResetSent(s: State, act: Action, i: nat)
    requires Base(s) && Enabled(s, act) && i in s.issued && Smooth(s, act, i) && s.issued[i].0 != s.issued[i].1
    requires var x := Msg(RST, s.issued[i].1, s.issued[i].0, i); x in Apply(s, act).net && x !in s.net
    ensures NoTrace(Apply(s, act), s.issued[i].0, s.issued[i].1, i)
  {
    var (a, b) := s.issued[i];
    NewReset(s, act, Msg(RST, b, a, i));
    match act
    case Deliver(m) =>
      if s.rings[b].Listener? {
        ListenerReplies(s, m, i);
        NoTraceStays(s, act, i);
      } else {
        ConnectorReplies(s, m, i);
      }
    case CloseAcceptor(_, k) => CloseLast(s, b, k, a, i);
    case CloseListener(_) => CloseUnaccepted(s, b, a, i);
    case CloseConnector(_) =>
      assert false;
    case _ =>
  }

  lemma PeerResetKept(s: State, act: Action, i: nat)
    requires Base(s) && Enabled(s, act) && i in s.issued && Smooth(s, act, i) && PeerReset(s, i)
    ensures PeerReset(Apply(s, act), i)
  {
    var (a, b) := s.issued[i];
    if a != b && Msg(RST, b, a, i) in Apply(s, act).net {
      if Msg(RST, b, a, i) in s.net {
        NoTraceStays(s, act, i);
      } else {
        PeerResetSent(s, act, i);
      }
    }
  }

  lemma {:induction false} EvictAll(pending: seq<Syn>, i: nat)
    requires Count(pending, i) <= 1
    ensures Count(Evict(pending, i), i) == 0
  {
    if pending != [] && pending[0].conid != i {
      EvictAll(pending[1..], i);
      assert ([pending[0]] + Evict(pending[1..], i))[1..] == Evict(pending[1..], i);
    }
  }

  /** The connector's RST clears everything at the listening end but what is taken. */
  lemma ResetClears(r: Ring, m: Msg)
    requires r.Listener? && m.flag == RST && OncePerId(r.acceptors) && (!r.sponsor ==> r.pending == [])
    requires Count(r.pending, m.conid) <= (if Find(r.acceptors, m) < |r.acceptors| then 0 else 1)
    ensures Count(ListenerReceive(r, m).0.pending, m.conid) == 0 && ListenerReceive(r, m).0.taken == r.taken
    ensures !HasLive(ListenerReceive(r, m).0.acceptors, m.from, m.conid)
  {
    if Find(r.acceptors, m) == |r.acceptors| {
      EvictAll(r.pending, m.conid);
    }
  }

  lemma ResetTaken(s: State, i: nat)
    requires Base(s) && i in s.issued && s.issued[i].0 != s.issued[i].1
    requires var rst := Deliver(Msg(RST, s.issued[i].0, s.issued[i].1, i)); Enabled(s, rst) && Smooth(s, rst, i)
    ensures NoTrace(Apply(s, Deliver(Msg(RST, s.issued[i].0, s.issued[i].1, i))), s.issued[i].0, s.issued[i].1, i)
  {
    var (a, b) := s.issued[i];
    var m := Msg(RST, a, b, i);
    var r := s.rings[b];
    assert !Overtakes(s, Deliver(m), a, b, i) && !ComesBetween(s, Deliver(m), a, b, i);
    NoNewSyn(s, Deliver(m), a, b, i);
    if r.Listener? {
      assert RingOk(s, b, r) && Tokens(s, i) <= 1;
      var k := Find(r.acceptors, m);
      assert k < |r.acceptors| ==> Made(b, r.acceptors[k].peer, r.acceptors[k].conid) in s.made;
      ResetClears(r, m);
    }
  }

  lemma DeliverLost(s: State, m: Msg, a: Addr, b: Addr, i: nat)
    requires Base(s) && Enabled(s, Deliver(m)) && i in s.issued && s.issued[i] == (a, b) && a != b
    requires Wants(s, a, i) && !Wants(Apply(s, Deliver(m)), a, i)
    ensures Msg(RST, a, b, i) in Apply(s, Deliver(m)).net || Msg(RST, b, a, i) in s.net
  {
    assert m.to == a && MsgOk(s, m);
  }

  /** How a connector comes to have nothing to do with an id any more. */
  lemma WantsLost(s: State, act: Action, i: nat)
    requires Base(s) && Enabled(s, act) && i in s.issued && Smooth(s, act, i) && s.issued[i].0 != s.issued[i].1
    requires Wants(s, s.issued[i].0, i) && !Wants(Apply(s, act), s.issued[i].0, i)
    ensures var (a, b) := s.issued[i]; Msg(RST, a, b, i) in Apply(s, act).net || Msg(RST, b, a, i) in s.net
  {
    var (a, b) := s.issued[i];
    if act.Deliver? {
      DeliverLost(s, act.m, a, b, i);
    } else if act.CloseConnector? {
      assert RingOk(s, a, s.rings[a]) && act.a == a;
    } else {
      StillWants(s, act, a, i);
    }
  }

  lemma StillWants(s: State, act: Action, a: Addr, i: nat)
    requires Enabled(s, act) && !TimesOut(s, act, a, i) && !act.Deliver? && !act.CloseConnector? && Wants(s, a, i)
    ensures Wants(Apply(s, act), a, i)
  {
    if IsCall(act) {
      CallLeaves(s, act, a, i);
    } else if IsAccept(act) {
      AcceptLeaves(s, act, a, i);
    }
  }

  lemma CallLeaves(s: State, act: Action, a: Addr, i: nat)
    requires Enabled(s, act) && IsCall(act) && !TimesOut(s, act, a, i) && !act.CloseConnector? && Wants(s, a, i)
    ensures Wants(Apply(s, act), a, i)
  {
  }

  lemma AcceptLeaves(s: State, act: Action, a: Addr, i: nat)
    requires Enabled(s, act) && IsAccept(act) && Wants(s, a, i)
    ensures Wants(Apply(s, act), a, i)
  {
  }

  lemma WantedKept(s: State, act: Action, i: nat)
    requires Base(s) && Enabled(s, act) && i in s.issued && Smooth(s, act, i) && Wanted(s, i) && PeerReset(s, i)
    ensures Wanted(Apply(s, act), i)
  {
    var (a, b) := s.issued[i];
    var t := Apply(s, act);
    if a != b && !NoTrace(t, a, b, i) && !Wants(t, a, i) && Msg(RST, a, b, i) !in t.net {
      if NoTrace(s, a, b, i) {
        NoTraceStays(s, act, i);
      } else if Wants(s, a, i) {
        WantsLost(s, act, i);
      } else {
        if act != Deliver(Msg(RST, a, b, i)) {
          StaysUnderWay(s, act, Msg(RST, a, b, i));
        } else {
          ResetTaken(s, i);
        }
      }
      assert false;
    }
  }

  // ----- Whole runs

  /** In no step more happens to the connection than is allowed. */
  ghost predicate AllowedRun(w: Mishaps, s: State, run: seq<Action>, a: Addr, b: Addr, i: nat)
    requires Legal(s, run)
    decreases |run|
  {
    run == [] || (Allowed(w, s, run[0], a, b, i) && AllowedRun(w, Apply(s, run[0]), run[1..], a, b, i))
  }

  predicate IsFor(s: State, a: Addr, b: Addr, i: nat) { i in s.issued && s.issued[i] == (a, b) }

  lemma FreshTold(s: State, act: Action)
    requires Inv(s) && Enabled(s, act) && act.Connect?
    ensures OwnReset(Apply(s, act), act.conid) && Told(Apply(s, act), act.conid)
    ensures PeerReset(Apply(s, act), act.conid) && Wanted(Apply(s, act), act.conid)
  {
    assert forall m :: m in s.net ==> MsgOk(s, m);
  }

  lemma {:induction false} RunTold(s: State, run: seq<Action>, a: Addr, b: Addr, i: nat)
    requires Base(s) && (IsFor(s, a, b, i) ==> OwnReset(s, i) && Told(s, i))
    requires Legal(s, run) && Lose(Msg(RST, b, a, i)) !in run
    ensures var t := After(s, run); Base(t) && (IsFor(t, a, b, i) ==> OwnReset(t, i) && Told(t, i))
    decreases |run|
  {
    if run != [] {
      var t := Apply(s, run[0]);
      BaseKept(s, run[0]);
      if IsFor(t, a, b, i) {
        IssuedBy(s, run[0], i);
        if i in s.issued {
          OwnResetKept(s, run[0], i);
          ToldKept(s, run[0], i);
        } else {
          FreshTold(s, run[0]);
        }
      }
      RunTold(t, run[1..], a, b, i);
    }
  }

  lemma {:induction false} RunWanted(s: State, run: seq<Action>, a: Addr, b: Addr, i: nat)
    requires Base(s) && (IsFor(s, a, b, i) ==> PeerReset(s, i) && Wanted(s, i))
    requires Legal(s, run) && AllowedRun(NONE, s, run, a, b, i)
    ensures var t := After(s, run); Base(t) && (IsFor(t, a, b, i) ==> PeerReset(t, i) && Wanted(t, i))
    decreases |run|
  {
    if run != [] {
      var t := Apply(s, run[0]);
      BaseKept(s, run[0]);
      if IsFor(t, a, b, i) {
        IssuedBy(s, run[0], i);
        if i in s.issued {
          PeerResetKept(s, run[0], i);
          WantedKept(s, run[0], i);
        } else {
          FreshTold(s, run[0]);
        }
      }
      RunWanted(t, run[1..], a, b, i);
    }
  }

  /** However messages are delayed, reordered and lost, as long as no RST to this connector is: a connector that is
      connected has its socket at the other end, or the RST that tells it otherwise is on its way. */
  lemma ConnectorLearns(rings: map<Addr, Ring>, run: seq<Action>, a: Addr)
    requires Unconnected(rings) && Legal(Initial(rings), run)
    requires var t := After(Initial(rings), run);
             IsConnector(t, a) && t.rings[a].state == Connected && Lose(Msg(RST, t.rings[a].peer, a, t.rings[a].conid)) !in run
    ensures var t := After(Initial(rings), run);
            var r := t.rings[a];
            Serves(t, r.peer, a, r.conid) || Msg(RST, r.peer, a, r.conid) in t.net
  {
    InitialBase(rings);
    RunKeeps(Initial(rings), run);
    var t := After(Initial(rings), run);
    assert RingOk(t, a, t.rings[a]);
    RunTold(Initial(rings), run, a, t.rings[a].peer, t.rings[a].conid);
  }

  /** Whatever happens to others: if the call of its connector is not ended by its timer, and the connector's RST is not
      lost, does not overtake the SYN and does not come while the request is being accepted, an accepted socket that is in
      use has its connector, or the RST that tells it otherwise is on its way. */
  lemma AcceptorLearns(rings: map<Addr, Ring>, run: seq<Action>, a: Addr, b: Addr, i: nat)
    requires Unconnected(rings) && Legal(Initial(rings), run) && AllowedRun(NONE, Initial(rings), run, a, b, i)
    requires Serves(After(Initial(rings), run), b, a, i)
    ensures var t := After(Initial(rings), run); Wants(t, a, i) || Msg(RST, a, b, i) in t.net
  {
    InitialBase(rings);
    RunWanted(Initial(rings), run, a, b, i);
    ServesMade(After(Initial(rings), run), b, a, i);
  }
}
