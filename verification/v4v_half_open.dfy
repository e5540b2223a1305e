/** V4V stream connections (linux/v4v.c) that one end takes for broken and the other for working: what it takes for
    the ends to learn of each other's going. */
module V4vHalfOpen {
  import opened V4vHandshake
  import opened V4vClosing

  /** In this run, in which no more happens to the connection between a and b than is allowed: if b has a socket in use
      for it, then a is setting it up or has it, or the RST that tells b otherwise is on its way. */
  ghost predicate AcceptorKnows(w: Mishaps, rings: map<Addr, Ring>, run: seq<Action>, a: Addr, b: Addr, i: nat) {
    && Unconnected(rings) && Legal(Initial(rings), run) && AllowedRun(w, Initial(rings), run, a, b, i)
    && Serves(After(Initial(rings), run), b, a, i)
    ==>
      var t := After(Initial(rings), run); Wants(t, a, i) || Msg(RST, a, b, i) in t.net
  }

  ghost predicate AcceptorsKnow(w: Mishaps) {
    forall rings, run, a, b, i :: AcceptorKnows(w, rings, run, a, b, i)
  }

  // ----- The four ways not to learn

  const TWO_RINGS: map<Addr, Ring> := map[0 := Connector(Bound, 0, 0, false), 1 := QUIET]

  const SYN5: Msg := Msg(SYN, 0, 1, 5)
  const RST5: Msg := Msg(RST, 0, 1, 5)

  /** A socket in use whose connector is gone, with nothing on the way to tell it. */
  predicate HalfOpen(s: State, b: Addr, a: Addr, i: nat) {
    Serves(s, b, a, i) && !Wants(s, a, i) && Msg(RST, a, b, i) !in s.net
  }

  /** The rest of a run in which no more happens to the connection than is allowed, with a half-open socket in the end. */
  ghost predicate Breaks(w: Mishaps, s: State, run: seq<Action>) {
    Legal(s, run) && AllowedRun(w, s, run, 0, 1, 5) && HalfOpen(After(s, run), 1, 0, 5)
  }

  lemma Then(w: Mishaps, s: State, act: Action, rest: seq<Action>) returns (run: seq<Action>)
    requires Enabled(s, act) && Allowed(w, s, act, 0, 1, 5) && Breaks(w, Apply(s, act), rest)
    ensures run == [act] + rest && Breaks(w, s, run)
  {
    run := First(s, act, rest);
    assert run[1..] == rest;
  }

  // Steps of these runs.

  const QUIET: Ring := Listener(true, [], multiset{}, [])
  const QUEUED: Ring := Listener(true, [Syn(0, 5)], multiset{}, [])
  const TAKEN: Ring := Listener(true, [], multiset{Syn(0, 5)}, [])
  const ACCEPTED: Ring := Listener(true, [], multiset{}, [Acceptor(5, 0, true)])

  lemma Queues(s: State)
    requires 1 in s.rings && s.rings[1] == QUIET && SYN5 in s.net
    ensures Enabled(s, Deliver(SYN5))
    ensures Apply(s, Deliver(SYN5)) == s.(rings := s.rings[1 := QUEUED], net := s.net - multiset{SYN5})
  {
    assert ListenerReceive(QUIET, SYN5).0.pending == [Syn(0, 5)];
  }

  lemma Takes1(s: State)
    requires 1 in s.rings && s.rings[1] == QUEUED
    ensures Enabled(s, Take(1)) && Apply(s, Take(1)) == s.(rings := s.rings[1 := TAKEN])
  {
    assert QUEUED.pending[1..] == [] && QUEUED.taken + multiset{Syn(0, 5)} == TAKEN.taken;
  }

  lemma Publishes(s: State)
    requires 1 in s.rings && s.rings[1] == TAKEN
    ensures Enabled(s, Publish(1, Syn(0, 5)))
    ensures var t := Apply(s, Publish(1, Syn(0, 5)));
            t.rings == s.rings[1 := ACCEPTED] && t.net == s.net + multiset{ACK5}
  {
    assert TAKEN.taken - multiset{Syn(0, 5)} == multiset{};
    assert [Acceptor(5, 0, true)] + TAKEN.acceptors == ACCEPTED.acceptors;
  }

  /** The request is being accepted, and the connector is gone. */
  lemma Published(w: Mishaps, s: State) returns (run: seq<Action>)
    requires s.rings == map[1 := TAKEN] && s.net == multiset{}
    ensures run == [Publish(1, Syn(0, 5))] && Breaks(w, s, run)
  {
    Publishes(s);
    var t := Apply(s, Publish(1, Syn(0, 5)));
    assert t.rings[1].acceptors[0] == Acceptor(5, 0, true);
    run := Then(w, s, Publish(1, Syn(0, 5)), []);
  }

  /** The request is waiting, and the connector is gone. */
  lemma AcceptedTooLate(w: Mishaps, s: State) returns (run: seq<Action>)
    requires s.rings == map[1 := QUEUED] && s.net == multiset{}
    ensures run == [Take(1), Publish(1, Syn(0, 5))] && Breaks(w, s, run)
  {
    Takes1(s);
    run := Published(w, Apply(s, Take(1)));
    run := Then(w, s, Take(1), run);
  }

  /** The request comes when the connector is gone. */
  lemma ComesTooLate(w: Mishaps, s: State) returns (run: seq<Action>)
    requires s.rings == map[1 := QUIET] && s.net == multiset{SYN5}
    ensures run == [Deliver(SYN5), Take(1), Publish(1, Syn(0, 5))] && Breaks(w, s, run)
  {
    Queues(s);
    run := AcceptedTooLate(w, Apply(s, Deliver(SYN5)));
    run := Then(w, s, Deliver(SYN5), run);
  }

  /** A ring asks for a connection: how all these runs begin. */
  lemma Asks(w: Mishaps) returns (t: State)
    ensures Unconnected(TWO_RINGS) && Enabled(Initial(TWO_RINGS), Connect(0, 1, 5, true))
    ensures t == Apply(Initial(TWO_RINGS), Connect(0, 1, 5, true)) && t.net == multiset{SYN5}
    ensures t.rings == map[0 := Connector(Connecting, 5, 1, true), 1 := QUIET]
    ensures Allowed(w, Initial(TWO_RINGS), Connect(0, 1, 5, true), 0, 1, 5)
  {
    t := Apply(Initial(TWO_RINGS), Connect(0, 1, 5, true));
  }

  lemma GivesUp(s: State) returns (t: State)
    requires s.rings == map[0 := Connector(Connecting, 5, 1, true), 1 := QUIET] && s.net == multiset{SYN5}
    ensures Enabled(s, Respite(0)) && Enabled(Apply(s, Respite(0)), GiveUp(0))
    ensures t == Apply(Apply(s, Respite(0)), GiveUp(0))
    ensures t.rings == map[0 := Connector(Bound, 5, 1, false), 1 := QUIET] && t.net == multiset{SYN5}
  {
    var u := Apply(s, Respite(0));
    assert u.rings[0] == Connector(Disconnected, 5, 1, true);
    t := Apply(u, GiveUp(0));
  }

  /** A connector whose call times out tells nobody: its request can still be accepted. */
  lemma HalfOpenAfterTimeout(w: Mishaps) returns (run: seq<Action>)
    requires w.timeout
    ensures Breaks(w, Initial(TWO_RINGS), run)
  {
    var s := Asks(w);
    var t := GivesUp(s);
    run := ClosesUnbound(w, t);
    run := Then(w, Apply(s, Respite(0)), GiveUp(0), run);
    run := Then(w, s, Respite(0), run);
    run := Then(w, Initial(TWO_RINGS), Connect(0, 1, 5, true), run);
  }

  lemma ClosesUnbound(w: Mishaps, s: State) returns (run: seq<Action>)
    requires s.rings == map[0 := Connector(Bound, 5, 1, false), 1 := QUIET] && s.net == multiset{SYN5}
    ensures Breaks(w, s, run)
  {
    var t := Apply(s, CloseConnector(0));
    assert t.rings == map[1 := QUIET] && t.net == multiset{SYN5};
    run := ComesTooLate(w, t);
    run := Then(w, s, CloseConnector(0), run);
  }

  /** The connector is closed with its request under way. */
  lemma Closes(w: Mishaps, s: State) returns (t: State)
    requires s.rings == map[0 := Connector(Connecting, 5, 1, true), 1 := QUIET]
    requires s.net == multiset{SYN5}
    ensures Enabled(s, CloseConnector(0)) && Allowed(w, s, CloseConnector(0), 0, 1, 5) && t == Apply(s, CloseConnector(0))
    ensures t.rings == map[1 := QUIET] && t.net == multiset{SYN5, RST5}
  {
    t := Apply(s, CloseConnector(0));
  }

  /** The RST that it sends then is lost. */
  lemma HalfOpenAfterLoss(w: Mishaps) returns (run: seq<Action>)
    requires w.loss
    ensures Breaks(w, Initial(TWO_RINGS), run)
  {
    var s := Asks(w);
    var t := Closes(w, s);
    var u := Apply(t, Lose(RST5));
    assert u.net == multiset{SYN5};
    run := ComesTooLate(w, u);
    run := Then(w, t, Lose(RST5), run);
    run := Then(w, s, CloseConnector(0), run);
    run := Then(w, Initial(TWO_RINGS), Connect(0, 1, 5, true), run);
  }

  /** Or it overtakes its SYN, and is dropped. */
  lemma HalfOpenAfterOvertaking(w: Mishaps) returns (run: seq<Action>)
    requires w.overtaking
    ensures Breaks(w, Initial(TWO_RINGS), run)
  {
    var s := Asks(w);
    var t := Closes(w, s);
    var u := Apply(t, Deliver(RST5));
    assert u.net == multiset{SYN5} && u.rings == t.rings;
    run := ComesTooLate(w, u);
    run := Then(w, t, Deliver(RST5), run);
    run := Then(w, s, CloseConnector(0), run);
    run := Then(w, Initial(TWO_RINGS), Connect(0, 1, 5, true), run);
  }

  /** Or it comes when v4v_accept has taken the SYN and has not put the new socket on the ring's list yet. */
  lemma HalfOpenBetween(w: Mishaps) returns (run: seq<Action>)
    requires w.between
    ensures Breaks(w, Initial(TWO_RINGS), run)
  {
    var s := Asks(w);
    var t := Closes(w, s);
    Queues(t);
    var u := Apply(t, Deliver(SYN5));
    assert u.rings == map[1 := QUEUED] && u.net == multiset{RST5};
    run := TakenBefore(w, u);
    run := Then(w, t, Deliver(SYN5), run);
    run := Then(w, s, CloseConnector(0), run);
    run := Then(w, Initial(TWO_RINGS), Connect(0, 1, 5, true), run);
  }

  lemma TakenBefore(w: Mishaps, s: State) returns (run: seq<Action>)
    requires w.between && s.rings == map[1 := QUEUED] && s.net == multiset{RST5}
    ensures run == [Take(1), Deliver(RST5), Publish(1, Syn(0, 5))] && Breaks(w, s, run)
  {
    Takes1(s);
    run := DropsReset(w, Apply(s, Take(1)));
    run := Then(w, s, Take(1), run);
  }

  lemma DropsReset(w: Mishaps, s: State) returns (run: seq<Action>)
    requires w.between && s.rings == map[1 := TAKEN] && s.net == multiset{RST5}
    ensures run == [Deliver(RST5), Publish(1, Syn(0, 5))] && Breaks(w, s, run)
  {
    var t := Apply(s, Deliver(RST5));
    assert t.rings == s.rings && t.net == multiset{};
    run := Published(w, t);
    run := Then(w, s, Deliver(RST5), run);
  }

  /** Accepted sockets always learn that their connector is gone exactly if its call is not ended by its timer, and its
      RST is not lost, does not overtake its SYN, and does not come while the request is being accepted. */
  lemma AcceptorsKnowIff(w: Mishaps)
    ensures AcceptorsKnow(w) <==> w == NONE
  {
    if w == NONE {
      forall rings, run, a, b, i
        ensures AcceptorKnows(w, rings, run, a, b, i)
      {
        if Unconnected(rings) && Legal(Initial(rings), run) && AllowedRun(w, Initial(rings), run, a, b, i)
           && Serves(After(Initial(rings), run), b, a, i) {
          AcceptorLearns(rings, run, a, b, i);
        }
      }
    } else {
      var run;
      if w.timeout {
        run := HalfOpenAfterTimeout(w);
      } else if w.loss {
        run := HalfOpenAfterLoss(w);
      } else if w.overtaking {
        run := HalfOpenAfterOvertaking(w);
      } else {
        run := HalfOpenBetween(w);
      }
      assert !AcceptorKnows(w, TWO_RINGS, run, 0, 1, 5);
    }
  }

  // ----- The other way round

  /** In this run, in which the RSTs to the connector are lost only if that is allowed: if a is connected, its peer has
      a socket for it, or the RST that tells it otherwise is on its way. */
  ghost predicate ConnectorKnows(loss: bool, rings: map<Addr, Ring>, run: seq<Action>, a: Addr) {
    Unconnected(rings) && Legal(Initial(rings), run) ==>
      var t := After(Initial(rings), run);
      IsConnector(t, a) && t.rings[a].state == Connected ==>
        var rst := Msg(RST, t.rings[a].peer, a, t.rings[a].conid);
        (Lose(rst) in run ==> loss) ==> Serves(t, rst.from, a, rst.conid) || rst in t.net
  }

  ghost predicate ConnectorsKnow(loss: bool) { forall rings, run, a :: ConnectorKnows(loss, rings, run, a) }

  const BACK5: Msg := Msg(RST, 1, 0, 5)
  const ACK5: Msg := Msg(ACK, 1, 0, 5)

  /** The rest of a run that leaves the connector connected with nobody. */
  ghost predicate Strands(s: State, run: seq<Action>) {
    && Legal(s, run)
    && var t := After(s, run);
    t.rings == map[0 := Connector(Connected, 5, 1, true), 1 := QUIET] && t.net == multiset{}
  }

  lemma ThenStrands(s: State, act: Action, rest: seq<Action>) returns (run: seq<Action>)
    requires Enabled(s, act) && Strands(Apply(s, act), rest)
    ensures run == [act] + rest && Strands(s, run)
  {
    run := First(s, act, rest);
  }

  /** The accepted socket is closed, and its RST lost. */
  lemma LosesReset(s: State) returns (run: seq<Action>)
    requires s.rings == map[0 := Connector(Connected, 5, 1, true), 1 := ACCEPTED] && s.net == multiset{}
    ensures Strands(s, run)
  {
    var t := Apply(s, CloseAcceptor(1, 0));
    assert t.net == multiset{BACK5} && t.rings[1].acceptors == [];
    run := ThenStrands(t, Lose(BACK5), []);
    run := ThenStrands(s, CloseAcceptor(1, 0), run);
  }

  lemma TakesAck(s: State) returns (run: seq<Action>)
    requires s.rings == map[0 := Connector(Connecting, 5, 1, true), 1 := ACCEPTED] && s.net == multiset{ACK5}
    ensures Strands(s, run)
  {
    var t := Apply(s, Deliver(ACK5));
    assert t.rings[0] == Connector(Connected, 5, 1, true) && t.net == multiset{};
    run := LosesReset(t);
    run := ThenStrands(s, Deliver(ACK5), run);
  }

  lemma Connects(s: State) returns (run: seq<Action>)
    requires s.rings == map[0 := Connector(Connecting, 5, 1, true), 1 := QUIET] && s.net == multiset{SYN5}
    ensures Strands(s, run)
  {
    Queues(s);
    var t := Apply(s, Deliver(SYN5));
    Takes1(t);
    var u := Apply(t, Take(1));
    Publishes(u);
    var v := Apply(u, Publish(1, Syn(0, 5)));
    assert v.net == multiset{ACK5};
    run := TakesAck(v);
    run := ThenStrands(u, Publish(1, Syn(0, 5)), run);
    run := ThenStrands(t, Take(1), run);
    run := ThenStrands(s, Deliver(SYN5), run);
  }

  lemma LeftConnected() returns (run: seq<Action>)
    ensures Strands(Initial(TWO_RINGS), run)
  {
    var s := Asks(NONE);
    run := Connects(s);
    run := ThenStrands(Initial(TWO_RINGS), Connect(0, 1, 5, true), run);
  }

  /** Connectors always learn that their socket is gone exactly if the RSTs to them are not lost. */
  lemma ConnectorsKnowIff(loss: bool)
    ensures ConnectorsKnow(loss) <==> !loss
  {
    if loss {
      var s := Asks(NONE);
      var run := LeftConnected();
      assert !ConnectorKnows(loss, TWO_RINGS, run, 0);
    } else {
      forall rings, run, a
        ensures ConnectorKnows(loss, rings, run, a)
      {
        if Unconnected(rings) && Legal(Initial(rings), run) {
          var t := After(Initial(rings), run);
          if IsConnector(t, a) && t.rings[a].state == Connected && Lose(Msg(RST, t.rings[a].peer, a, t.rings[a].conid)) !in run {
            ConnectorLearns(rings, run, a);
          }
        }
      }
    }
  }
}
