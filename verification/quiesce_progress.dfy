/** No round of windows/xenutil/suspend.c gets stuck by itself: from every state of a round the CPUs can bring it
    to its end, whatever has been timed out and put back on the way, exactly if no other CPU spins for the lock. */
module QuiesceProgress {
  import opened Base
  import opened Quiesce

  ghost predicate Legal(s: State, acts: seq<Action>)
    decreases |acts|
  {
    acts == [] || (Enabled(s, acts[0]) && Legal(Apply(s, acts[0]), acts[1..]))
  }

  ghost function After(s: State, acts: seq<Action>): State
    requires Legal(s, acts)
    decreases |acts|
  {
    if acts == [] then s else After(Apply(s, acts[0]), acts[1..])
  }

  /** These steps lead to the return of QuiesceSystem on CPU a. */
  ghost predicate Completes(s: State, acts: seq<Action>, a: nat) {
    Legal(s, acts) && a < |After(s, acts).cpus| && At(After(s, acts), a).Quiesced?
  }

  /** CPU a has taken the lock in QuiesceSystem, and has not come to UnquiesceSystem. */
  predicate InRound(s: State, a: nat) {
    a < |s.cpus| && s.lock == Some(a) && !At(s, a).Releasing? && !At(s, a).Unlocking?
  }

  ghost predicate NoCaller(s: State) { forall c: nat :: c < |s.cpus| ==> !At(s, c).LockSpin? }

  // ----- How far it is to the end

  function StageNo(s: State, a: nat): nat
    requires a < |s.cpus|
  {
    match At(s, a)
    case Locked => 7
    case CountersSet => 6
    case Queueing(_) => 5
    case AwaitStart => 4
    case RaisePhase => 3
    case Gathering(_, _) | AwaitLeave => if s.count == Some(0) then 1 else 2
    case _ => 0
  }

  /** How many steps a CPU needs to start its DPC (stage 4), to come to hold a decrement (stage 2), and to leave
      the gather loop with everybody else (stage 1). */
  function Rank(stage: nat, pc: Pc): nat {
    if stage == 4 then
      match pc
      case AwaitRelease => 4
      case DpcExit => 3
      case Idle => 2
      case DpcEntry => 1
      case _ => 0
    else if stage == 2 then
      match pc
      case AwaitPhase => 5
      case Gathering(_, Lower) => 4
      case Gathering(_, Retest(false)) => 3
      case Gathering(_, Raise) => 2
      case Gathering(_, Decrement) => 1
      case _ => 0
    else if stage == 1 then
      match pc
      case Gathering(_, Exchange(_, _)) => 4
      case Gathering(_, Spin(_)) | Gathering(_, Reread(_)) => 3
      case Gathering(_, Retest(_)) => 2
      case Leaving => 1
      case _ => 0
    else 0
  }

  function Sum(cpus: seq<Cpu>, stage: nat): nat {
    if cpus == [] then 0 else Rank(stage, cpus[0].pc) + Sum(cpus[1..], stage)
  }

  lemma {:induction false} SumDrops(cpus: seq<Cpu>, stage: nat, c: nat, x: Cpu)
    requires c < |cpus| && Rank(stage, x.pc) < Rank(stage, cpus[c].pc)
    ensures Sum(cpus[c := x], stage) < Sum(cpus, stage)
  {
    if c == 0 {
      assert cpus[0 := x][1..] == cpus[1..];
    } else {
      assert cpus[c := x][1..] == cpus[1..][c - 1 := x];
      SumDrops(cpus[1..], stage, c - 1, x);
    }
  }

  function Distance(s: State, a: nat): nat
    requires a < |s.cpus|
  {
    if At(s, a).Queueing? then (if At(s, a).next < |s.cpus| then |s.cpus| - At(s, a).next else 0)
    else Sum(s.cpus, StageNo(s, a))
  }

  ghost predicate Closer(s: State, t: State, a: nat)
    requires a < |s.cpus|
  {
    && InRound(t, a) && NoCaller(t)
    && (StageNo(t, a) < StageNo(s, a) || (StageNo(t, a) == StageNo(s, a) && Distance(t, a) < Distance(s, a)))
  }

  /** A CPU with something left to do in this stage does the next bit of it. */
  lemma RankDrops(s: State, t: State, a: nat, c: nat)
    requires InRound(s, a) && NoCaller(s) && !At(s, a).Queueing? && c < |s.cpus|
    requires |t.cpus| == |s.cpus| && t.lock == s.lock && t.cpus == s.cpus[c := t.cpus[c]] && !At(t, c).LockSpin?
    requires Rank(StageNo(s, a), At(t, c)) < Rank(StageNo(s, a), At(s, c))
    requires InRound(t, a) && StageNo(t, a) <= StageNo(s, a) && !At(t, a).Queueing?
    ensures Closer(s, t, a)
  {
    SumDrops(s.cpus, StageNo(s, a), c, t.cpus[c]);
    assert forall d: nat :: d < |s.cpus| && d != c ==> At(t, d) == At(s, d);
  }

  // ----- The next step

  lemma LeaderMoves(s: State, a: nat)
    requires Inv(s) && InRound(s, a) && NoCaller(s)
    requires (At(s, a).Locked? || At(s, a).CountersSet? || At(s, a).Queueing? || At(s, a).RaisePhase?
              || (At(s, a).AwaitStart? && s.spin1 == 0) || (At(s, a).AwaitLeave? && s.spin2 == 0))
    ensures Enabled(s, Run(a)) && Closer(s, Apply(s, Run(a)), a)
  {
    var t := RunStep(s, a);
    assert forall c: nat :: c < |s.cpus| && c != a ==> At(t, c) == At(s, c);
  }

  lemma StartMoves(s: State, a: nat) returns (x: Action)
    requires Inv(s) && InRound(s, a) && NoCaller(s) && At(s, a).AwaitStart? && s.spin1 != 0
    ensures Enabled(s, x) && Closer(s, Apply(s, x), a)
  {
    OthersSize(s.started, |s.cpus|, a);
    assert !(Others(s) <= s.started);
    var c :| c in Others(s) && c !in s.started;
    Mine(s, c);
    x := if At(s, c).Idle? then Deliver(c) else Run(c);
    RankDrops(s, Apply(s, x), a, c);
  }

  /** In the gather loop, with the count above zero, a CPU without a decrement gets nearer to having one. */
  lemma GatherNearer(leader: bool, g: Gather, high: bool, count: int)
    requires count > 0 && (g.Raise? || g.Decrement? || g.Lower? || g == Retest(false))
    ensures Rank(2, GatherNext(leader, g, high, count).pc) < Rank(2, Gathering(leader, g))
    ensures GatherNext(leader, g, high, count).pc.Gathering?
  {
  }

  /** With the count at zero, a CPU in the loop gets nearer to its end. */
  lemma GatherOut(leader: bool, g: Gather, high: bool)
    requires GatherHolds(g) && (g.Exchange? ==> g.seen > 0)
    ensures Rank(1, GatherNext(leader, g, high, 0).pc) < Rank(1, Gathering(leader, g))
    ensures var pc := GatherNext(leader, g, high, 0).pc; pc.Gathering? || pc == if leader then AwaitLeave else Leaving
  {
  }

  lemma HoldStep(s: State, a: nat, c: nat)
    requires Inv(s) && InRound(s, a) && NoCaller(s) && StageNo(s, a) == 2 && s.count.Some? && s.count.value > 0
    requires c < |s.cpus| && c !in s.held
    ensures Enabled(s, Run(c)) && Closer(s, Apply(s, Run(c)), a)
  {
    Mine(s, c);
    var t := RunStep(s, c);
    if At(s, c).Gathering? {
      GatherNearer(At(s, c).leader, At(s, c).g, s.cpus[c].high, s.count.value);
      assert t.cpus == s.cpus[c := GatherNext(At(s, c).leader, At(s, c).g, s.cpus[c].high, s.count.value)];
    } else {
      assert At(s, c).AwaitPhase?;
    }
    RankDrops(s, t, a, c);
  }

  lemma HoldMoves(s: State, a: nat) returns (x: Action)
    requires Inv(s) && InRound(s, a) && NoCaller(s) && StageNo(s, a) == 2
    ensures Enabled(s, x) && Closer(s, Apply(s, x), a)
  {
    ZeroIsAllHeld(s);
    assert !(Below(|s.cpus|) <= s.held);
    var c :| c in Below(|s.cpus|) && c !in s.held;
    x := Run(c);
    HoldStep(s, a, c);
  }

  lemma LoopStep(s: State, a: nat, c: nat)
    requires Inv(s) && InRound(s, a) && NoCaller(s) && StageNo(s, a) == 1 && s.held == Below(|s.cpus|)
    requires c < |s.cpus| && At(s, c).Gathering?
    ensures Enabled(s, Run(c)) && Closer(s, Apply(s, Run(c)), a)
  {
    Mine(s, c);
    assert c in s.held;
    var x := GatherNext(At(s, c).leader, At(s, c).g, s.cpus[c].high, 0);
    GatherOut(At(s, c).leader, At(s, c).g, s.cpus[c].high);
    assert RunStep(s, c) == With(s, c, x);
    RankDrops(s, With(s, c, x), a, c);
  }

  lemma LeaveStep(s: State, a: nat, c: nat)
    requires Inv(s) && InRound(s, a) && NoCaller(s) && StageNo(s, a) == 1 && s.held == Below(|s.cpus|)
    requires c < |s.cpus| && Rank(1, At(s, c)) > 0
    ensures Enabled(s, Run(c)) && Closer(s, Apply(s, Run(c)), a)
  {
    if At(s, c).Gathering? {
      LoopStep(s, a, c);
    } else {
      assert At(s, c).Leaving? && c != a;
      RankDrops(s, RunStep(s, c), a, c);
    }
  }

  lemma LeaveMoves(s: State, a: nat) returns (x: Action)
    requires Inv(s) && InRound(s, a) && NoCaller(s) && StageNo(s, a) == 1
    ensures Enabled(s, x) && Closer(s, Apply(s, x), a)
  {
    ZeroIsAllHeld(s);
    if c: nat :| c < |s.cpus| && Rank(1, At(s, c)) > 0 {
      x := Run(c);
      LeaveStep(s, a, c);
    } else {
      AllLeft(s, a);
      x := Run(a);
      LeaderMoves(s, a);
    }
  }

  lemma FollowerLeft(x: Cpu, v: View)
    requires FollowerOk(x, v) && v.stage.Capturing? && v.held && Rank(1, x.pc) == 0
    ensures v.left
  {
  }

  /** When nobody has anything left to do, everybody has left the loop. */
  lemma AllLeft(s: State, a: nat)
    requires Inv(s) && InRound(s, a) && StageNo(s, a) == 1 && Zero(s) && s.held == Below(|s.cpus|)
    requires forall c: nat :: c < |s.cpus| ==> Rank(1, At(s, c)) == 0
    ensures At(s, a).AwaitLeave? && s.spin2 == 0
  {
    Mine(s, a);
    forall c | c in Others(s)
      ensures c in s.left
    {
      assert c in s.held && Rank(1, At(s, c)) == 0;
      Mine(s, c);
      FollowerLeft(s.cpus[c], ViewOf(s, c));
    }
    OthersSize(s.left, |s.cpus|, a);
  }

  lemma Moves(s: State, a: nat) returns (x: Action)
    requires Inv(s) && InRound(s, a) && NoCaller(s) && !At(s, a).Quiesced?
    ensures Enabled(s, x) && Closer(s, Apply(s, x), a)
  {
    Mine(s, a);
    if StageNo(s, a) == 1 {
      x := LeaveMoves(s, a);
    } else if StageNo(s, a) == 2 {
      x := HoldMoves(s, a);
    } else if At(s, a).AwaitStart? && s.spin1 != 0 {
      x := StartMoves(s, a);
    } else {
      LeaderMoves(s, a);
      x := Run(a);
    }
  }

  lemma {:induction false} Finish(s: State, a: nat) returns (acts: seq<Action>)
    requires Inv(s) && InRound(s, a) && NoCaller(s)
    ensures Completes(s, acts, a)
    decreases StageNo(s, a), Distance(s, a)
  {
    if At(s, a).Quiesced? {
      acts := [];
    } else {
      var x := Moves(s, a);
      StepKeeps(s, x);
      var rest := Finish(Apply(s, x), a);
      acts := [x] + rest;
      assert acts[1..] == rest;
    }
  }

  // ----- A CPU that spins for the lock

  lemma {:induction false} BlockedAfter(s: State, acts: seq<Action>, a: nat, b: nat)
    requires Inv(s) && Blocked(s, a, b) && Legal(s, acts)
    ensures Blocked(After(s, acts), a, b)
    decreases |acts|
  {
    if acts != [] {
      BlockedApply(s, acts[0], a, b);
      StepKeeps(s, acts[0]);
      BlockedAfter(Apply(s, acts[0]), acts[1..], a, b);
    }
  }

  lemma CallerBlocks(s: State, a: nat, b: nat)
    requires Inv(s) && InRound(s, a) && b < |s.cpus| && At(s, b).LockSpin?
    ensures Blocked(s, a, b)
  {
    Mine(s, a);
    Mine(s, b);
  }

  /** In every state of every run, the round under way can be completed exactly if no CPU spins for the lock. */
  lemma RoundCompletesIff(s: State, a: nat)
    requires Reachable(s) && InRound(s, a)
    ensures (exists acts :: Completes(s, acts, a)) <==> NoCaller(s)
  {
    ReachableInv(s);
    if NoCaller(s) {
      var acts := Finish(s, a);
      assert Completes(s, acts, a);
    } else {
      var b: nat :| b < |s.cpus| && At(s, b).LockSpin?;
      CallerBlocks(s, a, b);
      forall acts | Legal(s, acts)
        ensures !Completes(s, acts, a)
      {
        BlockedAfter(s, acts, a, b);
      }
    }
  }
}
