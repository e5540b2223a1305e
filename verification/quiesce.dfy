/** Capturing every CPU of the machine, as windows/xenutil/suspend.c does it.

    One CPU, the leader, holds the quiesce lock, queues a DPC on every other CPU, waits for all of
    them to start, raises the phase, and then every CPU runs the same gather loop: raise to
    HIGH_LEVEL, decrement a shared count, spin until it reads zero, and on a timeout put the
    decrement back with a compare-and-exchange and start over.  The shared count is a local variable
    of the leader.  A state is the program point of every CPU together with the shared variables; each
    read or write of a shared variable is a step of its own, and steps of different CPUs interleave
    freely. */
module Quiesce {
  import opened Base

  const QUIESCE_WAIT: nat := 2048

  /** Program points of GatherInterruptDisabledProcessors. */
  datatype Gather =
    | Raise                            // about to raise to HIGH_LEVEL
    | Decrement                        // about to decrement the count
    | Spin(spins: nat)                 // about to read the count in the inner loop
    | Reread(spins: nat)               // timed out, about to read the count into `old`
    | Exchange(spins: nat, seen: int)  // about to exchange `seen` for seen + 1
    | Lower                            // exchanged, about to lower the IRQL
    | Retest(holding: bool)            // about to read the count at the end of the outer loop

  datatype Pc =
    | Idle                             // thread code, or a DPC that is not ours
    | LockSpin                         // in QuiesceSystem, spinning at DISPATCH_LEVEL for the lock
    | Locked                           // leader: about to set the two spin counts
    | CountersSet                      // leader: about to set processorCount
    | Queueing(next: nat)              // leader: about to queue the DPC of CPU `next`
    | AwaitStart                       // leader: waiting for SpinCount1 to reach zero
    | RaisePhase                       // leader: about to set the phase to 1
    | Gathering(leader: bool, g: Gather)
    | AwaitLeave                       // leader: waiting for SpinCount2 to reach zero
    | Quiesced                         // leader: QuiesceSystem has returned
    | Releasing                        // leader: phase back at 0, about to lower the IRQL
    | Unlocking                        // leader: about to release the lock
    | DpcEntry                         // DPC: about to decrement SpinCount1
    | AwaitPhase                       // DPC: waiting for the phase to leave 0
    | Leaving                          // DPC: gathered, about to decrement SpinCount2
    | AwaitRelease                     // DPC: waiting for the phase to return to 0
    | DpcExit                          // DPC: about to lower the IRQL and return

  datatype Cpu = Cpu(pc: Pc, high: bool)

  /** `count` is None while no QuiesceSystem frame holds the variable.  The last three fields are
      history: the CPUs that have decremented SpinCount1, SpinCount2 and processorCount in the present
      round (for processorCount: and have not put it back). */
  datatype State = State(
    cpus: seq<Cpu>,
    lock: Option<nat>,
    phase: int,
    spin1: int,
    spin2: int,
    count: Option<int>,
    queued: set<nat>,
    started: set<nat>,
    left: set<nat>,
    held: set<nat>)

  datatype Action =
    | Call(cpu: nat)      // thread code calls QuiesceSystem
    | Deliver(cpu: nat)   // the CPU starts the DPC queued on it
    | Run(cpu: nat)       // the CPU executes its next step

  ghost predicate Init(s: State) {
    && (forall c :: 0 <= c < |s.cpus| ==> s.cpus[c] == Cpu(Idle, false))
    && s.lock == None && s.phase == 0 && s.spin1 == 0 && s.spin2 == 0 && s.count == None
    && s.queued == {} && s.started == {} && s.left == {} && s.held == {}
  }

  function At(s: State, c: nat): Pc
    requires c < |s.cpus|
  {
    s.cpus[c].pc
  }

  function With(s: State, c: nat, x: Cpu): State
    requires c < |s.cpus|
  {
    s.(cpus := s.cpus[c := x])
  }

  function Goto(s: State, c: nat, pc: Pc): State
    requires c < |s.cpus|
  {
    With(s, c, Cpu(pc, s.cpus[c].high))
  }

  function GotoAt(s: State, c: nat, pc: Pc, high: bool): State
    requires c < |s.cpus|
  {
    With(s, c, Cpu(pc, high))
  }

  /** The step at this point dereferences the leader's local variable. */
  predicate TouchesCount(pc: Pc) {
    pc.Gathering? && !pc.g.Raise? && !pc.g.Lower?
  }

  predicate Enabled(s: State, a: Action) {
    && a.cpu < |s.cpus|
    && match a {
         case Call(c) => At(s, c).Idle?
         case Deliver(c) => At(s, c).Idle? && c in s.queued
         case Run(c) =>
           && !At(s, c).Idle?
           && (At(s, c).LockSpin? ==> s.lock == None)
           && (TouchesCount(At(s, c)) ==> s.count.Some?)
       }
  }

  /** Where the gather loop goes next, when it reads `count`. */
  function GatherNext(leader: bool, g: Gather, high: bool, count: int): Cpu {
    match g
    case Raise => Cpu(Gathering(leader, Decrement), true)
    case Decrement => Cpu(Gathering(leader, Spin(0)), high)
    case Spin(k) =>
      Cpu(Gathering(leader, if count == 0 then Retest(true)
                            else if k + 1 > QUIESCE_WAIT then Reread(k + 1)
                            else Spin(k + 1)), high)
    case Reread(k) => Cpu(Gathering(leader, if count == 0 then Retest(true) else Exchange(k, count)), high)
    case Exchange(k, seen) => Cpu(Gathering(leader, if count == seen then Lower else Spin(k)), high)
    case Lower => Cpu(Gathering(leader, Retest(false)), false)
    case Retest(_) => Cpu(if count != 0 then Gathering(leader, Raise) else if leader then AwaitLeave else Leaving, high)
  }

  function GatherStep(s: State, c: nat, leader: bool, g: Gather): State
    requires c < |s.cpus|
    requires TouchesCount(Gathering(leader, g)) ==> s.count.Some?
  {
    var count := if s.count.Some? then s.count.value else 0;
    var t := With(s, c, GatherNext(leader, g, s.cpus[c].high, count));
    if g.Decrement? then t.(count := Some(count - 1), held := s.held + {c})
    else if g.Exchange? && count == g.seen then t.(count := Some(count + 1), held := s.held - {c})
    else t
  }

  function RunStep(s: State, c: nat): State
    requires Enabled(s, Run(c))
  {
    var n := |s.cpus|;
    match At(s, c)
    case Idle => s
    case LockSpin => Goto(s, c, Locked).(lock := Some(c))
    case Locked =>
      Goto(s, c, CountersSet).(spin1 := n - 1, spin2 := n - 1, started := {}, left := {}, held := {})
    case CountersSet => Goto(s, c, Queueing(0)).(count := Some(n))
    case Queueing(k) =>
      if k >= n then Goto(s, c, AwaitStart)
      else if k == c then Goto(s, c, Queueing(k + 1))
      else Goto(s, c, Queueing(k + 1)).(queued := s.queued + {k})
    case AwaitStart => if s.spin1 != 0 then s else Goto(s, c, RaisePhase)
    case RaisePhase => Goto(s, c, Gathering(true, Raise)).(phase := 1)
    case Gathering(leader, g) => GatherStep(s, c, leader, g)
    case AwaitLeave => if s.spin2 != 0 then s else Goto(s, c, Quiesced).(count := None)
    case Quiesced => Goto(s, c, Releasing).(phase := 0)
    case Releasing => GotoAt(s, c, Unlocking, false)
    case Unlocking => Goto(s, c, Idle).(lock := None)
    case DpcEntry => Goto(s, c, AwaitPhase).(spin1 := s.spin1 - 1, started := s.started + {c})
    case AwaitPhase => if s.phase == 0 then s else Goto(s, c, Gathering(false, Raise))
    case Leaving => Goto(s, c, AwaitRelease).(spin2 := s.spin2 - 1, left := s.left + {c})
    case AwaitRelease => if s.phase != 0 then s else Goto(s, c, DpcExit)
    case DpcExit => GotoAt(s, c, Idle, false)
  }

  function Apply(s: State, a: Action): State
    requires Enabled(s, a)
  {
    match a
    case Call(c) => Goto(s, c, LockSpin)
    case Deliver(c) => Goto(s, c, DpcEntry).(queued := s.queued - {c})
    case Run(c) => RunStep(s, c)
  }

  /** A finite run: any interleaving of the CPUs' steps from an initial state. */
  ghost predicate IsRun(run: seq<State>) {
    && |run| > 0
    && Init(run[0])
    && forall i: nat :: i + 1 < |run| ==> StepAt(run, i)
  }

  ghost predicate StepAt(run: seq<State>, i: nat)
    requires i + 1 < |run|
  {
    Step(run[i], run[i + 1])
  }

  ghost predicate Step(s: State, t: State) {
    exists a :: Enabled(s, a) && t == Apply(s, a)
  }

  // ----- The invariant

  /** How far the present round is, read off the leader's program point. */
  datatype Stage = Free | Calling | Capturing | Calm {
    predicate PhaseIsZero() { Free? || Calling? }
  }

  function StageOf(pc: Pc): Stage {
    match pc
    case CountersSet | Queueing(_) | AwaitStart | RaisePhase => Calling
    case Gathering(_, _) | AwaitLeave => Capturing
    case Quiesced => Calm
    case _ => Free
  }

  function RoundStage(s: State): Stage {
    if s.lock.Some? && s.lock.value < |s.cpus| then StageOf(At(s, s.lock.value)) else Free
  }

  /** Every CPU holds a decrement of the count. */
  predicate Zero(s: State) {
    s.count == Some(0) || RoundStage(s).Calm?
  }

  /** The leader at this point has queued the DPC of CPU c. */
  predicate AskedBy(pc: Pc, c: nat) {
    match pc
    case CountersSet => false
    case Queueing(k) => c < k
    case _ => true
  }

  predicate Asked(s: State, c: nat) {
    s.lock.Some? && s.lock.value < |s.cpus| ==> AskedBy(At(s, s.lock.value), c)
  }

  /** What the rest of the state looks like from one CPU. */
  datatype View =
    View(stage: Stage, zero: bool, asked: bool, queued: bool, started: bool, left: bool, held: bool)

  function ViewOf(s: State, c: nat): View {
    View(RoundStage(s), Zero(s), Asked(s, c), c in s.queued, c in s.started, c in s.left, c in s.held)
  }

  predicate GatherHolds(g: Gather) {
    g.Spin? || g.Reread? || g.Exchange? || g == Retest(true)
  }

  predicate GatherHigh(g: Gather) {
    !g.Raise? && g != Retest(false)
  }

  predicate GatherOk(g: Gather, high: bool, v: View) {
    && v.stage.Capturing?
    && v.held == GatherHolds(g)
    && high == GatherHigh(g)
    && (g.Exchange? ==> g.seen > 0)
    && (g == Retest(true) ==> v.zero)
  }

  predicate FollowerOk(x: Cpu, v: View) {
    && (v.queued ==>
          v.stage.Calling? && !v.started && (x.pc.Idle? || x.pc.LockSpin? || x.pc.AwaitRelease? || x.pc.DpcExit?))
    && (v.stage.Calling? ==> !v.left && !v.held && (v.started ==> x.pc.AwaitPhase?))
    && (v.stage.Calling? ==> (v.asked <==> v.queued || v.started || x.pc.DpcEntry?))
    && (!v.stage.PhaseIsZero() ==> v.started)
    && match x.pc {
         case Idle | LockSpin => !x.high && v.stage.PhaseIsZero()
         case DpcExit => x.high && v.stage.PhaseIsZero()
         case AwaitRelease => x.high && (v.stage.PhaseIsZero() || (v.left && v.held && v.zero))
         case DpcEntry => !x.high && v.stage.Calling? && !v.started
         case AwaitPhase =>
           !x.high && (v.stage.Calling? || v.stage.Capturing?) && v.started && !v.left && !v.held
         case Gathering(leader, g) => !leader && !v.left && GatherOk(g, x.high, v)
         case Leaving => x.high && v.stage.Capturing? && !v.left && v.held && v.zero
         case _ => false
       }
  }

  /** Nothing here depends on `asked`, which is about the other CPUs. */
  predicate LeaderOk(x: Cpu, v: View) {
    && !v.queued
    && (!v.stage.Free? ==> !v.started && !v.left)
    && (v.stage.Calling? ==> !v.held)
    && match x.pc {
         case Locked | CountersSet | Queueing(_) | AwaitStart | RaisePhase | Unlocking => !x.high
         case Gathering(leader, g) => leader && GatherOk(g, x.high, v)
         case AwaitLeave => x.high && v.held && v.zero
         case Quiesced => x.high && v.held
         case Releasing => x.high
         case _ => false
       }
  }

  ghost predicate CpusOk(s: State) {
    && (s.lock.Some? ==> s.lock.value < |s.cpus|)
    && forall c: nat :: c < |s.cpus| ==>
         if s.lock == Some(c) then LeaderOk(s.cpus[c], ViewOf(s, c)) else FollowerOk(s.cpus[c], ViewOf(s, c))
  }

  function Others(s: State): set<nat>
    requires s.lock.Some?
  {
    Below(|s.cpus|) - {s.lock.value}
  }

  ghost predicate CountersOk(s: State) {
    var n := |s.cpus|;
    var stage := RoundStage(s);
    && s.queued <= Below(n) && s.started <= Below(n) && s.left <= Below(n) && s.held <= Below(n)
    && s.phase == (if stage.PhaseIsZero() then 0 else 1)
    && (s.count.Some? <==> stage.Capturing? || (stage.Calling? && !At(s, s.lock.value).CountersSet?))
    && (s.count.Some? ==> s.count.value == n - |s.held|)
    && (!stage.Free? ==>
          && s.spin1 == n - 1 - |s.started|
          && s.spin2 == n - 1 - |s.left|
          && (!stage.PhaseIsZero() || At(s, s.lock.value).RaisePhase? ==> s.started == Others(s)))
    && (stage.Calling? ==> s.left == {} && s.held == {})
    && (stage.Calm? ==> s.left == Others(s) && s.held == Below(n))
  }

  ghost predicate Inv(s: State) {
    CpusOk(s) && CountersOk(s)
  }

  // ----- Every step keeps the invariant

  lemma InitInv(s: State)
    requires Init(s)
    ensures Inv(s)
  {
  }

  predicate MineOk(s: State, c: nat, x: Cpu, v: View) {
    if s.lock == Some(c) then LeaderOk(x, v) else FollowerOk(x, v)
  }

  /** The leader moves within a stage; any other CPU moves anyhow. */
  predicate StageKept(s: State, c: nat, pc: Pc)
    requires c < |s.cpus|
  {
    s.lock == Some(c) ==>
      && StageOf(pc) == StageOf(At(s, c))
      && pc.CountersSet? == At(s, c).CountersSet?
      && forall d: nat :: d < |s.cpus| && d != c ==> AskedBy(pc, d) == AskedBy(At(s, c), d)
  }

  /** A step that changes one CPU's point and no shared variable. */
  lemma LocalKeeps(s: State, c: nat, x: Cpu)
    requires Inv(s) && c < |s.cpus|
    requires StageKept(s, c, x.pc) && MineOk(s, c, x, ViewOf(s, c))
    requires s.lock == Some(c) && x.pc.RaisePhase? ==> s.started == Others(s)
    ensures Inv(With(s, c, x))
  {
    var t := With(s, c, x);
    assert RoundStage(t) == RoundStage(s);
    assert forall d: nat :: d < |s.cpus| && d != c ==> ViewOf(t, d) == ViewOf(s, d);
    assert s.lock.Some? ==> Others(t) == Others(s);
  }

  /** While the CPUs are being captured, "count is zero" and "every CPU holds a decrement" agree. */
  lemma ZeroIsAllHeld(s: State)
    requires CountersOk(s)
    requires RoundStage(s).Capturing?
    ensures Zero(s) <==> s.held == Below(|s.cpus|)
    ensures 0 <= s.count.value <= |s.cpus|
  {
    FullSet(s.held, |s.cpus|);
  }

  ghost predicate Moving(s: State, c: nat, pc: Pc) {
    Inv(s) && Enabled(s, Run(c)) && At(s, c) == pc
  }

  /** One CPU's part of the invariant. */
  lemma Mine(s: State, c: nat)
    requires Inv(s) && c < |s.cpus|
    ensures MineOk(s, c, s.cpus[c], ViewOf(s, c))
  {
  }

  predicate EitherOk(leader: bool, x: Cpu, v: View) {
    if leader then LeaderOk(x, v) else FollowerOk(x, v)
  }

  /** The steps of the gather loop that change nothing shared. */
  lemma GatherNextOk(leader: bool, g: Gather, high: bool, count: int, v: View)
    requires EitherOk(leader, Cpu(Gathering(leader, g), high), v)
    requires (count == 0 <==> v.zero) && count >= 0 && (v.zero ==> v.held)
    requires !g.Decrement? && (g.Exchange? ==> g.seen != count)
    ensures EitherOk(leader, GatherNext(leader, g, high, count), v)
    ensures StageOf(GatherNext(leader, g, high, count).pc) == Capturing || !leader
  {
  }

  lemma GatherReadKeeps(s: State, c: nat, leader: bool, g: Gather)
    requires Moving(s, c, Gathering(leader, g)) && !g.Decrement? && (g.Exchange? ==> s.count != Some(g.seen))
    ensures Inv(GatherStep(s, c, leader, g))
  {
    Mine(s, c);
    ZeroIsAllHeld(s);
    var x := GatherNext(leader, g, s.cpus[c].high, s.count.value);
    GatherNextOk(leader, g, s.cpus[c].high, s.count.value, ViewOf(s, c));
    LocalKeeps(s, c, x);
  }

  lemma ZeroUp(s: State, t: State, c: nat)
    requires CpusOk(s) && |t.cpus| == |s.cpus| && c < |s.cpus| && t.lock == s.lock
    requires RoundStage(t) == RoundStage(s) && (Zero(s) ==> Zero(t))
    requires forall d: nat :: d < |s.cpus| && d != c ==>
               t.cpus[d] == s.cpus[d] && ViewOf(t, d) == ViewOf(s, d).(zero := Zero(t))
    requires MineOk(t, c, t.cpus[c], ViewOf(t, c))
    ensures CpusOk(t)
  {
    forall d: nat | d < |s.cpus|
      ensures MineOk(t, d, t.cpus[d], ViewOf(t, d))
    {
      assert MineOk(s, d, s.cpus[d], ViewOf(s, d));
    }
  }

  /** A step of the capture that changes CPU c, its hold on the count, and nothing else.  The other
      CPUs can only notice when the count reaches zero. */
  lemma CountKeeps(s: State, c: nat, x: Cpu, held: set<nat>)
    requires Inv(s) && c < |s.cpus| && RoundStage(s).Capturing?
    requires StageKept(s, c, x.pc) && (s.lock == Some(c) ==> !x.pc.RaisePhase?)
    requires held == s.held + {c} || held == s.held - {c}
    requires Zero(s) ==> held == s.held
    requires MineOk(s, c, x, ViewOf(s, c).(zero := |held| == |s.cpus|, held := c in held))
    ensures Inv(With(s, c, x).(count := Some(|s.cpus| - |held|), held := held))
  {
    var t := With(s, c, x).(count := Some(|s.cpus| - |held|), held := held);
    ZeroIsAllHeld(s);
    assert RoundStage(t) == RoundStage(s);
    ZeroUp(s, t, c);
    assert Others(t) == Others(s);
    assert CountersOk(t);
  }

  lemma DecrementOk(leader: bool, high: bool, v: View, zero: bool)
    requires EitherOk(leader, Cpu(Gathering(leader, Decrement), high), v)
    ensures !v.held && v.stage.Capturing?
    ensures EitherOk(leader, Cpu(Gathering(leader, Spin(0)), high), v.(zero := zero, held := true))
  {
  }

  lemma DecrementKeeps(s: State, c: nat, leader: bool)
    requires Moving(s, c, Gathering(leader, Decrement))
    ensures Inv(GatherStep(s, c, leader, Decrement))
  {
    Mine(s, c);
    var held := s.held + {c};
    DecrementOk(leader, s.cpus[c].high, ViewOf(s, c), |held| == |s.cpus|);
    ZeroIsAllHeld(s);
    CountKeeps(s, c, Cpu(Gathering(leader, Spin(0)), s.cpus[c].high), held);
  }

  lemma ExchangeOk(leader: bool, k: nat, seen: int, high: bool, v: View)
    requires EitherOk(leader, Cpu(Gathering(leader, Exchange(k, seen)), high), v)
    ensures v.held && v.stage.Capturing? && seen > 0
    ensures EitherOk(leader, Cpu(Gathering(leader, Lower), high), v.(held := false))
  {
  }

  lemma ExchangeKeeps(s: State, c: nat, leader: bool, k: nat, seen: int)
    requires Moving(s, c, Gathering(leader, Exchange(k, seen))) && s.count == Some(seen)
    ensures Inv(GatherStep(s, c, leader, Exchange(k, seen)))
  {
    var x := s.cpus[c];
    var v := ViewOf(s, c);
    assert EitherOk(leader, x, v) by { Mine(s, c); }
    ExchangeOk(leader, k, seen, x.high, v);
    var held := s.held - {c};
    assert |held| == |s.held| - 1;
    assert !Zero(s);
    assert With(s, c, Cpu(Gathering(leader, Lower), x.high)).(count := Some(|s.cpus| - |held|), held := held)
        == GatherStep(s, c, leader, Exchange(k, seen));
    CountKeeps(s, c, Cpu(Gathering(leader, Lower), x.high), held);
  }

  /** The steps outside the gather loop that change no shared variable. */
  lemma WaitKeeps(s: State, c: nat, pc: Pc)
    requires Moving(s, c, pc) && (pc.Releasing? || pc.AwaitPhase? || pc.AwaitRelease? || pc.DpcExit?)
    ensures Inv(RunStep(s, c))
  {
    Mine(s, c);
    if RunStep(s, c) != s {
      LocalKeeps(s, c, RunStep(s, c).cpus[c]);
    }
  }

  lemma AwaitStartKeeps(s: State, c: nat)
    requires Moving(s, c, AwaitStart)
    ensures Inv(RunStep(s, c))
  {
    Mine(s, c);
    if RunStep(s, c) != s {
      OthersSize(s.started, |s.cpus|, c);
      LocalKeeps(s, c, RunStep(s, c).cpus[c]);
    }
  }

  lemma CallKeeps(s: State, c: nat)
    requires Inv(s) && Enabled(s, Call(c))
    ensures Inv(Apply(s, Call(c)))
  {
    Mine(s, c);
    LocalKeeps(s, c, Cpu(LockSpin, s.cpus[c].high));
  }

  lemma DeliverKeeps(s: State, c: nat)
    requires Inv(s) && Enabled(s, Deliver(c))
    ensures Inv(Apply(s, Deliver(c)))
  {
    var t := Apply(s, Deliver(c));
    Mine(s, c);
    ZeroUp(s, t, c);
    assert Others(t) == Others(s);
  }

  lemma DpcEntryCpus(s: State, c: nat, t: State)
    requires CpusOk(s) && c < |s.cpus| && At(s, c) == DpcEntry && t == Goto(s, c, AwaitPhase).(spin1 := s.spin1 - 1, started := s.started + {c})
    ensures CpusOk(t)
  {
    ZeroUp(s, t, c);
  }

  lemma DpcEntryCounters(s: State, c: nat, t: State)
    requires Inv(s) && c < |s.cpus| && At(s, c) == DpcEntry && t == Goto(s, c, AwaitPhase).(spin1 := s.spin1 - 1, started := s.started + {c})
    ensures CountersOk(t)
  {
    Mine(s, c);
    assert s.lock.Some? && Others(t) == Others(s);
  }

  lemma DpcEntryKeeps(s: State, c: nat, t: State)
    requires Inv(s) && c < |s.cpus| && At(s, c) == DpcEntry && t == Goto(s, c, AwaitPhase).(spin1 := s.spin1 - 1, started := s.started + {c})
    ensures Inv(t)
  {
    DpcEntryCpus(s, c, t);
    DpcEntryCounters(s, c, t);
  }

  lemma LeavingCpus(s: State, c: nat, t: State)
    requires CpusOk(s) && c < |s.cpus| && At(s, c) == Leaving && t == Goto(s, c, AwaitRelease).(spin2 := s.spin2 - 1, left := s.left + {c})
    ensures CpusOk(t)
  {
    ZeroUp(s, t, c);
  }

  lemma LeavingCounters(s: State, c: nat, t: State)
    requires Inv(s) && c < |s.cpus| && At(s, c) == Leaving && t == Goto(s, c, AwaitRelease).(spin2 := s.spin2 - 1, left := s.left + {c})
    ensures CountersOk(t)
  {
    Mine(s, c);
    assert s.lock.Some? && Others(t) == Others(s);
  }

  lemma LeavingKeeps(s: State, c: nat, t: State)
    requires Inv(s) && c < |s.cpus| && At(s, c) == Leaving && t == Goto(s, c, AwaitRelease).(spin2 := s.spin2 - 1, left := s.left + {c})
    ensures Inv(t)
  {
    LeavingCpus(s, c, t);
    LeavingCounters(s, c, t);
  }

  lemma QueueingKeeps(s: State, c: nat, k: nat)
    requires Moving(s, c, Queueing(k))
    ensures Inv(RunStep(s, c))
  {
    var t := RunStep(s, c);
    Mine(s, c);
    if k >= |s.cpus| || k == c {
      LocalKeeps(s, c, t.cpus[c]);
    } else {
      assert Others(t) == Others(s);
      forall d: nat | d < |s.cpus|
        ensures MineOk(t, d, t.cpus[d], ViewOf(t, d))
      {
        Mine(s, d);
      }
    }
  }

  /** The steps that open a round. */
  lemma OpenKeeps(s: State, c: nat, pc: Pc)
    requires Moving(s, c, pc) && (pc.LockSpin? || pc.Locked? || pc.CountersSet?)
    ensures Inv(RunStep(s, c))
  {
    var t := RunStep(s, c);
    forall d: nat | d < |s.cpus|
      ensures MineOk(t, d, t.cpus[d], ViewOf(t, d))
    {
      Mine(s, d);
    }
  }

  /** The steps that close it. */
  lemma ShutKeeps(s: State, c: nat, pc: Pc)
    requires Moving(s, c, pc) && (pc.Quiesced? || pc.Unlocking?)
    ensures Inv(RunStep(s, c))
  {
    var t := RunStep(s, c);
    forall d: nat | d < |s.cpus|
      ensures MineOk(t, d, t.cpus[d], ViewOf(t, d))
    {
      Mine(s, d);
    }
  }

  lemma RaisePhaseKeeps(s: State, c: nat)
    requires Moving(s, c, RaisePhase)
    ensures Inv(RunStep(s, c))
  {
    var t := RunStep(s, c);
    forall d: nat | d < |s.cpus|
      ensures MineOk(t, d, t.cpus[d], ViewOf(t, d))
    {
      Mine(s, d);
    }
    assert Others(t) == Others(s);
  }

  lemma AwaitLeaveKeeps(s: State, c: nat)
    requires Moving(s, c, AwaitLeave)
    ensures Inv(RunStep(s, c))
  {
    var t := RunStep(s, c);
    Mine(s, c);
    if t != s {
      OthersSize(s.left, |s.cpus|, c);
      ZeroIsAllHeld(s);
      assert Others(t) == Others(s);
      forall d: nat | d < |s.cpus|
        ensures MineOk(t, d, t.cpus[d], ViewOf(t, d))
      {
        Mine(s, d);
      }
    }
  }

  lemma StepKeeps(s: State, a: Action)
    requires Inv(s) && Enabled(s, a)
    ensures Inv(Apply(s, a))
  {
    match a
    case Call(c) => CallKeeps(s, c);
    case Deliver(c) => DeliverKeeps(s, c);
    case Run(c) => RunKeeps(s, c, At(s, c));
  }

  lemma RunKeeps(s: State, c: nat, pc: Pc)
    requires Moving(s, c, pc)
    ensures Inv(RunStep(s, c))
  {
    match pc
    case Idle =>
    case AwaitStart => AwaitStartKeeps(s, c);
    case Releasing | AwaitPhase | AwaitRelease | DpcExit => WaitKeeps(s, c, pc);
    case LockSpin | Locked | CountersSet => OpenKeeps(s, c, pc);
    case Quiesced | Unlocking => ShutKeeps(s, c, pc);
    case Queueing(k) => QueueingKeeps(s, c, k);
    case RaisePhase => RaisePhaseKeeps(s, c);
    case AwaitLeave => AwaitLeaveKeeps(s, c);
    case DpcEntry => DpcEntryKeeps(s, c, RunStep(s, c));
    case Leaving => LeavingKeeps(s, c, RunStep(s, c));
    case Gathering(leader, g) =>
      match g {
        case Decrement => DecrementKeeps(s, c, leader);
        case Exchange(k, seen) =>
          if s.count == Some(seen) { ExchangeKeeps(s, c, leader, k, seen); } else { GatherReadKeeps(s, c, leader, g); }
        case _ => GatherReadKeeps(s, c, leader, g);
      }
  }

  /** The invariant holds in every state of every run. */
  lemma {:induction false} RunInv(run: seq<State>, i: nat)
    requires IsRun(run) && i < |run|
    ensures Inv(run[i])
  {
    if i == 0 {
      InitInv(run[0]);
    } else {
      RunInv(run, i - 1);
      assert StepAt(run, i - 1);
      var a :| Enabled(run[i - 1], a) && run[i] == Apply(run[i - 1], a);
      StepKeeps(run[i - 1], a);
    }
  }

  // ----- What every run guarantees

  ghost predicate Reachable(s: State) {
    exists run, i: nat :: IsRun(run) && i < |run| && run[i] == s
  }

  lemma ReachableInv(s: State)
    requires Reachable(s)
    ensures Inv(s)
  {
    var run, i: nat :| IsRun(run) && i < |run| && run[i] == s;
    RunInv(run, i);
  }

  /** The program points between a CPU's decrement of the count and its release from the round. */
  predicate HoldsDecrement(pc: Pc) {
    match pc
    case Gathering(_, g) => GatherHolds(g)
    case Leaving | AwaitLeave | AwaitRelease | Quiesced => true
    case _ => false
  }

  /** While the phase is up and the count exists, it is the number of CPUs not holding a decrement,
      and the holders are exactly the CPUs at the program points above, all at HIGH_LEVEL. */
  lemma CountIsNonHolders(s: State)
    requires Reachable(s) && s.phase == 1 && s.count.Some?
    ensures s.count.value == |s.cpus| - |s.held|
    ensures s.held <= Below(|s.cpus|)
    ensures forall c: nat :: c < |s.cpus| ==> (c in s.held <==> HoldsDecrement(At(s, c)))
    ensures forall c: nat :: c < |s.cpus| && c in s.held ==> s.cpus[c].high
  {
    ReachableInv(s);
    forall c: nat | c < |s.cpus|
      ensures c in s.held <==> HoldsDecrement(At(s, c))
      ensures c in s.held ==> s.cpus[c].high
    {
      Mine(s, c);
    }
  }

  /** A CPU that has left the gather loop proves that all of them are at HIGH_LEVEL. */
  lemma LeftLoopMeansAllRaised(s: State, c: nat, d: nat)
    requires Reachable(s) && c < |s.cpus| && d < |s.cpus|
    requires At(s, c).Leaving? || At(s, c).AwaitLeave? || At(s, c).Quiesced? || (At(s, c).AwaitRelease? && s.phase == 1)
    ensures s.cpus[d].high && HoldsDecrement(At(s, d))
  {
    ReachableInv(s);
    Mine(s, c);
    if RoundStage(s).Capturing? { ZeroIsAllHeld(s); }
    assert d in s.held;
    Mine(s, d);
  }

  /** No step lifts the count from zero; it only disappears, when QuiesceSystem returns. */
  lemma ZeroSticks(s: State, a: Action)
    requires Reachable(s) && Enabled(s, a) && s.count == Some(0)
    ensures Apply(s, a).count == Some(0) || (Apply(s, a).count == None && a.Run? && At(Apply(s, a), a.cpu).Quiesced?)
  {
    ReachableInv(s);
    if a.Run? {
      ZeroStays(s, a.cpu);
    }
  }

  lemma ZeroStays(s: State, c: nat)
    requires Inv(s) && Enabled(s, Run(c)) && s.count == Some(0)
    ensures RunStep(s, c).count == Some(0) || (RunStep(s, c).count == None && At(RunStep(s, c), c).Quiesced?)
  {
    if RunStep(s, c).count != s.count {
      CountTouched(s, c);
      Mine(s, c);
      FullSet(s.held, |s.cpus|);
      Mine(s, s.lock.value);
    }
  }

  lemma CountTouched(s: State, c: nat)
    requires Enabled(s, Run(c)) && RunStep(s, c).count != s.count
    ensures At(s, c).CountersSet? || At(s, c).Gathering? || At(s, c).AwaitLeave?
  {
  }

  /** No CPU is ever about to use the leader's local variable after its frame is gone, so the step of
      a CPU outside the lock queue is never disabled by it. */
  lemma CountNeverDangles(s: State, c: nat)
    requires Reachable(s) && c < |s.cpus| && TouchesCount(At(s, c))
    ensures s.count.Some? && Enabled(s, Run(c))
  {
    ReachableInv(s);
    Mine(s, c);
  }

  /** When QuiesceSystem has returned, every other CPU sits in its DPC at HIGH_LEVEL, past its last
      use of the count, and stays there until the phase is lowered. */
  lemma ReturnMeansQuiescent(s: State, c: nat, d: nat)
    requires Reachable(s) && c < |s.cpus| && d < |s.cpus| && c != d && At(s, c).Quiesced?
    ensures At(s, d).AwaitRelease? && s.cpus[d].high && s.cpus[c].high
    ensures RunStep(s, d) == s
  {
    ReachableInv(s);
    Mine(s, c);
    Mine(s, d);
    assert d in Others(s);
  }

  /** The phase is raised only when every other CPU waits at the start of this round's DPC: none is
      left over from the round before. */
  lemma PhaseRaisedOnFreshDpcs(s: State, c: nat, d: nat)
    requires Reachable(s) && c < |s.cpus| && d < |s.cpus| && c != d && At(s, c).RaisePhase?
    ensures At(s, d).AwaitPhase? && s.phase == 0
  {
    ReachableInv(s);
    Mine(s, c);
    Mine(s, d);
    assert d in Others(s);
  }

  /** The three assertions of the code hold: thread code that calls QuiesceSystem sees phase 0, and the
      two spin counts are positive where they are decremented. */
  lemma AssertionsHold(s: State, c: nat)
    requires Reachable(s) && c < |s.cpus|
    ensures At(s, c).Idle? ==> s.phase == 0
    ensures At(s, c).DpcEntry? ==> s.spin1 > 0
    ensures At(s, c).Leaving? ==> s.spin2 > 0
  {
    ReachableInv(s);
    Mine(s, c);
    if At(s, c).DpcEntry? {
      NotAll(s, s.started, c);
    } else if At(s, c).Leaving? {
      NotAll(s, s.left, c);
    }
  }

  lemma NotAll(s: State, done: set<nat>, c: nat)
    requires s.lock.Some? && s.lock.value < |s.cpus|
    requires done <= Others(s) && c in Others(s) && c !in done
    ensures |done| < |s.cpus| - 1
  {
    OthersSize(done, |s.cpus|, s.lock.value);
  }

  /** The leader a is still on its way to raising the phase while CPU b spins for the lock. */
  predicate Blocked(s: State, a: nat, b: nat) {
    && a < |s.cpus| && b < |s.cpus| && a != b
    && s.lock == Some(a) && At(s, b).LockSpin?
    && (At(s, a).Locked? || StageOf(At(s, a)).Calling?)
  }

  lemma BlockedRun(s: State, c: nat, a: nat, b: nat)
    requires Inv(s) && Enabled(s, Run(c)) && Blocked(s, a, b)
    ensures Blocked(RunStep(s, c), a, b)
  {
    if c == a && At(s, a).RaisePhase? {
      Mine(s, b);
      assert false;
    }
  }

  lemma BlockedApply(s: State, x: Action, a: nat, b: nat)
    requires Inv(s) && Enabled(s, x) && Blocked(s, a, b)
    ensures Blocked(Apply(s, x), a, b)
  {
    if x.Run? {
      BlockedRun(s, x.cpu, a, b);
    }
  }

  lemma BlockedStays(s: State, t: State, a: nat, b: nat)
    requires Inv(s) && Step(s, t) && Blocked(s, a, b)
    ensures Blocked(t, a, b)
  {
    var x :| Enabled(s, x) && t == Apply(s, x);
    BlockedApply(s, x, a, b);
  }

  /** A CPU that calls QuiesceSystem while another CPU is opening a round spins at DISPATCH_LEVEL, where
      the DPC queued on it cannot start: neither of the two ever gets any further. */
  lemma {:induction false} SecondCallerBlocksRound(run: seq<State>, i: nat, j: nat, a: nat, b: nat)
    requires IsRun(run) && i <= j < |run| && Blocked(run[i], a, b)
    ensures Blocked(run[j], a, b)
    decreases j
  {
    if i < j {
      SecondCallerBlocksRound(run, i, j - 1, a, b);
      RunInv(run, j - 1);
      assert StepAt(run, j - 1);
      BlockedStays(run[j - 1], run[j], a, b);
    }
  }
}
