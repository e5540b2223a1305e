/** A DPC port (windows/xenutil/evtchn.c) always has a way on: whatever it waits for can come. */
module DpcProgress {
  import opened DpcPort

  // ----- How far it is to the end

  function StopNo(stop: Stop): nat {
    match stop
    case Close => 6
    case Unhook => 5
    case Sync => 4
    case Flag => 3
    case Drain => 2
    case Forget => 1
    case _ => 0
  }

  /** The interrupt is done when it is off and no upcall is outstanding. */
  function IntrNo(intr: Interrupt, upcall: bool): nat {
    match intr
    case Off => if upcall then 23 else 0
    case Finish => if upcall then 24 else 1
    case On => if upcall then 22 else 2
    case CountUp => if upcall then 27 else 7
    case Queue | Call => if upcall then 28 else 8
    case MaskPort | ClearPort | Drop => if upcall then 29 else 9
    case Look => if upcall then 30 else 10
    case Scan => if upcall then 31 else 11
    case TakeSel => if upcall then 32 else 12
  }

  /** The DPC is done when it neither runs nor is queued. */
  function DpcNo(dpc: Dpc, pending: bool, queued: bool): nat {
    (if queued then 40 else 0) + match dpc
                                 case Quiet => 0
                                 case Done => 1
                                 case TestClear => if pending then 21 else 5
                                 case Handle => if pending then 25 else 6
                                 case Unmask => if pending then 24 else 4
                                 case Retest => if pending then 23 else 3
                                 case Remask => if pending then 22 else 7
  }

  function XenNo(xen: Xen): nat {
    match xen
    case XenIdle => 0
    case XenPended => 3
    case XenUnmasked => 2
    case XenSelected => 1
  }

  function RaiserNo(raiser: Raiser): nat {
    match raiser
    case Resting => 0
    case ReadMask => 8
    case SetMasked => 7
    case ReadAgain | MaskFirst => 6
    case MaskAgain | SetUnmasked => 5
    case HyperUnmask => 4
    case HyperPending => 3
    case HyperSelect => 2
    case HyperUpcall => 1
  }

  /** Those who are still about to raise the port, or siblings of it. */
  function Producers(s: State): nat { XenNo(s.xen) + RaiserNo(s.raiser) + s.others }

  predicate SameProducers(s: State, t: State) {
    t.xen == s.xen && t.raiser == s.raiser && t.others == s.others && t.stop == s.stop && t.open == s.open
  }

  // ----- Each kind of step brings its end nearer

  lemma StopTestNearer(s: State)
    requires s.stop.Close? || s.stop.Sync?
    ensures StopNo(StopStep(s).stop) < StopNo(s.stop) && !StopStep(s).stop.NotCalled?
  {
  }

  lemma StopStoreNearer(s: State)
    requires s.stop.Unhook? || s.stop.Flag? || s.stop.Drain? || s.stop.Forget?
    ensures StopNo(StopStep(s).stop) < StopNo(s.stop) && !StopStep(s).stop.NotCalled?
  {
  }

  predicate IntrNearer(s: State, t: State) {
    SameProducers(s, t) && IntrNo(t.intr, t.upcall) < IntrNo(s.intr, s.upcall)
  }

  lemma IntrTestNearer(s: State)
    requires s.intr.On? || s.intr.TakeSel? || s.intr.Scan?
    ensures IntrNearer(s, IntrStep(s))
  {
  }

  lemma IntrFireNearer(s: State)
    requires s.intr.Look? || s.intr.MaskPort? || s.intr.Queue? || s.intr.CountUp?
    ensures IntrNearer(s, IntrStep(s))
  {
  }

  lemma IntrEndNearer(s: State)
    requires s.intr.ClearPort? || s.intr.Call? || s.intr.Drop? || s.intr.Finish?
    ensures IntrNearer(s, IntrStep(s))
  {
  }

  lemma IntrStepNearer(s: State)
    requires !s.intr.Off?
    ensures IntrNearer(s, IntrStep(s))
  {
    if s.intr.On? || s.intr.TakeSel? || s.intr.Scan? {
      IntrTestNearer(s);
    } else if s.intr.Look? || s.intr.MaskPort? || s.intr.Queue? || s.intr.CountUp? {
      IntrFireNearer(s);
    } else {
      IntrEndNearer(s);
    }
  }

  predicate DpcNearer(s: State, t: State) {
    && SameProducers(s, t) && t.intr == s.intr && t.upcall == s.upcall
    && DpcNo(t.dpc, t.pending, t.queued) < DpcNo(s.dpc, s.pending, s.queued)
  }

  lemma DpcTestNearer(s: State)
    requires s.dpc.TestClear? || s.dpc.Handle? || s.dpc.Unmask?
    ensures DpcNearer(s, DpcStep(s))
  {
  }

  lemma DpcEndNearer(s: State)
    requires s.dpc.Retest? || s.dpc.Remask? || s.dpc.Done?
    ensures DpcNearer(s, DpcStep(s))
  {
  }

  lemma DpcStepNearer(s: State)
    requires !s.dpc.Quiet?
    ensures DpcNearer(s, DpcStep(s))
  {
    if s.dpc.TestClear? || s.dpc.Handle? || s.dpc.Unmask? {
      DpcTestNearer(s);
    } else {
      DpcEndNearer(s);
    }
  }

  predicate ProducersFewer(s: State, t: State) { Producers(t) < Producers(s) && t.stop == s.stop && t.open == s.open }

  lemma XenTestNearer(s: State)
    requires s.xen.XenPended? || s.xen.XenUnmasked?
    ensures ProducersFewer(s, XenStep(s))
  {
  }

  lemma XenStoreNearer(s: State)
    requires s.xen.XenSelected?
    ensures ProducersFewer(s, XenStep(s))
  {
  }

  lemma RaiseTestNearer(s: State)
    requires s.raiser.ReadMask? || s.raiser.SetMasked? || s.raiser.ReadAgain? || s.raiser.MaskAgain?
    ensures ProducersFewer(s, RaiseStep(s))
  {
  }

  lemma RaiseStoreNearer(s: State)
    requires s.raiser.MaskFirst? || s.raiser.SetUnmasked? || s.raiser.HyperUpcall?
    ensures ProducersFewer(s, RaiseStep(s))
  {
  }

  lemma HyperNearer(s: State)
    requires s.raiser.HyperUnmask? || s.raiser.HyperPending? || s.raiser.HyperSelect?
    ensures ProducersFewer(s, RaiseStep(s))
  {
  }

  lemma RaiseNearer(s: State)
    requires !s.raiser.Resting?
    ensures ProducersFewer(s, RaiseStep(s))
  {
    if s.raiser.ReadMask? || s.raiser.SetMasked? || s.raiser.ReadAgain? || s.raiser.MaskAgain? {
      RaiseTestNearer(s);
    } else if s.raiser.MaskFirst? || s.raiser.SetUnmasked? || s.raiser.HyperUpcall? {
      RaiseStoreNearer(s);
    } else {
      HyperNearer(s);
    }
  }

  lemma First(s: State, a: Action, rest: seq<Action>) returns (run: seq<Action>)
    requires Enabled(s, a) && Legal(Apply(s, a), rest)
    ensures run == [a] + rest && Legal(s, run) && After(s, run) == After(Apply(s, a), rest)
  {
    run := [a] + rest;
    assert run[1..] == rest;
  }

  // ----- EvtchnPortStop can return

  predicate Stopping(s: State) { !s.stop.NotCalled? && !s.stop.Returned? }

  /** The end of the stop is nearer: by a step of its own, of the interrupt, or of the DPC. */
  predicate StopCloser(s: State, t: State) {
    || StopNo(t.stop) < StopNo(s.stop)
    || (t.stop == s.stop && IntrNo(t.intr, t.upcall) < IntrNo(s.intr, s.upcall))
    || (t.stop == s.stop && t.intr == s.intr && t.upcall == s.upcall
        && DpcNo(t.dpc, t.pending, t.queued) < DpcNo(s.dpc, s.pending, s.queued))
  }

  lemma StopMove(s: State, clean: bool) returns (a: Action)
    requires Inv(s, clean) && Stopping(s)
    ensures Enabled(s, a) && StopCloser(s, Apply(s, a)) && !Apply(s, a).stop.NotCalled?
  {
    if Enabled(s, StopMoves) {
      a := StopMoves;
      if s.stop.Close? || s.stop.Sync? {
        StopTestNearer(s);
      } else {
        StopStoreNearer(s);
      }
    } else if !s.intr.Off? {
      a := IntrMoves;
      IntrStepNearer(s);
    } else if !s.dpc.Quiet? {
      a := DpcMoves;
      DpcStepNearer(s);
    } else {
      a := DpcStarts;
    }
  }

  lemma {:induction false} StopFinishes(s: State, clean: bool) returns (run: seq<Action>)
    requires Inv(s, clean) && !s.stop.NotCalled?
    ensures Legal(s, run) && After(s, run).stop.Returned?
    decreases StopNo(s.stop), IntrNo(s.intr, s.upcall), DpcNo(s.dpc, s.pending, s.queued)
  {
    run := [];
    if !s.stop.Returned? {
      var a := StopMove(s, clean);
      StepKeeps(s, a, clean);
      run := StopFinishes(Apply(s, a), clean);
      run := First(s, a, run);
    }
  }

  /** EvtchnPortStop never waits for something that cannot come: from every state of every run, interrupt and DPC
      can end, and the stop return. */
  lemma StopCanReturn(isDpc: bool, pending: bool, before: seq<Action>) returns (run: seq<Action>)
    requires Legal(Registered(isDpc, pending), before) && Stopping(After(Registered(isDpc, pending), before))
    ensures Legal(After(Registered(isDpc, pending), before), run)
    ensures After(After(Registered(isDpc, pending), before), run).stop.Returned?
  {
    RunKeeps(Registered(isDpc, pending), before, !pending);
    run := StopFinishes(After(Registered(isDpc, pending), before), !pending);
  }

  // ----- An open port can come to rest

  /** No raise begins, and no stop. */
  predicate Settles(a: Action) {
    !a.XenRaises? && !a.OtherSelects? && !a.RaiseCalled? && !a.StopCalled? && !a.StopMoves?
  }

  predicate RestCloser(s: State, t: State) {
    && t.stop == s.stop && t.open == s.open
    && (|| Producers(t) < Producers(s)
        || (Producers(t) == Producers(s) && IntrNo(t.intr, t.upcall) < IntrNo(s.intr, s.upcall))
        || (Producers(t) == Producers(s) && t.intr == s.intr && t.upcall == s.upcall
            && DpcNo(t.dpc, t.pending, t.queued) < DpcNo(s.dpc, s.pending, s.queued)))
  }

  lemma ProducerMove(s: State) returns (a: Action)
    requires Producers(s) > 0
    ensures Enabled(s, a) && Settles(a) && RestCloser(s, Apply(s, a))
  {
    if !s.xen.XenIdle? {
      a := XenMoves;
      if s.xen.XenSelected? {
        XenStoreNearer(s);
      } else {
        XenTestNearer(s);
      }
    } else if !s.raiser.Resting? {
      a := RaiseMoves;
      RaiseNearer(s);
    } else {
      a := OtherUpcalls;
    }
  }

  lemma ServerMove(s: State, clean: bool) returns (a: Action)
    requires Inv(s, clean) && Producers(s) == 0 && !AtRest(s)
    ensures Enabled(s, a) && Settles(a) && RestCloser(s, Apply(s, a))
  {
    if !s.intr.Off? {
      a := IntrMoves;
      IntrStepNearer(s);
    } else if s.upcall {
      a := IntrFires;
    } else if !s.dpc.Quiet? {
      a := DpcMoves;
      DpcStepNearer(s);
    } else {
      a := DpcStarts;
    }
  }

  lemma RestMove(s: State, clean: bool) returns (a: Action)
    requires Inv(s, clean) && !AtRest(s)
    ensures Enabled(s, a) && Settles(a) && RestCloser(s, Apply(s, a))
  {
    if Producers(s) > 0 {
      a := ProducerMove(s);
    } else {
      a := ServerMove(s, clean);
    }
  }

  lemma {:induction false} ComesToRest(s: State, clean: bool) returns (run: seq<Action>)
    requires Inv(s, clean)
    ensures Legal(s, run) && AtRest(After(s, run)) && After(s, run).open == s.open
    ensures forall k :: 0 <= k < |run| ==> Settles(run[k])
    decreases Producers(s), IntrNo(s.intr, s.upcall), DpcNo(s.dpc, s.pending, s.queued)
  {
    run := [];
    if !AtRest(s) {
      var a := RestMove(s, clean);
      var t := Apply(s, a);
      StepKeeps(s, a, clean);
      run := RestsAfter(s, a, t, clean);
    }
  }

  lemma {:induction false} RestsAfter(s: State, a: Action, t: State, clean: bool) returns (run: seq<Action>)
    requires Enabled(s, a) && t == Apply(s, a) && Inv(t, clean) && Settles(a) && RestCloser(s, t)
    ensures Legal(s, run) && AtRest(After(s, run)) && After(s, run).open == s.open
    ensures forall k :: 0 <= k < |run| ==> Settles(run[k])
    decreases Producers(s), IntrNo(s.intr, s.upcall), DpcNo(s.dpc, s.pending, s.queued), 0
  {
    var rest := ComesToRest(t, clean);
    run := First(s, a, rest);
  }

  /** From every state of every run of an open port that was clear when it was registered, without any further
      raise, the port can come to rest; and then a handler call has begun after the last raise. */
  lemma OwedEventServed(isDpc: bool, before: seq<Action>) returns (run: seq<Action>)
    requires Legal(Registered(isDpc, false), before) && After(Registered(isDpc, false), before).open
    ensures Legal(After(Registered(isDpc, false), before), run) && forall k :: 0 <= k < |run| ==> Settles(run[k])
    ensures var t := After(After(Registered(isDpc, false), before), run); AtRest(t) && !t.owed && !t.pending
  {
    RunKeeps(Registered(isDpc, false), before, true);
    var s := After(Registered(isDpc, false), before);
    run := ComesToRest(s, true);
    RunKeeps(s, run, true);
  }
}
