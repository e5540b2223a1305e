/** One event-channel port (windows/xenutil/evtchn.c): Xen raising it, the interrupt on CPU 0, the DPC
    the interrupt queues on the same CPU, a driver raising the port locally, and EvtchnPortStop on some
    other CPU.  Every access to a shared word is a step of its own.  The interrupt preempts the DPC, so
    the DPC moves only while no interrupt is live; everything else interleaves freely.  Ports that share
    this port's selector bit appear as `others`. */
module DpcPort {

  /** Xen, raising the port: set pending; if that was news and the port is unmasked, set the selector
      bit; if that was news, set the upcall flag. */
  datatype Xen = XenIdle | XenPended | XenUnmasked | XenSelected

  /** EvtchnHandleInterrupt and FireHandler, as far as this port is concerned. */
  datatype Interrupt =
    | Off
    | On         // interrupt_live is set, about to read the upcall flag
    | TakeSel    // upcall flag cleared, about to exchange the selector
    | Scan       // about to read pending & ~mask
    | Look       // the port is among them, about to read the handler table
    | MaskPort   // DPC port found, about to mask
    | Queue      // about to queue the DPC
    | CountUp    // queued, about to raise insert_count
    | ClearPort  // other class of port found, about to clear pending
    | Call       // about to call the handler
    | Drop       // no handler, about to clear pending
    | Finish     // about to clear interrupt_live

  /** DpcPortDpcHandler. */
  datatype Dpc =
    | Quiet
    | TestClear  // about to test and clear pending
    | Handle     // it was set: about to call the handler
    | Unmask     // it was clear: about to unmask
    | Retest     // about to test pending again
    | Remask     // it was set: about to mask
    | Done       // about to lower insert_count and return

  /** EvtchnRaiseLocally; the last four points are the unmask hypercall. */
  datatype Raiser =
    | Resting | ReadMask | SetMasked | ReadAgain | MaskAgain | MaskFirst | SetUnmasked
    | HyperUnmask | HyperPending | HyperSelect | HyperUpcall

  /** EvtchnPortStop. */
  datatype Stop =
    | NotCalled
    | Close      // lock held, about to see whether the port is hooked and close it
    | Unhook     // about to clear the handler table entry
    | Sync       // waiting for interrupt_live to be clear
    | Flag       // about to set stopping
    | Drain      // waiting for insert_count to reach zero
    | Forget     // about to clear the handler
    | Returned

  /** `owed` is history: the port has been raised and no handler call has begun since. */
  datatype State = State(
    isDpc: bool,
    pending: bool, mask: bool, sel: bool, upcall: bool,
    hooked: bool, open: bool, handlerSet: bool, stopping: bool,
    live: bool, queued: bool, insertCount: int,
    xen: Xen, intr: Interrupt, dpc: Dpc, raiser: Raiser, stop: Stop, others: nat,
    owed: bool)

  datatype Action =
    | XenRaises | XenMoves
    | OtherSelects | OtherUpcalls
    | IntrFires | IntrMoves
    | DpcStarts | DpcMoves
    | RaiseCalled | RaiseMoves
    | StopCalled | StopMoves

  /** The state register_handler leaves behind: hooked and unmasked, whatever pending was. */
  function Registered(isDpc: bool, pending: bool): State {
    State(isDpc, pending, false, false, false, true, true, true, false, false, false, 0,
          XenIdle, Off, Quiet, Resting, NotCalled, 0, pending)
  }

  predicate Enabled(s: State, a: Action) {
    match a
    case XenRaises => s.open && s.xen.XenIdle?
    case XenMoves => !s.xen.XenIdle?
    case OtherSelects => !s.sel
    case OtherUpcalls => s.others > 0
    case IntrFires => s.intr.Off?
    case IntrMoves => !s.intr.Off?
    case DpcStarts => s.intr.Off? && s.queued && s.dpc.Quiet?
    case DpcMoves => s.intr.Off? && !s.dpc.Quiet?
    case RaiseCalled => s.raiser.Resting? && s.handlerSet
    case RaiseMoves => !s.raiser.Resting?
    case StopCalled => s.stop.NotCalled? || s.stop.Returned?
    case StopMoves =>
      && !s.stop.NotCalled? && !s.stop.Returned?
      && (s.stop.Sync? ==> !s.live)
      && (s.stop.Drain? ==> s.insertCount == 0)
  }

  function XenStep(s: State): State {
    match s.xen
    case XenIdle => s
    case XenPended => s.(xen := if s.mask then XenIdle else XenUnmasked)
    case XenUnmasked => s.(sel := true, xen := if s.sel then XenIdle else XenSelected)
    case XenSelected => s.(upcall := true, xen := XenIdle)
  }

  function IntrStep(s: State): State {
    match s.intr
    case Off => s
    case On => s.(upcall := false, intr := if s.upcall then TakeSel else Finish)
    case TakeSel => s.(sel := false, intr := if s.sel then Scan else On)
    case Scan => s.(intr := if s.pending && !s.mask then Look else On)
    case Look => s.(intr := if !s.hooked then Drop else if s.isDpc then MaskPort else ClearPort)
    case MaskPort => s.(mask := true, intr := Queue)
    case Queue => s.(queued := true, intr := if s.queued then On else CountUp)
    case CountUp => s.(insertCount := s.insertCount + 1, intr := On)
    case ClearPort => s.(pending := false, intr := Call)
    case Call => s.(owed := false, intr := On)
    case Drop => s.(pending := false, intr := On)
    case Finish => s.(live := false, intr := Off)
  }

  function DpcStep(s: State): State {
    match s.dpc
    case Quiet => s
    case TestClear => s.(pending := false, dpc := if s.pending then Handle else Unmask)
    case Handle => s.(owed := false, dpc := TestClear)
    case Unmask => s.(mask := false, dpc := Retest)
    case Retest => s.(dpc := if s.pending then Remask else Done)
    case Remask => s.(mask := true, dpc := TestClear)
    case Done => s.(insertCount := s.insertCount - 1, dpc := Quiet)
  }

  function RaiseStep(s: State): State {
    match s.raiser
    case Resting => s
    case ReadMask => s.(raiser := if s.mask then SetMasked else MaskFirst)
    case SetMasked => s.(pending := true, owed := true, raiser := ReadAgain)
    case ReadAgain => s.(raiser := if s.mask then Resting else MaskAgain)
    case MaskAgain => s.(mask := true, raiser := HyperUnmask)
    case MaskFirst => s.(mask := true, raiser := SetUnmasked)
    case SetUnmasked => s.(pending := true, owed := true, raiser := HyperUnmask)
    case HyperUnmask => s.(mask := s.mask && !s.open, raiser := if s.open then HyperPending else Resting)
    case HyperPending => s.(raiser := if s.pending then HyperSelect else Resting)
    case HyperSelect => s.(sel := true, raiser := if s.sel then Resting else HyperUpcall)
    case HyperUpcall => s.(upcall := true, raiser := Resting)
  }

  function StopStep(s: State): State {
    match s.stop
    case NotCalled => s
    case Close => s.(open := s.open && !s.hooked, stop := if s.hooked then Unhook else Sync)
    case Unhook => s.(hooked := false, stop := Sync)
    case Sync => s.(stop := if s.isDpc then Flag else Forget)
    case Flag => s.(stopping := true, stop := Drain)
    case Drain => s.(stop := Forget)
    case Forget => s.(handlerSet := false, stop := Returned)
    case Returned => s
  }

  function Apply(s: State, a: Action): State
    requires Enabled(s, a)
  {
    match a
    case XenRaises => if s.pending then s.(owed := true) else s.(pending := true, owed := true, xen := XenPended)
    case XenMoves => XenStep(s)
    case OtherSelects => s.(sel := true, others := s.others + 1)
    case OtherUpcalls => s.(upcall := true, others := s.others - 1)
    case IntrFires => s.(live := true, intr := On)
    case IntrMoves => IntrStep(s)
    case DpcStarts => s.(queued := false, dpc := TestClear)
    case DpcMoves => DpcStep(s)
    case RaiseCalled => s.(raiser := ReadMask)
    case RaiseMoves => RaiseStep(s)
    case StopCalled => s.(stop := Close)
    case StopMoves => StopStep(s)
  }

  // ----- The invariant

  /** A set selector bit has an upcall on the way, or the interrupt is about to take it. */
  predicate SelectorServed(s: State) {
    s.sel ==> s.upcall || s.intr.TakeSel? || s.xen.XenSelected? || s.raiser.HyperUpcall? || s.others > 0
  }

  /** A pending, unmasked port has an upcall outstanding, or somebody on the way to see it: Xen or the
      local raise about to select it, the interrupt about to scan or fire it, the DPC about to retest. */
  predicate PendingServed(s: State) {
    s.pending && !s.mask ==>
      || s.sel
      || s.xen.XenPended? || s.xen.XenUnmasked?
      || s.intr.Scan? || s.intr.Look? || s.intr.MaskPort? || s.intr.ClearPort?
      || s.dpc.Retest? || s.dpc.Remask?
      || s.raiser.ReadAgain? || s.raiser.MaskAgain?
      || s.raiser.HyperUnmask? || s.raiser.HyperPending? || s.raiser.HyperSelect?
  }

  /** A masked port has its DPC queued or on the way to unmask it, or whoever masked it is about to
      queue or unmask. */
  predicate MaskServed(s: State) {
    s.mask ==>
      || s.queued || s.dpc.TestClear? || s.dpc.Handle? || s.dpc.Unmask?
      || s.intr.Queue?
      || s.raiser.SetUnmasked? || s.raiser.HyperUnmask?
  }

  predicate OwedServed(s: State) {
    s.owed ==> s.pending || s.dpc.Handle? || s.intr.Call?
  }

  /** The interrupt holds, or is about to use, the handler pointer. */
  predicate IntrUsesPort(i: Interrupt) {
    i.MaskPort? || i.Queue? || i.CountUp? || i.ClearPort? || i.Call?
  }

  function Bit(b: bool): int { if b then 1 else 0 }

  predicate CountsOk(s: State) {
    && s.insertCount == Bit(s.queued) + Bit(!s.dpc.Quiet?) - Bit(s.intr.CountUp?)
    && (s.live <==> !s.intr.Off?)
    && (s.intr.CountUp? ==> s.queued)
    && (s.isDpc ==> !s.intr.ClearPort? && !s.intr.Call?)
    && (!s.isDpc ==> !s.queued && s.dpc.Quiet? && !s.intr.MaskPort? && !s.intr.Queue? && !s.intr.CountUp?)
  }

  predicate StopOk(s: State) {
    && (s.stop.Unhook? ==> s.hooked && !s.open)
    && (s.hooked && !s.stop.Unhook? ==> s.open)
    && (s.hooked ==> s.handlerSet && !s.stopping && (s.stop.NotCalled? || s.stop.Close? || s.stop.Unhook?))
    && (!s.hooked ==> !s.open && !s.stop.NotCalled? && !s.stop.Unhook?)
    && (s.stop.Flag? || s.stop.Drain? || s.stop.Forget? || s.stop.Returned? || s.stopping ==> !IntrUsesPort(s.intr))
    && (s.stop.Flag? || s.stop.Drain? ==> s.isDpc)
    && (s.stop.Forget? || s.stop.Returned? || !s.handlerSet ==> AllQuiet(s))
    && (s.stop.Returned? ==> !s.handlerSet)
  }

  /** Neither the interrupt nor the DPC has any use left for the port. */
  predicate AllQuiet(s: State) {
    !s.queued && s.dpc.Quiet? && !IntrUsesPort(s.intr) && !s.hooked
  }

  /** `clean`: the port was not pending when it was registered. */
  predicate Inv(s: State, clean: bool) {
    && CountsOk(s) && StopOk(s) && SelectorServed(s)
    && (s.open && clean ==> PendingServed(s) && OwedServed(s))
    && (s.open ==> MaskServed(s))
    && (s.intr.Drop? ==> !s.hooked)
  }

  /** A step keeps the invariant, and a cleared handler stays cleared. */
  predicate Keeps(s: State, t: State, clean: bool) {
    Inv(t, clean) && (t.handlerSet ==> s.handlerSet)
  }

  lemma IntrStoreKeeps(s: State, clean: bool)
    requires Inv(s, clean)
    requires s.intr.Off? || s.intr.MaskPort? || s.intr.CountUp? || s.intr.ClearPort? || s.intr.Call? || s.intr.Drop? || s.intr.Finish?
    ensures Keeps(s, IntrStep(s), clean)
  {
  }

  lemma IntrUpcallKeeps(s: State, clean: bool)
    requires Inv(s, clean)
    requires s.intr.On? || s.intr.TakeSel?
    ensures Keeps(s, IntrStep(s), clean)
  {
  }

  lemma IntrScanKeeps(s: State, clean: bool)
    requires Inv(s, clean)
    requires s.intr.Scan? || s.intr.Queue?
    ensures Keeps(s, IntrStep(s), clean)
  {
  }

  lemma XenStoreKeeps(s: State, clean: bool)
    requires Inv(s, clean)
    requires s.xen.XenIdle? || s.xen.XenSelected?
    ensures Keeps(s, XenStep(s), clean)
  {
  }

  lemma XenTestKeeps(s: State, clean: bool)
    requires Inv(s, clean)
    requires s.xen.XenPended? || s.xen.XenUnmasked?
    ensures Keeps(s, XenStep(s), clean)
  {
  }

  lemma DpcStoreKeeps(s: State, clean: bool)
    requires Inv(s, clean) && s.intr.Off?
    requires s.dpc.Quiet? || s.dpc.Handle? || s.dpc.Unmask? || s.dpc.Remask? || s.dpc.Done?
    ensures Keeps(s, DpcStep(s), clean)
  {
  }

  lemma DpcTestKeeps(s: State, clean: bool)
    requires Inv(s, clean) && s.intr.Off?
    requires s.dpc.TestClear? || s.dpc.Retest?
    ensures Keeps(s, DpcStep(s), clean)
  {
  }

  lemma RaiseStoreKeeps(s: State, clean: bool)
    requires Inv(s, clean)
    requires s.raiser.Resting? || s.raiser.SetMasked? || s.raiser.MaskAgain? || s.raiser.MaskFirst? || s.raiser.SetUnmasked? || s.raiser.HyperUpcall?
    ensures Keeps(s, RaiseStep(s), clean)
  {
  }

  lemma RaiseReadKeeps(s: State, clean: bool)
    requires Inv(s, clean)
    requires s.raiser.ReadMask?
    ensures Keeps(s, RaiseStep(s), clean)
  {
  }

  lemma RaiseReadAgainKeeps(s: State, clean: bool)
    requires Inv(s, clean)
    requires s.raiser.ReadAgain?
    ensures Keeps(s, RaiseStep(s), clean)
  {
  }

  lemma HyperUnmaskKeeps(s: State, clean: bool)
    requires Inv(s, clean)
    requires s.raiser.HyperUnmask?
    ensures Keeps(s, RaiseStep(s), clean)
  {
  }

  lemma HyperTestKeeps(s: State, clean: bool)
    requires Inv(s, clean)
    requires s.raiser.HyperPending? || s.raiser.HyperSelect?
    ensures Keeps(s, RaiseStep(s), clean)
  {
  }

  lemma StopStoreKeeps(s: State, clean: bool)
    requires Inv(s, clean) && Enabled(s, StopMoves)
    requires s.stop.NotCalled? || s.stop.Returned? || s.stop.Unhook? || s.stop.Flag? || s.stop.Drain? || s.stop.Forget?
    ensures Keeps(s, StopStep(s), clean)
  {
  }

  lemma StopTestKeeps(s: State, clean: bool)
    requires Inv(s, clean) && Enabled(s, StopMoves)
    requires s.stop.Close? || s.stop.Sync?
    ensures Keeps(s, StopStep(s), clean)
  {
  }

  lemma IntrLookKeeps(s: State, clean: bool)
    requires Inv(s, clean)
    requires s.intr.Look?
    ensures Keeps(s, IntrStep(s), clean)
  {
  }

  lemma StepKeeps(s: State, a: Action, clean: bool)
    requires Inv(s, clean) && Enabled(s, a)
    ensures Keeps(s, Apply(s, a), clean)
  {
    match a
    case XenMoves =>
      match s.xen {
        case XenIdle | XenSelected => XenStoreKeeps(s, clean);
        case XenPended | XenUnmasked => XenTestKeeps(s, clean);
      }
    case IntrMoves =>
      match s.intr {
        case Off | MaskPort | CountUp | ClearPort | Call | Drop | Finish => IntrStoreKeeps(s, clean);
        case On | TakeSel => IntrUpcallKeeps(s, clean);
        case Scan | Queue => IntrScanKeeps(s, clean);
        case Look => IntrLookKeeps(s, clean);
      }
    case DpcMoves =>
      match s.dpc {
        case Quiet | Handle | Unmask | Remask | Done => DpcStoreKeeps(s, clean);
        case TestClear | Retest => DpcTestKeeps(s, clean);
      }
    case RaiseMoves =>
      match s.raiser {
        case Resting | SetMasked | MaskAgain | MaskFirst | SetUnmasked | HyperUpcall => RaiseStoreKeeps(s, clean);
        case ReadMask => RaiseReadKeeps(s, clean);
        case ReadAgain => RaiseReadAgainKeeps(s, clean);
        case HyperUnmask => HyperUnmaskKeeps(s, clean);
        case HyperPending | HyperSelect => HyperTestKeeps(s, clean);
      }
    case StopMoves =>
      match s.stop {
        case NotCalled | Returned | Unhook | Flag | Drain | Forget => StopStoreKeeps(s, clean);
        case Close | Sync => StopTestKeeps(s, clean);
      }
    case XenRaises => XenRaiseKeeps(s, clean);
    case OtherSelects | OtherUpcalls | IntrFires | DpcStarts | RaiseCalled | StopCalled =>
  }

  lemma XenRaiseKeeps(s: State, clean: bool)
    requires Inv(s, clean) && Enabled(s, XenRaises)
    ensures Keeps(s, Apply(s, XenRaises), clean)
  {
    if s.pending { assert Apply(s, XenRaises) == s.(owed := true); }
    if !s.pending { assert Apply(s, XenRaises) == s.(pending := true, owed := true, xen := XenPended); }
  }

  // ----- Runs

  ghost predicate Legal(s: State, run: seq<Action>)
    decreases |run|
  {
    run == [] || (Enabled(s, run[0]) && Legal(Apply(s, run[0]), run[1..]))
  }

  ghost function After(s: State, run: seq<Action>): State
    requires Legal(s, run)
    decreases |run|
  {
    if run == [] then s else After(Apply(s, run[0]), run[1..])
  }

  lemma {:induction false} RunKeeps(s: State, run: seq<Action>, clean: bool)
    requires Inv(s, clean) && Legal(s, run)
    ensures Inv(After(s, run), clean)
    decreases |run|
  {
    if run != [] {
      StepKeeps(s, run[0], clean);
      RunKeeps(Apply(s, run[0]), run[1..], clean);
    }
  }

  // ----- No event is lost

  /** After any interleaving, insert_count is the number of queued and running DPCs, at most two.  While the port
      is open, a masked one has its DPC queued or running, or is about to; and if it was clear when it was
      registered, a pending unmasked one has an upcall outstanding or somebody about to look again. */
  lemma NoEventLost(isDpc: bool, pending: bool, run: seq<Action>)
    requires Legal(Registered(isDpc, pending), run)
    ensures var s := After(Registered(isDpc, pending), run);
            && SelectorServed(s) && (s.open ==> MaskServed(s))
            && (s.open && !pending ==> PendingServed(s) && OwedServed(s))
            && (!s.intr.CountUp? ==> s.insertCount == Bit(s.queued) + Bit(!s.dpc.Quiet?))
            && 0 <= s.insertCount <= 2
  {
    RunKeeps(Registered(isDpc, pending), run, !pending);
  }

  /** Nothing is under way: no upcall, no interrupt, no DPC, no raise. */
  predicate AtRest(s: State) {
    && !s.upcall && s.intr.Off? && s.others == 0
    && s.xen.XenIdle? && s.raiser.Resting?
    && !s.queued && s.dpc.Quiet?
  }

  /** Whenever the open port comes to rest, a handler call has begun after the last raise, and the port
      is unmasked and clear. */
  ghost predicate EventsServed(isDpc: bool, pending: bool) {
    forall run ::
      Legal(Registered(isDpc, pending), run) && AtRest(After(Registered(isDpc, pending), run)) &&
      After(Registered(isDpc, pending), run).open ==>
        var s := After(Registered(isDpc, pending), run);
        !s.owed && !s.pending && !s.mask && !s.sel
  }

  /** register_handler unmasks with a plain store and does not look at pending again, so events are
      served for certain exactly when none was pending at that moment. */
  lemma EventsServedIffClearAtRegistration(isDpc: bool, pending: bool)
    ensures EventsServed(isDpc, pending) <==> !pending
  {
    if pending {
      assert Legal(Registered(isDpc, pending), []);
      assert AtRest(After(Registered(isDpc, pending), []));
    } else {
      forall run | Legal(Registered(isDpc, pending), run) && AtRest(After(Registered(isDpc, pending), run)) &&
                   After(Registered(isDpc, pending), run).open
        ensures var s := After(Registered(isDpc, pending), run);
                !s.owed && !s.pending && !s.mask && !s.sel
      {
        RunKeeps(Registered(isDpc, pending), run, !pending);
      }
    }
  }

  // ----- EvtchnPortStop is a barrier

  predicate CallsHandler(s: State, a: Action) {
    (a.IntrMoves? && s.intr.Call?) || (a.DpcMoves? && s.dpc.Handle?)
  }

  /** Every step of the run leaves the handler alone. */
  ghost predicate HandlerLeftAlone(s: State, run: seq<Action>)
    requires Legal(s, run)
    decreases |run|
  {
    run == [] || (!CallsHandler(s, run[0]) && HandlerLeftAlone(Apply(s, run[0]), run[1..]))
  }

  lemma QuietCallsNothing(s: State, a: Action, clean: bool)
    requires Inv(s, clean) && !s.handlerSet
    ensures AllQuiet(s) && !CallsHandler(s, a)
  {
  }

  lemma {:induction false} StoppedStaysQuiet(s: State, run: seq<Action>, clean: bool)
    requires Inv(s, clean) && !s.handlerSet && Legal(s, run)
    ensures HandlerLeftAlone(s, run) && AllQuiet(After(s, run))
    decreases |run|
  {
    if run == [] {
      QuietCallsNothing(s, StopCalled, clean);
    } else {
      QuietCallsNothing(s, run[0], clean);
      StepKeeps(s, run[0], clean);
      StoppedStaysQuiet(Apply(s, run[0]), run[1..], clean);
    }
  }

  /** Once EvtchnPortStop has returned, no later interrupt or DPC calls the handler, though one may have
      held its pointer when the stop began. */
  lemma StopIsBarrier(isDpc: bool, pending: bool, before: seq<Action>, later: seq<Action>)
    requires Legal(Registered(isDpc, pending), before)
    requires After(Registered(isDpc, pending), before).stop.Returned?
    requires Legal(After(Registered(isDpc, pending), before), later)
    ensures HandlerLeftAlone(After(Registered(isDpc, pending), before), later)
    ensures AllQuiet(After(After(Registered(isDpc, pending), before), later))
  {
    RunKeeps(Registered(isDpc, pending), before, !pending);
    StoppedStaysQuiet(After(Registered(isDpc, pending), before), later, !pending);
  }

  /** The assertions of FireHandler and DpcPortDpcHandler hold, and insert_count goes down only from a
      positive value. */
  lemma AssertionsHold(isDpc: bool, pending: bool, run: seq<Action>)
    requires Legal(Registered(isDpc, pending), run)
    ensures var s := After(Registered(isDpc, pending), run);
            && (s.intr.CountUp? ==> !s.stopping)
            && (s.dpc.Handle? || s.intr.Call? ==> s.handlerSet)
            && (s.dpc.Done? && s.intr.Off? ==> s.insertCount > 0)
  {
    RunKeeps(Registered(isDpc, pending), run, !pending);
  }

  // ----- An event that was pending at registration

  /** Nobody selects the port: no local raise, and no sibling port either. */
  predicate Unselected(a: Action) { !a.RaiseCalled? && !a.OtherSelects? }

  /** Pending, but not selected, so that the interrupt never gets to look at it. */
  predicate Overlooked(s: State) {
    && s.pending && !s.sel && !s.upcall && s.xen.XenIdle? && s.raiser.Resting? && s.others == 0
    && (s.intr.Off? || s.intr.On? || s.intr.Finish?) && !s.queued && s.dpc.Quiet?
  }

  lemma OverlookedStays(s: State, a: Action)
    requires Overlooked(s) && Enabled(s, a) && Unselected(a)
    ensures Overlooked(Apply(s, a)) && !CallsHandler(s, a)
  {
    if a.StopMoves? {
      StopElsewhere(s);
    } else if a.IntrMoves? {
      assert IntrStep(s) == if s.intr.Finish? then s.(live := false, intr := Off) else s.(intr := Finish);
    }
  }

  /** The steps of EvtchnPortStop concern only the hook, the handler and its own state. */
  predicate SameButStop(s: State, t: State) {
    && t.pending == s.pending && t.sel == s.sel && t.upcall == s.upcall && t.xen == s.xen && t.raiser == s.raiser
    && t.others == s.others && t.intr == s.intr && t.queued == s.queued && t.dpc == s.dpc
  }

  lemma StopTestElsewhere(s: State)
    requires s.stop.Close? || s.stop.Sync?
    ensures SameButStop(s, StopStep(s))
  {
  }

  lemma StopStoreElsewhere(s: State)
    requires s.stop.Unhook? || s.stop.Flag? || s.stop.Drain? || s.stop.Forget?
    ensures SameButStop(s, StopStep(s))
  {
  }

  lemma StopElsewhere(s: State)
    requires !s.stop.NotCalled? && !s.stop.Returned?
    ensures SameButStop(s, StopStep(s))
  {
    if s.stop.Close? || s.stop.Sync? {
      StopTestElsewhere(s);
    } else {
      StopStoreElsewhere(s);
    }
  }

  lemma {:induction false} OverlookedForever(s: State, run: seq<Action>)
    requires Overlooked(s) && Legal(s, run) && forall k :: 0 <= k < |run| ==> Unselected(run[k])
    ensures HandlerLeftAlone(s, run) && Overlooked(After(s, run))
    decreases |run|
  {
    if run != [] {
      OverlookedStays(s, run[0]);
      OverlookedForever(Apply(s, run[0]), run[1..]);
    }
  }

  /** An event that is pending when the port is registered does not reach the handler in any run without a local
      raise and without sibling ports, however often Xen raises the port again. */
  lemma PendingAtRegistrationIgnored(isDpc: bool, run: seq<Action>)
    requires Legal(Registered(isDpc, true), run) && forall k :: 0 <= k < |run| ==> Unselected(run[k])
    ensures HandlerLeftAlone(Registered(isDpc, true), run) && After(Registered(isDpc, true), run).pending
  {
    OverlookedForever(Registered(isDpc, true), run);
  }
}
