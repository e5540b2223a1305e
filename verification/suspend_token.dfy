/** Suspend tokens (windows/xenutil/suspend.c): a driver that holds a token must not see the machine
    suspend under it.  Callers put the token on a list (or, out of memory, count it) and then wait for
    the event that says the suspend thread is idle; the thread clears the event, looks at the counter
    and the list, and suspends if both are empty.  The two sides share nothing else, and their steps
    interleave freely. */
module SuspendToken {

  /** anonymous_token_count is a 32-bit ULONG. */
  const ULONG_VALUES: nat := 0x1_0000_0000

  datatype Caller =
    | Outside
    | Inserted(named: bool)               // token recorded, about to read suspend_thread
    | Waiting(named: bool)                // waiting for suspend_thread_idle
    | Holding(named: bool, waited: bool)  // EvtchnAllocateSuspendToken has returned

  datatype Thread =
    | AtTop        // about to set suspend_thread_idle
    | Idling       // in XmThreadWait
    | Waking       // woken, about to clear suspend_thread_idle
    | Reading      // reading control/shutdown
    | CheckCount   // about to read anonymous_token_count
    | CheckList    // about to look at suspend_token_list
    | Suspending   // in DoSuspend

  /** `published` says that suspend_thread points to the running thread; `counted` is history, the
      number of times the anonymous counter has been raised. */
  datatype State = State(
    callers: seq<Caller>,
    thread: Thread,
    idle: bool,
    published: bool,
    tokens: set<nat>,
    anonymous: nat,
    counted: nat)

  datatype Action =
    | Allocate(c: nat, named: bool)
    | Proceed(c: nat)        // the caller reads suspend_thread, or finds the event set
    | Release(c: nat)
    | Publish
    | Advance(suspend: bool) // the thread's next step; `suspend` is what control/shutdown says

  function Initial(callers: nat, published: bool): State {
    State(seq(callers, _ => Outside), AtTop, false, published, {}, 0, 0)
  }

  predicate Enabled(s: State, a: Action) {
    match a
    case Allocate(c, _) => c < |s.callers| && s.callers[c].Outside?
    case Proceed(c) =>
      c < |s.callers| && (s.callers[c].Inserted? || (s.callers[c].Waiting? && s.idle))
    case Release(c) => c < |s.callers| && s.callers[c].Holding?
    case Publish => !s.published
    case Advance(_) => true
  }

  function CountUp(s: State): State {
    s.(anonymous := (s.anonymous + 1) % ULONG_VALUES, counted := s.counted + 1)
  }

  function Apply(s: State, a: Action): State
    requires Enabled(s, a)
  {
    match a
    case Allocate(c, named) =>
      var t := s.(callers := s.callers[c := Inserted(named)]);
      if named then t.(tokens := t.tokens + {c}) else CountUp(t)
    case Proceed(c) =>
      var named := s.callers[c].named;
      s.(callers := s.callers[c :=
        if s.callers[c].Waiting? then Holding(named, true)
        else if s.published then Waiting(named)
        else Holding(named, false)])
    case Release(c) =>
      var t := s.(callers := s.callers[c := Outside]);
      if s.callers[c].named then t.(tokens := t.tokens - {c}) else CountUp(t)
    case Publish => s.(published := true)
    case Advance(suspend) =>
      match s.thread
      case AtTop => s.(thread := Idling, idle := true)
      case Idling => s.(thread := Waking)
      case Waking => s.(thread := Reading, idle := false)
      case Reading => s.(thread := if suspend then CheckCount else AtTop)
      case CheckCount => s.(thread := if s.anonymous == 0 then CheckList else AtTop)
      case CheckList => s.(thread := if s.tokens == {} then Suspending else AtTop)
      case Suspending => s.(thread := AtTop)
  }

  ghost predicate Legal(s: State, run: seq<Action>)
    decreases |run|
  {
    run == [] || (Enabled(s, run[0]) && Legal(Apply(s, run[0]), run[1..]))
  }

  ghost function After(s: State, run: seq<Action>): State
    requires Legal(s, run)
    decreases |run|
  {
    if run == [] then s else After(Apply(s, run[0]), run[1..])
  }

  predicate HasNamed(x: Caller) { !x.Outside? && x.named }

  /** A caller that went through the wait is only overlooked by a wrapped counter. */
  ghost predicate CallerOk(s: State, c: nat)
    requires c < |s.callers|
  {
    var x := s.callers[c];
    && (c in s.tokens <==> HasNamed(x))
    && (!x.Outside? && !x.named ==> s.counted > 0)
    && (x.Waiting? ==> s.published)
    && (x.Holding? && x.waited && x.named ==> !s.thread.Suspending?)
    && (x.Holding? && x.waited && !x.named && (s.thread.CheckList? || s.thread.Suspending?) ==>
          s.counted >= ULONG_VALUES)
  }

  ghost predicate Inv(s: State) {
    && (s.idle <==> s.thread.Idling? || s.thread.Waking?)
    && s.anonymous == s.counted % ULONG_VALUES
    && (forall c :: c in s.tokens ==> c < |s.callers|)
    && forall c: nat :: c < |s.callers| ==> CallerOk(s, c)
  }

  lemma CallerKeeps(s: State, a: Action)
    requires Inv(s) && Enabled(s, a) && (a.Allocate? || a.Proceed? || a.Release?)
    ensures Inv(Apply(s, a))
  {
    var t := Apply(s, a);
    forall c: nat | c < |t.callers|
      ensures CallerOk(t, c)
    {
      assert CallerOk(s, c);
    }
  }

  lemma ThreadKeeps(s: State, a: Action)
    requires Inv(s) && Enabled(s, a) && (a.Publish? || a.Advance?)
    ensures Inv(Apply(s, a))
  {
    var t := Apply(s, a);
    forall c: nat | c < |t.callers|
      ensures CallerOk(t, c)
    {
      assert CallerOk(s, c);
    }
  }

  lemma StepKeeps(s: State, a: Action)
    requires Inv(s) && Enabled(s, a)
    ensures Inv(Apply(s, a))
  {
    if a.Publish? || a.Advance? {
      ThreadKeeps(s, a);
    } else {
      CallerKeeps(s, a);
    }
  }

  lemma {:induction false} RunKeeps(s: State, run: seq<Action>)
    requires Inv(s) && Legal(s, run)
    ensures Inv(After(s, run))
    decreases |run|
  {
    if run != [] {
      StepKeeps(s, run[0]);
      RunKeeps(Apply(s, run[0]), run[1..]);
    }
  }

  // ----- With the thread published

  predicate SawThread(s: State) {
    s.published && forall c: nat :: c < |s.callers| && s.callers[c].Holding? ==> s.callers[c].waited
  }

  lemma {:induction false} RunSawThread(s: State, run: seq<Action>)
    requires SawThread(s) && Legal(s, run)
    ensures SawThread(After(s, run))
    decreases |run|
  {
    if run != [] {
      RunSawThread(Apply(s, run[0]), run[1..]);
    }
  }

  /** Caller c holds a token while the machine suspends. */
  predicate Caught(s: State, c: nat) {
    c < |s.callers| && s.callers[c].Holding? && s.thread.Suspending?
  }

  /** In every interleaving, once the thread is published: no holder of a named token ever coexists with
      DoSuspend, and a holder of an anonymous one can only after the 32-bit counter has wrapped. */
  lemma HolderExcludesSuspend(callers: nat, run: seq<Action>, c: nat)
    requires Legal(Initial(callers, true), run)
    ensures var s := After(Initial(callers, true), run);
            Caught(s, c) ==> !s.callers[c].named && s.counted >= ULONG_VALUES
  {
    RunKeeps(Initial(callers, true), run);
    RunSawThread(Initial(callers, true), run);
    var s := After(Initial(callers, true), run);
    if Caught(s, c) {
      assert CallerOk(s, c);
    }
  }

  /** A token asked for after the publication is waited for. */
  lemma {:induction false} LaterCallersWait(s: State, run: seq<Action>, c: nat)
    requires s.published && c < |s.callers| && (s.callers[c].Holding? ==> s.callers[c].waited) && Legal(s, run)
    ensures var t := After(s, run); c < |t.callers| && (t.callers[c].Holding? ==> t.callers[c].waited)
    decreases |run|
  {
    if run != [] {
      LaterCallersWait(Apply(s, run[0]), run[1..], c);
    }
  }

  /** So, whenever the thread is published, it respects all tokens whose allocation returns later. */
  lemma SafeOncePublished(callers: nat, run: seq<Action>, later: seq<Action>, c: nat)
    requires Legal(Initial(callers, false), run)
    requires var s := After(Initial(callers, false), run);
             s.published && c < |s.callers| && !s.callers[c].Holding? && Legal(s, later)
    ensures var t := After(After(Initial(callers, false), run), later);
            Caught(t, c) ==> !t.callers[c].named && t.counted >= ULONG_VALUES
  {
    var s := After(Initial(callers, false), run);
    RunKeeps(Initial(callers, false), run);
    RunKeeps(s, later);
    LaterCallersWait(s, later, c);
    var t := After(s, later);
    if Caught(t, c) {
      assert CallerOk(t, c);
    }
  }

  // ----- Without it

  /** Named tokens keep the machine running, whatever the interleaving. */
  ghost predicate TokensWork(published: bool) {
    forall callers: nat, run, c: nat ::
      Legal(Initial(callers, published), run) && Caught(After(Initial(callers, published), run), c) ==>
        !After(Initial(callers, published), run).callers[c].named
  }

  /** The thread runs before suspend_thread is set.  It passes both checks; then a caller records its
      token, sees no thread to wait for, and returns; then the thread suspends. */
  lemma UnpublishedCaught() returns (run: seq<Action>)
    ensures Legal(Initial(1, false), run)
    ensures var s := After(Initial(1, false), run); Caught(s, 0) && s.callers[0].named
  {
    var s := State([Outside], Suspending, false, false, {}, 0, 0);
    run := First(Apply(s, Allocate(0, true)), Proceed(0), []);
    run := First(s, Allocate(0, true), run);
    run := Awake([Outside], CheckList, run);
    run := Awake([Outside], CheckCount, run);
    run := Awake([Outside], Reading, run);
    var wake := Apply(Apply(Initial(1, false), Advance(true)), Advance(true));
    assert Apply(wake, Advance(true)) == State([Outside], Reading, false, false, {}, 0, 0);
    run := First(wake, Advance(true), run);
    run := First(Apply(Initial(1, false), Advance(true)), Advance(true), run);
    run := First(Initial(1, false), Advance(true), run);
  }

  /** The thread moves on by one check that finds nothing. */
  lemma Awake(callers: seq<Caller>, at: Thread, rest: seq<Action>) returns (run: seq<Action>)
    requires at.Reading? || at.CheckCount? || at.CheckList?
    requires Legal(Apply(State(callers, at, false, false, {}, 0, 0), Advance(true)), rest)
    ensures Legal(State(callers, at, false, false, {}, 0, 0), run)
    ensures After(State(callers, at, false, false, {}, 0, 0), run)
         == After(Apply(State(callers, at, false, false, {}, 0, 0), Advance(true)), rest)
  {
    run := First(State(callers, at, false, false, {}, 0, 0), Advance(true), rest);
  }

  lemma First(s: State, a: Action, rest: seq<Action>) returns (run: seq<Action>)
    requires Enabled(s, a) && Legal(Apply(s, a), rest)
    ensures run == [a] + rest && Legal(s, run) && After(s, run) == After(Apply(s, a), rest)
  {
    run := [a] + rest;
    assert run[1..] == rest;
  }

  /** So tokens protect their holders exactly when suspend_thread is set before the thread runs. */
  lemma TokensWorkIffPublished(published: bool)
    ensures TokensWork(published) <==> published
  {
    if published {
      forall callers: nat, run, c: nat |
        Legal(Initial(callers, published), run) && Caught(After(Initial(callers, published), run), c)
        ensures !After(Initial(callers, published), run).callers[c].named
      {
        HolderExcludesSuspend(callers, run, c);
      }
    } else {
      var run := UnpublishedCaught();
      assert Caught(After(Initial(1, published), run), 0);
    }
  }

  // ----- The counter only goes up

  /** One anonymous token, even released, blocks every later suspend until the counter wraps. */
  lemma {:induction false} AnonymousTokenBlocksSuspend(s: State, run: seq<Action>)
    requires Inv(s) && s.counted > 0 && !s.thread.CheckList? && !s.thread.Suspending?
    requires Legal(s, run) && After(s, run).counted < ULONG_VALUES
    ensures !After(s, run).thread.Suspending?
    decreases |run|
  {
    if run != [] {
      StepKeeps(s, run[0]);
      CountedGrows(Apply(s, run[0]), run[1..]);
      AnonymousTokenBlocksSuspend(Apply(s, run[0]), run[1..]);
    }
  }

  lemma {:induction false} CountedGrows(s: State, run: seq<Action>)
    requires Legal(s, run)
    ensures s.counted <= After(s, run).counted
    decreases |run|
  {
    if run != [] {
      CountedGrows(Apply(s, run[0]), run[1..]);
    }
  }

  // ----- When the machine can suspend

  /** The callers do nothing, and control/shutdown says suspend. */
  ghost predicate ThreadAlone(run: seq<Action>) { forall i :: 0 <= i < |run| ==> run[i] == Advance(true) }

  /** No token counts against a suspend. */
  ghost predicate NoTokens(s: State) {
    s.anonymous == 0 && forall c: nat :: c < |s.callers| ==> !HasNamed(s.callers[c])
  }

  function Togo(thread: Thread): nat {
    match thread
    case Suspending => 7
    case AtTop => 6
    case Idling => 5
    case Waking => 4
    case Reading => 3
    case CheckCount => 2
    case CheckList => 1
  }

  /** The thread goes round, and suspends; after a suspend it goes round once more. */
  lemma {:induction false} GoesRound(s: State) returns (run: seq<Action>)
    requires s.anonymous == 0 && s.tokens == {}
    ensures run != [] && ThreadAlone(run) && Legal(s, run) && After(s, run).thread.Suspending?
    decreases Togo(s.thread)
  {
    var t := Apply(s, Advance(true));
    var rest := [];
    if !t.thread.Suspending? {
      rest := GoesRound(t);
    }
    run := First(s, Advance(true), rest);
  }

  lemma {:induction false} GoesOnRound(s: State, run: seq<Action>)
    requires (s.anonymous != 0 || s.tokens != {}) && !s.thread.Suspending?
    requires s.thread.CheckList? ==> s.tokens != {}
    requires ThreadAlone(run) && Legal(s, run)
    ensures !After(s, run).thread.Suspending?
    decreases |run|
  {
    if run != [] {
      GoesOnRound(Apply(s, run[0]), run[1..]);
    }
  }

  /** In every state of every run before the checks, the thread left to itself suspends exactly if no named
      token is out and the counter is zero; in particular, releasing named tokens undoes allocating them. */
  lemma SuspendsIffNoTokens(callers: nat, published: bool, run: seq<Action>)
    requires Legal(Initial(callers, published), run)
    requires var s := After(Initial(callers, published), run); !s.thread.CheckList? && !s.thread.Suspending?
    ensures var s := After(Initial(callers, published), run);
            (exists more :: ThreadAlone(more) && Legal(s, more) && After(s, more).thread.Suspending?) <==> NoTokens(s)
  {
    RunKeeps(Initial(callers, published), run);
    var s := After(Initial(callers, published), run);
    if NoTokens(s) {
      assert forall c :: c in s.tokens ==> CallerOk(s, c);
      assert s.tokens == {};
      var more := GoesRound(s);
      assert ThreadAlone(more);
    } else {
      assert s.anonymous != 0 || s.tokens != {} by {
        if c: nat :| c < |s.callers| && HasNamed(s.callers[c]) {
          assert CallerOk(s, c);
        }
      }
      forall more | ThreadAlone(more) && Legal(s, more)
        ensures !After(s, more).thread.Suspending?
      {
        GoesOnRound(s, more);
      }
    }
  }
}
