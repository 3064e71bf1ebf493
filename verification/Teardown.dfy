/** What bal_init and bal_cleanup guarantee over whole histories: the registry never dangles while async I/O is up,
    teardown happens in order and in bounded time, and successes balance. */
module Teardown {
  import opened Registry
  import opened World
  import opened Machine
  import opened Lifecycle

  lemma {:induction false} InvForever<P>(y: Sys<P>, es: seq<Event<P>>)
    requires Inv(y) && History(y, es)
    ensures Inv(After(y, es))
    decreases |es|
  {
    if es != [] {
      NextKeepsInv(y, es[0]);
      InvForever(Next(y, es[0]), es[1..]);
    }
  }

  lemma InitialInv<P>(rdHup: bool, quiet: bool)
    ensures Inv(Initial<P>(rdHup, quiet))
  {
  }

  /** In every reachable state with async I/O up: keys are distinct, every registered value is a live socket with that
      descriptor and a callback, and the event thread has not followed a freed socket. A thread may be held up between
      the tests of bal_async_poll and its section, if it gets to the section while the flag is still up. */
  lemma NoDanglingRegistration<P>(rdHup: bool, es: seq<Event<P>>)
    requires History(Initial(rdHup, true), es)
    ensures var y := After(Initial(rdHup, true), es); y.core.w.init ==> Safe(y.core.w) && y.core.pc != Fault
  {
    InitialInv<P>(rdHup, true);
    QuietForever(Initial<P>(rdHup, true), es);
    InvForever(Initial(rdHup, true), es);
  }

  lemma {:induction false} QuietForever<P>(y: Sys<P>, es: seq<Event<P>>)
    requires History(y, es)
    ensures After(y, es).quiet == y.quiet
    decreases |es|
  {
    if es != [] {
      QuietForever(Next(y, es[0]), es[1..]);
    }
  }

  // ----- Histories are runs of the event-thread machine -----

  /** The machine's step in one event, if there is one. */
  ghost function LabelOf<P>(y: Sys<P>, e: Event<P>): seq<Label<P>> {
    match e
    case Core(l) => [l]
    case Go(t, success) => if ControlOf(y, t, success).Some? then [ControlOf(y, t, success).value] else []
    case _ => []
  }

  /** The machine's steps in a history, in order. */
  ghost function Labels<P>(y: Sys<P>, es: seq<Event<P>>): seq<Label<P>>
    requires History(y, es)
    decreases |es|
  {
    if es == [] then [] else LabelOf(y, es[0]) + Labels(Next(y, es[0]), es[1..])
  }

  /** Control steps happen only when the machine allows them: a thread is started only when there is none, and joined
      only after it has left its loop. */
  lemma ControlEnabled<P>(y: Sys<P>, t: nat, success: bool)
    requires Inv(y) && Possible(y, Go(t, success)) && ControlOf(y, t, success).Some?
    ensures Enabled(y.core, ControlOf(y, t, success).value) && ControlOf(y, t, success).value.OfControl()
    ensures GoStep(y, t, success).core == Step(y.core, ControlOf(y, t, success).value)
  {
    assert y.Where(t).HoldsMutex() <==> y.mutex == Some(t);
  }

  lemma EventIsStep<P>(y: Sys<P>, e: Event<P>)
    requires Inv(y) && Possible(y, e)
    ensures Valid(y.core, LabelOf(y, e)) && Run(y.core, LabelOf(y, e)) == Next(y, e).core
  {
    if e.Go? && ControlOf(y, e.t, e.success).Some? {
      ControlEnabled(y, e.t, e.success);
    }
  }

  /** Every history is a run of the event-thread machine, so whatever holds of all its runs holds of all histories. */
  lemma {:induction false} HistoryIsRun<P>(y: Sys<P>, es: seq<Event<P>>)
    requires Inv(y) && History(y, es)
    ensures Valid(y.core, Labels(y, es)) && Run(y.core, Labels(y, es)) == After(y, es).core
    decreases |es|
  {
    if es != [] {
      NextKeepsInv(y, es[0]);
      EventIsStep(y, es[0]);
      HistoryIsRun(Next(y, es[0]), es[1..]);
      RunAppend(y.core, LabelOf(y, es[0]), Labels(Next(y, es[0]), es[1..]));
    }
  }

  lemma {:induction false} DisciplineFrom<P>(y: Sys<P>, es: seq<Event<P>>)
    requires Inv(y) && Clean(y.core) && History(y, es)
    ensures Valid(y.core, Labels(y, es))
    ensures DisciplinedRun(y.core, Labels(y, es)) <==> CleanAlong(y.core, Labels(y, es))
    ensures DisciplinedRun(y.core, Labels(y, es)) ==> Clean(After(y, es).core)
  {
    hide Inv, Clean;
    HistoryIsRun(y, es);
    DisciplineIsCleanliness(y.core, Labels(y, es));
    if DisciplinedRun(y.core, Labels(y, es)) {
      RunKeepsClean(y.core, Labels(y, es));
    }
  }

  /** A thread that makes the list finds no event thread, and leaves no entry of an earlier list behind. */
  lemma NewListIsClean<P>(y: Sys<P>, t: nat, success: bool)
    requires Inv(y) && y.Where(t) == InitList && Possible(y, Go(t, success))
    ensures Clean(Next(y, Go(t, success)).core)
  {
    assert y.Where(t).HoldsMutex() <==> y.mutex == Some(t);
  }

  /** From the moment a list is made, whatever went on before, and over any course of events from then on: the registry
      is safe at all times, and the event thread never follows a freed socket, exactly when no socket is freed from then
      on that is registered with async I/O down. */
  lemma {:induction false} SafeSinceListMade<P>(rdHup: bool, quiet: bool, before: seq<Event<P>>, t: nat,
                                               success: bool, es: seq<Event<P>>)
    requires History(Initial(rdHup, quiet), before) && After(Initial(rdHup, quiet), before).Where(t) == InitList
    requires var y := After(Initial(rdHup, quiet), before);
      Possible(y, Go(t, success)) && History(Next(y, Go(t, success)), es)
    ensures var y := Next(After(Initial(rdHup, quiet), before), Go(t, success));
      && Valid(y.core, Labels(y, es))
      && (DisciplinedRun(y.core, Labels(y, es)) <==> CleanAlong(y.core, Labels(y, es)))
  {
    hide Inv, Clean;
    InitialInv<P>(rdHup, quiet);
    InvForever(Initial(rdHup, quiet), before);
    var y := After(Initial(rdHup, quiet), before);
    NewListIsClean(y, t, success);
    NextKeepsInv(y, Go(t, success));
    DisciplineFrom(Next(y, Go(t, success)), es);
  }

  /** Over every history, also one with late sections: the registry is safe at all times, teardown included, and the
      event thread never follows a freed socket, exactly when no socket is freed that is registered with async I/O
      down. */
  lemma {:induction false} DisciplineIsExact<P>(rdHup: bool, quiet: bool, es: seq<Event<P>>)
    requires History(Initial(rdHup, quiet), es)
    ensures Valid(Initial(rdHup, quiet).core, Labels(Initial(rdHup, quiet), es))
    ensures var core, ls := Initial<P>(rdHup, quiet).core, Labels(Initial(rdHup, quiet), es);
      DisciplinedRun(core, ls) <==> CleanAlong(core, ls)
    ensures DisciplinedRun(Initial(rdHup, quiet).core, Labels(Initial(rdHup, quiet), es))
        ==> Clean(After(Initial(rdHup, quiet), es).core)
  {
    InitialInv<P>(rdHup, quiet);
    DisciplineFrom(Initial(rdHup, quiet), es);
  }

  // ----- Teardown order -----

  /** In every reachable state: a thread about to start an event thread finds none; the flag goes up only after that
      thread has been started, and the magic word after the flag; on the way down `die` is set before the flag is
      lowered, and the flag is lowered before the join, which has a thread to wait for; one about to walk and free the
      list finds the event thread gone, and the magic word goes last. */
  lemma TeardownOrder<P>(rdHup: bool, quiet: bool, es: seq<Event<P>>, t: nat)
    requires History(Initial(rdHup, quiet), es)
    ensures var y := After(Initial(rdHup, quiet), es);
      && (y.Where(t) == InitSpawn ==> y.core.pc == NoThread && y.list && !y.core.w.init)
      && (y.Where(t) == InitFlag(true) ==> y.core.pc != NoThread && !y.core.w.init)
      && (y.Where(t) == InitDie(true) ==> y.core.w.init)
      && (y.Where(t) == InitMagic(true) ==> y.core.w.init && !y.magic)
      && (y.Where(t) == CleanupFlag ==> y.core.w.die && y.core.w.init)
      && (y.Where(t) == CleanupJoin ==> y.core.pc != NoThread && y.core.w.die && !y.core.w.init)
      && (y.Where(t) == CleanupFree ==> y.core.pc == NoThread && y.list && y.magic)
      && (y.Where(t) == CleanupMagic(true) ==> !y.core.w.init && y.core.pc == NoThread)
  {
    InitialInv<P>(rdHup, quiet);
    InvForever(Initial(rdHup, quiet), es);
    var y := After(Initial(rdHup, quiet), es);
    assert y.Where(t).HoldsMutex() <==> y.mutex == Some(t);
  }

  /** An upper bound on the event thread's remaining steps once `die` is set. */
  function Remaining<P>(s: State<P>): nat
    requires s.pc.WellFormed()
  {
    match s.pc
    case LoopHead => 1
    case Locking => 2 * |s.w.reg| + 4
    case Polling(fds) => 2 * |fds| + 3
    case Serving(fds, _, turn) => 2 * (|fds| - turn) + 2
    case InCallback(fds, _, turn, _) => 2 * (|fds| - turn) + 1
    case _ => 0
  }

  /** With `die` set no call adds to the registry, except for a late section. */
  lemma DyingRegistryShrinks<P>(w: World<P>, op: Op<P>)
    requires Callable(w, op) && w.die
    ensures |Apply(w, op).reg| <= |w.reg| + (if op.PollSection? then 1 else 0)
  {
  }

  lemma StepSpendsBudget<P>(s: State<P>, l: Label<P>)
    requires Enabled(s, l) && !l.OfControl() && s.w.die
    ensures Step(s, l).pc.WellFormed() && Step(s, l).w.die
    ensures Remaining(Step(s, l)) + (if l.OfThread() then 1 else 0) <= Remaining(s) + (if IsSection(l) then 2 else 0)
  {
    if l.User? || l.Handler? {
      DyingRegistryShrinks(s.w, l.op);
      OpKeepsFlags(s.w, l.op);
    }
  }

  ghost function CountThreadSteps<P>(es: seq<Event<P>>): nat {
    if es == [] then 0 else (if es[0].Core? && es[0].l.OfThread() then 1 else 0) + CountThreadSteps(es[1..])
  }

  ghost function CountSections<P>(es: seq<Event<P>>): nat {
    if es == [] then 0 else (if es[0].Core? && IsSection(es[0].l) then 1 else 0) + CountSections(es[1..])
  }

  /** While a cleanup waits to join, no other init or cleanup can move. */
  lemma OthersWaitForCleanup<P>(y: Sys<P>, e: Event<P>, t: nat)
    requires Inv(y) && y.Where(t) == CleanupJoin && Possible(y, e) && (e.Go? ==> e.t != t)
    ensures !e.Go? && Next(y, e).Where(t) == CleanupJoin
    ensures !e.Core? ==> Next(y, e).core == y.core
  {
    assert y.Where(t).HoldsMutex() <==> y.mutex == Some(t);
    assert forall u: nat | u != t :: !y.Where(u).HoldsMutex();
  }

  /** While a cleanup waits to join, the event thread takes at most as many steps as its current pass still needs, and
      two for each late section. In a quiet history there are no late sections by then. */
  lemma {:induction false} JoinWaitIsBounded<P>(y: Sys<P>, es: seq<Event<P>>, t: nat)
    requires Inv(y) && y.Where(t) == CleanupJoin
    requires History(y, es) && forall e | e in es :: e.Go? ==> e.t != t
    ensures After(y, es).Where(t) == CleanupJoin && After(y, es).core.pc.WellFormed()
    ensures CountThreadSteps(es) + Remaining(After(y, es).core) <= Remaining(y.core) + 2 * CountSections(es)
    ensures y.quiet ==> CountSections(es) == 0
    decreases |es|
  {
    assert y.Where(t).HoldsMutex() <==> y.mutex == Some(t);
    if es != [] {
      OthersWaitForCleanup(y, es[0], t);
      if es[0].Core? {
        StepSpendsBudget(y.core, es[0].l);
      }
      NextKeepsInv(y, es[0]);
      JoinWaitIsBounded(Next(y, es[0]), es[1..], t);
    }
  }

  /** The event thread has a next step exactly until it has exited or followed a freed socket. */
  lemma ThreadCanStep<P>(s: State<P>)
    requires s.pc.WellFormed()
    ensures (exists l: Label<P> :: l.OfThread() && Enabled(s, l))
       <==> !s.pc.NoThread? && !s.pc.Exited? && !s.pc.Fault?
    ensures !s.pc.NoThread? && !s.pc.Exited? && !s.pc.Fault? ==>
              NextStep<P>(s.pc).OfThread() && Enabled(s, NextStep(s.pc))
  {
    if !s.pc.NoThread? && !s.pc.Exited? && !s.pc.Fault? {
      assert NextStep<P>(s.pc).OfThread() && Enabled(s, NextStep(s.pc));
    }
  }

  // ----- Accounting -----

  /** Whenever the library mutex is free: the magic word, the async flag and the balance of successful inits over
      successful cleanups say the same thing. */
  lemma Accounting<P>(rdHup: bool, quiet: bool, es: seq<Event<P>>)
    requires History(Initial(rdHup, quiet), es)
    ensures var y := After(Initial(rdHup, quiet), es);
      y.mutex == None ==> y.magic == y.core.w.init && y.inits == y.cleanups + (if y.magic then 1 else 0)
  {
    InitialInv<P>(rdHup, quiet);
    InvForever(Initial(rdHup, quiet), es);
  }

  /** A cleanup that got past its sanity check returns in this step. */
  predicate CleanupReturns<P>(y: Sys<P>, e: Event<P>) {
    e.Go? && y.Where(e.t).CleanupUnlock?
  }

  ghost predicate SomeCleanupReturns<P>(y: Sys<P>, es: seq<Event<P>>)
    requires History(y, es)
    decreases |es|
  {
    es != [] && (CleanupReturns(y, es[0]) || SomeCleanupReturns(Next(y, es[0]), es[1..]))
  }

  /** Down, or on the way up in an init that has yet to return. */
  ghost predicate DownOrRising<P>(y: Sys<P>) {
    !y.magic || (y.mutex.Some? && y.Where(y.mutex.value) == InitUnlock(true))
  }

  lemma SeenInitsGrow(v: Sight, t: nat, success: bool)
    ensures v.inits <= Seen(v, t, success).inits
  {
  }

  lemma InitsGrow<P>(y: Sys<P>, e: Event<P>)
    requires Possible(y, e)
    ensures y.inits <= Next(y, e).inits
  {
    hide ControlOf, ControlStep, Step, Enabled, Seen;
    if e.Go? {
      SeenInitsGrow(SightOf(y, e.t), e.t, e.success);
    }
  }

  lemma {:induction false} InitsOnlyGrow<P>(y: Sys<P>, es: seq<Event<P>>)
    requires History(y, es)
    ensures y.inits <= After(y, es).inits
    decreases |es|
  {
    if es != [] {
      InitsGrow(y, es[0]);
      InitsOnlyGrow(Next(y, es[0]), es[1..]);
    }
  }

  lemma StepStaysDown<P>(y: Sys<P>, e: Event<P>)
    requires Inv(y) && Possible(y, e) && Next(y, e).inits == y.inits
    ensures DownOrRising(y) || CleanupReturns(y, e) ==> DownOrRising(Next(y, e))
  {
    if e.Go? {
      assert y.Where(e.t).HoldsMutex() <==> y.mutex == Some(e.t);
    }
  }

  lemma {:induction false} StaysDown<P>(y: Sys<P>, es: seq<Event<P>>)
    requires Inv(y) && History(y, es) && After(y, es).inits == y.inits
    requires DownOrRising(y) || SomeCleanupReturns(y, es)
    ensures DownOrRising(After(y, es))
    decreases |es|
  {
    hide Inv, Next, DownOrRising;
    if es != [] {
      InitsGrow(y, es[0]);
      InitsOnlyGrow(Next(y, es[0]), es[1..]);
      StepStaysDown(y, es[0]);
      NextKeepsInv(y, es[0]);
      StaysDown(Next(y, es[0]), es[1..]);
    }
  }

  /** Between two moments when the library mutex is free and with no init succeeding in between: if the library was up
      and any cleanups got past their sanity check and returned, exactly one of them returned success. */
  lemma RacingCleanups<P>(y: Sys<P>, es: seq<Event<P>>)
    requires Inv(y) && y.mutex == None && History(y, es) && After(y, es).mutex == None
    requires y.magic && After(y, es).inits == y.inits && SomeCleanupReturns(y, es)
    ensures After(y, es).cleanups == y.cleanups + 1 && !After(y, es).magic
  {
    InvForever(y, es);
    StaysDown(y, es);
  }
}
