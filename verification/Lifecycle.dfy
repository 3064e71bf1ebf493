/** bal_init and bal_cleanup, statement by statement and from any number of threads, around the event-thread machine. */
module Lifecycle {
  import opened Registry
  import opened World
  import opened Machine

  /** How far a thread has got inside bal_init or bal_cleanup; the boolean is the result so far. */
  datatype At =
    | Outside
    | InitLocked
    | InitList
    | InitSpawn
    | InitFlag(ok: bool)
    | InitDie(ok: bool)
    | InitMagic(ok: bool)
    | InitUnlock(ok: bool)
    | CleanupChecked
    | CleanupLocked
    | CleanupFlag
    | CleanupJoin
    | CleanupFree
    | CleanupMagic(ok: bool)
    | CleanupUnlock(ok: bool)
  {
    predicate HoldsMutex() {
      !Outside? && !CleanupChecked?
    }
  }

  /** `mutex` is the owner of the library-state mutex, `list` whether the list is allocated; `inits` and `cleanups`
      count the calls that have returned true. `quiet` says that threads caught between the tests of bal_async_poll and
      its section get to the section while the flag is up, or not at all. */
  datatype Sys<P(==)> = Sys(core: State<P>, magic: bool, list: bool, mutex: Option<nat>, threads: map<nat, At>,
                            inits: nat, cleanups: nat, quiet: bool)
  {
    function Where(t: nat): At {
      if t in threads then threads[t] else Outside
    }

    function Move(t: nat, at: At): Sys<P> {
      this.(threads := threads[t := at])
    }
  }

  datatype Event<P(==)> =
    | Core(l: Label<P>)
    | CallInit(t: nat)
    | CallCleanup(t: nat)
    | Go(t: nat, success: bool)

  function Initial<P>(rdHup: bool, quiet: bool): Sys<P> {
    Sys(State(World(map[], [], false, false), rdHup, NoThread), false, false, None, map[], 0, 0, quiet)
  }

  predicate IsSection<P(==)>(l: Label<P>) {
    (l.User? || l.Handler?) && l.op.PollSection?
  }

  predicate Possible<P(==)>(y: Sys<P>, e: Event<P>) {
    match e
    case Core(l) =>
      && !l.OfControl() && Enabled(y.core, l)
      && (IsSection(l) ==> if y.quiet then y.core.w.init else l.op.memory ==> y.list)  // no room on a null list
    case CallInit(t) => y.Where(t) == Outside && y.mutex == None
    case CallCleanup(t) => y.Where(t) == Outside
    case Go(t, _) =>
      && y.Where(t) != Outside
      && (y.Where(t).CleanupChecked? ==> y.mutex == None)
      && (y.Where(t).CleanupJoin? ==> y.core.pc.Exited?)
  }

  /** What a thread's next statement does to the shared machine, if anything. */
  function ControlOf<P>(y: Sys<P>, t: nat, success: bool): Option<Label<P>> {
    match y.Where(t)
    case InitList => Some(NewList)  // the pointer is overwritten even if the allocation fails
    case InitSpawn => if success then Some(StartThread) else None
    case InitFlag(ok) => Some(StoreInit(ok))
    case InitDie(ok) => Some(StoreDie(!ok))
    case CleanupLocked => if y.core.w.init then Some(StoreDie(true)) else None
    case CleanupFlag => Some(StoreInit(false))
    case CleanupJoin => Some(JoinThread)
    case CleanupFree => Some(FreeList)
    case _ => None
  }

  /** What a thread can see: where it is, magic word, flags, list and mutex, and the counts of successes. */
  datatype Sight = Sight(at: At, magic: bool, init: bool, die: bool, list: bool, mutex: Option<nat>,
                         inits: nat, cleanups: nat)

  function SightOf<P>(y: Sys<P>, t: nat): Sight {
    Sight(y.Where(t), y.magic, y.core.w.init, y.core.w.die, y.list, y.mutex, y.inits, y.cleanups)
  }

  /** One statement of bal_init, _bal_init_asyncpoll, bal_cleanup or _bal_cleanup_asyncpoll, as the thread sees it. */
  function Seen(v: Sight, t: nat, success: bool): Sight {
    match v.at
    case Outside => v
    case InitLocked => v.(at := if v.magic || v.init then InitUnlock(false) else InitList)
    case InitList => v.(at := if success then InitSpawn else InitUnlock(false), list := success)
    case InitSpawn => v.(at := InitFlag(success))
    case InitFlag(ok) => v.(at := InitDie(ok), init := ok)
    case InitDie(ok) => v.(at := InitMagic(ok), die := !ok)
    case InitMagic(ok) => v.(at := InitUnlock(ok), magic := v.magic || ok)
    case InitUnlock(ok) => v.(at := Outside, mutex := None, inits := v.inits + (if ok then 1 else 0))
    case CleanupChecked => v.(at := CleanupLocked, mutex := Some(t))
    case CleanupLocked => if v.init then v.(at := CleanupFlag, die := true) else v.(at := CleanupMagic(false))
    case CleanupFlag => v.(at := CleanupJoin, init := false)
    case CleanupJoin => v.(at := CleanupFree)
    case CleanupFree => v.(at := CleanupMagic(v.list), list := false)
    case CleanupMagic(ok) => v.(at := CleanupUnlock(ok), magic := false)
    case CleanupUnlock(ok) => v.(at := Outside, mutex := None, cleanups := v.cleanups + (if ok then 1 else 0))
  }

  /** The same statement for the whole system: what the thread sees, and what it does to the engine. */
  function GoStep<P>(y: Sys<P>, t: nat, success: bool): Sys<P> {
    var v, c := Seen(SightOf(y, t), t, success), ControlOf(y, t, success);
    y.(core := if c.Some? then ControlStep(y.core, c.value) else y.core,
       magic := v.magic, list := v.list, mutex := v.mutex, inits := v.inits, cleanups := v.cleanups).Move(t, v.at)
  }

  function Next<P>(y: Sys<P>, e: Event<P>): Sys<P>
    requires Possible(y, e)
  {
    match e
    case Core(l) => y.(core := Step(y.core, l))
    case CallInit(t) => y.(mutex := Some(t)).Move(t, InitLocked)
    case CallCleanup(t) => if y.magic then y.Move(t, CleanupChecked) else y
    case Go(t, success) => GoStep(y, t, success)
  }

  ghost predicate History<P>(y: Sys<P>, es: seq<Event<P>>)
    decreases |es|
  {
    es == [] || (Possible(y, es[0]) && History(Next(y, es[0]), es[1..]))
  }

  ghost function After<P>(y: Sys<P>, es: seq<Event<P>>): Sys<P>
    requires History(y, es)
    decreases |es|
  {
    if es == [] then y else After(Next(y, es[0]), es[1..])
  }

  lemma {:induction false} OneMoreEvent<P>(y: Sys<P>, es: seq<Event<P>>, e: Event<P>)
    requires History(y, es) && Possible(After(y, es), e)
    ensures History(y, es + [e]) && After(y, es + [e]) == Next(After(y, es), e)
    decreases |es|
  {
    if es == [] {
      assert [e][1..] == [] && History(Next(y, e), []);
      assert es + [e] == [e];
    } else {
      assert (es + [e])[0] == es[0] && (es + [e])[1..] == es[1..] + [e];
      OneMoreEvent(Next(y, es[0]), es[1..], e);
    }
  }

  // ----- The invariant -----

  ghost predicate HasThread<P>(y: Sys<P>) {
    y.core.pc != NoThread
  }

  /** In a quiet history: registry empty and no event thread, or one that has found nothing to poll. */
  ghost predicate Fresh<P>(core: State<P>, quiet: bool) {
    quiet ==> core.w.reg == [] && (core.pc.NoThread? || core.pc.LoopHead? || core.pc.Locking? || core.pc.Exited?)
  }

  ghost predicate Balance<P>(y: Sys<P>, up: bool) {
    y.inits == y.cleanups + (if up then 1 else 0)
  }

  /** The library is fully up or fully down, and the counters agree. */
  ghost predicate Settled<P>(y: Sys<P>) {
    && y.magic == y.core.w.init && Balance(y, y.magic)
    && (if y.magic then HasThread(y) && y.list else !HasThread(y) && Fresh(y.core, y.quiet))
  }

  /** What holds at each point of bal_init and bal_cleanup for the thread that owns the mutex. */
  ghost predicate OwnerInv<P>(y: Sys<P>, at: At) {
    var init, thread := y.core.w.init, HasThread(y);
    match at
    case Outside => Settled(y)
    case InitLocked => Settled(y)
    case InitList => Settled(y) && !y.magic
    case InitSpawn => Settled(y) && !y.magic && y.list
    case InitFlag(ok) => !y.magic && !init && thread == ok && y.list && Fresh(y.core, y.quiet) && Balance(y, false)
    case InitDie(ok) =>
      !y.magic && init == ok && thread == ok && y.list && (!ok ==> Fresh(y.core, y.quiet)) && Balance(y, false)
    case InitMagic(ok) =>
      !y.magic && init == ok && thread == ok && y.list && (!ok ==> Fresh(y.core, y.quiet)) && Balance(y, false)
    case InitUnlock(ok) => if ok then y.magic && init && thread && y.list && Balance(y, false) else Settled(y)
    case CleanupChecked => true
    case CleanupLocked => Settled(y)
    case CleanupFlag => y.magic && init && y.core.w.die && thread && y.list && Balance(y, true)
    case CleanupJoin => y.magic && !init && y.core.w.die && thread && y.list && Balance(y, true)
    case CleanupFree => y.magic && !init && !thread && y.list && Balance(y, true)
    case CleanupMagic(ok) => !init && !thread && Fresh(y.core, y.quiet) && Balance(y, ok)
    case CleanupUnlock(ok) => !y.magic && !init && !thread && Fresh(y.core, y.quiet) && Balance(y, ok)
  }

  ghost predicate OwnerOk<P>(y: Sys<P>) {
    OwnerInv(y, if y.mutex == None then Outside else y.Where(y.mutex.value))
  }

  ghost predicate UpIsClean<P>(y: Sys<P>) {
    y.core.pc.WellFormed() && (y.quiet && y.core.w.init ==> Clean(y.core))
  }

  ghost predicate OwnerHolds<P>(y: Sys<P>) {
    forall t: nat :: y.Where(t).HoldsMutex() <==> y.mutex == Some(t)
  }

  ghost predicate Inv<P>(y: Sys<P>) {
    OwnerHolds(y) && OwnerOk(y) && UpIsClean(y)
  }

  /** With async I/O down, no API call changes the registry, except for a late section. */
  lemma DownKeepsRegistry<P>(w: World<P>, op: Op<P>)
    requires Callable(w, op) && !w.init && !op.PollSection?
    ensures Apply(w, op).reg == w.reg && !Apply(w, op).init && Apply(w, op).die == w.die
  {
  }

  lemma OpKeepsFlags<P>(w: World<P>, op: Op<P>)
    requires Callable(w, op)
    ensures Apply(w, op).init == w.init && Apply(w, op).die == w.die
  {
  }

  lemma CoreKeepsFlags<P>(s: State<P>, l: Label<P>)
    requires Enabled(s, l) && !l.OfControl()
    ensures var s' := Step(s, l);
      && s'.w.init == s.w.init && s'.w.die == s.w.die && s'.pc.WellFormed()
      && (s'.pc.NoThread? <==> s.pc.NoThread?)
  {
    if l.User? || l.Handler? {
      OpKeepsFlags(s.w, l.op);
    }
  }

  lemma CoreKeepsFresh<P>(y: Sys<P>, l: Label<P>)
    requires Enabled(y.core, l) && !l.OfControl() && !IsSection(l)
    requires Fresh(y.core, y.quiet) && !y.core.w.init
    ensures Fresh(Step(y.core, l), y.quiet)
  {
    if l.User? || l.Handler? {
      DownKeepsRegistry(y.core.w, l.op);
    }
  }

  lemma CoreKeepsInv<P>(y: Sys<P>, l: Label<P>)
    requires Inv(y) && Possible(y, Core(l))
    ensures Inv(Next(y, Core(l)))
  {
    hide Clean, Step, Enabled;
    CoreKeepsFlags(y.core, l);
    if !y.quiet {
    } else if y.core.w.init {
      StepKeepsClean(y.core, l);
    } else if Fresh(y.core, y.quiet) {
      CoreKeepsFresh(y, l);
    }
    var y' := Next(y, Core(l));
    assert forall t: nat :: y'.Where(t) == y.Where(t);
  }

  predicate Initializing(at: At) {
    at.InitLocked? || at.InitList? || at.InitSpawn? || at.InitFlag? || at.InitDie? || at.InitMagic? || at.InitUnlock?
  }

  predicate Beginning(at: At) {
    at.InitLocked? || at.InitList? || at.InitSpawn?
  }

  lemma BeginGoKeeps<P>(y: Sys<P>, t: nat, success: bool)
    requires y.mutex == Some(t) && Beginning(y.Where(t)) && OwnerInv(y, y.Where(t))
    ensures OwnerOk(GoStep(y, t, success))
  {
    match y.Where(t)
    case InitLocked =>
    case InitList =>
    case InitSpawn =>
  }

  lemma RiseGoKeeps<P>(y: Sys<P>, t: nat, success: bool)
    requires y.mutex == Some(t) && Initializing(y.Where(t)) && !Beginning(y.Where(t)) && OwnerInv(y, y.Where(t))
    ensures OwnerOk(GoStep(y, t, success))
  {
    match y.Where(t)
    case InitFlag(ok) =>
    case InitDie(ok) =>
    case InitMagic(ok) =>
    case InitUnlock(ok) =>
  }

  lemma LockGoKeeps<P>(y: Sys<P>, t: nat, success: bool)
    requires y.mutex == None && y.Where(t).CleanupChecked? && OwnerInv(y, Outside)
    ensures OwnerOk(GoStep(y, t, success))
  {
  }

  predicate Stopping(at: At) {
    at.CleanupLocked? || at.CleanupFlag? || at.CleanupJoin?
  }

  lemma StopGoKeeps<P>(y: Sys<P>, t: nat, success: bool)
    requires y.mutex == Some(t) && Stopping(y.Where(t)) && OwnerInv(y, y.Where(t))
    ensures OwnerOk(GoStep(y, t, success))
  {
    match y.Where(t)
    case CleanupLocked =>
    case CleanupFlag =>
    case CleanupJoin =>
  }

  lemma FreeGoKeeps<P>(y: Sys<P>, t: nat, success: bool)
    requires y.mutex == Some(t) && y.Where(t).CleanupFree? && OwnerInv(y, y.Where(t))
    ensures OwnerOk(GoStep(y, t, success))
  {
  }

  lemma EndGoKeeps<P>(y: Sys<P>, t: nat, success: bool)
    requires y.mutex == Some(t) && (y.Where(t).CleanupMagic? || y.Where(t).CleanupUnlock?) && OwnerInv(y, y.Where(t))
    ensures OwnerOk(GoStep(y, t, success))
  {
    hide Fresh, ControlStep;
  }

  /** A thread that moves keeps the mutex, releases it on leaving, or takes it when it is free. */
  lemma GoMutex<P>(y: Sys<P>, t: nat, success: bool)
    requires y.Where(t) != Outside && (y.Where(t).HoldsMutex() <==> y.mutex == Some(t))
    requires y.Where(t).CleanupChecked? ==> y.mutex == None
    ensures var y' := GoStep(y, t, success);
      && (y'.Where(t).HoldsMutex() <==> y'.mutex == Some(t))
      && (y.mutex == Some(t) || y.mutex == None) && (y'.mutex == Some(t) || y'.mutex == None)
      && forall u: nat | u != t :: y'.Where(u) == y.Where(u)
  {
    hide ControlOf, ControlStep;
  }

  /** A thread's own statements change the flags, the registry only to empty it, and the event thread only to start or
      forget it; async I/O comes up only with an empty registry. */
  lemma GoKeepsClean<P>(y: Sys<P>, t: nat, success: bool)
    requires y.Where(t) != Outside && UpIsClean(y)
    requires y.Where(t).HoldsMutex() ==> OwnerInv(y, y.Where(t))
    requires y.Where(t).CleanupJoin? ==> y.core.pc.Exited?
    ensures UpIsClean(GoStep(y, t, success))
  {
    match y.Where(t)
    case InitLocked =>
    case InitList =>
    case InitSpawn =>
    case InitFlag(ok) =>
    case InitDie(ok) =>
    case InitMagic(ok) =>
    case InitUnlock(ok) =>
    case CleanupChecked =>
    case CleanupLocked =>
    case CleanupFlag =>
    case CleanupJoin =>
    case CleanupFree =>
    case CleanupMagic(ok) =>
    case CleanupUnlock(ok) =>
  }

  lemma GoKeepsInv<P>(y: Sys<P>, t: nat, success: bool)
    requires Inv(y) && Possible(y, Go(t, success))
    ensures Inv(GoStep(y, t, success))
  {
    hide OwnerInv, Clean;
    GoMutex(y, t, success);
    GoKeepsClean(y, t, success);
    if y.Where(t).CleanupChecked? {
      LockGoKeeps(y, t, success);
    } else if Beginning(y.Where(t)) {
      BeginGoKeeps(y, t, success);
    } else if Initializing(y.Where(t)) {
      RiseGoKeeps(y, t, success);
    } else if Stopping(y.Where(t)) {
      StopGoKeeps(y, t, success);
    } else if y.Where(t).CleanupFree? {
      FreeGoKeeps(y, t, success);
    } else {
      EndGoKeeps(y, t, success);
    }
  }

  /** Every step of every thread keeps the invariant. */
  lemma NextKeepsInv<P>(y: Sys<P>, e: Event<P>)
    requires Inv(y) && Possible(y, e)
    ensures Inv(Next(y, e))
  {
    match e
    case Core(l) => CoreKeepsInv(y, l);
    case Go(t, success) => GoKeepsInv(y, t, success);
    case _ =>
      var y' := Next(y, e);
      assert forall u: nat | u != e.t :: y'.Where(u) == y.Where(u);
  }
}
