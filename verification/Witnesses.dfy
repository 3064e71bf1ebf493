/** Histories in which things go wrong, from the initial state on. */
module Witnesses {
  import opened Events
  import opened Registry
  import opened World
  import opened Machine
  import opened Lifecycle

  /** The events lead to the state. */
  ghost predicate Reached(es: seq<Lifecycle.Event<nat>>, y: Sys<nat>) {
    History(Initial(true, y.quiet), es) && After(Initial(true, y.quiet), es) == y
  }

  lemma Extend(es: seq<Lifecycle.Event<nat>>, y: Sys<nat>, e: Lifecycle.Event<nat>)
    returns (es': seq<Lifecycle.Event<nat>>, y': Sys<nat>)
    requires Reached(es, y) && Possible(y, e)
    ensures Reached(es', y') && y' == Next(y, e) && es' == es + [e]
  {
    OneMoreEvent(Initial(true, y.quiet), es, e);
    es', y' := es + [e], Next(y, e);
  }

  /** Where the one thread that calls bal_init and bal_cleanup stands, and what is set up. */
  datatype Spot = Spot(at: At, magic: bool, list: bool, inits: nat, cleanups: nat, quiet: bool)

  function With(core: State<nat>, at: Spot): Sys<nat> {
    Sys(core, at.magic, at.list, if at.at.HoldsMutex() then Some(0) else None, map[0 := at.at], at.inits, at.cleanups,
        at.quiet)
  }

  /** A step of the engine. */
  lemma Work(es: seq<Lifecycle.Event<nat>>, core: State<nat>, at: Spot, l: Label<nat>)
    returns (es': seq<Lifecycle.Event<nat>>)
    requires Reached(es, With(core, at)) && Possible(With(core, at), Core(l))
    ensures Reached(es', With(Step(core, l), at)) && es' == es + [Core(l)]
  {
    var y;
    es', y := Extend(es, With(core, at), Core(l));
  }

  /** The thread's next statement, which succeeds. */
  lemma Proceed(es: seq<Lifecycle.Event<nat>>, core: State<nat>, at: Spot)
    returns (es': seq<Lifecycle.Event<nat>>)
    requires Reached(es, With(core, at)) && Possible(With(core, at), Go(0, true))
    ensures es <= es'
    ensures var y := With(core, at);
      var v, c := Seen(SightOf(y, 0), 0, true), ControlOf(y, 0, true);
      Reached(es', Sys(if c.Some? then ControlStep(core, c.value) else core, v.magic, v.list, v.mutex, map[0 := v.at],
                       v.inits, v.cleanups, at.quiet))
  {
    hide Seen, ControlOf, ControlStep, Reached;
    var y;
    es', y := Extend(es, With(core, at), Go(0, true));
    assert forall x: At :: map[0 := at.at][0 := x] == map[0 := x];
  }

  const EMPTY: State<nat> := State(World(map[], [], false, false), true, NoThread)

  /** The library is up, and nothing has happened yet. */
  const UP: State<nat> := State(World(map[], [], true, false), true, LoopHead)

  function Idle(quiet: bool): Spot {
    Spot(Outside, true, true, 1, 0, quiet)
  }

  lemma Listed(quiet: bool) returns (es: seq<Lifecycle.Event<nat>>)
    ensures Reached(es, With(EMPTY, Spot(InitSpawn, false, true, 0, 0, quiet)))
  {
    hide Reached, History, After;
    es := Begin(quiet);
    es := Proceed(es, EMPTY, Spot(InitLocked, false, false, 0, 0, quiet));
    es := Proceed(es, EMPTY, Spot(InitList, false, false, 0, 0, quiet));
  }

  /** The flags are stored in this order. */
  lemma Rise(es: seq<Lifecycle.Event<nat>>, core: State<nat>, at: Spot) returns (es': seq<Lifecycle.Event<nat>>)
    requires Reached(es, With(core, at)) && at.at == InitFlag(true)
    ensures Reached(es', With(core.(w := core.w.(init := true, die := false)), at.(at := InitMagic(true))))
    ensures es <= es'
  {
    hide Reached, History, After;
    es' := Proceed(es, core, at);
    es' := Proceed(es', core.(w := core.w.(init := true)), at.(at := InitDie(true)));
  }

  lemma StartUp(quiet: bool) returns (es: seq<Lifecycle.Event<nat>>)
    ensures Reached(es, With(UP, Idle(quiet)))
  {
    hide Reached, History, After;
    es := Risen(quiet);
    es := Proceed(es, UP, Spot(InitMagic(true), false, true, 0, 0, quiet));
    es := Proceed(es, UP, Spot(InitUnlock(true), true, true, 0, 0, quiet));
  }

  lemma Risen(quiet: bool) returns (es: seq<Lifecycle.Event<nat>>)
    ensures Reached(es, With(UP, Spot(InitMagic(true), false, true, 0, 0, quiet)))
  {
    hide Reached, History, After;
    es := Listed(quiet);
    es := Proceed(es, EMPTY, Spot(InitSpawn, false, true, 0, 0, quiet));
    es := Rise(es, EMPTY.(pc := LoopHead), Spot(InitFlag(true), false, true, 0, 0, quiet));
  }

  lemma Begin(quiet: bool) returns (es: seq<Lifecycle.Event<nat>>)
    ensures Reached(es, With(EMPTY, Spot(InitLocked, false, false, 0, 0, quiet)))
  {
    assert Reached([], Initial(true, quiet));
    var y;
    es, y := Extend([], Initial(true, quiet), CallInit(0));
    assert map[][0 := InitLocked] == map[0 := InitLocked];
  }

  lemma IsReached(es: seq<Lifecycle.Event<nat>>, core: State<nat>, at: Spot)
    requires Reached(es, With(core, at))
    ensures History(Initial(true, at.quiet), es) && After(Initial(true, at.quiet), es).core == core
  {
  }

  // ----- Sockets that wait for input -----

  const READ: bv32 := 0x1

  function Reader(sd: int): Sock {
    Sock(sd, 0, READ, 0, Some(0))
  }

  function Register(p: nat): Op<nat> {
    Op.AsyncPoll(p, Some(0), READ, true, true)
  }

  function Deregister(p: nat): Op<nat> {
    Op.AsyncPoll(p, None, 0, true, true)
  }

  /** A call by the callback if there is one, and by another thread otherwise. */
  function By(core: State<nat>, op: Op<nat>): Label<nat> {
    if core.pc.InCallback? then Handler(op) else User(op)
  }

  lemma Call(es: seq<Lifecycle.Event<nat>>, core: State<nat>, at: Spot, op: Op<nat>, w: World<nat>)
    returns (es': seq<Lifecycle.Event<nat>>)
    requires Reached(es, With(core, at)) && Callable(core.w, op) && Apply(core.w, op) == w && !op.PollSection?
    requires core.pc.WellFormed() && !core.pc.Serving?
    ensures Reached(es', With(core.(w := w), at)) && es <= es'
  {
    hide Reached, Apply;
    es' := Work(es, core, at, By(core, op));
  }

  lemma MakeReader(w: World<nat>, p: nat, sd: int)
    requires p !in w.heap && sd >= 0 && w.init && !w.die && !Has(w.reg, sd)
    ensures var made := w.(heap := w.heap[p := Sock(sd, 0, 0, 0, None)]);
      && Apply(w, Op.Create(p, sd, 0)) == made && AsyncPollStatus(made, Register(p)) == Ok
      && Apply(made, Register(p)) == w.(heap := w.heap[p := Reader(sd)], reg := w.reg + [Entry(sd, p)])
  {
    var made := Apply(w, Op.Create(p, sd, 0));
    assert w.heap[p := Reader(sd)] == made.heap[p := Reader(sd)];
  }

  lemma AddReader(es: seq<Lifecycle.Event<nat>>, core: State<nat>, at: Spot, p: nat, sd: int)
    returns (es': seq<Lifecycle.Event<nat>>)
    requires Reached(es, With(core, at)) && core.pc.WellFormed() && !core.pc.Serving?
    requires p !in core.w.heap && sd >= 0 && core.w.init && !core.w.die && !Has(core.w.reg, sd)
    ensures var w := core.w.(heap := core.w.heap[p := Reader(sd)], reg := core.w.reg + [Entry(sd, p)]);
      Reached(es', With(core.(w := w), at)) && es <= es'
  {
    hide Reached, Has, Apply;
    MakeReader(core.w, p, sd);
    var made := core.w.(heap := core.w.heap[p := Sock(sd, 0, 0, 0, None)]);
    es' := Call(es, core, at, Op.Create(p, sd, 0), made);
    var w := core.w.(heap := core.w.heap[p := Reader(sd)], reg := core.w.reg + [Entry(sd, p)]);
    es' := Call(es', core.(w := made), at, Register(p), w);
  }

  /** One reader, registered. */
  const ONE: World<nat> := World(map[1 := Reader(3)], [Entry(3, 1)], true, false)

  lemma OneReader() returns (es: seq<Lifecycle.Event<nat>>)
    ensures Reached(es, With(State(ONE, true, LoopHead), Idle(true)))
  {
    hide Reached;
    es := StartUp(true);
    es := AddReader(es, UP, Idle(true), 1, 3);
    assert UP.w.(heap := UP.w.heap[1 := Reader(3)], reg := UP.w.reg + [Entry(3, 1)]) == ONE;
  }

  /** Two readers, both registered. */
  function Readers(init: bool, die: bool): World<nat> {
    World(map[1 := Reader(3), 2 := Reader(4)], [Entry(3, 1), Entry(4, 2)], init, die)
  }

  lemma TwoReaders() returns (es: seq<Lifecycle.Event<nat>>)
    ensures Reached(es, With(State(Readers(true, false), true, LoopHead), Idle(true)))
  {
    hide Reached;
    es := OneReader();
    assert ONE.reg[1..] == [];
    es := AddReader(es, State(ONE, true, LoopHead), Idle(true), 2, 4);
    assert ONE.reg + [Entry(4, 2)] == [Entry(3, 1), Entry(4, 2)];
  }

  // ----- Following a freed socket -----

  /** The event thread polling for the two readers. */
  function PollingBoth(init: bool, die: bool, fds: seq<PollFd>): State<nat> {
    State(Readers(init, die), true, Polling(fds))
  }

  predicate BothPolled(fds: seq<PollFd>) {
    |fds| == 2 && fds[0].fd == 3 && fds[1].fd == 4
  }

  lemma SnapshotOfBoth() returns (es: seq<Lifecycle.Event<nat>>, fds: seq<PollFd>)
    ensures BothPolled(fds) && Reached(es, With(PollingBoth(true, false, fds), Idle(true)))
  {
    hide Reached;
    es := TwoReaders();
    var core := State(Readers(true, false), true, LoopHead);
    es := Work(es, core, Idle(true), CheckDie);
    es := Work(es, core.(pc := Locking), Idle(true), Snapshot(true));
    assert AllLive(core.w);
    fds := PollArray(true, core.w);
  }

  lemma EnterCleanup(es: seq<Lifecycle.Event<nat>>, core: State<nat>, quiet: bool)
    returns (es': seq<Lifecycle.Event<nat>>)
    requires Reached(es, With(core, Idle(quiet)))
    ensures Reached(es', With(core, Idle(quiet).(at := CleanupLocked))) && es <= es'
  {
    hide Reached;
    var y;
    es', y := Extend(es, With(core, Idle(quiet)), CallCleanup(0));
    assert map[0 := Outside][0 := CleanupChecked] == map[0 := CleanupChecked];
    es' := Proceed(es', core, Idle(quiet).(at := CleanupChecked));
  }

  /** A cleanup raises `die`, lowers the flag, and waits to join. */
  lemma CleanupToJoin(es: seq<Lifecycle.Event<nat>>, core: State<nat>, quiet: bool)
    returns (es': seq<Lifecycle.Event<nat>>)
    requires Reached(es, With(core, Idle(quiet))) && core.w.init
    ensures Reached(es', With(core.(w := core.w.(init := false, die := true)), Idle(quiet).(at := CleanupJoin)))
    ensures es <= es'
  {
    hide Reached;
    es' := EnterCleanup(es, core, quiet);
    es' := Proceed(es', core, Idle(quiet).(at := CleanupLocked));
    es' := Proceed(es', core.(w := core.w.(die := true)), Idle(quiet).(at := CleanupFlag));
  }

  /** Input is reported for both. */
  const INPUT: seq<bv16> := [POLL_RDNORM, POLL_RDNORM]

  lemma InputIsRead()
    ensures PollFlagsToEvents(true, POLL_RDNORM) == READ
  {
  }

  /** A socket that waits for input hears of it, and of nothing else that is reported, and stays as it is. */
  lemma ReadIsDelivered(raw: bv32)
    requires Decode(raw) <= {EvtRead, EvtClose} && EvtRead in Decode(raw)
    ensures Translate(Polled(raw, READ, 0, false, false)) == Translation({EvtRead}, READ, 0, EvtClose in Decode(raw))
  {
    hide Decode, Bit;
    var i := Polled(raw, READ, 0, false, false);
    ReadOnly();
    forall e: Events.Event ensures i.Delivers(e) <==> e == EvtRead {
    }
  }

  lemma ReadOnly()
    ensures Decode(READ) == {EvtRead} && !IsSet(0, S_CONNECT)
  {
    DecodeBit(EvtRead);
  }

  /** Serving the first reader makes a callback. */
  lemma ServeFirst(fds: seq<PollFd>)
    requires BothPolled(fds)
    ensures var s := State(Readers(false, true), true, Serving(fds, INPUT, 0));
      && Enabled(s, Serve(false, false))
      && Step(s, Serve(false, false)) == s.(pc := InCallback(fds, INPUT, 0, false))
  {
    hide Translate, PollFlagsToEvents;
    InputIsRead();
    ReadOnly();
    ReadIsDelivered(READ);
    var s := State(Readers(false, true), true, Serving(fds, INPUT, 0));
    assert Target(s) == Some(1);
    assert s.w.heap[1 := Reader(3)] == s.w.heap;
  }

  /** When the second one has been freed meanwhile, serving it follows a freed socket. */
  lemma ServeSecond(fds: seq<PollFd>)
    requires BothPolled(fds)
    ensures var w := Readers(false, true);
      var s := State(w.(heap := w.heap - {2}), true, Serving(fds, INPUT, 1));
      Enabled(s, Serve(false, false)) && Step(s, Serve(false, false)).pc == Fault
  {
    var w := Readers(false, true);
    IndexOfIs(w.reg, 4, 1);
  }

  /** In the event thread's last pass, after a cleanup has lowered the flag, the first reader's callback runs. */
  lemma LastCallback() returns (es: seq<Lifecycle.Event<nat>>, fds: seq<PollFd>)
    ensures BothPolled(fds)
    ensures Reached(es, With(State(Readers(false, true), true, InCallback(fds, INPUT, 0, false)),
                             Idle(true).(at := CleanupJoin)))
  {
    hide Reached, Translate, PollFlagsToEvents;
    es, fds := SnapshotOfBoth();
    es := CleanupToJoin(es, PollingBoth(true, false, fds), true);
    var at := Idle(true).(at := CleanupJoin);
    es := Work(es, PollingBoth(false, true, fds), at, PollReturns(true, INPUT));
    ServeFirst(fds);
    es := Work(es, State(Readers(false, true), true, Serving(fds, INPUT, 0)), at, Serve(false, false));
  }

  /** The callback frees the other reader. bal_destroy leaves the list alone, and the next turn follows the freed
      socket. */
  lemma {:induction false} FaultIsReachable() returns (es: seq<Lifecycle.Event<nat>>)
    ensures History(Initial(true, true), es) && After(Initial(true, true), es).core.pc == Fault
  {
    hide Reached, Translate, PollFlagsToEvents, ServeStep;
    var fds;
    es, fds := LastCallback();
    var w, at := Readers(false, true), Idle(true).(at := CleanupJoin);
    es := Work(es, State(w, true, InCallback(fds, INPUT, 0, false)), at, Handler(Op.Destroy(2)));
    var w' := w.(heap := w.heap - {2});
    es := Work(es, State(w', true, InCallback(fds, INPUT, 0, false)), at, CallbackReturns);
    ServeSecond(fds);
    es := Work(es, State(w', true, Serving(fds, INPUT, 1)), at, Serve(false, false));
    IsReached(es, Step(State(w', true, Serving(fds, INPUT, 1)), Serve(false, false)), at);
  }

  // ----- A registration that does not register -----

  /** A registered socket is closed but kept, and its descriptor goes to a new one. */
  lemma DescriptorReused() returns (es: seq<Lifecycle.Event<nat>>)
    ensures var heap := map[1 := AfterClose(Reader(3), true), 2 := Sock(3, 0, 0, 0, None)];
      Reached(es, With(State(World(heap, [Entry(3, 1)], true, false), true, LoopHead), Idle(true)))
  {
    hide Reached, AfterClose;
    es := OneReader();
    var core := State(ONE, true, LoopHead);
    var closed := ONE.(heap := map[1 := AfterClose(Reader(3), true)]);
    assert Apply(ONE, Op.CloseDescriptor(1, true)).heap == closed.heap;
    es := Call(es, core, Idle(true), Op.CloseDescriptor(1, true), closed);
    var reused := closed.(heap := closed.heap[2 := Sock(3, 0, 0, 0, None)]);
    es := Call(es, core.(w := closed), Idle(true), Op.Create(2, 3, 0), reused);
    assert reused.heap == map[1 := AfterClose(Reader(3), true), 2 := Sock(3, 0, 0, 0, None)];
  }

  /** Registering the new socket is reported as a success, and yet it is not registered. */
  lemma {:induction false} SuccessWithoutRegistration() returns (es: seq<Lifecycle.Event<nat>>, op: Op<nat>)
    ensures History(Initial(true, true), es)
    ensures var w := After(Initial(true, true), es).core.w;
      && w.init && op.AsyncPoll? && op.mask != 0 && Callable(w, op)
      && AsyncPollStatus(w, op) == Ok && !Registered(Apply(w, op), op.p)
  {
    hide AfterClose;
    es := DescriptorReused();
    op := Register(2);
  }

  // ----- A socket that takes its namesake off the list -----

  lemma Unregistered() returns (es: seq<Lifecycle.Event<nat>>)
    ensures Reached(es, With(State(World(map[1 := Reader(3)], [], true, false), true, LoopHead), Idle(true)))
  {
    hide Reached;
    es := OneReader();
    assert ONE.reg[..0] + ONE.reg[1..] == [];
    es := Call(es, State(ONE, true, LoopHead), Idle(true), Deregister(1), ONE.(reg := []));
  }

  /** A socket is deregistered and closed but kept, and its descriptor goes to a new one, which is registered. */
  lemma Namesakes() returns (es: seq<Lifecycle.Event<nat>>)
    ensures var heap := map[1 := AfterClose(Reader(3), true), 2 := Reader(3)];
      Reached(es, With(State(World(heap, [Entry(3, 2)], true, false), true, LoopHead), Idle(true)))
  {
    hide Reached, AfterClose;
    es := Unregistered();
    var open, closed := World(map[1 := Reader(3)], [], true, false),
      World(map[1 := AfterClose(Reader(3), true)], [], true, false);
    assert Apply(open, Op.CloseDescriptor(1, true)).heap == closed.heap;
    es := Call(es, State(open, true, LoopHead), Idle(true), Op.CloseDescriptor(1, true), closed);
    es := AddReader(es, State(closed, true, LoopHead), Idle(true), 2, 3);
    assert closed.heap[2 := Reader(3)] == map[1 := AfterClose(Reader(3), true), 2 := Reader(3)];
    assert closed.reg + [Entry(3, 2)] == [Entry(3, 2)];
  }

  /** Freeing the old socket takes the new one, which is live and registered, off the list, and so does deregistering
      the old one once more. */
  lemma {:induction false} NamesakeLosesRegistration() returns (es: seq<Lifecycle.Event<nat>>)
    ensures History(Initial(true, true), es)
    ensures var w := After(Initial(true, true), es).core.w;
      && w.init && !w.die && Safe(w) && 1 in w.heap && Registered(w, 2) && !Registered(w, 1)
      && !Registered(Apply(w, Op.Destroy(1)), 2) && !Registered(Apply(w, Deregister(1)), 2)
  {
    es := Namesakes();
    var heap := map[1 := AfterClose(Reader(3), true), 2 := Reader(3)];
    var w := World(heap, [Entry(3, 2)], true, false);
    IsReached(es, State(w, true, LoopHead), Idle(true));
    CloseKeepsDescriptor(Reader(3));
    assert w.reg[0] in w.reg;
    DestroyHitsNamesake(w, 1, 2);
    DeregisterHitsNamesake(w, Deregister(1), 2);
  }

  lemma CloseKeepsDescriptor(s: Sock)
    ensures AfterClose(s, true).sd == s.sd
  {
  }

  // ----- A registration that the end of a callback takes back -----

  /** Input and a hang-up are reported. */
  const HANGUP: bv16 := POLL_RDNORM | POLL_HUP

  lemma HangupIsReadAndClose()
    ensures PollFlagsToEvents(true, HANGUP) != 0 && Decode(PollFlagsToEvents(true, HANGUP)) == {EvtRead, EvtClose}
  {
    assert PollFlagsToEvents(true, HANGUP) == Both(EvtRead, EvtClose);
    DecodeBoth(EvtRead, EvtClose);
  }

  function Callback(fd: PollFd): Pc {
    InCallback([fd], [HANGUP], 0, true)
  }

  lemma HangupIsDispatched(fd: PollFd)
    requires fd.fd == 3
    ensures var s := State(ONE, true, Serving([fd], [HANGUP], 0));
      Enabled(s, Serve(false, false)) && Step(s, Serve(false, false)) == s.(pc := Callback(fd))
  {
    hide Translate, PollFlagsToEvents, Decode;
    HangupIsReadAndClose();
    ReadIsDelivered(PollFlagsToEvents(true, HANGUP));
    var s := State(ONE, true, Serving([fd], [HANGUP], 0));
    assert Target(s) == Some(1);
    assert s.w.heap[1 := Reader(3)] == s.w.heap;
  }

  lemma SnapshotOfOne() returns (es: seq<Lifecycle.Event<nat>>, fd: PollFd)
    ensures fd.fd == 3 && Reached(es, With(State(ONE, true, Polling([fd])), Idle(true)))
  {
    hide Reached, ServeStep, Apply;
    es := OneReader();
    es := Work(es, State(ONE, true, LoopHead), Idle(true), CheckDie);
    es := Work(es, State(ONE, true, Locking), Idle(true), Snapshot(true));
    assert AllLive(ONE);
    fd := PollArray(true, ONE)[0];
    assert PollArray(true, ONE) == [fd];
  }

  lemma CallbackOfOne() returns (es: seq<Lifecycle.Event<nat>>, fd: PollFd)
    ensures fd.fd == 3 && Reached(es, With(State(ONE, true, Callback(fd)), Idle(true)))
  {
    hide Reached, ServeStep, Apply;
    es, fd := SnapshotOfOne();
    es := Work(es, State(ONE, true, Polling([fd])), Idle(true), PollReturns(true, [HANGUP]));
    HangupIsDispatched(fd);
    es := Work(es, State(ONE, true, Serving([fd], [HANGUP], 0)), Idle(true), Serve(false, false));
  }

  /** The callback replaces its socket by a new one under the same descriptor. */
  lemma Replaced() returns (es: seq<Lifecycle.Event<nat>>, fd: PollFd)
    ensures fd.fd == 3
    ensures var heap := map[1 := AfterClose(Reader(3), true), 2 := Reader(3)];
      Reached(es, With(State(World(heap, [Entry(3, 2)], true, false), true, Callback(fd)), Idle(true)))
  {
    hide Reached, AfterClose;
    es, fd := CallbackOfOne();
    assert ONE.reg[..0] + ONE.reg[1..] == [];
    es := Call(es, State(ONE, true, Callback(fd)), Idle(true), Deregister(1), ONE.(reg := []));
    var open, closed := World(map[1 := Reader(3)], [], true, false),
      World(map[1 := AfterClose(Reader(3), true)], [], true, false);
    assert Apply(open, Op.CloseDescriptor(1, true)).heap == closed.heap;
    es := Call(es, State(open, true, Callback(fd)), Idle(true), Op.CloseDescriptor(1, true), closed);
    es := AddReader(es, State(closed, true, Callback(fd)), Idle(true), 2, 3);
    assert closed.heap[2 := Reader(3)] == map[1 := AfterClose(Reader(3), true), 2 := Reader(3)];
    assert closed.reg + [Entry(3, 2)] == [Entry(3, 2)];
  }

  /** When it returns, the new socket is off the list again. */
  lemma {:induction false} ReplacementIsDropped() returns (es: seq<Lifecycle.Event<nat>>)
    ensures History(Initial(true, true), es)
    ensures var s := After(Initial(true, true), es).core;
      && s.pc.InCallback? && s.w.init && Safe(s.w) && Registered(s.w, 2)
      && Enabled(s, CallbackReturns) && Step(s, CallbackReturns).w.reg == []
  {
    hide AfterClose;
    var fd;
    es, fd := Replaced();
    var w := World(map[1 := AfterClose(Reader(3), true), 2 := Reader(3)], [Entry(3, 2)], true, false);
    IsReached(es, State(w, true, Callback(fd)), Idle(true));
    assert w.reg[0] in w.reg;
    assert w.reg[..0] + w.reg[1..] == [];
  }

  // ----- A section that comes too late -----

  /** A cleanup runs to its end while the event thread is between two passes. */
  lemma Finish(es: seq<Lifecycle.Event<nat>>, w: World<nat>, quiet: bool) returns (es': seq<Lifecycle.Event<nat>>)
    requires Reached(es, With(State(w, true, LoopHead), Idle(quiet))) && w.init
    ensures Reached(es', With(State(w.(init := false, die := true, reg := []), true, NoThread),
                              Spot(CleanupMagic(true), true, false, 1, 0, quiet)))
    ensures es <= es'
  {
    hide Reached, Apply, ServeStep;
    es' := CleanupToJoin(es, State(w, true, LoopHead), quiet);
    es' := Work(es', State(w.(init := false, die := true), true, LoopHead), Idle(quiet).(at := CleanupJoin), CheckDie);
    es' := JoinAndFree(es', w.(init := false, die := true), quiet);
  }

  lemma JoinAndFree(es: seq<Lifecycle.Event<nat>>, down: World<nat>, quiet: bool)
    returns (es': seq<Lifecycle.Event<nat>>)
    requires Reached(es, With(State(down, true, Exited), Idle(quiet).(at := CleanupJoin)))
    ensures Reached(es', With(State(down.(reg := []), true, NoThread),
                              Spot(CleanupMagic(true), true, false, 1, 0, quiet)))
    ensures es <= es'
  {
    hide Reached;
    es' := Proceed(es, State(down, true, Exited), Idle(quiet).(at := CleanupJoin));
    es' := Proceed(es', State(down, true, NoThread), Idle(quiet).(at := CleanupFree));
  }

  lemma Leave(es: seq<Lifecycle.Event<nat>>, core: State<nat>, quiet: bool) returns (es': seq<Lifecycle.Event<nat>>)
    requires Reached(es, With(core, Spot(CleanupMagic(true), true, false, 1, 0, quiet)))
    ensures Reached(es', With(core, Spot(Outside, false, false, 1, 1, quiet))) && es <= es'
  {
    hide Reached;
    es' := Proceed(es, core, Spot(CleanupMagic(true), true, false, 1, 0, quiet));
    es' := Proceed(es', core, Spot(CleanupUnlock(true), false, false, 1, 0, quiet));
  }

  /** The next init allocates its list and is about to start its thread. */
  lemma StartAgain(es: seq<Lifecycle.Event<nat>>, w: World<nat>, quiet: bool) returns (es': seq<Lifecycle.Event<nat>>)
    requires Reached(es, With(State(w, true, NoThread), Spot(Outside, false, false, 1, 1, quiet)))
    requires !w.init && w.reg == []
    ensures Reached(es', With(State(w, true, NoThread), Spot(InitSpawn, false, true, 1, 1, quiet))) && es <= es'
  {
    hide Reached;
    var core := State(w, true, NoThread);
    var y;
    es', y := Extend(es, With(core, Spot(Outside, false, false, 1, 1, quiet)), CallInit(0));
    assert map[0 := Outside][0 := InitLocked] == map[0 := InitLocked];
    es' := Proceed(es', core, Spot(InitLocked, false, false, 1, 1, quiet));
    es' := Proceed(es', core, Spot(InitList, false, false, 1, 1, quiet));
  }

  lemma OneLoose(quiet: bool) returns (es: seq<Lifecycle.Event<nat>>)
    ensures Reached(es, With(State(LOOSE, true, LoopHead), Idle(quiet)))
  {
    hide Reached;
    es := StartUp(quiet);
    es := Call(es, UP, Idle(quiet), Op.Create(1, 3, 0), LOOSE);
  }

  /** One socket, not registered. */
  const LOOSE: World<nat> := World(map[1 := Sock(3, 0, 0, 0, None)], [], true, false)

  const LATE: Op<nat> := Op.PollSection(1, Some(0), READ, true, true)

  lemma LateRegisters()
    ensures var down := LOOSE.(init := false, die := true);
      Callable(down, LATE) && Apply(down, LATE) == World(map[1 := Reader(3)], [Entry(3, 1)], false, true)
  {
    assert LOOSE.heap[1 := Reader(3)] == map[1 := Reader(3)];
  }

  /** The second init is about to start its thread, and a thread that passed the tests of bal_async_poll before the
      first cleanup now gets to the section. */
  lemma {:induction false} LateSection()
    returns (before: seq<Lifecycle.Event<nat>>, es: seq<Lifecycle.Event<nat>>)
    ensures Reached(before, With(State(LOOSE, true, LoopHead), Idle(false)))
    ensures before < es && es[|es| - 1] == Core(User(LATE))
    ensures var w := World(map[1 := Reader(3)], [Entry(3, 1)], false, true);
      Reached(es, With(State(w, true, NoThread), Spot(InitSpawn, false, true, 1, 1, false)))
  {
    hide Reached, Apply;
    before := OneLoose(false);
    var down := LOOSE.(init := false, die := true);
    es := Finish(before, LOOSE, false);
    es := Leave(es, State(down, true, NoThread), false);
    es := StartAgain(es, down, false);
    LateRegisters();
    es := Work(es, State(down, true, NoThread), Spot(InitSpawn, false, true, 1, 1, false), User(LATE));
  }

  /** The socket is freed while the flag is still down, and then the flag goes up. */
  lemma {:induction false} LateSectionDangles()
    returns (before: seq<Lifecycle.Event<nat>>, es: seq<Lifecycle.Event<nat>>)
    ensures History(Initial(true, false), before) && History(Initial(true, false), es)
    ensures var w := After(Initial(true, false), before).core.w;
      w.init && !w.die && 1 in w.heap && GoodArguments(w.heap[1], LATE.proc, LATE.mask)
    ensures before <= es && Core(User(LATE)) in es[|before|..]
    ensures var w := After(Initial(true, false), es).core.w; w.init && !Safe(w)
  {
    hide Reached;
    before, es := LateSection();
    var k := |es| - 1;
    IsReached(before, State(LOOSE, true, LoopHead), Idle(false));
    var at := Spot(InitSpawn, false, true, 1, 1, false);
    var gone := World(map[], [Entry(3, 1)], false, true);
    var here := gone.(heap := map[1 := Reader(3)]);
    es := Call(es, State(here, true, NoThread), at, Op.Destroy(1), gone);
    es := Proceed(es, State(gone, true, NoThread), at);
    es := Rise(es, State(gone, true, LoopHead), at.(at := InitFlag(true)));
    IsReached(es, State(gone.(init := true, die := false), true, LoopHead), at.(at := InitMagic(true)));
    assert gone.reg[0] in gone.reg;
    assert es[|before|..][k - |before|] == Core(User(LATE));
  }
}
