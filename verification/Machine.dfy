/** The event thread and everything that can happen around it, as a state machine.

    Labels carry every outcome the library does not control. A mutex-protected section is one step; between
    two steps of the event thread any number of steps of other threads may occur, but not those that need the
    registry mutex while the event thread holds it. A callback is any finite sequence of API steps. */
module Machine {
  import opened Events
  import opened Registry
  import opened World

  datatype PollFd = PollFd(fd: int, events: bv16)

  /** Where the event thread is. Fault means it has followed a pointer to a freed socket. */
  datatype Pc =
    | NoThread
    | LoopHead
    | Locking
    | Polling(fds: seq<PollFd>)
    | Serving(fds: seq<PollFd>, revents: seq<bv16>, turn: nat)
    | InCallback(fds: seq<PollFd>, revents: seq<bv16>, turn: nat, drop: bool)
    | Exited
    | Fault
  {
    /** The event thread owns the registry mutex between two of its steps. */
    predicate HoldsMutex() {
      Serving? || InCallback?
    }

    /** Between the snapshot and the end of the pass. */
    predicate InPass() {
      Polling? || Serving? || InCallback?
    }

    predicate WellFormed() {
      && (Serving? ==> |revents| == |fds| && turn <= |fds|)
      && (InCallback? ==> |revents| == |fds| && turn < |fds|)
    }
  }

  /** `rdHup` says whether the platform has POLLRDHUP. */
  datatype State<P(==)> = State(w: World<P>, rdHup: bool, pc: Pc)

  datatype Label<P(==)> =
    | User(op: Op<P>)
    | Handler(op: Op<P>)
    | CheckDie
    | Snapshot(memory: bool)
    | PollReturns(ready: bool, reported: seq<bv16>)
    | Serve(listening: bool, peerClosed: bool)
    | CallbackReturns
    | EndPass
    | StartThread
    | JoinThread
    | StoreInit(value: bool)
    | StoreDie(value: bool)
    | NewList
    | FreeList
  {
    /** The event thread's own steps. */
    predicate OfThread() {
      CheckDie? || Snapshot? || PollReturns? || Serve? || CallbackReturns? || EndPass?
    }

    /** Steps of the threads that start and stop the library. */
    predicate OfControl() {
      StartThread? || JoinThread? || StoreInit? || StoreDie? || NewList? || FreeList?
    }
  }

  predicate Enabled<P(==)>(s: State<P>, l: Label<P>) {
    s.pc.WellFormed() &&
    match l
    case User(op) => Callable(s.w, op) && (Locks(op) ==> !s.pc.HoldsMutex())
    case Handler(op) => s.pc.InCallback? && Callable(s.w, op)
    case CheckDie => s.pc.LoopHead?
    case Snapshot(_) => s.pc.Locking?
    case PollReturns(_, reported) => s.pc.Polling? && |reported| == |s.pc.fds|
    case Serve(_, _) => s.pc.Serving? && s.pc.turn < |s.pc.fds|
    case CallbackReturns => s.pc.InCallback?
    case EndPass => s.pc.Serving? && s.pc.turn == |s.pc.fds|
    case StartThread => s.pc.NoThread?
    case JoinThread => s.pc.Exited?
    case _ => true
  }

  predicate AllLive<P(==)>(w: World<P>) {
    forall e | e in w.reg :: e.val in w.heap
  }

  /** The array handed to poll(): the registry in order, each socket asking for its mask. */
  function PollArray<P>(rdHup: bool, w: World<P>): (fds: seq<PollFd>)
    requires AllLive(w)
    ensures |fds| == |w.reg|
  {
    seq(|w.reg|, i requires 0 <= i < |w.reg| =>
      PollFd(w.reg[i].key, MaskToPollFlags(rdHup, w.heap[w.reg[i].val].mask)))
  }

  /** What is asked of poll(): for every registered socket, under its descriptor, the flags that stand for its mask. */
  lemma SnapshotAsks<P>(rdHup: bool, w: World<P>, i: nat)
    requires AllLive(w) && i < |w.reg|
    ensures var slot, wanted := PollArray(rdHup, w)[i], Decode(w.heap[w.reg[i].val].mask);
      && slot.fd == w.reg[i].key
      && (FlagSet(slot.events, POLL_RDNORM) <==> EvtRead in wanted)
      && (FlagSet(slot.events, POLL_WRNORM) <==> EvtWrite in wanted)
      && (FlagSet(slot.events, POLL_RDBAND) <==> EvtOobRead in wanted)
      && (FlagSet(slot.events, POLL_WRBAND) <==> EvtOobWrite in wanted)
      && (FlagSet(slot.events, POLL_PRI) <==> EvtPriority in wanted)
      && (FlagSet(slot.events, POLL_RDHUP) <==> rdHup && EvtClose in wanted)
      && slot.events & !(POLL_RDNORM | POLL_WRNORM | POLL_RDBAND | POLL_WRBAND | POLL_PRI | POLL_RDHUP) == 0
  {
    hide FlagSet, MaskToPollFlags, Decode;
    assert w.reg[i] in w.reg;
    FlagsOfMask(rdHup, w.heap[w.reg[i].val].mask);
  }

  /** The socket the turn dispatches to: registered under the polled descriptor now, with something to report. */
  function Target<P>(s: State<P>): Option<P>
    requires s.pc.Serving? && s.pc.WellFormed() && s.pc.turn < |s.pc.fds|
  {
    var found := Find(s.w.reg, s.pc.fds[s.pc.turn].fd);
    if found.Some? && found.value in s.w.heap && s.w.heap[found.value].sd != -1
       && PollFlagsToEvents(s.rdHup, s.pc.revents[s.pc.turn]) != 0
    then found else None
  }

  function PolledFor<P>(s: State<P>, l: Label<P>): Polled
    requires Enabled(s, l) && l.Serve? && Target(s).Some?
  {
    var sock := s.w.heap[Target(s).value];
    Polled(PollFlagsToEvents(s.rdHup, s.pc.revents[s.pc.turn]), sock.mask, sock.bits, l.listening,
           !s.rdHup && l.peerClosed)
  }

  function Translated<P>(w: World<P>, p: P, t: Translation): World<P>
    requires p in w.heap
  {
    w.(heap := w.heap[p := w.heap[p].(mask := t.mask, bits := t.bits)])
  }

  function Dropped<P>(w: World<P>, fd: int, drop: bool): World<P> {
    if drop then w.(reg := Remove(w.reg, fd)) else w
  }

  function ServeStep<P>(s: State<P>, l: Label<P>): State<P>
    requires Enabled(s, l) && l.Serve?
  {
    var fd := s.pc.fds[s.pc.turn].fd;
    var next := Serving(s.pc.fds, s.pc.revents, s.pc.turn + 1);
    var found := Find(s.w.reg, fd);
    if found.Some? && found.value !in s.w.heap then s.(pc := Fault)
    else if Target(s) == None then s.(pc := next)
    else
      var t := Translate(PolledFor(s, l));
      var w := Translated(s.w, Target(s).value, t);
      if t.out != {} && w.heap[Target(s).value].proc.Some?
      then s.(w := w, pc := InCallback(s.pc.fds, s.pc.revents, s.pc.turn, t.drop))
      else s.(w := Dropped(w, fd, t.drop), pc := next)
  }

  function ControlStep<P>(s: State<P>, l: Label<P>): State<P>
    requires l.OfControl()
  {
    match l
    case StartThread => s.(pc := LoopHead)
    case JoinThread => s.(pc := NoThread)
    case StoreInit(value) => s.(w := s.w.(init := value))
    case StoreDie(value) => s.(w := s.w.(die := value))
    case _ => s.(w := s.w.(reg := []))
  }

  function Step<P>(s: State<P>, l: Label<P>): State<P>
    requires Enabled(s, l)
  {
    match l
    case User(op) => s.(w := Apply(s.w, op))
    case Handler(op) => s.(w := Apply(s.w, op))
    case CheckDie => s.(pc := if s.w.die then Exited else Locking)
    case Snapshot(memory) =>
      if s.w.reg == [] || !memory then s.(pc := LoopHead)
      else if !AllLive(s.w) then s.(pc := Fault)
      else s.(pc := Polling(PollArray(s.rdHup, s.w)))
    case PollReturns(ready, reported) => s.(pc := if ready then Serving(s.pc.fds, reported, 0) else LoopHead)
    case Serve(_, _) => ServeStep(s, l)
    case CallbackReturns =>
      s.(w := Dropped(s.w, s.pc.fds[s.pc.turn].fd, s.pc.drop),
         pc := Serving(s.pc.fds, s.pc.revents, s.pc.turn + 1))
    case EndPass => s.(pc := LoopHead)
    case _ => ControlStep(s, l)
  }

  /** A step of the event thread that is always possible where it is. */
  function NextStep<P>(pc: Pc): Label<P> {
    match pc
    case Locking => Snapshot(true)
    case Polling(fds) => PollReturns(true, seq(|fds|, _ => 0))
    case Serving(fds, _, turn) => if turn < |fds| then Serve(false, false) else EndPass
    case InCallback(_, _, _, _) => CallbackReturns
    case _ => CheckDie
  }

  /** The descriptor that a step of the event thread takes off the list, if any. */
  function Takes<P>(s: State<P>, l: Label<P>): Option<int>
    requires Enabled(s, l)
  {
    if l.CallbackReturns? then (if s.pc.drop then Some(s.pc.fds[s.pc.turn].fd) else None)
    else if l.Serve? && Target(s).Some? && !ServeStep(s, l).pc.InCallback? && Translate(PolledFor(s, l)).drop
    then Some(s.pc.fds[s.pc.turn].fd)
    else None
  }

  lemma ThreadTakes<P>(s: State<P>, l: Label<P>)
    requires Enabled(s, l) && l.OfThread()
    ensures Step(s, l).w.reg == if Takes(s, l).Some? then Remove(s.w.reg, Takes(s, l).value) else s.w.reg
  {
    hide Translate, PollFlagsToEvents, Remove;
  }

  /** The event thread leaves its loop when it finds `die` set, and only then. */
  lemma LeavesWhenTold<P>(s: State<P>, l: Label<P>)
    requires Enabled(s, l) && l.OfThread()
    ensures Step(s, l).pc.Exited? <==> l.CheckDie? && s.w.die
  {
    hide Translate, PollFlagsToEvents;
  }

  /** The call that this step makes into user code: which socket, which events. */
  function Delivery<P>(s: State<P>, l: Label<P>): Option<(P, set<Event>)>
    requires Enabled(s, l)
  {
    if l.Serve? && ServeStep(s, l).pc.InCallback? && Target(s).Some?
    then Some((Target(s).value, Translate(PolledFor(s, l)).out))
    else None
  }

  // ----- Runs -----

  ghost predicate Valid<P>(s: State<P>, ls: seq<Label<P>>)
    decreases |ls|
  {
    ls == [] || (Enabled(s, ls[0]) && Valid(Step(s, ls[0]), ls[1..]))
  }

  ghost function Run<P>(s: State<P>, ls: seq<Label<P>>): State<P>
    requires Valid(s, ls)
    decreases |ls|
  {
    if ls == [] then s else Run(Step(s, ls[0]), ls[1..])
  }

  /** Runs compose. */
  lemma {:induction false} RunAppend<P>(s: State<P>, a: seq<Label<P>>, b: seq<Label<P>>)
    requires Valid(s, a) && Valid(Run(s, a), b)
    ensures Valid(s, a + b) && Run(s, a + b) == Run(Run(s, a), b)
    decreases |a|
  {
    if a == [] {
      assert a + b == b;
    } else {
      assert (a + b)[0] == a[0] && (a + b)[1..] == a[1..] + b;
      RunAppend(Step(s, a[0]), a[1..], b);
    }
  }

  // ----- Safety of the registry over runs -----

  /** No socket is freed while it is registered and async I/O is down. */
  predicate Disciplined<P(==)>(s: State<P>, l: Label<P>) {
    (l.User? || l.Handler?) && l.op.Destroy? && !s.w.init ==> !Registered(s.w, l.op.p)
  }

  ghost predicate Clean<P>(s: State<P>) {
    Safe(s.w) && s.pc != Fault
  }

  lemma DroppedKeepsSafe<P>(w: World<P>, fd: int, drop: bool)
    requires Safe(w)
    ensures Safe(Dropped(w, fd, drop))
    ensures drop ==> !Has(Dropped(w, fd, drop).reg, fd)
  {
    RemoveKeepsSafe(w, fd);
  }

  lemma FoundIsLive<P>(w: World<P>, fd: int)
    requires Safe(w) && Has(w.reg, fd)
    ensures Find(w.reg, fd).value in w.heap && w.heap[Find(w.reg, fd).value].sd == fd != -1
  {
    assert w.reg[IndexOf(w.reg, fd)] in w.reg;
  }

  lemma TranslatedKeepsSafe<P>(w: World<P>, p: P, t: Translation)
    requires Safe(w) && p in w.heap
    ensures Safe(Translated(w, p, t))
  {
  }

  lemma ServeKeepsClean<P>(s: State<P>, l: Label<P>)
    requires Clean(s) && Enabled(s, l) && l.Serve?
    ensures Clean(ServeStep(s, l))
  {
    hide Safe, Has, Translate, PollFlagsToEvents;
    var fd := s.pc.fds[s.pc.turn].fd;
    if Has(s.w.reg, fd) {
      FoundIsLive(s.w, fd);
      if Target(s).Some? {
        var t := Translate(PolledFor(s, l));
        TranslatedKeepsSafe(s.w, Target(s).value, t);
        DroppedKeepsSafe(Translated(s.w, Target(s).value, t), fd, t.drop);
      }
    }
  }

  /** No step of any thread, and no re-entrant call, leaves a registration dangling or follows a freed socket. */
  lemma StepKeepsClean<P>(s: State<P>, l: Label<P>)
    requires Clean(s) && Enabled(s, l) && Disciplined(s, l)
    ensures Clean(Step(s, l))
  {
    match l
    case User(op) => ApplyKeepsSafe(s.w, op);
    case Handler(op) => ApplyKeepsSafe(s.w, op);
    case Serve(_, _) => ServeKeepsClean(s, l);
    case CallbackReturns => DroppedKeepsSafe(s.w, s.pc.fds[s.pc.turn].fd, s.pc.drop);
    case _ =>
  }

  lemma OnlyLockingCallsChangeRegistry<P>(w: World<P>, op: Op<P>)
    requires Callable(w, op) && Apply(w, op).reg != w.reg
    ensures Locks(op)
  {
  }

  /** Apart from setting up and tearing down the list, the registry changes only under the mutex: by another thread's
      call that takes it while the event thread does not hold it, or by the event thread, or its callback, while it
      does. */
  lemma OnlyOwnerChangesRegistry<P>(s: State<P>, l: Label<P>)
    requires Enabled(s, l) && Step(s, l).w.reg != s.w.reg && !l.NewList? && !l.FreeList?
    ensures if l.User? then Locks(l.op) && !s.pc.HoldsMutex() else s.pc.HoldsMutex() && (l.Handler? ==> Locks(l.op))
  {
    hide Apply, Translate, PollFlagsToEvents;
    if l.User? || l.Handler? {
      OnlyLockingCallsChangeRegistry(s.w, l.op);
    }
  }

  ghost predicate DisciplinedRun<P>(s: State<P>, ls: seq<Label<P>>)
    requires Valid(s, ls)
    decreases |ls|
  {
    ls == [] || (Disciplined(s, ls[0]) && DisciplinedRun(Step(s, ls[0]), ls[1..]))
  }

  lemma {:induction false} RunKeepsClean<P>(s: State<P>, ls: seq<Label<P>>)
    requires Clean(s) && Valid(s, ls) && DisciplinedRun(s, ls)
    ensures Clean(Run(s, ls))
    decreases |ls|
  {
    if ls != [] {
      StepKeepsClean(s, ls[0]);
      RunKeepsClean(Step(s, ls[0]), ls[1..]);
    }
  }

  /** The registry is safe, and no freed socket has been followed, in every state that the run goes through. */
  ghost predicate CleanAlong<P>(s: State<P>, ls: seq<Label<P>>)
    requires Valid(s, ls)
    decreases |ls|
  {
    Clean(s) && (ls == [] || CleanAlong(Step(s, ls[0]), ls[1..]))
  }

  /** From a clean state, a step leads to a clean one exactly when it frees no socket that is registered while async I/O
      is down. */
  lemma StepIsClean<P>(s: State<P>, l: Label<P>)
    requires Clean(s) && Enabled(s, l)
    ensures Clean(Step(s, l)) <==> Disciplined(s, l)
  {
    if Disciplined(s, l) {
      StepKeepsClean(s, l);
    } else {
      DestroySafety(s.w, l.op.p);
    }
  }

  lemma {:induction false} DisciplineIsCleanliness<P>(s: State<P>, ls: seq<Label<P>>)
    requires Clean(s) && Valid(s, ls)
    ensures DisciplinedRun(s, ls) <==> CleanAlong(s, ls)
    decreases |ls|
  {
    hide Clean, Disciplined, Step, Enabled;
    if ls != [] {
      StepIsClean(s, ls[0]);
      if Clean(Step(s, ls[0])) {
        DisciplineIsCleanliness(Step(s, ls[0]), ls[1..]);
      } else {
        DirtyFirst(Step(s, ls[0]), ls[1..]);
      }
    }
  }

  lemma DirtyFirst<P>(s: State<P>, ls: seq<Label<P>>)
    requires Valid(s, ls) && !Clean(s)
    ensures !CleanAlong(s, ls)
  {
    hide Clean, Step, Enabled;
  }

  // ----- Building runs step by step -----

  /** A disciplined run leads from the first state to the second. */
  ghost predicate Leads<P>(s: State<P>, ls: seq<Label<P>>, end: State<P>) {
    Valid(s, ls) && DisciplinedRun(s, ls) && Run(s, ls) == end
  }

  lemma LeadsNowhere<P>(s: State<P>)
    ensures Leads(s, [], s)
  {
  }

  lemma {:induction false} LeadsOn<P>(s: State<P>, a: seq<Label<P>>, mid: State<P>, b: seq<Label<P>>, end: State<P>)
    requires Leads(s, a, mid) && Leads(mid, b, end)
    ensures Leads(s, a + b, end)
    decreases |a|
  {
    if a == [] {
      assert a + b == b;
    } else {
      assert (a + b)[0] == a[0] && (a + b)[1..] == a[1..] + b;
      LeadsOn(Step(s, a[0]), a[1..], mid, b, end);
    }
  }

  lemma LeadsNext<P>(s: State<P>, ls: seq<Label<P>>, mid: State<P>, l: Label<P>)
    requires Leads(s, ls, mid) && Enabled(mid, l) && Disciplined(mid, l)
    ensures Leads(s, ls + [l], Step(mid, l))
  {
    assert Valid(Step(mid, l), [l][1..]) && DisciplinedRun(Step(mid, l), [l][1..]);
    LeadsOn(s, ls, mid, [l], Step(mid, l));
  }

  lemma LeadsClean<P>(s: State<P>, ls: seq<Label<P>>, end: State<P>)
    requires Leads(s, ls, end) && Clean(s)
    ensures Clean(end)
  {
    RunKeepsClean(s, ls);
  }

  lemma ServeLeads<P>(s: State<P>, l: Label<P>)
    requires Enabled(s, l) && l.Serve?
    ensures Leads(s, [l], ServeStep(s, l))
  {
    LeadsNowhere(s);
    LeadsNext(s, [], s, l);
    assert [] + [l] == [l];
  }

  lemma ReturnLeads<P>(s: State<P>, ls: seq<Label<P>>, mid: State<P>)
    requires Leads(s, ls, mid) && mid.pc.InCallback? && mid.pc.WellFormed()
    ensures Leads(s, ls + [CallbackReturns],
                  State(Dropped(mid.w, mid.pc.fds[mid.pc.turn].fd, mid.pc.drop), mid.rdHup,
                        Serving(mid.pc.fds, mid.pc.revents, mid.pc.turn + 1)))
  {
    LeadsNext(s, ls, mid, CallbackReturns);
  }

  /** Steps that the event thread takes on its own. */
  lemma ThreadLeads<P>(s: State<P>, ls: seq<Label<P>>, mid: State<P>, l: Label<P>)
    requires Leads(s, ls, mid) && Enabled(mid, l) && l.OfThread()
    ensures Leads(s, ls + [l], Step(mid, l))
  {
    LeadsNext(s, ls, mid, l);
  }
}
