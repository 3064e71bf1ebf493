/** What can still happen once registered sockets have been freed while async I/O is down: exactly when the event
    thread, on its way out, can follow one of them. */
module Aftermath {
  import opened Events
  import opened Registry
  import opened World
  import opened Machine
  import opened Lifecycle
  import opened Teardown

  /** The socket registered under this key has been freed. */
  ghost predicate Dangles<P>(w: World<P>, key: int) {
    Has(w.reg, key) && Find(w.reg, key).value !in w.heap
  }

  /** The thread is about to take a snapshot, or has a turn left for the descriptor. */
  predicate Ahead(pc: Pc, key: int) {
    match pc
    case Locking => true
    case Polling(fds) => exists i | 0 <= i < |fds| :: fds[i].fd == key
    case Serving(fds, _, turn) => exists i | turn <= i < |fds| :: fds[i].fd == key
    case InCallback(fds, _, turn, _) => exists i | turn < i < |fds| :: fds[i].fd == key
    case _ => false
  }

  ghost predicate Threatened<P>(s: State<P>) {
    exists key :: Dangles(s.w, key) && Ahead(s.pc, key)
  }

  // ----- Descriptors stay distinct -----

  /** Keys of the registry are distinct, and so are the descriptors of a pass. */
  ghost predicate Distinct<P>(s: State<P>) {
    && DistinctKeys(s.w.reg) && s.pc.WellFormed()
    && (s.pc.InPass() ==> forall i, j | 0 <= i < j < |s.pc.fds| :: s.pc.fds[i].fd != s.pc.fds[j].fd)
  }

  lemma OpKeepsDistinct<P>(w: World<P>, op: Op<P>)
    requires DistinctKeys(w.reg) && Callable(w, op)
    ensures DistinctKeys(Apply(w, op).reg)
  {
    hide DistinctKeys, Touched;
    var sd := if Polls(op) || op.Destroy? then w.heap[op.p].sd else -1;
    RemoveForgets(w.reg, sd);
    if !Has(w.reg, sd) {
      AppendKeeps(w.reg, Entry(sd, op.p));
    }
  }

  lemma StepKeepsDistinct<P>(s: State<P>, l: Label<P>)
    requires Distinct(s) && Enabled(s, l)
    ensures Distinct(Step(s, l))
  {
    hide Translate, PollFlagsToEvents, Has, Apply, Remove;
    match l
    case User(op) => OpKeepsDistinct(s.w, op);
    case Handler(op) => OpKeepsDistinct(s.w, op);
    case Serve(_, _) => RemoveForgets(s.w.reg, s.pc.fds[s.pc.turn].fd);
    case CallbackReturns => RemoveForgets(s.w.reg, s.pc.fds[s.pc.turn].fd);
    case _ =>
  }

  lemma {:induction false} RunKeepsDistinct<P>(s: State<P>, ls: seq<Label<P>>)
    requires Distinct(s) && Valid(s, ls)
    ensures Distinct(Run(s, ls))
    decreases |ls|
  {
    hide Distinct, Step, Enabled;
    if ls != [] {
      StepKeepsDistinct(s, ls[0]);
      RunKeepsDistinct(Step(s, ls[0]), ls[1..]);
    }
  }

  // ----- Nothing ahead: no freed socket is ever followed -----

  /** What goes on while a cleanup waits for the event thread: steps of the thread, and calls from its callbacks and
      from other threads, as long as they free no further registered socket. */
  ghost predicate Meanwhile<P>(s: State<P>, ls: seq<Label<P>>) {
    Valid(s, ls) && DisciplinedRun(s, ls) && forall l | l in ls :: !l.OfControl()
  }

  ghost predicate Leaving<P>(w: World<P>) {
    w.die && !w.init
  }

  lemma DroppedDangles<P>(w: World<P>, fd: int, drop: bool, key: int)
    requires DistinctKeys(w.reg)
    ensures Dangles(Dropped(w, fd, drop), key) <==> Dangles(w, key) && !(drop && fd == key)
  {
    RemoveForgets(w.reg, fd);
    if key != fd {
      RemoveKeepsOthers(w.reg, fd, key);
    }
  }

  lemma OpMakesNoneDangle<P>(w: World<P>, op: Op<P>, key: int)
    requires DistinctKeys(w.reg) && Leaving(w) && Callable(w, op) && (op.Destroy? ==> !Registered(w, op.p))
    ensures Dangles(Apply(w, op), key) ==> Dangles(w, key)
  {
    var w' := Apply(w, op);
    if op.PollSection? {
      var sd := w.heap[op.p].sd;
      DroppedDangles(w, sd, true, key);
      if !Has(w.reg, sd) {
        AppendKeeps(w.reg, Entry(sd, op.p));
      }
    } else if Has(w.reg, key) {
      assert w.reg[IndexOf(w.reg, key)] in w.reg;
    }
  }

  lemma NoneDanglesIsLive<P>(w: World<P>)
    requires DistinctKeys(w.reg) && forall key :: !Dangles(w, key)
    ensures AllLive(w)
  {
    forall e | e in w.reg ensures e.val in w.heap {
      FindMember(w.reg, e);
      assert !Dangles(w, e.key);
    }
  }

  lemma ServeHarmless<P>(s: State<P>, l: Label<P>)
    requires Distinct(s) && Enabled(s, l) && l.Serve? && !Threatened(s)
    ensures ServeStep(s, l).pc != Fault && !Threatened(ServeStep(s, l))
  {
    hide Dangles, Translate, PollFlagsToEvents, Has;
    var fd, s' := s.pc.fds[s.pc.turn].fd, ServeStep(s, l);
    assert Ahead(s.pc, fd);
    FollowsOnlyDangling(s, l);
    forall key | Ahead(s'.pc, key) ensures !Dangles(s'.w, key) {
      assert Ahead(s.pc, key);
      ServeDangles(s, l, key);
    }
  }

  lemma FollowsOnlyDangling<P>(s: State<P>, l: Label<P>)
    requires Enabled(s, l) && l.Serve?
    ensures ServeStep(s, l).pc == Fault <==> Dangles(s.w, s.pc.fds[s.pc.turn].fd)
  {
    hide Translate, PollFlagsToEvents, Has;
  }

  lemma ServeDangles<P>(s: State<P>, l: Label<P>, key: int)
    requires DistinctKeys(s.w.reg) && Enabled(s, l) && l.Serve?
    ensures Dangles(ServeStep(s, l).w, key) ==> Dangles(s.w, key)
    ensures Dangles(s.w, key) && s.pc.fds[s.pc.turn].fd != key ==> Dangles(ServeStep(s, l).w, key)
  {
    hide Translate, PollFlagsToEvents, Has, DistinctKeys;
    if Target(s).Some? {
      var t := Translate(PolledFor(s, l));
      DroppedDangles(Translated(s.w, Target(s).value, t), s.pc.fds[s.pc.turn].fd, t.drop, key);
    }
  }

  lemma ThreadStepHarmless<P>(s: State<P>, l: Label<P>)
    requires Distinct(s) && Leaving(s.w) && !Threatened(s) && s.pc != Fault && Enabled(s, l) && l.OfThread()
    ensures Step(s, l).pc != Fault && !Threatened(Step(s, l)) && Leaving(Step(s, l).w)
  {
    hide Dangles;
    var s' := Step(s, l);
    if l.Serve? {
      ServeHarmless(s, l);
    } else if l.Snapshot? {
      forall key ensures !Dangles(s.w, key) {
        assert Ahead(s.pc, key);
      }
      NoneDanglesIsLive(s.w);
    } else {
      forall key | Ahead(s'.pc, key) ensures !Dangles(s'.w, key) {
        assert Ahead(s.pc, key);
        if l.CallbackReturns? {
          DroppedDangles(s.w, s.pc.fds[s.pc.turn].fd, s.pc.drop, key);
        }
      }
    }
  }

  lemma CallHarmless<P>(s: State<P>, l: Label<P>)
    requires Distinct(s) && Leaving(s.w) && !Threatened(s) && Enabled(s, l) && Disciplined(s, l)
    requires l.User? || l.Handler?
    ensures Step(s, l).pc == s.pc && !Threatened(Step(s, l)) && Leaving(Step(s, l).w)
  {
    hide Dangles, Apply;
    OpKeepsFlags(s.w, l.op);
    forall key | Ahead(s.pc, key) ensures !Dangles(Step(s, l).w, key) {
      OpMakesNoneDangle(s.w, l.op, key);
    }
  }

  lemma {:induction false} NothingAheadIsHarmless<P>(s: State<P>, ls: seq<Label<P>>)
    requires Distinct(s) && Leaving(s.w) && !Threatened(s) && s.pc != Fault && Meanwhile(s, ls)
    ensures Run(s, ls).pc != Fault
    decreases |ls|
  {
    hide Distinct, Leaving, Threatened, Step, Enabled, Disciplined;
    if ls != [] {
      assert ls[0] in ls;
      StepKeepsDistinct(s, ls[0]);
      if ls[0].OfThread() {
        ThreadStepHarmless(s, ls[0]);
      } else {
        CallHarmless(s, ls[0]);
      }
      NothingAheadIsHarmless(Step(s, ls[0]), ls[1..]);
    }
  }

  // ----- Something ahead: it can be followed -----

  lemma Prepend<P>(s: State<P>, l: Label<P>, ls: seq<Label<P>>)
    requires Enabled(s, l) && l.OfThread() && Meanwhile(Step(s, l), ls)
    ensures Meanwhile(s, [l] + ls) && Run(s, [l] + ls) == Run(Step(s, l), ls)
  {
    hide Enabled, Step;
    assert ([l] + ls)[0] == l && ([l] + ls)[1..] == ls;
  }

  lemma FollowNow<P>(s: State<P>, l: Label<P>, key: int)
    requires Enabled(s, l) && l.OfThread() && Dangles(s.w, key)
    requires l == Snapshot(true) || (l.Serve? && s.pc.fds[s.pc.turn].fd == key)
    ensures Step(s, l).pc == Fault
  {
    if l.Serve? {
      FollowsOnlyDangling(s, l);
    } else {
      assert s.w.reg[IndexOf(s.w.reg, key)] in s.w.reg;
    }
  }

  function Distance(pc: Pc): nat
    requires pc.WellFormed()
  {
    match pc
    case Polling(fds) => 2 * |fds| + 2
    case Serving(fds, _, turn) => 2 * (|fds| - turn) + 1
    case InCallback(fds, _, turn, _) => 2 * (|fds| - turn)
    case _ => 0
  }

  ghost predicate Closer<P>(s: State<P>, s': State<P>, key: int)
    requires s.pc.WellFormed()
  {
    s'.pc == Fault || (Distinct(s') && Dangles(s'.w, key) && Ahead(s'.pc, key) && Distance(s'.pc) < Distance(s.pc))
  }

  lemma ServingIsCloser<P>(s: State<P>, key: int)
    requires Distinct(s) && Dangles(s.w, key) && Ahead(s.pc, key) && s.pc.Serving?
    ensures Enabled(s, NextStep(s.pc)) && Closer(s, ServeStep(s, NextStep(s.pc)), key)
  {
    hide Dangles, DistinctKeys, Translate, PollFlagsToEvents, Has;
    var fds, turn := s.pc.fds, s.pc.turn;
    var i :| turn <= i < |fds| && fds[i].fd == key;
    StepKeepsDistinct(s, NextStep(s.pc));
    if fds[turn].fd == key {
      FollowNow(s, NextStep(s.pc), key);
    } else {
      ServeDangles(s, NextStep(s.pc), key);
    }
  }

  lemma ReturnIsCloser<P>(s: State<P>, key: int)
    requires Distinct(s) && Dangles(s.w, key) && Ahead(s.pc, key) && s.pc.InCallback?
    ensures Closer(s, Step(s, NextStep(s.pc)), key)
  {
    hide Dangles;
    StepKeepsDistinct(s, NextStep(s.pc));
    var i :| s.pc.turn < i < |s.pc.fds| && s.pc.fds[i].fd == key;
    DroppedDangles(s.w, s.pc.fds[s.pc.turn].fd, s.pc.drop, key);
  }

  lemma NextIsCloser<P>(s: State<P>, key: int)
    requires Distinct(s) && Dangles(s.w, key) && Ahead(s.pc, key)
    ensures Enabled(s, NextStep(s.pc)) && NextStep<P>(s.pc).OfThread() && Closer(s, Step(s, NextStep(s.pc)), key)
  {
    hide Dangles, ServeStep, Dropped;
    match s.pc
    case Locking => FollowNow(s, NextStep(s.pc), key);
    case Polling(fds) =>
      var i :| 0 <= i < |fds| && fds[i].fd == key;
      assert Step(s, NextStep(s.pc)).pc.fds[i].fd == key;
    case Serving(_, _, _) => ServingIsCloser(s, key);
    case InCallback(_, _, _, _) => ReturnIsCloser(s, key);
  }

  lemma {:induction false} AheadFollows<P>(s: State<P>, key: int) returns (ls: seq<Label<P>>)
    requires Distinct(s) && Dangles(s.w, key) && Ahead(s.pc, key)
    ensures Meanwhile(s, ls) && Run(s, ls).pc == Fault
    decreases Distance(s.pc)
  {
    hide Dangles, Distinct, Step, Enabled, Ahead, Distance, NextStep;
    NextIsCloser(s, key);
    var l := NextStep(s.pc);
    ls := [];
    if Step(s, l).pc != Fault {
      ls := AheadFollows(Step(s, l), key);
    }
    Prepend(s, l, ls);
    ls := [l] + ls;
  }

  lemma FollowedIffAhead<P>(s: State<P>)
    requires Distinct(s) && Leaving(s.w) && s.pc != Fault
    ensures Threatened(s) <==> exists ls: seq<Label<P>> :: Meanwhile(s, ls) && Run(s, ls).pc == Fault
  {
    hide Distinct, Leaving, Dangles, Ahead, Step, Enabled;
    if Threatened(s) {
      var key :| Dangles(s.w, key) && Ahead(s.pc, key);
      var ls := AheadFollows(s, key);
    } else {
      forall ls: seq<Label<P>> | Meanwhile(s, ls) ensures Run(s, ls).pc != Fault {
        NothingAheadIsHarmless(s, ls);
      }
    }
  }

  /** Over every history, and whatever has been freed in it: while a cleanup waits for the event thread, with `die` set
      and the flag down, the thread can still come to follow a freed socket exactly when one is registered under some
      descriptor and the thread is about to take a snapshot or has a turn left for that descriptor. Calls from callbacks
      and from other threads that free no further registered socket make no difference. */
  lemma {:induction false} FaultIsAhead<P>(rdHup: bool, quiet: bool, es: seq<Lifecycle.Event<P>>)
    requires History(Initial(rdHup, quiet), es)
    requires var s := After(Initial(rdHup, quiet), es).core; Leaving(s.w) && s.pc != Fault
    ensures var s := After(Initial(rdHup, quiet), es).core;
      (exists key :: Dangles(s.w, key) && Ahead(s.pc, key))
      <==> exists ls: seq<Label<P>> :: Meanwhile(s, ls) && Run(s, ls).pc == Fault
  {
    hide Inv, Meanwhile, Dangles, Ahead;
    InitialInv<P>(rdHup, quiet);
    HistoryIsRun(Initial(rdHup, quiet), es);
    RunKeepsDistinct(Initial(rdHup, quiet).core, Labels(Initial(rdHup, quiet), es));
    FollowedIffAhead(After(Initial(rdHup, quiet), es).core);
  }
}
