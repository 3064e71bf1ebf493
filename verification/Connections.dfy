/** What a connecting socket may be told, over whole runs. */
module Connections {
  import opened Events
  import opened Registry
  import opened World
  import opened Machine

  predicate Pending<P>(s: State<P>, p: P) {
    p in s.w.heap && IsSet(s.w.heap[p].bits, S_CONNECT)
  }

  predicate HasOp<P(==)>(l: Label<P>) {
    l.User? || l.Handler?
  }

  predicate Frees<P>(l: Label<P>, p: P) {
    HasOp(l) && l.op == Destroy(p)
  }

  /** A successful bal_connect_addrlist on the socket. */
  predicate Connects<P>(s: State<P>, l: Label<P>, p: P) {
    HasOp(l) && l.op == Connect(p, true) && p in s.w.heap && s.w.heap[p].sd != -1
  }

  /** Calls that withdraw a pending connection: closing, or shutting down the sending side. */
  predicate Cancels<P>(l: Label<P>, p: P) {
    HasOp(l) && (l.op == CloseDescriptor(p, true) || l.op == Shutdown(p, ShutBoth, true)
                 || l.op == Shutdown(p, ShutWrite, true))
  }

  predicate DeliversTo<P>(s: State<P>, l: Label<P>, p: P, evt: Event)
    requires Enabled(s, l)
  {
    Delivery(s, l).Some? && Delivery(s, l).value.0 == p && evt in Delivery(s, l).value.1
  }

  predicate DeliversOutcome<P>(s: State<P>, l: Label<P>, p: P)
    requires Enabled(s, l)
  {
    DeliversTo(s, l, p, EvtConnect) || DeliversTo(s, l, p, EvtConnFail)
  }

  // ----- One outcome per connect -----

  ghost function CountConnects<P>(s: State<P>, ls: seq<Label<P>>, p: P): nat
    requires Valid(s, ls)
    decreases |ls|
  {
    if ls == [] then 0
    else (if Connects(s, ls[0], p) then 1 else 0) + CountConnects(Step(s, ls[0]), ls[1..], p)
  }

  ghost function CountOutcomes<P>(s: State<P>, ls: seq<Label<P>>, p: P): nat
    requires Valid(s, ls)
    decreases |ls|
  {
    if ls == [] then 0
    else (if DeliversOutcome(s, ls[0], p) then 1 else 0) + CountOutcomes(Step(s, ls[0]), ls[1..], p)
  }

  function One(b: bool): nat {
    if b then 1 else 0
  }

  /** A turn that dispatches to the socket leaves it as translated, and delivers what was translated or nothing. */
  lemma ServedSocket<P>(s: State<P>, l: Label<P>, p: P)
    requires Enabled(s, l) && l.Serve? && Target(s) == Some(p)
    ensures var t := Translate(PolledFor(s, l));
      && p in ServeStep(s, l).w.heap
      && ServeStep(s, l).w.heap[p] == s.w.heap[p].(mask := t.mask, bits := t.bits)
      && Delivery(s, l) in {None, Some((p, t.out))}
      && (s.w.heap[p].proc.Some? && t.out != {} ==> Delivery(s, l).Some?)
  {
    hide Translate, PollFlagsToEvents, IndexOf, Remove;
  }

  lemma UnservedSocket<P>(s: State<P>, l: Label<P>, p: P)
    requires Enabled(s, l) && l.Serve? && Target(s) != Some(p) && p in s.w.heap
    ensures p in ServeStep(s, l).w.heap && ServeStep(s, l).w.heap[p] == s.w.heap[p]
    ensures Delivery(s, l) == None || Delivery(s, l).value.0 != p
  {
    hide Translate, PollFlagsToEvents, IndexOf, Remove;
  }

  lemma ServeOutcome<P>(s: State<P>, l: Label<P>, p: P)
    requires Enabled(s, l) && l.Serve? && p in s.w.heap
    ensures p in ServeStep(s, l).w.heap
    ensures One(DeliversOutcome(s, l, p)) + One(Pending(ServeStep(s, l), p)) <= One(Pending(s, p))
  {
    if Target(s) == Some(p) {
      ServedSocket(s, l, p);
      OutcomeDropsPending(PolledFor(s, l));
    } else {
      UnservedSocket(s, l, p);
    }
  }

  predicate Withdraws<P(==)>(op: Op<P>) {
    (op.CloseDescriptor? && op.success) || (op.Shutdown? && op.success && op.how != ShutRead)
  }

  /** Only a successful connect raises the pending bit, and only the cancelling calls lower it. */
  lemma TouchedPending<P>(s: Sock, op: Op<P>)
    requires Touches(op) && s.sd != -1
    ensures IsSet(Touched(s, op).bits, S_CONNECT)
       <==> (op.Connect? && op.accepted) || (IsSet(s.bits, S_CONNECT) && !Withdraws(op))
  {
    match op
    case CloseDescriptor(_, ok) => ClosePending(s, ok);
    case Shutdown(_, how, ok) => ShutdownPending(s, how, ok);
    case Connect(_, ok) => ConnectPending(s, ok);
    case Listen(_, ok) => ListenPending(s, ok);
    case _ =>
  }

  /** An API call leaves a socket's descriptor and bits alone, or is one of the single-socket calls on it. */
  lemma OpOnSocket<P>(w: World<P>, op: Op<P>, p: P)
    requires Callable(w, op) && p in w.heap && op != Destroy(p)
    ensures p in Apply(w, op).heap && Apply(w, op).heap[p].sd == w.heap[p].sd
    ensures if Touches(op) && op.p == p then Apply(w, op).heap[p] == Touched(w.heap[p], op)
            else Apply(w, op).heap[p].bits == w.heap[p].bits
  {
    hide Touched, IndexOf, Remove;
    if Touches(op) && op.p == p {
      TouchedKeepsSd(w.heap[p], op);
    }
  }

  lemma TouchedKeepsSd<P>(s: Sock, op: Op<P>)
    requires Touches(op)
    ensures Touched(s, op).sd == s.sd
  {
  }

  lemma OpOutcome<P>(w: World<P>, op: Op<P>, p: P)
    requires Callable(w, op) && p in w.heap && op != Destroy(p)
    ensures p in Apply(w, op).heap
    ensures IsSet(Apply(w, op).heap[p].bits, S_CONNECT)
        ==> IsSet(w.heap[p].bits, S_CONNECT) || (op == Connect(p, true) && w.heap[p].sd != -1)
  {
    OpOnSocket(w, op, p);
    if Touches(op) && op.p == p && w.heap[p].sd != -1 {
      TouchedPending(w.heap[p], op);
    }
  }

  lemma StepOutcome<P>(s: State<P>, l: Label<P>, p: P)
    requires Enabled(s, l) && p in s.w.heap && !Frees(l, p)
    ensures p in Step(s, l).w.heap
    ensures One(DeliversOutcome(s, l, p)) + One(Pending(Step(s, l), p)) <= One(Pending(s, p)) + One(Connects(s, l, p))
  {
    if HasOp(l) {
      OpOutcome(s.w, l.op, p);
    } else if l.Serve? {
      ServeOutcome(s, l, p);
    }
  }

  /** Over any run during which the socket lives: the outcomes delivered to it, plus one if a connection is still
      pending, never exceed its successful connects (plus one if a connection was pending at the start). */
  lemma {:induction false} OneOutcomePerConnect<P>(s: State<P>, ls: seq<Label<P>>, p: P)
    requires Valid(s, ls) && p in s.w.heap && forall l | l in ls :: !Frees(l, p)
    ensures CountOutcomes(s, ls, p) + One(Pending(Run(s, ls), p)) <= CountConnects(s, ls, p) + One(Pending(s, p))
    decreases |ls|
  {
    if ls != [] {
      StepOutcome(s, ls[0], p);
      OneOutcomePerConnect(Step(s, ls[0]), ls[1..], p);
    }
  }

  // ----- No I/O before the outcome -----

  /** Along the run the socket gets no outcome and nobody cancels the connection or frees the socket. */
  ghost predicate Undecided<P>(s: State<P>, ls: seq<Label<P>>, p: P)
    requires Valid(s, ls)
    decreases |ls|
  {
    ls == [] || (!DeliversOutcome(s, ls[0], p) && !Cancels(ls[0], p) && !Frees(ls[0], p)
                 && Undecided(Step(s, ls[0]), ls[1..], p))
  }

  lemma OpKeepsPending<P>(w: World<P>, op: Op<P>, p: P)
    requires Callable(w, op) && p in w.heap && IsSet(w.heap[p].bits, S_CONNECT)
    requires op != Destroy(p) && op != CloseDescriptor(p, true)
    requires op != Shutdown(p, ShutBoth, true) && op != Shutdown(p, ShutWrite, true)
    ensures p in Apply(w, op).heap && IsSet(Apply(w, op).heap[p].bits, S_CONNECT)
  {
    OpOnSocket(w, op, p);
    if Touches(op) && op.p == p && w.heap[p].sd != -1 {
      TouchedPending(w.heap[p], op);
    }
  }

  lemma ServeKeepsPending<P>(s: State<P>, l: Label<P>, p: P)
    requires Clean(s) && Enabled(s, l) && l.Serve? && Pending(s, p) && !DeliversOutcome(s, l, p)
    ensures Pending(ServeStep(s, l), p)
  {
    if Target(s) == Some(p) {
      ServedSocket(s, l, p);
      var t := Translate(PolledFor(s, l));
      assert s.w.reg[IndexOf(s.w.reg, s.pc.fds[s.pc.turn].fd)] in s.w.reg;
      OutcomeDropsPending(PolledFor(s, l));
    } else {
      UnservedSocket(s, l, p);
    }
  }

  lemma {:induction false} StaysPending<P>(s: State<P>, ls: seq<Label<P>>, p: P)
    requires Clean(s) && Valid(s, ls) && DisciplinedRun(s, ls) && Pending(s, p) && Undecided(s, ls, p)
    ensures Pending(Run(s, ls), p)
    decreases |ls|
  {
    if ls != [] {
      StepKeepsClean(s, ls[0]);
      if HasOp(ls[0]) {
        OpKeepsPending(s.w, ls[0].op, p);
      } else if ls[0].Serve? {
        ServeKeepsPending(s, ls[0], p);
      }
      StaysPending(Step(s, ls[0]), ls[1..], p);
    }
  }

  lemma PendingHearsNoIo<P>(s: State<P>, l: Label<P>, p: P)
    requires Enabled(s, l) && Pending(s, p)
    ensures !DeliversTo(s, l, p, EvtRead) && !DeliversTo(s, l, p, EvtWrite)
  {
  }

  /** From the moment a connection is pending until its outcome is delivered or it is cancelled, no delivery to the
      socket carries READ or WRITE; nor does the delivery that brings the outcome. */
  lemma NoIoBeforeOutcome<P>(s: State<P>, ls: seq<Label<P>>, l: Label<P>, p: P)
    requires Clean(s) && Valid(s, ls) && DisciplinedRun(s, ls) && Pending(s, p) && Undecided(s, ls, p)
    requires Enabled(Run(s, ls), l)
    ensures !DeliversTo(Run(s, ls), l, p, EvtRead) && !DeliversTo(Run(s, ls), l, p, EvtWrite)
  {
    StaysPending(s, ls, p);
    PendingHearsNoIo(Run(s, ls), l, p);
  }

  // ----- Silence after shutdown -----

  predicate Quiet<P>(s: State<P>, p: P) {
    p in s.w.heap ==> Mute(s.w.heap[p].mask)
  }

  /** Calls that put READ or WRITE into the socket's mask. */
  predicate Rouses<P>(l: Label<P>, p: P) {
    HasOp(l) && match l.op
      case AsyncPoll(q, _, mask, _, _) => q == p && !Mute(mask)
      case PollSection(q, _, mask, _, _) => q == p && !Mute(mask)
      case AddToMask(q, added) => q == p && !Mute(added)
      case Connect(q, accepted) => q == p && accepted
      case Listen(q, success) => q == p && success
      case _ => false
  }

  lemma TouchedMute<P>(s: Sock, op: Op<P>)
    requires Touches(op) && Mute(s.mask)
    requires op.AddToMask? ==> Mute(op.added)
    requires op.Connect? ==> !op.accepted
    requires op.Listen? ==> !op.success
    ensures Mute(Touched(s, op).mask)
  {
    match op
    case AddToMask(_, added) => HighAdds(s.mask, added);
    case RemoveFromMask(_, cleared) => LowDrops(s.mask, cleared);
    case Shutdown(_, how, ok) => ShutdownMutes(s, how, ok);
    case _ =>
  }

  lemma OpKeepsQuiet<P>(s: State<P>, l: Label<P>, p: P)
    requires Enabled(s, l) && HasOp(l) && Quiet(s, p) && !Rouses(l, p)
    ensures Quiet(Step(s, l), p)
  {
    if l.op.p != p {
      OtherSocket(s.w, l.op, p);
    } else if Touches(l.op) {
      TouchedMute(s.w.heap[p], l.op);
    }
  }

  lemma OtherSocket<P>(w: World<P>, op: Op<P>, p: P)
    requires Callable(w, op) && op.p != p
    ensures p in Apply(w, op).heap <==> p in w.heap
    ensures p in w.heap ==> Apply(w, op).heap[p] == w.heap[p]
  {
  }

  lemma ServeKeepsQuiet<P>(s: State<P>, l: Label<P>, p: P)
    requires Enabled(s, l) && l.Serve? && Quiet(s, p)
    ensures Quiet(ServeStep(s, l), p)
  {
    if Target(s) == Some(p) {
      ServedSocket(s, l, p);
      TranslateOnlyLowers(PolledFor(s, l));
    } else if p in s.w.heap {
      UnservedSocket(s, l, p);
    }
  }

  lemma {:induction false} StaysQuiet<P>(s: State<P>, ls: seq<Label<P>>, p: P)
    requires Valid(s, ls) && Quiet(s, p) && forall l | l in ls :: !Rouses(l, p)
    ensures Quiet(Run(s, ls), p)
    decreases |ls|
  {
    if ls != [] {
      if HasOp(ls[0]) {
        OpKeepsQuiet(s, ls[0], p);
      } else if ls[0].Serve? {
        ServeKeepsQuiet(s, ls[0], p);
      }
      StaysQuiet(Step(s, ls[0]), ls[1..], p);
    }
  }

  lemma QuietHearsNothing<P>(s: State<P>, l: Label<P>, p: P, evt: Event)
    requires Enabled(s, l) && Quiet(s, p)
    requires evt in {EvtRead, EvtWrite, EvtAccept, EvtConnect, EvtConnFail}
    ensures !DeliversTo(s, l, p, evt)
  {
  }

  /** After a successful shutdown of both directions the socket hears no READ, WRITE, ACCEPT, CONNECT or CONNFAIL until
      some call puts READ or WRITE back into its mask. */
  lemma SilenceAfterShutdown<P>(s: State<P>, shutdown: Label<P>, ls: seq<Label<P>>, l: Label<P>, p: P, evt: Event)
    requires Enabled(s, shutdown) && HasOp(shutdown) && shutdown.op == Shutdown(p, ShutBoth, true)
    requires s.w.heap[p].sd != -1
    requires Valid(Step(s, shutdown), ls) && forall k | k in ls :: !Rouses(k, p)
    requires Enabled(Run(Step(s, shutdown), ls), l)
    requires evt in {EvtRead, EvtWrite, EvtAccept, EvtConnect, EvtConnFail}
    ensures !DeliversTo(Run(Step(s, shutdown), ls), l, p, evt)
  {
    ShutdownMutes(s.w.heap[p], ShutBoth, true);
    StaysQuiet(Step(s, shutdown), ls, p);
    QuietHearsNothing(Run(Step(s, shutdown), ls), l, p, evt);
  }
}
