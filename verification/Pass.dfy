/** One pass of the event thread: which descriptors it serves, what it may deliver, and what it leaves behind,
    whatever other threads and callbacks do meanwhile. */
module Pass {
  import opened Events
  import opened Registry
  import opened World
  import opened Machine

  /** One turn of the serving loop: the state it found and the socket it dispatched to, if any. */
  datatype Turn<P(==)> = Turn(at: State<P>, target: Option<P>)

  ghost function Turns<P>(s: State<P>, ls: seq<Label<P>>): seq<Turn<P>>
    requires Valid(s, ls)
    decreases |ls|
  {
    if ls == [] then []
    else (if ls[0].Serve? then [Turn(s, Target(s))] else []) + Turns(Step(s, ls[0]), ls[1..])
  }

  /** The pass goes on: poll() reported something and the serving loop has not been left. */
  predicate Continues<P>(l: Label<P>) {
    !l.EndPass? && (l.PollReturns? ==> l.ready)
  }

  function TurnsTaken(pc: Pc): nat
    requires pc.InPass()
  {
    match pc
    case Polling(_) => 0
    case Serving(_, _, turn) => turn
    case InCallback(_, _, turn, _) => turn + 1
  }

  /** What poll() said is known in the later phases, and it conformed to what was asked. */
  ghost predicate Faithful(pc: Pc)
    requires pc.InPass() && pc.WellFormed()
  {
    !pc.Polling? ==> forall i | 0 <= i < |pc.fds| :: Conforms(pc.fds[i].events, pc.revents[i])
  }

  ghost predicate PollConforms<P>(s: State<P>, l: Label<P>)
    requires Enabled(s, l)
  {
    l.PollReturns? ==> forall i | 0 <= i < |s.pc.fds| :: Conforms(s.pc.fds[i].events, l.reported[i])
  }

  ghost predicate PollConformsRun<P>(s: State<P>, ls: seq<Label<P>>)
    requires Valid(s, ls)
    decreases |ls|
  {
    ls == [] || (PollConforms(s, ls[0]) && PollConformsRun(Step(s, ls[0]), ls[1..]))
  }

  /** A step inside a pass keeps the polled array and moves at most one turn forward. */
  lemma StepInPass<P>(s: State<P>, l: Label<P>)
    requires Clean(s) && s.pc.InPass() && Enabled(s, l) && Disciplined(s, l) && Continues(l)
    ensures var pc := Step(s, l).pc;
      && pc.InPass() && pc.WellFormed() && pc.fds == s.pc.fds
      && TurnsTaken(pc) == TurnsTaken(s.pc) + (if l.Serve? then 1 else 0)
      && (PollConforms(s, l) && Faithful(s.pc) ==> Faithful(pc))
      && Clean(Step(s, l)) && Step(s, l).rdHup == s.rdHup
  {
    StepKeepsClean(s, l);
  }

  lemma {:induction false} RunInPass<P>(s: State<P>, ls: seq<Label<P>>)
    requires Clean(s) && s.pc.InPass() && s.pc.WellFormed()
    requires Valid(s, ls) && DisciplinedRun(s, ls) && forall l | l in ls :: Continues(l)
    ensures var end := Run(s, ls);
      && Clean(end) && end.pc.InPass() && end.pc.WellFormed() && end.pc.fds == s.pc.fds
      && TurnsTaken(end.pc) == TurnsTaken(s.pc) + |Turns(s, ls)|
      && (PollConformsRun(s, ls) && Faithful(s.pc) ==> Faithful(end.pc))
      && end.rdHup == s.rdHup
    decreases |ls|
  {
    if ls != [] {
      StepInPass(s, ls[0]);
      RunInPass(Step(s, ls[0]), ls[1..]);
    }
  }

  // ----- Exactness -----

  /** A turn dispatches to a socket exactly when that socket is the one registered under the turn's descriptor at
      that moment and poll() reported an event for it. */
  ghost predicate Exact<P>(t: Turn<P>, fd: int) {
    && t.at.pc.Serving? && t.at.pc.WellFormed() && t.at.pc.turn < |t.at.pc.fds|
    && t.at.pc.fds[t.at.pc.turn].fd == fd
    && (t.target == None || Entry(fd, t.target.value) in t.at.w.reg)
    && (t.target == None <==> (forall e | e in t.at.w.reg :: e.key != fd)
                              || PollFlagsToEvents(t.at.rdHup, t.at.pc.revents[t.at.pc.turn]) == 0)
  }

  lemma ServeIsExact<P>(s: State<P>, l: Label<P>)
    requires Clean(s) && Enabled(s, l) && l.Serve?
    ensures Exact(Turn(s, Target(s)), s.pc.fds[s.pc.turn].fd)
  {
    var fd := s.pc.fds[s.pc.turn].fd;
    if Has(s.w.reg, fd) {
      FoundIsLive(s.w, fd);
      assert s.w.reg[IndexOf(s.w.reg, fd)] == Entry(fd, Find(s.w.reg, fd).value);
    } else {
      assert forall e | e in s.w.reg :: e.key != fd;
    }
  }

  lemma {:induction false} TurnsAreExact<P>(s: State<P>, ls: seq<Label<P>>)
    requires Clean(s) && s.pc.InPass() && s.pc.WellFormed()
    requires Valid(s, ls) && DisciplinedRun(s, ls) && forall l | l in ls :: Continues(l)
    ensures TurnsTaken(s.pc) + |Turns(s, ls)| <= |s.pc.fds|
    ensures forall i | 0 <= i < |Turns(s, ls)| :: Exact(Turns(s, ls)[i], s.pc.fds[TurnsTaken(s.pc) + i].fd)
    decreases |ls|
  {
    hide Exact, Clean, PollFlagsToEvents, Translate, Apply, Target, Disciplined, Continues, Step;
    if ls != [] {
      var s' := Step(s, ls[0]);
      StepInPass(s, ls[0]);
      TurnsAreExact(s', ls[1..]);
      if ls[0].Serve? {
        ServeIsExact(s, ls[0]);
        var rest := Turns(s', ls[1..]);
        assert forall i | 1 <= i < |Turns(s, ls)| :: Turns(s, ls)[i] == rest[i - 1];
      }
    }
  }

  /** A completed pass takes exactly one turn for each socket that was registered at the snapshot, in registration
      order and under distinct descriptors; each turn dispatches exactly when its descriptor is registered at that
      moment and has an event, and to the socket registered at that moment. */
  lemma PassExactness<P>(s: State<P>, ls: seq<Label<P>>)
    requires Clean(s) && s.pc == Polling(PollArray(s.rdHup, s.w))
    requires Valid(s, ls) && DisciplinedRun(s, ls) && forall l | l in ls :: Continues(l)
    requires Enabled(Run(s, ls), EndPass)
    ensures |Turns(s, ls)| == |s.w.reg| && DistinctKeys(s.w.reg)
    ensures forall i | 0 <= i < |s.w.reg| :: Exact(Turns(s, ls)[i], s.w.reg[i].key)
  {
    hide Exact, Valid, Run, Turns, PollFlagsToEvents, MaskToPollFlags, Callable, Locks, DisciplinedRun, Continues;
    RunInPass(s, ls);
    TurnsAreExact(s, ls);
  }

  // ----- Two-time gating -----

  /** Whatever happens between the snapshot and the turn, an on-request event is delivered only if it was in the mask
      registered under that descriptor at the snapshot and is in the receiving socket's mask at dispatch. */
  lemma TwoTimeGating<P>(s: State<P>, ls: seq<Label<P>>, l: Label<P>, p: P, out: set<Event>, evt: Event)
    requires Clean(s) && s.pc == Polling(PollArray(s.rdHup, s.w))
    requires Valid(s, ls) && DisciplinedRun(s, ls) && PollConformsRun(s, ls) && forall l | l in ls :: Continues(l)
    requires Enabled(Run(s, ls), l) && Delivery(Run(s, ls), l) == Some((p, out))
    requires evt in {EvtRead, EvtWrite, EvtOobRead, EvtOobWrite, EvtPriority} && evt in out
    ensures var now := Run(s, ls);
      && now.pc.turn < |s.w.reg|
      && Find(now.w.reg, s.w.reg[now.pc.turn].key) == Some(p)
      && evt in Decode(s.w.heap[s.w.reg[now.pc.turn].val].mask)
      && evt in Decode(now.w.heap[p].mask)
  {
    hide Translate, PollFlagsToEvents, MaskToPollFlags, Conforms, HasEvent, Valid, Run;
    RunInPass(s, ls);
    var now := Run(s, ls);
    DeliveredWasWanted(PolledFor(now, l), evt);
    ReportWasRequested(s.rdHup, s.w.heap[s.w.reg[now.pc.turn].val].mask, now.pc.revents[now.pc.turn], evt);
  }

  // ----- Nothing that was reported gets lost -----

  /** What poll() reported in a run, if it has returned. */
  function ReportIn<P>(ls: seq<Label<P>>): Option<seq<bv16>> {
    if ls == [] then None
    else if ReportIn(ls[1..]).Some? then ReportIn(ls[1..])
    else if ls[0].PollReturns? then Some(ls[0].reported)
    else None
  }

  ghost function ReportAfter<P>(pc: Pc, ls: seq<Label<P>>): Option<seq<bv16>> {
    if pc.Polling? then ReportIn(ls) else if pc.InPass() then Some(pc.revents) else None
  }

  lemma StepKeepsReport<P>(s: State<P>, l: Label<P>)
    requires Clean(s) && s.pc.InPass() && Enabled(s, l) && Disciplined(s, l) && Continues(l)
    ensures var pc := Step(s, l).pc;
      if s.pc.Polling? && l.PollReturns? then !pc.Polling? && pc.revents == l.reported
      else if s.pc.Polling? then pc.Polling?
      else !pc.Polling? && !l.PollReturns? && pc.revents == s.pc.revents
    ensures Step(s, l).pc.InPass()
  {
    hide Apply, Translate, PollFlagsToEvents, Clean;
    StepInPass(s, l);
  }

  /** Throughout a pass the event thread works on what poll() reported. */
  lemma {:induction false} ReportStays<P>(s: State<P>, ls: seq<Label<P>>)
    requires Clean(s) && s.pc.InPass() && s.pc.WellFormed()
    requires Valid(s, ls) && DisciplinedRun(s, ls) && forall l | l in ls :: Continues(l)
    ensures var pc := Run(s, ls).pc;
      && pc.InPass()
      && (!pc.Polling? ==> ReportAfter(s.pc, ls) == Some(pc.revents))
      && (!s.pc.Polling? ==> !pc.Polling? && ReportIn(ls) == None)
    decreases |ls|
  {
    hide Clean, Step, Enabled, Disciplined, Continues;
    if ls != [] {
      assert ls[0] in ls;
      StepInPass(s, ls[0]);
      StepKeepsReport(s, ls[0]);
      ReportStays(Step(s, ls[0]), ls[1..]);
    }
  }

  lemma SilenceIsNothing(i: Polled)
    requires i.raw == 0
    ensures Translate(i).out == {}
  {
    hide Decode, IsSet;
    DecodeNothing();
  }

  /** A turn for a descriptor that is not registered delivers nothing. */
  lemma UnregisteredHearsNothing<P>(s: State<P>, l: Label<P>)
    requires Enabled(s, l) && l.Serve? && !Has(s.w.reg, s.pc.fds[s.pc.turn].fd)
    ensures Delivery(s, l) == None && Step(s, l).w == s.w
  {
    hide Translate, PollFlagsToEvents, Has;
  }

  /** A turn delivers to the socket registered under its descriptor all that the translation yields, and stores the
      socket's new mask and bits. */
  lemma TurnDelivers<P>(s: State<P>, l: Label<P>, p: P)
    requires Clean(s) && Enabled(s, l) && l.Serve? && Find(s.w.reg, s.pc.fds[s.pc.turn].fd) == Some(p)
    ensures p in s.w.heap
    ensures var raw := PollFlagsToEvents(s.rdHup, s.pc.revents[s.pc.turn]);
      var t := Translate(Polled(raw, s.w.heap[p].mask, s.w.heap[p].bits, l.listening, !s.rdHup && l.peerClosed));
      && Delivery(s, l) == (if t.out == {} then None else Some((p, t.out)))
      && p in Step(s, l).w.heap && (raw != 0 ==> Step(s, l).w.heap[p] == s.w.heap[p].(mask := t.mask, bits := t.bits))
  {
    hide Translate, PollFlagsToEvents, IndexOf, Remove;
    var e := s.w.reg[IndexOf(s.w.reg, s.pc.fds[s.pc.turn].fd)];
    assert e in s.w.reg && e.val == p;
    var raw := PollFlagsToEvents(s.rdHup, s.pc.revents[s.pc.turn]);
    SilenceIsNothing(Polled(0, s.w.heap[p].mask, s.w.heap[p].bits, l.listening, !s.rdHup && l.peerClosed));
    StepKeepsClean(s, l);
  }

  /** Whatever happens between the snapshot and the turn, what poll() reported for a slot is what the turn for that slot
      translates, for the socket then registered under the slot's descriptor and with the mask and bits it then has. */
  lemma ReportIsDelivered<P>(s: State<P>, ls: seq<Label<P>>, l: Label<P>, p: P)
    requires Clean(s) && s.pc == Polling(PollArray(s.rdHup, s.w))
    requires Valid(s, ls) && DisciplinedRun(s, ls) && forall l | l in ls :: Continues(l)
    requires Enabled(Run(s, ls), l) && l.Serve?
    ensures ReportIn(ls).Some? && |ReportIn(ls).value| == |s.w.reg| && Run(s, ls).pc.turn < |s.w.reg|
    ensures var now, k := Run(s, ls), Run(s, ls).pc.turn;
      Find(now.w.reg, s.w.reg[k].key) == Some(p) ==> (
        && p in now.w.heap
        && var out := Translate(Polled(PollFlagsToEvents(s.rdHup, ReportIn(ls).value[k]), now.w.heap[p].mask,
                                       now.w.heap[p].bits, l.listening, !s.rdHup && l.peerClosed)).out;
           Delivery(now, l) == if out == {} then None else Some((p, out)))
  {
    hide Translate, PollFlagsToEvents, MaskToPollFlags, Valid, Run, Step, Find, Continues, DisciplinedRun, Delivery;
    RunInPass(s, ls);
    ReportStays(s, ls);
    var now := Run(s, ls);
    assert now.pc.Serving?;
    if Find(now.w.reg, s.w.reg[now.pc.turn].key) == Some(p) {
      TurnDelivers(now, l, p);
    }
  }

  /** For a socket that neither listens nor connects, one event after the other: it hears exactly what poll() reported
      for its slot and its mask has at that moment. (Without POLLRDHUP, readable data from a peer that has gone is
      reported as closed instead; see Events.OrdinaryHears.) */
  lemma ReportedIsHeard<P>(s: State<P>, ls: seq<Label<P>>, l: Label<P>, p: P)
    returns (out: set<Event>)
    requires Clean(s) && s.pc == Polling(PollArray(s.rdHup, s.w))
    requires Valid(s, ls) && DisciplinedRun(s, ls) && forall l | l in ls :: Continues(l)
    requires Enabled(Run(s, ls), l) && l.Serve? && Run(s, ls).pc.turn < |s.w.reg|
    requires Find(Run(s, ls).w.reg, s.w.reg[Run(s, ls).pc.turn].key) == Some(p) && p in Run(s, ls).w.heap
    requires !IsSet(Run(s, ls).w.heap[p].bits, S_CONNECT) && !l.listening && (s.rdHup || !l.peerClosed)
    ensures Delivery(Run(s, ls), l) == if out == {} then None else Some((p, out))
    ensures ReportIn(ls).Some? && |ReportIn(ls).value| == |s.w.reg|
    ensures var flags, mask := ReportIn(ls).value[Run(s, ls).pc.turn], Decode(Run(s, ls).w.heap[p].mask);
      && (EvtRead in out <==> FlagSet(flags, POLL_RDNORM) && EvtRead in mask)
      && (EvtWrite in out <==> FlagSet(flags, POLL_WRNORM) && EvtWrite in mask)
      && (EvtOobRead in out <==> FlagSet(flags, POLL_RDBAND) && EvtOobRead in mask)
      && (EvtOobWrite in out <==> FlagSet(flags, POLL_WRBAND) && EvtOobWrite in mask)
      && (EvtPriority in out <==> FlagSet(flags, POLL_PRI) && EvtPriority in mask)
      && (EvtClose in out
          <==> (FlagSet(flags, POLL_HUP) || (s.rdHup && FlagSet(flags, POLL_RDHUP))) && EvtClose in mask)
      && (EvtError in out <==> FlagSet(flags, POLL_ERR) && EvtError in mask)
      && (EvtInvalid in out <==> FlagSet(flags, POLL_NVAL) && EvtInvalid in mask)
      && EvtConnect !in out && EvtConnFail !in out && EvtAccept !in out
  {
    assert Run(s, ls).pc.Serving?;
    hide Translate, PollFlagsToEvents, MaskToPollFlags, Valid, Run, Step, Find, Continues, DisciplinedRun, Delivery;
    hide Clean, Enabled, Decode, FlagSet, IsSet;
    ReportIsDelivered(s, ls, l, p);
    var now, flags := Run(s, ls), ReportIn(ls).value[Run(s, ls).pc.turn];
    var i := Polled(PollFlagsToEvents(s.rdHup, flags), now.w.heap[p].mask, now.w.heap[p].bits, l.listening,
                    !s.rdHup && l.peerClosed);
    OrdinaryReport(s.rdHup, flags, i);
    out := Translate(i).out;
  }

  /** For a socket with a connection pending that still asks for WRITE: as soon as poll() reports it writable, the
      outcome is announced, and it is a failure exactly when the descriptor is also reported closed or in error. */
  lemma OutcomeIsHeard<P>(s: State<P>, ls: seq<Label<P>>, l: Label<P>, p: P)
    returns (out: set<Event>)
    requires Clean(s) && s.pc == Polling(PollArray(s.rdHup, s.w))
    requires Valid(s, ls) && DisciplinedRun(s, ls) && forall l | l in ls :: Continues(l)
    requires Enabled(Run(s, ls), l) && l.Serve? && Run(s, ls).pc.turn < |s.w.reg|
    requires Find(Run(s, ls).w.reg, s.w.reg[Run(s, ls).pc.turn].key) == Some(p) && p in Run(s, ls).w.heap
    requires IsSet(Run(s, ls).w.heap[p].bits, S_CONNECT) && EvtWrite in Decode(Run(s, ls).w.heap[p].mask)
    requires ReportIn(ls).Some? && |ReportIn(ls).value| == |s.w.reg|
    requires FlagSet(ReportIn(ls).value[Run(s, ls).pc.turn], POLL_WRNORM)
    ensures Delivery(Run(s, ls), l) == Some((p, out))
    ensures var flags := ReportIn(ls).value[Run(s, ls).pc.turn];
      var failed := FlagSet(flags, POLL_HUP) || (s.rdHup && FlagSet(flags, POLL_RDHUP)) || FlagSet(flags, POLL_ERR);
      && (EvtConnFail in out <==> failed) && (EvtConnect in out <==> !failed)
      && EvtRead !in out && EvtWrite !in out
  {
    assert Run(s, ls).pc.Serving?;
    hide Translate, PollFlagsToEvents, MaskToPollFlags, Valid, Run, Step, Find, Continues, DisciplinedRun, Delivery;
    hide Clean, Enabled, Decode, FlagSet, IsSet;
    ReportIsDelivered(s, ls, l, p);
    var now, flags := Run(s, ls), ReportIn(ls).value[Run(s, ls).pc.turn];
    var i := Polled(PollFlagsToEvents(s.rdHup, flags), now.w.heap[p].mask, now.w.heap[p].bits, l.listening,
                    !s.rdHup && l.peerClosed);
    ConnectingReport(s.rdHup, flags, i);
    out := Translate(i).out;
  }

  // ----- After the callback -----

  lemma {:induction false} CallbackWindow<P>(s: State<P>, ls: seq<Label<P>>)
    requires s.pc.InCallback? && Valid(s, ls) && CallbackReturns !in ls
    ensures Run(s, ls).pc == s.pc
    decreases |ls|
  {
    if ls != [] {
      CallbackWindow(Step(s, ls[0]), ls[1..]);
    }
  }

  /** Once a close or an invalid descriptor has been polled and dispatched, the descriptor is out of the registry: at
      once when no callback is made, and otherwise when the callback returns, whatever it did: nothing, a
      deregistration, freeing the socket, or registering another socket under the same descriptor. */
  lemma ClosedLeavesRegistry<P>(s: State<P>, l: Label<P>, during: seq<Label<P>>)
    requires Clean(s) && Enabled(s, l) && l.Serve? && Target(s).Some?
    requires EvtClose in Decode(PolledFor(s, l).raw) || EvtInvalid in Decode(PolledFor(s, l).raw)
    requires Valid(Step(s, l), during) && DisciplinedRun(Step(s, l), during) && CallbackReturns !in during
    ensures var fd := s.pc.fds[s.pc.turn].fd;
      if Delivery(s, l) == None then !Has(Step(s, l).w.reg, fd)
      else
        && Enabled(Run(Step(s, l), during), CallbackReturns)
        && !Has(Step(Run(Step(s, l), during), CallbackReturns).w.reg, fd)
  {
    StepKeepsClean(s, l);
    var s' := Step(s, l);
    if Delivery(s, l) == None {
      RemoveForgets(Translated(s.w, Target(s).value, Translate(PolledFor(s, l))).reg, s.pc.fds[s.pc.turn].fd);
    } else {
      CallbackWindow(s', during);
      RunKeepsClean(s', during);
      DroppedKeepsSafe(Run(s', during).w, s.pc.fds[s.pc.turn].fd, true);
    }
  }

  /** What becomes of an entry that is in the registry when a callback returns, be it old or made by the callback: it
      survives the return exactly when neither a close nor an invalid descriptor had been polled, or it is under
      another descriptor than the one polled. */
  lemma EntrySurvivesReturn<P>(s: State<P>, l: Label<P>, during: seq<Label<P>>, e: Entry<P>)
    requires Clean(s) && Enabled(s, l) && l.Serve? && Delivery(s, l).Some?
    requires Valid(Step(s, l), during) && DisciplinedRun(Step(s, l), during) && CallbackReturns !in during
    requires e in Run(Step(s, l), during).w.reg
    ensures Enabled(Run(Step(s, l), during), CallbackReturns)
    ensures var raw := Decode(PolledFor(s, l).raw);
      e in Step(Run(Step(s, l), during), CallbackReturns).w.reg
      <==> !(EvtClose in raw || EvtInvalid in raw) || e.key != s.pc.fds[s.pc.turn].fd
  {
    hide IndexOf, Remove, Valid, Run, Apply, PollFlagsToEvents;
    StepKeepsClean(s, l);
    CallbackWindow(Step(s, l), during);
    RunKeepsClean(Step(s, l), during);
    var now := Run(Step(s, l), during);
    RemoveDropsOnly(now.w.reg, s.pc.fds[s.pc.turn].fd, e);
  }
}
